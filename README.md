# Admin panel data controller

This project models the data side of the admin panel of the Eco Engineering
website. The panel keeps two ordered in-memory lists, projects and equipment,
one draft form for each list, and the active tab. Its handlers do the following:

- A submit checks the draft's required inputs. It then appends a new record
  built from the draft and blanks the draft, or it raises
  "Please fill all fields" and changes nothing.
- A delete filters out every entry that has the given id.
- An input updates exactly one draft field.
- The image preview's clear button empties the image field.
- A tab button switches the view only.

Modules:

- `JsParseInt` (`js_parse_int.dfy`): JavaScript's `parseInt` without a radix,
  which the project submit applies to the "No. of Sites" text. It skips
  leading white space, takes one optional sign, switches to base 16 after a
  `0x`/`0X` prefix and reads the longest run of digits. It gives NaN when no
  digit is there. `DecimalString` is its partner, the text a number field
  holds for a whole number.
- `Lists` (`lists.dfy`): `Without`, the `filter((x) => x.id !== id)` that
  both delete handlers use, with its lemmas.
- `Records` (`records.dfy`): the `ProjectData` and `EquipmentData` records,
  the two drafts as datatypes with field enumerations, and the draft
  updates. `With` is the object spread `{ ...form, field: value }`.
  `Complete` is the submit guard. The seed lists are here too.
- `Admin` (`admin.dfy`): `SubmitProject` and `SubmitEquipment` are pure step
  functions over the list, the draft and a fresh id. Lemmas relate the
  submit steps to deletion. The class `AdminPanel` holds the component's
  state slots. Its methods are the event handlers, and each one is specified
  by the functions above and states which state slots it leaves alone.

The clock reading that the source turns into a new id (`Date.now()`) is a
parameter, `freshId`, supplied by the caller. The model claims no uniqueness
for it. A notice (`toast.error` / `toast.success`) is returned as a `Toast`
value carrying the source's message text.

Two behaviours of the code are worth stating, because a reader might expect
otherwise:

- A site count that is not an integer is not refused. The project submit
  only checks that the text is non-empty, so `".5"` passes and is stored as
  NaN sites. `Admin.BlankAndNonNumericAccepted` proves this.
- Ids are not kept unique. Nothing in the code keeps them apart, and a
  delete removes every entry with the id (`Admin.DeleteRemovesEveryMatch`).
  A delete shrinks the list by exactly one only when exactly one entry has
  the id (`Lists.WithoutUnique`).

## Model

| member | source | states |
|---|---|---|
| `JsParseInt.ParseDecimalString` | client/pages/Admin.tsx:98 | `parseInt` turns the decimal text of any whole number `n` back into `n`. This holds with or without a `+`/`-` sign (giving `-n`). It also holds when non-digit text such as `.5` or `e3` follows, except that `0` followed by `x` opens a hex prefix. |
| `JsParseInt.ParseIntSkipsWhitespace` | client/pages/Admin.tsx:98 | Any leading JavaScript white space or line terminators leave the result of `parseInt` unchanged. |
| `JsParseInt.ParseHexDigits` | client/pages/Admin.tsx:98 | After a `0x` or `0X` prefix, the digits up to the first non-hex character are read in base 16, and the sign is applied. |
| `JsParseInt.ParseIntNaNIff` | client/pages/Admin.tsx:98 | `parseInt` gives NaN exactly when, after white space and one sign, no decimal digit follows, or a `0x`/`0X` prefix is followed by no hex digit. A negative result comes only from a leading minus. |
| `JsParseInt.EmptyIsNaN` | client/pages/Admin.tsx:98 | The empty text parses to NaN. |
| `JsParseInt.LeadingPointIsNaN` | client/pages/Admin.tsx:98 | `".5"`, which a number field accepts, parses to NaN. |
| `JsParseInt.BareHexPrefixIsNaN` | client/pages/Admin.tsx:98 | `"0x"` with no hex digit after it parses to NaN, not to 0. |
| `JsParseInt.DecimalStringValue` | client/pages/Admin.tsx:98 | The digits of the decimal text of `n` denote `n` in base 10. |
| `JsParseInt.DigitRun` | client/pages/Admin.tsx:98 | The digit run `parseInt` reads is the longest prefix made only of digits of the radix: every character before it is a digit, and the character after it is not. |
| `Lists.Without` | client/pages/Admin.tsx:151-158 | Filtering by id keeps no entry with that id, keeps every entry with a different id, and never grows the list. |
| `Lists.WithoutMultiplicity` | client/pages/Admin.tsx:152 | Each entry with a different id occurs in the result exactly as often as in the list. Entries with the id occur zero times. |
| `Lists.WithoutIsSubsequence` | client/pages/Admin.tsx:152 | The result keeps the entries in their original relative order. |
| `Lists.WithoutAppend` | client/pages/Admin.tsx:157 | Filtering a concatenation is the concatenation of the filtered parts. |
| `Lists.WithoutAbsent` | client/pages/Admin.tsx:152 | Deleting an id that no entry has leaves the list unchanged. |
| `Lists.WithoutIdempotent` | client/pages/Admin.tsx:157 | Deleting the same id twice gives the same list as deleting it once. |
| `Lists.WithoutLength` | client/pages/Admin.tsx:152 | The list shrinks by exactly the number of entries that have the id. |
| `Lists.WithoutUnique` | client/pages/Admin.tsx:152 | When exactly one entry has the id, a delete removes that entry and no other, and the length drops by one. |
| `Records.ProjectDraft.With` | client/pages/Admin.tsx:211-278 | A project-form input update makes the named field hold the new text and leaves the other five fields unchanged. |
| `Records.EquipmentDraft.With` | client/pages/Admin.tsx:359-373 | An equipment-form input update makes the named field hold the new text and leaves the other two fields unchanged. |
| `Records.ProjectDraft.Complete` | client/pages/Admin.tsx:79-86 | The project guard passes exactly when none of the six inputs is the empty string. |
| `Records.EquipmentDraft.Complete` | client/pages/Admin.tsx:130 | The equipment guard passes exactly when title and description are both non-empty. The image is not checked. |
| `Records.NewProject` | client/pages/Admin.tsx:91-99 | The created project has the given id, the draft's five text inputs verbatim, `parseInt` of the site text and no image. |
| `Records.NewProjectFromNumberField` | client/pages/Admin.tsx:98 | A site count typed as the decimal text of a whole number `n` is stored as `n`. |
| `Records.NewEquipment` | client/pages/Admin.tsx:135-140 | The created entry has the given id and an image. The draft, image text included, can be read back from it in full. |
| `Records.SeedLists` | client/pages/Admin.tsx:25-58 | Each seed list has two entries. Both lists use the ids "1" and "2", no seed entry has an image, and every seed project has a positive site count. |
| `Records.ProjectDraftExtensionality` | client/pages/Admin.tsx:61-68 | A project draft is determined by its six inputs: two drafts that agree on every input are equal. |
| `Records.EquipmentDraftExtensionality` | client/pages/Admin.tsx:70-74 | An equipment draft is determined by its three inputs: two drafts that agree on every input are equal. |
| `Records.ProjectDraftEdits` | client/pages/Admin.tsx:211-278 | Writing back a field's current text changes nothing. A second update of the same field overrides the first. |
| `Records.ProjectDraftEditsCommute` | client/pages/Admin.tsx:211-278 | Updates of two different project fields commute. |
| `Records.EquipmentDraftEdits` | client/pages/Admin.tsx:359-396 | Writing back a field's current text changes nothing. A second update of the same field, including the image clear, overrides the first. |
| `Admin.SubmitProject` | client/pages/Admin.tsx:76-111 | A project submit raises the error notice exactly when some input is empty, and then list and draft stay as they were. Otherwise it appends exactly one project and keeps every earlier entry in order. The new project has the fresh id, the draft's five text fields, `parseInt` of the site text and no image. Every draft input is then blank and the success notice is raised. |
| `Admin.SubmitEquipment` | client/pages/Admin.tsx:127-149 | An equipment submit raises the error notice exactly when title or description is empty, and then list and draft stay as they were. Otherwise it appends exactly one entry and keeps every earlier entry in order. The new entry has the fresh id, the title, the description and the draft's image text verbatim. Every draft input, the image included, is then blank. |
| `Admin.DeleteUndoesAddProject` | client/pages/Admin.tsx:91-153 | Adding a project under an id no project has, then deleting that id, gives back the original list. |
| `Admin.DeleteUndoesAddEquipment` | client/pages/Admin.tsx:135-158 | Adding equipment under an id no entry has, then deleting that id, gives back the original list. |
| `Admin.DeleteRemovesEveryMatch` | client/pages/Admin.tsx:91-152 | Adding a project under an id already in the list, then deleting that id, removes the old entry as well as the new one. |
| `Admin.SeedAddTenSites` | client/pages/Admin.tsx:26-111 | On the seed list, the draft X/Y/Z/W/Install/"10" is accepted. The list then has the two seeds followed by a project with 10 sites, and the draft is blank. |
| `Admin.SeedAddWithoutSites` | client/pages/Admin.tsx:79-89 | On the seed list, an empty site count is refused and the list stays at the two seeds. |
| `Admin.SeedDeleteFirst` | client/pages/Admin.tsx:26-45 | Deleting id "1" from the seed project list leaves only the second seed project. |
| `Admin.BlankAndNonNumericAccepted` | client/pages/Admin.tsx:79-98 | Blank-looking text and a site count that is no integer pass the guard. The project is stored with NaN sites. |
| `Admin.EquipmentWithoutImage` | client/pages/Admin.tsx:135-142 | Equipment submitted without an image is stored with the empty image text. |
| `Admin.AdminPanel.constructor` | client/pages/Admin.tsx:26-74 | The panel starts with the two seed lists, the projects tab and blank forms. |
| `Admin.AdminPanel.AddProject` | client/pages/Admin.tsx:76-111 | The submit handler's notice, new project list and new draft are those of `SubmitProject`. Equipment list, equipment draft and tab do not change. |
| `Admin.AdminPanel.AddEquipment` | client/pages/Admin.tsx:127-149 | The submit handler's notice, new equipment list and new draft are those of `SubmitEquipment`. Project list, project draft and tab do not change. |
| `Admin.AdminPanel.DeleteProject` | client/pages/Admin.tsx:151-154 | The project list becomes `Without` of the old list and the id. "Project deleted" is raised even when no entry had the id. Nothing else changes. |
| `Admin.AdminPanel.DeleteEquipment` | client/pages/Admin.tsx:156-159 | The equipment list becomes `Without` of the old list and the id. "Equipment deleted" is raised. Nothing else changes. |
| `Admin.AdminPanel.EditProjectField` | client/pages/Admin.tsx:211-278 | The project draft becomes the old draft with one field replaced. No list, the other draft and the tab do not change. |
| `Admin.AdminPanel.EditEquipmentField` | client/pages/Admin.tsx:359-373 | The equipment draft becomes the old draft with one field replaced. No list, the other draft and the tab do not change. |
| `Admin.AdminPanel.ClearImage` | client/pages/Admin.tsx:396 | Only the equipment draft's image becomes empty. Title, description, lists, the project draft and the tab do not change. |
| `Admin.AdminPanel.SelectTab` | client/pages/Admin.tsx:176-186 | The active tab becomes the chosen tab. No list or draft changes. |

## Left out

- Rendering: the JSX markup and styling, the image placeholder, and the
  whole page shell in `client/components/Layout.tsx`. The shell's only state
  is the mobile-menu flag.
- Toasts: the notice library is a foreign UI component. A notice is modelled
  as the `Toast` value a handler returns, carrying the source's message text.
- `handleImageUpload` (client/pages/Admin.tsx:113-125): the asynchronous file
  read is browser I/O. The data URL it produces arrives as the text given to
  `EditEquipmentField(Image, …)`. Three things are therefore not modelled:
  the early return when no file is chosen, the unused `isEquipment = false`
  path, and the read callback spreading the draft as it was when the file was
  chosen. Because of that spread, an edit made during the read would be
  overwritten.
- `Date.now()`: a caller-supplied `freshId` replaces it. No claim about
  uniqueness is made, because the code makes none.
- `JsParseInt.ParseInt`: results are unbounded integers. JavaScript numbers
  lose precision past 2^53 and overflow to Infinity for very long digit runs;
  neither is modelled. JavaScript's `parseInt("-0")` is the number -0, which
  the model gives as `Int(0)`; the two look the same on screen.
- React `useState` mechanics, re-rendering, `e.preventDefault()` and routing.
  Each handler is modelled as one atomic step on the state.
- The `image` field of `ProjectData` is declared but never set by any
  handler. It is always `None` in the model.
