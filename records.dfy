/**
 The admin panel's records (`ProjectData`, `EquipmentData`), the two draft
 forms with their field-by-field updates, and the seed data the panel starts
 with.
 */
module Records {
  import opened JsParseInt

  datatype Option<T> = None | Some(value: T)

  /** A created project. `noOfSites` is what `parseInt` made of the draft's
      text; `image` is declared by the record but never filled in. */
  datatype Project = Project(
    id: string,
    projectName: string,
    customer: string,
    oem: string,
    operator: string,
    activity: string,
    noOfSites: ParsedInt,
    image: Option<string>)

  /** A created piece of equipment; the seed entries have no image at all,
      created ones carry the draft's image text, possibly empty. */
  datatype Equipment = Equipment(id: string, title: string, description: string, image: Option<string>)
  {
    /** The equipment form that holds this entry's texts. */
    function Draft(): EquipmentDraft
      requires image.Some?
    {
      EquipmentDraft(title, description, image.value)
    }
  }

  function ProjectId(p: Project): string { p.id }

  function EquipmentId(e: Equipment): string { e.id }

  /** The six inputs of the "Add New Project" form. */
  datatype ProjectField = ProjectName | Customer | Oem | Operator | Activity | NoOfSites

  /** The draft behind the project form: the raw text of every input. */
  datatype ProjectDraft = ProjectDraft(
    projectName: string,
    customer: string,
    oem: string,
    operator: string,
    activity: string,
    noOfSites: string)
  {
    function Get(f: ProjectField): string {
      match f
      case ProjectName => projectName
      case Customer => customer
      case Oem => oem
      case Operator => operator
      case Activity => activity
      case NoOfSites => noOfSites
    }

    /** `{ ...projectForm, f: v }`: the input `f` now holds `v`, every other
        input keeps its text. */
    function With(f: ProjectField, v: string): (d: ProjectDraft)
      ensures d.Get(f) == v
      ensures forall g :: g != f ==> d.Get(g) == Get(g)
    {
      match f
      case ProjectName => this.(projectName := v)
      case Customer => this.(customer := v)
      case Oem => this.(oem := v)
      case Operator => this.(operator := v)
      case Activity => this.(activity := v)
      case NoOfSites => this.(noOfSites := v)
    }

    /** The submit guard: every input is truthy, that is, non-empty. Blank
        text passes, and so does text that is not a number. */
    predicate Complete()
      ensures Complete() <==> forall f :: Get(f) != ""
    {
      && Get(ProjectName) != "" && Get(Customer) != "" && Get(Oem) != ""
      && Get(Operator) != "" && Get(Activity) != "" && Get(NoOfSites) != ""
    }
  }

  const EmptyProjectDraft := ProjectDraft("", "", "", "", "", "")

  /** The three inputs of the "Add New Equipment" form. */
  datatype EquipmentField = Title | Description | Image

  /** The draft behind the equipment form; `image` holds the data URL of the
      chosen file, or "" when there is none. */
  datatype EquipmentDraft = EquipmentDraft(title: string, description: string, image: string)
  {
    function Get(f: EquipmentField): string {
      match f
      case Title => title
      case Description => description
      case Image => image
    }

    /** `{ ...equipmentForm, f: v }`: the input `f` now holds `v`, every
        other input keeps its text. */
    function With(f: EquipmentField, v: string): (d: EquipmentDraft)
      ensures d.Get(f) == v
      ensures forall g :: g != f ==> d.Get(g) == Get(g)
    {
      match f
      case Title => this.(title := v)
      case Description => this.(description := v)
      case Image => this.(image := v)
    }

    /** The submit guard: title and description are non-empty; the image is
        optional. */
    predicate Complete()
      ensures Complete() <==> forall f :: f != Image ==> Get(f) != ""
    {
      Get(Title) != "" && Get(Description) != ""
    }
  }

  const EmptyEquipmentDraft := EquipmentDraft("", "", "")

  /** The project the form's submit creates from `d` under `id`: the five
      text inputs verbatim, `parseInt` of the site text, and no image. */
  function NewProject(d: ProjectDraft, id: string): (p: Project)
    ensures p.id == id && p.image == None
    ensures p.projectName == d.Get(ProjectName) && p.customer == d.Get(Customer) && p.oem == d.Get(Oem)
    ensures p.operator == d.Get(Operator) && p.activity == d.Get(Activity)
    ensures p.noOfSites == ParseInt(d.Get(NoOfSites))
  {
    Project(id, d.projectName, d.customer, d.oem, d.operator, d.activity, ParseInt(d.noOfSites), None)
  }

  /** The equipment the form's submit creates from `d` under `id`; the
      draft can be read back from it in full. */
  function NewEquipment(d: EquipmentDraft, id: string): (e: Equipment)
    ensures e.id == id && e.image.Some?
    ensures forall f :: e.Draft().Get(f) == d.Get(f)
  {
    Equipment(id, d.title, d.description, Some(d.image))
  }

  /** A site count typed as the decimal text of a whole number is stored as
      that number. */
  lemma NewProjectFromNumberField(d: ProjectDraft, id: string, n: nat)
    requires d.noOfSites == DecimalString(n)
    ensures NewProject(d, id).noOfSites == Int(n)
  {
    ParseDecimalString(n, "");
    assert DecimalString(n) + "" == DecimalString(n);
  }

  /** Two project drafts that agree on every input are the same draft. */
  lemma ProjectDraftExtensionality(a: ProjectDraft, b: ProjectDraft)
    requires forall f :: a.Get(f) == b.Get(f)
    ensures a == b
  {
    assert a.Get(ProjectName) == b.Get(ProjectName) && a.Get(Customer) == b.Get(Customer);
    assert a.Get(Oem) == b.Get(Oem) && a.Get(Operator) == b.Get(Operator);
    assert a.Get(Activity) == b.Get(Activity) && a.Get(NoOfSites) == b.Get(NoOfSites);
  }

  /** Two equipment drafts that agree on every input are the same draft. */
  lemma EquipmentDraftExtensionality(a: EquipmentDraft, b: EquipmentDraft)
    requires forall f :: a.Get(f) == b.Get(f)
    ensures a == b
  {
    assert a.Get(Title) == b.Get(Title) && a.Get(Description) == b.Get(Description);
    assert a.Get(Image) == b.Get(Image);
  }

  /** Typing the text an input already holds changes nothing, and a second
      edit of the same input overwrites the first. */
  lemma ProjectDraftEdits(d: ProjectDraft, f: ProjectField, v: string, w: string)
    ensures d.With(f, d.Get(f)) == d
    ensures d.With(f, v).With(f, w) == d.With(f, w)
  {
  }

  /** Edits of two different project inputs commute. */
  lemma ProjectDraftEditsCommute(d: ProjectDraft, f: ProjectField, v: string, g: ProjectField, w: string)
    requires f != g
    ensures d.With(f, v).With(g, w) == d.With(g, w).With(f, v)
  {
  }

  /** Typing the text an input already holds changes nothing, and a second
      edit of the same input overwrites the first. */
  lemma EquipmentDraftEdits(d: EquipmentDraft, f: EquipmentField, v: string, w: string)
    ensures d.With(f, d.Get(f)) == d
    ensures d.With(f, v).With(f, w) == d.With(f, w)
  {
  }

  /** The initial project list of the panel. */
  const SeedProjects: seq<Project> := [
    Project("1", "Site Expansion Phase 1", "Teleco Lanka", "Ericsson", "Dialog", "Installation", Int(35), None),
    Project("2", "Fiber Rollout North", "ConnectNet", "Huawei", "SLT", "Maintenance", Int(55), None)
  ]

  /** The initial equipment list of the panel; its ids repeat the project
      seed ids. */
  const SeedEquipment: seq<Equipment> := [
    Equipment("1", "Fiber Optic Splicing Unit", "Precision equipment for seamless fiber connections", None),
    Equipment("2", "OTDR Testing Equipment", "Advanced diagnostics for network quality assurance", None)
  ]

  /** The two seed lists hold two entries each, with ids "1" and "2" in both
      lists, no image anywhere, and a positive site count on every project. */
  lemma SeedLists()
    ensures |SeedProjects| == 2 && |SeedEquipment| == 2
    ensures SeedProjects[0].id == "1" && SeedProjects[1].id == "2"
    ensures forall i :: 0 <= i < 2 ==> SeedEquipment[i].id == SeedProjects[i].id
    ensures forall i :: 0 <= i < 2 ==> SeedProjects[i].image == None && SeedEquipment[i].image == None
    ensures forall i :: 0 <= i < 2 ==> SeedProjects[i].noOfSites.Int? && SeedProjects[i].noOfSites.value > 0
  {
  }
}
