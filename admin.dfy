/**
 The admin panel component: the two submit steps as functions of the list,
 the draft and the fresh id, lemmas about them together with deletion, and
 the component's state as a class whose methods are its event handlers.
 */
module Admin {
  import opened JsParseInt
  import opened Records
  import opened Lists

  /** The notice a handler raises: `toast.error` or `toast.success`. */
  datatype Toast = Error(text: string) | Success(text: string)

  datatype Tab = ProjectsTab | EquipmentTab

  const FillAllFields := "Please fill all fields"
  const ProjectAdded := "Project added successfully"
  const EquipmentAdded := "Equipment added successfully"
  const ProjectDeleted := "Project deleted"
  const EquipmentDeleted := "Equipment deleted"

  /** What a submit leaves behind: the notice, the list and the draft. */
  datatype Submission<T, D> = Submission(toast: Toast, list: seq<T>, draft: D)

  /** Submitting the project form. It fails, changing nothing, exactly when
      one of the six inputs is empty; otherwise it appends one project built
      from the draft under `freshId` and blanks every input. */
  function SubmitProject(projects: seq<Project>, draft: ProjectDraft, freshId: string): (r: Submission<Project, ProjectDraft>)
    ensures r.toast.Error? <==> exists f :: draft.Get(f) == ""
    ensures r.toast.Error? ==> r.toast.text == FillAllFields && r.list == projects && r.draft == draft
    ensures r.toast.Success? ==>
      && r.toast.text == ProjectAdded
      && |r.list| == |projects| + 1
      && r.list[..|projects|] == projects
      && r.list[|projects|].id == freshId
      && r.list[|projects|].projectName == draft.projectName
      && r.list[|projects|].customer == draft.customer
      && r.list[|projects|].oem == draft.oem
      && r.list[|projects|].operator == draft.operator
      && r.list[|projects|].activity == draft.activity
      && r.list[|projects|].noOfSites == ParseInt(draft.noOfSites)
      && r.list[|projects|].image == None
      && forall f :: r.draft.Get(f) == ""
  {
    if !draft.Complete() then Submission(Error(FillAllFields), projects, draft)
    else Submission(Success(ProjectAdded), projects + [NewProject(draft, freshId)], EmptyProjectDraft)
  }

  /** Submitting the equipment form. It fails, changing nothing, exactly
      when the title or the description is empty; otherwise it appends one
      entry carrying the draft's image text verbatim and blanks every input,
      the image included. */
  function SubmitEquipment(equipment: seq<Equipment>, draft: EquipmentDraft, freshId: string): (r: Submission<Equipment, EquipmentDraft>)
    ensures r.toast.Error? <==> draft.Get(Title) == "" || draft.Get(Description) == ""
    ensures r.toast.Error? ==> r.toast.text == FillAllFields && r.list == equipment && r.draft == draft
    ensures r.toast.Success? ==>
      && r.toast.text == EquipmentAdded
      && |r.list| == |equipment| + 1
      && r.list[..|equipment|] == equipment
      && r.list[|equipment|].id == freshId
      && r.list[|equipment|].title == draft.title
      && r.list[|equipment|].description == draft.description
      && r.list[|equipment|].image == Some(draft.image)
      && forall f :: r.draft.Get(f) == ""
  {
    if !draft.Complete() then Submission(Error(FillAllFields), equipment, draft)
    else Submission(Success(EquipmentAdded), equipment + [NewEquipment(draft, freshId)], EmptyEquipmentDraft)
  }

  /** Deleting the id of a project just added under an id no other project
      has gives back the list as it was before the add. */
  lemma DeleteUndoesAddProject(projects: seq<Project>, draft: ProjectDraft, freshId: string)
    requires draft.Complete()
    requires forall i :: 0 <= i < |projects| ==> projects[i].id != freshId
    ensures Without(SubmitProject(projects, draft, freshId).list, ProjectId, freshId) == projects
  {
    var added := NewProject(draft, freshId);
    WithoutAppend(projects, [added], ProjectId, freshId);
    WithoutAbsent(projects, ProjectId, freshId);
  }

  /** The same for equipment. */
  lemma DeleteUndoesAddEquipment(equipment: seq<Equipment>, draft: EquipmentDraft, freshId: string)
    requires draft.Complete()
    requires forall i :: 0 <= i < |equipment| ==> equipment[i].id != freshId
    ensures Without(SubmitEquipment(equipment, draft, freshId).list, EquipmentId, freshId) == equipment
  {
    var added := NewEquipment(draft, freshId);
    WithoutAppend(equipment, [added], EquipmentId, freshId);
    WithoutAbsent(equipment, EquipmentId, freshId);
  }

  /** Nothing keeps ids apart: adding under an id already in the list and
      then deleting it removes the old entry together with the new one. */
  lemma DeleteRemovesEveryMatch(projects: seq<Project>, draft: ProjectDraft, k: nat)
    requires draft.Complete() && k < |projects|
    ensures var r := Without(SubmitProject(projects, draft, projects[k].id).list, ProjectId, projects[k].id);
      |r| <= |projects| - 1 && projects[k] !in r
  {
    var id := projects[k].id;
    var after := SubmitProject(projects, draft, id).list;
    WithoutLength(after, ProjectId, id);
    assert after == projects + [NewProject(draft, id)];
    CountIdOfAppended(projects, NewProject(draft, id), ProjectId, id, k);
  }

  /** An entry of the list and an appended entry with the same id both count. */
  lemma {:induction false} CountIdOfAppended<T>(s: seq<T>, x: T, idOf: T -> string, id: string, k: nat)
    requires k < |s| && idOf(s[k]) == id && idOf(x) == id
    ensures CountId(s + [x], idOf, id) >= 2
  {
    if k == 0 {
      assert (s + [x])[1..] == s[1..] + [x];
      CountIdAtLeastOne(s[1..] + [x], idOf, id, |s| - 1);
    } else {
      assert (s + [x])[1..] == s[1..] + [x];
      CountIdOfAppended(s[1..], x, idOf, id, k - 1);
    }
  }

  /** A list with an entry that has the id counts it. */
  lemma {:induction false} CountIdAtLeastOne<T>(s: seq<T>, idOf: T -> string, id: string, k: nat)
    requires k < |s| && idOf(s[k]) == id
    ensures CountId(s, idOf, id) >= 1
  {
    if k > 0 {
      CountIdAtLeastOne(s[1..], idOf, id, k - 1);
    }
  }

  /** The state of the admin panel component. */
  class AdminPanel {
    var projects: seq<Project>
    var equipment: seq<Equipment>
    var activeTab: Tab
    var projectForm: ProjectDraft
    var equipmentForm: EquipmentDraft

    /** The panel as first rendered: the seed lists, the projects tab, blank
        forms. */
    constructor ()
      ensures projects == SeedProjects && equipment == SeedEquipment
      ensures activeTab == ProjectsTab
      ensures projectForm == EmptyProjectDraft && equipmentForm == EmptyEquipmentDraft
    {
      projects := SeedProjects;
      equipment := SeedEquipment;
      activeTab := ProjectsTab;
      projectForm := EmptyProjectDraft;
      equipmentForm := EmptyEquipmentDraft;
    }

    /** Submit of the project form; `freshId` stands for the clock reading
        the source turns into the new id. */
    method AddProject(freshId: string) returns (toast: Toast)
      modifies this
      ensures Submission(toast, projects, projectForm) == SubmitProject(old(projects), old(projectForm), freshId)
      ensures equipment == old(equipment) && equipmentForm == old(equipmentForm) && activeTab == old(activeTab)
    {
      if !projectForm.Complete() {
        toast := Error(FillAllFields);
        return;
      }
      var newProject := NewProject(projectForm, freshId);
      projects := projects + [newProject];
      projectForm := EmptyProjectDraft;
      toast := Success(ProjectAdded);
    }

    /** Submit of the equipment form. */
    method AddEquipment(freshId: string) returns (toast: Toast)
      modifies this
      ensures Submission(toast, equipment, equipmentForm) == SubmitEquipment(old(equipment), old(equipmentForm), freshId)
      ensures projects == old(projects) && projectForm == old(projectForm) && activeTab == old(activeTab)
    {
      if !equipmentForm.Complete() {
        toast := Error(FillAllFields);
        return;
      }
      var newEquipment := NewEquipment(equipmentForm, freshId);
      equipment := equipment + [newEquipment];
      equipmentForm := EmptyEquipmentDraft;
      toast := Success(EquipmentAdded);
    }

    /** The delete button of a project card: every project with the id goes,
        and the success notice is raised even when none had it. */
    method DeleteProject(id: string) returns (toast: Toast)
      modifies this
      ensures projects == Without(old(projects), ProjectId, id)
      ensures toast == Success(ProjectDeleted)
      ensures equipment == old(equipment) && projectForm == old(projectForm)
      ensures equipmentForm == old(equipmentForm) && activeTab == old(activeTab)
    {
      projects := Without(projects, ProjectId, id);
      toast := Success(ProjectDeleted);
    }

    /** The delete button of an equipment card. */
    method DeleteEquipment(id: string) returns (toast: Toast)
      modifies this
      ensures equipment == Without(old(equipment), EquipmentId, id)
      ensures toast == Success(EquipmentDeleted)
      ensures projects == old(projects) && projectForm == old(projectForm)
      ensures equipmentForm == old(equipmentForm) && activeTab == old(activeTab)
    {
      equipment := Without(equipment, EquipmentId, id);
      toast := Success(EquipmentDeleted);
    }

    /** Typing into an input of the project form. */
    method EditProjectField(f: ProjectField, v: string)
      modifies this
      ensures projectForm == old(projectForm).With(f, v)
      ensures projects == old(projects) && equipment == old(equipment)
      ensures equipmentForm == old(equipmentForm) && activeTab == old(activeTab)
    {
      projectForm := projectForm.With(f, v);
    }

    /** Typing into an input of the equipment form; for `Image`, the data URL
        the file reader delivers for the chosen file. */
    method EditEquipmentField(f: EquipmentField, v: string)
      modifies this
      ensures equipmentForm == old(equipmentForm).With(f, v)
      ensures projects == old(projects) && equipment == old(equipment)
      ensures projectForm == old(projectForm) && activeTab == old(activeTab)
    {
      equipmentForm := equipmentForm.With(f, v);
    }

    /** The button on the image preview that drops the chosen image. */
    method ClearImage()
      modifies this
      ensures equipmentForm == old(equipmentForm).With(Image, "")
      ensures projects == old(projects) && equipment == old(equipment)
      ensures projectForm == old(projectForm) && activeTab == old(activeTab)
    {
      equipmentForm := equipmentForm.(image := "");
    }

    /** A click on one of the two tab buttons. */
    method SelectTab(t: Tab)
      modifies this
      ensures activeTab == t
      ensures projects == old(projects) && equipment == old(equipment)
      ensures projectForm == old(projectForm) && equipmentForm == old(equipmentForm)
    {
      activeTab := t;
    }
  }

  /** On the seed list, a complete draft with "10" sites adds a third
      project after the two seeds, with 10 sites. */
  lemma SeedAddTenSites(freshId: string)
    ensures var r := SubmitProject(SeedProjects, ProjectDraft("X", "Y", "Z", "W", "Install", "10"), freshId);
      && r.toast == Success(ProjectAdded)
      && |r.list| == 3 && r.list[..2] == SeedProjects
      && r.list[2] == Project(freshId, "X", "Y", "Z", "W", "Install", Int(10), None)
      && r.draft == EmptyProjectDraft
  {
    var d := ProjectDraft("X", "Y", "Z", "W", "Install", "10");
    assert DecimalString(10) == "10";
    NewProjectFromNumberField(d, freshId, 10);
    assert d.Complete();
    assert SubmitProject(SeedProjects, d, freshId).list == SeedProjects + [NewProject(d, freshId)];
  }

  /** An empty site count is refused and the seed list stays at two. */
  lemma SeedAddWithoutSites(freshId: string)
    ensures var r := SubmitProject(SeedProjects, ProjectDraft("X", "Y", "Z", "W", "Install", ""), freshId);
      r.toast == Error(FillAllFields) && r.list == SeedProjects
  {
    assert !ProjectDraft("X", "Y", "Z", "W", "Install", "").Complete();
  }

  /** Deleting the first seed project leaves the second one alone. */
  lemma SeedDeleteFirst()
    ensures Without(SeedProjects, ProjectId, "1") == [SeedProjects[1]]
  {
  }

  /** The guard is truthiness only: blank names and a site count that is
      no integer get through, and the project is stored with NaN sites. */
  lemma BlankAndNonNumericAccepted(projects: seq<Project>, freshId: string)
    ensures var r := SubmitProject(projects, ProjectDraft(" ", " ", " ", " ", " ", ".5"), freshId);
      r.toast.Success? && r.list[|projects|].noOfSites == NaN
  {
    LeadingPointIsNaN();
  }

  /** An equipment entry submitted without an image is stored with the
      empty image text, not without one. */
  lemma EquipmentWithoutImage(equipment: seq<Equipment>, title: string, description: string, freshId: string)
    requires title != "" && description != ""
    ensures var r := SubmitEquipment(equipment, EquipmentDraft(title, description, ""), freshId);
      r.toast.Success? && r.list[|equipment|].image == Some("")
  {
  }
}
