/** The local project-status widget: three state cells updated by three handlers over a
    hard-coded project list. A submit with a selection and a status rewrites the status of
    the matching projects and raises the `statusUpdated` flag; choosing a project lowers it. */
module ProjectStatusUpdate {
  import opened Wrappers

  datatype LocalProject = LocalProject(id: string, name: string, status: string)

  /** The list the component starts with. */
  const InitialProjects: seq<LocalProject> := [
    LocalProject("1", "Website Redesign", "In Progress"),
    LocalProject("2", "Mobile App Development", "Pending"),
    LocalProject("3", "Customer Dashboard", "Completed")
  ]

  /** Whether some project in the list has this id. */
  predicate HasId(ps: seq<LocalProject>, id: string) {
    exists i :: 0 <= i < |ps| && ps[i].id == id
  }

  /** `projects.find((p) => p.id === id)`: the first project with that id, if any. */
  function FindById(ps: seq<LocalProject>, id: string): (r: Option<LocalProject>)
    ensures r.Some? <==> HasId(ps, id)
    ensures r.Some? ==> exists i :: && 0 <= i < |ps| && ps[i] == r.value && ps[i].id == id
                                   && forall j :: 0 <= j < i ==> ps[j].id != id
  {
    if ps == [] then None
    else if ps[0].id == id then Some(ps[0])
    else
      var r := FindById(ps[1..], id);
      FindInTail(ps, id, r);
      r
  }

  /** The step case of `FindById`: when the head does not match, the first match in the
      tail, shifted by one, is the first match in the list. */
  lemma FindInTail(ps: seq<LocalProject>, id: string, r: Option<LocalProject>)
    requires ps != [] && ps[0].id != id
    requires r.Some? <==> HasId(ps[1..], id)
    requires r.Some? ==> exists i :: && 0 <= i < |ps[1..]| && ps[1..][i] == r.value && ps[1..][i].id == id
                                     && forall j :: 0 <= j < i ==> ps[1..][j].id != id
    ensures r.Some? <==> HasId(ps, id)
    ensures r.Some? ==> exists i :: && 0 <= i < |ps| && ps[i] == r.value && ps[i].id == id
                                   && forall j :: 0 <= j < i ==> ps[j].id != id
  {
    if HasId(ps, id) {
      var i :| 0 <= i < |ps| && ps[i].id == id;
      assert ps[1..][i - 1].id == id;
    }
    if r.Some? {
      var i :| && 0 <= i < |ps[1..]| && ps[1..][i] == r.value && ps[1..][i].id == id
               && forall j :: 0 <= j < i ==> ps[1..][j].id != id;
      assert ps[i + 1] == r.value;
      forall j | 0 <= j < i + 1 ensures ps[j].id != id {
        if j > 0 { assert ps[j] == ps[1..][j - 1]; }
      }
    }
  }

  /** The `projects.map` of `handleSubmit`: every project with that id gets the new status;
      the length, the order and every other field stay. */
  function SetStatus(ps: seq<LocalProject>, id: string, status: string): (r: seq<LocalProject>)
    ensures |r| == |ps|
    ensures forall i :: 0 <= i < |ps| ==>
      r[i] == (if ps[i].id == id then ps[i].(status := status) else ps[i])
  {
    if ps == [] then []
    else [if ps[0].id == id then ps[0].(status := status) else ps[0]] + SetStatus(ps[1..], id, status)
  }

  /** Ids and names never change, and a status update for an unknown id changes nothing. */
  lemma SetStatusKeepsIdentity(ps: seq<LocalProject>, id: string, status: string)
    ensures forall i :: 0 <= i < |ps| ==>
      SetStatus(ps, id, status)[i].id == ps[i].id && SetStatus(ps, id, status)[i].name == ps[i].name
    ensures !HasId(ps, id) ==> SetStatus(ps, id, status) == ps
  {
  }

  /** Repeating an update with the same status changes nothing more. */
  lemma SetStatusIdempotent(ps: seq<LocalProject>, id: string, status: string)
    ensures SetStatus(SetStatus(ps, id, status), id, status) == SetStatus(ps, id, status)
  {
  }

  /** After an update every project with that id has the new status. */
  lemma SetStatusThenFind(ps: seq<LocalProject>, id: string, status: string)
    requires HasId(ps, id)
    ensures FindById(SetStatus(ps, id, status), id).Some?
    ensures FindById(SetStatus(ps, id, status), id).value.status == status
  {
    var r := SetStatus(ps, id, status);
    var i :| 0 <= i < |ps| && ps[i].id == id;
    assert r[i].id == id;
  }

  /** No project of the initial list has the placeholder id "". */
  lemma PlaceholderSelectsNothing()
    ensures FindById(InitialProjects, "") == None
  {
  }

  class StatusForm {
    var projects: seq<LocalProject>
    var selectedProject: string
    var newStatus: string
    var statusUpdated: bool

    constructor ()
      ensures projects == InitialProjects
      ensures selectedProject == "" && newStatus == "" && !statusUpdated
    {
      projects := InitialProjects;
      selectedProject := "";
      newStatus := "";
      statusUpdated := false;
    }

    /** `handleProjectChange`: selects `value`, copies the status of the project with that
        id into `newStatus` (left as it was when there is none) and lowers the flag. */
    method HandleProjectChange(value: string)
      modifies this`selectedProject, this`newStatus, this`statusUpdated
      ensures selectedProject == value && !statusUpdated
      ensures FindById(projects, value).Some? ==> newStatus == FindById(projects, value).value.status
      ensures FindById(projects, value).None? ==> newStatus == old(newStatus)
    {
      selectedProject := value;
      var project := FindById(projects, value);
      if project.Some? {
        newStatus := project.value.status;
      }
      statusUpdated := false;
    }

    /** `handleStatusChange`: only `newStatus` changes. */
    method HandleStatusChange(value: string)
      modifies this`newStatus
      ensures newStatus == value
    {
      newStatus := value;
    }

    /** `handleSubmit`: nothing happens without a selection and a status; otherwise the
        selected project's status becomes `newStatus` and the flag is raised. */
    method HandleSubmit()
      modifies this`projects, this`statusUpdated
      ensures selectedProject == "" || newStatus == "" ==>
        projects == old(projects) && statusUpdated == old(statusUpdated)
      ensures selectedProject != "" && newStatus != "" ==>
        projects == SetStatus(old(projects), selectedProject, newStatus) && statusUpdated
    {
      if selectedProject == "" || newStatus == "" {
        return;
      }
      projects := SetStatus(projects, selectedProject, newStatus);
      statusUpdated := true;
    }
  }
}
