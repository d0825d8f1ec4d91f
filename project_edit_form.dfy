/** The project edit form: initial values from the `project` prop, and a submit that
    rejects a blank name or description or an empty team or start date, and otherwise
    sends the values under the project's own id with an empty end date as `null`. */
module ProjectEditForm {
  import opened Wrappers
  import opened JsString
  import opened IdLists
  import opened Resolvers

  datatype TeamRef = TeamRef(id: Id)

  /** The `project` prop, with its team populated. */
  datatype ProjectProp = ProjectProp(
    id: Id,
    name: string,
    description: string,
    team: TeamRef,
    status: string)

  datatype EditState = EditState(
    name: string,
    description: string,
    teamId: string,
    startDate: string,
    endDate: string,
    status: string)

  /** The `updateProject` variables; `endDate` is None for `null`. */
  datatype UpdateProjectVars = UpdateProjectVars(
    id: Id,
    name: string,
    description: string,
    teamId: string,
    startDate: string,
    endDate: Option<string>,
    status: string)

  const RequiredMessage: string := "Name, description, team, and start date are required"

  /** The `useState` initial values; `startDate` and `endDate` are the project's dates as
      already formatted to YYYY-MM-DD, or "". */
  function InitialState(project: ProjectProp, startDate: string, endDate: string): (s: EditState)
    ensures s.name == project.name && s.description == project.description
    ensures s.teamId == project.team.id && s.status == project.status
    ensures s.startDate == startDate && s.endDate == endDate
  {
    EditState(project.name, project.description, project.team.id, startDate, endDate, project.status)
  }

  /** `handleSubmit`: rejected exactly when the trimmed name or description, the team or the
      start date is empty; otherwise the values go out untrimmed, `endDate || null`. */
  function HandleSubmit(project: ProjectProp, s: EditState): (r: Submission<UpdateProjectVars>)
    ensures r.Rejected? <==> AllWhitespace(s.name) || AllWhitespace(s.description)
                             || s.teamId == "" || s.startDate == ""
    ensures r.Rejected? ==> r.error == RequiredMessage
    ensures r.Submitted? ==> && r.vars.id == project.id
                             && r.vars.name == s.name && r.vars.description == s.description
                             && r.vars.teamId == s.teamId && r.vars.startDate == s.startDate
                             && r.vars.status == s.status
                             && (r.vars.endDate.None? <==> s.endDate == "")
                             && (r.vars.endDate.Some? ==> r.vars.endDate.value == s.endDate)
  {
    TrimEmptyIff(s.name);
    TrimEmptyIff(s.description);
    if Trim(s.name) == "" || Trim(s.description) == "" || s.teamId == "" || s.startDate == "" then
      Rejected(RequiredMessage)
    else
      Submitted(UpdateProjectVars(project.id, s.name, s.description, s.teamId, s.startDate,
                                  if s.endDate == "" then None else Some(s.endDate), s.status))
  }

  /** The `updateProject` arguments the server receives: `null` arrives as null. */
  function ServerArgs(v: UpdateProjectVars): (a: ProjectArgs)
    ensures a.endDate.Null? <==> v.endDate.None?
    ensures a.endDate.Given? ==> a.endDate.value == v.endDate.value
    ensures a.teamId == Some(v.teamId) && a.status == Some(v.status)
    ensures a.name == Some(v.name) && a.description == Some(v.description) && a.startDate == Some(v.startDate)
  {
    ProjectArgs(Some(v.name), Some(v.description), Some(v.teamId), Some(v.startDate),
                if v.endDate.None? then Null else Given(v.endDate.value), Some(v.status))
  }

  /** An accepted edit (a name and a description that are not blank, a team and a start
      date) moves the stored project to the chosen team, and an emptied end date
      clears the stored one rather than leaving it as it was. */
  lemma AcceptedEditReachesStore(project: ProjectProp, s: EditState, stored: Project)
    requires !AllWhitespace(s.name) && !AllWhitespace(s.description) && s.teamId != "" && s.startDate != ""
    ensures var p := ApplyProjectPatch(stored, UpdateData(ServerArgs(HandleSubmit(project, s).vars)));
      && p.team == s.teamId
      && p.name == s.name && p.description == s.description && p.startDate == s.startDate
      && (s.endDate == "" ==> p.endDate.None?)
      && (s.endDate != "" ==> p.endDate == Some(s.endDate))
  {
  }

  /** A form opened on a project and submitted unchanged is accepted when the project's
      name and description are not blank and it has a team and a start date, and it refers
      to the same team. */
  lemma UnchangedEditKeepsTeam(project: ProjectProp, startDate: string, endDate: string)
    requires !AllWhitespace(project.name) && !AllWhitespace(project.description)
    requires project.team.id != "" && startDate != ""
    ensures HandleSubmit(project, InitialState(project, startDate, endDate)).Submitted?
    ensures HandleSubmit(project, InitialState(project, startDate, endDate)).vars.teamId == project.team.id
  {
  }
}
