/** The team edit form: its initial state from the `team` prop, the member toggle and the
    submit check, which rejects a blank name or description and otherwise sends the form's
    values, untrimmed, under the team's own id. */
module TeamEditForm {
  import opened Wrappers
  import opened JsString
  import opened IdLists

  /** A populated member as the `team` prop carries it. */
  datatype MemberRef = MemberRef(id: Id)

  /** The `team` prop: absent optional fields are None. */
  datatype TeamProp = TeamProp(
    id: Id,
    name: string,
    description: string,
    status: string,
    teamSlogan: Option<string>,
    expertiseLevel: Option<string>,
    members: Option<seq<MemberRef>>)

  /** The form's state cells. */
  datatype FormState = FormState(
    name: string,
    description: string,
    status: string,
    teamSlogan: string,
    expertiseLevel: string,
    members: seq<Id>)

  /** The variables of the `updateTeam` call. */
  datatype UpdateTeamVars = UpdateTeamVars(
    id: Id,
    name: string,
    description: string,
    status: string,
    teamSlogan: string,
    expertiseLevel: string,
    members: seq<Id>)

  const RequiredMessage: string := "Name and description are required"
  const DefaultExpertise: string := "Intermediate"

  /** `members.map((member) => member.id)`. */
  function MemberIds(refs: seq<MemberRef>): (ids: seq<Id>)
    ensures |ids| == |refs|
    ensures forall i :: 0 <= i < |refs| ==> ids[i] == refs[i].id
  {
    if refs == [] then [] else [refs[0].id] + MemberIds(refs[1..])
  }

  /** The `useState` initial values: a falsy slogan becomes "", a falsy expertise level
      "Intermediate", and missing members []. */
  function InitialState(team: TeamProp): (s: FormState)
    ensures s.name == team.name && s.description == team.description && s.status == team.status
    ensures s.teamSlogan == (if Truthy(team.teamSlogan) then team.teamSlogan.value else "")
    ensures s.expertiseLevel == (if Truthy(team.expertiseLevel) then team.expertiseLevel.value else DefaultExpertise)
    ensures team.members.None? ==> s.members == []
    ensures team.members.Some? ==> && |s.members| == |team.members.value|
                                   && forall i :: 0 <= i < |s.members| ==> s.members[i] == team.members.value[i].id
  {
    FormState(team.name, team.description, team.status,
              if Truthy(team.teamSlogan) then team.teamSlogan.value else "",
              if Truthy(team.expertiseLevel) then team.expertiseLevel.value else DefaultExpertise,
              if team.members.Some? then MemberIds(team.members.value) else [])
  }

  /** `handleMemberChange`: toggles `userId` in the member list and changes nothing else;
      `IdLists.Toggle` carries the membership, order and duplicate lemmas. */
  function HandleMemberChange(s: FormState, userId: Id): (t: FormState)
    ensures userId in t.members <==> userId !in s.members
    ensures forall y :: y != userId ==> (y in t.members <==> y in s.members)
    ensures Without(t.members, userId) == Without(s.members, userId)
    ensures userId !in s.members ==> t.members == s.members + [userId]
    ensures userId in s.members ==> multiset(t.members) == multiset(s.members)[userId := 0]
    ensures t.(members := s.members) == s
  {
    ToggleKeepsOthersInOrder(s.members, userId);
    s.(members := Toggle(s.members, userId))
  }

  /** `handleSubmit`: rejected exactly when the name or the description is blank once
      trimmed; otherwise the untrimmed values go out under the original team id. */
  function HandleSubmit(team: TeamProp, s: FormState): (r: Submission<UpdateTeamVars>)
    ensures r.Rejected? <==> AllWhitespace(s.name) || AllWhitespace(s.description)
    ensures r.Rejected? ==> r.error == RequiredMessage
    ensures r.Submitted? ==> && r.vars.id == team.id
                             && r.vars.name == s.name && r.vars.description == s.description
                             && r.vars.status == s.status && r.vars.teamSlogan == s.teamSlogan
                             && r.vars.expertiseLevel == s.expertiseLevel && r.vars.members == s.members
  {
    TrimEmptyIff(s.name);
    TrimEmptyIff(s.description);
    if Trim(s.name) == "" || Trim(s.description) == "" then Rejected(RequiredMessage)
    else Submitted(UpdateTeamVars(team.id, s.name, s.description, s.status, s.teamSlogan,
                                  s.expertiseLevel, s.members))
  }

  /** Editing the member list never changes which team is submitted, nor whether the
      submit is accepted. */
  lemma MemberChangeKeepsSubmit(team: TeamProp, s: FormState, userId: Id)
    ensures HandleSubmit(team, HandleMemberChange(s, userId)).Rejected? == HandleSubmit(team, s).Rejected?
    ensures HandleSubmit(team, HandleMemberChange(s, userId)).Submitted? ==>
              HandleSubmit(team, HandleMemberChange(s, userId)).vars.id == team.id
  {
  }

  /** A member list without duplicates stays so however many toggles follow. */
  lemma {:induction false} TogglesKeepNoDuplicates(s: FormState, userIds: seq<Id>)
    requires NoDuplicates(s.members)
    ensures NoDuplicates(ApplyToggles(s, userIds).members)
    decreases |userIds|
  {
    if userIds != [] {
      ToggleKeepsNoDuplicates(s.members, userIds[0]);
      TogglesKeepNoDuplicates(HandleMemberChange(s, userIds[0]), userIds[1..]);
    }
  }

  /** The state after a sequence of member clicks. */
  function ApplyToggles(s: FormState, userIds: seq<Id>): (t: FormState)
    ensures t.(members := s.members) == s
    ensures forall y :: y !in userIds ==> (y in t.members <==> y in s.members)
    decreases |userIds|
  {
    if userIds == [] then s else ApplyToggles(HandleMemberChange(s, userIds[0]), userIds[1..])
  }
}
