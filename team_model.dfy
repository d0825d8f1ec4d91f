/** The `Team` schema: a required, trimmed, bounded name; a required, bounded description;
    a member id list; the status and expertise enums with their defaults; an optional,
    bounded slogan. */
module TeamModel {
  import opened Wrappers
  import opened JsString
  import opened IdLists
  import opened Schema

  datatype Team = Team(
    name: string,
    description: string,
    members: seq<Id>,
    status: string,
    teamSlogan: Option<string>,
    expertiseLevel: string)

  const Statuses: set<string> := {"Active", "Inactive"}
  const DefaultStatus: string := "Active"
  const ExpertiseLevels: set<string> := {"Beginner", "Intermediate", "Advanced", "Expert"}
  const DefaultExpertise: string := "Intermediate"
  const MaxName: nat := 50
  const MaxDescription: nat := 500
  const MaxSlogan: nat := 100

  function NameFailure(name: string): Option<string> {
    if name == "" then Some("Please add a team name")
    else if |name| > MaxName then Some("Team name cannot be more than 50 characters")
    else None
  }

  function DescriptionFailure(description: string): Option<string> {
    if description == "" then Some("Please add a description")
    else if |description| > MaxDescription then Some("Description cannot be more than 500 characters")
    else None
  }

  function StatusFailure(status: string): Option<string> {
    if status in Statuses then None else Some(EnumMessage(status, "status"))
  }

  function SloganFailure(teamSlogan: Option<string>): Option<string> {
    if teamSlogan.Some? && |teamSlogan.value| > MaxSlogan then Some("Team slogan cannot be more than 100 characters")
    else None
  }

  function ExpertiseFailure(level: string): Option<string> {
    if level in ExpertiseLevels then None else Some(EnumMessage(level, "expertiseLevel"))
  }

  function TeamErrors(t: Team): seq<FieldError> {
    ErrorAt("name", NameFailure(t.name))
      + ErrorAt("description", DescriptionFailure(t.description))
      + ErrorAt("status", StatusFailure(t.status))
      + ErrorAt("teamSlogan", SloganFailure(t.teamSlogan))
      + ErrorAt("expertiseLevel", ExpertiseFailure(t.expertiseLevel))
  }

  /** What the schema demands of a stored team. */
  predicate ValidTeam(t: Team)
    ensures ValidTeam(t) ==> && NameFailure(t.name).None? && DescriptionFailure(t.description).None?
                             && StatusFailure(t.status).None? && SloganFailure(t.teamSlogan).None?
                             && ExpertiseFailure(t.expertiseLevel).None?
  {
    && IsTrimmed(t.name) && 0 < |t.name| <= MaxName
    && 0 < |t.description| <= MaxDescription
    && t.status in Statuses
    && (t.teamSlogan.Some? ==> |t.teamSlogan.value| <= MaxSlogan)
    && t.expertiseLevel in ExpertiseLevels
  }

  /** A team with a trimmed name passes validation exactly when it is valid. */
  lemma TeamErrorsEmptyIff(t: Team)
    requires IsTrimmed(t.name)
    ensures TeamErrors(t) == [] <==> ValidTeam(t)
  {
    assert NameFailure(t.name).None? <==> 0 < |t.name| <= MaxName;
    assert DescriptionFailure(t.description).None? <==> 0 < |t.description| <= MaxDescription;
    assert StatusFailure(t.status).None? <==> t.status in Statuses;
    assert ExpertiseFailure(t.expertiseLevel).None? <==> t.expertiseLevel in ExpertiseLevels;
  }

  /** The document `Team.create` builds before validating: trimmed name, `[]` members,
      status "Active" and expertise "Intermediate" unless given. */
  function TeamDraft(name: string, description: string, members: Option<seq<Id>>,
                     teamSlogan: Option<string>, expertiseLevel: Option<string>): (t: Team)
    ensures IsTrimmed(t.name) && t.name == Trim(name) && t.description == description
    ensures t.members == (if members.None? then [] else members.value)
    ensures t.status == DefaultStatus && t.teamSlogan == teamSlogan
    ensures t.expertiseLevel == (if expertiseLevel.None? then DefaultExpertise else expertiseLevel.value)
  {
    Team(Trim(name), description,
         if members.None? then [] else members.value,
         DefaultStatus, teamSlogan,
         if expertiseLevel.None? then DefaultExpertise else expertiseLevel.value)
  }

  /** `Team.create`: the defaulted draft when it is valid, the validation error otherwise. */
  function CreateTeam(name: string, description: string, members: Option<seq<Id>>,
                      teamSlogan: Option<string>, expertiseLevel: Option<string>): (r: Result<Team>)
    ensures var t := TeamDraft(name, description, members, teamSlogan, expertiseLevel);
      && (r.Ok? <==> ValidTeam(t))
      && (r.Ok? ==> r.value == t)
      && (r.Err? ==> r.msg == ValidationMessage("Team", TeamErrors(t)) && TeamErrors(t) != [])
  {
    var t := TeamDraft(name, description, members, teamSlogan, expertiseLevel);
    TeamErrorsEmptyIff(t);
    var errs := TeamErrors(t);
    if errs == [] then Ok(t) else Err(ValidationMessage("Team", errs))
  }

  /** Defaults: a created team is Active, has no members unless given, and is
      Intermediate unless another level is given. */
  lemma CreateTeamDefaults(name: string, description: string, teamSlogan: Option<string>)
    ensures var r := CreateTeam(name, description, None, teamSlogan, None);
      r.Ok? ==> r.value.status == DefaultStatus && r.value.members == []
                && r.value.expertiseLevel == DefaultExpertise
  {
  }

  /** A valid Active team is accepted unchanged when created from its own fields. */
  lemma CreateTeamAcceptsValid(t: Team)
    requires ValidTeam(t) && t.status == DefaultStatus
    ensures CreateTeam(t.name, t.description, Some(t.members), t.teamSlogan, Some(t.expertiseLevel)) == Ok(t)
  {
    TrimOfTrimmed(t.name);
  }

  /** A name of only whitespace is rejected: it is empty once trimmed. */
  lemma BlankNameRejected(name: string, description: string, members: Option<seq<Id>>,
                          teamSlogan: Option<string>, expertiseLevel: Option<string>)
    requires AllWhitespace(name)
    ensures CreateTeam(name, description, members, teamSlogan, expertiseLevel).Err?
  {
    TrimEmptyIff(name);
  }
}
