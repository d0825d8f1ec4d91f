/** The create-team form: one record of fields, a field-wise input handler, and a submit
    that clears the error, rejects an empty name or description and sends an empty member
    list and an empty slogan as left out. */
module TeamForm {
  import opened Wrappers
  import opened IdLists
  import opened TeamModel

  datatype FormData = FormData(
    name: string,
    description: string,
    members: seq<Id>,
    teamSlogan: string,
    expertiseLevel: string)

  /** The text inputs `handleInputChange` serves. */
  datatype Field = Name | Description | TeamSlogan | ExpertiseLevel

  /** The `createTeam` variables; None stands for `undefined`. */
  datatype CreateTeamVars = CreateTeamVars(
    name: string,
    description: string,
    members: Option<seq<Id>>,
    teamSlogan: Option<string>,
    expertiseLevel: string)

  const RequiredMessage: string := "Team name and description are required"

  const InitialForm: FormData := FormData("", "", [], "", DefaultExpertise)

  function Get(d: FormData, f: Field): string {
    match f
    case Name => d.name
    case Description => d.description
    case TeamSlogan => d.teamSlogan
    case ExpertiseLevel => d.expertiseLevel
  }

  /** `{ ...formData, [name]: value }`: the named field is set, the others and the member
      list stay. */
  function WithField(d: FormData, f: Field, value: string): (e: FormData)
    ensures Get(e, f) == value
    ensures forall g :: g != f ==> Get(e, g) == Get(d, g)
    ensures e.members == d.members
  {
    match f
    case Name => d.(name := value)
    case Description => d.(description := value)
    case TeamSlogan => d.(teamSlogan := value)
    case ExpertiseLevel => d.(expertiseLevel := value)
  }

  predicate MissingRequired(d: FormData) {
    d.name == "" || d.description == ""
  }

  /** The variables object: `members` only when non-empty, `teamSlogan || undefined`, and
      the expertise level always. */
  function Variables(d: FormData): (v: CreateTeamVars)
    ensures v.members.None? <==> d.members == []
    ensures v.members.Some? ==> v.members.value == d.members
    ensures v.teamSlogan.None? <==> d.teamSlogan == ""
    ensures v.teamSlogan.Some? ==> v.teamSlogan.value == d.teamSlogan
    ensures v.name == d.name && v.description == d.description && v.expertiseLevel == d.expertiseLevel
  {
    CreateTeamVars(d.name, d.description,
                   if |d.members| > 0 then Some(d.members) else None,
                   if d.teamSlogan == "" then None else Some(d.teamSlogan),
                   d.expertiseLevel)
  }

  /** Leaving an empty member list out is harmless: the server defaults it to the same []. */
  lemma OmittedMembersSameAsEmpty(d: FormData)
    ensures var v := Variables(d);
      TeamModel.CreateTeam(v.name, v.description, v.members, v.teamSlogan, Some(v.expertiseLevel))
      == TeamModel.CreateTeam(v.name, v.description, Some(d.members), v.teamSlogan, Some(v.expertiseLevel))
  {
    var v := Variables(d);
    if d.members == [] {
      var omitted := TeamDraft(v.name, v.description, None, v.teamSlogan, Some(v.expertiseLevel));
      var empty := TeamDraft(v.name, v.description, Some([]), v.teamSlogan, Some(v.expertiseLevel));
      assert omitted.members == [] == empty.members;
      assert omitted == empty;
    } else {
      assert v.members == Some(d.members);
    }
  }

  /** A team created from the initial form's defaults has the form's expertise level. */
  lemma DefaultsAgree()
    ensures InitialForm.expertiseLevel == TeamModel.DefaultExpertise
    ensures Variables(InitialForm).members.None?
  {
  }

  class TeamFormState {
    var formData: FormData
    var error: string

    constructor ()
      ensures formData == InitialForm && error == ""
    {
      formData := InitialForm;
      error := "";
    }

    /** `handleInputChange`. */
    method HandleInputChange(f: Field, value: string)
      modifies this`formData
      ensures formData == WithField(old(formData), f, value)
    {
      formData := WithField(formData, f, value);
    }

    /** `handleSubmit`: the error is cleared first; an empty name or description sets it
        and issues no call, otherwise the variables are sent and the error stays clear. */
    method HandleSubmit() returns (call: Option<CreateTeamVars>)
      modifies this`error
      ensures MissingRequired(formData) ==> call.None? && error == RequiredMessage
      ensures !MissingRequired(formData) ==> call == Some(Variables(formData)) && error == ""
    {
      error := "";
      if MissingRequired(formData) {
        error := RequiredMessage;
        return None;
      }
      call := Some(Variables(formData));
    }
  }
}
