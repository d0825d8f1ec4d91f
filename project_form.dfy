/** The create-project form: one record of text fields, a field-wise input handler, and a
    submit that clears the error, rejects an empty required field (no trimming) and sends
    the fields with an empty end date left out. */
module ProjectForm {
  import opened Wrappers
  import opened Resolvers

  datatype FormData = FormData(
    name: string,
    description: string,
    teamId: string,
    startDate: string,
    endDate: string,
    status: string)

  /** The `name` attributes of the form's inputs. */
  datatype Field = Name | Description | TeamId | StartDate | EndDate | Status

  /** The `createProject` variables; `endDate` is None when left out (`undefined`). */
  datatype CreateProjectVars = CreateProjectVars(
    name: string,
    description: string,
    teamId: string,
    startDate: string,
    endDate: Option<string>,
    status: string)

  const RequiredMessage: string := "Project name, description, team, and start date are required"
  const InitialStatus: string := "Pending"

  function Get(d: FormData, f: Field): string {
    match f
    case Name => d.name
    case Description => d.description
    case TeamId => d.teamId
    case StartDate => d.startDate
    case EndDate => d.endDate
    case Status => d.status
  }

  /** `{ ...formData, [name]: value }`: the named field is set, the others stay. */
  function WithField(d: FormData, f: Field, value: string): (e: FormData)
    ensures Get(e, f) == value
    ensures forall g :: g != f ==> Get(e, g) == Get(d, g)
  {
    match f
    case Name => d.(name := value)
    case Description => d.(description := value)
    case TeamId => d.(teamId := value)
    case StartDate => d.(startDate := value)
    case EndDate => d.(endDate := value)
    case Status => d.(status := value)
  }

  /** One of the four required fields is the empty string; whitespace counts as filled. */
  predicate MissingRequired(d: FormData) {
    d.name == "" || d.description == "" || d.teamId == "" || d.startDate == ""
  }

  /** The variables object: `endDate || undefined`, the other fields as they are. */
  function Variables(d: FormData): (v: CreateProjectVars)
    ensures v.endDate.None? <==> d.endDate == ""
    ensures v.endDate.Some? ==> v.endDate.value == d.endDate
    ensures v.name == d.name && v.description == d.description && v.teamId == d.teamId
    ensures v.startDate == d.startDate && v.status == d.status
  {
    CreateProjectVars(d.name, d.description, d.teamId, d.startDate,
                      if d.endDate == "" then None else Some(d.endDate), d.status)
  }

  /** The `createProject` arguments the server receives for these variables. */
  function ServerArgs(v: CreateProjectVars): (a: NewProjectArgs)
    ensures a.teamId == v.teamId && a.status == Some(v.status) && a.endDate == v.endDate
    ensures a.name == v.name && a.description == v.description && a.startDate == v.startDate
  {
    NewProjectArgs(v.name, v.description, v.teamId, v.startDate, v.endDate, Some(v.status))
  }

  /** A project created from the form belongs to the chosen team and carries an end date
      exactly when one was entered. */
  lemma CreatedProjectMatchesForm(d: FormData)
    ensures NewProject(ServerArgs(Variables(d))).team == d.teamId
    ensures NewProject(ServerArgs(Variables(d))).endDate.Some? <==> d.endDate != ""
    ensures NewProject(ServerArgs(Variables(d))).status == Some(d.status)
  {
  }

  class ProjectFormState {
    var formData: FormData
    var error: string

    /** The initial form: empty fields, status "Pending", and `today` (the current date
        as YYYY-MM-DD) as the start date. */
    constructor (today: string)
      ensures formData == FormData("", "", "", today, "", InitialStatus)
      ensures error == ""
    {
      formData := FormData("", "", "", today, "", InitialStatus);
      error := "";
    }

    /** `handleInputChange`. */
    method HandleInputChange(f: Field, value: string)
      modifies this`formData
      ensures formData == WithField(old(formData), f, value)
    {
      formData := WithField(formData, f, value);
    }

    /** `handleSubmit`: the error is cleared first; a missing required field sets it and
        issues no call, otherwise the variables are sent and the error stays clear. */
    method HandleSubmit() returns (call: Option<CreateProjectVars>)
      modifies this`error
      ensures MissingRequired(formData) ==> call.None? && error == RequiredMessage
      ensures !MissingRequired(formData) ==> call == Some(Variables(formData)) && error == ""
    {
      error := "";
      if MissingRequired(formData) {
        error := RequiredMessage;
        return None;
      }
      call := Some(Variables(formData));
    }
  }
}
