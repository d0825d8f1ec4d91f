/** What Mongoose reports when a document breaks its schema or a unique index:
    one error per path, collected in schema order into a ValidationError message,
    and the MongoDB duplicate-key error. */
module Schema {
  import opened Wrappers

  datatype FieldError = FieldError(path: string, message: string)

  /** The error a path contributes: none, or the first of its validators that failed. */
  function ErrorAt(path: string, failure: Option<string>): (errs: seq<FieldError>)
    ensures failure.None? ==> errs == []
    ensures failure.Some? ==> errs == [FieldError(path, failure.value)]
  {
    if failure.None? then [] else [FieldError(path, failure.value)]
  }

  function JoinErrors(errs: seq<FieldError>): string
    decreases |errs|
  {
    if errs == [] then ""
    else
      var first := errs[0].path + ": " + errs[0].message;
      if |errs| == 1 then first else first + ", " + JoinErrors(errs[1..])
  }

  /** The message of a Mongoose `ValidationError` for `model`. */
  function ValidationMessage(model: string, errs: seq<FieldError>): string {
    model + " validation failed: " + JoinErrors(errs)
  }

  /** Mongoose's default message for a value outside an `enum`. */
  function EnumMessage(value: string, path: string): string {
    "`" + value + "` is not a valid enum value for path `" + path + "`."
  }

  /** The database name of the default connection string. */
  const Database := "team-project-management"

  /** MongoDB's duplicate-key error for the unique index on `path` of `collection`. */
  function DuplicateKeyMessage(collection: string, path: string, value: string): string {
    "E11000 duplicate key error collection: " + Database + "." + collection
      + " index: " + path + "_1 dup key: { " + path + ": \"" + value + "\" }"
  }
}
