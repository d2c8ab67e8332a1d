/** The application's last two handlers: the global error translation and the 404 for unknown routes. */
module ServerErrors {
  import opened Documents
  import opened Text

  /** What the error handler reads of an error: its class name, its numeric code if any, the messages of
      its per-field errors in field order, the names of the duplicated key's fields, and its message. */
  datatype AppError = AppError(name: string, code: Option<int>, fieldMessages: seq<string>,
                               keyFields: seq<string>, message: string)

  /** The JSON body of an error reply; `success` is always false. */
  datatype ErrorReply = ErrorReply(status: nat, error: string, details: Option<seq<string>>, message: Option<string>)

  const DuplicateKeyCode: int := 11000
  const Development := "development"
  const Concealed := "Something went wrong"

  /** The `${field}` of a template literal: the first duplicated field, or "undefined" when there is none. */
  function FirstField(keyFields: seq<string>): string {
    if keyFields == [] then "undefined" else keyFields[0]
  }

  function DuplicateMessage(field: string): (r: string)
    ensures OccursAt(r, field, 10)
  {
    var r := "Duplicate " + field + ". This " + field + " already exists.";
    assert r[10..10 + |field|] == field;
    r
  }

  /** The global error handler: the first of ValidationError, CastError and duplicate key that applies
      gives 400; anything else gives 500, with the error's own message only in development. */
  function Translate(e: AppError, nodeEnv: Option<string>): (r: ErrorReply)
    ensures r.status == 400 <==> e.name == "ValidationError" || e.name == "CastError" || e.code == Some(DuplicateKeyCode)
    ensures r.status == 400 || r.status == 500
    ensures e.name == "ValidationError" ==> r == ErrorReply(400, "Validation Error", Some(e.fieldMessages), None)
    ensures e.name != "ValidationError" && e.name == "CastError" ==> r == ErrorReply(400, "Invalid ID format", None, None)
    ensures e.name != "ValidationError" && e.name != "CastError" && e.code == Some(DuplicateKeyCode) ==>
      r.status == 400 && OccursAt(r.error, FirstField(e.keyFields), 10) && r.details.None? && r.message.None?
    ensures r.details.Some? <==> e.name == "ValidationError"
    ensures r.message.Some? <==> r.status == 500
    ensures r.status == 500 ==> r.error == "Internal Server Error"
    ensures r.status == 500 ==> r.message == Some(if nodeEnv == Some(Development) then e.message else Concealed)
  {
    if e.name == "ValidationError" then ErrorReply(400, "Validation Error", Some(e.fieldMessages), None)
    else if e.name == "CastError" then ErrorReply(400, "Invalid ID format", None, None)
    else if e.code == Some(DuplicateKeyCode) then ErrorReply(400, DuplicateMessage(FirstField(e.keyFields)), None, None)
    else ErrorReply(500, "Internal Server Error", None,
                    Some(if nodeEnv == Some(Development) then e.message else Concealed))
  }

  /** Outside development the reply does not depend on the error's message at all. */
  lemma NoLeakOutsideDevelopment(e: AppError, nodeEnv: Option<string>, other: string)
    requires nodeEnv != Some(Development)
    ensures Translate(e, nodeEnv) == Translate(e.(message := other), nodeEnv)
  {
  }

  /** Only the first matching rule counts: a validation error that also carries the duplicate-key code is
      still reported as a validation error, with its field messages. */
  lemma FirstRuleWins(e: AppError, nodeEnv: Option<string>)
    requires e.name == "ValidationError" && e.code == Some(DuplicateKeyCode)
    ensures Translate(e, nodeEnv).error == "Validation Error"
    ensures Translate(e, nodeEnv).details == Some(e.fieldMessages)
  {
  }

  /** The reply for a path no route serves. */
  datatype NotFoundReply = NotFoundReply(status: nat, error: string, path: string)

  /** The catch-all handler: 404 with the requested path echoed. */
  function RouteNotFound(originalUrl: string): (r: NotFoundReply)
    ensures r.status == 404 && r.error == "Route not found" && r.path == originalUrl
  {
    NotFoundReply(404, "Route not found", originalUrl)
  }
}
