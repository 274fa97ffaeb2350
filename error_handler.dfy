/** The global error handler: it classifies whatever a handler threw into a
    status code and a JSON body `{ success: false, message, stack? }`. The
    rules run in a fixed order and each one that applies replaces the error
    chosen so far, so a later rule wins over an earlier one. */
module ErrorHandler {
  import opened Common
  import opened Text

  /** The error that reached the handler, reduced to what the handler reads:
      its `name`, the driver's numeric `code`, the field names of `keyValue`
      (duplicate key), the messages of `errors` (mongoose validation, in
      path order), an own `statusCode` property, its `message` and `stack`. */
  datatype Thrown = Thrown(name: string, code: Option<int>, keyFields: seq<string>, fieldMessages: seq<string>,
                           statusCode: Option<int>, message: string, stack: string)

  /** The response: its status code and the JSON body. */
  datatype Response = Response(status: int, success: bool, message: string, stack: Option<string>)

  const DuplicateKeyCode: int := 11000
  const DefaultMessage: string := "Internal Server Error"

  /** A duplicate-key error names the key it collided on. */
  predicate Classifiable(err: Thrown) {
    err.code == Some(DuplicateKeyCode) ==> err.keyFields != []
  }

  /** The error that replaces the thrown one, if a rule applies: the rules
      for a bad object id, a duplicate key, a validation failure, a malformed
      token and an expired token, applied in that order. */
  function Reclassify(err: Thrown): (r: Option<ApiError>)
    requires Classifiable(err)
    ensures r.None? <==>
      err.name !in {"CastError", "ValidationError", "JsonWebTokenError", "TokenExpiredError"}
      && err.code != Some(DuplicateKeyCode)
    ensures err.name == "TokenExpiredError" ==> r == Some(ApiError(Unauthorized, "Token expired"))
    ensures err.name == "JsonWebTokenError" ==> r == Some(ApiError(Unauthorized, "Invalid token"))
    ensures err.name == "ValidationError" ==> r == Some(ApiError(BadRequest, Join(err.fieldMessages, ". ")))
    ensures err.name == "CastError" && err.code != Some(DuplicateKeyCode) ==>
      r == Some(ApiError(NotFound, "Resource not found"))
    ensures err.code == Some(DuplicateKeyCode) && err.name !in {"ValidationError", "JsonWebTokenError", "TokenExpiredError"} ==>
      r == Some(ApiError(Conflict, DuplicateMessage(err.keyFields[0])))
  {
    var e0: Option<ApiError> := None;
    var e1 := if err.name == "CastError" then Some(ApiError(NotFound, "Resource not found")) else e0;
    var e2 := if err.code == Some(DuplicateKeyCode) then Some(ApiError(Conflict, DuplicateMessage(err.keyFields[0]))) else e1;
    var e3 := if err.name == "ValidationError" then Some(ApiError(BadRequest, Join(err.fieldMessages, ". "))) else e2;
    var e4 := if err.name == "JsonWebTokenError" then Some(ApiError(Unauthorized, "Invalid token")) else e3;
    if err.name == "TokenExpiredError" then Some(ApiError(Unauthorized, "Token expired")) else e4
  }

  /** "<Field> already exists", the first letter of the key name in upper case. */
  function DuplicateMessage(field: string): (m: string)
    ensures m == Capitalize(field) + " already exists"
    ensures |field| > 0 && 'a' <= field[0] <= 'z' ==> 'A' <= m[0] <= 'Z'
  {
    Capitalize(field) + " already exists"
  }

  /** `errorHandler`. `env` is the configured environment and `handlerStack`
      the stack trace of an error the handler creates itself. The body never
      reports success; its message is that of the replacing error, else the
      thrown error's own, and "Internal Server Error" when that is empty; the
      stack trace is sent only in development. */
  function Handle(err: Thrown, env: string, handlerStack: string): (resp: Response)
    requires Classifiable(err)
    ensures !resp.success
    ensures resp.message != ""
    ensures resp.stack.Some? <==> env == "development"
    ensures Reclassify(err).Some? ==> resp.status == StatusCode(Reclassify(err).value.kind)
    ensures Reclassify(err).None? ==>
      resp.status == (if err.statusCode.None? || err.statusCode == Some(0) then 500 else err.statusCode.value)
    ensures Reclassify(err).Some? && Reclassify(err).value.message != "" ==> resp.message == Reclassify(err).value.message
    ensures Reclassify(err).None? && err.message != "" ==> resp.message == err.message
    ensures (if Reclassify(err).Some? then Reclassify(err).value.message else err.message) == "" ==>
      resp.message == DefaultMessage
    ensures Reclassify(err).Some? && resp.stack.Some? ==> resp.stack.value == handlerStack
    ensures Reclassify(err).None? && resp.stack.Some? ==> resp.stack.value == err.stack
  {
    var chosen := Reclassify(err);
    var status := if chosen.Some? then StatusCode(chosen.value.kind)
                  else if err.statusCode.None? || err.statusCode == Some(0) then 500
                  else err.statusCode.value;
    var message := if chosen.Some? then chosen.value.message else err.message;
    var stack := if chosen.Some? then handlerStack else err.stack;
    Response(status, false, if message == "" then DefaultMessage else message,
             if env == "development" then Some(stack) else None)
  }

  /** The error a controller throws with a kind and a message: it carries its
      status code as an own property and has no driver code. */
  function FromApiError(e: ApiError, name: string, stack: string): Thrown {
    Thrown(name, None, [], [], Some(StatusCode(e.kind)), e.message, stack)
  }

  /** An error a controller raised reaches the client unchanged: the status
      code of its kind and its own message, whatever the environment. */
  lemma ApiErrorPassesThrough(e: ApiError, name: string, stack: string, env: string, handlerStack: string)
    requires name !in {"CastError", "ValidationError", "JsonWebTokenError", "TokenExpiredError"}
    requires e.message != ""
    ensures var resp := Handle(FromApiError(e, name, stack), env, handlerStack);
      resp.status == StatusCode(e.kind) && resp.message == e.message && !resp.success
  {
  }

  /** An error without a status code and without a message is a plain 500
      "Internal Server Error". */
  lemma UnknownErrorIsInternal(err: Thrown, env: string, handlerStack: string)
    requires err.name !in {"CastError", "ValidationError", "JsonWebTokenError", "TokenExpiredError"}
    requires err.code != Some(DuplicateKeyCode)
    requires err.statusCode.None? && err.message == ""
    ensures Handle(err, env, handlerStack).status == 500
    ensures Handle(err, env, handlerStack).message == DefaultMessage
  {
  }

  /** The later rules win: a validation error that also carries the
      duplicate-key code reports the validation messages with 400. */
  lemma ValidationBeatsDuplicateKey(err: Thrown, env: string, handlerStack: string)
    requires err.name == "ValidationError" && err.code == Some(DuplicateKeyCode) && err.keyFields != []
    requires Join(err.fieldMessages, ". ") != ""
    ensures Handle(err, env, handlerStack).status == 400
    ensures Handle(err, env, handlerStack).message == Join(err.fieldMessages, ". ")
  {
  }
}
