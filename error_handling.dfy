/** The global Express error handler: it fills in a default status code and
    status, then, by `NODE_ENV`, echoes everything (development), maps the
    error to a client-facing AppError (production), or does nothing. */
module ErrorHandling {
  import opened Common

  /** `process.env.NODE_ENV` */
  datatype Mode = Development | Production | OtherMode

  /** The properties of a JavaScript error object that the handler reads. */
  datatype Err = Err(
    name: string,
    code: Option<int>,
    message: Option<string>,
    statusCode: Option<int>,
    status: Option<string>,
    isOperational: bool,
    stack: Option<string>,
    /** a Mongoose `CastError`'s `path` and `value` */
    path: Option<string>,
    value: Option<string>,
    /** the quoted value the duplicate-key regular expression finds in
        `errorResponse.errmsg`; `None` when the error has no such response
        or the expression finds nothing */
    dupValue: Option<string>,
    /** whether `err.errors` is defined, and `Object.values(err.errors)`
        when it is (a Mongoose `ValidationError`) */
    hasErrors: bool,
    errors: seq<Err>,
    /** `properties.message` of a Mongoose `ValidatorError` */
    properties: Option<string>)

  /** The JSON body and status code of a reply. */
  datatype Reply = Reply(statusCode: int, status: string, message: Option<string>, stack: Option<string>, error: Option<Err>)

  /** What the handler does: reply, reply with nothing at all, or throw
      while building the reply. */
  datatype Outcome = Sent(reply: Reply) | NoReply | HandlerThrew

  const GenericMessage: string := "Something went wrong"
  const InvalidTokenMessage: string := "Invalid token. Please log in again"
  const ExpiredTokenMessage: string := "Your token has expired. Please log in again"

  /** An error with only a name. */
  function Blank(name: string): Err
  {
    Err(name, None, None, None, None, false, None, None, None, None, false, [], None)
  }

  /** `new AppError(message, statusCode)`. How AppError derives `status`
      from the code is not part of this model, so it is the parameter
      `appStatus`. */
  function AppErr(message: string, statusCode: Option<int>, appStatus: Option<int> -> string): Err
  {
    Blank("Error").(message := Some(message), statusCode := statusCode, status := Some(appStatus(statusCode)), isOperational := true)
  }

  /** `String(err)` for an AppError: `Error.prototype.toString`. */
  function ErrorText(message: string): string
  {
    if message == "" then "Error" else "Error: " + message
  }

  /** A value interpolated into a template literal. */
  function Show(v: Option<string>): string
  {
    if v.None? then "undefined" else v.value
  }

  /** The first two lines of the handler: a falsy `statusCode` becomes 500
      and a falsy `status` becomes `'error'`; nothing else changes. */
  function Defaulted(err: Err): (d: Err)
    ensures d.statusCode.Some? && d.statusCode.value != 0 && d.status.Some? && d.status.value != ""
    ensures err.statusCode.Some? && err.statusCode.value != 0 ==> d.statusCode == err.statusCode
    ensures err.statusCode.None? || err.statusCode == Some(0) ==> d.statusCode == Some(500)
    ensures err.status.Some? && err.status.value != "" ==> d.status == err.status
    ensures err.status.None? || err.status == Some("") ==> d.status == Some("error")
    ensures d.(statusCode := err.statusCode, status := err.status) == err
  {
    err.(statusCode := if err.statusCode.None? || err.statusCode == Some(0) then Some(500) else err.statusCode,
         status := if err.status.None? || err.status == Some("") then Some("error") else err.status)
  }

  /** `{ ...err }`: a copy of the own enumerable properties. An Error's
      `message` and `stack` are own but not enumerable, so they are not
      copied. For most errors the `name` is inherited from the prototype
      and so is lost as well; the model keeps it, because nothing reads the
      name from the copy (`FinishIgnoresCopyName`). */
  function SpreadAsWritten(err: Err): (r: Err)
    ensures r.message.None? && r.stack.None?
    ensures r.(message := err.message, stack := err.stack) == err
  {
    err.(message := None, stack := None)
  }

  /** The copy the handler evidently intends, `{ ...err, message:
      err.message }`: it keeps the message, and differs from the copy as
      written in nothing else. */
  function CopyKeepingMessage(err: Err): (r: Err)
    ensures r.message == err.message && r.stack.None?
    ensures r.(message := None) == SpreadAsWritten(err)
  {
    err.(stack := None)
  }

  /** `handleCastErrorDB`: an operational 400 naming the offending path
      and value. */
  function HandleCastError(e: Err, appStatus: Option<int> -> string): (r: Err)
    ensures r.isOperational && r.statusCode == Some(400) && r.status == Some(appStatus(Some(400)))
    ensures r.message == Some("Invalid " + Show(e.path) + ": " + Show(e.value))
  {
    AppErr("Invalid " + Show(e.path) + ": " + Show(e.value), Some(400), appStatus)
  }

  /** `handleDuplicateFieldsDB`; `None` when it throws because there is no
      response message to search or no quoted value in it. */
  function HandleDuplicateFields(e: Err, appStatus: Option<int> -> string): (r: Option<Err>)
    ensures r.Some? <==> e.dupValue.Some?
    ensures r.Some? ==> r.value.isOperational && r.value.statusCode == Some(400)
    ensures r.Some? ==> r.value.message == Some("Duplicate field value: " + e.dupValue.value + ". Please use another value")
  {
    if e.dupValue.None? then None
    else Some(AppErr("Duplicate field value: " + e.dupValue.value + ". Please use another value", Some(400), appStatus))
  }

  /** `handleJWTError`: an operational 401 asking to log in again. */
  function HandleJWTError(appStatus: Option<int> -> string): (r: Err)
    ensures r.isOperational && r.statusCode == Some(401) && r.message == Some(InvalidTokenMessage)
  {
    AppErr(InvalidTokenMessage, Some(401), appStatus)
  }

  /** `handleExpiredTokenError`: an operational 401 saying the token
      expired. */
  function HandleExpiredTokenError(appStatus: Option<int> -> string): (r: Err)
    ensures r.isOperational && r.statusCode == Some(401) && r.message == Some(ExpiredTokenMessage)
  {
    AppErr(ExpiredTokenMessage, Some(401), appStatus)
  }

  /** `handleValidationErrorDB`: one text per inner error, joined with
      `'. '`, as a 400; `None` when it throws, which it does when `errors`
      is missing or when rendering an inner error throws. */
  function HandleValidationError(e: Err, appStatus: Option<int> -> string): (r: Option<Err>)
    ensures r.Some? <==> e.hasErrors && Renders(e, 0, appStatus).Some?
    ensures r.Some? ==> r.value.isOperational && r.value.statusCode == Some(400)
    ensures r.Some? ==> r.value.message == Some(JoinWith(Renders(e, 0, appStatus).value, ". "))
    decreases e, 2, 0
  {
    if !e.hasErrors then None
    else match Renders(e, 0, appStatus)
      case None => None
      case Some(pieces) => Some(AppErr(JoinWith(pieces, ". "), Some(400), appStatus))
  }

  /** The texts of the inner errors from index `i` on; `None` when one of
      them throws. */
  function Renders(e: Err, i: nat, appStatus: Option<int> -> string): (r: Option<seq<string>>)
    requires i <= |e.errors|
    ensures r.None? <==> exists k :: i <= k < |e.errors| && Render(e, k, appStatus).None?
    ensures r.Some? ==> |r.value| == |e.errors| - i
    ensures r.Some? ==> forall k :: i <= k < |e.errors| ==> r.value[k - i] == Render(e, k, appStatus).value
    decreases e, 1, |e.errors| - i
  {
    if i == |e.errors| then Some([])
    else match Render(e, i, appStatus)
      case None =>
        assert Render(e, i, appStatus).None?;
        None
      case Some(piece) =>
        match Renders(e, i + 1, appStatus)
        case None =>
          assert Renders(e, i + 1, appStatus).None?;
          assert exists k :: i + 1 <= k < |e.errors| && Render(e, k, appStatus).None?;
          None
        case Some(rest) => Some([piece] + rest)
  }

  /** The text of the inner error at index `i`: a validator's own message;
      else the first matching classification, turned into an AppError and
      then into text by `join`; else nothing, which `join` renders as the
      empty string. */
  function Render(e: Err, i: nat, appStatus: Option<int> -> string): (r: Option<string>)
    requires i < |e.errors|
    ensures e.errors[i].properties.Some? ==> r == Some(e.errors[i].properties.value)
    ensures r.None? ==> e.errors[i].code == Some(11000) || e.errors[i].name == "ValidationError"
    decreases e, 0, 0
  {
    var el := e.errors[i];
    assert el in e.errors;
    if el.properties.Some? then Some(el.properties.value)
    else if el.name == "CastError" then Some(ErrorText(HandleCastError(el, appStatus).message.value))
    else if el.code == Some(11000) then
      (match HandleDuplicateFields(el, appStatus)
       case None => None
       case Some(a) => Some(ErrorText(a.message.value)))
    else if el.name == "ValidationError" then
      (match HandleValidationError(el, appStatus)
       case None => None
       case Some(a) => Some(ErrorText(a.message.value)))
    else if el.name == "JsonWebTokenError" then Some(ErrorText(InvalidTokenMessage))
    else if el.name == "TokenExpiredError" then Some(ErrorText(ExpiredTokenMessage))
    else Some("")
  }

  /** The production chain: five independent tests, each on the original
      error's `name` or `code`, each replacing the current error with what
      its handler makes of the current error; a throw ends the chain. */
  function ProductionChain(err: Err, copy: Err, appStatus: Option<int> -> string): (r: Option<Err>)
    requires copy.statusCode.Some? && copy.status.Some?
    ensures r.Some? ==> r.value.statusCode.Some? && r.value.status.Some?
  {
    var e1 := if err.name == "CastError" then Some(HandleCastError(copy, appStatus)) else Some(copy);
    var e2 := if err.code == Some(11000) then HandleDuplicateFields(e1.value, appStatus) else e1;
    var e3 := if err.name == "ValidationError" && e2.Some? then HandleValidationError(e2.value, appStatus) else e2;
    var e4 := if err.name == "JsonWebTokenError" && e3.Some? then Some(HandleJWTError(appStatus)) else e3;
    if err.name == "TokenExpiredError" && e4.Some? then Some(HandleExpiredTokenError(appStatus)) else e4
  }

  /** `sendErrorProd`: an operational error is echoed with its own status
      code, status and message; any other error becomes a 500 with a
      generic message. No stack is ever sent. */
  function SendProduction(e: Err): (r: Reply)
    requires e.statusCode.Some? && e.status.Some?
    ensures r.stack.None? && r.error.None?
    ensures e.isOperational ==> r.statusCode == e.statusCode.value && r.status == e.status.value && r.message == e.message
    ensures !e.isOperational ==> r.statusCode == 500 && r.status == "error" && r.message == Some(GenericMessage)
  {
    if e.isOperational then Reply(e.statusCode.value, e.status.value, e.message, None, None)
    else Reply(500, "error", Some(GenericMessage), None, None)
  }

  /** `sendErrorDev`: status code, status, message, stack and the error
      itself, whether operational or not. */
  function SendDevelopment(e: Err): (r: Reply)
    requires e.statusCode.Some? && e.status.Some?
    ensures r.statusCode == e.statusCode.value && r.status == e.status.value
    ensures r.message == e.message && r.stack == e.stack && r.error == Some(e)
  {
    Reply(e.statusCode.value, e.status.value, e.message, e.stack, Some(e))
  }

  /** The handler after its defaults, given the copy the production branch
      works on. */
  function Finish(mode: Mode, d: Err, copy: Err, appStatus: Option<int> -> string): Outcome
    requires d.statusCode.Some? && d.status.Some? && copy.statusCode.Some? && copy.status.Some?
  {
    match mode
    case Development => Sent(SendDevelopment(d))
    case Production =>
      (match ProductionChain(d, copy, appStatus)
       case None => HandlerThrew
       case Some(e) => Sent(SendProduction(e)))
    case OtherMode => NoReply
  }

  /** Rendering the inner errors reads nothing of the outer error but its
      list of inner errors. */
  lemma {:induction false} RendersSameErrors(a: Err, b: Err, i: nat, appStatus: Option<int> -> string)
    requires a.errors == b.errors && i <= |a.errors|
    ensures Renders(a, i, appStatus) == Renders(b, i, appStatus)
    decreases |a.errors| - i
  {
    if i < |a.errors| {
      RendersSameErrors(a, b, i + 1, appStatus);
    }
  }

  /** The handler after its defaults never reads the `name` of the copy:
      the production chain tests the original error's name, and neither
      the handlers it calls nor `sendErrorProd` look at the name of the
      error they are given. */
  lemma FinishIgnoresCopyName(mode: Mode, d: Err, copy: Err, name: string, appStatus: Option<int> -> string)
    requires d.statusCode.Some? && d.status.Some? && copy.statusCode.Some? && copy.status.Some?
    ensures Finish(mode, d, copy.(name := name), appStatus) == Finish(mode, d, copy, appStatus)
  {
    RendersSameErrors(copy.(name := name), copy, 0, appStatus);
  }

  /** The handler as written, whose production copy loses the message.
      Outside production it behaves exactly like `Handle`. In production it
      also agrees with `Handle` on every error the chain classifies, since
      each classification replaces the copy by a fresh AppError built only
      from properties the copy keeps. An unclassified error, though, is
      echoed without its message. */
  function HandleAsWritten(mode: Mode, err: Err, appStatus: Option<int> -> string): (r: Outcome)
    ensures mode != Production ==> r == Handle(mode, err, appStatus)
    ensures mode == Production && (err.name in ClassifiedNames || err.code == Some(11000)) ==>
      r == Handle(mode, err, appStatus)
    ensures mode == Production && err.name !in ClassifiedNames && err.code != Some(11000) ==>
      r == Sent(if err.isOperational then Reply(Defaulted(err).statusCode.value, Defaulted(err).status.value, None, None, None)
                else Reply(500, "error", Some(GenericMessage), None, None))
  {
    var d := Defaulted(err);
    RendersSameErrors(SpreadAsWritten(d), CopyKeepingMessage(d), 0, appStatus);
    Finish(mode, d, SpreadAsWritten(d), appStatus)
  }

  /** The handler with the copy keeping the message. In development it
      always sends the message and the stack; in a mode that is neither
      development nor production it sends nothing; in production it never
      sends a stack. */
  function Handle(mode: Mode, err: Err, appStatus: Option<int> -> string): (r: Outcome)
    ensures r.NoReply? <==> mode == OtherMode
    ensures mode == Development ==>
      r == Sent(Reply(Defaulted(err).statusCode.value, Defaulted(err).status.value, err.message, err.stack, Some(Defaulted(err))))
    ensures mode == Production && r.Sent? ==> r.reply.stack.None? && r.reply.error.None?
  {
    var d := Defaulted(err);
    Finish(mode, d, CopyKeepingMessage(d), appStatus)
  }

  /** The names the production chain classifies. */
  const ClassifiedNames: set<string> := {"CastError", "ValidationError", "JsonWebTokenError", "TokenExpiredError"}

  /** In production an unclassified error passes through: an operational one
      is echoed with its (defaulted) status code and status, any other
      becomes a 500 with the generic message. The corrected handler echoes
      the error's message as well; the handler as written echoes no message
      at all, because its `{ ...err }` copy has none. */
  lemma ProductionPassThrough(err: Err, appStatus: Option<int> -> string)
    requires err.name !in ClassifiedNames && err.code != Some(11000)
    ensures err.isOperational ==>
      Handle(Production, err, appStatus) == Sent(Reply(Defaulted(err).statusCode.value, Defaulted(err).status.value, err.message, None, None))
    ensures err.isOperational ==>
      HandleAsWritten(Production, err, appStatus) == Sent(Reply(Defaulted(err).statusCode.value, Defaulted(err).status.value, None, None, None))
    ensures !err.isOperational ==>
      && Handle(Production, err, appStatus) == Sent(Reply(500, "error", Some(GenericMessage), None, None))
      && HandleAsWritten(Production, err, appStatus) == Sent(Reply(500, "error", Some(GenericMessage), None, None))
  {
  }

  /** In production a cast error becomes a 400 naming the path and the value. */
  lemma CastErrorResponse(err: Err, appStatus: Option<int> -> string)
    requires err.name == "CastError" && err.code != Some(11000)
    ensures Handle(Production, err, appStatus)
      == Sent(Reply(400, appStatus(Some(400)), Some("Invalid " + Show(err.path) + ": " + Show(err.value)), None, None))
  {
  }

  /** In production a duplicate-key error whose value the expression finds
      becomes a 400 naming that value. */
  lemma DuplicateKeyResponse(err: Err, appStatus: Option<int> -> string)
    requires err.code == Some(11000) && err.name !in ClassifiedNames && err.dupValue.Some?
    ensures Handle(Production, err, appStatus)
      == Sent(Reply(400, appStatus(Some(400)), Some("Duplicate field value: " + err.dupValue.value + ". Please use another value"), None, None))
  {
  }

  /** In production a duplicate-key error without a value to quote, or one
      that is also named `CastError` (so that its handler sees the cast
      handler's AppError), makes the handler throw. */
  lemma DuplicateKeyThrows(err: Err, appStatus: Option<int> -> string)
    requires err.code == Some(11000) && (err.dupValue.None? || err.name == "CastError")
    ensures Handle(Production, err, appStatus) == HandlerThrew
  {
  }

  /** The validators' own messages of a list of inner errors. */
  function PropertyMessages(els: seq<Err>): (r: seq<string>)
    requires forall i :: 0 <= i < |els| ==> els[i].properties.Some?
    ensures |r| == |els| && forall i :: 0 <= i < |els| ==> r[i] == els[i].properties.value
  {
    if els == [] then [] else [els[0].properties.value] + PropertyMessages(els[1..])
  }

  /** When every inner error is a validator error, the rendered texts are
      exactly the validators' messages, in order. */
  lemma {:induction false} RendersValidatorMessages(e: Err, i: nat, appStatus: Option<int> -> string)
    requires i <= |e.errors|
    requires forall k :: 0 <= k < |e.errors| ==> e.errors[k].properties.Some?
    ensures Renders(e, i, appStatus) == Some(PropertyMessages(e.errors[i..]))
    decreases |e.errors| - i
  {
    var els := e.errors;
    if i < |els| {
      RendersValidatorMessages(e, i + 1, appStatus);
      assert els[i..][1..] == els[i + 1..];
    }
  }

  /** In production a validation error made of validator errors becomes a
      400 whose message is their messages joined with `'. '`. */
  lemma ValidationErrorResponse(err: Err, appStatus: Option<int> -> string)
    requires err.name == "ValidationError" && err.code != Some(11000) && err.hasErrors
    requires forall k :: 0 <= k < |err.errors| ==> err.errors[k].properties.Some?
    ensures Handle(Production, err, appStatus)
      == Sent(Reply(400, appStatus(Some(400)), Some(JoinWith(PropertyMessages(err.errors), ". ")), None, None))
  {
    var copy := CopyKeepingMessage(Defaulted(err));
    RendersValidatorMessages(copy, 0, appStatus);
    assert copy.errors[0..] == copy.errors;
  }

  /** In production the token errors become 401s; as the last two tests of
      the chain they win over every earlier classification that does not
      throw. */
  lemma TokenErrorResponses(err: Err, appStatus: Option<int> -> string)
    requires err.name == "JsonWebTokenError" || err.name == "TokenExpiredError"
    requires err.code == Some(11000) ==> err.dupValue.Some?
    ensures err.name == "JsonWebTokenError" ==>
      Handle(Production, err, appStatus) == Sent(Reply(401, appStatus(Some(401)), Some(InvalidTokenMessage), None, None))
    ensures err.name == "TokenExpiredError" ==>
      Handle(Production, err, appStatus) == Sent(Reply(401, appStatus(Some(401)), Some(ExpiredTokenMessage), None, None))
  {
  }

  /** The foreign parts of the errors the controllers raise: AppError's
      status derivation, a captured stack, the libraries' own messages and
      the duplicate-key expression's match in the driver's message. */
  datatype Library = Library(
    appStatus: Option<int> -> string,
    stack: string,
    validationSummary: seq<FieldError> -> string,
    duplicateMessage: (string, string) -> string,
    duplicateMatch: (string, string) -> Option<string>,
    invalidTokenMessage: string,
    expiredTokenMessage: string)

  /** A Mongoose `ValidatorError` for one failed path. */
  function ValidatorErr(fe: FieldError): Err
  {
    Blank("ValidatorError").(message := Some(fe.message), path := Some(fe.path), properties := Some(fe.message))
  }

  /** The error object behind each failure a controller hands to `next`. */
  function ToErr(f: Failure, lib: Library): (e: Err)
    ensures e.stack == Some(lib.stack)
    ensures f.Invalid? ==>
      && e.hasErrors && |e.errors| == |f.errors|
      && forall k :: 0 <= k < |f.errors| ==> e.errors[k].properties == Some(f.errors[k].message)
  {
    match f
    case AppFailure(m, c) => AppErr(m, Some(c), lib.appStatus).(stack := Some(lib.stack))
    case UncodedAppFailure(m) => AppErr(m, None, lib.appStatus).(stack := Some(lib.stack))
    case Invalid(errs) =>
      Blank("ValidationError").(
        message := Some(lib.validationSummary(errs)),
        stack := Some(lib.stack),
        hasErrors := true,
        errors := seq(|errs|, k requires 0 <= k < |errs| => ValidatorErr(errs[k])))
    case DuplicateKey(field, value) =>
      Blank("MongoServerError").(
        code := Some(11000),
        message := Some(lib.duplicateMessage(field, value)),
        stack := Some(lib.stack),
        dupValue := lib.duplicateMatch(field, value))
    case TokenInvalid => Blank("JsonWebTokenError").(message := Some(lib.invalidTokenMessage), stack := Some(lib.stack))
    case TokenExpired => Blank("TokenExpiredError").(message := Some(lib.expiredTokenMessage), stack := Some(lib.stack))
  }

  /** The messages of failed paths, in order. */
  function FieldMessages(errs: seq<FieldError>): (r: seq<string>)
    ensures |r| == |errs| && forall k :: 0 <= k < |errs| ==> r[k] == errs[k].message
  {
    if errs == [] then [] else [errs[0].message] + FieldMessages(errs[1..])
  }

  /** What a production client receives for each failure a controller or
      the gate raises. With the corrected handler an AppError with a status
      code keeps its code and message, and one without a code is a 500
      with its message; as written, both arrive with no message at all. A
      validation failure is a 400 listing the failed rules' messages; a
      duplicate key is a 400 naming the value, or a throw when the driver's
      message quotes nothing; the token errors are 401s. These last four
      are the same as written and corrected. */
  lemma FailureResponses(f: Failure, lib: Library)
    ensures f.AppFailure? && f.statusCode != 0 ==>
      && Handle(Production, ToErr(f, lib), lib.appStatus).Sent?
      && Handle(Production, ToErr(f, lib), lib.appStatus).reply.statusCode == f.statusCode
      && Handle(Production, ToErr(f, lib), lib.appStatus).reply.message == Some(f.message)
      && HandleAsWritten(Production, ToErr(f, lib), lib.appStatus).Sent?
      && HandleAsWritten(Production, ToErr(f, lib), lib.appStatus).reply.statusCode == f.statusCode
      && HandleAsWritten(Production, ToErr(f, lib), lib.appStatus).reply.message.None?
    ensures f.UncodedAppFailure? ==>
      && Handle(Production, ToErr(f, lib), lib.appStatus).Sent?
      && Handle(Production, ToErr(f, lib), lib.appStatus).reply.statusCode == 500
      && Handle(Production, ToErr(f, lib), lib.appStatus).reply.message == Some(f.message)
      && HandleAsWritten(Production, ToErr(f, lib), lib.appStatus).Sent?
      && HandleAsWritten(Production, ToErr(f, lib), lib.appStatus).reply.statusCode == 500
      && HandleAsWritten(Production, ToErr(f, lib), lib.appStatus).reply.message.None?
    ensures !f.AppFailure? && !f.UncodedAppFailure? ==>
      HandleAsWritten(Production, ToErr(f, lib), lib.appStatus) == Handle(Production, ToErr(f, lib), lib.appStatus)
    ensures f.Invalid? ==>
      Handle(Production, ToErr(f, lib), lib.appStatus)
        == Sent(Reply(400, lib.appStatus(Some(400)), Some(JoinWith(FieldMessages(f.errors), ". ")), None, None))
    ensures f.DuplicateKey? && lib.duplicateMatch(f.field, f.value).Some? ==>
      Handle(Production, ToErr(f, lib), lib.appStatus)
        == Sent(Reply(400, lib.appStatus(Some(400)),
                      Some("Duplicate field value: " + lib.duplicateMatch(f.field, f.value).value + ". Please use another value"), None, None))
    ensures f.DuplicateKey? && lib.duplicateMatch(f.field, f.value).None? ==>
      Handle(Production, ToErr(f, lib), lib.appStatus) == HandlerThrew
    ensures f == TokenInvalid ==>
      Handle(Production, ToErr(f, lib), lib.appStatus) == Sent(Reply(401, lib.appStatus(Some(401)), Some(InvalidTokenMessage), None, None))
    ensures f == TokenExpired ==>
      Handle(Production, ToErr(f, lib), lib.appStatus) == Sent(Reply(401, lib.appStatus(Some(401)), Some(ExpiredTokenMessage), None, None))
  {
    var e := ToErr(f, lib);
    match f
    case AppFailure(_, _) =>
      ProductionPassThrough(e, lib.appStatus);
    case UncodedAppFailure(_) =>
      ProductionPassThrough(e, lib.appStatus);
    case Invalid(errs) =>
      ValidationErrorResponse(e, lib.appStatus);
      assert PropertyMessages(e.errors) == FieldMessages(errs);
    case DuplicateKey(_, _) =>
      if e.dupValue.Some? {
        DuplicateKeyResponse(e, lib.appStatus);
      } else {
        DuplicateKeyThrows(e, lib.appStatus);
      }
    case TokenInvalid =>
      TokenErrorResponses(e, lib.appStatus);
    case TokenExpired =>
      TokenErrorResponses(e, lib.appStatus);
  }
}
