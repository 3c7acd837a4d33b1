/**
 * The error-handling middleware: every error reaching it becomes a JSON
 * response with `success: false`, a status and a code.
 */
module ErrorHandler {
  import opened Wrappers
  import opened Text
  import opened AppErrors
  import opened Schemas

  /** What a request handler can throw. */
  datatype Thrown =
    | Validation(issues: seq<Issue>)
    | App(err: AppError)
    | Generic(stack: Option<string>)

  datatype FieldError = FieldError(field: string, message: string)

  /** The response: status plus the JSON body; an absent option is a key the body does not carry. */
  datatype Response = Response(
    status: int,
    success: bool,
    code: string,
    message: string,
    errors: Option<seq<FieldError>>,
    details: Option<Value>,
    stack: Option<string>)

  function KeyText(k: PathKey): string {
    match k
    case Key(name) => name
    case Index(i) => NatToString(i)
  }

  function KeyTexts(path: seq<PathKey>): (r: seq<string>)
    ensures |r| == |path|
    ensures forall k :: 0 <= k < |path| ==> r[k] == KeyText(path[k])
  {
    seq(|path|, k requires 0 <= k < |path| => KeyText(path[k]))
  }

  /** The issue's path joined with dots. */
  function FieldName(path: seq<PathKey>): string {
    Join(KeyTexts(path), ".")
  }

  function FieldErrors(issues: seq<Issue>): (r: seq<FieldError>)
    ensures |r| == |issues|
    ensures forall k :: 0 <= k < |issues| ==>
      r[k] == FieldError(FieldName(issues[k].path), issues[k].message)
  {
    seq(|issues|, k requires 0 <= k < |issues| => FieldError(FieldName(issues[k].path), issues[k].message))
  }

  function Handle(err: Thrown, development: bool): (r: Response)
    ensures !r.success
    ensures err.Validation? ==>
      && r.status == 400 && r.code == CodeName(ValidationError) && r.message == "Error de validación"
      && r.errors == Some(FieldErrors(err.issues))
      && |r.errors.value| == |err.issues|
      && (forall k :: 0 <= k < |err.issues| ==>
            r.errors.value[k] == FieldError(FieldName(err.issues[k].path), err.issues[k].message))
      && r.details.None? && r.stack.None?
    ensures err.App? ==>
      && r.status == err.err.statusCode && r.code == CodeName(err.err.code) && r.message == err.err.message
      && r.errors.None? && r.stack.None?
      && (r.details.Some? <==> err.err.details.Some? && Truthy(err.err.details.value))
      && (r.details.Some? ==> r.details == err.err.details)
    ensures err.Generic? ==>
      && r.status == 500 && r.code == CodeName(InternalError) && r.message == DefaultMessage(InternalError)
      && r.errors.None? && r.details.None?
      && r.stack == (if development then err.stack else None)
  {
    match err
    case Validation(issues) =>
      Response(400, false, CodeName(ValidationError), "Error de validación", Some(FieldErrors(issues)), None, None)
    case App(e) =>
      var details := if e.details.Some? && Truthy(e.details.value) then e.details else None;
      Response(e.statusCode, false, CodeName(e.code), e.message, None, details, None)
    case Generic(stack) =>
      Response(500, false, CodeName(InternalError), DefaultMessage(InternalError),
               None, None, if development then stack else None)
  }

  /** The response for a route nobody serves. */
  function NotFoundRoute(originalUrl: string): (r: Response)
    ensures r.status == 404 && !r.success && r.code == CodeName(NotFound)
    ensures Includes(r.message, originalUrl)
    ensures r.errors.None? && r.details.None? && r.stack.None?
  {
    var m := "Ruta " + originalUrl + " no encontrada";
    assert OccursAt(m, originalUrl, 5);
    Response(404, false, CodeName(NotFound), m, None, None, None)
  }

  /**
   * A field name of a validation error can be split back into its path when
   * no key contains a dot: the client can recover which field failed.
   */
  lemma FieldNameRecoversPath(path: seq<PathKey>)
    requires |path| >= 1
    requires forall k :: 0 <= k < |path| ==> path[k].Key? ==> '.' !in path[k].name
    ensures Split(FieldName(path), '.') == KeyTexts(path)
  {
    var texts := KeyTexts(path);
    forall k | 0 <= k < |texts|
      ensures '.' !in texts[k]
    {
      if path[k].Index? {
        assert forall c :: c in NatToString(path[k].i) ==> IsDigit(c);
      }
    }
    SplitJoin(texts, '.');
  }

  /** The status a factory chooses is the status the client receives, with the factory's code. */
  lemma FactoriesReachClient(code: ErrorCode, message: Option<string>, development: bool)
    ensures Handle(App(BadRequest(code, message)), development).status == 400
    ensures Handle(App(NotFoundError(code, message)), development).status == 404
    ensures Handle(App(Internal(code, message)), development).status == 500
    ensures Handle(App(Internal(code, message)), development).code == CodeName(code)
    ensures Handle(App(BadRequest(code, None)), development).message == DefaultMessage(code)
  {
  }

  /** A generic error never leaks its stack outside development. */
  lemma NoStackInProduction(err: Thrown)
    ensures Handle(err, false).stack.None?
  {
  }

  /** Invalid request bodies always reach the client as a 400 listing one field error per issue. */
  lemma RejectedOrdenBody(b: OrdenInput, development: bool)
    requires !OrdenValid(b)
    ensures var r := Handle(Validation(OrdenIssues(b)), development);
      r.status == 400 && r.errors.Some? && |r.errors.value| >= 1
  {
  }
}
