/**
 * The error taxonomy: the table of error codes with their default messages,
 * and `AppError` values built by the `badRequest`, `notFound` and `internal`
 * factories.
 */
module AppErrors {
  import opened Wrappers

  datatype ErrorCode =
    | InternalError
    | ValidationError
    | NotFound
    | IngredienteNotFound
    | IngredienteCreateError
    | IngredienteUpdateError
    | IngredienteInsufficient
    | RecetaNotFound
    | RecetaCreateError
    | OrdenCreateError
    | OrdenFetchError
    | AlertCheckError
    | AlertSendError

  /** The code as it appears in a response body. */
  function CodeName(c: ErrorCode): string {
    match c
    case InternalError => "INTERNAL_ERROR"
    case ValidationError => "VALIDATION_ERROR"
    case NotFound => "NOT_FOUND"
    case IngredienteNotFound => "INGREDIENTE_NOT_FOUND"
    case IngredienteCreateError => "INGREDIENTE_CREATE_ERROR"
    case IngredienteUpdateError => "INGREDIENTE_UPDATE_ERROR"
    case IngredienteInsufficient => "INGREDIENTE_INSUFFICIENT"
    case RecetaNotFound => "RECETA_NOT_FOUND"
    case RecetaCreateError => "RECETA_CREATE_ERROR"
    case OrdenCreateError => "ORDEN_CREATE_ERROR"
    case OrdenFetchError => "ORDEN_FETCH_ERROR"
    case AlertCheckError => "ALERT_CHECK_ERROR"
    case AlertSendError => "ALERT_SEND_ERROR"
  }

  /** The default message of each code. */
  function DefaultMessage(c: ErrorCode): string {
    match c
    case InternalError => "Error interno del servidor"
    case ValidationError => "Error de validación de datos"
    case NotFound => "Recurso no encontrado"
    case IngredienteNotFound => "Ingrediente no encontrado"
    case IngredienteCreateError => "Error al crear ingrediente"
    case IngredienteUpdateError => "Error al actualizar ingrediente"
    case IngredienteInsufficient => "No hay suficientes ingredientes"
    case RecetaNotFound => "Receta no encontrada"
    case RecetaCreateError => "Error al crear receta"
    case OrdenCreateError => "Error al procesar orden"
    case OrdenFetchError => "Error al obtener órdenes"
    case AlertCheckError => "Error al verificar alertas"
    case AlertSendError => "Error al enviar alerta"
  }

  /** Reads a code back from its name. */
  function CodeOf(name: string): Option<ErrorCode> {
    if name == "INTERNAL_ERROR" then Some(InternalError) else
    if name == "VALIDATION_ERROR" then Some(ValidationError) else
    if name == "NOT_FOUND" then Some(NotFound) else
    if name == "INGREDIENTE_NOT_FOUND" then Some(IngredienteNotFound) else
    if name == "INGREDIENTE_CREATE_ERROR" then Some(IngredienteCreateError) else
    if name == "INGREDIENTE_UPDATE_ERROR" then Some(IngredienteUpdateError) else
    if name == "INGREDIENTE_INSUFFICIENT" then Some(IngredienteInsufficient) else
    if name == "RECETA_NOT_FOUND" then Some(RecetaNotFound) else
    if name == "RECETA_CREATE_ERROR" then Some(RecetaCreateError) else
    if name == "ORDEN_CREATE_ERROR" then Some(OrdenCreateError) else
    if name == "ORDEN_FETCH_ERROR" then Some(OrdenFetchError) else
    if name == "ALERT_CHECK_ERROR" then Some(AlertCheckError) else
    if name == "ALERT_SEND_ERROR" then Some(AlertSendError) else
    None
  }

  /** A response's code names exactly one error code. */
  lemma CodeNameRoundTrip(c: ErrorCode)
    ensures CodeOf(CodeName(c)) == Some(c)
  {
    match c
    case InternalError =>
    case ValidationError =>
    case NotFound =>
    case IngredienteNotFound =>
    case IngredienteCreateError =>
    case IngredienteUpdateError =>
    case IngredienteInsufficient =>
    case RecetaNotFound =>
    case RecetaCreateError =>
    case OrdenCreateError =>
    case OrdenFetchError =>
    case AlertCheckError =>
    case AlertSendError =>
  }

  lemma CodeNameInjective(a: ErrorCode, b: ErrorCode)
    ensures CodeName(a) == CodeName(b) <==> a == b
  {
    CodeNameRoundTrip(a);
    CodeNameRoundTrip(b);
  }

  /** A JSON value, standing for the `any` that `details` may hold. */
  datatype Value =
    | Null
    | Bool(b: bool)
    | Num(n: int)
    | Str(s: string)
    | Arr(items: seq<Value>)
    | Obj(fields: seq<(string, Value)>)

  /** JavaScript truthiness of a value (`NaN` is not modelled). */
  predicate Truthy(v: Value) {
    match v
    case Null => false
    case Bool(b) => b
    case Num(n) => n != 0
    case Str(s) => s != ""
    case Arr(_) => true
    case Obj(_) => true
  }

  datatype AppError = AppError(
    statusCode: int,
    code: ErrorCode,
    message: string,
    isOperational: bool,
    details: Option<Value>)

  /** `new AppError(code, statusCode, message, details)`. */
  function MakeAppError(code: ErrorCode, statusCode: int, message: Option<string>, details: Option<Value>): (e: AppError)
    ensures e.code == code && e.statusCode == statusCode && e.details == details
    ensures e.isOperational
    ensures message.Some? && message.value != "" ==> e.message == message.value
    ensures message.None? || message.value == "" ==> e.message == DefaultMessage(code)
  {
    var text := if message.Some? && message.value != "" then message.value else DefaultMessage(code);
    AppError(statusCode, code, text, true, details)
  }

  function BadRequest(code: ErrorCode, message: Option<string> := None, details: Option<Value> := None): (e: AppError)
    ensures e.statusCode == 400 && e.code == code && e.details == details && e.isOperational
    ensures e.message == if message.Some? && message.value != "" then message.value else DefaultMessage(code)
  {
    MakeAppError(code, 400, message, details)
  }

  function NotFoundError(code: ErrorCode, message: Option<string> := None): (e: AppError)
    ensures e.statusCode == 404 && e.code == code && e.details.None? && e.isOperational
    ensures e.message == if message.Some? && message.value != "" then message.value else DefaultMessage(code)
  {
    MakeAppError(code, 404, message, None)
  }

  function Internal(code: ErrorCode, message: Option<string> := None): (e: AppError)
    ensures e.statusCode == 500 && e.code == code && e.details.None? && e.isOperational
    ensures e.message == if message.Some? && message.value != "" then message.value else DefaultMessage(code)
  {
    MakeAppError(code, 500, message, None)
  }

  /** Every default message is non-empty, so an error never carries an empty message. */
  lemma MessageNeverEmpty(code: ErrorCode, statusCode: int, message: Option<string>, details: Option<Value>)
    ensures MakeAppError(code, statusCode, message, details).message != ""
  {
  }
}
