/**
 * The response taxonomy of the API: the body `{code, message, data}`, the
 * helper constructors and the business codes, which every helper keeps equal
 * to the HTTP status.
 */
module Responses {
  import opened Wrappers

  // ResponseCode constants
  const SUCCESS := 200
  const BAD_REQUEST := 400
  const UNAUTHORIZED := 401
  const FORBIDDEN := 403
  const NOT_FOUND := 404
  const INTERNAL_ERROR := 500

  /** The kinds of reply a handler ends with; the outcome type of every handler in this model. */
  datatype Kind = Success | ParamError | Unauthorized | Forbidden | NotFound | InternalError

  /** The response body: exactly a code, a message and an optional payload. */
  datatype ApiResponse<D> = ApiResponse(code: int, message: string, data: Option<D>)

  /** A JSON reply: the HTTP status line and the body. */
  datatype JsonReply<D> = JsonReply(statusCode: int, content: ApiResponse<D>)

  /** `success_response(data=None, message="操作成功", http_status=200)` */
  function SuccessResponse<D>(data: Option<D> := None, message: string := "操作成功", httpStatus: int := 200): (r: JsonReply<D>)
    ensures r.content.code == SUCCESS && r.statusCode == httpStatus
    ensures r.content.message == message && r.content.data == data
  {
    JsonReply(httpStatus, ApiResponse(SUCCESS, message, data))
  }

  /** `error_response(message, code=400, http_status=400, data=None)` */
  function ErrorResponse<D>(message: string, code: int := BAD_REQUEST, httpStatus: int := 400, data: Option<D> := None): (r: JsonReply<D>)
    ensures r.content.code == code && r.statusCode == httpStatus
    ensures r.content.message == message && r.content.data == data
  {
    JsonReply(httpStatus, ApiResponse(code, message, data))
  }

  function ParamErrorResponse<D>(message: string := "参数错误"): JsonReply<D> {
    ErrorResponse(message, BAD_REQUEST, 400)
  }

  function UnauthorizedResponse<D>(message: string := "认证失败，请登录"): JsonReply<D> {
    ErrorResponse(message, UNAUTHORIZED, 401)
  }

  function ForbiddenResponse<D>(message: string := "权限不足"): JsonReply<D> {
    ErrorResponse(message, FORBIDDEN, 403)
  }

  function NotFoundResponse<D>(message: string := "资源不存在"): JsonReply<D> {
    ErrorResponse(message, NOT_FOUND, 404)
  }

  function InternalErrorResponse<D>(message: string := "服务器内部错误"): JsonReply<D> {
    ErrorResponse(message, INTERNAL_ERROR, 500)
  }

  /** The helper a handler calls for each kind of outcome, with its default message. */
  function Respond<D>(k: Kind): JsonReply<D> {
    match k
    case Success => SuccessResponse()
    case ParamError => ParamErrorResponse()
    case Unauthorized => UnauthorizedResponse()
    case Forbidden => ForbiddenResponse()
    case NotFound => NotFoundResponse()
    case InternalError => InternalErrorResponse()
  }

  /** The business code a reply kind carries. */
  function CodeOf(k: Kind): int {
    match k
    case Success => SUCCESS
    case ParamError => BAD_REQUEST
    case Unauthorized => UNAUTHORIZED
    case Forbidden => FORBIDDEN
    case NotFound => NOT_FOUND
    case InternalError => INTERNAL_ERROR
  }

  /** Reading a business code back as a reply kind. */
  function KindOfCode(code: int): (r: Option<Kind>)
    ensures r.Some? ==> CodeOf(r.value) == code
  {
    if code == SUCCESS then Some(Success)
    else if code == BAD_REQUEST then Some(ParamError)
    else if code == UNAUTHORIZED then Some(Unauthorized)
    else if code == FORBIDDEN then Some(Forbidden)
    else if code == NOT_FOUND then Some(NotFound)
    else if code == INTERNAL_ERROR then Some(InternalError)
    else None
  }

  /** Every helper carries the business code of its kind, equal to the HTTP status, and no payload. */
  lemma HelpersCodeEqualsStatus<D>(k: Kind)
    ensures Respond<D>(k).content.code == Respond<D>(k).statusCode == CodeOf(k)
    ensures Respond<D>(k).content.data == None
    ensures KindOfCode(Respond<D>(k).content.code) == Some(k)
  {
  }

  /** The business code determines the kind: distinct kinds never share a code. */
  lemma CodeOfInjective(a: Kind, b: Kind)
    requires CodeOf(a) == CodeOf(b)
    ensures a == b
  {
  }

  /** The helpers' default messages and codes. */
  lemma HelperDefaults()
    ensures SuccessResponse<int>() == JsonReply(200, ApiResponse(200, "操作成功", None))
    ensures ErrorResponse<int>("m") == JsonReply(400, ApiResponse(400, "m", None))
    ensures ParamErrorResponse<int>().content.message == "参数错误"
    ensures NotFoundResponse<int>().content.message == "资源不存在"
    ensures InternalErrorResponse<int>().content.message == "服务器内部错误"
  {
  }

  /** What a handler without pushes leaves behind: its reply kind and the table after the commit. */
  datatype Outcome<S> = Outcome(kind: Kind, state: S)
}
