/**
 * What goes in and out of the mock server: query parameters, request
 * bodies, and a response that is either a payload or a structured error.
 */
module Api {
  import opened Wrappers
  import opened Records
  import opened Text

  /** A query-parameter value, `string | number | boolean` (integral numbers only). */
  datatype Param = Str(s: string) | Num(n: int) | Bool(b: bool)

  /** The query parameters; a key that is absent reads as `undefined`. */
  type Params = map<string, Param>

  /** JavaScript truthiness of a parameter value. */
  predicate Truthy(p: Param)
  {
    match p
    case Str(s) => s != ""
    case Num(n) => n != 0
    case Bool(b) => b
  }

  /** `String(p)`. */
  function ParamString(p: Param): string
  {
    match p
    case Str(s) => s
    case Num(n) => IntToString(n)
    case Bool(b) => if b then "true" else "false"
  }

  /** `params?.key` is truthy. */
  predicate Given(params: Params, key: string)
  {
    key in params && Truthy(params[key])
  }

  /** JavaScript truthiness of an optional string field of a body. */
  predicate Present(field: Option<string>)
  {
    field.Some? && field.value != ""
  }

  /**
   * A request body: a loosely typed object, of which each handler reads the
   * fields it needs. `None` stands for a field that is `undefined` or `null`.
   */
  datatype Body = Body(
    name: Option<string>,
    email: Option<string>,
    roleId: Option<string>,
    isActive: Option<bool>,
    description: Option<string>,
    permissions: Option<seq<string>>)

  datatype ErrorCode =
    | NotFound | ValidationError | DuplicateEmail | InvalidRole
    | DuplicateRole | RoleInUse | BadRequest

  /** The `code` string of an error response. */
  function CodeName(c: ErrorCode): string
  {
    match c
    case NotFound => "NOT_FOUND"
    case ValidationError => "VALIDATION_ERROR"
    case DuplicateEmail => "DUPLICATE_EMAIL"
    case InvalidRole => "INVALID_ROLE"
    case DuplicateRole => "DUPLICATE_ROLE"
    case RoleInUse => "ROLE_IN_USE"
    case BadRequest => "BAD_REQUEST"
  }

  datatype ApiError = ApiError(code: ErrorCode, message: string) {
    /** The HTTP status each code is thrown with. */
    function Status(): int
    {
      match code
      case NotFound => 404
      case ValidationError => 400
      case DuplicateEmail => 409
      case InvalidRole => 400
      case DuplicateRole => 409
      case RoleInUse => 409
      case BadRequest => 400
    }
  }

  datatype Payload =
    | UserList(users: seq<User>)
    | OneUser(user: User)
    | RoleList(roles: seq<Role>)
    | OneRole(role: Role)
    | AuditLogList(logs: seq<AuditLog>)
    | Deleted(message: string)

  datatype Response = Ok(payload: Payload) | Err(error: ApiError)

  // Error messages, as the handlers throw them.
  const UserNotFoundMessage: string := "사용자를 찾을 수 없습니다."
  const RoleNotFoundMessage: string := "역할을 찾을 수 없습니다."
  const EndpointNotFoundMessage: string := "엔드포인트를 찾을 수 없습니다."
  const UserFieldsMessage: string := "필수 필드를 확인하세요."
  const DuplicateEmailMessage: string := "이미 존재하는 이메일입니다."
  const InvalidRoleMessage: string := "유효하지 않은 역할입니다."
  const RoleFieldsMessage: string := "역할명과 권한을 확인하세요."
  const DuplicateRoleMessage: string := "이미 존재하는 역할명입니다."
  const RoleInUseMessage: string := "이 역할을 사용 중인 사용자가 있어 삭제할 수 없습니다."
  const BadRequestMessage: string := "잘못된 요청입니다."

  // Success messages of the delete handlers.
  const UserDeletedReply: string := "사용자가 삭제되었습니다."
  const RoleDeletedReply: string := "역할이 삭제되었습니다."
}
