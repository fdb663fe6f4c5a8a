/**
 * The records the mock back end stores: users, roles and audit-log entries.
 * Dates are integers of an abstract clock (milliseconds since the epoch).
 */
module Records {
  import opened Wrappers

  datatype User = User(
    id: string,
    name: string,
    email: string,
    roleId: string,
    isActive: bool,
    createdAt: int,
    updatedAt: int)

  datatype Role = Role(
    id: string,
    name: string,
    description: Option<string>,
    permissions: seq<string>,
    createdAt: int,
    updatedAt: int)

  datatype AuditAction = Create | Update | Delete | Login | Logout

  datatype AuditEntity = UserEntity | RoleEntity | PermissionEntity

  datatype AuditLog = AuditLog(
    id: string,
    action: AuditAction,
    entity: AuditEntity,
    entityId: string,
    actorId: string,
    actorName: string,
    message: string,
    timestamp: int)

  /** The string literal the action is written as on the wire. */
  function ActionName(a: AuditAction): string
  {
    match a
    case Create => "CREATE"
    case Update => "UPDATE"
    case Delete => "DELETE"
    case Login => "LOGIN"
    case Logout => "LOGOUT"
  }

  /** The string literal the entity kind is written as on the wire. */
  function EntityName(e: AuditEntity): string
  {
    match e
    case UserEntity => "USER"
    case RoleEntity => "ROLE"
    case PermissionEntity => "PERMISSION"
  }
}
