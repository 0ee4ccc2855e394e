/** The role and permission predicates of internal/domain/model/role.go.
    A `nil` error is `None`; only "admin" carries any permission, so a
    moderator is treated exactly like a plain user. */
module Roles {
  import opened Base
  import opened Entities
  import opened AppErrors

  const RoleUser := "user"
  const RoleModerator := "moderator"
  const RoleAdmin := "admin"
  const PermissionUpdate := "update"
  const PermissionDelete := "delete"

  /** Details the errors are appended with; the delete and generic texts are
      the same string in the source. */
  const HasNoPermissionsToUpdateUserError := "auth user can't change this user"
  const HasNoPermissionsToDeleteUserError := "auth user can't delete this user"
  const HasNoPermissionsError := "auth user can't delete this user"

  /** `GetDefaultRole`: every new user starts as a plain user. */
  function GetDefaultRole(): (r: string)
    ensures r == RoleUser && r != RoleAdmin
  {
    RoleUser
  }

  /** `GetRoles`: the three known roles, the default one first. */
  function GetRoles(): (r: seq<string>)
    ensures |r| == 3 && r[0] == GetDefaultRole() && RoleAdmin in r
    ensures forall i, j :: 0 <= i < j < |r| ==> r[i] != r[j]
  {
    [RoleUser, RoleModerator, RoleAdmin]
  }

  predicate IsAdmin(u: User)
  {
    u.role == RoleAdmin
  }

  /** `HasPermissionsToUpdateUser`: nil for an admin, its own 400 error otherwise. */
  function HasPermissionsToUpdateUserCheck(u: User): (r: Option<AppError>)
    ensures r.None? <==> IsAdmin(u)
    ensures r.Some? ==> Is(App(r.value), HasPermissionsToUpdateUser) && r.value.httpCode == StatusBadRequest
  {
    if IsAdmin(u) then None
    else Some(HasPermissionsToUpdateUser.AppendMessage(HasNoPermissionsToUpdateUserError))
  }

  /** `HasPermissionsToDeleteUser`: nil for an admin, its own 400 error otherwise. */
  function HasPermissionsToDeleteUserCheck(u: User): (r: Option<AppError>)
    ensures r.None? <==> IsAdmin(u)
    ensures r.Some? ==> Is(App(r.value), HasPermissionsDeleteUser) && r.value.httpCode == StatusBadRequest
  {
    if IsAdmin(u) then None
    else Some(HasPermissionsDeleteUser.AppendMessage(HasNoPermissionsToDeleteUserError))
  }

  /** `Can`: "update" and "delete" dispatch to their checks; any other
      permission is refused with `ROLE_CAN_NO_PERMISSION`, even for an admin. */
  function Can(u: User, permission: string): (r: Option<AppError>)
    ensures r.None? <==> (permission == PermissionUpdate || permission == PermissionDelete) && IsAdmin(u)
    ensures permission != PermissionUpdate && permission != PermissionDelete
            ==> r.Some? && Is(App(r.value), RoleCanNoPermission)
    ensures r.Some? ==> r.value.httpCode == StatusBadRequest
  {
    if permission == PermissionUpdate then HasPermissionsToUpdateUserCheck(u)
    else if permission == PermissionDelete then HasPermissionsToDeleteUserCheck(u)
    else Some(RoleCanNoPermission.AppendMessage(HasNoPermissionsError))
  }

  /** A moderator has exactly the permissions of a plain user. */
  lemma ModeratorIsPlainUser(u: User, permission: string)
    ensures Can(u.(role := RoleModerator), permission) == Can(u.(role := RoleUser), permission)
  {
  }

  /** The outcome of `Can` depends on the role only through `IsAdmin`. */
  lemma CanDependsOnlyOnAdmin(u: User, w: User, permission: string)
    requires IsAdmin(u) == IsAdmin(w)
    ensures Can(u, permission) == Can(w, permission)
  {
  }
}
