/**
 * Role-based access (js/auth.js): the stored user, the static role to
 * capability table with deny-by-default, and the visibility of the gated
 * controls that follows from it.
 *
 * The stored user is JSON text; decoding it is not modelled and enters as the
 * parameter `parse`, whose `None` stands for a decoded value that is falsy.
 */
module Rbac {
  import opened Wrappers
  import opened AuthSession

  /** The part of the user profile the access checks read. */
  datatype User = User(role: string)

  type UserDecoder = string -> Option<User>

  const AddProject: string := "add_project"
  const DeleteProject: string := "delete_project"
  const ManageUsers: string := "manage_users"

  /** The role to capability table, verbatim. */
  const Permissions: map<string, seq<string>> := map[
    "admin" := ["view_dashboard", "view_projects", "add_project", "edit_project", "delete_project", "manage_users", "view_reports", "export_data"],
    "editor" := ["view_dashboard", "view_projects", "add_project", "edit_project", "view_reports", "export_data"],
    "viewer" := ["view_dashboard", "view_projects", "view_reports", "export_data"]
  ]

  /** Capabilities of a role; a role outside the table has none. */
  function Capabilities(role: string): set<string>
  {
    if role in Permissions then set p | p in Permissions[role] else {}
  }

  /** `getUser`: the decoded `user` entry, when that entry is truthy. */
  function GetUser(s: Session, parse: UserDecoder): (u: Option<User>)
    ensures !Present(s, UserKey) ==> u == None
    ensures Present(s, UserKey) ==> u == parse(s.storage[UserKey])
  {
    match GetItem(s, UserKey)
    case Some(text) => if text != "" then parse(text) else None
    case None => None
  }

  /** `hasRole(roles)`: a user is stored and its role is listed. */
  function HasRole(s: Session, parse: UserDecoder, roles: seq<string>): (ok: bool)
    ensures ok <==> exists u :: GetUser(s, parse) == Some(u) && u.role in roles
  {
    var user := GetUser(s, parse);
    if user.None? then false else user.value.role in roles
  }

  /** `hasPermission(p)`: a user is stored and the table grants `p` to its role. */
  function HasPermission(s: Session, parse: UserDecoder, permission: string): (ok: bool)
    ensures ok <==> exists u :: GetUser(s, parse) == Some(u) && permission in Capabilities(u.role)
  {
    var user := GetUser(s, parse);
    if user.None? then false
    else
      var role := user.value.role;
      role in Permissions && permission in Permissions[role]
  }

  // ---------------------------------------------------------------------------
  // Shape of the table
  // ---------------------------------------------------------------------------

  /** Each role holds everything the role below it holds. */
  lemma CapabilitiesNested()
    ensures Capabilities("viewer") <= Capabilities("editor") <= Capabilities("admin")
  {
  }

  /** Deleting projects and managing users belong to admin alone. */
  lemma OnlyAdminDeletesOrManages(role: string)
    requires DeleteProject in Capabilities(role) || ManageUsers in Capabilities(role)
    ensures role == "admin"
  {
  }

  /** Rank of a known role in the hierarchy viewer < editor < admin. */
  function RoleRank(role: string): Option<nat>
  {
    if role == "viewer" then Some(0)
    else if role == "editor" then Some(1)
    else if role == "admin" then Some(2)
    else None
  }

  /** Lowest rank that holds a capability, for the capabilities the table mentions. */
  function RequiredRank(permission: string): Option<nat>
  {
    if permission in ["view_dashboard", "view_projects", "view_reports", "export_data"] then Some(0)
    else if permission in ["add_project", "edit_project"] then Some(1)
    else if permission in ["delete_project", "manage_users"] then Some(2)
    else None
  }

  /**
   * The table is exactly a three-level hierarchy: a role holds a capability
   * iff both are known and the role ranks at least as high as the capability
   * requires.
   */
  lemma TableIsHierarchy(role: string, permission: string)
    ensures permission in Capabilities(role) <==>
      RoleRank(role).Some? && RequiredRank(permission).Some? && RoleRank(role).value >= RequiredRank(permission).value
  {
  }

  /** With no stored user every check denies. */
  lemma DenyWithoutUser(s: Session, parse: UserDecoder, permission: string, roles: seq<string>)
    requires GetUser(s, parse) == None
    ensures !HasPermission(s, parse, permission) && !HasRole(s, parse, roles)
  {
  }

  /** A role outside the table is denied every capability. */
  lemma DenyUnknownRole(s: Session, parse: UserDecoder, permission: string)
    requires GetUser(s, parse).Some? && RoleRank(GetUser(s, parse).value.role).None?
    ensures !HasPermission(s, parse, permission)
  {
  }

  // ---------------------------------------------------------------------------
  // applyRBAC
  // ---------------------------------------------------------------------------

  /** CSS `display` values the controls are given. */
  datatype Display = Block | Flex | Hidden

  /** Display of the add-project button, the import tab, the manual-entry tab and the delete buttons. */
  datatype Controls = Controls(addProjectButton: Display, importTab: Display, manualEntryTab: Display, deleteButtons: Display)

  /** `applyRBAC`: `None` when no user is stored and nothing is touched. */
  function ApplyRbac(s: Session, parse: UserDecoder): (c: Option<Controls>)
    ensures c.None? <==> GetUser(s, parse).None?
    ensures c.Some? ==>
      && (c.value.addProjectButton != Hidden <==> HasPermission(s, parse, AddProject))
      && (c.value.importTab != Hidden <==> HasPermission(s, parse, AddProject))
      && (c.value.manualEntryTab != Hidden <==> HasPermission(s, parse, AddProject))
      && (c.value.deleteButtons != Hidden <==> HasPermission(s, parse, DeleteProject))
      && c.value.addProjectButton in {Block, Hidden}
      && c.value.importTab in {Flex, Hidden}
      && c.value.manualEntryTab in {Flex, Hidden}
      && c.value.deleteButtons in {Block, Hidden}
  {
    if GetUser(s, parse).None? then None
    else
      var canAdd := HasPermission(s, parse, AddProject);
      var canDelete := HasPermission(s, parse, DeleteProject);
      Some(Controls(
        if canAdd then Block else Hidden,
        if canAdd then Flex else Hidden,
        if canAdd then Flex else Hidden,
        if canDelete then Block else Hidden))
  }

  /** What each known role sees: viewers none of the gated controls, editors all but delete, admins all. */
  lemma ControlsByRole(s: Session, parse: UserDecoder, role: string)
    requires GetUser(s, parse) == Some(User(role))
    requires RoleRank(role).Some?
    ensures var c := ApplyRbac(s, parse).value;
      && (c.addProjectButton == Block <==> role != "viewer")
      && (c.importTab == Flex <==> role != "viewer")
      && (c.manualEntryTab == Flex <==> role != "viewer")
      && (c.deleteButtons == Block <==> role == "admin")
  {
  }

  // ---------------------------------------------------------------------------
  // Access across session transitions
  // ---------------------------------------------------------------------------

  /** After logout no user is stored: every check denies and no control is touched. */
  lemma LogoutRevokesAccess(s: Session, parse: UserDecoder, permission: string)
    ensures var out := Logout(s).session;
      !HasPermission(out, parse, permission) && ApplyRbac(out, parse).None?
  {
  }

  /** After a successful verification the access checks read the user the backend returned. */
  lemma VerifiedUserGoverns(s: Session, token: string, userJson: string, parse: UserDecoder, permission: string)
    requires userJson != ""
    ensures var after := VerifyToken(s, token, Ok(userJson)).session;
      && GetUser(after, parse) == parse(userJson)
      && (HasPermission(after, parse, permission) <==>
            parse(userJson).Some? && permission in Capabilities(parse(userJson).value.role))
  {
  }

  /** A token refresh does not change what the user may do. */
  lemma RefreshKeepsAccess(s: Session, reply: Reply<TokenPair>, parse: UserDecoder, permission: string)
    requires Present(s, AccessTokenKey) && Present(s, RefreshTokenKey) && reply.Ok?
    ensures HasPermission(RefreshTick(s, reply).session, parse, permission) == HasPermission(s, parse, permission)
  {
  }
}
