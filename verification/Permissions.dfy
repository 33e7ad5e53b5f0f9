/** Roles, the permissions they carry, and how a permission is matched
    (apps/snx-edge-server/src/db.rs, api/auth.rs, api/users.rs). */
module Permissions {
  /** A role name; anything outside the table carries no permissions. */
  datatype Role = Viewer | Operator | Admin | Unknown(name: string)

  predicate ValidRole(role: Role) {
    !role.Unknown?
  }

  function RoleLevel(role: Role): nat {
    match role
    case Viewer => 1
    case Operator => 2
    case Admin => 3
    case Unknown(_) => 0
  }

  const ADMIN: seq<string> :=
    ["tunnel.*", "config.*", "profiles.*", "routing.*", "routing.setup", "routing.teardown", "users.*", "logs.*"]

  const OPERATOR: seq<string> :=
    ["tunnel.connect", "tunnel.disconnect", "tunnel.status", "config.read", "profiles.read",
     "routing.clients.*", "routing.bypass.*", "routing.corp.*", "routing.diagnostics", "logs.*"]

  const VIEWER: seq<string> := ["tunnel.status", "config.read", "profiles.read", "routing.read", "logs.read"]

  function PermissionsFor(role: Role): seq<string> {
    match role
    case Admin => ADMIN
    case Operator => OPERATOR
    case Viewer => VIEWER
    case Unknown(_) => []
  }

  /** `p` is the permission itself, or a wildcard over its dotted prefix. */
  predicate Grants(p: string, required: string) {
    || p == required
    || (|p| >= 2 && p[|p| - 2] == '.' && p[|p| - 1] == '*' && p[..|p| - 1] <= required)
  }

  predicate HasPermission(permissions: seq<string>, required: string) {
    exists i :: 0 <= i < |permissions| && Grants(permissions[i], required)
  }

  /** What one entry grants lies below every dotted prefix the entry lies below. */
  lemma GrantsBelow(area: string, p: string, required: string)
    requires Grants(p, required) && area <= p && |area| < |p|
    ensures area <= required
  {
    if p != required {
      assert p[..|p| - 1][..|area|] == p[..|area|];
    }
  }

  lemma WildcardGrants(area: string, required: string)
    requires area != "" && area[|area| - 1] == '.' && area <= required
    ensures Grants(area + "*", required)
  {
    var p := area + "*";
    assert p[..|p| - 1] == area;
  }

  const AREAS: seq<string> := ["tunnel.", "config.", "profiles.", "routing.", "users.", "logs."]

  predicate InAreas(p: string) {
    exists a :: 0 <= a < |AREAS| && AREAS[a] <= p && |AREAS[a]| < |p|
  }

  lemma TablesLieInAreas()
    ensures forall i :: 0 <= i < |OPERATOR| ==> InAreas(OPERATOR[i])
    ensures forall i :: 0 <= i < |VIEWER| ==> InAreas(VIEWER[i])
  {
    forall i | 0 <= i < |OPERATOR| ensures InAreas(OPERATOR[i]) {
      var a := if i < 3 then 0 else if i == 3 then 1 else if i == 4 then 2 else if i < 9 then 3 else 5;
      assert AREAS[a] <= OPERATOR[i];
    }
    forall i | 0 <= i < |VIEWER| ensures InAreas(VIEWER[i]) {
      var a := if i == 0 then 0 else if i == 1 then 1 else if i == 2 then 2 else if i == 3 then 3 else 5;
      assert AREAS[a] <= VIEWER[i];
    }
  }

  lemma AdminGrantsArea(a: nat, required: string)
    requires a < |AREAS| && AREAS[a] <= required
    ensures HasPermission(ADMIN, required)
  {
    WildcardGrants(AREAS[a], required);
    var i := if a < 4 then a else if a == 4 then 6 else 7;
    assert ADMIN[i] == AREAS[a] + "*";
  }

  /** Whatever any role may do, an admin may do. */
  lemma AdminMayDoAll(role: Role, required: string)
    requires HasPermission(PermissionsFor(role), required)
    ensures HasPermission(PermissionsFor(Admin), required)
  {
    hide HasPermission, Grants;
    TablesLieInAreas();
    if role.Operator? || role.Viewer? {
      HeldInAreas(PermissionsFor(role), required);
      var a :| 0 <= a < |AREAS| && AREAS[a] <= required;
      AdminGrantsArea(a, required);
    } else if role.Unknown? {
      NothingGrantsNothing(required);
    }
  }

  lemma NothingGrantsNothing(required: string)
    ensures !HasPermission([], required)
  {
  }

  lemma HeldInAreas(permissions: seq<string>, required: string)
    requires HasPermission(permissions, required)
    requires forall i :: 0 <= i < |permissions| ==> InAreas(permissions[i])
    ensures exists a :: 0 <= a < |AREAS| && AREAS[a] <= required
  {
    var i :| 0 <= i < |permissions| && Grants(permissions[i], required);
    var a :| 0 <= a < |AREAS| && AREAS[a] <= permissions[i] && |AREAS[a]| < |permissions[i]|;
    GrantsBelow(AREAS[a], permissions[i], required);
  }

  /** The roles' levels are not an order of permissions: there is exactly one
      thing a viewer may do and an operator may not. */
  lemma ViewerOverOperator(required: string)
    ensures RoleLevel(Operator) > RoleLevel(Viewer)
    ensures HasPermission(PermissionsFor(Viewer), required) && !HasPermission(PermissionsFor(Operator), required)
       <==> required == "routing.read"
  {
    if HasPermission(VIEWER, required) {
      ViewersAre(required);
      OperatorMay("tunnel.status", 2);
      OperatorMay("config.read", 3);
      OperatorMay("profiles.read", 4);
      LogsRead();
    }
    if required == "routing.read" {
      OperatorMayNotReadRouting();
      assert VIEWER[3] == required;
    }
  }

  lemma ViewersAre(required: string)
    requires HasPermission(VIEWER, required)
    ensures required in VIEWER
  {
    var i :| 0 <= i < |VIEWER| && Grants(VIEWER[i], required);
    assert VIEWER[i][|VIEWER[i]| - 1] != '*';
  }

  lemma OperatorMay(p: string, i: nat)
    requires i < |OPERATOR| && OPERATOR[i] == p
    ensures HasPermission(OPERATOR, p)
  {
  }

  lemma LogsRead()
    ensures HasPermission(OPERATOR, "logs.read")
  {
    WildcardGrants("logs.", "logs.read");
    assert OPERATOR[9] == "logs." + "*";
  }

  lemma OperatorMayNotReadRouting()
    ensures !HasPermission(OPERATOR, "routing.read")
  {
    forall i | 0 <= i < |OPERATOR| ensures !Grants(OPERATOR[i], "routing.read") {
      assert OPERATOR[i][0] != 'r' || OPERATOR[i][8] != 'r';
    }
  }

  /** User management, whatever the action, is an admin's alone. */
  lemma OnlyAdminsManageUsers(role: Role, action: string)
    ensures HasPermission(PermissionsFor(role), "users." + action) <==> role.Admin?
  {
    var required := "users." + action;
    assert required[0] == 'u';
    if role.Admin? {
      assert AREAS[4] <= required;
      AdminGrantsArea(4, required);
    } else {
      forall i | 0 <= i < |PermissionsFor(role)| ensures !Grants(PermissionsFor(role)[i], required) {
        assert PermissionsFor(role)[i][0] != 'u';
      }
    }
  }
}
