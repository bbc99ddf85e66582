/** Every row a seed inserts or rewrites, field by field. */
module SeedRows {
  import opened Common
  import opened Jsonb
  import opened SeedTables
  import opened SeedGuarantees

  /** Some account has that name. */
  ghost predicate Known(t: Tables, username: string) {
    exists i :: 0 <= i < |t.accounts| && t.accounts[i].username == username
  }

  // The tables of a seed, each from the part that writes it.
  lemma SeedSplits(t: Tables, cfg: Config, gen: Generated) returns (t1: Tables, adminId: Id, t2: Tables, roleId: Id)
    requires Seed(t, cfg, gen).Some?
    ensures WithAccount(t, cfg, gen) == Some((t1, adminId)) && WithRole(t1, gen) == Some((t2, roleId))
    ensures t1.roles == t.roles && t2.accounts == t1.accounts
    ensures var t' := Seed(t, cfg, gen).value;
            && t'.accounts == t1.accounts && t'.credentials == t1.credentials
            && t'.roles == EnforcePermissions(t2.roles, roleId)
            && t'.accountRoles == WithLink(t, adminId, roleId).accountRoles
            && t'.clients == WithClient(t, adminId, cfg).clients
  {
    hide WithAccount, WithRole, WithClient, WithLink, EnforcePermissions;
    t1, adminId := WithAccount(t, cfg, gen).value.0, WithAccount(t, cfg, gen).value.1;
    t2, roleId := WithRole(t1, gen).value.0, WithRole(t1, gen).value.1;
    AccountTouchesAccounts(t, cfg, gen);
    RoleTouchesRoles(t1, gen);
    var t3 := t2.(roles := EnforcePermissions(t2.roles, roleId));
    LinkTouchesLinks(t3, t, adminId, roleId);
    ClientTouchesClients(WithLink(t3, adminId, roleId), t, adminId, cfg);
  }

  lemma LinkTouchesLinks(t: Tables, t': Tables, adminId: Id, roleId: Id)
    requires t.accountRoles == t'.accountRoles
    ensures WithLink(t, adminId, roleId) == t.(accountRoles := WithLink(t', adminId, roleId).accountRoles)
  {}

  lemma ClientTouchesClients(t: Tables, t': Tables, adminId: Id, cfg: Config)
    requires t.clients == t'.clients
    ensures WithClient(t, adminId, cfg) == t.(clients := WithClient(t', adminId, cfg).clients)
  {
    hide HasClient, UpdateClients;
  }

  /** A new administrator is one active account and one verified, primary password credential; a known one changes nothing. */
  lemma AdministratorIsInserted(t: Tables, cfg: Config, gen: Generated)
    requires Seed(t, cfg, gen).Some?
    ensures var t' := Seed(t, cfg, gen).value;
            if Known(t, cfg.username) then t'.accounts == t.accounts && t'.credentials == t.credentials
            else
              && t'.accounts == t.accounts + [Account(
                   id := gen.accountId, username := cfg.username, displayName := cfg.displayName, status := "active")]
              && t'.credentials == t.credentials + [Credential(
                   accountId := gen.accountId, kind := "password", identifier := cfg.username, value := gen.passwordHash,
                   verified := true, isPrimary := true)]
  {
    hide Seed, AccountIdTaken;
    var t1, adminId, t2, roleId := SeedSplits(t, cfg, gen);
  }

  ghost predicate HasAdminRole(t: Tables) {
    exists j :: 0 <= j < |t.roles| && t.roles[j].name == "admin"
  }

  /** The permissions a role is left with: kept if they grant the permission, otherwise it is put behind them. */
  function Granted(permissions: Option<Json>): Option<Json> {
    match permissions
    case None => Some(Array([Text("admin:*")]))
    case Some(Array(items)) => if Text("admin:*") in items then permissions else Some(Array(items + [Text("admin:*")]))
    case Some(Object(fields)) =>
      if "admin:*" in fields then permissions else Some(Array([Object(fields), Text("admin:*")]))
    case Some(Text(s)) => if s == "admin:*" then permissions else Some(Array([Text(s), Text("admin:*")]))
    case Some(other) => Some(Array([other, Text("admin:*")]))
  }

  lemma EnforcedIsGranted(r: Role)
    ensures Enforced(r) == r.(permissions := Granted(r.permissions))
  {
    var p := Coalesce(r.permissions, Array([]));
    var none: seq<Json> := [];
    assert none + [Text("admin:*")] == [Text("admin:*")] && [p] + [Text("admin:*")] == [p, Text("admin:*")];
  }

  /** A new admin role is inserted with its permission; otherwise the one admin role has it put behind its permissions. */
  lemma RoleIsInserted(t: Tables, cfg: Config, gen: Generated)
    requires Unique(t) && Seed(t, cfg, gen).Some?
    ensures var t' := Seed(t, cfg, gen).value;
            if HasAdminRole(t) then
              && |t'.roles| == |t.roles|
              && forall j :: 0 <= j < |t.roles| ==>
                   t'.roles[j] == if t.roles[j].name == "admin" then t.roles[j].(permissions := Granted(t.roles[j].permissions))
                                  else t.roles[j]
            else t'.roles == t.roles + [Role(
                   id := gen.roleId, name := "admin", description := "System Administrator",
                   permissions := Some(Array([Text("admin:*")])))]
  {
    hide Seed, EnforcePermissions, WithAccount, WithRole, HasAdminRole, Granted;
    var t1, adminId, t2, roleId := SeedSplits(t, cfg, gen);
    RolesAre(t.roles, t1, gen);
    SameRoles(t, t1);
  }

  lemma SameRoles(t: Tables, t': Tables)
    requires t.roles == t'.roles
    ensures HasAdminRole(t) <==> HasAdminRole(t')
  {}

  lemma RolesAre(roles: seq<Role>, t: Tables, gen: Generated)
    requires roles == t.roles && WithRole(t, gen).Some?
    requires forall i, j :: 0 <= i < j < |roles| ==> roles[i].id != roles[j].id && roles[i].name != roles[j].name
    ensures var (t', id) := WithRole(t, gen).value;
            var after := EnforcePermissions(t'.roles, id);
            if HasAdminRole(t) then
              && |after| == |roles|
              && forall j :: 0 <= j < |roles| ==>
                   after[j] == if roles[j].name == "admin" then roles[j].(permissions := Granted(roles[j].permissions)) else roles[j]
            else after == roles + [Role(
                   id := gen.roleId, name := "admin", description := "System Administrator",
                   permissions := Some(Array([Text("admin:*")])))]
  {
    if HasAdminRole(t) {
      KnownRoleIsGranted(roles, t, gen);
    } else {
      NewRoleIsInserted(t, gen);
    }
    hide HasAdminRole, WithRole, EnforcePermissions, Granted;
  }

  lemma KnownRoleIsGranted(roles: seq<Role>, t: Tables, gen: Generated)
    requires roles == t.roles && HasAdminRole(t)
    requires forall i, j :: 0 <= i < j < |roles| ==> roles[i].id != roles[j].id && roles[i].name != roles[j].name
    ensures WithRole(t, gen).Some? && WithRole(t, gen).value.0 == t
    ensures var after := EnforcePermissions(roles, WithRole(t, gen).value.1);
            forall j :: 0 <= j < |roles| ==>
              after[j] == if roles[j].name == "admin" then roles[j].(permissions := Granted(roles[j].permissions)) else roles[j]
  {
    hide Enforced, Granted, RoleIdTaken;
    var id := WithRole(t, gen).value.1;
    var j :| 0 <= j < |roles| && roles[j].name == "admin" && roles[j].id == id;
    EnforcedIsGranted(roles[j]);
    forall n | 0 <= n < |roles| && n != j ensures roles[n].id != id && roles[n].name != "admin" {}
  }

  lemma NewRoleIsInserted(t: Tables, gen: Generated)
    requires !HasAdminRole(t) && WithRole(t, gen).Some?
    ensures var (t', id) := WithRole(t, gen).value;
            EnforcePermissions(t'.roles, id) == t.roles + [Role(
              id := gen.roleId, name := "admin", description := "System Administrator",
              permissions := Some(Array([Text("admin:*")])))]
  {
    hide Enforced, RoleIdTaken;
    NoneTaken(t, gen);
    NewRoleIsGranted(gen);
  }

  lemma NoneTaken(t: Tables, gen: Generated)
    ensures !RoleIdTaken(t.roles, gen.roleId) <==> forall n :: 0 <= n < |t.roles| ==> t.roles[n].id != gen.roleId
  {}

  lemma NewRoleIsGranted(gen: Generated)
    ensures Enforced(NewRole(gen)) == NewRole(gen)
  {
    assert Text("admin:*") in [Text("admin:*")];
  }

  lemma AccountTouchesAccounts(t: Tables, cfg: Config, gen: Generated)
    requires WithAccount(t, cfg, gen).Some?
    ensures var t1 := WithAccount(t, cfg, gen).value.0;
            t1 == t.(accounts := t1.accounts, credentials := t1.credentials)
  {
    hide FindAccount, AccountIdTaken;
  }

  /** The account and the role a seed is about, and the link between them: inserted unless it is there. */
  lemma LinkIsInserted(t: Tables, cfg: Config, gen: Generated)
    requires Unique(t) && Seed(t, cfg, gen).Some?
    ensures var t' := Seed(t, cfg, gen).value;
            exists i, j ::
              && 0 <= i < |t'.accounts| && t'.accounts[i].username == cfg.username
              && 0 <= j < |t'.roles| && t'.roles[j].name == "admin"
              && var link := AccountRole(accountId := t'.accounts[i].id, roleId := t'.roles[j].id);
                 t'.accountRoles == if link in t.accountRoles then t.accountRoles else t.accountRoles + [link]
  {
    hide Seed, WithAccount, WithRole, Unique, Grows, Enforced;
    var t1, adminId, t2, roleId := SeedSplits(t, cfg, gen);
    AccountPart(t, cfg, gen);
    RolePart(t1, gen);
    var i :| 0 <= i < |t1.accounts| && t1.accounts[i].username == cfg.username && t1.accounts[i].id == adminId;
    var j :| 0 <= j < |t2.roles| && t2.roles[j].name == ADMIN_ROLE && t2.roles[j].id == roleId;
    var t' := Seed(t, cfg, gen).value;
    EnforcedNames(t2.roles[j]);
    assert t'.roles[j].id == roleId && t'.roles[j].name == "admin";
  }

  lemma EnforcedNames(r: Role)
    ensures Enforced(r).id == r.id && Enforced(r).name == r.name
  {}

  /** The metadata a client is left with: the capability set in an object, put behind anything else. */
  function WithCapability(metadata: Option<Json>): Json {
    match metadata
    case None => Object(map["capability" := Text("admin")])
    case Some(Object(fields)) => Object(fields["capability" := Text("admin")])
    case Some(Array(items)) => Array(items + [Object(map["capability" := Text("admin")])])
    case Some(other) => Array([other, Object(map["capability" := Text("admin")])])
  }

  /** The console's policy, written on a client. */
  function UnderPolicy(c: Client, redirectUris: Json): Client {
    c.(redirectUris := redirectUris,
       grantTypes := Array([Text("authorization_code"), Text("refresh_token")]),
       scopes := Array([Text("openid"), Text("profile"), Text("email"), Text("admin")]),
       metadata := Some(WithCapability(c.metadata)))
  }

  lemma PolicedIsUnderPolicy(c: Client, redirectUris: Json)
    ensures Policed(c, redirectUris) == UnderPolicy(c, redirectUris)
  {
    var capability: map<string, Json> := map["capability" := Text("admin")];
    var nothing: map<string, Json> := map[];
    assert nothing + capability == capability;
    var m := Coalesce(c.metadata, Object(map[]));
    assert [m] + [CAPABILITY] == [m, CAPABILITY];
    if c.metadata.Some? && c.metadata.value.Object? {
      assert c.metadata.value.fields + capability == c.metadata.value.fields["capability" := Text("admin")];
    }
  }

  /** A new console client is public and belongs to the administrator; a known one only has its policy written again. */
  lemma ClientIsInserted(t: Tables, cfg: Config, gen: Generated)
    requires Unique(t) && Seed(t, cfg, gen).Some?
    ensures var t' := Seed(t, cfg, gen).value;
            if exists i :: 0 <= i < |t.clients| && t.clients[i].clientId == "gosso-admin-spa" then
              && |t'.clients| == |t.clients|
              && forall i :: 0 <= i < |t.clients| ==>
                   t'.clients[i] == if t.clients[i].clientId == "gosso-admin-spa" then UnderPolicy(t.clients[i], cfg.redirectUris)
                                    else t.clients[i]
            else
              exists i :: 0 <= i < |t'.accounts| && t'.accounts[i].username == cfg.username
                && t'.clients == t.clients + [Client(
                     accountId := t'.accounts[i].id, clientId := "gosso-admin-spa", name := "GOSSO Admin Console",
                     description := "OAuth2 Client for React GOSSO Admin Frontend", redirectUris := cfg.redirectUris,
                     grantTypes := Array([Text("authorization_code"), Text("refresh_token")]),
                     scopes := Array([Text("openid"), Text("profile"), Text("email"), Text("admin")]),
                     isConfidential := false, metadata := Some(Object(map["capability" := Text("admin")])))]
  {
    hide Seed, WithAccount, WithRole, Unique, Grows, Policed, UnderPolicy;
    var t1, adminId, t2, roleId := SeedSplits(t, cfg, gen);
    AccountPart(t, cfg, gen);
    var i :| 0 <= i < |t1.accounts| && t1.accounts[i].username == cfg.username && t1.accounts[i].id == adminId;
    ClientsAre(t.clients, t, adminId, cfg);
    hide WithClient;
  }

  lemma ClientsAre(clients: seq<Client>, t: Tables, adminId: Id, cfg: Config)
    requires clients == t.clients
    ensures var after := WithClient(t, adminId, cfg).clients;
            if exists i :: 0 <= i < |clients| && clients[i].clientId == "gosso-admin-spa" then
              && |after| == |clients|
              && forall i :: 0 <= i < |clients| ==>
                   after[i] == if clients[i].clientId == "gosso-admin-spa" then UnderPolicy(clients[i], cfg.redirectUris) else clients[i]
            else after == clients + [Client(
                     accountId := adminId, clientId := "gosso-admin-spa", name := "GOSSO Admin Console",
                     description := "OAuth2 Client for React GOSSO Admin Frontend", redirectUris := cfg.redirectUris,
                     grantTypes := Array([Text("authorization_code"), Text("refresh_token")]),
                     scopes := Array([Text("openid"), Text("profile"), Text("email"), Text("admin")]),
                     isConfidential := false, metadata := Some(Object(map["capability" := Text("admin")])))]
  {
    hide Policed, UnderPolicy;
    forall i | 0 <= i < |clients| ensures Policed(clients[i], cfg.redirectUris) == UnderPolicy(clients[i], cfg.redirectUris) {
      PolicedIsUnderPolicy(clients[i], cfg.redirectUris);
    }
  }
}
