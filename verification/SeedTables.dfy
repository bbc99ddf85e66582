/**
 The seed transaction of seed/main.go: what its statements do to the five tables.

 `Seed` is the whole transaction as one function; `Transaction` runs it statement by statement
 on fields, the way `main` does.
 */
module SeedTables {
  import opened Common
  import opened Jsonb

  type Id = string

  datatype Account = Account(id: Id, username: string, displayName: string, status: string)

  datatype Credential = Credential(accountId: Id, kind: string, identifier: string, value: string,
                                   verified: bool, isPrimary: bool)

  datatype Role = Role(id: Id, name: string, description: string, permissions: Option<Json>)

  datatype AccountRole = AccountRole(accountId: Id, roleId: Id)

  datatype Client = Client(accountId: Id, clientId: string, name: string, description: string,
                           redirectUris: Json, grantTypes: Json, scopes: Json,
                           isConfidential: bool, metadata: Option<Json>)

  datatype Tables = Tables(accounts: seq<Account>, credentials: seq<Credential>, roles: seq<Role>,
                           accountRoles: seq<AccountRole>, clients: seq<Client>)

  /** What the environment of one seeder run asks for. */
  datatype Config = Config(username: string, displayName: string, redirectUris: Json)

  /** What the database and the password hash make up during one run. */
  datatype Generated = Generated(accountId: Id, passwordHash: string, roleId: Id)

  const ADMIN_ROLE := "admin"
  const ADMIN_PERMISSION := "admin:*"
  const ADMIN_CLIENT := "gosso-admin-spa"
  const GRANT_TYPES := Array([Text("authorization_code"), Text("refresh_token")])
  const SCOPES := Array([Text("openid"), Text("profile"), Text("email"), Text("admin")])
  const CAPABILITY := Object(map["capability" := Text("admin")])

  // ----- Queries -----

  // The id of the first account of that name.
  function FindAccount(rows: seq<Account>, username: string): (found: Option<Id>)
    ensures found == None <==> forall i :: 0 <= i < |rows| ==> rows[i].username != username
    ensures found.Some? ==>
              exists i :: 0 <= i < |rows| && rows[i].username == username && rows[i].id == found.value
                && forall j :: 0 <= j < i ==> rows[j].username != username
  {
    if rows == [] then None
    else if rows[0].username == username then Some(rows[0].id)
    else FindAccount(rows[1..], username)
  }

  function FindRole(rows: seq<Role>, name: string): (found: Option<Id>)
    ensures found == None <==> forall i :: 0 <= i < |rows| ==> rows[i].name != name
    ensures found.Some? ==>
              exists i :: 0 <= i < |rows| && rows[i].name == name && rows[i].id == found.value
                && forall j :: 0 <= j < i ==> rows[j].name != name
  {
    if rows == [] then None
    else if rows[0].name == name then Some(rows[0].id)
    else FindRole(rows[1..], name)
  }

  predicate HasClient(rows: seq<Client>, clientId: string) {
    exists i :: 0 <= i < |rows| && rows[i].clientId == clientId
  }

  function Coalesce(j: Option<Json>, default: Json): Json {
    if j.Some? then j.value else default
  }

  // ----- Updates -----

  function Enforced(r: Role): Role {
    var p := Coalesce(r.permissions, Array([]));
    if HasKey(p, ADMIN_PERMISSION) then r
    else r.(permissions := Some(Concat(p, Array([Text(ADMIN_PERMISSION)]))))
  }

  function EnforcePermissions(rows: seq<Role>, roleId: Id): (r: seq<Role>)
    ensures |r| == |rows|
    ensures forall i :: 0 <= i < |rows| ==> r[i] == if rows[i].id == roleId then Enforced(rows[i]) else rows[i]
  {
    seq(|rows|, i requires 0 <= i < |rows| => if rows[i].id == roleId then Enforced(rows[i]) else rows[i])
  }

  function Policed(c: Client, redirectUris: Json): Client {
    c.(redirectUris := redirectUris,
       grantTypes := GRANT_TYPES,
       scopes := SCOPES,
       metadata := Some(Concat(Coalesce(c.metadata, Object(map[])), CAPABILITY)))
  }

  function UpdateClients(rows: seq<Client>, redirectUris: Json): (r: seq<Client>)
    ensures |r| == |rows|
    ensures forall i :: 0 <= i < |rows| ==>
              r[i] == if rows[i].clientId == ADMIN_CLIENT then Policed(rows[i], redirectUris) else rows[i]
  {
    seq(|rows|, i requires 0 <= i < |rows| =>
      if rows[i].clientId == ADMIN_CLIENT then Policed(rows[i], redirectUris) else rows[i])
  }

  // ----- Rows inserted -----

  function NewAccount(cfg: Config, gen: Generated): Account {
    Account(gen.accountId, cfg.username, cfg.displayName, "active")
  }

  function NewCredential(cfg: Config, gen: Generated): Credential {
    Credential(gen.accountId, "password", cfg.username, gen.passwordHash, true, true)
  }

  function NewRole(gen: Generated): Role {
    Role(gen.roleId, ADMIN_ROLE, "System Administrator", Some(Array([Text(ADMIN_PERMISSION)])))
  }

  function NewClient(adminId: Id, cfg: Config): Client {
    Client(adminId, ADMIN_CLIENT, "GOSSO Admin Console", "OAuth2 Client for React GOSSO Admin Frontend",
           cfg.redirectUris, GRANT_TYPES, SCOPES, false, Some(CAPABILITY))
  }

  predicate AccountIdTaken(rows: seq<Account>, id: Id) {
    exists i :: 0 <= i < |rows| && rows[i].id == id
  }

  predicate RoleIdTaken(rows: seq<Role>, id: Id) {
    exists i :: 0 <= i < |rows| && rows[i].id == id
  }

  // ----- The transaction -----

  // The account part; no result if the new id collides with the primary key.
  function WithAccount(t: Tables, cfg: Config, gen: Generated): Option<(Tables, Id)> {
    match FindAccount(t.accounts, cfg.username)
    case Some(id) => Some((t, id))
    case None =>
      if AccountIdTaken(t.accounts, gen.accountId) then None
      else Some((t.(accounts := t.accounts + [NewAccount(cfg, gen)],
                    credentials := t.credentials + [NewCredential(cfg, gen)]), gen.accountId))
  }

  function WithRole(t: Tables, gen: Generated): Option<(Tables, Id)> {
    match FindRole(t.roles, ADMIN_ROLE)
    case Some(id) => Some((t, id))
    case None =>
      if RoleIdTaken(t.roles, gen.roleId) then None
      else Some((t.(roles := t.roles + [NewRole(gen)]), gen.roleId))
  }

  function WithLink(t: Tables, adminId: Id, roleId: Id): Tables {
    if AccountRole(adminId, roleId) in t.accountRoles then t
    else t.(accountRoles := t.accountRoles + [AccountRole(adminId, roleId)])
  }

  function WithClient(t: Tables, adminId: Id, cfg: Config): Tables {
    if HasClient(t.clients, ADMIN_CLIENT) then t.(clients := UpdateClients(t.clients, cfg.redirectUris))
    else t.(clients := t.clients + [NewClient(adminId, cfg)])
  }

  function Seed(t: Tables, cfg: Config, gen: Generated): Option<Tables> {
    match WithAccount(t, cfg, gen)
    case None => None
    case Some((t1, adminId)) =>
      match WithRole(t1, gen)
      case None => None
      case Some((t2, roleId)) =>
        var t3 := t2.(roles := EnforcePermissions(t2.roles, roleId));
        Some(WithClient(WithLink(t3, adminId, roleId), adminId, cfg))
  }

  // ----- Statement by statement -----

  datatype Statement = SeedAccount | SeedCredential | SeedRole | Enforce | LinkRole | SeedClient | Finished

  /** A transaction under way: the next statement, its private view, and the ids read so far. */
  datatype Work = Work(next: Statement, view: Tables, adminId: Id, roleId: Id)

  function Start(t: Tables): Work {
    Work(SeedAccount, t, "", "")
  }

  // One statement; no result if the database rejects it.
  function Exec(w: Work, cfg: Config, gen: Generated): Option<Work>
    requires w.next != Finished
  {
    var t := w.view;
    match w.next
    case SeedAccount =>
      (match FindAccount(t.accounts, cfg.username)
       case Some(id) => Some(w.(next := SeedRole, adminId := id))
       case None =>
         if AccountIdTaken(t.accounts, gen.accountId) then None
         else Some(Work(SeedCredential, t.(accounts := t.accounts + [NewAccount(cfg, gen)]), gen.accountId, w.roleId)))
    case SeedCredential =>
      Some(w.(next := SeedRole, view := t.(credentials := t.credentials + [NewCredential(cfg, gen)])))
    case SeedRole =>
      (match WithRole(t, gen)
       case None => None
       case Some((t', id)) => Some(w.(next := Enforce, view := t', roleId := id)))
    case Enforce =>
      Some(w.(next := LinkRole, view := t.(roles := EnforcePermissions(t.roles, w.roleId))))
    case LinkRole =>
      Some(w.(next := SeedClient, view := WithLink(t, w.adminId, w.roleId)))
    case SeedClient =>
      Some(w.(next := Finished, view := WithClient(t, w.adminId, cfg)))
  }

  function StatementsLeft(s: Statement): nat {
    match s
    case SeedAccount => 6 case SeedCredential => 5 case SeedRole => 4 case Enforce => 3
    case LinkRole => 2 case SeedClient => 1 case Finished => 0
  }

  // The outcome of the statements still to come.
  function Finish(w: Work, cfg: Config, gen: Generated): Option<Tables>
    decreases StatementsLeft(w.next)
  {
    if w.next == Finished then Some(w.view)
    else
      match Exec(w, cfg, gen)
      case None => None
      case Some(w') => Finish(w', cfg, gen)
  }

  /** Running the statements one by one computes the transaction. */
  lemma StatementsComputeSeed(t: Tables, cfg: Config, gen: Generated)
    ensures Finish(Start(t), cfg, gen) == Seed(t, cfg, gen)
  {
    var w0 := Start(t);
    match FindAccount(t.accounts, cfg.username) {
      case Some(id) =>
        FinishFromRole(t, id, "", cfg, gen);
      case None =>
        if !AccountIdTaken(t.accounts, gen.accountId) {
          var w1 := Exec(w0, cfg, gen).value;
          var w2 := Exec(w1, cfg, gen).value;
          assert Finish(w1, cfg, gen) == Finish(w2, cfg, gen);
          FinishFromRole(w2.view, gen.accountId, "", cfg, gen);
        }
    }
  }

  lemma FinishFromRole(t: Tables, adminId: Id, roleId: Id, cfg: Config, gen: Generated)
    ensures Finish(Work(SeedRole, t, adminId, roleId), cfg, gen)
            == match WithRole(t, gen)
               case None => None
               case Some((t2, id)) =>
                 Some(WithClient(WithLink(t2.(roles := EnforcePermissions(t2.roles, id)), adminId, id), adminId, cfg))
  {
    hide WithClient, WithLink, EnforcePermissions;
    match WithRole(t, gen)
    case None =>
    case Some((t2, id)) =>
      FinishFromEnforce(t2, adminId, id, cfg, gen);
      hide Exec;
      RoleStep(t, adminId, roleId, cfg, gen);
  }

  lemma RoleStep(t: Tables, adminId: Id, roleId: Id, cfg: Config, gen: Generated)
    requires WithRole(t, gen).Some?
    ensures var (t2, id) := WithRole(t, gen).value;
            Finish(Work(SeedRole, t, adminId, roleId), cfg, gen) == Finish(Work(Enforce, t2, adminId, id), cfg, gen)
  {
    hide FindRole, RoleIdTaken;
  }

  lemma FinishFromEnforce(t: Tables, adminId: Id, id: Id, cfg: Config, gen: Generated)
    ensures Finish(Work(Enforce, t, adminId, id), cfg, gen)
            == Some(WithClient(WithLink(t.(roles := EnforcePermissions(t.roles, id)), adminId, id), adminId, cfg))
  {
    hide WithClient, WithLink, EnforcePermissions, WithRole, WithAccount;
    var w1 := Work(Enforce, t, adminId, id);
    var w2 := Exec(w1, cfg, gen).value;
    var w3 := Exec(w2, cfg, gen).value;
    var w4 := Exec(w3, cfg, gen).value;
    assert Finish(w3, cfg, gen) == Finish(w4, cfg, gen) == Some(w4.view);
    assert Finish(w1, cfg, gen) == Finish(w2, cfg, gen) == Finish(w3, cfg, gen);
  }
}
