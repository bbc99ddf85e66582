/** What one seed transaction, and any sequence of them, keeps and establishes. */
module SeedGuarantees {
  import opened Common
  import opened Jsonb
  import opened SeedTables

  /** No two accounts share an id or a name, no two roles an id or a name, no two clients a client id. */
  ghost predicate Unique(t: Tables) {
    && (forall i, j :: 0 <= i < j < |t.accounts| ==>
          t.accounts[i].id != t.accounts[j].id && t.accounts[i].username != t.accounts[j].username)
    && (forall i, j :: 0 <= i < j < |t.roles| ==>
          t.roles[i].id != t.roles[j].id && t.roles[i].name != t.roles[j].name)
    && (forall i, j :: 0 <= i < j < |t.clients| ==> t.clients[i].clientId != t.clients[j].clientId)
  }

  function Permissions(r: Role): Json {
    Coalesce(r.permissions, Array([]))
  }

  function Metadata(c: Client): Json {
    Coalesce(c.metadata, Object(map[]))
  }

  /** How a role may change: only the admin role, only its permissions, and it keeps them unless they are an object. */
  ghost predicate RoleKept(r: Role, r': Role) {
    && r' == r.(permissions := r'.permissions)
    && (r.name != ADMIN_ROLE || HasKey(Permissions(r), ADMIN_PERMISSION) ==> r' == r)
    && (!Permissions(r).Object? ==> !Permissions(r').Object? && KeysKept(Permissions(r), Permissions(r')))
  }

  ghost predicate FieldsKept(before: Json, after: Json) {
    before.Object? ==>
      && after.Object?
      && forall k :: k in before.fields && k != "capability" ==> k in after.fields && after.fields[k] == before.fields[k]
  }

  /** How a client may change: only the admin client, and it keeps its owner, names, secrecy and metadata. */
  ghost predicate ClientKept(c: Client, c': Client) {
    && c' == c.(redirectUris := c'.redirectUris, grantTypes := c'.grantTypes, scopes := c'.scopes, metadata := c'.metadata)
    && (c.clientId != ADMIN_CLIENT ==> c' == c)
    && KeysKept(Metadata(c), Metadata(c'))
    && FieldsKept(Metadata(c), Metadata(c'))
  }

  /** Nothing is deleted, credentials and links are only added, and every row is kept. */
  ghost predicate Grows(t: Tables, t': Tables) {
    && t.accounts <= t'.accounts
    && t.credentials <= t'.credentials
    && t.accountRoles <= t'.accountRoles
    && |t.roles| <= |t'.roles|
    && (forall i :: 0 <= i < |t.roles| ==> RoleKept(t.roles[i], t'.roles[i]))
    && |t.clients| <= |t'.clients|
    && (forall i :: 0 <= i < |t.clients| ==> ClientKept(t.clients[i], t'.clients[i]))
  }

  lemma GrowsTransitively(t: Tables, t': Tables, t'': Tables)
    requires Grows(t, t') && Grows(t', t'')
    ensures Grows(t, t'')
  {
    forall i | 0 <= i < |t.roles| ensures RoleKept(t.roles[i], t''.roles[i]) {
      assert RoleKept(t'.roles[i], t''.roles[i]);
    }
    forall i | 0 <= i < |t.clients| ensures ClientKept(t.clients[i], t''.clients[i]) {
      assert ClientKept(t'.clients[i], t''.clients[i]);
    }
  }

  /** The account is there and holds the admin role with its permission. */
  ghost predicate Administers(t: Tables, username: string) {
    exists i, j :: 0 <= i < |t.accounts| && 0 <= j < |t.roles|
      && t.accounts[i].username == username
      && t.roles[j].name == ADMIN_ROLE
      && HasKey(Permissions(t.roles[j]), ADMIN_PERMISSION)
      && AccountRole(t.accounts[i].id, t.roles[j].id) in t.accountRoles
  }

  /** The admin client is there under the seeded policy. */
  ghost predicate ClientPoliced(t: Tables, redirectUris: Json) {
    && HasClient(t.clients, ADMIN_CLIENT)
    && forall i :: 0 <= i < |t.clients| && t.clients[i].clientId == ADMIN_CLIENT ==>
         && t.clients[i].redirectUris == redirectUris
         && t.clients[i].grantTypes == GRANT_TYPES
         && t.clients[i].scopes == SCOPES
         && Capable(Metadata(t.clients[i]))
  }

  // The capability is in the metadata: a field of an object, an element of anything else.
  predicate Capable(metadata: Json) {
    match metadata
    case Object(fields) => "capability" in fields && fields["capability"] == Text("admin")
    case Array(items) => CAPABILITY in items
    case _ => false
  }

  lemma AdministersStays(t: Tables, t': Tables, username: string)
    requires Grows(t, t') && Administers(t, username)
    ensures Administers(t', username)
  {
    var i, j :| 0 <= i < |t.accounts| && 0 <= j < |t.roles|
      && t.accounts[i].username == username
      && t.roles[j].name == ADMIN_ROLE
      && HasKey(Permissions(t.roles[j]), ADMIN_PERMISSION)
      && AccountRole(t.accounts[i].id, t.roles[j].id) in t.accountRoles;
    assert t'.accounts[i] == t.accounts[i];
    assert t'.roles[j] == t.roles[j] by { assert RoleKept(t.roles[j], t'.roles[j]); }
  }

  lemma EnforcedKeeps(r: Role)
    requires r.name == ADMIN_ROLE
    ensures RoleKept(r, Enforced(r)) && HasKey(Permissions(Enforced(r)), ADMIN_PERMISSION)
  {
    var p := Permissions(r);
    if !HasKey(p, ADMIN_PERMISSION) {
      var q := Concat(p, Array([Text(ADMIN_PERMISSION)]));
      assert q.items[|q.items| - 1] == Text(ADMIN_PERMISSION);
      forall key | HasKey(p, key) && !p.Object? ensures HasKey(q, key) {
        assert forall x :: x in AsArray(p) ==> x in q.items;
      }
    }
  }

  lemma PolicedKeeps(c: Client, redirectUris: Json)
    requires c.clientId == ADMIN_CLIENT
    ensures ClientKept(c, Policed(c, redirectUris)) && Capable(Metadata(Policed(c, redirectUris)))
  {
    var m := Metadata(c);
    var q := Concat(m, CAPABILITY);
    if !m.Object? {
      assert q.items[|q.items| - 1] == CAPABILITY;
      forall key | HasKey(m, key) ensures HasKey(q, key) {
        assert forall x :: x in AsArray(m) ==> x in q.items;
      }
    }
  }

  // ----- One transaction, part by part -----

  lemma AccountPart(t: Tables, cfg: Config, gen: Generated)
    requires Unique(t) && WithAccount(t, cfg, gen).Some?
    ensures var (t', id) := WithAccount(t, cfg, gen).value;
            && Unique(t') && Grows(t, t') && t'.roles == t.roles && t'.clients == t.clients
            && exists i :: 0 <= i < |t'.accounts| && t'.accounts[i].username == cfg.username && t'.accounts[i].id == id
  {
    var (t', id) := WithAccount(t, cfg, gen).value;
    if FindAccount(t.accounts, cfg.username) == None {
      var n := |t.accounts|;
      assert t'.accounts[n] == NewAccount(cfg, gen);
    }
  }

  lemma RolePart(t: Tables, gen: Generated)
    requires Unique(t) && WithRole(t, gen).Some?
    ensures var (t', id) := WithRole(t, gen).value;
            && Unique(t') && Grows(t, t') && t' == t.(roles := t'.roles)
            && exists j :: 0 <= j < |t'.roles| && t'.roles[j].name == ADMIN_ROLE && t'.roles[j].id == id
  {
    var (t', id) := WithRole(t, gen).value;
    if FindRole(t.roles, ADMIN_ROLE) == None {
      assert t'.roles[|t.roles|] == NewRole(gen);
    }
    EveryRowKept(t);
  }

  lemma EnforcePart(t: Tables, id: Id, j: nat)
    requires Unique(t) && j < |t.roles| && t.roles[j].name == ADMIN_ROLE && t.roles[j].id == id
    ensures var t' := t.(roles := EnforcePermissions(t.roles, id));
            && Unique(t') && Grows(t, t')
            && t'.roles[j].name == ADMIN_ROLE && t'.roles[j].id == id
            && HasKey(Permissions(t'.roles[j]), ADMIN_PERMISSION)
  {
    hide HasKey, Permissions, KeysKept;
    var t' := t.(roles := EnforcePermissions(t.roles, id));
    EnforcedKeeps(t.roles[j]);
    EveryRowKept(t);
    hide Enforced, RoleKept, ClientKept;
    forall i | 0 <= i < |t.roles| && i != j ensures t'.roles[i] == t.roles[i] {
      assert t.roles[i].id != id;
    }
    assert t'.roles[j] == Enforced(t.roles[j]);
  }

  lemma EveryRowKept(t: Tables)
    ensures forall i :: 0 <= i < |t.roles| ==> RoleKept(t.roles[i], t.roles[i])
    ensures forall i :: 0 <= i < |t.clients| ==> ClientKept(t.clients[i], t.clients[i])
  {}

  lemma ClientPart(t: Tables, adminId: Id, cfg: Config)
    requires Unique(t)
    ensures var t' := WithClient(t, adminId, cfg);
            && Unique(t') && Grows(t, t')
            && t' == t.(clients := t'.clients)
            && ClientPoliced(t', cfg.redirectUris)
            && (HasClient(t.clients, ADMIN_CLIENT) ==> |t'.clients| == |t.clients|)
  {
    if HasClient(t.clients, ADMIN_CLIENT) {
      UpdatePart(t, cfg.redirectUris);
    } else {
      InsertPart(t, NewClient(adminId, cfg), cfg);
    }
  }

  lemma UpdatePart(t: Tables, redirectUris: Json)
    requires Unique(t) && HasClient(t.clients, ADMIN_CLIENT)
    ensures var t' := t.(clients := UpdateClients(t.clients, redirectUris));
            Unique(t') && Grows(t, t') && ClientPoliced(t', redirectUris)
  {
    hide KeysKept, FieldsKept, Capable, Policed, Unique, RoleKept, ClientKept, HasKey;
    var t' := t.(clients := UpdateClients(t.clients, redirectUris));
    EveryRowKept(t);
    UpdatesAreKept(t.clients, redirectUris);
    SameClientIds(t, t');
  }

  lemma UpdatesAreKept(rows: seq<Client>, redirectUris: Json)
    requires HasClient(rows, ADMIN_CLIENT)
    ensures var after := UpdateClients(rows, redirectUris);
            && (forall i :: 0 <= i < |rows| ==> ClientKept(rows[i], after[i]) && after[i].clientId == rows[i].clientId)
            && ClientPoliced(Tables([], [], [], [], after), redirectUris)
  {
    hide KeysKept, FieldsKept, Capable, HasKey, ClientKept, Metadata;
    var after := UpdateClients(rows, redirectUris);
    forall i | 0 <= i < |rows|
      ensures ClientKept(rows[i], after[i]) && after[i].clientId == rows[i].clientId
      ensures after[i].clientId == ADMIN_CLIENT ==> after[i] == Policed(rows[i], redirectUris) && Capable(Metadata(after[i]))
    {
      if rows[i].clientId == ADMIN_CLIENT {
        PolicedKeeps(rows[i], redirectUris);
      } else {
        RowKept(rows[i]);
      }
    }
    var i :| 0 <= i < |rows| && rows[i].clientId == ADMIN_CLIENT;
    assert after[i].clientId == ADMIN_CLIENT;
  }

  lemma RowKept(c: Client)
    ensures ClientKept(c, c)
  {}

  lemma SameClientIds(t: Tables, t': Tables)
    requires Unique(t) && t' == t.(clients := t'.clients) && |t'.clients| == |t.clients|
    requires forall i :: 0 <= i < |t.clients| ==> t'.clients[i].clientId == t.clients[i].clientId
    ensures Unique(t')
  {}

  lemma InsertPart(t: Tables, c: Client, cfg: Config)
    requires Unique(t) && !HasClient(t.clients, ADMIN_CLIENT) && c == NewClient(c.accountId, cfg)
    ensures var t' := t.(clients := t.clients + [c]);
            Unique(t') && Grows(t, t') && ClientPoliced(t', cfg.redirectUris)
  {
    hide KeysKept, FieldsKept, RoleKept, ClientKept, Capable, HasKey;
    EveryRowKept(t);
    NewClientIsPoliced(c.accountId, cfg);
    assert (t.clients + [c])[|t.clients|] == c;
  }

  lemma NewClientIsPoliced(adminId: Id, cfg: Config)
    ensures Capable(Metadata(NewClient(adminId, cfg)))
  {}

  lemma LinkPart(t: Tables, adminId: Id, roleId: Id)
    requires Unique(t)
    ensures var t' := WithLink(t, adminId, roleId);
            && Unique(t') && Grows(t, t') && t' == t.(accountRoles := t'.accountRoles)
            && AccountRole(adminId, roleId) in t'.accountRoles
  {
    var t' := WithLink(t, adminId, roleId);
    assert AccountRole(adminId, roleId) !in t.accountRoles ==> t'.accountRoles[|t.accountRoles|] == AccountRole(adminId, roleId);
    EveryRowKept(t);
  }

  /** One committed seed keeps the tables unique, loses nothing, and leaves its account in charge of a policed client. */
  lemma SeedEstablishes(t: Tables, cfg: Config, gen: Generated)
    requires Unique(t) && Seed(t, cfg, gen).Some?
    ensures var t' := Seed(t, cfg, gen).value;
            && Unique(t') && Grows(t, t')
            && Administers(t', cfg.username)
            && ClientPoliced(t', cfg.redirectUris)
  {
    hide Unique, Grows, WithAccount, WithRole, EnforcePermissions, WithLink, WithClient, ClientPoliced, Permissions, HasKey;
    var (t1, adminId) := WithAccount(t, cfg, gen).value;
    AccountPart(t, cfg, gen);
    var (t2, roleId) := WithRole(t1, gen).value;
    RolePart(t1, gen);
    var j :| 0 <= j < |t2.roles| && t2.roles[j].name == ADMIN_ROLE && t2.roles[j].id == roleId;
    var t3 := t2.(roles := EnforcePermissions(t2.roles, roleId));
    EnforcePart(t2, roleId, j);
    var t4 := WithLink(t3, adminId, roleId);
    LinkPart(t3, adminId, roleId);
    var t5 := WithClient(t4, adminId, cfg);
    ClientPart(t4, adminId, cfg);
    GrowsTransitively(t, t1, t2);
    GrowsTransitively(t, t2, t3);
    GrowsTransitively(t, t3, t4);
    GrowsTransitively(t, t4, t5);
    var i :| 0 <= i < |t1.accounts| && t1.accounts[i].username == cfg.username && t1.accounts[i].id == adminId;
    assert t5.accounts[i] == t1.accounts[i] && t5.roles[j] == t3.roles[j];
  }

  // ----- Seeding twice -----

  lemma UniqueIsFound(t: Tables, i: nat, j: nat)
    requires Unique(t) && i < |t.accounts| && j < |t.roles|
    ensures FindAccount(t.accounts, t.accounts[i].username) == Some(t.accounts[i].id)
    ensures FindRole(t.roles, t.roles[j].name) == Some(t.roles[j].id)
  {}

  lemma EnforcedStays(t: Tables, j: nat)
    requires Unique(t) && j < |t.roles| && HasKey(Permissions(t.roles[j]), ADMIN_PERMISSION)
    ensures EnforcePermissions(t.roles, t.roles[j].id) == t.roles
  {
    hide HasKey;
  }

  /** On tables that already hold what a seed establishes, only the client policy is written again. */
  lemma SeedAgain(t: Tables, cfg: Config, gen: Generated)
    requires Unique(t) && Administers(t, cfg.username) && HasClient(t.clients, ADMIN_CLIENT)
    ensures Seed(t, cfg, gen) == Some(t.(clients := UpdateClients(t.clients, cfg.redirectUris)))
  {
    hide HasKey, UpdateClients, HasClient, Unique, FindAccount, FindRole, EnforcePermissions, Permissions;
    var i, j :| 0 <= i < |t.accounts| && 0 <= j < |t.roles|
      && t.accounts[i].username == cfg.username
      && t.roles[j].name == ADMIN_ROLE
      && HasKey(Permissions(t.roles[j]), ADMIN_PERMISSION)
      && AccountRole(t.accounts[i].id, t.roles[j].id) in t.accountRoles;
    UniqueIsFound(t, i, j);
    EnforcedStays(t, j);
  }

  lemma SeedClients(t: Tables, cfg: Config, gen: Generated)
    requires Seed(t, cfg, gen).Some?
    ensures var after := Seed(t, cfg, gen).value.clients;
            if HasClient(t.clients, ADMIN_CLIENT) then after == UpdateClients(t.clients, cfg.redirectUris)
            else exists id :: after == t.clients + [NewClient(id, cfg)]
  {
    hide UpdateClients, HasClient, EnforcePermissions, FindAccount, FindRole, AccountIdTaken, RoleIdTaken, NewClient;
  }

  lemma StableIffObject(m: Json)
    requires Capable(m)
    ensures Concat(m, CAPABILITY) == m <==> m.Object?
  {
    if m.Object? {
      assert m.fields + CAPABILITY.fields == m.fields;
    } else {
      assert |Concat(m, CAPABILITY).items| == |m.items| + 1;
    }
  }

  // The admin clients are under the policy already.
  ghost predicate Settled(rows: seq<Client>, redirectUris: Json) {
    forall i :: 0 <= i < |rows| && rows[i].clientId == ADMIN_CLIENT ==>
      && rows[i].redirectUris == redirectUris && rows[i].grantTypes == GRANT_TYPES && rows[i].scopes == SCOPES
      && rows[i].metadata.Some? && Capable(rows[i].metadata.value)
  }

  /** Every admin client's metadata is an object, or missing. */
  ghost predicate ObjectMetadata(rows: seq<Client>) {
    forall i :: 0 <= i < |rows| && rows[i].clientId == ADMIN_CLIENT ==> Metadata(rows[i]).Object?
  }

  lemma UpdateStableIff(rows: seq<Client>, redirectUris: Json)
    requires Settled(rows, redirectUris)
    ensures UpdateClients(rows, redirectUris) == rows <==> ObjectMetadata(rows)
  {
    hide Capable, Concat;
    forall i | 0 <= i < |rows| && rows[i].clientId == ADMIN_CLIENT
      ensures Policed(rows[i], redirectUris) == rows[i] <==> Metadata(rows[i]).Object?
    {
      StableIffObject(rows[i].metadata.value);
    }
    var after := UpdateClients(rows, redirectUris);
    assert after == rows <==> forall i :: 0 <= i < |rows| ==> after[i] == rows[i];
  }

  lemma PolicedShape(c: Client, redirectUris: Json)
    ensures Policed(c, redirectUris).metadata.Some?
    ensures Capable(Policed(c, redirectUris).metadata.value)
    ensures Metadata(Policed(c, redirectUris)).Object? <==> Metadata(c).Object?
  {
    PolicedKeeps(c.(clientId := ADMIN_CLIENT), redirectUris);
  }

  lemma UpdateSettles(rows: seq<Client>, redirectUris: Json)
    ensures Settled(UpdateClients(rows, redirectUris), redirectUris)
    ensures ObjectMetadata(UpdateClients(rows, redirectUris)) <==> ObjectMetadata(rows)
  {
    hide Capable, Metadata, Concat;
    var after := UpdateClients(rows, redirectUris);
    forall i | 0 <= i < |rows| && rows[i].clientId == ADMIN_CLIENT
      ensures after[i].metadata.Some? && Capable(after[i].metadata.value)
      ensures Metadata(after[i]).Object? <==> Metadata(rows[i]).Object?
    {
      PolicedShape(rows[i], redirectUris);
    }
    forall i | 0 <= i < |rows| ensures after[i].clientId == rows[i].clientId {}
  }

  lemma SeedSettles(t: Tables, cfg: Config, gen: Generated)
    requires Seed(t, cfg, gen).Some?
    ensures Settled(Seed(t, cfg, gen).value.clients, cfg.redirectUris)
    ensures ObjectMetadata(Seed(t, cfg, gen).value.clients) <==> ObjectMetadata(t.clients)
  {
    hide Seed, UpdateClients;
    var after := Seed(t, cfg, gen).value.clients;
    SeedClients(t, cfg, gen);
    if HasClient(t.clients, ADMIN_CLIENT) {
      UpdateSettles(t.clients, cfg.redirectUris);
    } else {
      var id :| after == t.clients + [NewClient(id, cfg)];
      NewClientIsPoliced(id, cfg);
    }
  }

  /**
   A second run of the same configuration succeeds whatever it generates, and changes nothing exactly
   when no admin client had metadata other than an object: to any other metadata the capability is
   appended again and again.
   */
  lemma SeedTwice(t: Tables, cfg: Config, gen: Generated, again: Generated)
    requires Unique(t) && Seed(t, cfg, gen).Some?
    ensures Seed(Seed(t, cfg, gen).value, cfg, again).Some?
    ensures Seed(Seed(t, cfg, gen).value, cfg, again) == Seed(t, cfg, gen) <==> ObjectMetadata(t.clients)
  {
    SeedEstablishes(t, cfg, gen);
    SeedSettles(t, cfg, gen);
    hide Seed, Unique, Administers, UpdateClients, ObjectMetadata, Settled;
    var once := Seed(t, cfg, gen).value;
    SeedAgain(once, cfg, again);
    UpdateStableIff(once.clients, cfg.redirectUris);
  }

  /** Enforcing the admin permission loses keys exactly when the permissions were a non-empty object without it. */
  lemma PermissionsLostIff(r: Role)
    ensures var p := Permissions(r);
            !KeysKept(p, Permissions(Enforced(r))) <==> p.Object? && p.fields.Keys != {} && ADMIN_PERMISSION !in p.fields
  {
    var p := Permissions(r);
    if p.Object? && ADMIN_PERMISSION !in p.fields {
      var q := Permissions(Enforced(r));
      assert q == Array([p, Text(ADMIN_PERMISSION)]);
      if p.fields.Keys != {} {
        var key :| key in p.fields.Keys;
        assert HasKey(p, key) && !HasKey(q, key);
      }
    } else {
      EnforcedKeeps(r.(name := ADMIN_ROLE));
      assert p.Object? ==> Enforced(r) == r;
    }
  }

  // ----- Any sequence of transactions -----

  datatype Run = Run(cfg: Config, gen: Generated)

  /** The sequential seeder, run after run. */
  function SeedAll(t: Tables, runs: seq<Run>): Option<Tables> {
    if runs == [] then Some(t)
    else
      match SeedAll(t, runs[..|runs| - 1])
      case None => None
      case Some(before) => Seed(before, runs[|runs| - 1].cfg, runs[|runs| - 1].gen)
  }

  lemma {:induction false} SeedAllEstablishes(t: Tables, runs: seq<Run>)
    requires Unique(t) && SeedAll(t, runs).Some?
    ensures var t' := SeedAll(t, runs).value;
            && Unique(t') && Grows(t, t')
            && (forall i :: 0 <= i < |runs| ==> Administers(t', runs[i].cfg.username))
            && (runs != [] ==> ClientPoliced(t', runs[|runs| - 1].cfg.redirectUris))
  {
    hide Unique, Seed, Administers, ClientPoliced;
    if runs == [] {
      EveryRowKept(t);
    } else {
      hide Grows;
      var init, last := runs[..|runs| - 1], runs[|runs| - 1];
      SeedAllEstablishes(t, init);
      var before, after := SeedAll(t, init).value, SeedAll(t, runs).value;
      SeedEstablishes(before, last.cfg, last.gen);
      GrowsTransitively(t, before, after);
      forall i | 0 <= i < |runs| ensures Administers(after, runs[i].cfg.username) {
        if i < |init| {
          assert init[i] == runs[i];
          AdministersStays(before, after, runs[i].cfg.username);
        }
      }
    }
  }

  /** The admin client belongs to the account of that name. */
  ghost predicate OwnedBy(t: Tables, username: string) {
    exists i :: 0 <= i < |t.accounts| && t.accounts[i].username == username
      && forall c :: 0 <= c < |t.clients| && t.clients[c].clientId == ADMIN_CLIENT ==> t.clients[c].accountId == t.accounts[i].id
  }

  lemma FirstSeedOwns(t: Tables, cfg: Config, gen: Generated)
    requires Unique(t) && Seed(t, cfg, gen).Some? && !HasClient(t.clients, ADMIN_CLIENT)
    ensures OwnedBy(Seed(t, cfg, gen).value, cfg.username)
  {
    hide EnforcePermissions, WithAccount, WithRole, HasClient, Unique, Grows;
    var (t1, adminId) := WithAccount(t, cfg, gen).value;
    AccountPart(t, cfg, gen);
    RoleTouchesRoles(t1, gen);
    var t' := Seed(t, cfg, gen).value;
    InsertedIsOwned(t, t1, t', adminId, cfg);
  }

  lemma RoleTouchesRoles(t: Tables, gen: Generated)
    ensures WithRole(t, gen).Some? ==> WithRole(t, gen).value.0 == t.(roles := WithRole(t, gen).value.0.roles)
  {
    hide FindRole;
  }

  lemma InsertedIsOwned(t: Tables, t1: Tables, t': Tables, adminId: Id, cfg: Config)
    requires !HasClient(t.clients, ADMIN_CLIENT)
    requires t'.accounts == t1.accounts && t'.clients == t.clients + [NewClient(adminId, cfg)]
    requires exists i :: 0 <= i < |t1.accounts| && t1.accounts[i].username == cfg.username && t1.accounts[i].id == adminId
    ensures OwnedBy(t', cfg.username)
  {
    var i :| 0 <= i < |t1.accounts| && t1.accounts[i].username == cfg.username && t1.accounts[i].id == adminId;
    assert t'.clients[|t.clients|] == NewClient(adminId, cfg);
  }

  lemma OwnerStays(t: Tables, t': Tables, username: string)
    requires Grows(t, t') && |t'.clients| == |t.clients| && OwnedBy(t, username)
    ensures OwnedBy(t', username)
  {
    var i :| 0 <= i < |t.accounts| && t.accounts[i].username == username
      && forall c :: 0 <= c < |t.clients| && t.clients[c].clientId == ADMIN_CLIENT ==> t.clients[c].accountId == t.accounts[i].id;
    assert t'.accounts[i] == t.accounts[i];
    forall c | 0 <= c < |t'.clients| && t'.clients[c].clientId == ADMIN_CLIENT
      ensures t'.clients[c].accountId == t.accounts[i].id
    {
      assert ClientKept(t.clients[c], t'.clients[c]);
    }
  }

  /** Where there was no admin client, it stays with the account of the first run. */
  lemma {:induction false} OwnerIsFirstCreator(t: Tables, runs: seq<Run>)
    requires Unique(t) && !HasClient(t.clients, ADMIN_CLIENT)
    requires runs != [] && SeedAll(t, runs).Some?
    ensures OwnedBy(SeedAll(t, runs).value, runs[0].cfg.username)
  {
    hide Unique, Seed, OwnedBy, UpdateClients;
    var init, last := runs[..|runs| - 1], runs[|runs| - 1];
    if init == [] {
      assert SeedAll(t, init) == Some(t);
      FirstSeedOwns(t, last.cfg, last.gen);
    } else {
      OwnerIsFirstCreator(t, init);
      SeedAllEstablishes(t, init);
      var before := SeedAll(t, init).value;
      SeedEstablishes(before, last.cfg, last.gen);
      SeedClients(before, last.cfg, last.gen);
      OwnerStays(before, SeedAll(t, runs).value, runs[0].cfg.username);
    }
  }
}
