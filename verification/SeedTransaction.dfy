/**
 The transaction of `main` in seed/main.go as it runs: five tables updated in place, one
 statement after the other, and a commit that is all or nothing.
 */
module SeedTransaction {
  import opened Common
  import opened Jsonb
  import opened SeedTables

  class Database {
    var accounts: seq<Account>
    var credentials: seq<Credential>
    var roles: seq<Role>
    var accountRoles: seq<AccountRole>
    var clients: seq<Client>

    function Contents(): Tables
      reads this
    {
      Tables(accounts, credentials, roles, accountRoles, clients)
    }

    constructor (t: Tables)
      ensures Contents() == t
    {
      accounts, credentials, roles, accountRoles, clients :=
        t.accounts, t.credentials, t.roles, t.accountRoles, t.clients;
    }

    method Store(t: Tables)
      modifies this
      ensures Contents() == t
    {
      accounts, credentials, roles, accountRoles, clients :=
        t.accounts, t.credentials, t.roles, t.accountRoles, t.clients;
    }

    // The account, with its credential if it is new; nothing when a statement fails.
    method SeedAdminUser(cfg: Config, gen: Generated, broken: set<Statement>) returns (adminId: Option<Id>)
      modifies this
      ensures adminId.Some? ==> WithAccount(old(Contents()), cfg, gen) == Some((Contents(), adminId.value))
      ensures adminId.Some? <==> && WithAccount(old(Contents()), cfg, gen).Some?
                                 && SeedAccount !in broken && (SeedCredential in broken ==> !Runs(old(Contents()), cfg, SeedCredential))
    {
      hide AccountIdTaken;
      if SeedAccount in broken { return None; }
      var found := FindAccount(accounts, cfg.username);
      if found == None {
        if AccountIdTaken(accounts, gen.accountId) { return None; }
        accounts := accounts + [NewAccount(cfg, gen)];
        adminId := Some(gen.accountId);
        if SeedCredential in broken { return None; }
        credentials := credentials + [NewCredential(cfg, gen)];
      } else {
        adminId := found;
      }
    }

    method SeedAdminRole(gen: Generated, broken: set<Statement>) returns (roleId: Option<Id>)
      modifies this
      ensures roleId.Some? ==> WithRole(old(Contents()), gen) == Some((Contents(), roleId.value))
      ensures roleId.Some? <==> WithRole(old(Contents()), gen).Some? && SeedRole !in broken
    {
      hide RoleIdTaken, FindRole;
      if SeedRole in broken { return None; }
      roleId := FindRole(roles, ADMIN_ROLE);
      if roleId == None {
        if RoleIdTaken(roles, gen.roleId) { return None; }
        roles := roles + [NewRole(gen)];
        roleId := Some(gen.roleId);
      }
    }

    // All statements on the transaction's own view; false when a statement fails.
    method RunStatements(cfg: Config, gen: Generated, broken: set<Statement>) returns (ok: bool)
      modifies this
      ensures ok ==> Seed(old(Contents()), cfg, gen) == Some(Contents())
      ensures ok <==> Seed(old(Contents()), cfg, gen).Some? && forall s :: s in broken && s != Finished ==> !Runs(old(Contents()), cfg, s)
    {
      hide EnforcePermissions, UpdateClients, HasClient, WithAccount, WithRole, FindAccount;
      var adminId := SeedAdminUser(cfg, gen, broken);
      if adminId == None { return false; }
      var roleId := SeedAdminRole(gen, broken);
      if roleId == None || Enforce in broken { return false; }
      roles := EnforcePermissions(roles, roleId.value);
      if LinkRole in broken { return false; }
      if AccountRole(adminId.value, roleId.value) !in accountRoles {
        accountRoles := accountRoles + [AccountRole(adminId.value, roleId.value)];
      }
      if SeedClient in broken { return false; }
      if !HasClient(clients, ADMIN_CLIENT) {
        clients := clients + [NewClient(adminId.value, cfg)];
      } else {
        clients := UpdateClients(clients, cfg.redirectUris);
      }
      ok := true;
    }

    /** One seeder run: the committed tables are those of the transaction, or nothing changed. */
    method RunSeed(cfg: Config, gen: Generated, broken: set<Statement>) returns (committed: bool)
      modifies this
      ensures committed ==> Seed(old(Contents()), cfg, gen) == Some(Contents())
      ensures !committed ==> Contents() == old(Contents())
      ensures committed <==> Seed(old(Contents()), cfg, gen).Some? && forall s :: s in broken ==> !Runs(old(Contents()), cfg, s)
    {
      hide Seed;
      var transaction := new Database(Contents());
      var ok := transaction.RunStatements(cfg, gen, broken);
      if !ok || Finished in broken {
        return false;
      }
      Store(transaction.Contents());
      committed := true;
    }
  }

  /** Whether a run on these tables gets to a statement, the commit included: only the credential can be skipped. */
  predicate Runs(t: Tables, cfg: Config, s: Statement) {
    s == SeedCredential ==> FindAccount(t.accounts, cfg.username) == None
  }
}
