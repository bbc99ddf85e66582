/** collectRolesFromAccounts of roles.ts: the roles of an account page, each once. */
module Roles {
  import opened Common

  datatype Role = Role(id: string, name: string, description: Option<string>)

  datatype Account = Account(id: string, username: string, roles: Option<seq<Role>>)

  function RolesOf(a: Account): seq<Role> {
    if a.roles.Some? then a.roles.value else []
  }

  function AllRoles(accounts: seq<Account>): seq<Role> {
    if accounts == [] then [] else AllRoles(accounts[..|accounts| - 1]) + RolesOf(accounts[|accounts| - 1])
  }

  function Ids(roles: seq<Role>): (ids: seq<string>)
    ensures |ids| == |roles| && forall i :: 0 <= i < |roles| ==> ids[i] == roles[i].id
  {
    seq(|roles|, i requires 0 <= i < |roles| => roles[i].id)
  }

  // ----- What the result should be -----

  // Each id once, where it was first seen.
  function FirstSeen(ids: seq<string>): seq<string> {
    if ids == [] then []
    else
      var init, last := ids[..|ids| - 1], ids[|ids| - 1];
      FirstSeen(init) + (if last in init then [] else [last])
  }

  // The last role with an id.
  function LastWith(roles: seq<Role>, id: string): Role
    requires exists i :: 0 <= i < |roles| && roles[i].id == id
  {
    if roles[|roles| - 1].id == id then roles[|roles| - 1] else LastWith(roles[..|roles| - 1], id)
  }

  ghost predicate IsLastSeen(roles: seq<Role>, r: Role) {
    (exists j :: 0 <= j < |roles| && roles[j].id == r.id) && r == LastWith(roles, r.id)
  }

  /** Each id of the given roles once, in first-seen order, with its last-seen role. */
  ghost predicate IsCollection(collected: seq<Role>, roles: seq<Role>) {
    && Ids(collected) == FirstSeen(Ids(roles))
    && forall i :: 0 <= i < |collected| ==> IsLastSeen(roles, collected[i])
  }

  // ----- The map the source fills -----

  // The place of an id among the values of an insertion-ordered map; their number if it is not there.
  function Position(entries: seq<Role>, id: string): (p: nat)
    ensures p <= |entries|
    ensures p < |entries| ==> entries[p].id == id
    ensures forall i :: 0 <= i < p ==> entries[i].id != id
  {
    if entries == [] || entries[0].id == id then 0 else 1 + Position(entries[1..], id)
  }

  // Map.prototype.set: a known key keeps its place.
  function WithEntry(entries: seq<Role>, r: Role): seq<Role> {
    var p := Position(entries, r.id);
    if p == |entries| then entries + [r] else entries[p := r]
  }

  class RoleMap {
    var entries: seq<Role>

    constructor ()
      ensures entries == []
    {
      entries := [];
    }

    method Set(r: Role)
      modifies this
      ensures entries == WithEntry(old(entries), r)
    {
      hide Position;
      var i := 0;
      while i < |entries| && entries[i].id != r.id
        invariant i <= |entries|
        invariant forall j :: 0 <= j < i ==> entries[j].id != r.id
      {
        i := i + 1;
      }
      assert i == Position(entries, r.id);
      if i < |entries| {
        entries := entries[i := r];
      } else {
        entries := entries + [r];
      }
    }
  }

  function Collected(roles: seq<Role>): seq<Role> {
    if roles == [] then [] else WithEntry(Collected(roles[..|roles| - 1]), roles[|roles| - 1])
  }

  function CollectRoles(accounts: seq<Account>): seq<Role> {
    Collected(AllRoles(accounts))
  }

  method CollectRolesFromAccounts(accounts: seq<Account>) returns (roles: seq<Role>)
    ensures roles == CollectRoles(accounts)
    ensures IsCollection(roles, AllRoles(accounts))
  {
    hide Collected, AllRoles, WithEntry, IsCollection;
    NothingCollected();
    var rolesById := new RoleMap();
    assert accounts[..0] == [];
    for i := 0 to |accounts|
      invariant fresh(rolesById) && rolesById.entries == Collected(AllRoles(accounts[..i]))
    {
      var inner := RolesOf(accounts[i]);
      ghost var before := AllRoles(accounts[..i]);
      AllRolesOn(accounts, i);
      assert before + inner[..0] == before;
      for j := 0 to |inner|
        invariant fresh(rolesById) && rolesById.entries == Collected(before + inner[..j])
      {
        rolesById.Set(inner[j]);
        CollectedOn(before + inner[..j], inner[j]);
        assert before + inner[..j + 1] == before + inner[..j] + [inner[j]];
      }
      assert inner[..|inner|] == inner;
    }
    assert accounts[..|accounts|] == accounts;
    roles := rolesById.entries;
    CollectedIsCollection(AllRoles(accounts));
  }

  lemma NothingCollected()
    ensures AllRoles([]) == [] && Collected([]) == []
  {}

  lemma CollectedOn(roles: seq<Role>, r: Role)
    ensures Collected(roles + [r]) == WithEntry(Collected(roles), r)
  {
    assert (roles + [r])[..|roles|] == roles;
  }

  lemma AllRolesOn(accounts: seq<Account>, i: nat)
    requires i < |accounts|
    ensures AllRoles(accounts[..i + 1]) == AllRoles(accounts[..i]) + RolesOf(accounts[i])
  {
    assert accounts[..i + 1][..i] == accounts[..i];
  }

  // ----- The map holds the collection -----

  lemma WithEntryIs(entries: seq<Role>, r: Role)
    requires forall i, j :: 0 <= i < j < |entries| ==> entries[i].id != entries[j].id
    ensures |WithEntry(entries, r)| >= |entries|
    ensures forall i :: 0 <= i < |entries| ==> WithEntry(entries, r)[i] == if entries[i].id == r.id then r else entries[i]
    ensures if r.id in Ids(entries) then |WithEntry(entries, r)| == |entries| else WithEntry(entries, r) == entries + [r]
  {
    hide Position;
    var p := Position(entries, r.id);
    assert p < |entries| ==> Ids(entries)[p] == r.id;
  }

  lemma {:induction false} FirstSeenIs(ids: seq<string>)
    ensures forall x :: x in FirstSeen(ids) <==> x in ids
    ensures forall i, j :: 0 <= i < j < |FirstSeen(ids)| ==> FirstSeen(ids)[i] != FirstSeen(ids)[j]
  {
    if ids != [] {
      var init, last := ids[..|ids| - 1], ids[|ids| - 1];
      FirstSeenIs(init);
      assert ids == init + [last];
    }
  }

  lemma {:induction false} CollectedIsCollection(roles: seq<Role>)
    ensures IsCollection(Collected(roles), roles)
  {
    if roles == [] {
      assert Ids(Collected(roles)) == [];
    } else {
      var init, last := roles[..|roles| - 1], roles[|roles| - 1];
      CollectedIsCollection(init);
      CollectionGrows(Collected(init), init, last);
      assert roles == init + [last];
    }
  }

  lemma CollectionGrows(entries: seq<Role>, roles: seq<Role>, r: Role)
    requires IsCollection(entries, roles)
    ensures IsCollection(WithEntry(entries, r), roles + [r])
  {
    hide FirstSeen, IsLastSeen, WithEntry;
    var all, after := roles + [r], WithEntry(entries, r);
    FirstSeenIs(Ids(roles));
    assert forall i :: 0 <= i < |entries| ==> entries[i].id == Ids(entries)[i];
    WithEntryIs(entries, r);
    SeenOn(entries, roles, r);
    forall i | 0 <= i < |after| ensures IsLastSeen(all, after[i]) {
      if after[i].id != r.id {
        assert i < |entries| && after[i] == entries[i];
      } else {
        assert after[i] == r;
      }
      LastOn(roles, r, after[i]);
    }
  }

  // The ids seen first, with one more role behind.
  lemma SeenOn(entries: seq<Role>, roles: seq<Role>, r: Role)
    requires Ids(entries) == FirstSeen(Ids(roles))
    requires forall i, j :: 0 <= i < j < |entries| ==> entries[i].id != entries[j].id
    ensures Ids(WithEntry(entries, r)) == FirstSeen(Ids(roles + [r]))
  {
    var ids := Ids(roles);
    assert Ids(roles + [r]) == ids + [r.id] && (ids + [r.id])[..|ids|] == ids;
    FirstSeenIs(ids);
    hide WithEntry, Position;
    WithEntryIs(entries, r);
    assert r.id in ids ==> Ids(WithEntry(entries, r)) == Ids(entries);
    assert r.id !in ids ==> Ids(WithEntry(entries, r)) == Ids(entries) + [r.id];
  }

  lemma LastOn(roles: seq<Role>, r: Role, x: Role)
    requires x == r || (x.id != r.id && IsLastSeen(roles, x))
    ensures IsLastSeen(roles + [r], x)
  {
    var all := roles + [r];
    assert all[|roles|] == r && all[..|roles|] == roles;
    if x != r {
      var j :| 0 <= j < |roles| && roles[j].id == x.id;
      assert all[j] == roles[j];
    }
  }

  /** The picker offers every role of every account, and nothing else. */
  lemma OfferedIff(accounts: seq<Account>, id: string)
    ensures id in Ids(CollectRoles(accounts)) <==>
            exists a, r: Role :: a in accounts && a.roles.Some? && r in a.roles.value && r.id == id
  {
    var all := AllRoles(accounts);
    CollectedIsCollection(all);
    FirstSeenIs(Ids(all));
    assert id in Ids(CollectRoles(accounts)) <==> id in Ids(all);
    hide CollectRoles, Collected, FirstSeen, AllRoles;
    if id in Ids(all) {
      var i :| 0 <= i < |all| && Ids(all)[i] == id;
      RoleComesFrom(accounts, i);
      assert all[i].id == id;
    }
    forall a, r: Role | a in accounts && a.roles.Some? && r in a.roles.value && r.id == id ensures id in Ids(all) {
      var n :| 0 <= n < |accounts| && accounts[n] == a;
      var m :| 0 <= m < |a.roles.value| && a.roles.value[m] == r;
      EveryRoleIsOffered(accounts, n, m);
    }
  }

  lemma {:induction false} RoleComesFrom(accounts: seq<Account>, i: nat)
    requires i < |AllRoles(accounts)|
    ensures exists a :: a in accounts && a.roles.Some? && AllRoles(accounts)[i] in a.roles.value
  {
    var before := AllRoles(accounts[..|accounts| - 1]);
    if i < |before| {
      RoleComesFrom(accounts[..|accounts| - 1], i);
    } else {
      var last := accounts[|accounts| - 1];
      assert AllRoles(accounts)[i] == RolesOf(last)[i - |before|];
      assert last in accounts;
    }
  }

  lemma EveryRoleIsOffered(accounts: seq<Account>, a: nat, r: nat)
    requires a < |accounts| && accounts[a].roles.Some? && r < |accounts[a].roles.value|
    ensures accounts[a].roles.value[r].id in Ids(CollectRoles(accounts))
    ensures accounts[a].roles.value[r].id in Ids(AllRoles(accounts))
  {
    var all := AllRoles(accounts);
    AllRolesHas(accounts, a, r);
    CollectedIsCollection(all);
    FirstSeenIs(Ids(all));
    var i :| 0 <= i < |all| && all[i] == accounts[a].roles.value[r];
    assert Ids(all)[i] == all[i].id;
  }

  lemma {:induction false} AllRolesHas(accounts: seq<Account>, a: nat, r: nat)
    requires a < |accounts| && accounts[a].roles.Some? && r < |accounts[a].roles.value|
    ensures accounts[a].roles.value[r] in AllRoles(accounts)
  {
    if a < |accounts| - 1 {
      AllRolesHas(accounts[..|accounts| - 1], a, r);
    }
  }
}
