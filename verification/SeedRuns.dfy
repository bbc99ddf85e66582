/**
 Any number of seeders against one database, interleaved statement by statement.

 Two assumptions about PostgreSQL: the transaction-level advisory lock has one holder, who
 releases it by committing or aborting; and a serializable transaction commits only if the
 snapshot it reads from, taken by its first statement (the one that asks for the lock), is still
 the current state, and is aborted otherwise.
 */
module SeedRuns {
  import opened Common
  import opened SeedTables
  import opened SeedGuarantees

  datatype Phase = Waiting | Running | Committed | Aborted

  /** One seeder: its run, the number of commits its snapshot has seen, the snapshot, and its progress. */
  datatype Session = Session(run: Run, phase: Phase, base: nat, snapshot: Tables, work: Work)

  /** The committed state, the commits in order, the sessions in the order they got the lock, and its holder. */
  datatype System = System(db: Tables, log: seq<nat>, lockOrder: seq<nat>, lock: Option<nat>, sessions: seq<Session>)

  datatype Event =
    | Begin(run: Run)        // a seeder asks for the lock and takes its snapshot
    | Acquire(session: nat)  // it gets the lock
    | Execute(session: nat)  // its next statement runs; a rejected one aborts it
    | Commit(session: nat)   // it commits, or is aborted for a stale snapshot
    | Fail(session: nat)     // it dies: connection, statement or process

  function Initial(t: Tables): System {
    System(t, [], [], None, [])
  }

  function Abort(s: System, i: nat): System
    requires i < |s.sessions|
  {
    s.(sessions := s.sessions[i := s.sessions[i].(phase := Aborted)], lock := if s.lock == Some(i) then None else s.lock)
  }

  // An event that cannot happen leaves the system as it is.
  function Next(s: System, e: Event): System {
    match e
    case Begin(run) =>
      s.(sessions := s.sessions + [Session(run, Waiting, |s.log|, s.db, Start(s.db))])
    case Acquire(i) =>
      if i < |s.sessions| && s.sessions[i].phase == Waiting && s.lock == None then
        s.(sessions := s.sessions[i := s.sessions[i].(phase := Running)], lock := Some(i), lockOrder := s.lockOrder + [i])
      else s
    case Execute(i) =>
      if i < |s.sessions| && s.sessions[i].phase == Running && s.sessions[i].work.next != Finished then
        match Exec(s.sessions[i].work, s.sessions[i].run.cfg, s.sessions[i].run.gen)
        case None => Abort(s, i)
        case Some(w) => s.(sessions := s.sessions[i := s.sessions[i].(work := w)])
      else s
    case Commit(i) =>
      if i < |s.sessions| && s.sessions[i].phase == Running && s.sessions[i].work.next == Finished then
        if s.sessions[i].base == |s.log| then
          s.(db := s.sessions[i].work.view, log := s.log + [i], lock := None,
             sessions := s.sessions[i := s.sessions[i].(phase := Committed)])
        else Abort(s, i)
      else s
    case Fail(i) =>
      if i < |s.sessions| && (s.sessions[i].phase == Waiting || s.sessions[i].phase == Running) then Abort(s, i)
      else s
  }

  function Play(s: System, events: seq<Event>): System {
    if events == [] then s else Next(Play(s, events[..|events| - 1]), events[|events| - 1])
  }

  // The runs behind a list of session numbers.
  function RunsOf(ids: seq<nat>, sessions: seq<Session>): (runs: seq<Run>)
    requires forall k :: 0 <= k < |ids| ==> ids[k] < |sessions|
    ensures |runs| == |ids| && forall k :: 0 <= k < |ids| ==> runs[k] == sessions[ids[k]].run
  {
    seq(|ids|, k requires 0 <= k < |ids| => sessions[ids[k]].run)
  }

  // The committed sessions among a list, in its order.
  function CommittedOf(ids: seq<nat>, sessions: seq<Session>): seq<nat>
    requires forall k :: 0 <= k < |ids| ==> ids[k] < |sessions|
  {
    if ids == [] then []
    else
      var init, last := ids[..|ids| - 1], ids[|ids| - 1];
      CommittedOf(init, sessions) + (if sessions[last].phase == Committed then [last] else [])
  }

  // ----- The invariant -----

  ghost predicate SessionOk(t: Tables, s: System, i: nat)
    requires i < |s.sessions|
    requires forall k :: 0 <= k < |s.log| ==> s.log[k] < |s.sessions|
  {
    var x := s.sessions[i];
    && x.base <= |s.log|
    && SeedAll(t, RunsOf(s.log, s.sessions)[..x.base]) == Some(x.snapshot)
    && (x.phase == Waiting ==> x.work == Start(x.snapshot) && i !in s.lockOrder)
    && (x.phase == Running <==> s.lock == Some(i))
    && (x.phase == Running ==> Finish(x.work, x.run.cfg, x.run.gen) == Seed(x.snapshot, x.run.cfg, x.run.gen))
  }

  ghost predicate LockOk(s: System) {
    && (forall k :: 0 <= k < |s.lockOrder| ==> s.lockOrder[k] < |s.sessions|)
    && (forall j, k :: 0 <= j < k < |s.lockOrder| ==> s.lockOrder[j] != s.lockOrder[k])
    && (s.lock.Some? ==> s.lock.value < |s.sessions| && s.lockOrder != [] && s.lockOrder[|s.lockOrder| - 1] == s.lock.value)
    && s.log == CommittedOf(s.lockOrder, s.sessions)
  }

  ghost predicate Inv(t: Tables, s: System) {
    && (forall k :: 0 <= k < |s.log| ==> s.log[k] < |s.sessions|)
    && SeedAll(t, RunsOf(s.log, s.sessions)) == Some(s.db)
    && LockOk(s)
    && (forall i :: 0 <= i < |s.sessions| ==> SessionOk(t, s, i))
  }

  lemma {:induction false} CommittedOfSame(ids: seq<nat>, a: seq<Session>, b: seq<Session>)
    requires forall k :: 0 <= k < |ids| ==> ids[k] < |a| && ids[k] < |b|
    requires forall k :: 0 <= k < |ids| ==> (a[ids[k]].phase == Committed <==> b[ids[k]].phase == Committed)
    ensures CommittedOf(ids, a) == CommittedOf(ids, b)
  {
    if ids != [] {
      CommittedOfSame(ids[..|ids| - 1], a, b);
    }
  }

  // A session changes, but neither its run nor whether it has committed.
  lemma UpdateKeeps(t: Tables, s: System, i: nat, x: Session)
    requires Inv(t, s) && i < |s.sessions|
    requires x.run == s.sessions[i].run && (x.phase == Committed <==> s.sessions[i].phase == Committed)
    ensures RunsOf(s.log, s.sessions[i := x]) == RunsOf(s.log, s.sessions)
    ensures CommittedOf(s.lockOrder, s.sessions[i := x]) == CommittedOf(s.lockOrder, s.sessions)
  {
    CommittedOfSame(s.lockOrder, s.sessions, s.sessions[i := x]);
  }

  lemma AbortKeepsInv(t: Tables, s: System, i: nat)
    requires Inv(t, s) && i < |s.sessions|
    requires s.sessions[i].phase == Waiting || s.sessions[i].phase == Running
    ensures Inv(t, Abort(s, i))
  {
    hide SeedAll, Seed, Finish, RunsOf, CommittedOf;
    UpdateKeeps(t, s, i, s.sessions[i].(phase := Aborted));
    var s' := Abort(s, i);
    forall j | 0 <= j < |s'.sessions| ensures SessionOk(t, s', j) {
      assert SessionOk(t, s, j) && SessionOk(t, s, i);
    }
  }

  lemma BeginKeepsInv(t: Tables, s: System, run: Run)
    requires Inv(t, s)
    ensures Inv(t, Next(s, Begin(run)))
  {
    hide SeedAll, Seed, Finish;
    var s' := Next(s, Begin(run));
    assert RunsOf(s'.log, s'.sessions) == RunsOf(s.log, s.sessions);
    CommittedOfSame(s.lockOrder, s.sessions, s'.sessions);
    hide RunsOf, CommittedOf;
    forall j | 0 <= j < |s'.sessions| ensures SessionOk(t, s', j) {
      if j < |s.sessions| {
        assert SessionOk(t, s, j);
      } else {
        assert RunsOf(s.log, s.sessions)[..|s.log|] == RunsOf(s.log, s.sessions);
      }
    }
  }

  lemma AcquireKeepsInv(t: Tables, s: System, i: nat)
    requires Inv(t, s)
    ensures Inv(t, Next(s, Acquire(i)))
  {
    hide SeedAll, Seed, Finish, RunsOf, CommittedOf, Start;
    if i < |s.sessions| && s.sessions[i].phase == Waiting && s.lock == None {
      var s' := Next(s, Acquire(i));
      var x := s.sessions[i];
      assert SessionOk(t, s, i);
      UpdateKeeps(t, s, i, x.(phase := Running));
      StatementsComputeSeed(x.snapshot, x.run.cfg, x.run.gen);
      NotCommittedYet(s.lockOrder, i, s'.sessions);
      forall j | 0 <= j < |s'.sessions| ensures SessionOk(t, s', j) {
        assert SessionOk(t, s, j);
      }
    }
  }

  lemma NotCommittedYet(ids: seq<nat>, i: nat, sessions: seq<Session>)
    requires forall k :: 0 <= k < |ids| ==> ids[k] < |sessions|
    requires i < |sessions| && sessions[i].phase != Committed
    ensures CommittedOf(ids + [i], sessions) == CommittedOf(ids, sessions)
  {
    assert (ids + [i])[..|ids|] == ids;
  }

  lemma ExecuteKeepsInv(t: Tables, s: System, i: nat)
    requires Inv(t, s)
    ensures Inv(t, Next(s, Execute(i)))
  {
    hide SeedAll, Seed, RunsOf, CommittedOf, Exec;
    if i < |s.sessions| && s.sessions[i].phase == Running && s.sessions[i].work.next != Finished {
      var x := s.sessions[i];
      match Exec(x.work, x.run.cfg, x.run.gen) {
        case None =>
          AbortKeepsInv(t, s, i);
        case Some(w) =>
          UpdateKeeps(t, s, i, x.(work := w));
          var s' := Next(s, Execute(i));
          assert Finish(w, x.run.cfg, x.run.gen) == Finish(x.work, x.run.cfg, x.run.gen);
          forall j | 0 <= j < |s'.sessions| ensures SessionOk(t, s', j) {
            assert SessionOk(t, s, j);
          }
      }
    }
  }

  lemma CommitKeepsInv(t: Tables, s: System, i: nat)
    requires Inv(t, s)
    requires i < |s.sessions| && s.sessions[i].phase == Running && s.sessions[i].work.next == Finished
    requires s.sessions[i].base == |s.log|
    ensures Inv(t, Next(s, Commit(i)))
  {
    hide Seed, SeedAll, RunsOf, CommittedOf, LockOk;
    var s' := Next(s, Commit(i));
    var x := s.sessions[i];
    var runs, runs' := RunsOf(s.log, s.sessions), RunsOf(s'.log, s'.sessions);
    assert SessionOk(t, s, i);
    assert runs[..|s.log|] == runs;
    RunsOn(s, s', i);
    assert runs'[..|s.log|] == runs;
    assert Seed(x.snapshot, x.run.cfg, x.run.gen) == Some(x.work.view);
    SeedAllOn(t, runs, x.run);
    LogIsKnown(t, s);
    CommitKeepsLock(t, s, i);
    hide Finish;
    forall j | 0 <= j < |s'.sessions| ensures SessionOk(t, s', j) {
      assert SessionOk(t, s, j);
      assert runs'[..s.sessions[j].base] == runs[..s.sessions[j].base];
    }
  }

  lemma RunsOn(s: System, s': System, i: nat)
    requires forall k :: 0 <= k < |s.log| ==> s.log[k] < |s.sessions|
    requires i < |s.sessions| == |s'.sessions| && s'.log == s.log + [i]
    requires forall k :: 0 <= k < |s.sessions| ==> s'.sessions[k].run == s.sessions[k].run
    ensures RunsOf(s'.log, s'.sessions) == RunsOf(s.log, s.sessions) + [s.sessions[i].run]
  {}

  lemma SeedAllOn(t: Tables, runs: seq<Run>, run: Run)
    ensures SeedAll(t, runs + [run])
            == match SeedAll(t, runs) case None => None case Some(t') => Seed(t', run.cfg, run.gen)
  {
    hide Seed;
    assert (runs + [run])[..|runs|] == runs;
  }

  lemma LogIsKnown(t: Tables, s: System)
    requires Inv(t, s)
    ensures forall k :: 0 <= k < |s.log| ==> s.log[k] < |s.sessions|
  {}

  lemma CommitKeepsLock(t: Tables, s: System, i: nat)
    requires Inv(t, s)
    requires i < |s.sessions| && s.sessions[i].phase == Running && s.sessions[i].work.next == Finished
    requires s.sessions[i].base == |s.log|
    ensures LockOk(Next(s, Commit(i)))
  {
    hide SeedAll, Seed, Finish, RunsOf;
    var s' := Next(s, Commit(i));
    assert SessionOk(t, s, i);
    var init := s.lockOrder[..|s.lockOrder| - 1];
    CommittedOfSame(init, s.sessions, s'.sessions);
    assert CommittedOf(s.lockOrder, s.sessions) == CommittedOf(init, s.sessions);
  }

  lemma NextKeepsInv(t: Tables, s: System, e: Event)
    requires Inv(t, s)
    ensures Inv(t, Next(s, e))
  {
    hide Inv, Abort, Exec;
    match e
    case Begin(run) => BeginKeepsInv(t, s, run);
    case Acquire(i) => AcquireKeepsInv(t, s, i);
    case Execute(i) => ExecuteKeepsInv(t, s, i);
    case Commit(i) =>
      if i < |s.sessions| && s.sessions[i].phase == Running && s.sessions[i].work.next == Finished {
        if s.sessions[i].base == |s.log| {
          CommitKeepsInv(t, s, i);
        } else {
          AbortKeepsInv(t, s, i);
        }
      }
    case Fail(i) =>
      if i < |s.sessions| && (s.sessions[i].phase == Waiting || s.sessions[i].phase == Running) {
        AbortKeepsInv(t, s, i);
      }
  }

  lemma {:induction false} PlayKeepsInv(t: Tables, events: seq<Event>)
    ensures Inv(t, Play(Initial(t), events))
  {
    if events != [] {
      PlayKeepsInv(t, events[..|events| - 1]);
      NextKeepsInv(t, Play(Initial(t), events[..|events| - 1]), events[|events| - 1]);
      hide Inv, Next;
    }
  }

  /**
   Whatever the seeders do, the committed tables are what the sequential seeder makes of the committed
   runs, taken in the order their seeders got the lock.
   */
  lemma InterleavingIsSequential(t: Tables, events: seq<Event>)
    ensures var s := Play(Initial(t), events);
            && (forall k :: 0 <= k < |s.lockOrder| ==> s.lockOrder[k] < |s.sessions|)
            && s.log == CommittedOf(s.lockOrder, s.sessions)
            && (forall k :: 0 <= k < |s.log| ==> s.log[k] < |s.sessions|)
            && SeedAll(t, RunsOf(s.log, s.sessions)) == Some(s.db)
  {
    PlayKeepsInv(t, events);
    hide Play, SeedAll, RunsOf, CommittedOf, SessionOk;
  }

  /** So every interleaving keeps the tables unique, loses nothing, leaves every committed account in charge,
      and the admin client under the last committed policy and in its first creator's hands. */
  lemma InterleavingEstablishes(t: Tables, events: seq<Event>)
    requires Unique(t)
    ensures var s := Play(Initial(t), events);
            && Unique(s.db) && Grows(t, s.db)
            && (forall k :: 0 <= k < |s.log| ==> s.log[k] < |s.sessions| && Administers(s.db, s.sessions[s.log[k]].run.cfg.username))
            && (s.log != [] ==> ClientPoliced(s.db, s.sessions[s.log[|s.log| - 1]].run.cfg.redirectUris))
            && (s.log != [] && !HasClient(t.clients, ADMIN_CLIENT) ==> OwnedBy(s.db, s.sessions[s.log[0]].run.cfg.username))
  {
    InterleavingIsSequential(t, events);
    hide Play, SeedAll, Administers, Unique, Grows, ClientPoliced, OwnedBy, HasClient;
    var s := Play(Initial(t), events);
    var runs := RunsOf(s.log, s.sessions);
    SeedAllEstablishes(t, runs);
    if s.log != [] && !HasClient(t.clients, ADMIN_CLIENT) {
      OwnerIsFirstCreator(t, runs);
    }
  }
}
