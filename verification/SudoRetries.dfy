/** The passkey submission of PasskeysPanel.tsx that asks again when the server demands strong authentication. */
module SudoRetries {
  import opened Common
  import opened Sudo
  import opened SudoRuns

  predicate IsAttempt(e: Execution, submission: nat) {
    e.request.action == Register(submission)
  }

  /** The retry finds the window it failed to clear still open, and goes ahead at once. */
  predicate Spins(p: Protocol, e: Event) {
    && e.StrongAuthDemanded?
    && e.task < |p.tasks| && !p.tasks[e.task].done && p.tasks[e.task].request.action.Register?
    && e.io.removeFails && Active(p.ui.storage, p.now, e.io.readFails)
  }

  ghost predicate NoneSpins(p: Protocol, events: seq<Event>) {
    forall k :: 0 <= k < |events| ==> !Spins(Play(p, events[..k]), events[k])
  }

  // ----- Attempts the window allows -----

  /** An attempt the window allowed is the first of its submission. */
  predicate FirstAt(executed: seq<Execution>, i: nat)
    requires i < |executed|
  {
    executed[i].fromWindow && executed[i].request.action.Register? ==>
      forall j :: 0 <= j < i ==> executed[j].request.action != executed[i].request.action
  }

  ghost predicate WindowStartsAreFirst(executed: seq<Execution>) {
    forall i :: 0 <= i < |executed| ==> FirstAt(executed, i)
  }

  predicate KnownAction(p: Protocol, a: Action) {
    a.Register? ==> a.submission < p.nextSubmission
  }

  /** Tasks and executions pair up, and every submission that is held or was attempted has been made. */
  ghost predicate Paired(p: Protocol) {
    && |p.tasks| == |p.executed|
    && (forall i :: 0 <= i < |p.tasks| ==> p.tasks[i].request == p.executed[i].request)
    && (forall i :: 0 <= i < |p.executed| ==> KnownAction(p, p.executed[i].request.action))
    && (p.ui.pending.Some? ==> KnownAction(p, p.ui.pending.value.action))
    && (forall i :: 0 <= i < |p.flights| && p.flights[i].Verifying? && p.flights[i].captured.Some? ==>
          KnownAction(p, p.flights[i].captured.value.action))
  }

  lemma AskKeepsPaired(p: Protocol, action: Action, io: Io)
    requires Paired(p) && KnownAction(p, action)
    ensures Paired(Ask(p, action, io))
  {
    hide Active;
  }

  lemma RetryKeepsPaired(p: Protocol, k: nat, io: Io)
    requires Paired(p) && k < |p.tasks| && !p.tasks[k].done && p.tasks[k].request.action.Register?
    ensures Paired(Next(p, StrongAuthDemanded(k, io)))
  {
    hide Active;
    var action := p.tasks[k].request.action;
    var cleared := p.(ui := Cleared(p.ui, io.removeFails), tasks := p.tasks[k := p.tasks[k].(done := true)]);
    assert KnownAction(p, action) && Paired(cleared);
    AskKeepsPaired(cleared, action, io);
  }

  lemma SubmitKeepsPaired(p: Protocol, io: Io)
    requires Paired(p)
    ensures Paired(Next(p, SubmitPasskey(io)))
  {
    var counted := p.(nextSubmission := p.nextSubmission + 1);
    assert Paired(counted);
    AskKeepsPaired(counted, Register(p.nextSubmission), io);
    assert Next(p, SubmitPasskey(io)) == Ask(counted, Register(p.nextSubmission), io);
  }

  lemma VerifyKeepsPaired(p: Protocol, i: nat, io: Io)
    requires Paired(p)
    ensures Paired(Next(p, VerifyOk(i, io)))
  {}

  lemma StartKeepsPaired(p: Protocol, e: Event)
    requires Paired(p) && (e.StartMfa? || e.StartPasskey?)
    ensures Paired(Next(p, e))
  {
    hide CodeBlank;
  }

  lemma NextKeepsPaired(p: Protocol, e: Event)
    requires Paired(p)
    ensures Paired(Next(p, e))
  {
    hide Active, Ask, CodeBlank, Verified, MfaStarted, PasskeyStarted;
    match e
    case VerifyOk(i, io) => VerifyKeepsPaired(p, i, io);
    case StartMfa => StartKeepsPaired(p, e);
    case StartPasskey => StartKeepsPaired(p, e);
    case RequirePlain(io) => AskKeepsPaired(p, Plain, io);
    case SubmitPasskey(io) => SubmitKeepsPaired(p, io);
    case StrongAuthDemanded(k, io) =>
      if k < |p.tasks| && !p.tasks[k].done && p.tasks[k].request.action.Register? { RetryKeepsPaired(p, k, io); }
    case _ =>
  }

  lemma {:induction false} PlayKeepsPaired(p: Protocol, events: seq<Event>)
    requires Initial(p)
    ensures Paired(Play(p, events))
  {
    hide Next;
    if events != [] {
      PlayKeepsPaired(p, events[..|events| - 1]);
      NextKeepsPaired(Play(p, events[..|events| - 1]), events[|events| - 1]);
    }
  }

  /** What one event executes: at most one action. */
  predicate ExecutesAtMostOne(p: Protocol, q: Protocol) {
    q.executed == p.executed || (|q.executed| == |p.executed| + 1 && q.executed[..|p.executed|] == p.executed)
  }

  // The action an event adds, if any: allowed by the window only for a request made by this event.
  lemma NextExecutes(p: Protocol, e: Event)
    ensures ExecutesAtMostOne(p, Next(p, e))
    ensures var q := Next(p, e);
            q.executed != p.executed ==>
              var x := q.executed[|p.executed|];
              match e
              case RequirePlain(_) => x.fromWindow && x.request.action == Plain
              case SubmitPasskey(_) => x.fromWindow && x.request.action == Register(p.nextSubmission)
              case VerifyOk(_, _) => !x.fromWindow
              case StrongAuthDemanded(k, _) => Spins(p, e) && x.fromWindow && x.request.action == p.tasks[k].request.action
              case _ => false
    ensures Spins(p, e) ==> Next(p, e).executed != p.executed
  {}

  lemma FirstOn(p: Protocol, e: Event)
    requires Paired(p) && WindowStartsAreFirst(p.executed)
    ensures WindowStartsAreFirst(Next(p, e).executed) <==> !Spins(p, e)
  {
    hide Next, Spins;
    var q := Next(p, e);
    NextExecutes(p, e);
    if q.executed != p.executed {
      var n := |p.executed|;
      forall i | 0 <= i < n ensures q.executed[i] == p.executed[i] && (FirstAt(q.executed, i) <==> FirstAt(p.executed, i)) {
        assert q.executed[i] == q.executed[..n][i];
        forall j | 0 <= j < i ensures q.executed[j] == p.executed[j] { assert q.executed[j] == q.executed[..n][j]; }
      }
      if Spins(p, e) {
        SpinsRepeats(p, e);
        assert q.executed[e.task].request.action == q.executed[n].request.action;
        assert !FirstAt(q.executed, n);
      } else {
        SubmitIsNew(p, e);
        assert FirstAt(q.executed, n);
      }
    }
  }

  lemma SpinsRepeats(p: Protocol, e: Event)
    requires Paired(p) && Spins(p, e)
    ensures e.StrongAuthDemanded? && e.task < |p.executed| && p.executed[e.task].request.action == p.tasks[e.task].request.action
    ensures p.tasks[e.task].request.action.Register?
  {}

  lemma SubmitIsNew(p: Protocol, e: Event)
    requires Paired(p)
    ensures forall j :: 0 <= j < |p.executed| ==> p.executed[j].request.action != Register(p.nextSubmission)
  {}

  lemma NotFirstStays(p: Protocol, e: Event)
    requires !WindowStartsAreFirst(p.executed)
    ensures !WindowStartsAreFirst(Next(p, e).executed)
  {
    hide Next, Spins;
    NextExecutes(p, e);
    var q := Next(p, e);
    var i :| 0 <= i < |p.executed| && !FirstAt(p.executed, i);
    forall j | 0 <= j < |p.executed| ensures q.executed[j] == p.executed[j] {
      assert q.executed != p.executed ==> q.executed[j] == q.executed[..|p.executed|][j];
    }
    assert !FirstAt(q.executed, i);
  }

  lemma NoneSpinsOn(p: Protocol, events: seq<Event>)
    requires events != []
    ensures var n := |events| - 1;
            NoneSpins(p, events) <==> NoneSpins(p, events[..n]) && !Spins(Play(p, events[..n]), events[n])
  {
    hide Play, Spins;
    var before := events[..|events| - 1];
    forall k | 0 <= k < |before| ensures events[..k] == before[..k] && events[k] == before[k] {}
    if NoneSpins(p, before) && !Spins(Play(p, before), events[|events| - 1]) {
      forall k | 0 <= k < |events| ensures !Spins(Play(p, events[..k]), events[k]) {
        assert k < |before| ==> events[..k] == before[..k];
      }
    }
  }

  /** The window lets only first attempts through, in a whole run, exactly if no event of the run spins. */
  lemma {:induction false} RetriesAreVerifiedIff(p: Protocol, events: seq<Event>)
    requires Initial(p)
    ensures WindowStartsAreFirst(Play(p, events).executed) <==> NoneSpins(p, events)
  {
    hide Next, Spins, NoneSpins, WindowStartsAreFirst, Paired;
    if events == [] {
      NothingSpins(p);
    } else {
      var n := |events| - 1;
      RetriesAreVerifiedIff(p, events[..n]);
      NoneSpinsOn(p, events);
      PlayKeepsPaired(p, events[..n]);
      if WindowStartsAreFirst(Play(p, events[..n]).executed) {
        FirstOn(Play(p, events[..n]), events[n]);
      } else {
        NotFirstStays(Play(p, events[..n]), events[n]);
      }
    }
  }

  lemma NothingSpins(p: Protocol)
    requires Initial(p)
    ensures NoneSpins(p, []) && WindowStartsAreFirst(p.executed)
  {}

  // ----- Counting attempts -----

  function Attempts(executed: seq<Execution>, submission: nat): nat {
    if executed == [] then 0
    else Attempts(executed[..|executed| - 1], submission) + (if IsAttempt(executed[|executed| - 1], submission) then 1 else 0)
  }

  // Attempts of any submission.
  function AllAttempts(executed: seq<Execution>): nat {
    if executed == [] then 0
    else AllAttempts(executed[..|executed| - 1]) + (if executed[|executed| - 1].request.action.Register? then 1 else 0)
  }

  // Actions a verification started.
  function VerifiedStarts(executed: seq<Execution>): nat {
    if executed == [] then 0
    else VerifiedStarts(executed[..|executed| - 1]) + (if executed[|executed| - 1].fromWindow then 0 else 1)
  }

  lemma CountSnoc(executed: seq<Execution>, e: Execution, submission: nat)
    ensures Attempts(executed + [e], submission) == Attempts(executed, submission) + (if IsAttempt(e, submission) then 1 else 0)
    ensures AllAttempts(executed + [e]) == AllAttempts(executed) + (if e.request.action.Register? then 1 else 0)
    ensures VerifiedStarts(executed + [e]) == VerifiedStarts(executed) + (if e.fromWindow then 0 else 1)
  {
    assert (executed + [e])[..|executed|] == executed;
  }

  /** Each verification starts at most one action, and each submission is let through at most once without one. */
  ghost predicate Counted(p: Protocol, earlier: nat) {
    && earlier + VerifiedStarts(p.executed) <= |p.verified|
    && AllAttempts(p.executed) <= p.nextSubmission + VerifiedStarts(p.executed)
    && forall s: nat :: Attempts(p.executed, s) <= (if s < p.nextSubmission then 1 else 0) + VerifiedStarts(p.executed)
  }

  lemma NextCounts(p: Protocol, e: Event)
    ensures var q := Next(p, e);
            && |q.verified| == |p.verified| + (if q.verified != p.verified then 1 else 0)
            && q.nextSubmission == p.nextSubmission + (if e.SubmitPasskey? then 1 else 0)
            && (e.VerifyOk? && q.executed != p.executed ==> |q.verified| == |p.verified| + 1)
  {}

  lemma NextKeepsCounted(p: Protocol, e: Event, earlier: nat)
    requires Counted(p, earlier) && !Spins(p, e)
    ensures Counted(Next(p, e), earlier)
  {
    hide Next, Spins, Attempts, AllAttempts, VerifiedStarts;
    var q := Next(p, e);
    NextExecutes(p, e);
    NextCounts(p, e);
    if q.executed != p.executed {
      var x := q.executed[|p.executed|];
      assert q.executed == p.executed + [x];
      CountSnoc(p.executed, x, 0);
      forall s: nat ensures Attempts(q.executed, s) <= (if s < q.nextSubmission then 1 else 0) + VerifiedStarts(q.executed) {
        CountSnoc(p.executed, x, s);
        UnmadeIsUnattempted(p, earlier, s);
      }
    }
  }

  lemma UnmadeIsUnattempted(p: Protocol, earlier: nat, s: nat)
    requires Counted(p, earlier)
    ensures Attempts(p.executed, s) <= (if s < p.nextSubmission then 1 else 0) + VerifiedStarts(p.executed)
  {}

  lemma {:induction false} RunIsCounted(p: Protocol, events: seq<Event>)
    requires Initial(p) && NoneSpins(p, events)
    ensures Counted(Play(p, events), |p.verified|)
  {
    hide Next, Spins, NoneSpins;
    if events != [] {
      var n := |events| - 1;
      NoneSpinsOn(p, events);
      RunIsCounted(p, events[..n]);
      NextKeepsCounted(Play(p, events[..n]), events[n], |p.verified|);
    }
  }

  /** In a run without a spin a passkey submission is attempted at most once more than verifications succeed. */
  lemma AtMostOneAttemptMoreThanVerifications(p: Protocol, events: seq<Event>, submission: nat)
    requires Initial(p) && NoneSpins(p, events)
    ensures var q := Play(p, events);
            Attempts(q.executed, submission) <= 1 + (|q.verified| - |p.verified|)
  {
    hide Attempts, VerifiedStarts, AllAttempts, Next, NoneSpins;
    RunIsCounted(p, events);
    UnmadeIsUnattempted(Play(p, events), |p.verified|, submission);
  }

  /** Together, all submissions are attempted at most once each and once more per verification. */
  lemma AttemptsShareVerifications(p: Protocol, events: seq<Event>)
    requires Initial(p) && NoneSpins(p, events)
    ensures var q := Play(p, events);
            AllAttempts(q.executed) <= q.nextSubmission + (|q.verified| - |p.verified|)
  {
    hide Attempts, VerifiedStarts, AllAttempts, Next, NoneSpins;
    RunIsCounted(p, events);
  }

  /** If removal fails while the window is open, attempts follow each other without any verification. */
  lemma {:induction false} RetrySpinsWhenRemovalFails(p: Protocol, n: nat) returns (events: seq<Event>)
    requires Initial(p) && Active(p.ui.storage, p.now, false)
    ensures var q := Play(p, events);
            && Attempts(q.executed, 0) == n + 1 && q.verified == p.verified
            && q.now == p.now && q.ui.storage == p.ui.storage && |q.tasks| == n + 1
            && q.tasks[n] == Task(Request(n, Register(0)), false) && q.nextRequest == n + 1
  {
    if n == 0 {
      events := [SubmitPasskey(Io(false, false, false))];
      assert events[..0] == [];
      CountSnoc([], Execution(Request(0, Register(0)), p.now, true), 0);
    } else {
      var before := RetrySpinsWhenRemovalFails(p, n - 1);
      var q := Play(p, before);
      var e := StrongAuthDemanded(n - 1, Io(false, false, true));
      events := before + [e];
      assert events[..|before|] == before;
      SpinOn(q, n - 1);
      CountSnoc(q.executed, Execution(Request(n, Register(0)), q.now, true), 0);
    }
  }

  lemma SpinOn(q: Protocol, k: nat)
    requires Active(q.ui.storage, q.now, false) && k == |q.tasks| - 1
    requires q.tasks[k] == Task(Request(k, Register(0)), false) && q.nextRequest == k + 1
    ensures var r := Next(q, StrongAuthDemanded(k, Io(false, false, true)));
            && Spins(q, StrongAuthDemanded(k, Io(false, false, true)))
            && r.executed == q.executed + [Execution(Request(k + 1, Register(0)), q.now, true)]
            && r.verified == q.verified && r.now == q.now && r.ui.storage == q.ui.storage && r.nextRequest == k + 2
            && |r.tasks| == k + 2 && r.tasks[k + 1] == Task(Request(k + 1, Register(0)), false)
  {}
}
