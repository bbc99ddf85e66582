/**
 When a step-up request is lost: asked for, not run, and held neither by the pending slot nor by a
 verification under way.
 */
module SudoLosses {
  import opened Common
  import opened Sudo
  import opened SudoRuns

  predicate IsRequest(r: Option<Request>, id: nat) {
    r.Some? && r.value.id == id
  }

  // Some verification under way has captured the request.
  predicate Captured(p: Protocol, id: nat) {
    exists i :: 0 <= i < |p.flights| && p.flights[i].Verifying? && IsRequest(p.flights[i].captured, id)
  }

  /** A request that has not run but still may. */
  predicate Live(p: Protocol, id: nat) {
    !Ran(p, id) && (IsRequest(p.ui.pending, id) || Captured(p, id))
  }

  /** A known request that has not run and that nobody holds any more. */
  predicate Dropped(p: Protocol, id: nat) {
    id < p.nextRequest && !Ran(p, id) && !IsRequest(p.ui.pending, id) && !Captured(p, id)
  }

  predicate Retries(p: Protocol, k: nat) {
    k < |p.tasks| && !p.tasks[k].done && p.tasks[k].request.action.Register?
  }

  /**
   The events that lose a live request: closing, or another request that has to wait, unless a
   verification has captured it; the success of a verification that has captured something else; the
   failure of the one that has, unless it is pending again.
   */
  predicate Drops(p: Protocol, e: Event, id: nat) {
    match e
    case Close => !Captured(p, id)
    case RequirePlain(io) => !Captured(p, id) && !Active(p.ui.storage, p.now, io.readFails)
    case SubmitPasskey(io) => !Captured(p, id) && !Active(p.ui.storage, p.now, io.readFails)
    case StrongAuthDemanded(k, io) =>
      !Captured(p, id) && Retries(p, k) && !Active(Cleared(p.ui, io.removeFails).storage, p.now, io.readFails)
    case VerifyOk(i, _) => i < |p.flights| && p.flights[i].Verifying? && !IsRequest(p.flights[i].captured, id)
    case VerifyFail(i, _) =>
      i < |p.flights| && p.flights[i].Verifying? && IsRequest(p.flights[i].captured, id) && !IsRequest(p.ui.pending, id)
    case _ => false
  }

  // ----- One event -----

  lemma OnlyLastVerifies(p: Protocol, i: nat)
    requires OnceOk(p) && i < |p.flights| && p.flights[i].Verifying?
    ensures i == |p.flights| - 1
    ensures forall id :: Captured(p, id) <==> IsRequest(p.flights[i].captured, id)
  {}

  lemma SameHolders(p: Protocol, q: Protocol)
    requires p.flights == q.flights
    ensures forall id :: Captured(p, id) <==> Captured(q, id)
  {}

  lemma CapturedOn(p: Protocol, q: Protocol, f: Flight)
    requires q.flights == p.flights + [f]
    ensures forall id :: Captured(q, id) <==> Captured(p, id) || (f.Verifying? && IsRequest(f.captured, id))
  {
    assert q.flights[|p.flights|] == f;
    forall id | Captured(p, id) ensures Captured(q, id) {
      var i :| 0 <= i < |p.flights| && p.flights[i].Verifying? && IsRequest(p.flights[i].captured, id);
      assert q.flights[i] == p.flights[i];
    }
  }

  lemma RedirectedCaptures(p: Protocol, q: Protocol, from: nat, to: nat)
    requires q.flights == Redirected(p.flights, from, to)
    ensures forall id :: Captured(q, id) <==> Captured(p, id)
  {
    forall id ensures Captured(q, id) <==> Captured(p, id) {
      if Captured(p, id) {
        var i :| 0 <= i < |p.flights| && p.flights[i].Verifying? && IsRequest(p.flights[i].captured, id);
        assert q.flights[i] == p.flights[i];
      }
    }
  }

  // What asking does to the request that is asked and to every other one.
  lemma AskHolds(p: Protocol, action: Action, io: Io, id: nat)
    ensures var q := Ask(p, action, io);
            var waits := !Active(p.ui.storage, p.now, io.readFails);
            && (Captured(q, id) <==> Captured(p, id))
            && (Ran(q, id) <==> Ran(p, id) || (!waits && id == p.nextRequest))
            && (IsRequest(q.ui.pending, id) <==> if waits then id == p.nextRequest else IsRequest(p.ui.pending, id))
            && q.nextRequest == p.nextRequest + 1
  {
    var q := Ask(p, action, io);
    SameHolders(p, q);
    if Active(p.ui.storage, p.now, io.readFails) {
      RanOn(p, q, Execution(Request(p.nextRequest, action), p.now, true));
    } else {
      SameRan(p, q);
    }
  }

  lemma RetryHolds(p: Protocol, k: nat, io: Io, id: nat)
    requires Retries(p, k)
    ensures var q := Next(p, StrongAuthDemanded(k, io));
            var waits := !Active(Cleared(p.ui, io.removeFails).storage, p.now, io.readFails);
            && (Captured(q, id) <==> Captured(p, id))
            && (Ran(q, id) <==> Ran(p, id) || (!waits && id == p.nextRequest))
            && (IsRequest(q.ui.pending, id) <==> if waits then id == p.nextRequest else IsRequest(p.ui.pending, id))
            && q.nextRequest == p.nextRequest + 1
  {
    var cleared := p.(ui := Cleared(p.ui, io.removeFails), tasks := p.tasks[k := p.tasks[k].(done := true)]);
    var asked := Ask(cleared, p.tasks[k].request.action, io);
    var q := Next(p, StrongAuthDemanded(k, io));
    SameHolders(p, cleared);
    SameRan(p, cleared);
    AskHolds(cleared, p.tasks[k].request.action, io, id);
    SameRan(asked, q);
    if q.flights == asked.flights {
      SameHolders(asked, q);
    } else {
      RedirectedCaptures(asked, q, k, |p.tasks|);
    }
  }

  lemma VerifyHolds(p: Protocol, i: nat, io: Io, id: nat)
    requires OnceOk(p) && i < |p.flights| && p.flights[i].Verifying?
    ensures var q := Next(p, VerifyOk(i, io));
            && !Captured(q, id) && !IsRequest(q.ui.pending, id) && q.nextRequest == p.nextRequest
            && (Ran(q, id) <==> Ran(p, id) || IsRequest(p.flights[i].captured, id))
  {
    var q := Next(p, VerifyOk(i, io));
    var captured := p.flights[i].captured;
    OnlyLastVerifies(p, i);
    var f := q.flights[i];
    assert q.flights == p.flights[i := f];
    assert forall j :: 0 <= j < |q.flights| ==> !q.flights[j].Verifying?;
    if captured.Some? {
      RanOn(p, q, Execution(captured.value, p.now, false));
    } else {
      SameRan(p, q);
    }
  }

  lemma FailHolds(p: Protocol, i: nat, message: string, id: nat)
    requires OnceOk(p) && i < |p.flights| && p.flights[i].Verifying?
    ensures var q := Next(p, VerifyFail(i, message));
            && !Captured(q, id) && q.ui.pending == p.ui.pending && q.nextRequest == p.nextRequest
            && (Ran(q, id) <==> Ran(p, id)) && (Captured(p, id) <==> IsRequest(p.flights[i].captured, id))
  {
    OnlyLastVerifies(p, i);
    SameRan(p, Next(p, VerifyFail(i, message)));
    var q := Next(p, VerifyFail(i, message));
    assert forall j :: 0 <= j < |q.flights| ==> !q.flights[j].Verifying?;
  }

  lemma StartHolds(p: Protocol, e: Event, id: nat)
    requires e.StartMfa? || e.StartPasskey?
    ensures var q := Next(p, e);
            && q.ui.pending == p.ui.pending && q.nextRequest == p.nextRequest && (Ran(q, id) <==> Ran(p, id))
            && (Captured(p, id) ==> Captured(q, id))
            && (Captured(q, id) ==> Captured(p, id) || IsRequest(p.ui.pending, id))
  {
    var q := Next(p, e);
    SameRan(p, q);
    if q.flights == p.flights {
      SameHolders(p, q);
    } else {
      CapturedOn(p, q, q.flights[|p.flights|]);
    }
  }

  lemma SettleHolds(p: Protocol, e: Event, id: nat)
    requires e.Tick? || e.TypeCode? || e.TaskEnds? || e.Settle?
    ensures var q := Next(p, e);
            && q.ui.pending == p.ui.pending && q.nextRequest == p.nextRequest && (Ran(q, id) <==> Ran(p, id))
            && (Captured(q, id) <==> Captured(p, id))
  {
    var q := Next(p, e);
    SameRan(p, q);
    if q.flights == p.flights {
      SameHolders(p, q);
    } else {
      var i := e.flight;
      assert p.flights[i].Awaiting? && q.flights == p.flights[i := Ended];
      forall j | 0 <= j < |p.flights| && j != i ensures q.flights[j] == p.flights[j] {}
    }
  }

  /** One event loses a live request exactly if it is one of those named. */
  lemma DroppedNextIff(p: Protocol, e: Event, id: nat)
    requires OnceOk(p) && Live(p, id)
    ensures Dropped(Next(p, e), id) <==> Drops(p, e, id)
  {
    LiveIsKnown(p, id);
    hide Next, Ran, Captured, OnceOk, Active, Cleared;
    match e
    case RequirePlain(io) => NextAsk(p, e, id); AskHolds(p, Plain, io, id);
    case SubmitPasskey(io) => NextAsk(p, e, id); AskHolds(p, Register(p.nextSubmission), io, id);
    case StrongAuthDemanded(k, io) =>
      if Retries(p, k) { RetryHolds(p, k, io, id); } else { NextIdle(p, e); }
    case VerifyOk(i, io) =>
      if i < |p.flights| && p.flights[i].Verifying? { VerifyHolds(p, i, io, id); } else { NextIdle(p, e); }
    case VerifyFail(i, message) =>
      if i < |p.flights| && p.flights[i].Verifying? { FailHolds(p, i, message, id); } else { NextIdle(p, e); }
    case Close => CloseHolds(p, id);
    case StartMfa => StartHolds(p, e, id);
    case StartPasskey => StartHolds(p, e, id);
    case _ => SettleHolds(p, e, id);
  }

  lemma LiveIsKnown(p: Protocol, id: nat)
    requires OnceOk(p) && Live(p, id)
    ensures id < p.nextRequest
  {}

  // Counting submissions is all that a passkey submission does besides asking.
  lemma NextAsk(p: Protocol, e: Event, id: nat)
    requires e.RequirePlain? || e.SubmitPasskey?
    ensures var asked := Ask(p, if e.RequirePlain? then Plain else Register(p.nextSubmission), e.io);
            && (Ran(Next(p, e), id) <==> Ran(asked, id)) && (Captured(Next(p, e), id) <==> Captured(asked, id))
            && Next(p, e).ui == asked.ui && Next(p, e).nextRequest == asked.nextRequest
  {
    var asked := Ask(p, if e.RequirePlain? then Plain else Register(p.nextSubmission), e.io);
    SameRan(asked, Next(p, e));
    SameHolders(asked, Next(p, e));
  }

  lemma NextIdle(p: Protocol, e: Event)
    requires e.StrongAuthDemanded? ==> !Retries(p, e.task)
    requires e.VerifyOk? || e.VerifyFail? ==> !(e.flight < |p.flights| && p.flights[e.flight].Verifying?)
    requires e.StrongAuthDemanded? || e.VerifyOk? || e.VerifyFail?
    ensures Next(p, e) == p
  {}

  lemma CloseHolds(p: Protocol, id: nat)
    ensures var q := Next(p, Close);
            && q.ui.pending == None && q.nextRequest == p.nextRequest
            && (Ran(q, id) <==> Ran(p, id)) && (Captured(q, id) <==> Captured(p, id))
  {
    SameRan(p, Next(p, Close));
    SameHolders(p, Next(p, Close));
  }

  // A request that is not live stays what it is, and one that comes up is not lost at once.
  lemma NotLiveNext(p: Protocol, e: Event, id: nat)
    requires OnceOk(p) && !Live(p, id)
    ensures Dropped(Next(p, e), id) <==> Dropped(p, id)
  {
    hide Next, Ran, Captured, OnceOk, Active, Cleared;
    match e
    case RequirePlain(io) => NextAsk(p, e, id); AskHolds(p, Plain, io, id);
    case SubmitPasskey(io) => NextAsk(p, e, id); AskHolds(p, Register(p.nextSubmission), io, id);
    case StrongAuthDemanded(k, io) =>
      if Retries(p, k) { RetryHolds(p, k, io, id); } else { NextIdle(p, e); }
    case VerifyOk(i, io) =>
      if i < |p.flights| && p.flights[i].Verifying? { CapturedAt(p, i, id); VerifyHolds(p, i, io, id); } else { NextIdle(p, e); }
    case VerifyFail(i, message) =>
      if i < |p.flights| && p.flights[i].Verifying? { FailHolds(p, i, message, id); } else { NextIdle(p, e); }
    case Close => CloseHolds(p, id);
    case StartMfa => StartHolds(p, e, id);
    case StartPasskey => StartHolds(p, e, id);
    case _ => SettleHolds(p, e, id);
  }

  lemma CapturedAt(p: Protocol, i: nat, id: nat)
    requires i < |p.flights| && p.flights[i].Verifying?
    ensures IsRequest(p.flights[i].captured, id) ==> Captured(p, id)
  {}

  // ----- Whole runs -----

  ghost predicate DropsAt(start: Protocol, events: seq<Event>, k: nat, id: nat)
    requires k < |events|
  {
    Live(Play(start, events[..k]), id) && Drops(Play(start, events[..k]), events[k], id)
  }

  /** A request is lost exactly if some event of the run lost it. */
  lemma {:induction false} LostIff(start: Protocol, events: seq<Event>, id: nat)
    requires Initial(start)
    ensures Dropped(Play(start, events), id) <==> exists k :: 0 <= k < |events| && DropsAt(start, events, k, id)
  {
    hide Next, Ran, Captured, Drops, Live, OnceOk;
    if events != [] {
      var n := |events| - 1;
      var before := events[..n];
      var p := Play(start, before);
      LostIff(start, before, id);
      NoRequestRunsTwice(start, before);
      forall k | 0 <= k < n ensures DropsAt(start, events, k, id) <==> DropsAt(start, before, k, id) {
        assert events[..k] == before[..k];
      }
      assert DropsAt(start, events, n, id) <==> Live(p, id) && Drops(p, events[n], id);
      if Live(p, id) {
        LiveIsNotDropped(p, id);
        DroppedNextIff(p, events[n], id);
      } else {
        NotLiveNext(p, events[n], id);
      }
    } else {
      NothingDropped(start, id);
    }
  }

  lemma LiveIsNotDropped(p: Protocol, id: nat)
    requires Live(p, id)
    ensures !Dropped(p, id)
  {}

  lemma NothingDropped(p: Protocol, id: nat)
    requires Initial(p)
    ensures !Dropped(p, id)
  {}

  lemma {:induction false} DroppedStays(p: Protocol, later: seq<Event>, id: nat)
    requires OnceOk(p) && Dropped(p, id)
    ensures OnceOk(Play(p, later)) && Dropped(Play(p, later), id)
  {
    hide Next, OnceOk, Ran, Captured;
    if later != [] {
      var q := Play(p, later[..|later| - 1]);
      DroppedStays(p, later[..|later| - 1], id);
      NextKeepsOnce(q, later[|later| - 1]);
      NotLiveNext(q, later[|later| - 1], id);
    }
  }

  /**
   Closing the modal does not stop a verification under way: its action still runs. A request made in
   between loses its place to it and never runs, whatever happens later.
   */
  lemma LateVerificationLosesNewRequest(start: Protocol, before: seq<Event>, i: nat, io: Io, later: seq<Event>)
    requires Initial(start)
    requires var p := Play(start, before);
             && i < |p.flights| && p.flights[i].Verifying? && p.flights[i].captured.Some?
             && p.ui.pending.Some? && p.ui.pending.value.id != p.flights[i].captured.value.id
    ensures var p := Play(start, before);
            var q := Next(p, VerifyOk(i, io));
            && q.executed == p.executed + [Execution(p.flights[i].captured.value, p.now, false)]
            && !Ran(Play(q, later), p.ui.pending.value.id)
  {
    hide Ran, OnceOk;
    var p := Play(start, before);
    var id := p.ui.pending.value.id;
    NoRequestRunsTwice(start, before);
    PendingIsLive(p);
    DroppedNextIff(p, VerifyOk(i, io), id);
    NextKeepsOnce(p, VerifyOk(i, io));
    DroppedStays(Next(p, VerifyOk(i, io)), later, id);
  }

  lemma PendingIsLive(p: Protocol)
    requires OnceOk(p) && p.ui.pending.Some?
    ensures Live(p, p.ui.pending.value.id)
  {}

  function FreshPage(now: int): Protocol {
    Protocol(Ui(Absent, None, "", false, false, None), now, 0, 0, [], [], [], [])
  }

  /** A run that gets there: ask, start a passkey verification, close, ask again. The second request is lost. */
  lemma LateVerificationIsReachable(now: int, io: Io, later: seq<Event>)
    ensures var p := Play(FreshPage(now), [RequirePlain(io), StartPasskey, Close, RequirePlain(io)]);
            && Initial(FreshPage(now))
            && p.flights == [Verifying(Passkey, Some(Request(0, Plain)))] && p.ui.pending == Some(Request(1, Plain))
            && Ran(Next(p, VerifyOk(0, io)), 0) && !Ran(Play(Next(p, VerifyOk(0, io)), later), 1)
  {
    var e := [RequirePlain(io), StartPasskey, Close, RequirePlain(io)];
    PlayFour(FreshPage(now), e[0], e[1], e[2], e[3]);
    FourSteps(now, io);
    hide Play, Next;
    LateVerificationLosesNewRequest(FreshPage(now), e, 0, io, later);
    var q := Next(Play(FreshPage(now), e), VerifyOk(0, io));
    assert q.executed[|q.executed| - 1].request.id == 0;
  }

  lemma FourSteps(now: int, io: Io)
    ensures var p := Next(Next(Next(Next(FreshPage(now), RequirePlain(io)), StartPasskey), Close), RequirePlain(io));
            && p.flights == [Verifying(Passkey, Some(Request(0, Plain)))] && p.ui.pending == Some(Request(1, Plain))
  {}

  lemma PlayFour(p: Protocol, a: Event, b: Event, c: Event, d: Event)
    ensures Play(p, [a, b, c, d]) == Next(Next(Next(Next(p, a), b), c), d)
  {
    hide Next;
    var none: seq<Event> := [];
    assert Play(p, none) == p;
    hide Play;
    var one := none + [a];
    var two := one + [b];
    var three := two + [c];
    PlayOn(p, none, a);
    PlayOn(p, one, b);
    PlayOn(p, two, c);
    PlayOn(p, three, d);
    assert three + [d] == [a, b, c, d];
  }

  lemma PlayOn(p: Protocol, events: seq<Event>, e: Event)
    ensures Play(p, events + [e]) == Next(Play(p, events), e)
  {
    assert (events + [e])[..|events|] == events;
  }
}
