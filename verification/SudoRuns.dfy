/**
 Every run of the step-up protocol: users, verifications and actions in any order, with a clock
 that never goes back and storage that may fail at any call.

 The modal's controls are modelled as rendered: a verification can be started only while a request
 is pending and neither handler is loading.
 */
module SudoRuns {
  import opened Common
  import opened Sudo

  /** A started action: the request behind it, and whether it is over. */
  datatype Task = Task(request: Request, done: bool)

  /** A verification handler: awaiting the server, then awaiting the action it started. */
  datatype Flight =
    | Verifying(m: Method, captured: Option<Request>)
    | Awaiting(m: Method, task: Option<nat>)
    | Ended

  /** An action that was started, when, and whether the stored window allowed it. */
  datatype Execution = Execution(request: Request, at: int, fromWindow: bool)

  datatype Protocol = Protocol(ui: Ui, now: int, nextRequest: nat, nextSubmission: nat, tasks: seq<Task>, flights: seq<Flight>,
                               verified: seq<int>, executed: seq<Execution>)

  datatype Io = Io(readFails: bool, writeFails: bool, removeFails: bool)

  datatype Event =
    | Tick(ms: nat)
    | RequirePlain(io: Io)                 // some component asks for step-up
    | SubmitPasskey(io: Io)                // handleRegisterPasskey asks for step-up
    | Close
    | TypeCode(code: string)
    | StartMfa
    | StartPasskey
    | VerifyOk(flight: nat, io: Io)
    | VerifyFail(flight: nat, message: string)
    | StrongAuthDemanded(task: nat, io: Io) // register() was refused: clear the window and ask again
    | TaskEnds(task: nat)
    | Settle(flight: nat, thrown: Option<string>)

  // An action starts.
  function Started(p: Protocol, r: Request, fromWindow: bool): Protocol {
    p.(executed := p.executed + [Execution(r, p.now, fromWindow)], tasks := p.tasks + [Task(r, false)])
  }

  function Ask(p: Protocol, action: Action, io: Io): Protocol {
    var r := Request(p.nextRequest, action);
    var (ui, runs) := Required(p.ui, r, p.now, io.readFails);
    var asked := p.(ui := ui, nextRequest := p.nextRequest + 1);
    if runs then Started(asked, r, true) else asked
  }

  // Whoever awaited a task that started another one in its place awaits that one.
  function Redirected(flights: seq<Flight>, from: nat, to: nat): (r: seq<Flight>)
    ensures |r| == |flights|
    ensures forall i :: 0 <= i < |flights| ==>
              r[i] == if flights[i].Awaiting? && flights[i].task == Some(from) then flights[i].(task := Some(to)) else flights[i]
  {
    seq(|flights|, i requires 0 <= i < |flights| =>
      if flights[i].Awaiting? && flights[i].task == Some(from) then flights[i].(task := Some(to)) else flights[i])
  }

  predicate CanStart(p: Protocol) {
    p.ui.pending.Some? && !p.ui.loading && !p.ui.passkeyLoading
  }

  // An event that cannot happen leaves the protocol as it is.
  function Next(p: Protocol, e: Event): Protocol {
    match e
    case Tick(ms) => p.(now := p.now + ms)
    case RequirePlain(io) => Ask(p, Plain, io)
    case SubmitPasskey(io) => Ask(p, Register(p.nextSubmission), io).(nextSubmission := p.nextSubmission + 1)
    case Close => p.(ui := Closed(p.ui))
    case TypeCode(code) => p.(ui := p.ui.(code := code))
    case StartMfa =>
      if !CanStart(p) then p
      else if CodeBlank(p.ui) then p.(ui := MfaStarted(p.ui))
      else p.(ui := MfaStarted(p.ui), flights := p.flights + [Verifying(Mfa, p.ui.pending)])
    case StartPasskey =>
      if !CanStart(p) then p
      else p.(ui := PasskeyStarted(p.ui), flights := p.flights + [Verifying(Passkey, p.ui.pending)])
    case VerifyOk(i, io) =>
      if i < |p.flights| && p.flights[i].Verifying? then
        var f := p.flights[i];
        var verified := p.(ui := Verified(p.ui, p.now, io.writeFails), verified := p.verified + [p.now],
                           flights := p.flights[i := Awaiting(f.m, if f.captured.Some? then Some(|p.tasks|) else None)]);
        if f.captured.Some? then Started(verified, f.captured.value, false) else verified
      else p
    case VerifyFail(i, message) =>
      if i < |p.flights| && p.flights[i].Verifying? then
        p.(ui := Settled(p.ui, p.flights[i].m, Some(message)), flights := p.flights[i := Ended])
      else p
    case StrongAuthDemanded(k, io) =>
      if k < |p.tasks| && !p.tasks[k].done && p.tasks[k].request.action.Register? then
        var cleared := p.(ui := Cleared(p.ui, io.removeFails), tasks := p.tasks[k := p.tasks[k].(done := true)]);
        var asked := Ask(cleared, p.tasks[k].request.action, io);
        if |asked.tasks| > |p.tasks| then asked.(flights := Redirected(p.flights, k, |p.tasks|)) else asked
      else p
    case TaskEnds(k) =>
      if k < |p.tasks| then p.(tasks := p.tasks[k := p.tasks[k].(done := true)]) else p
    case Settle(i, thrown) =>
      if i < |p.flights| && p.flights[i].Awaiting?
         && (p.flights[i].task.None? || (p.flights[i].task.value < |p.tasks| && p.tasks[p.flights[i].task.value].done)) then
        p.(ui := Settled(p.ui, p.flights[i].m, thrown), flights := p.flights[i := Ended])
      else p
  }

  function Play(p: Protocol, events: seq<Event>): Protocol {
    if events == [] then p else Next(Play(p, events[..|events| - 1]), events[|events| - 1])
  }

  // ----- The provider goes through its runs -----

  // One event on a provider: its methods do what the run does to its state.
  method Drive(provider: SudoProvider, p: Protocol, e: Event) returns (next: Protocol)
    requires provider.View() == p.ui
    modifies provider
    ensures next == Next(p, e) && provider.View() == next.ui
  {
    hide Redirected;
    next := p;
    match e {
      case Tick(ms) => next := p.(now := p.now + ms);
      case RequirePlain(io) => next := DriveAsk(provider, p, Plain, io);
      case SubmitPasskey(io) =>
        next := DriveAsk(provider, p, Register(p.nextSubmission), io);
        next := next.(nextSubmission := p.nextSubmission + 1);
      case Close =>
        provider.HandleClose();
        next := p.(ui := provider.View());
      case TypeCode(code) =>
        provider.code := code;
        next := p.(ui := provider.View());
      case StartMfa =>
        if CanStart(p) {
          var started, captured := provider.StartMfaSubmit();
          next := p.(ui := provider.View());
          if started { next := next.(flights := p.flights + [Verifying(Mfa, captured)]); }
        }
      case StartPasskey =>
        if CanStart(p) {
          var captured := provider.StartPasskeyStepUp();
          next := p.(ui := provider.View(), flights := p.flights + [Verifying(Passkey, captured)]);
        }
      case VerifyOk(i, io) =>
        if i < |p.flights| && p.flights[i].Verifying? { next := DriveVerified(provider, p, i, io); }
      case VerifyFail(i, message) =>
        if i < |p.flights| && p.flights[i].Verifying? {
          provider.Settle(p.flights[i].m, Some(message));
          next := p.(ui := provider.View(), flights := p.flights[i := Ended]);
        }
      case StrongAuthDemanded(k, io) =>
        if k < |p.tasks| && !p.tasks[k].done && p.tasks[k].request.action.Register? { next := DriveRetry(provider, p, k, io); }
      case TaskEnds(k) =>
        if k < |p.tasks| { next := p.(tasks := p.tasks[k := p.tasks[k].(done := true)]); }
      case Settle(i, thrown) =>
        if i < |p.flights| && p.flights[i].Awaiting?
           && (p.flights[i].task.None? || (p.flights[i].task.value < |p.tasks| && p.tasks[p.flights[i].task.value].done)) {
          provider.Settle(p.flights[i].m, thrown);
          next := p.(ui := provider.View(), flights := p.flights[i := Ended]);
        }
    }
  }

  method DriveAsk(provider: SudoProvider, p: Protocol, action: Action, io: Io) returns (next: Protocol)
    requires provider.View() == p.ui
    modifies provider
    ensures next == Ask(p, action, io) && provider.View() == next.ui
  {
    var r := Request(p.nextRequest, action);
    var runs := provider.RequireSudo(r, p.now, io.readFails);
    next := p.(ui := provider.View(), nextRequest := p.nextRequest + 1);
    if runs { next := Started(next, r, true); }
  }

  method DriveVerified(provider: SudoProvider, p: Protocol, i: nat, io: Io) returns (next: Protocol)
    requires provider.View() == p.ui && i < |p.flights| && p.flights[i].Verifying?
    modifies provider
    ensures next == Next(p, VerifyOk(i, io)) && provider.View() == next.ui
  {
    var f := p.flights[i];
    var runs := provider.FinishVerification(f.captured, p.now, io.writeFails);
    next := p.(ui := provider.View(), verified := p.verified + [p.now],
               flights := p.flights[i := Awaiting(f.m, if runs.Some? then Some(|p.tasks|) else None)]);
    if runs.Some? { next := Started(next, runs.value, false); }
  }

  // doRegister's catch block.
  method DriveRetry(provider: SudoProvider, p: Protocol, k: nat, io: Io) returns (next: Protocol)
    requires provider.View() == p.ui
    requires k < |p.tasks| && !p.tasks[k].done && p.tasks[k].request.action.Register?
    modifies provider
    ensures next == Next(p, StrongAuthDemanded(k, io)) && provider.View() == next.ui
  {
    provider.ClearSudo(io.removeFails);
    var cleared := p.(ui := provider.View(), tasks := p.tasks[k := p.tasks[k].(done := true)]);
    next := DriveAsk(provider, cleared, p.tasks[k].request.action, io);
    if |next.tasks| > |p.tasks| { next := next.(flights := Redirected(p.flights, k, |p.tasks|)); }
  }

  /** The provider goes through any list of events as the run says. */
  method DriveAll(provider: SudoProvider, p: Protocol, events: seq<Event>) returns (last: Protocol)
    requires provider.View() == p.ui
    modifies provider
    ensures last == Play(p, events) && provider.View() == last.ui
  {
    hide Next;
    last := p;
    assert events[..0] == [];
    for i := 0 to |events|
      invariant last == Play(p, events[..i]) && provider.View() == last.ui
    {
      assert events[..i + 1][..i] == events[..i];
      last := Drive(provider, last, events[i]);
    }
    assert events[..|events|] == events;
  }

  /** A fresh page; session storage is empty, unreadable, or holds the deadline of an earlier success. */
  ghost predicate Initial(p: Protocol) {
    && p.ui == Ui(p.ui.storage, None, "", false, false, None)
    && p.tasks == [] && p.flights == [] && p.executed == [] && p.nextRequest == p.nextSubmission == 0
    && WindowOk(p)
  }

  // ----- Every action is covered by a recent verification -----

  ghost predicate WindowOk(p: Protocol) {
    p.ui.storage.Until? ==>
      exists j :: 0 <= j < |p.verified| && p.verified[j] <= p.now && p.ui.storage.deadline == p.verified[j] + GRACE_PERIOD_MS
  }

  ghost predicate Covered(e: Execution, verified: seq<int>) {
    exists j :: 0 <= j < |verified| && verified[j] <= e.at < verified[j] + GRACE_PERIOD_MS
  }

  ghost predicate AllCovered(p: Protocol) {
    WindowOk(p) && forall i :: 0 <= i < |p.executed| ==> Covered(p.executed[i], p.verified)
  }

  lemma CoveredStays(e: Execution, verified: seq<int>, more: seq<int>)
    requires Covered(e, verified)
    ensures Covered(e, verified + more)
  {
    var j :| 0 <= j < |verified| && verified[j] <= e.at < verified[j] + GRACE_PERIOD_MS;
    assert (verified + more)[j] == verified[j];
  }

  lemma AskKeepsCovered(p: Protocol, action: Action, io: Io)
    requires AllCovered(p)
    ensures AllCovered(Ask(p, action, io))
  {
    if Active(p.ui.storage, p.now, io.readFails) {
      var j :| 0 <= j < |p.verified| && p.verified[j] <= p.now && p.ui.storage.deadline == p.verified[j] + GRACE_PERIOD_MS;
      assert Covered(Execution(Request(p.nextRequest, action), p.now, true), p.verified);
    }
  }

  lemma NextKeepsCovered(p: Protocol, e: Event)
    requires AllCovered(p)
    ensures AllCovered(Next(p, e))
  {
    match e
    case Tick(ms) =>
    case RequirePlain(io) => AskKeepsCovered(p, Plain, io);
    case SubmitPasskey(io) => AskKeepsCovered(p, Register(p.nextSubmission), io);
    case VerifyOk(i, io) =>
      if i < |p.flights| && p.flights[i].Verifying? {
        VerifyOkKeepsCovered(p, i, io);
      }
    case StrongAuthDemanded(k, io) =>
      if k < |p.tasks| && !p.tasks[k].done && p.tasks[k].request.action.Register? {
        var cleared := p.(ui := Cleared(p.ui, io.removeFails), tasks := p.tasks[k := p.tasks[k].(done := true)]);
        AskKeepsCovered(cleared, p.tasks[k].request.action, io);
      }
    case _ =>
  }

  lemma VerifyOkKeepsCovered(p: Protocol, i: nat, io: Io)
    requires AllCovered(p) && i < |p.flights| && p.flights[i].Verifying?
    ensures AllCovered(Next(p, VerifyOk(i, io)))
  {
    var p' := Next(p, VerifyOk(i, io));
    assert p'.verified[|p.verified|] == p.now;
    if p'.ui.storage == p.ui.storage && p.ui.storage.Until? {
      var j :| 0 <= j < |p.verified| && p.verified[j] <= p.now && p.ui.storage.deadline == p.verified[j] + GRACE_PERIOD_MS;
      assert p'.verified[j] == p.verified[j];
    }
    forall n | 0 <= n < |p'.executed| ensures Covered(p'.executed[n], p'.verified) {
      if n < |p.executed| {
        CoveredStays(p.executed[n], p.verified, [p.now]);
      }
    }
  }

  /** In every run each action starts within five minutes behind a successful verification, whatever storage does. */
  lemma {:induction false} EveryActionIsCovered(p: Protocol, events: seq<Event>)
    requires Initial(p)
    ensures AllCovered(Play(p, events))
  {
    if events != [] {
      EveryActionIsCovered(p, events[..|events| - 1]);
      NextKeepsCovered(Play(p, events[..|events| - 1]), events[|events| - 1]);
    }
  }

  // ----- No request runs twice -----

  predicate Ran(p: Protocol, id: nat) {
    exists i :: 0 <= i < |p.executed| && p.executed[i].request.id == id
  }

  // A request that may still run.
  predicate Open(p: Protocol, r: Option<Request>) {
    r.Some? ==> r.value.id < p.nextRequest && !Ran(p, r.value.id)
  }

  ghost predicate OnceOk(p: Protocol) {
    && (forall i, j :: 0 <= i < j < |p.executed| ==> p.executed[i].request.id != p.executed[j].request.id)
    && (forall i :: 0 <= i < |p.executed| ==> p.executed[i].request.id < p.nextRequest)
    && Open(p, p.ui.pending)
    && (forall i :: 0 <= i < |p.flights| && p.flights[i].Verifying? ==> Open(p, p.flights[i].captured))
    && (forall i :: 0 <= i < |p.flights| - 1 ==> p.flights[i] == Ended)
    && (p.flights != [] && p.flights[|p.flights| - 1] != Ended ==>
          if p.flights[|p.flights| - 1].m == Mfa then p.ui.loading else p.ui.passkeyLoading)
  }

  lemma AskKeepsOnce(p: Protocol, action: Action, io: Io)
    requires OnceOk(p)
    ensures OnceOk(Ask(p, action, io))
  {
    hide Active;
    var p' := Ask(p, action, io);
    assert !Ran(p, p.nextRequest);
    if Active(p.ui.storage, p.now, io.readFails) {
      RanOn(p, p', Execution(Request(p.nextRequest, action), p.now, true));
    } else {
      SameRan(p, p');
    }
    hide Ran;
  }

  lemma RanOn(p: Protocol, q: Protocol, e: Execution)
    requires q.executed == p.executed + [e]
    ensures forall id :: Ran(q, id) <==> Ran(p, id) || e.request.id == id
  {
    assert q.executed[|p.executed|] == e;
    forall id | Ran(p, id) ensures Ran(q, id) {
      var i :| 0 <= i < |p.executed| && p.executed[i].request.id == id;
      assert q.executed[i] == p.executed[i];
    }
  }

  lemma StartKeepsOnce(p: Protocol, e: Event)
    requires OnceOk(p) && (e == StartMfa || e == StartPasskey)
    ensures OnceOk(Next(p, e))
  {
    hide CodeBlank;
    SameRan(p, Next(p, e));
    hide Ran;
    assert CanStart(p) ==> p.flights == [] || p.flights[|p.flights| - 1] == Ended;
  }

  lemma VerifyOkKeepsOnce(p: Protocol, i: nat, io: Io)
    requires OnceOk(p) && i < |p.flights| && p.flights[i].Verifying?
    ensures OnceOk(Next(p, VerifyOk(i, io)))
  {
    var p' := Next(p, VerifyOk(i, io));
    assert i == |p.flights| - 1;
    assert forall j :: 0 <= j < |p'.flights| ==> !p'.flights[j].Verifying?;
    var captured := p.flights[i].captured;
    if captured.Some? {
      forall n | 0 <= n < |p.executed| ensures p.executed[n].request.id != captured.value.id {}
    }
  }

  lemma SettledKeepsOnce(p: Protocol, i: nat, thrown: Option<string>)
    requires OnceOk(p) && i < |p.flights| && p.flights[i] != Ended
    ensures OnceOk(p.(ui := Settled(p.ui, p.flights[i].m, thrown), flights := p.flights[i := Ended]))
  {
    var p' := p.(ui := Settled(p.ui, p.flights[i].m, thrown), flights := p.flights[i := Ended]);
    assert i == |p.flights| - 1;
    assert forall id :: Ran(p', id) <==> Ran(p, id);
  }

  lemma StrongAuthKeepsOnce(p: Protocol, k: nat, io: Io)
    requires OnceOk(p) && k < |p.tasks| && !p.tasks[k].done && p.tasks[k].request.action.Register?
    ensures OnceOk(Next(p, StrongAuthDemanded(k, io)))
  {
    var cleared := p.(ui := Cleared(p.ui, io.removeFails), tasks := p.tasks[k := p.tasks[k].(done := true)]);
    SameRan(p, cleared);
    AskKeepsOnce(cleared, p.tasks[k].request.action, io);
    hide OnceOk, Cleared;
    RedirectKeepsOnce(Ask(cleared, p.tasks[k].request.action, io), k, |p.tasks|);
  }

  lemma RedirectKeepsOnce(p: Protocol, from: nat, to: nat)
    requires OnceOk(p)
    ensures OnceOk(p.(flights := Redirected(p.flights, from, to)))
  {
    SameRan(p, p.(flights := Redirected(p.flights, from, to)));
  }

  lemma SubmitKeepsOnce(p: Protocol, io: Io)
    requires OnceOk(p)
    ensures OnceOk(Next(p, SubmitPasskey(io)))
  {
    AskKeepsOnce(p, Register(p.nextSubmission), io);
    hide Ask;
    SameRan(Ask(p, Register(p.nextSubmission), io), Next(p, SubmitPasskey(io)));
  }

  lemma IdleKeepsOnce(p: Protocol, e: Event)
    requires OnceOk(p) && (e.Tick? || e.Close? || e.TypeCode? || e.TaskEnds?)
    ensures OnceOk(Next(p, e))
  {
    SameRan(p, Next(p, e));
    hide Ran, Ask;
  }

  lemma NextKeepsOnce(p: Protocol, e: Event)
    requires OnceOk(p)
    ensures OnceOk(Next(p, e))
  {
    hide Ask, CodeBlank, Ran;
    match e
    case RequirePlain(io) => AskKeepsOnce(p, Plain, io);
    case SubmitPasskey(io) => SubmitKeepsOnce(p, io);
    case StartMfa => StartKeepsOnce(p, e);
    case StartPasskey => StartKeepsOnce(p, e);
    case VerifyOk(i, io) =>
      if i < |p.flights| && p.flights[i].Verifying? {
        VerifyOkKeepsOnce(p, i, io);
      }
    case VerifyFail(i, message) =>
      if i < |p.flights| && p.flights[i].Verifying? {
        SettledKeepsOnce(p, i, Some(message));
      }
    case StrongAuthDemanded(k, io) =>
      if k < |p.tasks| && !p.tasks[k].done && p.tasks[k].request.action.Register? {
        StrongAuthKeepsOnce(p, k, io);
      }
    case Settle(i, thrown) =>
      if i < |p.flights| && p.flights[i].Awaiting? {
        SettledKeepsOnce(p, i, thrown);
      }
    case _ => IdleKeepsOnce(p, e);
  }

  lemma SameRan(p: Protocol, q: Protocol)
    requires p.executed == q.executed
    ensures forall id :: Ran(p, id) <==> Ran(q, id)
  {}

  /** No request's action runs twice, whatever closes, new requests and late verifications come in between. */
  lemma {:induction false} NoRequestRunsTwice(p: Protocol, events: seq<Event>)
    requires Initial(p)
    ensures OnceOk(Play(p, events))
  {
    if events != [] {
      NoRequestRunsTwice(p, events[..|events| - 1]);
      NextKeepsOnce(Play(p, events[..|events| - 1]), events[|events| - 1]);
    }
  }
}
