/** The busy flags of the step-up modal: each stands for its own verification handler. */
module SudoFlags {
  import opened Common
  import opened Sudo
  import opened SudoRuns

  ghost predicate UnderWay(p: Protocol, m: Method) {
    exists i :: 0 <= i < |p.flights| && p.flights[i] != Ended && p.flights[i].m == m
  }

  ghost predicate FlagsExact(p: Protocol) {
    && (p.ui.loading <==> UnderWay(p, Mfa))
    && (p.ui.passkeyLoading <==> UnderWay(p, Passkey))
  }

  lemma SameWay(p: Protocol, q: Protocol)
    requires |p.flights| == |q.flights|
    requires forall i :: 0 <= i < |p.flights| ==> (p.flights[i] == Ended <==> q.flights[i] == Ended)
    requires forall i :: 0 <= i < |p.flights| && p.flights[i] != Ended ==> p.flights[i].m == q.flights[i].m
    ensures forall m :: UnderWay(p, m) <==> UnderWay(q, m)
  {
    forall m | UnderWay(p, m) || UnderWay(q, m) ensures UnderWay(p, m) && UnderWay(q, m) {
      var i :| 0 <= i < |p.flights| && p.flights[i] != Ended && (p.flights[i].m == m || q.flights[i].m == m);
      assert q.flights[i] != Ended;
    }
  }

  lemma FlightStarts(p: Protocol, q: Protocol, f: Flight)
    requires q.flights == p.flights + [f] && f != Ended
    ensures forall m :: UnderWay(q, m) <==> UnderWay(p, m) || f.m == m
  {
    assert q.flights[|p.flights|] == f;
    forall m | UnderWay(p, m) ensures UnderWay(q, m) {
      var i :| 0 <= i < |p.flights| && p.flights[i] != Ended && p.flights[i].m == m;
      assert q.flights[i] == p.flights[i];
    }
  }

  // The one handler under way ends.
  lemma FlightEnds(p: Protocol, q: Protocol, i: nat)
    requires OnceOk(p) && i < |p.flights| && p.flights[i] != Ended && q.flights == p.flights[i := Ended]
    ensures forall m :: !UnderWay(q, m)
    ensures forall m :: UnderWay(p, m) <==> p.flights[i].m == m
  {
    assert i == |p.flights| - 1;
    assert forall j :: 0 <= j < |q.flights| ==> q.flights[j] == Ended;
  }

  lemma EndKeepsFlags(p: Protocol, i: nat, thrown: Option<string>)
    requires OnceOk(p) && FlagsExact(p) && i < |p.flights| && p.flights[i] != Ended
    ensures FlagsExact(p.(ui := Settled(p.ui, p.flights[i].m, thrown), flights := p.flights[i := Ended]))
  {
    hide OnceOk, UnderWay;
    FlightEnds(p, p.(ui := Settled(p.ui, p.flights[i].m, thrown), flights := p.flights[i := Ended]), i);
    assert p.flights[i].m == Mfa || p.flights[i].m == Passkey;
  }

  lemma StartKeepsFlags(p: Protocol, e: Event)
    requires FlagsExact(p) && (e.StartMfa? || e.StartPasskey?)
    ensures FlagsExact(Next(p, e))
  {
    hide UnderWay, CodeBlank;
    var q := Next(p, e);
    if q.flights == p.flights {
      SameWay(p, q);
    } else {
      FlightStarts(p, q, q.flights[|p.flights|]);
    }
  }

  lemma VerifyKeepsFlags(p: Protocol, i: nat, io: Io)
    requires FlagsExact(p)
    ensures FlagsExact(Next(p, VerifyOk(i, io)))
  {
    var q := Next(p, VerifyOk(i, io));
    SameWay(p, q);
    hide UnderWay;
  }

  lemma AskKeepsFlags(p: Protocol, e: Event)
    requires FlagsExact(p) && (e.RequirePlain? || e.SubmitPasskey? || e.StrongAuthDemanded?)
    ensures FlagsExact(Next(p, e))
  {
    hide Active;
    var q := Next(p, e);
    assert q.ui.loading == p.ui.loading && q.ui.passkeyLoading == p.ui.passkeyLoading;
    SameWay(p, q);
    hide UnderWay;
  }

  lemma NextKeepsFlags(p: Protocol, e: Event)
    requires OnceOk(p) && FlagsExact(p)
    ensures FlagsExact(Next(p, e))
  {
    hide OnceOk, UnderWay, Ask, CodeBlank, Active;
    match e
    case StartMfa => StartKeepsFlags(p, e);
    case StartPasskey => StartKeepsFlags(p, e);
    case VerifyOk(i, io) => VerifyKeepsFlags(p, i, io);
    case VerifyFail(i, message) =>
      if i < |p.flights| && p.flights[i].Verifying? { EndKeepsFlags(p, i, Some(message)); }
    case Settle(i, thrown) =>
      if i < |p.flights| && p.flights[i].Awaiting? { EndKeepsFlags(p, i, thrown); }
    case RequirePlain(_) => AskKeepsFlags(p, e);
    case SubmitPasskey(_) => AskKeepsFlags(p, e);
    case StrongAuthDemanded(_, _) => AskKeepsFlags(p, e);
    case _ => SameWay(p, Next(p, e));
  }

  /** In every run each flag is set exactly while its handler is under way. */
  lemma {:induction false} FlagsAreExact(p: Protocol, events: seq<Event>)
    requires Initial(p)
    ensures FlagsExact(Play(p, events))
  {
    hide Next, OnceOk;
    if events != [] {
      FlagsAreExact(p, events[..|events| - 1]);
      NoRequestRunsTwice(p, events[..|events| - 1]);
      NextKeepsFlags(Play(p, events[..|events| - 1]), events[|events| - 1]);
    }
  }

  /** So when no handler is under way, a pending request can always be verified, and a failed attempt is shown and can be repeated. */
  lemma FailureCanBeRepeated(p: Protocol, events: seq<Event>, i: nat, message: string)
    requires Initial(p)
    requires var q := Play(p, events); i < |q.flights| && q.flights[i].Verifying?
    ensures var q := Next(Play(p, events), VerifyFail(i, message));
            && q.ui.error == Some(message) && q.ui.pending == Play(p, events).ui.pending
            && (q.ui.pending.Some? ==> CanStart(q))
  {
    hide OnceOk, UnderWay;
    var p' := Play(p, events);
    FlagsAreExact(p, events);
    NoRequestRunsTwice(p, events);
    EndKeepsFlags(p', i, Some(message));
    FlightEnds(p', Next(p', VerifyFail(i, message)), i);
  }
}
