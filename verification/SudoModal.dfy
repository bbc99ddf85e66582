/** What the step-up modal shows and remembers, event by event. */
module SudoModal {
  import opened Common
  import opened Text
  import opened Sudo
  import opened SudoRuns

  ghost predicate Blank(code: string) {
    forall i :: 0 <= i < |code| ==> JsSpace(code[i])
  }

  /** The window is open before a readable deadline. */
  ghost predicate WindowOpen(p: Protocol, readFails: bool) {
    !readFails && exists deadline :: p.ui.storage == Until(deadline) && p.now < deadline
  }

  /** With the window open a request runs at once and the modal stays as it is; otherwise the modal opens afresh for it. */
  lemma RequestOpensModal(p: Protocol, io: Io)
    ensures var q := Next(p, RequirePlain(io));
            if WindowOpen(p, io.readFails) then
              q.ui == p.ui && q.executed == p.executed + [Execution(Request(p.nextRequest, Plain), p.now, true)]
            else
              && q.executed == p.executed
              && q.ui == Ui(p.ui.storage, Some(Request(p.nextRequest, Plain)), "", p.ui.loading, p.ui.passkeyLoading, None)
  {}

  /** Closing forgets the request, the code and the error, and nothing else; a verification under way goes on. */
  lemma CloseForgets(p: Protocol)
    ensures Next(p, Close) == p.(ui := Ui(p.ui.storage, None, "", p.ui.loading, p.ui.passkeyLoading, None))
  {}

  /** A code of white space is refused with a notice; any other one starts a verification for the pending request. */
  lemma SubmitStartsVerification(p: Protocol)
    requires p.ui.pending.Some? && !p.ui.loading && !p.ui.passkeyLoading
    ensures var q := Next(p, StartMfa);
            if Blank(p.ui.code) then q == p.(ui := p.ui.(error := Some("login.mfaCodeRequired")))
            else q == p.(ui := p.ui.(loading := true, error := None), flights := p.flights + [Verifying(Mfa, p.ui.pending)])
    ensures Next(p, StartPasskey)
            == p.(ui := p.ui.(passkeyLoading := true, error := None), flights := p.flights + [Verifying(Passkey, p.ui.pending)])
  {
    hide Trim, JsSpace;
    TrimEmptyIff(JsSpace, p.ui.code);
  }

  /** A success whose deadline can be stored opens the window for five minutes and not a moment longer. */
  lemma GraceIsFiveMinutes(p: Protocol, i: nat, io: Io, ms: nat, later: Io)
    requires i < |p.flights| && p.flights[i].Verifying? && !io.writeFails
    ensures var q := Next(Next(p, VerifyOk(i, io)), Tick(ms));
            && q.ui.pending == None
            && (WindowOpen(q, later.readFails) <==> !later.readFails && ms < 300000)
            && (|Next(q, RequirePlain(later)).executed| > |q.executed| <==> !later.readFails && ms < 300000)
  {
    var q := Next(Next(p, VerifyOk(i, io)), Tick(ms));
    assert q.ui.storage == Until(p.now + 300000) && q.now == p.now + ms;
    RequestOpensModal(q, later);
  }

  /** A success whose deadline cannot be stored leaves the window as it was, but its action still runs. */
  lemma LostDeadline(p: Protocol, i: nat, io: Io)
    requires i < |p.flights| && p.flights[i].Verifying? && io.writeFails
    ensures var q := Next(p, VerifyOk(i, io));
            && q.ui.storage == p.ui.storage && q.ui.pending == None && q.verified == p.verified + [p.now]
            && q.executed == if p.flights[i].captured.Some? then p.executed + [Execution(p.flights[i].captured.value, p.now, false)]
                             else p.executed
  {}

  /** A refused attempt is over: it is not refused a second time, and the window it relied on is gone unless it cannot be cleared. */
  lemma RefusalIsFinal(p: Protocol, k: nat, io: Io)
    requires k < |p.tasks| && !p.tasks[k].done && p.tasks[k].request.action.Register?
    ensures var q := Next(p, StrongAuthDemanded(k, io));
            && k < |q.tasks| && q.tasks[k].done && q.tasks[k].request == p.tasks[k].request
            && Next(q, StrongAuthDemanded(k, io)) == q
            && q.ui.storage == if io.removeFails then p.ui.storage else Absent
  {
    hide Active;
  }

  /** Who awaited a refused attempt awaits the one that follows it at once, and nothing new if the request has to wait. */
  lemma RefusalIsAwaited(p: Protocol, k: nat, io: Io)
    requires k < |p.tasks| && !p.tasks[k].done && p.tasks[k].request.action.Register?
    ensures var q := Next(p, StrongAuthDemanded(k, io));
            var again := io.removeFails && WindowOpen(p, io.readFails);
            && |q.tasks| == |p.tasks| + (if again then 1 else 0)
            && (again ==> q.tasks[|p.tasks|] == Task(Request(p.nextRequest, p.tasks[k].request.action), false))
            && (!again ==> q.flights == p.flights && q.ui.pending == Some(Request(p.nextRequest, p.tasks[k].request.action)))
            && (again ==> |q.flights| == |p.flights| && forall i :: 0 <= i < |p.flights| ==>
                  if p.flights[i].Awaiting? && p.flights[i].task == Some(k) then q.flights[i] == Awaiting(p.flights[i].m, Some(|p.tasks|))
                  else q.flights[i] == p.flights[i])
  {}

  /** When a handler is over, its own flag is cleared, its error shown if it has one, and the rest is kept. */
  lemma HandlerEnds(p: Protocol, i: nat, thrown: Option<string>)
    requires i < |p.flights| && p.flights[i].Awaiting? && p.flights[i].task.None?
    ensures var q := Next(p, Settle(i, thrown));
            && q == p.(ui := q.ui, flights := p.flights[i := Ended])
            && q.ui == Ui(p.ui.storage, p.ui.pending, p.ui.code, p.ui.loading && p.flights[i].m != Mfa,
                          p.ui.passkeyLoading && p.flights[i].m != Passkey, if thrown.Some? then thrown else p.ui.error)
  {}
}
