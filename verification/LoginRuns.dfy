/**
 Every run of the sign-in page: typing, submitting, answers in any order, and a session that may
 change at any moment. Handlers keep what they captured when they were submitted.

 Which form can be submitted follows what LoginSurface.tsx renders. Whether a busy form still
 accepts submissions is a parameter; only `BusyFlagsAreExact` needs that it does not.
 */
module LoginRuns {
  import opened Common
  import opened Text
  import opened Login

  datatype Stage = Asking(request: Request) | Redirecting(request: Request)

  /** What happened, in order; the number of a request is the place where it was sent, under the session of that moment. */
  datatype Happening =
    | Sent(request: Request, session: Session)
    | Settled(id: nat, answer: Answer)
    | Redirected(id: nat)

  datatype State = State(ui: Ui, session: Session, flights: map<nat, Stage>, log: seq<Happening>)

  datatype Event =
    | TypeUsername(text: string)
    | TypePassword(text: string)
    | TypeCode(text: string)
    | SessionBecomes(session: Session)
    | SubmitPassword
    | SubmitCode
    | PressPasskey
    | PressBack
    | Arrives(id: nat, answer: Answer)

  datatype Form = SudoForm | PasswordForm | CodeForm

  function Shown(page: Page, s: State): Form {
    if SudoMode(page, s.session) then SudoForm else if !s.ui.mfaRequired then PasswordForm else CodeForm
  }

  predicate Enabled(page: Page, s: State, e: Event) {
    match e
    case SubmitPassword => Shown(page, s) == PasswordForm && !(page.busyBlocks && s.ui.loading)
    case SubmitCode => Shown(page, s) != PasswordForm && !(page.busyBlocks && s.ui.loading)
    case PressPasskey => Shown(page, s) != CodeForm && !(page.busyBlocks && s.ui.passkeyLoading)
    case PressBack => Shown(page, s) == CodeForm && !(page.busyBlocks && s.ui.loading)
    case Arrives(id, _) => id in s.flights
    case _ => true
  }

  function Send(page: Page, s: State, begun: (Ui, Option<Request>)): State {
    var (ui, request) := begun;
    if request.None? then s.(ui := ui)
    else s.(ui := ui, flights := s.flights[|s.log| := Asking(request.value)],
            log := s.log + [Sent(request.value, s.session)])
  }

  function Arrive(page: Page, s: State, id: nat, a: Answer): State
    requires id in s.flights
  {
    match s.flights[id]
    case Redirecting(r) => s.(ui := RedirectSettled(s.ui, r, a), flights := s.flights - {id})
    case Asking(r) =>
      var (ui, redirects) := Answered(page, s.ui, r, a);
      if !redirects then s.(ui := ui, flights := s.flights - {id}, log := s.log + [Settled(id, a)])
      else if page.direct then
        s.(ui := RedirectSettled(ui, r, Resolved(None)), flights := s.flights - {id}, log := s.log + [Settled(id, a), Redirected(id)])
      else s.(ui := ui, flights := s.flights[id := Redirecting(r)], log := s.log + [Settled(id, a), Redirected(id)])
  }

  // An event that cannot happen leaves everything as it is.
  function Next(page: Page, s: State, e: Event): State {
    if !Enabled(page, s, e) then s else
    match e
    case TypeUsername(text) => s.(ui := s.ui.(username := text))
    case TypePassword(text) => s.(ui := s.ui.(password := text))
    case TypeCode(text) => s.(ui := s.ui.(mfaCode := text))
    case SessionBecomes(session) => s.(session := session)
    case SubmitPassword => Send(page, s, PasswordBegun(s.ui))
    case SubmitCode => Send(page, s, CodeBegun(s.ui, SudoMode(page, s.session)))
    case PressPasskey => Send(page, s, PasskeyBegun(s.ui, SudoMode(page, s.session)))
    case PressBack => s.(ui := BackToLogin(s.ui))
    case Arrives(id, a) => Arrive(page, s, id, a)
  }

  function Opened(session: Session): State {
    State(Ui("", "", None, false, false, false, "", ""), session, map[], [])
  }

  function Run(page: Page, session: Session, events: seq<Event>): State {
    if events == [] then Opened(session)
    else Next(page, Run(page, session, events[..|events| - 1]), events[|events| - 1])
  }

  // ----- The page goes through its runs -----

  method DriveSend(view: LoginPage, s: State, call: Option<Request>, ghost begun: (Ui, Option<Request>)) returns (next: State)
    requires begun == (view.View(), call)
    ensures next == Send(view.page, s, begun)
  {
    next := s.(ui := view.View());
    if call.Some? {
      next := next.(flights := s.flights[|s.log| := Asking(call.value)],
                    log := s.log + [Sent(call.value, s.session)]);
    }
  }

  method DriveArrival(view: LoginPage, s: State, id: nat, a: Answer) returns (next: State)
    requires view.View() == s.ui && id in s.flights
    modifies view
    ensures next == Arrive(view.page, s, id, a) && view.View() == next.ui
  {
    match s.flights[id] {
      case Redirecting(r) =>
        view.ResumeAfterRedirect(r, a);
        next := s.(ui := view.View(), flights := s.flights - {id});
      case Asking(r) =>
        var redirects := view.Resume(r, a);
        if !redirects {
          next := s.(ui := view.View(), flights := s.flights - {id}, log := s.log + [Settled(id, a)]);
        } else {
          var log := s.log + [Settled(id, a), Redirected(id)];
          if view.page.direct {
            view.ResumeAfterRedirect(r, Resolved(None));
            next := s.(ui := view.View(), flights := s.flights - {id}, log := log);
          } else {
            next := s.(ui := view.View(), flights := s.flights[id := Redirecting(r)], log := log);
          }
        }
    }
  }

  method Drive(view: LoginPage, s: State, e: Event) returns (next: State)
    requires view.View() == s.ui
    modifies view
    ensures next == Next(view.page, s, e) && view.View() == next.ui
  {
    hide MatchesHint, Arrive;
    if !Enabled(view.page, s, e) { return s; }
    var sudo := SudoMode(view.page, s.session);
    match e {
      case TypeUsername(text) =>
        view.username := text;
        next := s.(ui := view.View());
      case TypePassword(text) =>
        view.password := text;
        next := s.(ui := view.View());
      case TypeCode(text) =>
        view.mfaCode := text;
        next := s.(ui := view.View());
      case SessionBecomes(session) => next := s.(session := session);
      case SubmitPassword =>
        var call := view.HandleLogin();
        next := DriveSend(view, s, call, PasswordBegun(s.ui));
      case SubmitCode =>
        var call := view.HandleMfaVerify(sudo);
        next := DriveSend(view, s, call, CodeBegun(s.ui, sudo));
      case PressPasskey =>
        var call := view.HandlePasskeyLogin(sudo);
        next := DriveSend(view, s, call, PasskeyBegun(s.ui, sudo));
      case PressBack =>
        view.HandleBackToLogin();
        next := s.(ui := view.View());
      case Arrives(id, a) => next := DriveArrival(view, s, id, a);
    }
  }

  /** The page goes through any list of events as the run says, and its redirects are earned. */
  method DriveAll(view: LoginPage, session: Session, events: seq<Event>) returns (last: State)
    requires view.View() == Opened(session).ui
    modifies view
    ensures last == Run(view.page, session, events) && view.View() == last.ui
    ensures Earned(view.page, last.log)
  {
    hide Next, Earned;
    last := Opened(session);
    assert events[..0] == [];
    for i := 0 to |events|
      invariant last == Run(view.page, session, events[..i]) && view.View() == last.ui
    {
      assert events[..i + 1][..i] == events[..i];
      last := Drive(view, last, events[i]);
    }
    assert events[..|events|] == events;
    RunIsEarned(view.page, session, events);
  }

  // ----- Redirects -----

  predicate SentAt(log: seq<Happening>, id: nat, r: Request) {
    id < |log| && log[id].Sent? && log[id].request == r
  }

  predicate Succeeded(log: seq<Happening>, id: nat) {
    exists j :: 0 <= j < |log| && log[j].Settled? && log[j].id == id && log[j].answer.Resolved?
  }

  /** Every redirect was earned, before it, by an answer to a request that earns one, and by no other redirect. */
  ghost predicate Earned(page: Page, log: seq<Happening>) {
    forall i :: 0 <= i < |log| && log[i].Redirected? ==> EarnedAt(page, log, i)
  }

  ghost predicate EarnedAt(page: Page, log: seq<Happening>, i: nat)
    requires i < |log| && log[i].Redirected?
  {
    var id := log[i].id;
    && id < i && log[id].Sent? && Succeeded(log[..i], id)
    && (log[id].request.Password? ==> !page.strong && log[i - 1] == Settled(id, Resolved(None)))
    && (forall k :: 0 <= k < |log| && k != i && log[k].Redirected? ==> log[k].id != id)
  }

  ghost predicate FlightsSent(s: State) {
    forall id :: id in s.flights ==>
      && SentAt(s.log, id, s.flights[id].request)
      && (s.flights[id].Asking? ==> forall k :: 0 <= k < |s.log| && s.log[k].Redirected? ==> s.log[k].id != id)
  }

  lemma RedirectAppended(page: Page, log: seq<Happening>, id: nat, a: Answer)
    requires Earned(page, log) && id < |log| && log[id].Sent? && a.Resolved?
    requires log[id].request.Password? ==> !page.strong && a == Resolved(None)
    requires forall k :: 0 <= k < |log| && log[k].Redirected? ==> log[k].id != id
    ensures Earned(page, log + [Settled(id, a), Redirected(id)])
  {
    hide Succeeded;
    var after := log + [Settled(id, a), Redirected(id)];
    assert after[..|log| + 1][|log|] == Settled(id, a);
    SucceededAt(after[..|log| + 1], |log|);
    forall i | 0 <= i < |after| && after[i].Redirected? ensures EarnedAt(page, after, i) {
      if i < |log| {
        assert EarnedAt(page, log, i) && after[..i] == log[..i];
      }
    }
  }

  lemma SucceededAt(log: seq<Happening>, j: nat)
    requires j < |log| && log[j].Settled? && log[j].answer.Resolved?
    ensures Succeeded(log, log[j].id)
  {}

  lemma OtherAppended(page: Page, log: seq<Happening>, h: Happening)
    requires Earned(page, log) && !h.Redirected?
    ensures Earned(page, log + [h])
  {
    hide Succeeded;
    var after := log + [h];
    forall i | 0 <= i < |after| && after[i].Redirected? ensures EarnedAt(page, after, i) {
      assert i < |log| && EarnedAt(page, log, i) && after[..i] == log[..i];
    }
  }

  lemma NextKeepsEarned(page: Page, s: State, e: Event)
    requires Earned(page, s.log) && FlightsSent(s)
    ensures Earned(page, Next(page, s, e).log) && FlightsSent(Next(page, s, e))
  {
    hide Earned, SudoMode, Shown;
    var t := Next(page, s, e);
    if Enabled(page, s, e) {
      match e
      case SubmitPassword =>
        SendKeepsEarned(page, s, PasswordBegun(s.ui));
      case SubmitCode =>
        SendKeepsEarned(page, s, CodeBegun(s.ui, SudoMode(page, s.session)));
      case PressPasskey =>
        SendKeepsEarned(page, s, PasskeyBegun(s.ui, SudoMode(page, s.session)));
      case Arrives(id, a) =>
        ArriveKeepsEarned(page, s, id, a);
      case _ =>
    }
  }

  lemma RedirectsPointBack(page: Page, log: seq<Happening>)
    requires Earned(page, log)
    ensures forall k :: 0 <= k < |log| && log[k].Redirected? ==> log[k].id < |log|
  {
    hide Succeeded;
    forall k | 0 <= k < |log| && log[k].Redirected? ensures log[k].id < |log| {
      assert EarnedAt(page, log, k);
    }
  }

  lemma SendKeepsEarned(page: Page, s: State, begun: (Ui, Option<Request>))
    requires Earned(page, s.log) && FlightsSent(s)
    ensures Earned(page, Send(page, s, begun).log) && FlightsSent(Send(page, s, begun))
  {
    hide Earned, SudoMode;
    RedirectsPointBack(page, s.log);
    if begun.1.Some? {
      OtherAppended(page, s.log, Sent(begun.1.value, s.session));
    }
  }

  lemma ArriveKeepsEarned(page: Page, s: State, id: nat, a: Answer)
    requires Earned(page, s.log) && FlightsSent(s) && id in s.flights
    ensures Earned(page, Arrive(page, s, id, a).log) && FlightsSent(Arrive(page, s, id, a))
  {
    hide Earned;
    assert SentAt(s.log, id, s.flights[id].request);
    if s.flights[id].Asking? {
      OtherAppended(page, s.log, Settled(id, a));
      if Answered(page, s.ui, s.flights[id].request, a).1 {
        RedirectAppended(page, s.log, id, a);
      }
    }
  }

  lemma {:induction false} RunIsEarned(page: Page, session: Session, events: seq<Event>)
    ensures Earned(page, Run(page, session, events).log) && FlightsSent(Run(page, session, events))
  {
    hide Next;
    if events != [] {
      RunIsEarned(page, session, events[..|events| - 1]);
      NextKeepsEarned(page, Run(page, session, events[..|events| - 1]), events[|events| - 1]);
    }
  }

  /** With reason=mfa, every redirect of every run follows the success of its own passkey or code step. */
  lemma StrongRedirectsNeedAStrongStep(page: Page, session: Session, events: seq<Event>, i: nat)
    requires page.strong
    requires i < |Run(page, session, events).log| && Run(page, session, events).log[i].Redirected?
    ensures var log := Run(page, session, events).log;
            var id := log[i].id;
            && id < i && log[id].Sent? && !log[id].request.Password?
            && Succeeded(log[..i], id)
            && forall k :: 0 <= k < |log| && log[k].Redirected? && k != i ==> log[k].id != id
  {
    RunIsEarned(page, session, events);
    assert EarnedAt(page, Run(page, session, events).log, i);
  }

  // ----- Second factors -----

  // The token of the latest password step that demanded a second factor.
  function LatestDemand(log: seq<Happening>): Option<string> {
    if log == [] then None
    else
      var h := log[|log| - 1];
      if h.Settled? && h.answer.Resolved? && h.answer.demand.Some? && h.id < |log| && log[h.id].Sent? && log[h.id].request.Password?
      then h.answer.demand
      else LatestDemand(log[..|log| - 1])
  }

  predicate Proper(page: Page, log: seq<Happening>, i: nat)
    requires i < |log|
  {
    log[i].Sent? ==>
      && (SudoMode(page, log[i].session) <==> log[i].request.StepUpMfa? || log[i].request.StepUpPasskey?)
      && (log[i].request.VerifyMfa? ==> LatestDemand(log[..i]) == Some(log[i].request.token))
  }

  ghost predicate AllProper(page: Page, log: seq<Happening>) {
    forall i :: 0 <= i < |log| ==> Proper(page, log, i)
  }

  ghost predicate TokenIsLatest(s: State) {
    s.ui.mfaRequired ==> LatestDemand(s.log) == Some(s.ui.mfaToken)
  }

  lemma ProperAppended(page: Page, log: seq<Happening>, h: Happening)
    requires AllProper(page, log)
    requires h.Sent? ==>
               && (SudoMode(page, h.session) <==> h.request.StepUpMfa? || h.request.StepUpPasskey?)
               && (h.request.VerifyMfa? ==> LatestDemand(log) == Some(h.request.token))
    ensures AllProper(page, log + [h])
  {
    hide LatestDemand;
    var after := log + [h];
    assert after[..|log|] == log;
    forall i | 0 <= i < |after| ensures Proper(page, after, i) {
      if i < |log| {
        assert Proper(page, log, i) && after[..i] == log[..i];
      }
    }
  }

  lemma DemandUnlessPassword(log: seq<Happening>, h: Happening)
    requires h.Settled? && h.answer.Resolved? && h.answer.demand.Some? ==>
               h.id < |log| && log[h.id].Sent? && !log[h.id].request.Password?
    ensures LatestDemand(log + [h]) == LatestDemand(log)
  {
    assert (log + [h])[..|log|] == log;
  }

  lemma DemandOfPassword(log: seq<Happening>, id: nat, token: string)
    requires id < |log| && log[id].Sent? && log[id].request.Password?
    ensures LatestDemand(log + [Settled(id, Resolved(Some(token)))]) == Some(token)
  {}

  lemma NextKeepsToken(page: Page, s: State, e: Event)
    requires FlightsSent(s) && AllProper(page, s.log) && TokenIsLatest(s)
    ensures AllProper(page, Next(page, s, e).log) && TokenIsLatest(Next(page, s, e))
  {
    hide AllProper, LatestDemand, SudoMode, FlightsSent;
    if Enabled(page, s, e) {
      var sudo := SudoMode(page, s.session);
      match e
      case SubmitPassword =>
        SendKeepsToken(page, s, PasswordBegun(s.ui));
      case SubmitCode =>
        SendKeepsToken(page, s, CodeBegun(s.ui, sudo));
      case PressPasskey =>
        SendKeepsToken(page, s, PasskeyBegun(s.ui, sudo));
      case Arrives(id, a) =>
        ArriveKeepsToken(page, s, id, a);
      case _ =>
    }
  }

  lemma SendKeepsToken(page: Page, s: State, begun: (Ui, Option<Request>))
    requires AllProper(page, s.log) && TokenIsLatest(s)
    requires begun.0.mfaRequired == s.ui.mfaRequired && begun.0.mfaToken == s.ui.mfaToken
    requires begun.1.Some? ==>
               && (SudoMode(page, s.session) <==> begun.1.value.StepUpMfa? || begun.1.value.StepUpPasskey?)
               && (begun.1.value.VerifyMfa? ==> s.ui.mfaRequired && begun.1.value.token == s.ui.mfaToken)
    ensures AllProper(page, Send(page, s, begun).log) && TokenIsLatest(Send(page, s, begun))
  {
    hide AllProper, LatestDemand, SudoMode;
    if begun.1.Some? {
      var h := Sent(begun.1.value, s.session);
      ProperAppended(page, s.log, h);
      DemandUnlessPassword(s.log, h);
    }
  }

  lemma ArriveKeepsToken(page: Page, s: State, id: nat, a: Answer)
    requires FlightsSent(s) && AllProper(page, s.log) && TokenIsLatest(s) && id in s.flights
    ensures AllProper(page, Arrive(page, s, id, a).log) && TokenIsLatest(Arrive(page, s, id, a))
  {
    hide AllProper, LatestDemand;
    var r := s.flights[id].request;
    assert SentAt(s.log, id, r);
    if s.flights[id].Asking? {
      var h := Settled(id, a);
      ProperAppended(page, s.log, h);
      ProperAppended(page, s.log + [h], Redirected(id));
      DemandUnlessPassword(s.log + [h], Redirected(id));
      assert s.log + [h] + [Redirected(id)] == s.log + [h, Redirected(id)];
      if r.Password? && a.Resolved? && a.demand.Some? {
        DemandOfPassword(s.log, id, a.demand.value);
      } else {
        DemandUnlessPassword(s.log, h);
      }
    }
  }

  lemma {:induction false} RunIsProper(page: Page, session: Session, events: seq<Event>)
    ensures AllProper(page, Run(page, session, events).log) && TokenIsLatest(Run(page, session, events))
  {
    hide Next;
    if events != [] {
      RunIsProper(page, session, events[..|events| - 1]);
      RunIsEarned(page, session, events[..|events| - 1]);
      NextKeepsToken(page, Run(page, session, events[..|events| - 1]), events[|events| - 1]);
    }
  }

  /** The page asks for strong authentication, and the account signed in is the one the address names, if it names one. */
  ghost predicate StepsUp(page: Page, session: Session) {
    && page.strong && session.SignedIn?
    && (|| page.hint == ""
        || session.profile.sub == page.hint
        || exists name: string :: name != "" && page.lower(name) == page.lower(page.hint)
             && (session.profile.preferredUsername == Some(name) || session.profile.email == Some(name)))
  }

  lemma SudoModeIsStepsUp(page: Page, session: Session)
    ensures SudoMode(page, session) <==> StepsUp(page, session)
  {
    if SudoMode(page, session) && page.hint != "" && session.profile.sub != page.hint {
      var p := session.profile;
      var name := if p.preferredUsername.Some? && p.preferredUsername.value != ""
                     && page.lower(p.preferredUsername.value) == page.lower(page.hint)
                  then p.preferredUsername.value else p.email.value;
      assert name != "" && page.lower(name) == page.lower(page.hint);
    }
  }

  /**
   A call steps up exactly if, when it is sent, the page is strong and the account signed in is the one
   it names; otherwise a code is only checked with the token of the latest password step that demanded one.
   */
  lemma CodesUseTheLatestToken(page: Page, session: Session, events: seq<Event>, i: nat)
    requires i < |Run(page, session, events).log| && Run(page, session, events).log[i].Sent?
    ensures var log := Run(page, session, events).log;
            && (log[i].request.StepUpMfa? || log[i].request.StepUpPasskey? <==> StepsUp(page, log[i].session))
            && (log[i].request.VerifyMfa? ==> LatestDemand(log[..i]) == Some(log[i].request.token))
  {
    RunIsProper(page, session, events);
    assert Proper(page, Run(page, session, events).log, i);
    SudoModeIsStepsUp(page, Run(page, session, events).log[i].session);
  }

  /** Free of a busy form, every submission is answered by the form shown, and sends what it must under the current session. */
  lemma SubmissionsSend(page: Page, s: State, e: Event)
    requires !s.ui.loading && !s.ui.passkeyLoading
    ensures var up := StepsUp(page, s.session);
            var code := Trim(JsSpace, s.ui.mfaCode);
            var log := Next(page, s, e).log;
            match e
            case SubmitCode =>
              log == if code == "" || !(up || s.ui.mfaRequired) then s.log
                     else s.log + [Sent(if up then StepUpMfa(code) else VerifyMfa(s.ui.mfaToken, code), s.session)]
            case PressPasskey =>
              log == if !up && s.ui.mfaRequired then s.log
                     else s.log + [Sent(if up then StepUpPasskey else LoginPasskey, s.session)]
            case SubmitPassword =>
              log == if up || s.ui.mfaRequired || s.ui.username == "" || s.ui.password == "" then s.log
                     else s.log + [Sent(Password(s.ui.username, s.ui.password), s.session)]
            case Arrives(_, _) => true
            case _ => log == s.log
  {
    hide Trim, StepsUp, SudoMode;
    SudoModeIsStepsUp(page, s.session);
  }

  /**
   What the answer to a request leaves on the page: a refused one its message, a password step that demands
   a code the code form with that token, a password alone on a strong page a notice; any other one a redirect.
   */
  lemma AnswersAreShown(page: Page, s: State, id: nat, a: Answer)
    requires id in s.flights && s.flights[id].Asking?
    ensures var r, t := s.flights[id].request, Next(page, s, Arrives(id, a));
            if a.Rejected? then
              t.ui.error == Some(Reported(a.message)) && t.ui.mfaRequired == s.ui.mfaRequired && id !in t.flights
              && t.log == s.log + [Settled(id, a)]
            else if r.Password? && a.demand.Some? then
              t.ui.mfaRequired && t.ui.mfaToken == a.demand.value && t.ui.mfaCode == "" && t.ui.error == s.ui.error
              && id !in t.flights && t.log == s.log + [Settled(id, a)]
            else if r.Password? && page.strong then
              t.ui.error == Some(StrongAuthUnavailable) && t.ui.mfaRequired == s.ui.mfaRequired && id !in t.flights
              && t.log == s.log + [Settled(id, a)]
            else
              t.ui.error == s.ui.error && t.log == s.log + [Settled(id, a), Redirected(id)]
              && (id in t.flights <==> !page.direct)
  {}

  lemma AnsweredKeepsTyped(page: Page, u: Ui, r: Request, a: Answer)
    ensures Answered(page, u, r, a).0.username == u.username && Answered(page, u, r, a).0.password == u.password
    ensures RedirectSettled(u, r, a).username == u.username && RedirectSettled(u, r, a).password == u.password
  {}

  lemma ArrivalKeepsOthers(page: Page, s: State, id: nat, a: Answer)
    requires id in s.flights
    ensures forall other :: other != id ==>
              var t := Arrive(page, s, id, a);
              (other in t.flights <==> other in s.flights) && (other in s.flights ==> t.flights[other] == s.flights[other])
  {
    hide Answered, RedirectSettled;
  }

  /** An answer touches neither what was typed, nor the session, nor the other requests. */
  lemma AnswersKeepTheRest(page: Page, s: State, id: nat, a: Answer)
    ensures var t := Next(page, s, Arrives(id, a));
            && t.ui.username == s.ui.username && t.ui.password == s.ui.password && t.session == s.session
            && forall other :: other != id ==>
                 (other in t.flights <==> other in s.flights) && (other in s.flights ==> t.flights[other] == s.flights[other])
  {
    if id in s.flights {
      ArrivalTyped(page, s, id, a);
      ArrivalKeepsOthers(page, s, id, a);
    }
    hide Arrive, Answered, RedirectSettled;
  }

  lemma ArrivalTyped(page: Page, s: State, id: nat, a: Answer)
    requires id in s.flights
    ensures var t := Arrive(page, s, id, a);
            t.ui.username == s.ui.username && t.ui.password == s.ui.password && t.session == s.session
  {
    var r := s.flights[id].request;
    AnsweredKeepsTyped(page, s.ui, r, a);
    AnsweredKeepsTyped(page, Answered(page, s.ui, r, a).0, r, Resolved(None));
    hide Answered, RedirectSettled;
  }

  /** Going back, which only the code form offers, leaves that form, its code and its error, and keeps the rest. */
  lemma BackLeavesCodeForm(page: Page, s: State)
    requires !s.ui.loading
    ensures var t := Next(page, s, PressBack);
            if s.ui.mfaRequired && !StepsUp(page, s.session) then
              && t == s.(ui := t.ui) && Shown(page, t) == PasswordForm
              && t.ui == Ui(s.ui.username, s.ui.password, None, s.ui.loading, s.ui.passkeyLoading, false, s.ui.mfaToken, "")
            else t == s
  {
    hide StepsUp, SudoMode;
    SudoModeIsStepsUp(page, s.session);
  }

  /** What is typed, and the session, are taken over at any time and change nothing else. */
  lemma TypingIsKept(page: Page, s: State, text: string, session: Session)
    ensures Next(page, s, TypeUsername(text)) == s.(ui := s.ui.(username := text))
    ensures Next(page, s, TypePassword(text)) == s.(ui := s.ui.(password := text))
    ensures Next(page, s, TypeCode(text)) == s.(ui := s.ui.(mfaCode := text))
    ensures Next(page, s, SessionBecomes(session)) == s.(session := session)
  {}

  /** A page opens with nothing typed: only a passkey can be sent before something is. */
  lemma OpensBlank(page: Page, session: Session)
    ensures var s := Opened(session);
            && s.ui.username == "" && s.ui.password == "" && s.ui.mfaCode == ""
            && s.session == session && !s.ui.loading && !s.ui.passkeyLoading && !s.ui.mfaRequired && s.ui.error == None
            && Next(page, s, SubmitPassword).log == [] && Next(page, s, SubmitCode).log == []
            && Next(page, s, PressPasskey).log == [Sent(if StepsUp(page, session) then StepUpPasskey else LoginPasskey, session)]
  {
    assert Trim(JsSpace, "") == "";
    SubmissionsSend(page, Opened(session), SubmitPassword);
    SubmissionsSend(page, Opened(session), SubmitCode);
    SubmissionsSend(page, Opened(session), PressPasskey);
    hide Next, StepsUp, Trim;
  }

  /** A redirect that fails is reported; one that succeeds leaves the page as it is. */
  lemma RedirectsEnd(page: Page, s: State, id: nat, a: Answer)
    requires id in s.flights && s.flights[id].Redirecting?
    ensures var t := Next(page, s, Arrives(id, a));
            && t.flights == s.flights - {id} && t.log == s.log && t.session == s.session
            && t.ui.error == (if a.Rejected? then Some(Reported(a.message)) else s.ui.error)
            && t.ui.mfaRequired == s.ui.mfaRequired && t.ui.mfaToken == s.ui.mfaToken && t.ui.mfaCode == s.ui.mfaCode
  {}

  /** A submission that cannot be sent says why, and one that is sent clears the last error. */
  lemma SubmissionsReport(page: Page, s: State, e: Event)
    requires (e.SubmitPassword? || e.SubmitCode? || e.PressPasskey?) && Enabled(page, s, e)
    ensures var t := Next(page, s, e);
            if t.log != s.log then
              t.ui.error == None && (if e.PressPasskey? then t.ui.passkeyLoading && t.ui.loading == s.ui.loading
                                     else t.ui.loading && t.ui.passkeyLoading == s.ui.passkeyLoading)
            else
              t.ui.error == Some(if e.SubmitPassword? then EnterBothFields else CodeRequired)
              && t.ui.loading == s.ui.loading && t.ui.passkeyLoading == s.ui.passkeyLoading
  {
    hide Trim, SudoMode;
  }

  /** LatestDemand names the last answer of a password step that carries a demand. */
  lemma {:induction false} LatestDemandIsLast(log: seq<Happening>, token: string) returns (j: nat)
    requires LatestDemand(log) == Some(token)
    ensures j < |log| && DemandAt(log, j) && log[j].answer.demand == Some(token)
    ensures forall k :: j < k < |log| ==> !DemandAt(log, k)
  {
    var n := |log| - 1;
    if DemandAt(log, n) {
      j := n;
    } else {
      j := LatestDemandIsLast(log[..n], token);
      forall k | j < k < |log| ensures !DemandAt(log, k) {
        if k < n {
          assert !DemandAt(log[..n], k);
        }
      }
    }
  }

  predicate DemandAt(log: seq<Happening>, k: nat)
    requires k < |log|
  {
    && log[k].Settled? && log[k].answer.Resolved? && log[k].answer.demand.Some?
    && log[k].id <= k && log[log[k].id].Sent? && log[log[k].id].request.Password?
  }

  // ----- Busy flags -----

  ghost predicate BusyExact(s: State) {
    && (forall i, j :: i in s.flights && j in s.flights && i != j ==>
          ByPasskey(s.flights[i].request) != ByPasskey(s.flights[j].request))
    && (s.ui.loading <==> exists i :: i in s.flights && !ByPasskey(s.flights[i].request))
    && (s.ui.passkeyLoading <==> exists i :: i in s.flights && ByPasskey(s.flights[i].request))
    && (forall i :: i in s.flights ==> i < |s.log|)
  }

  lemma NextKeepsBusy(page: Page, s: State, e: Event)
    requires page.busyBlocks && BusyExact(s)
    ensures BusyExact(Next(page, s, e))
  {
    hide SudoMode, Trim, BusyExact;
    if Enabled(page, s, e) {
      match e
      case SubmitPassword =>
        SendKeepsBusy(page, s, PasswordBegun(s.ui));
      case SubmitCode =>
        SendKeepsBusy(page, s, CodeBegun(s.ui, SudoMode(page, s.session)));
      case PressPasskey =>
        SendKeepsBusy(page, s, PasskeyBegun(s.ui, SudoMode(page, s.session)));
      case Arrives(id, a) =>
        ArriveKeepsBusy(page, s, id, a);
      case _ =>
        SameBusy(s, Next(page, s, e));
    }
  }

  lemma SameBusy(s: State, t: State)
    requires BusyExact(s) && t.flights == s.flights && t.log == s.log
    requires t.ui.loading == s.ui.loading && t.ui.passkeyLoading == s.ui.passkeyLoading
    ensures BusyExact(t)
  {}

  lemma SendKeepsBusy(page: Page, s: State, begun: (Ui, Option<Request>))
    requires BusyExact(s)
    requires begun.1.None? ==> begun.0.loading == s.ui.loading && begun.0.passkeyLoading == s.ui.passkeyLoading
    requires begun.1.Some? ==>
               if ByPasskey(begun.1.value) then !s.ui.passkeyLoading && begun.0.passkeyLoading && begun.0.loading == s.ui.loading
               else !s.ui.loading && begun.0.loading && begun.0.passkeyLoading == s.ui.passkeyLoading
    ensures BusyExact(Send(page, s, begun))
  {
    hide SudoMode, ByPasskey;
    var t := Send(page, s, begun);
    if begun.1.Some? {
      var n := |s.log|;
      assert t.flights[n].request == begun.1.value;
      forall i | i in s.flights ensures i in t.flights && t.flights[i] == s.flights[i] {}
      assert forall i :: i in t.flights ==> i == n || i in s.flights;
    }
  }

  lemma FlightEnds(s: State, t: State, id: nat)
    requires BusyExact(s) && id in s.flights && t.flights == s.flights - {id} && |t.log| >= |s.log|
    requires t.ui.loading == (s.ui.loading && ByPasskey(s.flights[id].request))
    requires t.ui.passkeyLoading == (s.ui.passkeyLoading && !ByPasskey(s.flights[id].request))
    ensures BusyExact(t)
  {
    hide ByPasskey;
    assert forall i :: i in s.flights && i != id ==> i in t.flights && t.flights[i] == s.flights[i];
  }

  lemma FlightGoesOn(s: State, t: State, id: nat)
    requires BusyExact(s) && id in s.flights && |t.log| >= |s.log|
    requires t.flights == s.flights[id := Redirecting(s.flights[id].request)]
    requires t.ui.loading == s.ui.loading && t.ui.passkeyLoading == s.ui.passkeyLoading
    ensures BusyExact(t)
  {
    hide ByPasskey;
    assert forall i :: i in t.flights <==> i in s.flights;
    assert forall i :: i in s.flights ==> t.flights[i].request == s.flights[i].request;
  }

  lemma ArriveKeepsBusy(page: Page, s: State, id: nat, a: Answer)
    requires BusyExact(s) && id in s.flights
    ensures BusyExact(Arrive(page, s, id, a))
  {
    hide BusyExact;
    var t := Arrive(page, s, id, a);
    if t.flights == s.flights - {id} {
      FlightEnds(s, t, id);
    } else {
      FlightGoesOn(s, t, id);
    }
  }

  /** With inert busy buttons a form is busy exactly while its one handler is under way. */
  lemma {:induction false} BusyFlagsAreExact(page: Page, session: Session, events: seq<Event>)
    requires page.busyBlocks
    ensures BusyExact(Run(page, session, events))
  {
    hide Next, BusyExact;
    if events == [] {
      OpenedIsIdle(session);
    } else {
      BusyFlagsAreExact(page, session, events[..|events| - 1]);
      NextKeepsBusy(page, Run(page, session, events[..|events| - 1]), events[|events| - 1]);
    }
  }

  lemma OpenedIsIdle(session: Session)
    ensures BusyExact(Opened(session))
  {}
}
