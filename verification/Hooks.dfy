/**
 The three collection hooks as they keep their state, and their runs: requests overlap, and any of
 them may settle next.
 */
module Hooks {
  import opened Common
  import opened Collections
  import C = ClientForm
  import R = Roles

  // ----- useAuditLogs.ts -----

  datatype AuditLog = AuditLog(id: string, action: string, actor: string)

  datatype AuditPage = AuditPage(logs: seq<AuditLog>, total: nat, page: int)

  /** What a fetch asks for; an empty filter is left out. */
  datatype AuditQuery = AuditQuery(page: int, eventType: Option<string>, accountId: Option<string>)

  const NO_LOGS := AuditPage([], 0, 1)

  function Filter(s: string): Option<string> {
    if s == "" then None else Some(s)
  }

  class AuditLogs {
    var logs: seq<AuditLog>
    var total: nat
    var page: int
    var loading: bool
    var error: Option<string>
    var eventType: string
    var accountId: string

    function State(): Hook<AuditPage>
      reads this
    {
      Hook(AuditPage(logs, total, page), loading, error)
    }

    constructor ()
      ensures State() == Mounted(NO_LOGS).hook && eventType == "" && accountId == ""
    {
      logs, total, page, loading, error, eventType, accountId := [], 0, 1, true, None, "", "";
    }

    // fetchPage up to its await.
    method BeginFetch(nextPage: int, eventFilter: string, accountFilter: string) returns (query: AuditQuery)
      modifies this
      ensures State() == Requested(old(State())) && eventType == old(eventType) && accountId == old(accountId)
      ensures query == AuditQuery(nextPage, Filter(eventFilter), Filter(accountFilter))
    {
      loading := true;
      error := None;
      query := AuditQuery(nextPage, Filter(eventFilter), Filter(accountFilter));
    }

    // fetchPage behind its await; nextPage is the page this request was started for.
    method FetchResolved(newLogs: seq<AuditLog>, newTotal: nat, nextPage: int)
      modifies this
      ensures State() == Resolved(old(State()), AuditPage(newLogs, newTotal, nextPage))
      ensures eventType == old(eventType) && accountId == old(accountId)
    {
      logs := newLogs;
      total := newTotal;
      page := nextPage;
      loading := false;
    }

    method FetchRejected(message: string)
      modifies this
      ensures State() == Rejected(old(State()), message)
      ensures eventType == old(eventType) && accountId == old(accountId)
    {
      error := Some(message);
      loading := false;
    }

    method Search() returns (query: AuditQuery)
      modifies this
      ensures State() == Requested(old(State())) && eventType == old(eventType) && accountId == old(accountId)
      ensures query == AuditQuery(1, Filter(eventType), Filter(accountId))
    {
      query := BeginFetch(1, eventType, accountId);
    }

    method ClearFilters() returns (query: AuditQuery)
      modifies this
      ensures State() == Requested(old(State())) && eventType == "" && accountId == ""
      ensures query == AuditQuery(1, None, None)
    {
      eventType := "";
      accountId := "";
      query := BeginFetch(1, "", "");
    }

    method GoToPage(nextPage: int) returns (query: AuditQuery)
      modifies this
      ensures State() == Requested(old(State())) && eventType == old(eventType) && accountId == old(accountId)
      ensures query == AuditQuery(nextPage, Filter(eventType), Filter(accountId))
    {
      query := BeginFetch(nextPage, eventType, accountId);
    }
  }

  /** An answer to the query of that number. */
  datatype Answer = Answer(query: nat, logs: seq<AuditLog>, total: nat)

  datatype AuditEvent =
    | Opened                               // the effect that fetches the first page
    | TypeEventType(text: string)
    | TypeAccountId(text: string)
    | Search
    | ClearFilters
    | GoToPage(page: int)
    | Arrives(answer: Answer)
    | Fails(query: nat, message: string)

  /** The hook's state, the queries sent so far, which of them are on their way, and the answers that came back. */
  datatype AuditRun = AuditRun(hook: Hook<AuditPage>, eventType: string, accountId: string, queries: seq<AuditQuery>,
                               open: set<nat>, answers: seq<Answer>)

  function Mount(): AuditRun {
    AuditRun(Mounted(NO_LOGS).hook, "", "", [], {}, [])
  }

  function Sent(r: AuditRun, page: int, eventFilter: string, accountFilter: string): AuditRun {
    r.(hook := Requested(r.hook), queries := r.queries + [AuditQuery(page, Filter(eventFilter), Filter(accountFilter))],
       open := r.open + {|r.queries|})
  }

  // The page an answer becomes: its number is that of the query.
  function PageFrom(queries: seq<AuditQuery>, a: Answer): AuditPage {
    AuditPage(a.logs, a.total, if a.query < |queries| then queries[a.query].page else 1)
  }

  function AuditNext(r: AuditRun, e: AuditEvent): AuditRun {
    match e
    case Opened => Sent(r, 1, "", "")
    case TypeEventType(text) => r.(eventType := text)
    case TypeAccountId(text) => r.(accountId := text)
    case Search => Sent(r, 1, r.eventType, r.accountId)
    case ClearFilters => Sent(r.(eventType := "", accountId := ""), 1, "", "")
    case GoToPage(page) => Sent(r, page, r.eventType, r.accountId)
    case Arrives(a) =>
      if a.query !in r.open then r
      else r.(hook := Resolved(r.hook, PageFrom(r.queries, a)), open := r.open - {a.query}, answers := r.answers + [a])
    case Fails(query, message) =>
      if query !in r.open then r else r.(hook := Rejected(r.hook, message), open := r.open - {query})
  }

  function AuditPlay(events: seq<AuditEvent>): AuditRun {
    if events == [] then Mount() else AuditNext(AuditPlay(events[..|events| - 1]), events[|events| - 1])
  }

  /** The run as the tab sees it: requests, responses and rejections. */
  function Seen(events: seq<AuditEvent>): seq<Event<AuditPage>> {
    if events == [] then []
    else
      var r, before := AuditPlay(events[..|events| - 1]), Seen(events[..|events| - 1]);
      match events[|events| - 1]
      case TypeEventType(_) => before
      case TypeAccountId(_) => before
      case Arrives(a) => if a.query in r.open then before + [Resolve(PageFrom(r.queries, a))] else before
      case Fails(query, message) => if query in r.open then before + [Reject(message)] else before
      case _ => before + [Request]
  }

  ghost predicate Follows(r: AuditRun, t: Tab<AuditPage>) {
    && r.hook == t.hook && |r.open| == t.inFlight
    && (forall q :: q in r.open ==> q < |r.queries|)
  }

  lemma SentFollows(r: AuditRun, t: Tab<AuditPage>, page: int, eventFilter: string, accountFilter: string)
    requires Follows(r, t)
    ensures Follows(Sent(r, page, eventFilter, accountFilter), Next(t, Request))
  {
    assert |r.queries| !in r.open;
  }

  lemma SettledFollows(r: AuditRun, t: Tab<AuditPage>, query: nat)
    requires Follows(r, t) && query in r.open
    ensures t.inFlight > 0
    ensures forall page :: Follows(r.(hook := Resolved(r.hook, page), open := r.open - {query}), Next(t, Resolve(page)))
    ensures forall message :: Follows(r.(hook := Rejected(r.hook, message), open := r.open - {query}), Next(t, Reject(message)))
  {
    assert |r.open - {query}| == |r.open| - 1;
  }

  /** The hook is that of the tab's run, so everything shown of collections holds of it. */
  lemma {:induction false} AuditIsCollection(events: seq<AuditEvent>)
    ensures Follows(AuditPlay(events), Play(Mounted(NO_LOGS), Seen(events)))
  {
    hide Next, Follows;
    if events == [] {
      MountFollows();
    } else {
      var before := events[..|events| - 1];
      var r, t := AuditPlay(before), Play(Mounted(NO_LOGS), Seen(before));
      AuditIsCollection(before);
      if Seen(events) != Seen(before) {
        PlayOn(Mounted(NO_LOGS), Seen(before), Seen(events)[|Seen(before)|]);
      }
      match events[|events| - 1]
      case Opened => SentFollows(r, t, 1, "", "");
      case TypeEventType(text) => SameFollows(r, r.(eventType := text), t);
      case TypeAccountId(text) => SameFollows(r, r.(accountId := text), t);
      case Search => SentFollows(r, t, 1, r.eventType, r.accountId);
      case ClearFilters =>
        SameFollows(r, r.(eventType := "", accountId := ""), t);
        SentFollows(r.(eventType := "", accountId := ""), t, 1, "", "");
      case GoToPage(page) => SentFollows(r, t, page, r.eventType, r.accountId);
      case Arrives(a) =>
        if a.query in r.open {
          SettledFollows(r, t, a.query);
          var resolved := r.(hook := Resolved(r.hook, PageFrom(r.queries, a)), open := r.open - {a.query});
          SameFollows(resolved, AuditPlay(events), Next(t, Resolve(PageFrom(r.queries, a))));
        }
      case Fails(query, message) =>
        if query in r.open { SettledFollows(r, t, query); }
    }
  }

  lemma MountFollows()
    ensures Follows(Mount(), Mounted(NO_LOGS))
  {}

  lemma SameFollows(r: AuditRun, r': AuditRun, t: Tab<AuditPage>)
    requires Follows(r, t) && r'.hook == r.hook && r'.open == r.open && r'.queries == r.queries
    ensures Follows(r', t)
  {}

  /** What is shown is the last answer to arrive, under the page its query asked for; no query is answered twice. */
  ghost predicate ShowsLastAnswer(r: AuditRun) {
    && (forall i :: 0 <= i < |r.answers| ==> r.answers[i].query < |r.queries| && r.answers[i].query !in r.open)
    && (forall i, j :: 0 <= i < j < |r.answers| ==> r.answers[i].query != r.answers[j].query)
    && (forall q :: q in r.open ==> q < |r.queries|)
    && r.hook.data == if r.answers == [] then NO_LOGS else PageFrom(r.queries, r.answers[|r.answers| - 1])
  }

  lemma SentShows(r: AuditRun, page: int, eventFilter: string, accountFilter: string)
    requires ShowsLastAnswer(r)
    ensures ShowsLastAnswer(Sent(r, page, eventFilter, accountFilter))
  {}

  lemma ArrivalShows(r: AuditRun, a: Answer)
    requires ShowsLastAnswer(r)
    ensures ShowsLastAnswer(AuditNext(r, Arrives(a)))
  {
    hide PageFrom;
  }

  lemma FailureShows(r: AuditRun, query: nat, message: string)
    requires ShowsLastAnswer(r)
    ensures ShowsLastAnswer(AuditNext(r, Fails(query, message)))
  {}

  lemma TypingShows(r: AuditRun, eventType: string, accountId: string)
    requires ShowsLastAnswer(r)
    ensures ShowsLastAnswer(r.(eventType := eventType, accountId := accountId))
  {}

  lemma {:induction false} AuditShowsLastAnswer(events: seq<AuditEvent>)
    ensures ShowsLastAnswer(AuditPlay(events))
  {
    hide Sent, ShowsLastAnswer;
    if events == [] {
      NothingAnswered();
    } else {
      var r := AuditPlay(events[..|events| - 1]);
      AuditShowsLastAnswer(events[..|events| - 1]);
      match events[|events| - 1]
      case Opened => SentShows(r, 1, "", "");
      case TypeEventType(text) => TypingShows(r, text, r.accountId);
      case TypeAccountId(text) => TypingShows(r, r.eventType, text);
      case Search => SentShows(r, 1, r.eventType, r.accountId);
      case ClearFilters =>
        TypingShows(r, "", "");
        SentShows(r.(eventType := "", accountId := ""), 1, "", "");
      case GoToPage(page) => SentShows(r, page, r.eventType, r.accountId);
      case Arrives(a) => ArrivalShows(r, a);
      case Fails(query, message) => FailureShows(r, query, message);
    }
  }

  lemma NothingAnswered()
    ensures ShowsLastAnswer(Mount())
  {}

  /** A request under a filter that is set asks for exactly that text, and one under an empty filter for nothing. */
  lemma FiltersAreSent(events: seq<AuditEvent>, e: AuditEvent)
    requires e.Search? || e.GoToPage?
    ensures var r, after := AuditPlay(events), AuditPlay(events + [e]);
            && |after.queries| == |r.queries| + 1
            && after.queries[..|r.queries|] == r.queries
            && var q := after.queries[|r.queries|];
               && q.page == (if e.Search? then 1 else e.page)
               && (r.eventType == "" <==> q.eventType == None) && (r.eventType != "" ==> q.eventType == Some(r.eventType))
               && (r.accountId == "" <==> q.accountId == None) && (r.accountId != "" ==> q.accountId == Some(r.accountId))
  {
    assert (events + [e])[..|events|] == events;
  }

  // What was last typed into a filter since it was last cleared.
  function LastTyped(events: seq<AuditEvent>, eventType: bool): string {
    if events == [] then ""
    else
      match events[|events| - 1]
      case TypeEventType(text) => if eventType then text else LastTyped(events[..|events| - 1], eventType)
      case TypeAccountId(text) => if eventType then LastTyped(events[..|events| - 1], eventType) else text
      case ClearFilters => ""
      case _ => LastTyped(events[..|events| - 1], eventType)
  }

  /** The filters hold what was last typed into them. */
  lemma {:induction false} FiltersAreLastTyped(events: seq<AuditEvent>)
    ensures AuditPlay(events).eventType == LastTyped(events, true) && AuditPlay(events).accountId == LastTyped(events, false)
  {
    hide PageFrom, Filter;
    if events != [] {
      FiltersAreLastTyped(events[..|events| - 1]);
    }
  }

  predicate IsAudit(a: AuditLogs, r: AuditRun)
    reads a
  {
    a.State() == r.hook && a.eventType == r.eventType && a.accountId == r.accountId
  }

  /** The hook goes through any list of events as the run says. */
  method DriveAudit(a: AuditLogs, events: seq<AuditEvent>) returns (r: AuditRun)
    requires IsAudit(a, Mount())
    modifies a
    ensures r == AuditPlay(events) && IsAudit(a, r)
  {
    r := Mount();
    assert events[..0] == [];
    for i := 0 to |events|
      invariant r == AuditPlay(events[..i]) && IsAudit(a, r)
    {
      assert events[..i + 1][..i] == events[..i];
      r := StepAudit(a, r, events[i]);
    }
    assert events[..|events|] == events;
  }

  method StepAudit(a: AuditLogs, r: AuditRun, e: AuditEvent) returns (next: AuditRun)
    requires IsAudit(a, r)
    modifies a
    ensures next == AuditNext(r, e) && IsAudit(a, next)
  {
    var query: AuditQuery;
    match e {
      case TypeEventType(text) => a.eventType := text;
      case TypeAccountId(text) => a.accountId := text;
      case Opened => query := a.BeginFetch(1, "", "");
      case Search => query := a.Search();
      case ClearFilters => query := a.ClearFilters();
      case GoToPage(page) => query := a.GoToPage(page);
      case Arrives(x) =>
        if x.query !in r.open { return r; }
        var page := PageFrom(r.queries, x).page;
        a.FetchResolved(x.logs, x.total, page);
        return r.(hook := a.State(), open := r.open - {x.query}, answers := r.answers + [x]);
      case Fails(failed, message) =>
        if failed !in r.open { return r; }
        a.FetchRejected(message);
        return r.(hook := a.State(), open := r.open - {failed});
    }
    next := r.(hook := a.State(), eventType := a.eventType, accountId := a.accountId);
    if !e.TypeEventType? && !e.TypeAccountId? {
      next := next.(queries := r.queries + [query], open := r.open + {|r.queries|});
    }
  }

  // ----- useAdminUsers.ts -----

  datatype UsersPage = UsersPage(accounts: seq<R.Account>, total: nat, roles: seq<R.Role>)

  const NO_USERS := UsersPage([], 0, [])

  // What a response becomes: the roles are collected from its accounts.
  function UsersFrom(accounts: seq<R.Account>, total: nat): UsersPage {
    UsersPage(accounts, total, R.CollectRoles(accounts))
  }

  class AdminUsers {
    var accounts: seq<R.Account>
    var roles: seq<R.Role>
    var totalAccounts: nat
    var loading: bool
    var error: Option<string>

    function State(): Hook<UsersPage>
      reads this
    {
      Hook(UsersPage(accounts, totalAccounts, roles), loading, error)
    }

    constructor ()
      ensures State() == Mounted(NO_USERS).hook
    {
      accounts, roles, totalAccounts, loading, error := [], [], 0, true, None;
    }

    method BeginRefresh()
      modifies this
      ensures State() == Requested(old(State()))
    {
      loading := true;
      error := None;
    }

    method RefreshResolved(newAccounts: seq<R.Account>, total: nat)
      modifies this
      ensures State() == Resolved(old(State()), UsersFrom(newAccounts, total))
    {
      accounts := newAccounts;
      totalAccounts := total;
      roles := R.CollectRolesFromAccounts(newAccounts);
      loading := false;
    }

    method RefreshRejected(message: string)
      modifies this
      ensures State() == Rejected(old(State()), message)
    {
      error := Some(message);
      loading := false;
    }
  }

  datatype UsersResponse = UsersResponse(accounts: seq<R.Account>, total: nat)

  // The hook works the roles out of each response it stores.
  function Collected(e: Event<UsersResponse>): Event<UsersPage> {
    match e
    case Request => Request
    case Resolve(response) => Resolve(UsersFrom(response.accounts, response.total))
    case Reject(message) => Reject(message)
  }

  function UsersPlay(events: seq<Event<UsersResponse>>): Tab<UsersPage> {
    if events == [] then Mounted(NO_USERS) else Next(UsersPlay(events[..|events| - 1]), Collected(events[|events| - 1]))
  }

  predicate RolesMatch(u: UsersPage) {
    u.roles == R.CollectRoles(u.accounts)
  }

  /** In every reachable state the roles on offer are those of the accounts shown. */
  lemma {:induction false} RolesFollowAccounts(events: seq<Event<UsersResponse>>)
    ensures RolesMatch(UsersPlay(events).hook.data)
  {
    hide R.CollectRoles;
    if events == [] {
      NobodyHasRoles();
    } else {
      RolesFollowAccounts(events[..|events| - 1]);
    }
  }

  lemma NobodyHasRoles()
    ensures RolesMatch(NO_USERS)
  {}

  /** The hook goes through any list of events as the run says, and never offers other roles. */
  method DriveUsers(u: AdminUsers, events: seq<Event<UsersResponse>>)
    requires u.State() == Mounted(NO_USERS).hook
    modifies u
    ensures u.State() == UsersPlay(events).hook && RolesMatch(u.State().data)
  {
    var inFlight := 0;
    assert events[..0] == [];
    for i := 0 to |events|
      invariant u.State() == UsersPlay(events[..i]).hook && inFlight == UsersPlay(events[..i]).inFlight
    {
      assert events[..i + 1][..i] == events[..i];
      match events[i] {
        case Request =>
          u.BeginRefresh();
          inFlight := inFlight + 1;
        case Resolve(response) =>
          if inFlight > 0 {
            u.RefreshResolved(response.accounts, response.total);
            inFlight := inFlight - 1;
          }
        case Reject(message) =>
          if inFlight > 0 {
            u.RefreshRejected(message);
            inFlight := inFlight - 1;
          }
      }
    }
    assert events[..|events|] == events;
    RolesFollowAccounts(events);
  }

  // ----- useClients.ts -----

  class Clients {
    var clients: seq<C.Client>
    var loading: bool
    var error: Option<string>

    function State(): Hook<seq<C.Client>>
      reads this
    {
      Hook(clients, loading, error)
    }

    constructor ()
      ensures State() == Mounted<seq<C.Client>>([]).hook
    {
      clients, loading, error := [], true, None;
    }

    method BeginRefresh()
      modifies this
      ensures State() == Requested(old(State()))
    {
      loading := true;
      error := None;
    }

    method RefreshResolved(newClients: seq<C.Client>)
      modifies this
      ensures State() == Resolved(old(State()), newClients)
    {
      clients := newClients;
      loading := false;
    }

    method RefreshRejected(message: string)
      modifies this
      ensures State() == Rejected(old(State()), message)
    {
      error := Some(message);
      loading := false;
    }
  }

  /** The hook goes through any list of events as the run says. */
  method DriveClients(c: Clients, events: seq<Event<seq<C.Client>>>)
    requires c.State() == Mounted<seq<C.Client>>([]).hook
    modifies c
    ensures c.State() == Play(Mounted<seq<C.Client>>([]), events).hook
  {
    ghost var mounted := Mounted<seq<C.Client>>([]);
    var inFlight := 0;
    assert events[..0] == [];
    for i := 0 to |events|
      invariant c.State() == Play(mounted, events[..i]).hook && inFlight == Play(mounted, events[..i]).inFlight
    {
      assert events[..i + 1][..i] == events[..i];
      match events[i] {
        case Request =>
          c.BeginRefresh();
          inFlight := inFlight + 1;
        case Resolve(clients) =>
          if inFlight > 0 {
            c.RefreshResolved(clients);
            inFlight := inFlight - 1;
          }
        case Reject(message) =>
          if inFlight > 0 {
            c.RefreshRejected(message);
            inFlight := inFlight - 1;
          }
      }
    }
    assert events[..|events|] == events;
  }
}
