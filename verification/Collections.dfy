/**
 The loading state shared by useAuditLogs.ts, useAdminUsers.ts and useClients.ts, and the tab
 that shows it (AuditLogsTab.tsx; the clients tab chooses its view the same way).

 A `Hook` is the data with its loading flag and error. The functions on it are the stretches of a
 request before and behind its await, each applied as one update. The tab's effect is taken to run
 before the next update.
 */
module Collections {
  import opened Common

  datatype Hook<D> = Hook(data: D, loading: bool, error: Option<string>)

  function Requested<D>(h: Hook<D>): Hook<D> {
    h.(loading := true, error := None)
  }

  function Resolved<D>(h: Hook<D>, data: D): Hook<D> {
    h.(data := data, loading := false)
  }

  function Rejected<D>(h: Hook<D>, message: string): Hook<D> {
    h.(error := Some(message), loading := false)
  }

  // Boolean(error): an empty message counts as none.
  predicate Shown(error: Option<string>) {
    error.Some? && error.value != ""
  }

  datatype View = Skeleton | FatalError | Empty | Table

  /** A tab, the requests on their way, and what has come back so far. */
  datatype Tab<D> = Tab(hook: Hook<D>, hasResolved: bool, inFlight: nat, responses: seq<D>, rejections: seq<string>)

  // The effect that notes the first settled load.
  function Effect<D>(t: Tab<D>): Tab<D> {
    if !t.hook.loading && !Shown(t.hook.error) then t.(hasResolved := true) else t
  }

  function ViewOf<D>(t: Tab<D>, isEmpty: D -> bool): View {
    if t.hook.loading && !t.hasResolved then Skeleton
    else if Shown(t.hook.error) && !t.hasResolved then FatalError
    else if isEmpty(t.hook.data) then Empty
    else Table
  }

  datatype Event<D> = Request | Resolve(data: D) | Reject(message: string)

  function Mounted<D>(data: D): Tab<D> {
    Tab(Hook(data, true, None), false, 0, [], [])
  }

  // Any request on its way may settle next.
  function Next<D>(t: Tab<D>, e: Event<D>): Tab<D> {
    match e
    case Request => Effect(t.(hook := Requested(t.hook), inFlight := t.inFlight + 1))
    case Resolve(data) =>
      if t.inFlight == 0 then t
      else Effect(t.(hook := Resolved(t.hook, data), inFlight := t.inFlight - 1, responses := t.responses + [data]))
    case Reject(message) =>
      if t.inFlight == 0 then t
      else Effect(t.(hook := Rejected(t.hook, message), inFlight := t.inFlight - 1, rejections := t.rejections + [message]))
  }

  function Play<D>(t: Tab<D>, events: seq<Event<D>>): Tab<D> {
    if events == [] then t else Next(Play(t, events[..|events| - 1]), events[|events| - 1])
  }

  /** What every run keeps, whatever overlaps. */
  ghost predicate Consistent<D>(t: Tab<D>, initial: D) {
    && (t.hook.loading ==> t.hook.error == None)
    && (t.hook.data == initial || t.hook.data in t.responses)
    && (t.responses == [] ==> t.hook.data == initial)
    && (!t.hook.loading && !Shown(t.hook.error) ==> t.hasResolved)
    && (t.responses == [] && !t.hook.loading ==> t.hook.error.Some?)
    && (t.hook.error.Some? ==> t.hook.error.value in t.rejections)
    && (t.responses == [] ==> (t.hasResolved <==> "" in t.rejections))
  }

  lemma {:induction false} RunsAreConsistent<D>(initial: D, events: seq<Event<D>>)
    ensures Consistent(Play(Mounted(initial), events), initial)
  {
    if events != [] {
      RunsAreConsistent(initial, events[..|events| - 1]);
    }
  }

  /** Loading excludes an error, and the data is the initial one or one single response. */
  lemma LoadingExcludesError<D>(initial: D, events: seq<Event<D>>)
    ensures var t := Play(Mounted(initial), events);
            && (t.hook.loading ==> t.hook.error == None)
            && (t.hook.data == initial || t.hook.data in t.responses)
  {
    RunsAreConsistent(initial, events);
  }

  /**
   Before any response has come back, the tab reports an empty collection exactly when some request was
   rejected with an empty message: such a rejection counts as a load.
   */
  lemma EmptyWithoutResponseIff<D>(initial: D, events: seq<Event<D>>, isEmpty: D -> bool)
    requires isEmpty(initial)
    requires Play(Mounted(initial), events).responses == []
    ensures ViewOf(Play(Mounted(initial), events), isEmpty) == Empty <==> "" in Play(Mounted(initial), events).rejections
    ensures ViewOf(Play(Mounted(initial), events), isEmpty) != Table
  {
    RunsAreConsistent(initial, events);
  }

  /** So if every rejection carries a message, Empty and Table appear only after a response. */
  lemma EmptyNeedsResponse<D>(initial: D, events: seq<Event<D>>, isEmpty: D -> bool)
    requires isEmpty(initial)
    requires "" !in Play(Mounted(initial), events).rejections
    ensures ViewOf(Play(Mounted(initial), events), isEmpty) in {Empty, Table} ==> Play(Mounted(initial), events).responses != []
  {
    RunsAreConsistent(initial, events);
  }

  /** Once a load has settled, the skeleton and the fatal error never come back. */
  lemma {:induction false} ResolvedForGood<D>(t: Tab<D>, events: seq<Event<D>>, isEmpty: D -> bool)
    requires t.hasResolved
    ensures Play(t, events).hasResolved
    ensures ViewOf(Play(t, events), isEmpty) in {Empty, Table}
  {
    if events != [] {
      ResolvedForGood(t, events[..|events| - 1], isEmpty);
    }
  }

  // ----- When a response shows -----

  /** Nothing loads and no error is shown: the load counts as settled. */
  predicate Clear<D>(t: Tab<D>) {
    !t.hook.loading && !Shown(t.hook.error)
  }

  /** A tab has resolved exactly if it was clear at some moment of its run. */
  lemma {:induction false} HasResolvedIff<D>(initial: D, events: seq<Event<D>>)
    ensures Play(Mounted(initial), events).hasResolved <==>
            exists k :: 0 <= k <= |events| && Clear(Play(Mounted(initial), events[..k]))
  {
    hide Next, Clear;
    var n := |events|;
    assert events[..n] == events;
    if n == 0 {
      MountedIsOpen(initial);
    } else {
      var before := events[..n - 1];
      HasResolvedIff(initial, before);
      RunIsSettled(initial, before);
      ResolvedNextIff(Play(Mounted(initial), before), events[n - 1]);
      forall k | 0 <= k < n ensures events[..k] == before[..k] {}
    }
  }

  lemma MountedIsOpen<D>(initial: D)
    ensures !Mounted(initial).hasResolved && !Clear(Mounted(initial))
  {}

  lemma RunIsSettled<D>(initial: D, events: seq<Event<D>>)
    ensures Clear(Play(Mounted(initial), events)) ==> Play(Mounted(initial), events).hasResolved
  {
    RunsAreConsistent(initial, events);
  }

  lemma ResolvedNextIff<D>(t: Tab<D>, e: Event<D>)
    requires Clear(t) ==> t.hasResolved
    ensures Next(t, e).hasResolved <==> t.hasResolved || Clear(Next(t, e))
  {}

  // The message of the last failure since the last request; settlements nobody waits for do not count.
  function LastFailure<D>(events: seq<Event<D>>): Option<string> {
    if events == [] then None
    else
      match events[|events| - 1]
      case Request => None
      case Resolve(_) => LastFailure(events[..|events| - 1])
      case Reject(message) => if Open(events[..|events| - 1]) > 0 then Some(message) else LastFailure(events[..|events| - 1])
  }

  // Requests sent and not settled.
  function Open<D>(events: seq<Event<D>>): nat {
    if events == [] then 0
    else
      var open := Open(events[..|events| - 1]);
      if events[|events| - 1].Request? then open + 1 else if open > 0 then open - 1 else 0
  }

  lemma {:induction false} ErrorIsLastFailure<D>(initial: D, events: seq<Event<D>>)
    ensures var t := Play(Mounted(initial), events); t.hook.error == LastFailure(events) && t.inFlight == Open(events)
  {
    if events != [] {
      ErrorIsLastFailure(initial, events[..|events| - 1]);
    }
  }

  /**
   The moment a response arrives, the fatal error hides it exactly if a request failed with a message
   since the last one was sent and no moment before was clear.
   */
  lemma ResponseIsHiddenIff<D>(initial: D, events: seq<Event<D>>, data: D, isEmpty: D -> bool)
    requires Open(events) > 0
    ensures var after := Play(Mounted(initial), events + [Resolve(data)]);
            && after.hook.data == data
            && (ViewOf(after, isEmpty) == FatalError <==>
                  && Shown(LastFailure(events))
                  && forall k :: 0 <= k <= |events| ==> !Clear(Play(Mounted(initial), events[..k])))
            && (ViewOf(after, isEmpty) != FatalError ==> ViewOf(after, isEmpty) == if isEmpty(data) then Empty else Table)
  {
    hide Clear;
    var t := Play(Mounted(initial), events);
    assert (events + [Resolve(data)])[..|events|] == events;
    ErrorIsLastFailure(initial, events);
    HasResolvedIff(initial, events);
  }

  /** So two overlapping first requests, one failing and then one answered, leave the answer hidden. */
  lemma ResponseBehindFailureIsHidden<D>(initial: D, message: string, data: D, isEmpty: D -> bool)
    requires message != ""
    ensures var after := Play(Mounted(initial), [Request, Request, Reject(message), Resolve(data)]);
            after.hook.data == data && after.inFlight == 0 && ViewOf(after, isEmpty) == FatalError
  {
    var t := Mounted(initial);
    var none: seq<Event<D>> := [];
    var one := none + [Request];
    var two := one + [Request];
    var three := two + [Reject(message)];
    PlayOn(t, none, Request);
    PlayOn(t, one, Request);
    PlayOn(t, two, Reject(message));
    PlayOn(t, three, Resolve(data));
    assert three + [Resolve(data)] == [Request, Request, Reject(message), Resolve(data)];
  }

  lemma PlayOn<D>(t: Tab<D>, events: seq<Event<D>>, e: Event<D>)
    ensures Play(t, events + [e]) == Next(Play(t, events), e)
  {
    assert (events + [e])[..|events|] == events;
  }
}
