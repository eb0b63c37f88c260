/**
 The retry and recovery policy of a Responses request, as a small machine over one account: what `proxyResponses` does
 once its pins, flags and detached modes are thought through. Method `ProxyResponses.Handle` is proved to compute `Run`.
 */
module ResponsesRetry {
  import opened Options
  import opened Text

  type Account = string

  /** The stateless upstream endpoint that a recovery translates the transcript to. */
  datatype Route = NoRoute | ChatRoute | MessagesRoute

  datatype Session = OrphanSession | CanonicalSession(account: Account) | SplitSession

  /** What the sticky stores and the account registry say when the request arrives. */
  datatype Stores = Stores(replayOwner: Option<Account>, turnOwner: Option<Account>, session: Session,
                           blocked: set<Account>, running: set<Account>)

  datatype Request = Request(
    pool: bool, maxAttempts: nat, previousId: string, callIds: seq<string>, optIn: bool, degradable: bool,
    passthroughOn: bool, translateOn: bool, model: string, noWorker: set<Account>, stores: Stores)

  datatype Outcome =
    | RewriteError
    | ProxyError
    | Response(status: nat, saysReplayInvalid: bool, saysFatal: bool)

  datatype Moment = Start | StartAgain | At(attempt: nat)

  /** Everything outside the request: pool selection, rate limiter, replay store, upstream and token refresh. Each is
      consulted at most once per moment, so functions of the moment cover every behaviour. */
  datatype World = World(
    pick: set<Account> -> Option<Account>, allowed: nat -> bool, replayable: nat -> bool, upstream: nat -> Outcome,
    refresh: nat -> bool, eligible: Moment -> bool)

  datatype Mode = Direct | DetachedSame | DetachedCross | Translated(route: Route, seeded: bool)

  datatype Body = Original | Textified

  datatype Action =
    | Pick(exclude: set<Account>)
    | Limit(account: Account)
    | Send(account: Account, mode: Mode, body: Body, live: bool)
    | Refresh(account: Account)

  datatype Reply =
    | Unavailable | Split | Expired
    | NoAccount | RateLimited
    | BadRequest | BadGateway | UpstreamOrphan
    | Forward(status: nat)

  // ----- Binding -----

  datatype Binding = Canonical(account: Account) | AccountUnavailable(account: Account) | SplitHistory | Orphan

  /** The account that owns the history, if the stores agree on one. A previous response id outranks the call ids. */
  function Owner(r: Request): Option<Account> {
    if r.previousId != "" then (if r.stores.replayOwner.Some? then r.stores.replayOwner else r.stores.turnOwner)
    else if r.callIds != [] && r.stores.session.CanonicalSession? then Some(r.stores.session.account)
    else None
  }

  predicate Available(r: Request, a: Account) {
    a !in r.stores.blocked && a in r.stores.running
  }

  function BindingOf(r: Request): Binding {
    if Owner(r).Some? then
      (if Available(r, Owner(r).value) then Canonical(Owner(r).value) else AccountUnavailable(Owner(r).value))
    else if r.previousId == "" && r.callIds != [] && r.stores.session.SplitSession? then SplitHistory
    else Orphan
  }

  predicate Continuation(r: Request) {
    r.previousId != "" || r.callIds != []
  }

  /** The gpt-5 family and Claude are served through messages, every other named model through chat completions. */
  function RouteForModel(model: string): Route {
    var m := ToLower(TrimSpace(model));
    if m == "" then NoRoute
    else if HasPrefix(m, "gpt-5") || HasPrefix(m, "claude-") then MessagesRoute
    else ChatRoute
  }

  /** The route a recovery takes if it can be armed at this moment. */
  function RecoveryRoute(r: Request, w: World, m: Moment): Route {
    if r.passthroughOn && r.translateOn && w.eligible(m) then RouteForModel(r.model) else NoRoute
  }

  // ----- Outcomes -----

  predicate ReplayInvalid(o: Outcome) {
    o.Response? && o.saysReplayInvalid && (o.status == 400 || o.status == 401)
  }

  predicate Fatal(o: Outcome) {
    o.Response? && o.saysFatal && (o.status == 400 || o.status == 402)
  }

  predicate RetryableStatus(status: nat) {
    status == 429 || status == 401 || 500 <= status <= 599
  }

  /** Failures of the account or the transport, which another try may cure. */
  predicate Transient(o: Outcome) {
    o.ProxyError? || Fatal(o) || (o.Response? && RetryableStatus(o.status))
  }

  // ----- The machine -----

  /** `live` says that account-owned continuation ids are still in the request; `spent` that the one degrade or late
      recovery of the request has happened. */
  datatype State = State(attempt: nat, limit: nat, live: bool, spent: bool, route: Route, seeded: bool, body: Body,
                         refreshed: bool)

  function Measure(st: State): int {
    st.limit - st.attempt + (if st.refreshed then 0 else 1) + (if st.spent then 0 else 1)
  }

  datatype Reaction = Answer(reply: Reply) | Again(next: State)

  predicate Last(st: State) {
    st.attempt + 1 >= st.limit
  }

  function ModeOf(st: State): Mode {
    if st.route == NoRoute then Direct else Translated(st.route, st.seeded)
  }

  /** What a replay-invalid answer leads to: the opt-in degrade, the late recovery, or another try of an armed one. */
  function OnReplayInvalid(r: Request, w: World, st: State): Reaction {
    var next := st.(attempt := st.attempt + 1);
    var route := RecoveryRoute(r, w, At(st.attempt));
    if r.optIn && Continuation(r) && !st.spent && !Last(st) && r.degradable then
      Again(next.(live := false, spent := true, body := Textified))
    else if !st.spent && st.route == NoRoute && route != NoRoute then
      Again(next.(live := false, spent := true, route := route, seeded := true,
                  limit := if Last(st) then st.limit + 1 else st.limit))
    else if st.route != NoRoute && r.pool && !Last(st) then Again(next)
    else Answer(UpstreamOrphan)
  }

  predicate Refreshes(st: State, o: Outcome) {
    o.Response? && !ReplayInvalid(o) && o.status == 401 && !st.refreshed && !Last(st)
  }

  function React(r: Request, w: World, st: State, o: Outcome): Reaction {
    var next := st.(attempt := st.attempt + 1);
    if o.RewriteError? then Answer(BadRequest)
    else if ReplayInvalid(o) then OnReplayInvalid(r, w, st)
    else if Refreshes(st, o) then
      Again(next.(refreshed := true, limit := if w.refresh(st.attempt) then st.limit + 1 else st.limit))
    else if Transient(o) && !Last(st) && !st.live then Again(next)
    else Answer(if o.ProxyError? then BadGateway else Forward(o.status))
  }

  lemma ReactDecreases(r: Request, w: World, st: State, o: Outcome)
    requires st.attempt < st.limit && React(r, w, st, o).Again?
    ensures var next := React(r, w, st, o).next;
      && next.attempt == st.attempt + 1 && next.attempt < next.limit
      && st.limit <= next.limit <= st.limit + 1
      && 0 <= Measure(next) < Measure(st)
  {
  }

  /** The actions of one attempt that passes the rate limiter. */
  function Head(w: World, a: Account, st: State): seq<Action> {
    [Limit(a), Send(a, ModeOf(st), st.body, st.live)] + (if Refreshes(st, w.upstream(st.attempt)) then [Refresh(a)] else [])
  }

  /** All attempts of a request on account `a`. */
  function Serve(r: Request, w: World, a: Account, st: State): (seq<Action>, Reply)
    requires st.attempt < st.limit
    decreases Measure(st)
  {
    if !w.allowed(st.attempt) then ([Limit(a)], RateLimited)
    else
      match React(r, w, st, w.upstream(st.attempt))
      case Answer(reply) => (Head(w, a, st), reply)
      case Again(next) =>
        ReactDecreases(r, w, st, w.upstream(st.attempt));
        (Head(w, a, st) + Serve(r, w, a, next).0, Serve(r, w, a, next).1)
  }

  datatype Opening = Refused(reply: Reply) | Bound(account: Account, st: State) | Unbound(exclude: set<Account>, st: State)

  function Fresh(r: Request, route: Route): State {
    State(0, r.maxAttempts, false, false, route, false, Original, false)
  }

  /** How a request starts: a plain request or a recovered one goes to the pool, a bound continuation to its owner. */
  function Open(r: Request, w: World): Opening {
    if !Continuation(r) then Unbound({}, Fresh(r, NoRoute))
    else match BindingOf(r)
      case Canonical(a) => Bound(a, Fresh(r, NoRoute).(live := true))
      case AccountUnavailable(_) =>
        var route := RecoveryRoute(r, w, Start);
        if route != NoRoute && r.callIds != [] then Unbound({}, Fresh(r, route)) else Refused(Unavailable)
      case SplitHistory =>
        var route := RecoveryRoute(r, w, Start);
        if route != NoRoute && r.callIds != [] then Unbound({}, Fresh(r, route)) else Refused(Split)
      case Orphan =>
        if !r.optIn && r.passthroughOn && r.callIds != [] && w.eligible(Start) then
          Unbound(if r.pool && !r.translateOn then r.noWorker else {}, Fresh(r, RecoveryRoute(r, w, StartAgain)))
        else if r.optIn && r.degradable then Unbound({}, Fresh(r, NoRoute).(spent := true, body := Textified))
        else Refused(Expired)
  }

  /** The actions of a request and the one reply it gets. */
  function Run(r: Request, w: World): (seq<Action>, Reply)
    requires r.maxAttempts >= 1
  {
    match Open(r, w)
    case Refused(reply) => ([], reply)
    case Bound(a, st) => Serve(r, w, a, st)
    case Unbound(exclude, st) =>
      match w.pick(exclude)
      case None => ([Pick(exclude)], NoAccount)
      case Some(a) =>
        var (actions, reply) := Serve(r, w, a, st);
        ([Pick(exclude)] + actions, reply)
  }
}
