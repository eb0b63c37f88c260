/** What the retry policy guarantees over whole requests. */
module ResponsesRetryLaws {
  import opened Options
  import opened Text
  import opened ResponsesRetry

  // ----- Outcomes, in their own fields -----

  /** Upstream says that it does not know the history. */
  predicate Lost(o: Outcome) {
    o.Response? && o.saysReplayInvalid && o.status in {400, 401}
  }

  /** Failures of the account or the transport: no answer, a spent quota or unsupported model, 401, 429 and the 5xx. */
  predicate Passing(o: Outcome) {
    o.ProxyError? ||
    (o.Response? && ((o.saysFatal && o.status in {400, 402}) || o.status in {401, 429} || o.status / 100 == 5))
  }

  lemma OutcomesAre(o: Outcome)
    ensures ReplayInvalid(o) <==> Lost(o)
    ensures Transient(o) <==> Passing(o)
  {
  }

  // ----- The dispatches of a run -----

  /** The actions that send a request upstream. */
  function Sends(actions: seq<Action>): (r: seq<Action>)
    ensures forall k | 0 <= k < |r| :: r[k].Send?
  {
    if actions == [] then []
    else if actions[0].Send? then [actions[0]] + Sends(actions[1..])
    else Sends(actions[1..])
  }

  lemma {:induction false} SendsConcat(a: seq<Action>, b: seq<Action>)
    ensures Sends(a + b) == Sends(a) + Sends(b)
  {
    if a == [] {
      assert a + b == b;
    } else {
      assert (a + b)[1..] == a[1..] + b;
      SendsConcat(a[1..], b);
    }
  }

  /** The policy states in which the attempts were sent. */
  function Trail(r: Request, w: World, st: State): (t: seq<State>)
    requires st.attempt < st.limit
    decreases Measure(st)
  {
    if !w.allowed(st.attempt) then []
    else
      match React(r, w, st, w.upstream(st.attempt))
      case Answer(_) => [st]
      case Again(next) => ReactDecreases(r, w, st, w.upstream(st.attempt)); [st] + Trail(r, w, next)
  }

  function SendOf(a: Account, st: State): Action {
    Send(a, ModeOf(st), st.body, st.live)
  }

  lemma HeadSends(w: World, a: Account, st: State)
    ensures Sends(Head(w, a, st)) == [SendOf(a, st)]
  {
    var send, refresh := SendOf(a, st), if Refreshes(st, w.upstream(st.attempt)) then [Refresh(a)] else [];
    SendsConcat([Limit(a), send], refresh);
    assert [Limit(a), send][1..] == [send] && [send][1..] == [];
    assert Sends([send]) == [send];
    assert Sends(refresh) == [] by {
      if refresh != [] {
        assert refresh[1..] == [];
      }
    }
  }

  lemma {:induction false} SendsAlongTrail(r: Request, w: World, a: Account, st: State)
    requires st.attempt < st.limit
    ensures var s, t := Sends(Serve(r, w, a, st).0), Trail(r, w, st);
      |s| == |t| && forall k | 0 <= k < |t| :: s[k] == SendOf(a, t[k])
    decreases Measure(st)
  {
    if w.allowed(st.attempt) {
      HeadSends(w, a, st);
      var reaction := React(r, w, st, w.upstream(st.attempt));
      if reaction.Again? {
        ReactDecreases(r, w, st, w.upstream(st.attempt));
        SendsAlongTrail(r, w, a, reaction.next);
        SendsConcat(Head(w, a, st), Serve(r, w, a, reaction.next).0);
      }
    } else {
      assert [Limit(a)][1..] == [];
    }
  }

  /** Each attempt of the trail leads to the next; the last one to the reply, unless the rate limiter cuts in. */
  ghost predicate Chained(r: Request, w: World, st: State, t: seq<State>, reply: Reply) {
    && (t != [] ==> t[0] == st)
    && (forall k | 0 <= k < |t| :: t[k].attempt == st.attempt + k && t[k].attempt < t[k].limit)
    && (forall k | 0 <= k < |t| - 1 :: React(r, w, t[k], w.upstream(t[k].attempt)) == Again(t[k + 1]))
    && (reply.RateLimited? || (t != [] && React(r, w, t[|t| - 1], w.upstream(t[|t| - 1].attempt)) == Answer(reply)))
    && (reply.RateLimited? && t != [] ==> React(r, w, t[|t| - 1], w.upstream(t[|t| - 1].attempt)).Again?)
  }

  lemma {:induction false} TrailChained(r: Request, w: World, a: Account, st: State)
    requires st.attempt < st.limit
    ensures Chained(r, w, st, Trail(r, w, st), Serve(r, w, a, st).1)
    decreases Measure(st)
  {
    hide React, Measure;
    if w.allowed(st.attempt) {
      var reaction := React(r, w, st, w.upstream(st.attempt));
      if reaction.Again? {
        ReactDecreases(r, w, st, w.upstream(st.attempt));
        TrailChained(r, w, a, reaction.next);
        ChainedCons(r, w, st, Trail(r, w, reaction.next), Serve(r, w, a, reaction.next).1);
      } else {
        AnswerNotLimited(r, w, st);
      }
    }
  }

  lemma AnswerNotLimited(r: Request, w: World, st: State)
    ensures React(r, w, st, w.upstream(st.attempt)).Answer? ==> !React(r, w, st, w.upstream(st.attempt)).reply.RateLimited?
  {
  }

  lemma ChainedCons(r: Request, w: World, st: State, t: seq<State>, reply: Reply)
    requires st.attempt < st.limit && React(r, w, st, w.upstream(st.attempt)).Again?
    requires var next := React(r, w, st, w.upstream(st.attempt)).next;
      next.attempt == st.attempt + 1 && Chained(r, w, next, t, reply)
    ensures Chained(r, w, st, [st] + t, reply)
  {
    hide React;
    var all := [st] + t;
    assert forall k | 1 <= k < |all| :: all[k] == t[k - 1];
  }

  // ----- How many dispatches -----

  /** Attempts still possible: the budget, one more after a token refresh and one more after a late recovery. */
  function Bound(st: State): int {
    st.limit - st.attempt + (if st.refreshed || Last(st) then 0 else 1) + (if st.spent then 0 else 1)
  }

  lemma ReactBound(r: Request, w: World, st: State)
    requires st.attempt < st.limit && React(r, w, st, w.upstream(st.attempt)).Again?
    ensures Bound(React(r, w, st, w.upstream(st.attempt)).next) < Bound(st)
  {
  }

  lemma {:induction false} TrailBound(r: Request, w: World, st: State)
    requires st.attempt < st.limit
    ensures |Trail(r, w, st)| <= Bound(st)
    decreases Measure(st)
  {
    if w.allowed(st.attempt) && React(r, w, st, w.upstream(st.attempt)).Again? {
      ReactDecreases(r, w, st, w.upstream(st.attempt));
      ReactBound(r, w, st);
      TrailBound(r, w, React(r, w, st, w.upstream(st.attempt)).next);
    }
  }

  /** Between two attempts: continuation state only ever disappears, a route once taken and a textified body stay. */
  ghost predicate Later(a: State, b: State) {
    && (b.live ==> a.live) && (a.route != NoRoute ==> b.route == a.route && b.seeded == a.seeded)
    && (a.body == Textified ==> b.body == Textified)
    && (a.spent ==> b.spent && b.route == a.route && b.body == a.body)
    && b.limit - b.attempt >= a.limit - a.attempt - (b.attempt - a.attempt)
  }

  lemma ReactLater(r: Request, w: World, st: State, o: Outcome)
    requires React(r, w, st, o).Again?
    ensures Later(st, React(r, w, st, o).next)
  {
  }

  lemma {:induction false} TrailLater(r: Request, w: World, st: State, t: seq<State>, reply: Reply, i: nat, j: nat)
    requires Chained(r, w, st, t, reply) && i <= j < |t|
    ensures Later(t[i], t[j])
    decreases j - i
  {
    if i < j {
      assert React(r, w, t[i], w.upstream(t[i].attempt)) == Again(t[i + 1]);
      ReactLater(r, w, t[i], w.upstream(t[i].attempt));
      TrailLater(r, w, st, t, reply, i + 1, j);
    }
  }

  // ----- The laws -----

  /** The run of a request that starts in `st` and is served by account `a`. */
  ghost predicate Serves(r: Request, w: World, a: Account, st: State, run: (seq<Action>, Reply))
    requires st.attempt < st.limit
  {
    match Open(r, w)
    case Refused(_) => false
    case Bound(account, start) => a == account && st == start && run == Serve(r, w, a, st)
    case Unbound(exclude, start) =>
      && w.pick(exclude) == Some(a) && st == start
      && run == ([Pick(exclude)] + Serve(r, w, a, st).0, Serve(r, w, a, st).1)
  }

  /** Whether a run sends anything, and if so how it starts. */
  datatype Case = Silent | Served(account: Account, st: State)

  lemma RunCase(r: Request, w: World) returns (c: Case)
    requires r.maxAttempts >= 1
    ensures c.Silent? ==> Run(r, w).0 == [] || (Open(r, w).Unbound? && Run(r, w).0 == [Pick(Open(r, w).exclude)])
    ensures c.Silent? ==> Sends(Run(r, w).0) == [] && Run(r, w).1 in {Unavailable, Split, Expired, NoAccount}
    ensures c.Served? ==> c.st.attempt == 0 && c.st.limit == r.maxAttempts && Sound(c.st) && !c.st.refreshed
    ensures c.Served? ==> Serves(r, w, c.account, c.st, Run(r, w)) && Start(r, w, c)
  {
    match Open(r, w)
    case Refused(reply) => c := Silent;
    case Bound(account, st) => c := Served(account, st);
    case Unbound(exclude, st) =>
      c := if w.pick(exclude).Some? then Served(w.pick(exclude).value, st) else Silent;
      assert [Pick(exclude)][1..] == [];
  }

  /** A live start is a continuation bound to its available owner. */
  ghost predicate Start(r: Request, w: World, c: Case)
    requires c.Served?
  {
    c.st.live ==> c.st.body == Original && Owner(r) == Some(c.account) && Available(r, c.account)
  }

  /** Continuation state excludes recovery and degrade; a spent request shows it in its body or route. */
  ghost predicate Sound(st: State) {
    && (st.live ==> st.route == NoRoute && !st.spent)
    && (st.spent ==> st.body == Textified || st.route != NoRoute)
  }

  lemma ReactSound(r: Request, w: World, st: State, o: Outcome)
    requires Sound(st) && React(r, w, st, o).Again?
    ensures Sound(React(r, w, st, o).next)
  {
  }

  lemma {:induction false} TrailSound(r: Request, w: World, st: State, t: seq<State>, reply: Reply, k: nat)
    requires Chained(r, w, st, t, reply) && k < |t| && Sound(st)
    ensures Sound(t[k])
  {
    if k > 0 {
      TrailSound(r, w, st, t, reply, k - 1);
      assert React(r, w, t[k - 1], w.upstream(t[k - 1].attempt)) == Again(t[k]);
      ReactSound(r, w, t[k - 1], w.upstream(t[k - 1].attempt));
    }
  }

  lemma ServedSends(r: Request, w: World, a: Account, st: State)
    requires r.maxAttempts >= 1 && st.attempt < st.limit && Serves(r, w, a, st, Run(r, w))
    ensures Chained(r, w, st, Trail(r, w, st), Run(r, w).1)
    ensures var s, t := Sends(Run(r, w).0), Trail(r, w, st);
      |s| == |t| && forall k | 0 <= k < |t| :: s[k] == SendOf(a, t[k])
  {
    hide Run, Serve, Open;
    TrailChained(r, w, a, st);
    SendsAlongTrail(r, w, a, st);
    if Open(r, w).Unbound? {
      var pick := [Pick(Open(r, w).exclude)];
      SendsConcat(pick, Serve(r, w, a, st).0);
      assert pick[1..] == [];
      assert Sends(pick) == [];
      assert [] + Sends(Serve(r, w, a, st).0) == Sends(Serve(r, w, a, st).0);
    }
  }

  /** A request is sent at most two times more often than the configured attempts, and at most twice if only one attempt
      is configured. */
  lemma DispatchBound(r: Request, w: World)
    requires r.maxAttempts >= 1
    ensures |Sends(Run(r, w).0)| <= r.maxAttempts + (if r.maxAttempts == 1 then 1 else 2)
  {
    hide Run, Serve;
    var c := RunCase(r, w);
    if c.Served? {
      ServedSends(r, w, c.account, c.st);
      TrailBound(r, w, c.st);
    }
  }

  /** All dispatches of a request go to one account; both detached modes are unreachable; continuation state, once gone,
      stays gone; a recovery route, once taken, is the mode of every later dispatch; a textified body stays. */
  lemma DispatchDiscipline(r: Request, w: World, i: nat, j: nat)
    requires r.maxAttempts >= 1 && i <= j < |Sends(Run(r, w).0)|
    ensures var x, y := Sends(Run(r, w).0)[i], Sends(Run(r, w).0)[j];
      && x.account == y.account && !x.mode.DetachedSame? && !x.mode.DetachedCross?
      && (y.live ==> x.live) && (x.mode.Translated? ==> y.mode == x.mode) && (x.body == Textified ==> y.body == Textified)
  {
    hide Run, Chained, Serve, Trail, Serves;
    var c := RunCase(r, w);
    ServedSends(r, w, c.account, c.st);
    TrailLater(r, w, c.st, Trail(r, w, c.st), Run(r, w).1, i, j);
  }

  /** An attempt that still carries continuation ids goes directly to the available owner of the history. It is the
      first one, or the second after a 401 of the first. */
  lemma LiveDispatches(r: Request, w: World, k: nat)
    requires r.maxAttempts >= 1 && k < |Sends(Run(r, w).0)| && Sends(Run(r, w).0)[k].live
    ensures var x := Sends(Run(r, w).0)[k];
      && x.mode == Direct && x.body == Original && Owner(r) == Some(x.account) && Available(r, x.account)
      && k <= 1 && (k == 1 ==> var o := w.upstream(0); o.Response? && o.status == 401 && !Lost(o))
  {
    OutcomesAre(w.upstream(0));
    hide Run, Serve, Trail, Serves, React, ReplayInvalid, Lost;
    var c := RunCase(r, w);
    ServedSends(r, w, c.account, c.st);
    var t, reply := Trail(r, w, c.st), Run(r, w).1;
    TrailLater(r, w, c.st, t, reply, 0, k);
    TrailSound(r, w, c.st, t, reply, k);
    if k >= 1 {
      TrailLater(r, w, c.st, t, reply, 1, k);
      assert React(r, w, t[0], w.upstream(t[0].attempt)) == Again(t[1]);
      LiveRetry(r, w, t[0], w.upstream(0));
      if k >= 2 {
        TrailSound(r, w, c.st, t, reply, 1);
        TrailLater(r, w, c.st, t, reply, 2, k);
        assert React(r, w, t[1], w.upstream(t[1].attempt)) == Again(t[2]);
        LiveRetry(r, w, t[1], w.upstream(1));
      }
    }
  }

  lemma LiveRetry(r: Request, w: World, st: State, o: Outcome)
    requires Sound(st) && React(r, w, st, o).Again? && React(r, w, st, o).next.live
    ensures o.Response? && o.status == 401 && !ReplayInvalid(o) && !st.refreshed
    ensures React(r, w, st, o).next.refreshed && React(r, w, st, o).next.body == st.body
  {
  }

  /** The answer to the last outcome, when it is not worth another try. */
  function Verdict(o: Outcome): Reply {
    if o.RewriteError? then BadRequest
    else if o.ProxyError? then BadGateway
    else if Lost(o) then UpstreamOrphan
    else Forward(o.status)
  }

  predicate Failure(o: Outcome) {
    Lost(o) || Passing(o)
  }

  lemma ReactVerdict(r: Request, w: World, st: State, o: Outcome)
    ensures React(r, w, st, o).Answer? ==> React(r, w, st, o).reply == Verdict(o)
    ensures React(r, w, st, o).Again? ==> Failure(o)
  {
  }

  /** No outcome but a failure is ever thrown away, and the reply tells the last outcome, unless the rate limiter stops
      the request. */
  lemma LastOutcomeAnswers(r: Request, w: World)
    requires r.maxAttempts >= 1
    ensures var s, reply := Sends(Run(r, w).0), Run(r, w).1;
      && (forall k | 0 <= k < |s| - 1 :: Failure(w.upstream(k)))
      && (s == [] ==> reply in {Unavailable, Split, Expired, NoAccount, RateLimited})
      && (s != [] ==> reply == Verdict(w.upstream(|s| - 1)) || (reply == RateLimited && Failure(w.upstream(|s| - 1))))
  {
    hide Run, Serve, Trail, React, Verdict, Failure, Serves;
    var c := RunCase(r, w);
    if c.Served? {
      ServedSends(r, w, c.account, c.st);
      var t := Trail(r, w, c.st);
      forall k | 0 <= k < |t|
        ensures var x := React(r, w, t[k], w.upstream(k));
          (x.Answer? ==> x.reply == Verdict(w.upstream(k))) && (x.Again? ==> Failure(w.upstream(k)))
      {
        ReactVerdict(r, w, t[k], w.upstream(k));
      }
      forall k | 0 <= k < |t| - 1
        ensures Failure(w.upstream(k))
      {
        assert React(r, w, t[k], w.upstream(t[k].attempt)) == Again(t[k + 1]);
      }
    }
  }

  /** A transient failure reaches the client only from a live continuation or once all configured attempts are used. */
  lemma GivesUpLate(r: Request, w: World)
    requires r.maxAttempts >= 1 && Sends(Run(r, w).0) != []
    ensures var s, reply := Sends(Run(r, w).0), Run(r, w).1;
      var o := w.upstream(|s| - 1);
      !reply.RateLimited? && Passing(o) && !Lost(o) && !s[|s| - 1].live ==> |s| >= r.maxAttempts
  {
    hide Run, Serve, Trail, Transient, ReplayInvalid, Passing, Lost, React, Serves;
    OutcomesAre(w.upstream(|Sends(Run(r, w).0)| - 1));
    var c := RunCase(r, w);
    ServedSends(r, w, c.account, c.st);
    var t := Trail(r, w, c.st);
    TrailLater(r, w, c.st, t, Run(r, w).1, 0, |t| - 1);
    SpentBudget(r, w, t[|t| - 1], w.upstream(|t| - 1));
  }

  lemma SpentBudget(r: Request, w: World, st: State, o: Outcome)
    ensures React(r, w, st, o).Answer? && Transient(o) && !ReplayInvalid(o) && !st.live ==> Last(st)
  {
  }

  /** The client is told that the history is lost only if the late recovery cannot be armed at that moment, or the
      request has already been degraded or recovered. */
  lemma OrphanAnswer(r: Request, w: World)
    requires r.maxAttempts >= 1 && Run(r, w).1 == UpstreamOrphan
    ensures var s := Sends(Run(r, w).0);
      && s != [] && Lost(w.upstream(|s| - 1))
      && (s[|s| - 1].mode == Direct && s[|s| - 1].body == Original ==> RecoveryRoute(r, w, At(|s| - 1)) == NoRoute)
      && (s[|s| - 1].mode.Translated? && r.pool ==> |s| >= r.maxAttempts)
  {
    hide Run, Serve, Trail, RecoveryRoute, React, Serves;
    var c := RunCase(r, w);
    ServedSends(r, w, c.account, c.st);
    var t, reply := Trail(r, w, c.st), Run(r, w).1;
    TrailLater(r, w, c.st, t, reply, 0, |t| - 1);
    TrailSound(r, w, c.st, t, reply, |t| - 1);
    OrphanReaction(r, w, t[|t| - 1], w.upstream(|t| - 1));
  }

  lemma OrphanReaction(r: Request, w: World, st: State, o: Outcome)
    requires React(r, w, st, o) == Answer(UpstreamOrphan)
    ensures ReplayInvalid(o)
    ensures st.route == NoRoute && !st.spent ==> RecoveryRoute(r, w, At(st.attempt)) == NoRoute
    ensures st.route != NoRoute && r.pool ==> Last(st)
  {
  }

  // ----- Side effects -----

  predicate Once(actions: seq<Action>) {
    forall i, j | 0 <= i < j < |actions| :: !(actions[i].Refresh? && actions[j].Refresh?)
  }

  /** Tokens are refreshed at most once, after the pool was consulted at most once and before anything else. */
  lemma {:induction false} ServeActions(r: Request, w: World, a: Account, st: State)
    requires st.attempt < st.limit
    ensures var actions := Serve(r, w, a, st).0;
      && (forall x | x in actions :: !x.Pick? && x.account == a)
      && Once(actions) && (st.refreshed ==> forall x | x in actions :: !x.Refresh?)
    decreases Measure(st)
  {
    hide Once, Measure;
    OnceShort(Head(w, a, st));
    OnceShort([Limit(a)]);
    if w.allowed(st.attempt) {
      var reaction := React(r, w, st, w.upstream(st.attempt));
      if reaction.Again? {
        ReactDecreases(r, w, st, w.upstream(st.attempt));
        RefreshReaction(r, w, st, w.upstream(st.attempt));
        ServeActions(r, w, a, reaction.next);
        OnceConcat(Head(w, a, st), Serve(r, w, a, reaction.next).0);
      }
    }
  }

  lemma RefreshReaction(r: Request, w: World, st: State, o: Outcome)
    requires React(r, w, st, o).Again?
    ensures React(r, w, st, o).next.refreshed <==> st.refreshed || Refreshes(st, o)
  {
  }

  lemma OnceShort(actions: seq<Action>)
    requires forall i | 0 <= i < |actions| - 1 :: !actions[i].Refresh?
    ensures Once(actions)
  {
  }

  lemma OnceConcat(a: seq<Action>, b: seq<Action>)
    requires Once(a) && Once(b) && ((forall x | x in a :: !x.Refresh?) || (forall x | x in b :: !x.Refresh?))
    ensures Once(a + b)
  {
    forall i, j | 0 <= i < j < |a + b|
      ensures !((a + b)[i].Refresh? && (a + b)[j].Refresh?)
    {
      assert i < |a| ==> (a + b)[i] in a;
      assert j >= |a| ==> (a + b)[j] in b;
    }
  }

  /** The pool is consulted at most once and only first, never for a bound continuation, and at most one token refresh
      happens. */
  lemma SideEffects(r: Request, w: World)
    requires r.maxAttempts >= 1
    ensures var actions := Run(r, w).0;
      && Once(actions)
      && (forall k | 0 <= k < |actions| && actions[k].Pick? :: k == 0 && Open(r, w).Unbound?)
  {
    hide Once, Serve;
    var c := RunCase(r, w);
    if c.Served? {
      var actions := Serve(r, w, c.account, c.st).0;
      ServeActions(r, w, c.account, c.st);
      assert forall k | 0 <= k < |actions| :: actions[k] in actions;
      if Open(r, w).Unbound? {
        OnceShort([Pick(Open(r, w).exclude)]);
        OnceConcat([Pick(Open(r, w).exclude)], actions);
      }
    } else {
      OnceShort(Run(r, w).0);
    }
  }

  // ----- The bound is tight -----

  /** A pooled request without continuation state, with recovery through chat completions switched on. */
  function PlainRequest(maxAttempts: nat): Request {
    Request(true, maxAttempts, "", [], false, false, true, true, "o3", {},
            Stores(None, None, OrphanSession, {}, {"a"}))
  }

  /** Upstream rejects the token first, then fails, and answers `replayInvalidAt` with a lost history. */
  function Trouble(replayInvalidAt: nat): World {
    World(_ => Some("a"), _ => true, _ => false,
          n => if n == replayInvalidAt then Response(400, true, false)
               else if n == 0 then Response(401, false, false) else Response(500, false, false),
          _ => true, _ => true)
  }

  /** Three configured attempts can become five dispatches, one can become two. */
  lemma DispatchBoundTight()
    ensures |Sends(Run(PlainRequest(3), Trouble(3)).0)| == 5
    ensures |Sends(Run(PlainRequest(1), Trouble(0)).0)| == 2
  {
    FiveSends();
    TwoSends();
  }

  lemma PlainRoute()
    ensures RouteForModel("o3") == ChatRoute
  {
    var m := "o3";
    TrimFixed(m);
    assert ToLower(m)[0] == 'o' && |ToLower(m)| == 2;
  }

  /** A recovery route is missing exactly for a blank model name. */
  lemma RouteMissingIff(model: string)
    ensures RouteForModel(model) == NoRoute <==> Blank(model)
  {
    assert |ToLower(TrimSpace(model))| == |TrimSpace(model)|;
  }

  lemma FiveSends()
    ensures |Sends(Run(PlainRequest(3), Trouble(3)).0)| == 5
  {
    hide RouteForModel;
    PlainRoute();
    var r, w := PlainRequest(3), Trouble(3);
    var st := Fresh(r, NoRoute);
    var st1 := st.(attempt := 1, limit := 4, refreshed := true);
    var st2, st3 := st1.(attempt := 2), st1.(attempt := 3);
    var st4 := st3.(attempt := 4, limit := 5, spent := true, route := ChatRoute, seeded := true);
    assert React(r, w, st, w.upstream(0)) == Again(st1) && React(r, w, st1, w.upstream(1)) == Again(st2);
    assert React(r, w, st2, w.upstream(2)) == Again(st3) && React(r, w, st3, w.upstream(3)) == Again(st4);
    assert React(r, w, st4, w.upstream(4)) == Answer(Forward(500));
    hide React, Run, Measure;
    TrailMore(r, w, st, st1);
    TrailMore(r, w, st1, st2);
    TrailMore(r, w, st2, st3);
    TrailMore(r, w, st3, st4);
    assert |Trail(r, w, st4)| == 1;
    PlainSends(3, w);
  }

  lemma TwoSends()
    ensures |Sends(Run(PlainRequest(1), Trouble(0)).0)| == 2
  {
    hide RouteForModel;
    PlainRoute();
    var r, w := PlainRequest(1), Trouble(0);
    var st := Fresh(r, NoRoute);
    var st1 := st.(attempt := 1, limit := 2, spent := true, route := ChatRoute, seeded := true);
    assert React(r, w, st, w.upstream(0)) == Again(st1);
    assert React(r, w, st1, w.upstream(1)) == Answer(Forward(500));
    hide React, Run, Measure;
    TrailMore(r, w, st, st1);
    assert |Trail(r, w, st1)| == 1;
    PlainSends(1, w);
  }

  lemma TrailMore(r: Request, w: World, st: State, next: State)
    requires st.attempt < st.limit && next.attempt < next.limit && w.allowed(st.attempt)
    requires React(r, w, st, w.upstream(st.attempt)) == Again(next)
    ensures |Trail(r, w, st)| == 1 + |Trail(r, w, next)|
  {
  }

  lemma PlainSends(n: nat, w: World)
    requires n >= 1 && w.pick({}) == Some("a")
    ensures |Sends(Run(PlainRequest(n), w).0)| == |Trail(PlainRequest(n), w, Fresh(PlainRequest(n), NoRoute))|
  {
    var r := PlainRequest(n);
    assert Open(r, w) == Unbound({}, Fresh(r, NoRoute));
    ServedSends(r, w, "a", Fresh(r, NoRoute));
  }
}
