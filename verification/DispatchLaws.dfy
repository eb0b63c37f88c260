/**
 What is sent and what is answered, said in the request's own fields: which history goes where, with which body, in which
 mode, and which histories are refused.
 */
module DispatchLaws {
  import opened Options
  import opened Text
  import opened ResponsesRetry
  import opened ResponsesRetryLaws

  // ----- The request in its own fields -----

  predicate HasIds(r: Request) {
    r.previousId != "" || r.callIds != []
  }

  /** The replay store outranks the turn store, and a previous response id outranks the call ids. */
  predicate OwnedBy(r: Request, a: Account) {
    if r.previousId != "" then
      r.stores.replayOwner == Some(a) || (r.stores.replayOwner == None && r.stores.turnOwner == Some(a))
    else r.callIds != [] && r.stores.session == CanonicalSession(a)
  }

  predicate Unowned(r: Request) {
    if r.previousId != "" then r.stores.replayOwner == None && r.stores.turnOwner == None
    else r.stores.session == OrphanSession
  }

  predicate Scattered(r: Request) {
    r.previousId == "" && r.callIds != [] && r.stores.session == SplitSession
  }

  predicate Serviceable(r: Request, a: Account) {
    a in r.stores.running && a !in r.stores.blocked
  }

  predicate MessagesModel(model: string) {
    HasPrefix(ToLower(TrimSpace(model)), "gpt-5") || HasPrefix(ToLower(TrimSpace(model)), "claude-")
  }

  /** A translation can be armed at this moment. */
  predicate Translatable(r: Request, w: World, m: Moment) {
    r.passthroughOn && r.translateOn && w.eligible(m) && TrimSpace(r.model) != ""
  }

  /** An unowned history that may be sent on as it is. */
  predicate PassesThrough(r: Request, w: World) {
    Unowned(r) && !r.optIn && r.passthroughOn && r.callIds != [] && w.eligible(Start)
  }

  predicate Degrades(r: Request) {
    HasIds(r) && r.optIn && r.degradable
  }

  lemma RouteIs(r: Request, w: World, m: Moment)
    ensures RecoveryRoute(r, w, m) != NoRoute <==> Translatable(r, w, m)
    ensures RecoveryRoute(r, w, m) == MessagesRoute <==> Translatable(r, w, m) && MessagesModel(r.model)
  {
    assert |ToLower(TrimSpace(r.model))| == |TrimSpace(r.model)|;
  }

  /** What a request starts as, read off its fields. */
  lemma OpenIs(r: Request, w: World)
    ensures !HasIds(r) ==> Open(r, w) == Unbound({}, Fresh(r, NoRoute))
    ensures forall a :: OwnedBy(r, a) && Serviceable(r, a) ==> Open(r, w) == Bound(a, Fresh(r, NoRoute).(live := true))
    ensures (exists a :: OwnedBy(r, a) && !Serviceable(r, a)) ==>
      Open(r, w) == if Translatable(r, w, Start) && r.callIds != [] then Unbound({}, Fresh(r, RecoveryRoute(r, w, Start)))
                    else Refused(Unavailable)
    ensures Scattered(r) ==>
      Open(r, w) == if Translatable(r, w, Start) then Unbound({}, Fresh(r, RecoveryRoute(r, w, Start))) else Refused(Split)
    ensures HasIds(r) && Unowned(r) ==>
      Open(r, w) ==
      if PassesThrough(r, w) then
        Unbound(if r.pool && !r.translateOn then r.noWorker else {}, Fresh(r, RecoveryRoute(r, w, StartAgain)))
      else if Degrades(r) then Unbound({}, Fresh(r, NoRoute).(spent := true, body := Textified))
      else Refused(Expired)
  {
    hide RouteForModel;
    RouteIs(r, w, Start);
  }

  /** Every history is owned, scattered or unowned. */
  lemma Histories(r: Request) returns (owner: Option<Account>)
    requires HasIds(r)
    ensures owner.Some? ==> OwnedBy(r, owner.value)
    ensures owner.None? ==> Scattered(r) || Unowned(r)
    ensures forall a, b :: OwnedBy(r, a) && OwnedBy(r, b) ==> a == b
    ensures (exists a :: OwnedBy(r, a)) ==> !Scattered(r) && !Unowned(r)
    ensures !(Scattered(r) && Unowned(r))
  {
    owner := Owner(r);
  }

  // ----- Refusals -----

  /** Which histories are refused, and how: nothing is sent then, and nobody else gets these replies. */
  lemma RefusedIff(r: Request, w: World)
    requires r.maxAttempts >= 1
    ensures var translates := Translatable(r, w, Start) && r.callIds != [];
      && (Run(r, w).1 == Unavailable <==> !translates && exists a :: OwnedBy(r, a) && !Serviceable(r, a))
      && (Run(r, w).1 == Split <==> !translates && Scattered(r))
      && (Run(r, w).1 == Expired <==> HasIds(r) && Unowned(r) && !PassesThrough(r, w) && !Degrades(r))
    ensures Run(r, w).1 in {Unavailable, Split, Expired} ==> Run(r, w).0 == []
  {
    hide Serve, RouteForModel, RecoveryRoute, Translatable, Serviceable, Open, BindingOf;
    OpenIs(r, w);
    RunReply(r, w);
    if HasIds(r) {
      var owner := Histories(r);
    }
  }

  /** A refusal is the reply of the run, and no other run gives one of the three replies. */
  lemma RunReply(r: Request, w: World)
    requires r.maxAttempts >= 1
    ensures Open(r, w).Refused? ==> Run(r, w) == ([], Open(r, w).reply) && Open(r, w).reply in {Unavailable, Split, Expired}
    ensures !Open(r, w).Refused? ==> Run(r, w).1 !in {Unavailable, Split, Expired}
  {
    hide Serve;
    match Open(r, w)
    case Refused(_) =>
    case Bound(a, st) => ServeReply(r, w, a, st);
    case Unbound(exclude, st) =>
      if w.pick(exclude).Some? {
        ServeReply(r, w, w.pick(exclude).value, st);
      }
  }

  lemma {:induction false} ServeReply(r: Request, w: World, a: Account, st: State)
    requires st.attempt < st.limit
    ensures Serve(r, w, a, st).1 !in {Unavailable, Split, Expired, NoAccount}
    ensures Serve(r, w, a, st).0 != [] && Serve(r, w, a, st).0[0] == Limit(a)
    decreases Measure(st)
  {
    hide Measure;
    if w.allowed(st.attempt) {
      var x := React(r, w, st, w.upstream(st.attempt));
      if x.Again? {
        ReactDecreases(r, w, st, w.upstream(st.attempt));
        ServeReply(r, w, a, x.next);
      }
    }
  }

  // ----- What an attempt may carry -----

  /** Books of an attempt: ids are live, or the body is textified, or a route is taken, or none of these. */
  ghost predicate Booked(st: State) {
    && (st.live ==> st.route == NoRoute && st.body == Original && !st.spent && !st.seeded)
    && (st.body == Textified ==> st.spent)
    && (st.seeded ==> st.spent && st.route != NoRoute)
    && (st.spent ==> st.body == Textified || (st.route != NoRoute && st.seeded))
    && (st.seeded ==> st.body == Original)
  }

  lemma ReactBooked(r: Request, w: World, st: State, o: Outcome)
    requires Booked(st) && React(r, w, st, o).Again?
    ensures Booked(React(r, w, st, o).next)
  {
  }

  /** What the attempts of request `r` may look like, given how the first one looked. */
  ghost predicate Fits(r: Request, w: World, first: State, st: State) {
    && Booked(st)
    && (st.body == Textified ==> first.body == Textified || Degrades(r))
    && (st.route != NoRoute ==> r.passthroughOn && r.translateOn && (st.route == MessagesRoute <==> MessagesModel(r.model)))
    && (st.seeded <==> st.route != NoRoute && first.route == NoRoute)
    && (st.route == NoRoute ==> first.route == NoRoute)
    && (first.spent ==> st.body == Textified && st.route == NoRoute)
    && (first.live && !st.live ==> st.body == Textified || st.route != NoRoute)
    && (st.live ==> first.live)
  }

  lemma ReactFits(r: Request, w: World, first: State, st: State, o: Outcome)
    requires Fits(r, w, first, st) && React(r, w, st, o).Again? && (first.spent ==> first.body == Textified)
    ensures Fits(r, w, first, React(r, w, st, o).next)
  {
    hide RecoveryRoute, MessagesModel;
    ReactBooked(r, w, st, o);
    RouteIs(r, w, At(st.attempt));
  }

  lemma {:induction false} TrailFits(r: Request, w: World, st: State, t: seq<State>, reply: Reply, k: nat)
    requires Chained(r, w, st, t, reply) && k < |t| && Fits(r, w, st, st)
    ensures Fits(r, w, st, t[k])
  {
    hide Fits, React;
    if k > 0 {
      TrailFits(r, w, st, t, reply, k - 1);
      assert React(r, w, t[k - 1], w.upstream(t[k - 1].attempt)) == Again(t[k]);
      FirstBooked(r, w, st);
      ReactFits(r, w, st, t[k - 1], w.upstream(t[k - 1].attempt));
    }
  }

  lemma FirstBooked(r: Request, w: World, st: State)
    requires Fits(r, w, st, st)
    ensures st.spent ==> st.body == Textified
  {
  }

  /** The first attempt, read off the fields of the request. */
  ghost predicate Begins(r: Request, w: World, account: Account, st: State) {
    && (st.live <==> HasIds(r) && OwnedBy(r, account) && Serviceable(r, account))
    && (st.body == Textified <==> HasIds(r) && Unowned(r) && !PassesThrough(r, w) && Degrades(r))
    && (st.route != NoRoute <==>
          && HasIds(r) && r.callIds != []
          && ((!st.live && !Unowned(r) && Translatable(r, w, Start))
              || (PassesThrough(r, w) && Translatable(r, w, StartAgain))))
    && (HasIds(r) && !st.live && st.body == Original && st.route == NoRoute ==> PassesThrough(r, w))
    && (st.route == MessagesRoute ==> MessagesModel(r.model)) && (st.route == ChatRoute ==> !MessagesModel(r.model))
  }

  lemma ServedBegins(r: Request, w: World) returns (c: Case)
    requires r.maxAttempts >= 1
    ensures c.Silent? ==> Sends(Run(r, w).0) == []
    ensures c.Served? ==> c.st.attempt == 0 && c.st.limit == r.maxAttempts && !c.st.refreshed
    ensures c.Served? ==> Serves(r, w, c.account, c.st, Run(r, w))
    ensures c.Served? ==> Fits(r, w, c.st, c.st) && Begins(r, w, c.account, c.st)
  {
    hide Run, Serve, RouteForModel, RecoveryRoute, MessagesModel;
    c := RunCase(r, w);
    if c.Served? {
      hide Open;
      StartsAs(r, w);
      RouteIs(r, w, Start);
      RouteIs(r, w, StartAgain);
      ServesOpen(r, w, c.account, c.st, Run(r, w));
    }
  }

  lemma ServesOpen(r: Request, w: World, a: Account, st: State, run: (seq<Action>, Reply))
    requires st.attempt < st.limit && Serves(r, w, a, st, run)
    ensures Open(r, w) == Bound(a, st) || (Open(r, w).Unbound? && Open(r, w).st == st)
  {
    hide Serve, Open;
  }

  /** The ways to start, as one of a few states. */
  lemma StartsAs(r: Request, w: World)
    ensures Open(r, w).Bound? ==>
      HasIds(r) && OwnedBy(r, Open(r, w).account) && Serviceable(r, Open(r, w).account) &&
      Open(r, w).st == Fresh(r, NoRoute).(live := true)
    ensures Open(r, w).Unbound? && !HasIds(r) ==> Open(r, w).st == Fresh(r, NoRoute)
    ensures Open(r, w).Unbound? && HasIds(r) && !Unowned(r) ==>
      Translatable(r, w, Start) && r.callIds != [] && Open(r, w).st == Fresh(r, RecoveryRoute(r, w, Start)) &&
      forall a :: OwnedBy(r, a) ==> !Serviceable(r, a)
    ensures Open(r, w).Unbound? && HasIds(r) && Unowned(r) ==>
      if PassesThrough(r, w) then Open(r, w).st == Fresh(r, RecoveryRoute(r, w, StartAgain))
      else Degrades(r) && Open(r, w).st == Fresh(r, NoRoute).(spent := true, body := Textified)
    ensures HasIds(r) && Unowned(r) ==> forall a :: !OwnedBy(r, a)
  {
    hide RecoveryRoute, Translatable, PassesThrough, Open;
    OpenIs(r, w);
    if HasIds(r) {
      var owner := Histories(r);
    }
  }

  lemma ServedFits(r: Request, w: World, k: nat) returns (c: Case)
    requires r.maxAttempts >= 1 && k < |Sends(Run(r, w).0)|
    ensures c.Served? && c.st.attempt == 0 && c.st.limit == r.maxAttempts
    ensures Serves(r, w, c.account, c.st, Run(r, w)) && Begins(r, w, c.account, c.st) && Fits(r, w, c.st, c.st)
    ensures var s, t := Sends(Run(r, w).0), Trail(r, w, c.st);
      && |s| == |t| && (forall i | 0 <= i < |t| :: s[i] == SendOf(c.account, t[i])) && Chained(r, w, c.st, t, Run(r, w).1)
      && t[0] == c.st && t[k].attempt == k && t[k].limit >= r.maxAttempts && Fits(r, w, c.st, t[k])
  {
    hide Run, Serve, Trail, Serves, Fits, Begins;
    c := ServedBegins(r, w);
    ServedSends(r, w, c.account, c.st);
    var t := Trail(r, w, c.st);
    TrailFits(r, w, c.st, t, Run(r, w).1, k);
    TrailLater(r, w, c.st, t, Run(r, w).1, 0, k);
  }

  // ----- What is sent -----

  /** What is sent first: the ids of an owned history go live to the owner, an unowned one is textified if the client opted in,
      translated or passed through otherwise, and what cannot be bound is translated. */
  lemma FirstDispatch(r: Request, w: World)
    requires r.maxAttempts >= 1 && Sends(Run(r, w).0) != []
    ensures var x := Sends(Run(r, w).0)[0];
      && (x.live <==> HasIds(r) && OwnedBy(r, x.account) && Serviceable(r, x.account))
      && (x.body == Textified <==> HasIds(r) && Unowned(r) && !PassesThrough(r, w) && Degrades(r))
      && (x.mode.Translated? <==>
            && HasIds(r) && r.callIds != []
            && ((!x.live && !Unowned(r) && Translatable(r, w, Start))
                || (PassesThrough(r, w) && Translatable(r, w, StartAgain))))
  {
    hide Run, Serve, Trail, Serves, Chained, Unowned, PassesThrough, Translatable, Degrades, OwnedBy, Serviceable, MessagesModel;
    var c := ServedFits(r, w, 0);
  }

  /** What an attempt of a request with continuation ids carries: the live ids, to their owner and directly; a textified body;
      a translated transcript; or, of an unowned history that nobody opted to degrade, the body as it came, when it cannot
      be translated. */
  lemma ContinuationDispatch(r: Request, w: World, k: nat)
    requires r.maxAttempts >= 1 && HasIds(r) && k < |Sends(Run(r, w).0)|
    ensures var x := Sends(Run(r, w).0)[k];
      || (x.live && x.mode == Direct && x.body == Original && OwnedBy(r, x.account) && Serviceable(r, x.account))
      || (!x.live && x.body == Textified && Degrades(r))
      || (!x.live && x.mode.Translated? && r.passthroughOn && r.translateOn)
      || (!x.live && x.mode == Direct && x.body == Original && PassesThrough(r, w) && !Translatable(r, w, StartAgain))
  {
    hide Run, Serve, Trail, Serves, Chained, Unowned, Translatable, Degrades, OwnedBy, Serviceable, MessagesModel;
    var c := ServedFits(r, w, k);
  }

  /** An unowned history that the client opted to degrade, and that can be degraded, goes out as text and only so. */
  lemma OptedInOrphan(r: Request, w: World, k: nat)
    requires r.maxAttempts >= 1 && Unowned(r) && Degrades(r) && k < |Sends(Run(r, w).0)|
    ensures var x := Sends(Run(r, w).0)[k];
      x.mode == Direct && x.body == Textified && !x.live
  {
    hide Run, Serve, Trail, Serves, Chained, Translatable, MessagesModel;
    var c := ServedFits(r, w, k);
  }

  /** A request without continuation ids starts directly, and never carries ids or a textified body. */
  lemma PlainDispatch(r: Request, w: World, k: nat)
    requires r.maxAttempts >= 1 && !HasIds(r) && k < |Sends(Run(r, w).0)|
    ensures var x := Sends(Run(r, w).0)[k];
      !x.live && x.body == Original && Sends(Run(r, w).0)[0].mode == Direct
  {
    hide Run, Serve, Trail, Serves, Chained, Translatable, MessagesModel;
    var c := ServedFits(r, w, k);
  }

  /** Translations happen only where both switches are on; the gpt-5 family and Claude go through messages, all others through
      chat; and the turn of the direct attempt seeds the translation exactly if there was one. */
  lemma TranslatedDispatch(r: Request, w: World, k: nat)
    requires r.maxAttempts >= 1 && k < |Sends(Run(r, w).0)| && Sends(Run(r, w).0)[k].mode.Translated?
    ensures var x := Sends(Run(r, w).0)[k];
      && r.passthroughOn && r.translateOn
      && x.mode.route == (if MessagesModel(r.model) then MessagesRoute else ChatRoute)
      && (x.mode.seeded <==> Sends(Run(r, w).0)[0].mode == Direct)
  {
    hide Run, Serve, Trail, Serves, Chained, Translatable, MessagesModel, Begins;
    var c := ServedFits(r, w, k);
  }

  lemma ReactLost(r: Request, w: World, st: State, o: Outcome)
    requires Booked(st) && Lost(o)
    ensures React(r, w, st, o).Again? ==>
      var next := React(r, w, st, o).next;
      && !next.live
      && (st.route == NoRoute ==>
            && st.body == Original
            && ((next.body == Textified && next.route == NoRoute && Degrades(r))
                || (next.body == Original && next.route != NoRoute && next.seeded && Translatable(r, w, At(st.attempt))))
            && (Degrades(r) && st.attempt + 1 < st.limit ==> next.body == Textified))
      && (st.route != NoRoute ==>
            && next.route == st.route && next.seeded == st.seeded && (r.pool || Degrades(r))
            && (next.body == st.body || Degrades(r)))
    ensures React(r, w, st, o).Answer? ==>
      && React(r, w, st, o).reply == UpstreamOrphan
      && (st.route == NoRoute && st.body == Original ==>
            !Translatable(r, w, At(st.attempt)) && (Degrades(r) ==> st.attempt + 1 >= st.limit))
      && (st.route != NoRoute && (r.pool || (Degrades(r) && !st.spent)) ==> st.attempt + 1 >= st.limit)
  {
    hide RecoveryRoute, Translatable;
    RouteIs(r, w, At(st.attempt));
  }

  lemma ReactFound(r: Request, w: World, st: State, o: Outcome)
    requires !Lost(o) && React(r, w, st, o).Again?
    ensures var next := React(r, w, st, o).next;
      Passing(o) && next.live == st.live && next.body == st.body && next.route == st.route && next.seeded == st.seeded
  {
  }

  /** From one attempt to the next: a passing failure is met with the same request again; a lost history is degraded if the
      client opted in and an attempt is left, and translated otherwise; a translation goes on as it is; and a textified
      body that is lost again is not tried again. */
  lemma NextDispatch(r: Request, w: World, k: nat)
    requires r.maxAttempts >= 1 && k + 1 < |Sends(Run(r, w).0)|
    ensures var x, y, o := Sends(Run(r, w).0)[k], Sends(Run(r, w).0)[k + 1], w.upstream(k);
      && (!Lost(o) ==> Passing(o) && y == x)
      && (Lost(o) && x.mode == Direct ==>
            && x.body == Original && !y.live
            && ((y.body == Textified && y.mode == Direct && Degrades(r))
                || (y.body == Original && y.mode.Translated? && Translatable(r, w, At(k))))
            && (Degrades(r) && k + 1 < r.maxAttempts ==> y.body == Textified))
      && (Lost(o) && x.mode.Translated? ==>
            y.mode == x.mode && (r.pool || Degrades(r)) && (y.body == x.body || Degrades(r)))
  {
    hide Run, Serve, Trail, Serves, React, Lost, Passing, Degrades, Translatable, Begins, MessagesModel;
    var c := ServedFits(r, w, k);
    var t := Trail(r, w, c.st);
    assert React(r, w, t[k], w.upstream(t[k].attempt)) == Again(t[k + 1]);
    if Lost(w.upstream(k)) {
      ReactLost(r, w, t[k], w.upstream(k));
    } else {
      ReactFound(r, w, t[k], w.upstream(k));
    }
  }

  /** The client is told that the history is lost only when no degrade and no translation is left to try. */
  lemma LostReply(r: Request, w: World)
    requires r.maxAttempts >= 1 && Run(r, w).1 == UpstreamOrphan
    ensures var s := Sends(Run(r, w).0);
      && s != [] && Lost(w.upstream(|s| - 1))
      && var x := s[|s| - 1];
      && (x.mode == Direct && x.body == Original ==>
            !Translatable(r, w, At(|s| - 1)) && (Degrades(r) ==> |s| >= r.maxAttempts))
      && (x.mode.Translated? && (r.pool || (Degrades(r) && x.body == Original && !x.mode.seeded)) ==> |s| >= r.maxAttempts)
  {
    hide Run, Serve, Trail, Serves, React, Lost, Degrades, Translatable, Begins, MessagesModel;
    OrphanAnswer(r, w);
    var n := |Sends(Run(r, w).0)| - 1;
    var c := ServedFits(r, w, n);
    ReactLost(r, w, Trail(r, w, c.st)[n], w.upstream(n));
  }

  // ----- Pool, rate limiter and refresh -----

  /** The pool is asked exactly for what is not bound, first and with at most the accounts without a worker excluded; all
      attempts go to its answer. */
  lemma PoolChoice(r: Request, w: World)
    requires r.maxAttempts >= 1
    ensures var actions, reply := Run(r, w).0, Run(r, w).1;
      var exclude := if HasIds(r) && PassesThrough(r, w) && r.pool && !r.translateOn then r.noWorker else {};
      && (actions != [] && !(exists a :: HasIds(r) && OwnedBy(r, a) && Serviceable(r, a)) ==> actions[0] == Pick(exclude))
      && (actions != [] && (exists a :: HasIds(r) && OwnedBy(r, a) && Serviceable(r, a)) ==> actions[0].Limit?)
      && (reply == NoAccount <==> actions == [Pick(exclude)] && w.pick(exclude) == None)
      && (actions != [] && actions[0].Pick? && w.pick(exclude).Some? ==>
            |actions| > 1 && actions[1] == Limit(w.pick(exclude).value))
  {
    hide Serve, RecoveryRoute, Translatable, Open;
    OpenIs(r, w);
    StartsAs(r, w);
    if HasIds(r) {
      var owner := Histories(r);
    }
    match Open(r, w)
    case Refused(reply) =>
    case Bound(a, st) => ServeReply(r, w, a, st);
    case Unbound(exclude, st) =>
      if w.pick(exclude).Some? {
        ServeReply(r, w, w.pick(exclude).value, st);
      }
  }

  /** Every attempt is admitted by the rate limiter just before, a refusal of the limiter is the reply, and a token is only
      refreshed right behind an attempt; attempts are counted from `first`. */
  ghost predicate Admits(w: World, first: nat, actions: seq<Action>, reply: Reply) {
    && (forall k | 0 <= k < |actions| && actions[k].Send? :: k > 0 && actions[k - 1] == Limit(actions[k].account))
    && (forall k | 0 <= k < |actions| && actions[k].Refresh? :: k > 0 && actions[k - 1].Send?)
    && (forall k | first <= k < first + |Sends(actions)| :: w.allowed(k))
    && (reply == RateLimited ==> !w.allowed(first + |Sends(actions)|))
  }

  lemma HeadAdmits(w: World, a: Account, st: State, reply: Reply)
    requires w.allowed(st.attempt) && reply != RateLimited
    ensures Admits(w, st.attempt, Head(w, a, st), reply)
  {
    hide Refreshes;
    HeadSends(w, a, st);
  }

  lemma LimitAdmits(w: World, a: Account, st: State)
    requires !w.allowed(st.attempt)
    ensures Admits(w, st.attempt, [Limit(a)], RateLimited)
  {
    assert [Limit(a)][1..] == [];
  }

  /** One attempt more in front. */
  lemma AdmitsMore(w: World, first: nat, head: seq<Action>, other: Reply, rest: seq<Action>, reply: Reply)
    requires Admits(w, first, head, other) && Admits(w, first + |Sends(head)|, rest, reply) && rest != [] && rest[0].Limit?
    ensures Admits(w, first, head + rest, reply)
  {
    SendsConcat(head, rest);
    var all := head + rest;
    forall k | 0 <= k < |all| && (all[k].Send? || all[k].Refresh?)
      ensures k > 0 && (all[k].Send? ==> all[k - 1] == Limit(all[k].account)) && (all[k].Refresh? ==> all[k - 1].Send?)
    {
      if k < |head| {
        assert all[k] == head[k] && (k > 0 ==> all[k - 1] == head[k - 1]);
      } else {
        assert all[k] == rest[k - |head|] && (k > |head| ==> all[k - 1] == rest[k - 1 - |head|]);
      }
    }
  }

  lemma {:induction false} ServeAdmits(r: Request, w: World, a: Account, st: State)
    requires st.attempt < st.limit
    ensures Admits(w, st.attempt, Serve(r, w, a, st).0, Serve(r, w, a, st).1)
    decreases Measure(st)
  {
    hide Measure, React, Refreshes, Admits, Head;
    if !w.allowed(st.attempt) {
      LimitAdmits(w, a, st);
    } else {
      AnswerNotLimited(r, w, st);
      HeadSends(w, a, st);
      if React(r, w, st, w.upstream(st.attempt)).Again? {
        ReactDecreases(r, w, st, w.upstream(st.attempt));
        var next := React(r, w, st, w.upstream(st.attempt)).next;
        HeadAdmits(w, a, st, NoAccount);
        ServeAdmits(r, w, a, next);
        ServeReply(r, w, a, next);
        AdmitsMore(w, st.attempt, Head(w, a, st), NoAccount, Serve(r, w, a, next).0, Serve(r, w, a, next).1);
      } else {
        HeadAdmits(w, a, st, React(r, w, st, w.upstream(st.attempt)).reply);
      }
    }
  }

  lemma PickAdmits(w: World, exclude: set<Account>, reply: Reply)
    requires reply != RateLimited
    ensures Admits(w, 0, [Pick(exclude)], reply) && Admits(w, 0, [], reply) && Sends([Pick(exclude)]) == []
  {
    assert [Pick(exclude)][1..] == [];
  }

  /** Over the whole request: the limiter admits each attempt just before it is sent, and when it refuses one that is the
      reply; a token is only refreshed right behind an attempt. */
  lemma Admitted(r: Request, w: World)
    requires r.maxAttempts >= 1
    ensures Admits(w, 0, Run(r, w).0, Run(r, w).1)
  {
    hide Serve, Open, Admits;
    RunReply(r, w);
    StartsFresh(r, w);
    PickAdmits(w, {}, Unavailable);
    PickAdmits(w, {}, Split);
    PickAdmits(w, {}, Expired);
    match Open(r, w)
    case Refused(_) =>
    case Bound(a, st) => ServeAdmits(r, w, a, st);
    case Unbound(exclude, st) =>
      PickAdmits(w, exclude, NoAccount);
      if w.pick(exclude).Some? {
        var a := w.pick(exclude).value;
        ServeAdmits(r, w, a, st);
        ServeReply(r, w, a, st);
        AdmitsMore(w, 0, [Pick(exclude)], NoAccount, Serve(r, w, a, st).0, Serve(r, w, a, st).1);
      }
  }

  lemma StartsFresh(r: Request, w: World)
    requires r.maxAttempts >= 1
    ensures Open(r, w).Bound? || Open(r, w).Unbound? ==> Open(r, w).st.attempt == 0 && Open(r, w).st.limit == r.maxAttempts
  {
  }
}
