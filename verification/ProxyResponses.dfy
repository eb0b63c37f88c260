/** The request loop with its pins, flags and modes, proved to follow the policy of `ResponsesRetry`. */
module ProxyResponses {
  import opened Options
  import opened ResponsesRetry

  /** The account forced on the next attempt, and whether it was the one-shot pin. */
  function ChoosePinned(pinned: Option<Account>, continuationPinned: Option<Account>, sameTurnPinned: Option<Account>)
    : (Option<Account>, bool)
  {
    if pinned.Some? then (pinned, true)
    else if continuationPinned.Some? then (continuationPinned, false)
    else (sameTurnPinned, false)
  }

  function BindingError(b: Binding): Reply {
    match b
    case AccountUnavailable(_) => Unavailable
    case SplitHistory => Split
    case _ => Expired
  }

  /** What is left of a run from a loop head, given the account if a pin fixes it. */
  function Rest(r: Request, w: World, account: Option<Account>, exclude: set<Account>, st: State): (seq<Action>, Reply)
    requires st.attempt < st.limit
  {
    match account
    case Some(a) => Serve(r, w, a, st)
    case None =>
      match w.pick(exclude)
      case None => ([Pick(exclude)], NoAccount)
      case Some(a) => ([Pick(exclude)] + Serve(r, w, a, st).0, Serve(r, w, a, st).1)
  }

  /** One attempt of the policy. */
  lemma Unfold(r: Request, w: World, a: Account, st: State)
    requires st.attempt < st.limit
    ensures w.allowed(st.attempt) && React(r, w, st, w.upstream(st.attempt)).Answer? ==>
              Serve(r, w, a, st) == (Head(w, a, st), React(r, w, st, w.upstream(st.attempt)).reply)
    ensures w.allowed(st.attempt) && React(r, w, st, w.upstream(st.attempt)).Again? ==>
              var st' := React(r, w, st, w.upstream(st.attempt)).next;
              && st'.attempt == st.attempt + 1 && st'.attempt < st'.limit && 0 <= Measure(st') < Measure(st)
              && Serve(r, w, a, st) == (Head(w, a, st) + Serve(r, w, a, st').0, Serve(r, w, a, st').1)
    ensures !w.allowed(st.attempt) ==> Serve(r, w, a, st) == ([Limit(a)], RateLimited)
  {
    if React(r, w, st, w.upstream(st.attempt)).Again? {
      ReactDecreases(r, w, st, w.upstream(st.attempt));
    }
  }

  /** The local variables of one request. */
  datatype Vars = Vars(
    attempt: nat, attemptLimit: nat, previousId: string, callIds: seq<string>, continuation: bool, exclude: set<Account>,
    refreshedOn: set<Account>, crossRollover: bool, orphanDegraded: bool, recovery: Route, recoveryTurnSet: bool,
    pinned: Option<Account>, sameTurnPinned: Option<Account>, continuationPinned: Option<Account>, body: Body)
  {
    /** The policy state that the variables stand for. */
    function Policy(): State {
      State(attempt, attemptLimit, continuation, orphanDegraded, recovery, recoveryTurnSet, body, refreshedOn != {})
    }

    /** The account the next attempt is forced to. */
    function Fixed(): Option<Account> {
      ChoosePinned(pinned, continuationPinned, sameTurnPinned).0
    }

    /** Live continuations are exactly the bound ones, nothing rolls over to another account, and all pins agree. */
    predicate Valid() {
      && attempt < attemptLimit
      && (continuation <==> continuationPinned.Some?)
      && !crossRollover
      && (sameTurnPinned.None? ==> pinned.None? && refreshedOn == {})
      && (sameTurnPinned.Some? && continuationPinned.Some? ==> sameTurnPinned == continuationPinned)
      && (pinned.Some? ==> pinned == sameTurnPinned)
      && (sameTurnPinned.Some? ==> refreshedOn <= {sameTurnPinned.value})
    }

    /** Inside an attempt on `account`. */
    predicate Serving(account: Account) {
      Valid() && sameTurnPinned == Some(account)
    }

    /** Whether another attempt is left. */
    predicate Budget() {
      attempt < attemptLimit - 1
    }

    function Cleared(): Vars {
      this.(previousId := "", callIds := [], continuation := false)
    }

    function Retried(account: Account): Vars {
      this.(exclude := exclude + {account}, attempt := attempt + 1)
    }
  }

  /** The classification before the loop; a reply means the request is refused without an attempt. */
  method Bind(r: Request, w: World) returns (x: Vars, reply: Option<Reply>)
    requires r.maxAttempts >= 1
    ensures reply.Some? ==> Open(r, w) == Refused(reply.value)
    ensures reply.None? ==> x.Valid() && x.sameTurnPinned == None && x.pinned == None
    ensures reply.None? && x.continuation ==> Open(r, w) == Bound(x.continuationPinned.value, x.Policy())
    ensures reply.None? && !x.continuation ==> Open(r, w) == Unbound(x.exclude, x.Policy())
  {
    x := Vars(0, r.maxAttempts, r.previousId, r.callIds, r.previousId != "" || r.callIds != [], {}, {},
              false, false, NoRoute, false, None, None, None, Original);
    if !x.continuation {
      return x, None;
    }
    var binding := BindingOf(r);
    match binding {
      case Canonical(a) => x := x.(continuationPinned := Some(a));
      case Orphan =>
        if !r.optIn && r.passthroughOn && x.callIds != [] && w.eligible(Start) {
          if r.pool && !r.translateOn {
            x := x.(exclude := x.exclude + r.noWorker);
          }
          x := x.Cleared().(recovery := RecoveryRoute(r, w, StartAgain));
        } else {
          if !r.optIn || !r.degradable {
            return x, Some(BindingError(binding));
          }
          x := x.Cleared().(body := Textified, orphanDegraded := true);
        }
      case _ =>
        x := x.(recovery := RecoveryRoute(r, w, Start));
        if x.recovery == NoRoute || x.callIds == [] {
          return x, Some(BindingError(binding));
        }
        x := x.Cleared();
    }
    return x, None;
  }

  /** The account of this attempt: a pin, or else the pool. */
  method Resolve(w: World, x0: Vars) returns (x: Vars, resolved: Option<Account>, picked: seq<Action>)
    requires x0.Valid()
    ensures x.Policy() == x0.Policy()
    ensures x0.Fixed().Some? ==> resolved == x0.Fixed() && picked == []
    ensures x0.Fixed().None? ==> resolved == w.pick(x0.exclude) && picked == [Pick(x0.exclude)]
    ensures resolved.Some? ==> x.Serving(resolved.value)
  {
    x := x0;
    var (chosen, oneShot) := ChoosePinned(x.pinned, x.continuationPinned, x.sameTurnPinned);
    resolved, picked := chosen, [];
    if oneShot {
      x := x.(pinned := None);
    }
    if resolved.Some? && resolved == x.sameTurnPinned {
      x := x.(crossRollover := false);
    }
    if resolved.None? {
      picked := [Pick(x.exclude)];
      resolved := w.pick(x.exclude);
    }
    if resolved.Some? && x.sameTurnPinned.None? {
      x := x.(sameTurnPinned := resolved);
    }
  }

  /** A bound continuation never detaches. */
  method CanDetach(w: World, x: Vars) returns (b: bool)
    requires x.Valid()
    ensures !b
  {
    b := x.continuation && w.replayable(x.attempt);
    if x.continuationPinned.Some? {
      b := false;
    }
  }

  method SelectMode(x: Vars, canDetach: bool) returns (mode: Mode)
    requires x.Valid()
    ensures !canDetach ==> mode == ModeOf(x.Policy())
  {
    mode := Direct;
    if x.continuation {
      if x.crossRollover {
        mode := DetachedCross;
      } else if canDetach {
        mode := DetachedSame;
      }
    }
    if x.recovery == ChatRoute {
      mode := Translated(ChatRoute, x.recoveryTurnSet);
    }
    if x.recovery == MessagesRoute {
      mode := Translated(MessagesRoute, x.recoveryTurnSet);
    }
  }

  /** A reply, or the variables for the next attempt. */
  datatype Step = Stop(reply: Reply) | Next(x: Vars)

  /** The step is the reaction of the policy to outcome `o`. */
  ghost predicate Follows(r: Request, w: World, x: Vars, o: Outcome, account: Account, step: Step) {
    match step
    case Stop(reply) => React(r, w, x.Policy(), o) == Answer(reply)
    case Next(x') => React(r, w, x.Policy(), o) == Again(x'.Policy()) && x'.Serving(account)
  }

  /** The retry that several failures share: roll a detached continuation over, or retry a plain request. */
  method RetryOrNot(r: Request, x0: Vars, account: Account, canDetach: bool) returns (again: bool, x: Vars)
    requires x0.Serving(account)
    ensures !canDetach ==> (again <==> x0.Budget() && !x0.continuation)
    ensures !canDetach ==> x == if again then x0.Retried(account) else x0
  {
    x := x0;
    if x.Budget() {
      if x.continuation && canDetach && r.pool {
        return true, x.Retried(account).(crossRollover := true);
      }
      if !x.continuation {
        return true, x.Retried(account);
      }
    }
    return false, x;
  }

  method OnProxyError(r: Request, w: World, x0: Vars, account: Account, canDetach: bool) returns (step: Step)
    requires x0.Serving(account)
    ensures !canDetach ==> Follows(r, w, x0, ProxyError, account, step)
  {
    var again, x := RetryOrNot(r, x0, account, canDetach);
    return if again then Next(x) else Stop(BadGateway);
  }

  method OnReplayInvalid(r: Request, w: World, x0: Vars, o: Outcome, account: Account, canDetach: bool) returns (step: Step)
    requires x0.Serving(account) && ReplayInvalid(o)
    ensures !canDetach ==> Follows(r, w, x0, o, account, step)
  {
    var x := x0;
    if x.continuation && canDetach && x.Budget() && r.pool {
      return Next(x.Retried(account).(crossRollover := true));
    }
    var optIn := (r.previousId != "" || r.callIds != []) && r.optIn;
    if optIn && !x.orphanDegraded && x.Budget() {
      if r.degradable {
        x := x.(body := Textified, orphanDegraded := true);
        return Next(x.Cleared().Retried(account).(continuationPinned := None, crossRollover := false));
      }
    }
    if !x.orphanDegraded && x.recovery == NoRoute {
      x := x.(recovery := RecoveryRoute(r, w, At(x.attempt)));
      if x.recovery != NoRoute {
        return Next(ArmRecovery(x, account));
      }
    }
    if x.recovery != NoRoute && r.pool && x.Budget() {
      return Next(x.Retried(account));
    }
    return Stop(UpstreamOrphan);
  }

  /** Late recovery: the next attempt goes to the same account, without continuation state. */
  function ArmRecovery(x: Vars, account: Account): Vars {
    var limit := if x.attempt >= x.attemptLimit - 1 then x.attemptLimit + 1 else x.attemptLimit;
    x.Cleared().(orphanDegraded := true, attemptLimit := limit, continuationPinned := None, crossRollover := false,
                 recoveryTurnSet := true, pinned := Some(account), attempt := x.attempt + 1)
  }

  /** A 401 forces one token refresh and one more try on the same account; success grants an extra attempt. */
  method OnUnauthorized(r: Request, w: World, x0: Vars, account: Account, canDetach: bool) returns (x: Vars)
    requires x0.Serving(account) && account !in x0.refreshedOn && x0.Budget()
    ensures !canDetach ==> x.Serving(account)
    ensures x.Policy() == x0.Policy().(attempt := x0.attempt + 1, refreshed := true,
                                       limit := if w.refresh(x0.attempt) then x0.attemptLimit + 1 else x0.attemptLimit)
  {
    x := x0.(refreshedOn := x0.refreshedOn + {account});
    assert account in x.refreshedOn;
    if !w.refresh(x.attempt) {
      x := x.Retried(account);
      if x.continuation && canDetach && r.pool {
        x := x.(crossRollover := true);
      }
    } else {
      x := x.(pinned := Some(account), attemptLimit := x.attemptLimit + 1, attempt := x.attempt + 1);
    }
  }

  /** What the gateway does with an upstream response. */
  method OnResponse(r: Request, w: World, x0: Vars, o: Outcome, account: Account, canDetach: bool)
    returns (step: Step, refreshes: seq<Action>)
    requires x0.Serving(account) && o.Response?
    ensures !canDetach ==> Follows(r, w, x0, o, account, step)
    ensures !canDetach ==> refreshes == if Refreshes(x0.Policy(), o) then [Refresh(account)] else []
  {
    hide ResponsesRetry.OnReplayInvalid;
    refreshes := [];
    if ReplayInvalid(o) {
      step := OnReplayInvalid(r, w, x0, o, account, canDetach);
      return;
    }
    if Fatal(o) {
      var again, x := RetryOrNot(r, x0, account, canDetach);
      if again {
        return Next(x), [];
      }
    }
    if o.status == 401 && account !in x0.refreshedOn && x0.Budget() {
      var x := OnUnauthorized(r, w, x0, account, canDetach);
      return Next(x), [Refresh(account)];
    }
    if RetryableStatus(o.status) {
      var again, x := RetryOrNot(r, x0, account, canDetach);
      if again {
        return Next(x), [];
      }
    }
    return Stop(Forward(o.status)), [];
  }

  /** Actions done so far and what the policy still has to do make up the whole run. */
  ghost predicate OnTrack(r: Request, w: World, x: Vars, actions: seq<Action>)
    requires r.maxAttempts >= 1
  {
    x.Valid() &&
    var rest := Rest(r, w, x.Fixed(), x.exclude, x.Policy());
    Run(r, w).0 == actions + rest.0 && Run(r, w).1 == rest.1
  }

  lemma Known(r: Request, w: World, x: Vars, done: seq<Action>, resolved: Option<Account>, picked: seq<Action>)
    requires r.maxAttempts >= 1 && OnTrack(r, w, x, done)
    requires x.Fixed().Some? ==> resolved == x.Fixed() && picked == []
    requires x.Fixed().None? ==> resolved == w.pick(x.exclude) && picked == [Pick(x.exclude)]
    ensures resolved.None? ==> Run(r, w) == (done + picked, NoAccount)
    ensures resolved.Some? ==>
      var rest := Serve(r, w, resolved.value, x.Policy());
      Run(r, w) == ((done + picked) + rest.0, rest.1)
  {
    hide Run, Serve;
    if x.Fixed().Some? {
      assert done + picked == done;
    } else if resolved.Some? {
      assert (done + picked) + Serve(r, w, resolved.value, x.Policy()).0 == done + (picked + Serve(r, w, resolved.value, x.Policy()).0);
    }
  }

  /** One pass of the loop. */
  method Attempt(r: Request, w: World, x0: Vars, done: seq<Action>) returns (step: Step, actions: seq<Action>)
    requires r.maxAttempts >= 1 && OnTrack(r, w, x0, done)
    ensures step.Stop? ==> Run(r, w) == (actions, step.reply)
    ensures step.Next? ==> OnTrack(r, w, step.x, actions) && 0 <= Measure(step.x.Policy()) < Measure(x0.Policy())
  {
    hide React, Serve, Measure, Run, RecoveryRoute, Refreshes, RouteForModel, ModeOf;
    var x, resolved, picked := Resolve(w, x0);
    Known(r, w, x0, done, resolved, picked);
    actions := done + picked;
    if resolved.None? {
      return Stop(NoAccount), actions;
    }
    var account := resolved.value;
    var o := w.upstream(x.attempt);
    Unfold(r, w, account, x.Policy());
    RewriteAnswer(r, w, x.Policy());
    actions := actions + [Limit(account)];
    if !w.allowed(x.attempt) {
      return Stop(RateLimited), actions;
    }
    var canDetach := CanDetach(w, x);
    var mode := SelectMode(x, canDetach);
    actions := actions + [Send(account, mode, x.body, x.continuation)];
    var refreshes: seq<Action> := [];
    match o {
      case RewriteError => step := Stop(BadRequest);
      case ProxyError => step := OnProxyError(r, w, x, account, canDetach);
      case Response(_, _, _) => step, refreshes := OnResponse(r, w, x, o, account, canDetach);
    }
    actions := actions + refreshes;
    ghost var head := Head(w, account, x.Policy());
    assert actions == done + picked + head;
    if step.Next? {
      Rejoin(done + picked, head, Serve(r, w, account, step.x.Policy()).0);
    }
  }

  lemma Rejoin(a: seq<Action>, b: seq<Action>, c: seq<Action>)
    ensures a + (b + c) == (a + b) + c
  {
  }

  lemma RewriteAnswer(r: Request, w: World, st: State)
    ensures React(r, w, st, RewriteError) == Answer(BadRequest) && !Refreshes(st, RewriteError) && !Refreshes(st, ProxyError)
  {
  }

  /** The handler: it ends by itself, with exactly one reply, having done what the policy prescribes. */
  method Handle(r: Request, w: World) returns (actions: seq<Action>, replies: seq<Reply>)
    requires r.maxAttempts >= 1
    ensures actions == Run(r, w).0 && replies == [Run(r, w).1]
  {
    hide Serve, Measure;
    actions, replies := [], [];
    var x, refused := Bind(r, w);
    if refused.Some? {
      return [], [refused.value];
    }
    while x.attempt < x.attemptLimit
      invariant OnTrack(r, w, x, actions) && replies == []
      invariant x.continuation <==> x.continuationPinned.Some?
      decreases Measure(x.Policy())
    {
      var step, more := Attempt(r, w, x, actions);
      actions := more;
      if step.Stop? {
        return actions, replies + [step.reply];
      }
      x := step.x;
    }
    assert false;
  }
}
