/** The token bucket over the reals, and the two limits a request has to pass. Times are in seconds. */
module RateLimiter {
  import opened Options

  /** `rpm` tokens at most, refilled at `rpm / 60` a second. */
  datatype Bucket = Bucket(rpm: nat, tokens: real, lastRefill: real)

  ghost predicate Valid(b: Bucket) {
    b.rpm >= 1 && 0.0 <= b.tokens <= b.rpm as real
  }

  function Rate(b: Bucket): real {
    b.rpm as real / 60.0
  }

  function Ceil(x: real): real {
    -((-x).Floor as real)
  }

  function Full(rpm: nat, now: real): Bucket {
    Bucket(rpm, rpm as real, now)
  }

  /** What flows in during `dt` seconds. */
  function Flow(rpm: nat, dt: real): real {
    dt * (rpm as real / 60.0)
  }

  function Refilled(b: Bucket, now: real): real {
    var t := b.tokens + Flow(b.rpm, now - b.lastRefill);
    if t < b.rpm as real then t else b.rpm as real
  }

  predicate Allows(b: Bucket, now: real) {
    Refilled(b, now) >= 1.0
  }

  /** The bucket after a call. */
  function After(b: Bucket, now: real): Bucket {
    b.(tokens := if Allows(b, now) then Refilled(b, now) - 1.0 else Refilled(b, now), lastRefill := now)
  }

  function RetryAfter(b: Bucket, now: real): real
    requires b.rpm >= 1
  {
    if Allows(b, now) then 0.0 else Ceil((1.0 - Refilled(b, now)) / Rate(b))
  }

  class TokenBucket {
    var rpm: nat
    var tokens: real
    var lastRefill: real

    constructor (rpm: nat, now: real)
      ensures Value() == Full(rpm, now)
    {
      this.rpm, tokens, lastRefill := rpm, rpm as real, now;
    }

    function Value(): Bucket
      reads this
    {
      Bucket(rpm, tokens, lastRefill)
    }

    method Allow(now: real) returns (ok: bool, retryAfter: real)
      requires rpm >= 1
      modifies this
      ensures ok == Allows(old(Value()), now) && retryAfter == RetryAfter(old(Value()), now)
      ensures ok ==> retryAfter == 0.0
      ensures Value() == After(old(Value()), now)
    {
      hide Ceil, Flow;
      ghost var b := Value();
      var rate := rpm as real / 60.0;
      var elapsed := now - lastRefill;
      FlowIs(rpm, elapsed, rate);
      tokens := tokens + elapsed * rate;
      if tokens >= rpm as real {
        tokens := rpm as real;
      }
      lastRefill := now;
      assert tokens == Refilled(b, now) && rate == Rate(b);
      if tokens >= 1.0 {
        tokens := tokens - 1.0;
        return true, 0.0;
      }
      return false, Ceil((1.0 - tokens) / rate);
    }
  }

  // ----- Sequences of calls -----

  /** The times do not go back, starting from `last`. */
  predicate Ordered(last: real, times: seq<real>)
    decreases |times|
  {
    times == [] || (last <= times[0] && Ordered(times[0], times[1..]))
  }

  function LastTime(last: real, times: seq<real>): real
    decreases |times|
  {
    if times == [] then last else LastTime(times[0], times[1..])
  }

  /** The bucket after calls at these times. */
  function AfterAll(b: Bucket, times: seq<real>): Bucket
    decreases |times|
  {
    if times == [] then b else AfterAll(After(b, times[0]), times[1..])
  }

  /** How many of the calls were allowed. */
  function Allowed(b: Bucket, times: seq<real>): nat
    decreases |times|
  {
    if times == [] then 0 else (if Allows(b, times[0]) then 1 else 0) + Allowed(After(b, times[0]), times[1..])
  }

  lemma FlowIs(rpm: nat, dt: real, rate: real)
    requires rate == rpm as real / 60.0
    ensures dt * rate == Flow(rpm, dt)
  {
  }

  lemma FlowNonNegative(rpm: nat, dt: real)
    requires dt >= 0.0
    ensures Flow(rpm, dt) >= 0.0
  {
  }

  lemma FlowAdds(rpm: nat, x: real, y: real)
    ensures Flow(rpm, x) + Flow(rpm, y) == Flow(rpm, x + y)
  {
  }

  lemma FlowMonotone(rpm: nat, x: real, y: real)
    requires x <= y
    ensures Flow(rpm, x) <= Flow(rpm, y)
  {
    FlowNonNegative(rpm, y - x);
    FlowAdds(rpm, x, y - x);
  }

  lemma AfterValid(b: Bucket, now: real)
    requires Valid(b) && b.lastRefill <= now
    ensures Valid(After(b, now)) && After(b, now).rpm == b.rpm && After(b, now).lastRefill == now
    ensures Refilled(b, now) <= b.tokens + Flow(b.rpm, now - b.lastRefill)
  {
    hide Flow;
    FlowNonNegative(b.rpm, now - b.lastRefill);
  }

  /** Tokens spent and left over never exceed what was there and what flowed in. */
  lemma {:induction false} TokensConserved(b: Bucket, times: seq<real>)
    requires Valid(b) && Ordered(b.lastRefill, times)
    ensures var b' := AfterAll(b, times);
      && Valid(b') && b'.rpm == b.rpm && b'.lastRefill == LastTime(b.lastRefill, times)
      && Allowed(b, times) as real + b'.tokens <= b.tokens + Flow(b.rpm, b'.lastRefill - b.lastRefill)
    decreases |times|
  {
    hide Flow;
    if times == [] {
      FlowNonNegative(b.rpm, 0.0);
    } else {
      var b1, rest := After(b, times[0]), times[1..];
      AfterValid(b, times[0]);
      TokensConserved(b1, rest);
      FlowAdds(b.rpm, times[0] - b.lastRefill, AfterAll(b1, rest).lastRefill - times[0]);
    }
  }

  lemma {:induction false} OrderedParts(last: real, before: seq<real>, window: seq<real>)
    requires Ordered(last, before + window)
    ensures Ordered(last, before) && Ordered(LastTime(last, before), window)
    decreases |before|
  {
    if before == [] {
      assert before + window == window;
    } else {
      assert (before + window)[1..] == before[1..] + window;
      OrderedParts(before[0], before[1..], window);
    }
  }

  lemma {:induction false} LastTimeIs(last: real, times: seq<real>)
    ensures LastTime(last, times) == if times == [] then last else times[|times| - 1]
    decreases |times|
  {
    if times != [] {
      LastTimeIs(times[0], times[1..]);
    }
  }

  /** In any window, whatever happened before it and however the calls fall, at most a full bucket and the refill of the
      window are allowed. */
  lemma WindowBound(b: Bucket, before: seq<real>, window: seq<real>, length: real)
    requires Valid(b) && Ordered(b.lastRefill, before + window) && window != []
    requires window[|window| - 1] - window[0] <= length
    ensures Allowed(AfterAll(b, before), window) as real <= b.rpm as real + Flow(b.rpm, length)
  {
    hide *;
    OrderedParts(b.lastRefill, before, window);
    TokensConserved(b, before);
    WindowFrom(AfterAll(b, before), window, length);
  }

  lemma WindowFrom(b: Bucket, window: seq<real>, length: real)
    requires Valid(b) && Ordered(b.lastRefill, window) && window != [] && window[|window| - 1] - window[0] <= length
    ensures Allowed(b, window) as real <= b.rpm as real + Flow(b.rpm, length)
  {
    hide Flow;
    var b1, rest := After(b, window[0]), window[1..];
    AfterValid(b, window[0]);
    TokensConserved(b1, rest);
    LastTimeIs(window[0], rest);
    FlowMonotone(b.rpm, LastTime(window[0], rest) - window[0], length);
  }

  // ----- Waiting as told -----

  lemma CeilAbove(x: real)
    ensures x <= Ceil(x) < x + 1.0
  {
  }

  /** While calls are denied, tokens only grow, exactly with time. */
  lemma {:induction false} DeniedAccumulate(b: Bucket, times: seq<real>)
    requires Valid(b) && Ordered(b.lastRefill, times) && Allowed(b, times) == 0 && b.tokens < 1.0
    ensures var b' := AfterAll(b, times);
      && Valid(b') && b'.rpm == b.rpm && b'.lastRefill == LastTime(b.lastRefill, times) && b'.tokens < 1.0
      && b'.tokens == b.tokens + Flow(b.rpm, b'.lastRefill - b.lastRefill)
    decreases |times|
  {
    if times == [] {
      assert Flow(b.rpm, 0.0) == 0.0;
    } else {
      hide Flow;
      var b1, rest := After(b, times[0]), times[1..];
      AfterValid(b, times[0]);
      DeniedAccumulate(b1, rest);
      FlowAdds(b.rpm, times[0] - b.lastRefill, AfterAll(b1, rest).lastRefill - times[0]);
    }
  }

  /** A client that was told to wait and does so is served, if nobody else was served in between. */
  lemma WaitingHelps(b: Bucket, now: real, between: seq<real>, later: real)
    requires Valid(b) && b.lastRefill <= now && !Allows(b, now)
    requires Ordered(now, between) && Allowed(After(b, now), between) == 0
    requires now + RetryAfter(b, now) <= later && LastTime(now, between) <= later
    ensures Allows(AfterAll(After(b, now), between), later)
  {
    var need := 1.0 - Refilled(b, now);
    CeilAbove(need / Rate(b));
    WaitCovers(b, need, later - now);
    hide Flow, Ceil, Rate;
    var b1 := After(b, now);
    AfterValid(b, now);
    DeniedAccumulate(b1, between);
    FlowAdds(b.rpm, LastTime(now, between) - now, later - LastTime(now, between));
  }

  lemma WaitCovers(b: Bucket, need: real, waited: real)
    requires b.rpm >= 1 && waited >= need / Rate(b)
    ensures Flow(b.rpm, waited) >= need
  {
    assert Flow(b.rpm, need / Rate(b)) == need;
    FlowMonotone(b.rpm, need / Rate(b), waited);
  }

  /** The wait is less than a second longer than needed: after any whole second less, the call is still denied. */
  lemma WaitIsTight(b: Bucket, now: real, earlier: real)
    requires Valid(b) && b.lastRefill <= now <= earlier && !Allows(b, now)
    requires earlier <= now + RetryAfter(b, now) - 1.0
    ensures !Allows(After(b, now), earlier)
  {
    var need := 1.0 - Refilled(b, now);
    CeilAbove(need / Rate(b));
    assert Flow(b.rpm, need / Rate(b)) == need;
    FlowStrict(b.rpm, earlier - now, need / Rate(b));
    AfterValid(b, now);
  }

  lemma FlowStrict(rpm: nat, x: real, y: real)
    requires rpm >= 1 && x < y
    ensures Flow(rpm, x) < Flow(rpm, y)
  {
    assert (y - x) * (rpm as real / 60.0) > 0.0;
    FlowAdds(rpm, x, y - x);
  }

  // ----- The two limits -----

  /** The global bucket, the per-account limit (0 is off) and the buckets of the accounts seen so far. */
  datatype Limits = Limits(global: Option<Bucket>, accountRpm: nat, accounts: map<string, Bucket>)

  function AccountBucket(l: Limits, account: string, now: real): Bucket {
    if account in l.accounts then l.accounts[account] else Full(l.accountRpm, now)
  }

  predicate GlobalAllows(l: Limits, now: real) {
    l.global.None? || Allows(l.global.value, now)
  }

  predicate AccountAllows(l: Limits, account: string, now: real) {
    l.accountRpm == 0 || account == "" || Allows(AccountBucket(l, account, now), now)
  }

  /** The limits after a check: the account bucket is asked only if the global one allowed. */
  function Checked(l: Limits, account: string, now: real): Limits {
    var global := if l.global.Some? then Some(After(l.global.value, now)) else None;
    if !GlobalAllows(l, now) || l.accountRpm == 0 || account == "" then l.(global := global)
    else l.(global := global, accounts := l.accounts[account := After(AccountBucket(l, account, now), now)])
  }

  class Manager {
    var global: Option<Bucket>
    var accountRpm: nat
    var accounts: map<string, Bucket>

    constructor ()
      ensures Value() == Limits(None, 0, map[])
    {
      global, accountRpm, accounts := None, 0, map[];
    }

    function Value(): Limits
      reads this
    {
      Limits(global, accountRpm, accounts)
    }

    method Check(account: string, now: real) returns (ok: bool, retryAfter: real)
      requires global.Some? ==> global.value.rpm >= 1
      requires forall a | a in accounts :: accounts[a].rpm >= 1
      modifies this
      ensures ok == (GlobalAllows(old(Value()), now) && AccountAllows(old(Value()), account, now))
      ensures Value() == Checked(old(Value()), account, now)
      ensures !GlobalAllows(old(Value()), now) ==> retryAfter == RetryAfter(old(global).value, now)
      ensures GlobalAllows(old(Value()), now) && !ok ==> retryAfter == RetryAfter(AccountBucket(old(Value()), account, now), now)
    {
      if global.Some? {
        var b := new TokenBucket(global.value.rpm, now);
        b.tokens, b.lastRefill := global.value.tokens, global.value.lastRefill;
        ok, retryAfter := b.Allow(now);
        global := Some(b.Value());
        if !ok {
          return;
        }
      }
      if accountRpm > 0 && account != "" {
        var start := AccountBucket(Value(), account, now);
        var b := new TokenBucket(start.rpm, now);
        b.tokens, b.lastRefill := start.tokens, start.lastRefill;
        ok, retryAfter := b.Allow(now);
        accounts := accounts[account := b.Value()];
        if !ok {
          return;
        }
      }
      return true, 0.0;
    }
  }

  datatype Call = Call(account: string, time: real)

  function CheckedAll(l: Limits, calls: seq<Call>): Limits
    decreases |calls|
  {
    if calls == [] then l else CheckedAll(Checked(l, calls[0].account, calls[0].time), calls[1..])
  }

  /** How many calls pass both limits. */
  function Passed(l: Limits, calls: seq<Call>): nat
    decreases |calls|
  {
    if calls == [] then 0
    else
      (if GlobalAllows(l, calls[0].time) && AccountAllows(l, calls[0].account, calls[0].time) then 1 else 0) +
      Passed(Checked(l, calls[0].account, calls[0].time), calls[1..])
  }

  /** `n` requests of one account at one time. */
  function Burst(account: string, now: real, n: nat): seq<Call> {
    seq(n, _ => Call(account, now))
  }

  lemma RefilledAgain(b: Bucket, now: real)
    requires Valid(b) && b.lastRefill <= now
    ensures Valid(After(b, now)) && Refilled(After(b, now), now) == After(b, now).tokens
  {
    AfterValid(b, now);
    assert Flow(b.rpm, now - now) == 0.0;
  }

  /** Requests that only their account's limit denies still cost a global token each: `n` of them at one time, none of which
      passes, leave every account locked out exactly if fewer than `n + 1` global tokens were there. */
  lemma {:induction false} DeniedRequestsDrain(l: Limits, account: string, now: real, n: nat)
    requires l.global.Some? && Valid(l.global.value) && l.global.value.lastRefill <= now
    requires l.accountRpm >= 1 && account != "" && Valid(AccountBucket(l, account, now))
    requires AccountBucket(l, account, now).lastRefill <= now && !AccountAllows(l, account, now)
    ensures Passed(l, Burst(account, now, n)) == 0
    ensures n > 0 ==>
      var left, whole := CheckedAll(l, Burst(account, now, n)).global, Refilled(l.global.value, now).Floor;
      left.Some? && left.value.tokens == Refilled(l.global.value, now) - (if n < whole then n else whole) as real
    ensures GlobalAllows(CheckedAll(l, Burst(account, now, n)), now) <==> Refilled(l.global.value, now) >= n as real + 1.0
    decreases n
  {
    hide Flow;
    if n > 0 {
      var l1 := Checked(l, account, now);
      assert Burst(account, now, n)[1..] == Burst(account, now, n - 1);
      RefilledAgain(l.global.value, now);
      RefilledAgain(AccountBucket(l, account, now), now);
      AfterValid(l.global.value, now);
      AfterValid(AccountBucket(l, account, now), now);
      DeniedRequestsDrain(l1, account, now, n - 1);
    }
  }

  function Times(calls: seq<Call>): seq<real> {
    seq(|calls|, i requires 0 <= i < |calls| => calls[i].time)
  }

  lemma {:induction false} PassedAtMostGlobal(l: Limits, calls: seq<Call>)
    requires l.global.Some?
    ensures Passed(l, calls) <= Allowed(l.global.value, Times(calls))
    ensures CheckedAll(l, calls).global == Some(AfterAll(l.global.value, Times(calls)))
    decreases |calls|
  {
    if calls != [] {
      assert Times(calls)[1..] == Times(calls[1..]);
      PassedAtMostGlobal(Checked(l, calls[0].account, calls[0].time), calls[1..]);
    }
  }

  lemma TimesLast(calls: seq<Call>)
    requires calls != []
    ensures |Times(calls)| == |calls| && Times(calls)[0] == calls[0].time && Times(calls)[|calls| - 1] == calls[|calls| - 1].time
  {
  }

  /** The global window bound holds for requests over all accounts together. */
  lemma GlobalWindowBound(l: Limits, before: seq<Call>, window: seq<Call>, length: real)
    requires l.global.Some? && Valid(l.global.value) && window != []
    requires Ordered(l.global.value.lastRefill, Times(before) + Times(window))
    requires window[|window| - 1].time - window[0].time <= length
    ensures Passed(CheckedAll(l, before), window) as real
            <= l.global.value.rpm as real + Flow(l.global.value.rpm, length)
  {
    hide *;
    TimesLast(window);
    PassedAtMostGlobal(l, before);
    PassedAtMostGlobal(CheckedAll(l, before), window);
    WindowBound(l.global.value, Times(before), Times(window), length);
  }
}
