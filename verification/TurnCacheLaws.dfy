/** The two tiers behave like the simple map of last stored bindings, whatever the hot cache dropped. */
module TurnCacheLaws {
  import opened Options
  import opened Text
  import opened HotCache
  import opened TurnCache

  // ----- The invariant -----

  ghost predicate RowOk(c: Config, row: Row, last: Option<Binding>) {
    && last.Some? && row.account == last.value.account && row.context == Trimmed(last.value.context)
    && row.expires == Expiry(c, last.value)
  }

  /** The longest time between reading a row and making it hot. */
  function Delay(events: seq<Event>): nat {
    if events == [] then 0
    else
      var before, e := Delay(events[..|events| - 1]), events[|events| - 1];
      var mine := if (e.Lookup? || e.Load?) && e.fillTime > e.tableTime then e.fillTime - e.tableTime else 0;
      if mine > before then mine else before
  }

  /** A hot entry repeats the last binding; up to the delay `d` it was made while its row had not expired. */
  ghost predicate EntryOk(c: Config, e: TurnEntry, last: Option<Binding>, clock: int, d: nat) {
    && last.Some? && e.account == last.value.account && ((e.content == last.value.context && e.createdAt <= last.value.storedAt) || e.content == Trimmed(last.value.context))
    && Unix(e.createdAt - d) <= Expiry(c, last.value) && e.createdAt <= clock
  }

  ghost predicate HotOk(c: Config, events: seq<Event>, hot: Hot, clock: int, d: nat) {
    |hot| <= MaxEntries && forall k | k in hot :: EntryOk(c, hot[k], Last(events, k), clock, d)
  }

  /** Rows are exactly the last bindings, except that expired ones may have been dropped. */
  ghost predicate TableOk(c: Config, events: seq<Event>, table: map<string, Row>, clock: int) {
    && (forall k | k in table :: RowOk(c, table[k], Last(events, k)))
    && (forall k | Last(events, k).Some? && k !in table :: Expiry(c, Last(events, k).value) < Unix(clock))
  }

  ghost predicate Inv(c: Config, events: seq<Event>, s: State) {
    HotOk(c, events, s.hot, s.clock, Delay(events)) && TableOk(c, events, s.table, s.clock)
  }

  lemma LastSnoc(events: seq<Event>, e: Event, key: string)
    ensures Last(events + [e], key) ==
      if e.Store? && TrimSpace(e.key) == key && key != "" && TrimSpace(e.account) != ""
      then Some(Binding(TrimSpace(e.account), e.context, e.tableTime))
      else if e.Evict? && Last(events, key).Some? && Last(events, key).value.account == TrimSpace(e.account) then None
      else Last(events, key)
  {
    hide TrimSpace;
    assert (events + [e])[..|events|] == events;
  }

  /** Bindings are kept under trimmed keys and for trimmed non-blank accounts. */
  ghost predicate Clean(key: string, last: Option<Binding>) {
    last.Some? ==> key != "" && TrimSpace(key) == key && last.value.account != "" &&
                   TrimSpace(last.value.account) == last.value.account
  }

  lemma {:induction false} LastClean(events: seq<Event>, key: string)
    ensures Clean(key, Last(events, key))
  {
    hide TrimSpace;
    if events != [] {
      var front, e := events[..|events| - 1], events[|events| - 1];
      LastClean(front, key);
      assert front + [e] == events;
      LastSnoc(front, e, key);
      if e.Store? {
        TrimIdempotent(e.key);
        TrimIdempotent(e.account);
      }
    }
  }

  lemma DelaySnoc(events: seq<Event>, e: Event)
    ensures Delay(events) <= Delay(events + [e])
    ensures e.Lookup? || e.Load? ==> e.fillTime - e.tableTime <= Delay(events + [e])
  {
    assert (events + [e])[..|events|] == events;
  }

  // ----- The hot tier -----

  lemma PrunedOk(c: Config, events: seq<Event>, hot: Hot, m: Hot, now: int, clock: int, d: nat)
    requires HotOk(c, events, hot, clock, d) && Pruned(hot, m, MaxEntries, now)
    ensures HotOk(c, events, m, clock, d)
  {
  }

  lemma LaterOk(c: Config, events: seq<Event>, hot: Hot, clock: int, later: int, d: nat, d': nat)
    requires HotOk(c, events, hot, clock, d) && clock <= later && d <= d'
    ensures HotOk(c, events, hot, later, d')
  {
    hide Last, Expiry;
    forall k | k in hot
      ensures EntryOk(c, hot[k], Last(events, k), later, d')
    {
      assert EntryOk(c, hot[k], Last(events, k), clock, d);
    }
  }

  /** Making a binding hot keeps the invariant if the entry fits the last binding. */
  lemma HotStoreOk(c: Config, events: seq<Event>, hot: Hot, hot': Hot, key: string,
                   account: string, context: Context, now: int, clock: int, d: nat)
    requires (forall k | k in hot && k != TrimSpace(key) :: EntryOk(c, hot[k], Last(events, k), clock, d)) && |hot| <= MaxEntries
    requires HotStore(hot, hot', key, account, context, now) && clock <= now
    requires TrimSpace(key) != "" && TrimSpace(account) != ""
    requires EntryOk(c, Entry(TrimSpace(account), context, now, now), Last(events, TrimSpace(key)), now, d)
    ensures HotOk(c, events, hot', now, d)
  {
    hide TrimSpace, Last, Expiry, Unix, Trimmed;
    var k, a := TrimSpace(key), TrimSpace(account);
    var m :| Pruned(hot, m, MaxEntries, now) && Pruned(m[k := Entry(a, context, now, now)], hot', MaxEntries, now);
    var m' := m[k := Entry(a, context, now, now)];
    forall j | j in m'
      ensures EntryOk(c, m'[j], Last(events, j), now, d)
    {
      if j != k {
        assert EntryOk(c, hot[j], Last(events, j), clock, d);
      }
    }
  }

  lemma FindOk(c: Config, events: seq<Event>, hot: Hot, h: Hot, key: string,
               wanted: Option<string>, now: int, found: Option<TurnEntry>, clock: int, d: nat)
    requires HotOk(c, events, hot, clock, d) && HotFind(hot, h, key, wanted, now, found) && clock <= now
    ensures HotOk(c, events, h, now, d)
    ensures found.Some? ==> TrimSpace(key) in hot && found.value == hot[TrimSpace(key)] && FreshAt(found.value, now)
    ensures found.Some? && wanted.Some? ==> found.value.account == TrimSpace(wanted.value)
    ensures found.Some? ==> EntryOk(c, found.value, Last(events, TrimSpace(key)), clock, d)
  {
    hide TrimSpace, Last, Expiry, Unix, Trimmed, HotOk;
    var k := TrimSpace(key);
    if !(k == "" || (wanted.Some? && TrimSpace(wanted.value) == "")) {
      var m :| Pruned(hot, m, MaxEntries, now) && Found(m, h, k, wanted, now, found);
      PrunedOk(c, events, hot, m, now, clock, d);
      LaterOk(c, events, m, clock, now, d, d);
      HotOkEntries(c, events, m, clock, d);
      HotOkEntries(c, events, m, now, d);
      if found.Some? {
        TouchOk(c, events, m, k, now, d);
      }
    } else {
      LaterOk(c, events, hot, clock, now, d, d);
    }
  }

  lemma TouchOk(c: Config, events: seq<Event>, m: Hot, k: string, now: int, d: nat)
    requires HotOk(c, events, m, now, d) && k in m
    ensures HotOk(c, events, m[k := m[k].(accessedAt := now)], now, d)
  {
    hide Last, Expiry, Trimmed;
    var r := m[k := m[k].(accessedAt := now)];
    assert r.Keys == m.Keys;
    assert |r| == |r.Keys| && |m| == |m.Keys|;
    forall j | j in r
      ensures EntryOk(c, r[j], Last(events, j), now, d)
    {
      assert EntryOk(c, m[j], Last(events, j), now, d);
    }
  }

  lemma HotOkEntries(c: Config, events: seq<Event>, h: Hot, clock: int, d: nat)
    requires HotOk(c, events, h, clock, d)
    ensures |h| <= MaxEntries && forall k | k in h :: EntryOk(c, h[k], Last(events, k), clock, d)
  {
  }

  // ----- The table -----

  /** A row that is found is the last binding, not yet expired; a missing one has expired, was never stored or was not read. */
  lemma TableFindOk(c: Config, events: seq<Event>, table: map<string, Row>, key: string, now: int, ok: bool, clock: int)
    requires TableOk(c, events, table, clock) && clock <= now && c.enabled
    ensures var row, last := TableFind(c, table, key, now, ok), Last(events, key);
      && (row.Some? <==> ok && last.Some? && Expiry(c, last.value) >= Unix(now))
      && (row.Some? ==> RowOk(c, row.value, last) && row.value.expires >= Unix(now))
  {
    hide Last, Expiry, Trimmed;
    assert key in table ==> RowOk(c, table[key], Last(events, key));
    assert Unix(clock) <= Unix(now);
  }

  lemma FillOk(c: Config, events: seq<Event>, h: Hot, hot': Hot, key: string, row: Option<Row>,
               tableTime: int, now: int, d: nat)
    requires HotOk(c, events, h, tableTime, d) && tableTime <= now <= tableTime + d && Filled(h, hot', key, row, now)
    requires row.Some? ==> RowOk(c, row.value, Last(events, key)) && row.value.expires >= Unix(tableTime)
    ensures HotOk(c, events, hot', now, d)
  {
    hide HotStore, HotOk, Last, TrimSpace;
    if row.None? {
      LaterOk(c, events, h, tableTime, now, d, d);
    } else {
      LastClean(events, key);
      HotOkEntries(c, events, h, tableTime, d);
      assert Unix(now - d) <= Unix(tableTime);
      HotStoreOk(c, events, h, hot', key, row.value.account, row.value.context, now, tableTime, d);
    }
  }

  // ----- Every operation keeps the invariant -----

  /** Bindings did not change. */
  lemma SameLast(c: Config, events: seq<Event>, e: Event, hot: Hot, table: map<string, Row>, clock: int,
                 tableClock: int, d: nat)
    requires !e.Store? && !e.Evict?
    requires HotOk(c, events, hot, clock, d) && TableOk(c, events, table, tableClock)
    ensures HotOk(c, events + [e], hot, clock, d) && TableOk(c, events + [e], table, tableClock)
  {
    hide Last, Expiry, EntryOk, RowOk;
    forall k
      ensures Last(events + [e], k) == Last(events, k)
    {
      LastSnoc(events, e, k);
    }
  }

  lemma TableLater(c: Config, events: seq<Event>, table: map<string, Row>, clock: int, later: int)
    requires TableOk(c, events, table, clock) && clock <= later
    ensures TableOk(c, events, table, later)
  {
    hide Last, RowOk, Expiry;
    assert Unix(clock) <= Unix(later);
  }

  lemma LookupKeeps(c: Config, events: seq<Event>, s: State, e: Event, s': State)
    requires c.enabled && Inv(c, events, s) && Next(c, s, e, s') && e.Lookup?
    ensures Inv(c, events + [e], s')
  {
    hide HotOk, TableOk, HotFind, Filled, RowOk, TrimSpace;
    var d := Delay(events + [e]);
    DelaySnoc(events, e);
    var h, found :| LookupStep(c, s, h, found, e, s'.hot);
    LaterOk(c, events, s.hot, s.clock, s.clock, Delay(events), d);
    FindOk(c, events, s.hot, h, e.key, None, e.hotTime, found, s.clock, d);
    LaterOk(c, events, h, e.hotTime, e.tableTime, d, d);
    if found.Some? {
      LaterOk(c, events, h, e.tableTime, e.fillTime, d, d);
    } else {
      TableFindOk(c, events, s.table, e.key, e.tableTime, e.ok, s.clock);
      FillOk(c, events, h, s'.hot, e.key, TableFind(c, s.table, e.key, e.tableTime, e.ok), e.tableTime, e.fillTime, d);
    }
    TableLater(c, events, s.table, s.clock, s'.clock);
    SameLast(c, events, e, s'.hot, s'.table, s'.clock, s'.clock, d);
  }

  lemma LoadKeeps(c: Config, events: seq<Event>, s: State, e: Event, s': State)
    requires c.enabled && Inv(c, events, s) && Next(c, s, e, s') && e.Load?
    ensures Inv(c, events + [e], s')
  {
    hide HotOk, TableOk, HotFind, Filled, RowOk, TrimSpace;
    var d := Delay(events + [e]);
    DelaySnoc(events, e);
    var h, found :| LoadStep(c, s, h, found, e, s'.hot);
    LaterOk(c, events, s.hot, s.clock, s.clock, Delay(events), d);
    FindOk(c, events, s.hot, h, e.key, Some(e.account), e.hotTime, found, s.clock, d);
    LaterOk(c, events, h, e.hotTime, e.tableTime, d, d);
    if found.Some? {
      LaterOk(c, events, h, e.tableTime, e.fillTime, d, d);
    } else {
      TableFindOk(c, events, s.table, e.key, e.tableTime, e.ok, s.clock);
      var row := TableFind(c, s.table, e.key, e.tableTime, e.ok);
      var own := if row.Some? && row.value.account == TrimSpace(e.account) then row else None;
      FillOk(c, events, h, s'.hot, e.key, own, e.tableTime, e.fillTime, d);
    }
    TableLater(c, events, s.table, s.clock, s'.clock);
    SameLast(c, events, e, s'.hot, s'.table, s'.clock, s'.clock, d);
  }

  lemma StoreHotKeeps(c: Config, events: seq<Event>, s: State, e: Event, s': State)
    requires Inv(c, events, s) && e.Store? && StoreStep(c, s, e, s')
    requires s.clock <= e.hotTime <= e.tableTime == s'.clock
    ensures HotOk(c, events + [e], s'.hot, s'.clock, Delay(events + [e]))
  {
    hide TrimSpace, Last, HotStore, Trimmed, Delay;
    var k, a, d, all := TrimSpace(e.key), TrimSpace(e.account), Delay(events + [e]), events + [e];
    DelaySnoc(events, e);
    TrimIdempotent(e.key);
    LaterOk(c, events, s.hot, s.clock, s.clock, Delay(events), d);
    forall j | j in s.hot && (j != k || a == "")
      ensures EntryOk(c, s.hot[j], Last(all, j), s.clock, d)
    {
      LastSnoc(events, e, j);
      LastClean(events, j);
    }
    if k == "" || a == "" {
      NoHotStore(s.hot, s'.hot, k, e.account, e.context, e.hotTime);
      assert forall j | j in s.hot :: j != "" by {
        forall j | j in s.hot
          ensures j != ""
        {
          LastClean(events, j);
        }
      }
      LaterOk(c, all, s.hot, s.clock, s'.clock, d, d);
    } else {
      LastSnoc(events, e, k);
      HotStoreOk(c, all, s.hot, s'.hot, k, e.account, e.context, e.hotTime, s.clock, d);
      LaterOk(c, all, s'.hot, e.hotTime, s'.clock, d, d);
    }
  }

  lemma NoHotStore(hot: Hot, hot': Hot, key: string, account: string, context: Context, now: int)
    requires HotStore(hot, hot', key, account, context, now) && (TrimSpace(key) == "" || TrimSpace(account) == "")
    ensures hot' == hot
  {
  }

  lemma StoreTableKeeps(c: Config, events: seq<Event>, s: State, e: Event, s': State)
    requires c.enabled && TableOk(c, events, s.table, s.clock) && e.Store? && e.ok && StoreStep(c, s, e, s')
    requires s.clock <= s'.clock == e.tableTime
    ensures TableOk(c, events + [e], s'.table, s'.clock)
  {
    hide TrimSpace, Last, HotStore, Trimmed;
    TableLater(c, events, s.table, s.clock, s'.clock);
    forall k
      ensures Last(events + [e], k) ==
        if TrimSpace(e.key) == k && k != "" && TrimSpace(e.account) != ""
        then Some(Binding(TrimSpace(e.account), e.context, e.tableTime)) else Last(events, k)
    {
      LastSnoc(events, e, k);
    }
  }

  lemma EvictLast(events: seq<Event>, e: Event, k: string)
    requires e.Evict?
    ensures Last(events + [e], k) ==
      if Last(events, k).Some? && Last(events, k).value.account == TrimSpace(e.account) then None else Last(events, k)
    ensures Last(events, k).Some? ==> Last(events, k).value.account != ""
  {
    LastSnoc(events, e, k);
    LastClean(events, k);
  }

  lemma EvictHotKeeps(c: Config, events: seq<Event>, s: State, e: Event, s': State, d: nat)
    requires HotOk(c, events, s.hot, s.clock, d) && Next(c, s, e, s') && e.Evict?
    ensures HotOk(c, events + [e], s'.hot, s'.clock, d)
  {
    hide TrimSpace, Last, Trimmed, Expiry;
    SubmapSize(s.hot, s'.hot);
    forall k | k in s'.hot
      ensures EntryOk(c, s'.hot[k], Last(events + [e], k), s'.clock, d)
    {
      assert EntryOk(c, s.hot[k], Last(events, k), s.clock, d);
      EvictLast(events, e, k);
    }
  }

  lemma EvictTableKeeps(c: Config, events: seq<Event>, s: State, e: Event, s': State)
    requires c.enabled && TableOk(c, events, s.table, s.clock) && Next(c, s, e, s') && e.Evict? && e.ok
    ensures TableOk(c, events + [e], s'.table, s'.clock)
  {
    hide TrimSpace, Last, Trimmed, Expiry;
    forall k
      ensures Last(events + [e], k) ==
        if Last(events, k).Some? && Last(events, k).value.account == TrimSpace(e.account) then None else Last(events, k)
      ensures Last(events, k).Some? ==> Last(events, k).value.account != ""
    {
      EvictLast(events, e, k);
    }
  }

  lemma EvictKeeps(c: Config, events: seq<Event>, s: State, e: Event, s': State)
    requires c.enabled && Inv(c, events, s) && Next(c, s, e, s') && e.Evict? && e.ok
    ensures Inv(c, events + [e], s')
  {
    hide HotOk, TableOk;
    DelaySnoc(events, e);
    LaterOk(c, events, s.hot, s.clock, s.clock, Delay(events), Delay(events + [e]));
    EvictHotKeeps(c, events, s, e, s', Delay(events + [e]));
    EvictTableKeeps(c, events, s, e, s');
  }

  lemma CleanupKeeps(c: Config, events: seq<Event>, s: State, e: Event, s': State)
    requires Inv(c, events, s) && Next(c, s, e, s') && e.Cleanup?
    ensures Inv(c, events + [e], s')
  {
    hide Last, Expiry, EntryOk, Delay;
    DelaySnoc(events, e);
    LaterOk(c, events, s.hot, s.clock, s'.clock, Delay(events), Delay(events + [e]));
    TableLater(c, events, s.table, s.clock, s'.clock);
    assert TableOk(c, events, s'.table, s'.clock);
    SameLast(c, events, e, s'.hot, s'.table, s'.clock, s'.clock, Delay(events + [e]));
  }

  /** Both tiers agree with the simple map after every run whose table writes succeeded. */
  lemma {:induction false} RunInv(c: Config, events: seq<Event>, s: State)
    requires c.enabled && Run(c, events, s) && WritesSucceed(events)
    ensures Inv(c, events, s) && |s.hot| <= 1024
  {
    if events != [] {
      hide Inv, Next;
      var front, e := events[..|events| - 1], events[|events| - 1];
      var p :| Run(c, front, p) && Next(c, p, e, s);
      assert front + [e] == events && e in events;
      assert WritesSucceed(front);
      RunInv(c, front, p);
      NextKeeps(c, front, p, e, s);
    }
  }

  lemma NextKeeps(c: Config, events: seq<Event>, s: State, e: Event, s': State)
    requires c.enabled && Inv(c, events, s) && Next(c, s, e, s')
    requires (e.Store? ==> e.ok) && (e.Evict? ==> e.ok)
    ensures Inv(c, events + [e], s')
  {
    hide HotOk, TableOk, StoreStep, LookupStep, LoadStep;
    match e {
      case Store(_, _, _, _, _, _) =>
        StoreHotKeeps(c, events, s, e, s');
        StoreTableKeeps(c, events, s, e, s');
      case Lookup(_, _, _, _, _, _) => LookupKeeps(c, events, s, e, s');
      case Load(_, _, _, _, _, _, _) => LoadKeeps(c, events, s, e, s');
      case Evict(_, _) => EvictKeeps(c, events, s, e, s');
      case Cleanup(_) => CleanupKeeps(c, events, s, e, s');
    }
  }

  // ----- What clients see -----

  /** The retention has not run out, in whole seconds. */
  predicate Lives(c: Config, b: Binding, now: int) {
    now / 1_000_000_000 <= (b.storedAt + c.retention) / 1_000_000_000
  }

  lemma LivesIs(c: Config, b: Binding, now: int)
    ensures Lives(c, b, now) <==> Expiry(c, b) >= Unix(now)
  {
  }

  ghost predicate OwnerIsLast(c: Config, e: Event, last: Option<Binding>, delay: nat)
    requires e.Lookup?
  {
    && (e.owner.Some? ==> last.Some? && e.owner.value == last.value.account)
    && (e.owner.Some? ==> Lives(c, last.value, e.hotTime - 1_800_000_000_000 - delay))
    && (last.Some? && Lives(c, last.value, e.tableTime) && TrimSpace(e.key) == e.key && e.ok ==> e.owner.Some?)
  }

  /** Every field is the stored one without outer white space. */
  predicate Kept(loaded: Context, stored: Context) {
    && loaded.interactionId == TrimSpace(stored.interactionId)
    && loaded.clientSessionId == TrimSpace(stored.clientSessionId)
    && loaded.agentTaskId == TrimSpace(stored.agentTaskId)
  }

  lemma TrimmedKept(x: Context)
    ensures Kept(Trimmed(x), x)
  {
    hide TrimSpace;
  }

  ghost predicate ContextIsLast(c: Config, e: Event, last: Option<Binding>)
    requires e.Load?
  {
    var own := last.Some? && last.value.account == TrimSpace(e.account);
    && (e.loaded.Some? ==> own && (e.loaded.value == last.value.context || Kept(e.loaded.value, last.value.context)))
    && (e.loaded.Some? && e.hotTime - last.value.storedAt > 1_800_000_000_000 ==> Kept(e.loaded.value, last.value.context))
    && (own && Lives(c, last.value, e.tableTime) && TrimSpace(e.key) == e.key && e.ok ==> e.loaded.Some?)
  }

  /** An unexpired binding always decides a lookup that can read it, whatever pruning dropped; any account returned is the last one
      stored for the key, at most the hot lifetime (and the longest refill delay) past the binding's expiry. */
  lemma LookupFindsLast(c: Config, events: seq<Event>, e: Event, s: State)
    requires c.enabled && Run(c, events + [e], s) && WritesSucceed(events + [e]) && e.Lookup?
    ensures OwnerIsLast(c, e, Last(events, TrimSpace(e.key)), Delay(events))
  {
    hide Inv, Next;
    assert (events + [e])[..|events|] == events;
    var p :| Run(c, events, p) && Next(c, p, e, s);
    assert forall x | x in events :: x in events + [e];
    RunInv(c, events, p);
    LookupResult(c, events, p, e, s);
  }

  lemma LookupResult(c: Config, events: seq<Event>, s: State, e: Event, s': State)
    requires c.enabled && Inv(c, events, s) && Next(c, s, e, s') && e.Lookup?
    ensures OwnerIsLast(c, e, Last(events, TrimSpace(e.key)), Delay(events))
  {
    hide HotOk, TableOk, HotFind, Filled, TrimSpace, Last, Delay, Trimmed;
    var h, found :| LookupStep(c, s, h, found, e, s'.hot);
    FindOk(c, events, s.hot, h, e.key, None, e.hotTime, found, s.clock, Delay(events));
    TableFindOk(c, events, s.table, e.key, e.tableTime, e.ok, s.clock);
    LastClean(events, e.key);
    var last := Last(events, TrimSpace(e.key));
    if last.Some? {
      LivesIs(c, last.value, e.tableTime);
      LivesIs(c, last.value, e.hotTime - Ttl - Delay(events));
    }
    assert Unix(e.hotTime - Ttl - Delay(events)) <= Unix(e.tableTime);
    if found.Some? {
      assert Unix(e.hotTime - Ttl - Delay(events)) <= Unix(found.value.createdAt - Delay(events));
    }
  }

  /** When every refill is made at the time of its read, no answer is more than the hot lifetime past the expiry. */
  lemma LookupWithinLifetime(c: Config, events: seq<Event>, e: Event, s: State)
    requires c.enabled && Run(c, events + [e], s) && WritesSucceed(events + [e]) && e.Lookup? && e.owner.Some?
    requires Delay(events) == 0
    ensures var last := Last(events, TrimSpace(e.key));
      last.Some? && Lives(c, last.value, e.hotTime - 1_800_000_000_000)
  {
    hide Run, Last, TrimSpace, Delay, WritesSucceed;
    LookupFindsLast(c, events, e, s);
  }

  /** The bound is reached: a row read in its last second and made hot `d` later still answers a whole hot lifetime after
      that, although the binding has expired, and by more than the hot lifetime if `d` is a second or more. */
  lemma AnswersPastExpiry(c: Config, k: string, a: string, x: Context, d: nat) returns (late: Event, s: State)
    requires c.enabled && c.retention > Ttl && TrimSpace(k) == k != "" && TrimSpace(a) == a != ""
    ensures var events := [Store(k, a, x, 0, 0, true), Lookup(k, c.retention, c.retention, c.retention + d, true, Some(a))];
      var last := Last(events, k);
      && Run(c, events + [late], s) && WritesSucceed(events + [late]) && Delay(events) == d
      && late.Lookup? && late.key == k && late.owner == Some(a) && late.hotTime == c.retention + d + 1_800_000_000_000
      && last.Some? && Unix(late.hotTime - Ttl - Delay(events)) == Expiry(c, last.value) < Unix(late.hotTime)
      && (d >= 1_000_000_000 ==> Unix(late.hotTime - Ttl) > Expiry(c, last.value))
  {
    hide Next, Run, Last, Delay, WritesSucceed, TrimSpace, Unix, Trimmed, RowOf;
    var t := c.retention + d;
    var store, refill := Store(k, a, x, 0, 0, true), Lookup(k, c.retention, c.retention, t, true, Some(a));
    late := Lookup(k, t + Ttl, t + Ttl, t + Ttl, true, Some(a));
    var s1 := Held(c, k, a, x, 0);
    var s2 := Held(c, k, a, Trimmed(x), t).(table := s1.table);
    s := s2.(hot := s2.hot[k := s2.hot[k].(accessedAt := t + Ttl)], clock := t + Ttl);
    StoredOnce(c, k, a, x);
    RefilledLate(c, k, a, x, t);
    HotHit(c, s2, k, a, t + Ttl);
    ThreeEvents(c, store, refill, late, State(map[], map[], 0), s1, s2, s);
    LastOfThree(c, k, a, x, d);
    assert [store, refill] + [late] == [store, refill, late];
    LaterSeconds(c.retention, d);
  }

  lemma LaterSeconds(retention: nat, d: nat)
    ensures Unix(retention + d + Ttl - Ttl - d) == Unix(0 + retention) < Unix(retention + d + Ttl)
    ensures d >= 1_000_000_000 ==> Unix(retention + d + Ttl - Ttl) > Unix(0 + retention)
  {
  }

  /** One binding in both tiers, made hot at `now`. */
  function Held(c: Config, k: string, a: string, x: Context, now: int): State {
    State(map[k := Entry(a, x, now, now)], map[k := RowOf(c, a, x, 0)], now)
  }

  ghost predicate Plain(s: string) {
    TrimSpace(s) == s && s != ""
  }

  lemma StoredOnce(c: Config, k: string, a: string, x: Context)
    requires c.enabled && Plain(k) && Plain(a)
    ensures Next(c, State(map[], map[], 0), Store(k, a, x, 0, 0, true), Held(c, k, a, x, 0))
  {
    hide TrimSpace, Unix, RowOf;
    var none: Hot, e, s1 := map[], Entry(a, x, 0, 0), Held(c, k, a, x, 0);
    assert |s1.hot| == 1;
    assert Pruned(none, none, MaxEntries, 0) && Pruned(none[k := e], s1.hot, MaxEntries, 0);
    assert HotStore(none, s1.hot, k, a, x, 0);
  }

  /** By the time the row is about to expire the hot entry is stale; the row is read and made hot at `t`. */
  lemma RefilledLate(c: Config, k: string, a: string, x: Context, t: int)
    requires c.enabled && c.retention > Ttl && Plain(k) && Plain(a) && c.retention <= t
    ensures var s := Held(c, k, a, x, 0);
      Next(c, s, Lookup(k, c.retention, c.retention, t, true, Some(a)), Held(c, k, a, Trimmed(x), t).(table := s.table))
  {
    hide TrimSpace, Unix, Trimmed;
    var s, e := Held(c, k, a, x, 0), Lookup(k, c.retention, c.retention, t, true, Some(a));
    var none: Hot, s2 := map[], Held(c, k, a, Trimmed(x), t).(table := s.table);
    assert Pruned(s.hot, none, MaxEntries, c.retention) && Found(none, none, k, None, c.retention, None);
    assert HotFind(s.hot, none, k, None, c.retention, None);
    assert |s2.hot| == 1;
    assert Pruned(none, none, MaxEntries, t) && Pruned(none[k := Entry(a, Trimmed(x), t, t)], s2.hot, MaxEntries, t);
    assert HotStore(none, s2.hot, k, a, Trimmed(x), t);
    assert 0 + c.retention == c.retention && TableFind(c, s.table, k, c.retention, true) == Some(s.table[k]);
    assert LookupStep(c, s, none, None, e, s2.hot);
  }

  lemma HotHit(c: Config, s: State, k: string, a: string, now: int)
    requires Plain(k) && s.hot.Keys == {k} && s.hot[k].account == a && FreshAt(s.hot[k], now) && s.clock <= now
    ensures Next(c, s, Lookup(k, now, now, now, true, Some(a)),
                 s.(hot := s.hot[k := s.hot[k].(accessedAt := now)], clock := now))
  {
    hide TrimSpace;
    var h := s.hot[k := s.hot[k].(accessedAt := now)];
    assert |s.hot| == |s.hot.Keys| == 1;
    assert Pruned(s.hot, s.hot, MaxEntries, now) && Found(s.hot, h, k, None, now, Some(s.hot[k]));
    assert HotFind(s.hot, h, k, None, now, Some(s.hot[k]));
    assert LookupStep(c, s, h, Some(s.hot[k]), Lookup(k, now, now, now, true, Some(a)), h);
  }

  lemma ThreeEvents(c: Config, e1: Event, e2: Event, e3: Event, s0: State, s1: State, s2: State, s3: State)
    requires s0.hot == map[] && s0.table == map[]
    requires Next(c, s0, e1, s1) && Next(c, s1, e2, s2) && Next(c, s2, e3, s3)
    ensures Run(c, [e1, e2, e3], s3)
  {
    hide Next;
    assert [e1][..0] == [] && [e1, e2][..1] == [e1] && [e1, e2, e3][..2] == [e1, e2];
    assert Run(c, [], s0);
    assert Run(c, [e1], s1);
    assert Run(c, [e1, e2], s2);
  }

  lemma LastOfThree(c: Config, k: string, a: string, x: Context, d: nat)
    requires Plain(k) && Plain(a)
    ensures var store, refill := Store(k, a, x, 0, 0, true), Lookup(k, c.retention, c.retention, c.retention + d, true, Some(a));
      var late := Lookup(k, c.retention + d + Ttl, c.retention + d + Ttl, c.retention + d + Ttl, true, Some(a));
      && Delay([store, refill]) == d && Last([store, refill], k) == Some(Binding(a, x, 0))
      && WritesSucceed([store, refill, late])
  {
    hide TrimSpace;
    var store, refill := Store(k, a, x, 0, 0, true), Lookup(k, c.retention, c.retention, c.retention + d, true, Some(a));
    assert [store][..0] == [] && [store, refill][..1] == [store];
    assert Delay([store]) == 0 && Last([store], k) == Some(Binding(a, x, 0));
  }

  /** The context a load returns is that of the last binding, as it was stored or, and later than the hot lifetime always, field
      by field without outer white space; and the account is the one asked for. */
  lemma LoadFindsLast(c: Config, events: seq<Event>, e: Event, s: State)
    requires c.enabled && Run(c, events + [e], s) && WritesSucceed(events + [e]) && e.Load?
    ensures ContextIsLast(c, e, Last(events, TrimSpace(e.key)))
  {
    hide Inv, Next;
    assert (events + [e])[..|events|] == events;
    var p :| Run(c, events, p) && Next(c, p, e, s);
    assert forall x | x in events :: x in events + [e];
    RunInv(c, events, p);
    LoadResult(c, events, p, e, s);
  }

  lemma LoadResult(c: Config, events: seq<Event>, s: State, e: Event, s': State)
    requires c.enabled && Inv(c, events, s) && Next(c, s, e, s') && e.Load?
    ensures ContextIsLast(c, e, Last(events, TrimSpace(e.key)))
  {
    hide HotOk, TableOk, HotFind, Filled, TrimSpace, Last, Delay, Trimmed, Kept;
    var h, found :| LoadStep(c, s, h, found, e, s'.hot);
    FindOk(c, events, s.hot, h, e.key, Some(e.account), e.hotTime, found, s.clock, Delay(events));
    TableFindOk(c, events, s.table, e.key, e.tableTime, e.ok, s.clock);
    LastClean(events, e.key);
    var last := Last(events, TrimSpace(e.key));
    if last.Some? {
      TrimmedKept(last.value.context);
      LivesIs(c, last.value, e.tableTime);
    }
  }

  /** Once an account is evicted, no lookup resolves to it and no context is loaded for it until it is stored again. */
  lemma EvictedStaysGone(c: Config, before: seq<Event>, evict: Event, after: seq<Event>, e: Event, s: State)
    requires c.enabled && evict.Evict?
    requires Run(c, before + [evict] + after + [e], s) && WritesSucceed(before + [evict] + after + [e])
    requires forall x | x in after && x.Store? :: TrimSpace(x.account) != TrimSpace(evict.account)
    ensures e.Lookup? ==> e.owner != Some(TrimSpace(evict.account))
    ensures e.Load? && TrimSpace(e.account) == TrimSpace(evict.account) ==> e.loaded.None?
  {
    hide Run, Last, TrimSpace, WritesSucceed;
    if e.Lookup? || e.Load? {
      GoneFrom(before, evict, after, TrimSpace(e.key));
    }
    if e.Lookup? {
      LookupFindsLast(c, before + [evict] + after, e, s);
    } else if e.Load? {
      LoadFindsLast(c, before + [evict] + after, e, s);
    }
  }

  lemma {:induction false} GoneFrom(before: seq<Event>, evict: Event, after: seq<Event>, key: string)
    requires evict.Evict? && forall x | x in after && x.Store? :: TrimSpace(x.account) != TrimSpace(evict.account)
    ensures var last := Last(before + [evict] + after, key);
      last.Some? ==> last.value.account != TrimSpace(evict.account)
  {
    hide Last, TrimSpace;
    if after == [] {
      assert before + [evict] + after == before + [evict];
      LastSnoc(before, evict, key);
    } else {
      var front, x := after[..|after| - 1], after[|after| - 1];
      GoneFrom(before, evict, front, key);
      assert before + [evict] + after == (before + [evict] + front) + [x];
      LastSnoc(before + [evict] + front, x, key);
    }
  }
}
