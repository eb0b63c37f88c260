/** The three tiers behave like a partial map of last stores: a load is a miss or exactly the last store. */
module ReplayStoreLaws {
  import opened Options
  import opened Text
  import opened HotCache
  import opened ResponsesItems
  import opened ReplayStore

  // ----- The invariant -----

  ghost predicate EntryOk(e: ReplayEntry, last: Option<Binding>) {
    last.Some? && e.account == last.value.account && e.content == last.value.payload && e.createdAt <= last.value.storedAt
  }

  ghost predicate MetaOk(c: Config, m: Meta, last: Option<Binding>) {
    last.Some? && m.account == last.value.account && m.ready == last.value.ready && m.expires == Expiry(c, last.value)
  }

  ghost predicate HotOk(c: Config, events: seq<Event>, hot: Hot) {
    |hot| <= MaxEntries && forall k | k in hot :: EntryOk(hot[k], Last(c, events, k))
  }

  /** Metadata is exactly the last stores, except that expired rows may have been dropped. */
  ghost predicate MetaTierOk(c: Config, events: seq<Event>, meta: map<string, Meta>, clock: int) {
    && (forall k | k in meta :: MetaOk(c, meta[k], Last(c, events, k)))
    && (forall k | Last(c, events, k).Some? && k !in meta :: Expiry(c, Last(c, events, k).value) < Unix(clock))
  }

  /** Whatever metadata vouches for is in the cold tier, for the right account. */
  ghost predicate ColdOk(c: Config, events: seq<Event>, meta: map<string, Meta>, cold: map<string, Cold>) {
    forall k | k in meta && meta[k].ready :: Vouched(cold, k, Last(c, events, k))
  }

  ghost predicate Vouched(cold: map<string, Cold>, k: string, last: Option<Binding>) {
    k in cold && last.Some? && cold[k].account == last.value.account && cold[k].payload == last.value.payload &&
    cold[k].createdAt <= last.value.storedAt
  }

  ghost predicate Inv(c: Config, events: seq<Event>, s: State) {
    HotOk(c, events, s.hot) && MetaTierOk(c, events, s.meta, s.clock) && ColdOk(c, events, s.meta, s.cold)
  }

  // ----- The simple map -----

  lemma LastSnoc(c: Config, events: seq<Event>, e: Event, id: string)
    ensures Last(c, events + [e], id) ==
      if e.Store? && TrimSpace(e.id) == id && id != "" && TrimSpace(e.account) != ""
      then Some(Binding(TrimSpace(e.account), e.payload, c.archive && e.coldOk, e.metaTime))
      else if e.Evict? && Last(c, events, id).Some? && Last(c, events, id).value.account == TrimSpace(e.account) then None
      else Last(c, events, id)
  {
    hide TrimSpace;
    assert (events + [e])[..|events|] == events;
  }

  lemma {:induction false} LastClean(c: Config, events: seq<Event>, id: string)
    ensures Last(c, events, id).Some? ==> id != "" && TrimSpace(id) == id && Last(c, events, id).value.account != ""
  {
    hide TrimSpace;
    if events != [] {
      var front, e := events[..|events| - 1], events[|events| - 1];
      LastClean(c, front, id);
      assert front + [e] == events;
      LastSnoc(c, front, e, id);
      if e.Store? {
        TrimIdempotent(e.id);
      }
    }
  }

  /** Operations that neither store nor evict change no binding. */
  lemma SameLast(c: Config, events: seq<Event>, e: Event, s: State)
    requires !e.Store? && !e.Evict? && Inv(c, events, s)
    ensures Inv(c, events + [e], s)
  {
    hide Last, Expiry, EntryOk, MetaOk, Vouched;
    forall k
      ensures Last(c, events + [e], k) == Last(c, events, k)
    {
      LastSnoc(c, events, e, k);
    }
  }

  lemma LaterOk(c: Config, events: seq<Event>, s: State, s': State)
    requires Inv(c, events, s) && s' == s.(clock := s'.clock) && s.clock <= s'.clock
    ensures Inv(c, events, s')
  {
    hide Last, Expiry, EntryOk, MetaOk, Vouched;
    assert Unix(s.clock) <= Unix(s'.clock);
  }

  // ----- The hot tier -----

  lemma TouchOk(c: Config, events: seq<Event>, m: Hot, id: string, now: int)
    requires HotOk(c, events, m) && id in m
    ensures HotOk(c, events, m[id := m[id].(accessedAt := now)])
  {
    hide Last;
    var r := m[id := m[id].(accessedAt := now)];
    assert r.Keys == m.Keys;
    assert |r| == |r.Keys| && |m| == |m.Keys|;
  }

  lemma FindOk(c: Config, events: seq<Event>, hot: Hot, h: Hot, id: string, now: int, found: Option<ReplayEntry>)
    requires HotOk(c, events, hot) && HotFind(hot, h, id, now, found)
    ensures HotOk(c, events, h)
    ensures found.Some? ==> id in hot && found.value == hot[id] && FreshAt(found.value, now) && EntryOk(found.value, Last(c, events, id))
    ensures found.None? ==> id !in h
    ensures found.Some? <==> id in hot && FreshAt(hot[id], now)
  {
    hide Last;
    var m :| Pruned(hot, m, MaxEntries, now) && Found(m, h, id, now, found);
    assert HotOk(c, events, m);
    if id in hot {
      FreshKept(hot, m, MaxEntries, now, id);
    }
    if found.Some? {
      TouchOk(c, events, m, id, now);
    }
  }

  lemma HotStoreOk(c: Config, events: seq<Event>, hot: Hot, hot': Hot, id: string, e: ReplayEntry, now: int)
    requires (forall k | k in hot && k != id :: EntryOk(hot[k], Last(c, events, k))) && EntryOk(e, Last(c, events, id))
    requires HotStore(hot, hot', id, e, now)
    ensures HotOk(c, events, hot')
  {
    hide Last;
    var m :| Pruned(hot, m, MaxEntries, now) && Pruned(m[id := e.(accessedAt := now)], hot', MaxEntries, now);
    var m' := m[id := e.(accessedAt := now)];
    assert forall k | k in m' :: EntryOk(m'[k], Last(c, events, k));
  }

  // ----- Metadata and cold -----

  lemma MetaFindOk(c: Config, events: seq<Event>, s: State, id: string, now: int, ok: bool)
    requires c.metadata && Inv(c, events, s) && s.clock <= now
    ensures var meta, last := MetaFind(c, s.meta, id, now, ok), Last(c, events, id);
      && (meta.Some? <==> ok && last.Some? && Expiry(c, last.value) >= Unix(now))
      && (meta.Some? ==> MetaOk(c, meta.value, last) && (meta.value.ready ==> Vouched(s.cold, id, last)))
  {
    hide Last, Expiry;
    assert id in s.meta ==> MetaOk(c, s.meta[id], Last(c, events, id));
    assert Unix(s.clock) <= Unix(now);
  }

  /** What a load finds in the archive is the last store; it finds it if the row is unexpired and ready and both reads
      succeed. */
  lemma ArchivedOk(c: Config, events: seq<Event>, s: State, id: string, e: Event)
    requires c.metadata && Inv(c, events, s) && e.Load? && s.clock <= e.metaTime
    ensures var cold, last := Archived(c, s.meta, s.cold, id, e.wanted, e.metaTime, e.metaOk, e.coldOk), Last(c, events, id);
      && (cold.Some? ==> last.Some? && cold.value.account == last.value.account && cold.value.payload == last.value.payload
                         && cold.value.createdAt <= last.value.storedAt)
      && (cold.Some? <==>
            && last.Some? && last.value.ready && Expiry(c, last.value) >= Unix(e.metaTime) && e.metaOk && e.coldOk
            && (e.wanted.Some? ==> last.value.account == TrimSpace(e.wanted.value)))
  {
    hide Last, Expiry, TrimSpace, Inv;
    MetaFindOk(c, events, s, id, e.metaTime, e.metaOk);
  }

  // ----- Every operation keeps the invariant -----

  lemma WithHot(c: Config, events: seq<Event>, s: State, s': State)
    requires Inv(c, events, s) && HotOk(c, events, s'.hot) && s' == s.(hot := s'.hot, clock := s'.clock) && s.clock <= s'.clock
    ensures Inv(c, events, s')
  {
    LaterOk(c, events, s, s.(clock := s'.clock));
  }

  lemma LoadKeeps(c: Config, events: seq<Event>, s: State, e: Event, s': State)
    requires c.metadata && Inv(c, events, s) && e.Load? && Next(c, s, e, s')
    ensures Inv(c, events, s')
  {
    hide HotFind, HotStore, TrimSpace, Last, Archived;
    if !BlankLoad(e) {
      var id := TrimSpace(e.id);
      var h, found :| LoadStep(c, s, h, found, e, s'.hot);
      FindOk(c, events, s.hot, h, id, e.hotTime, found);
      if found.None? {
        ArchivedOk(c, events, s, id, e);
        var cold := Archived(c, s.meta, s.cold, id, e.wanted, e.metaTime, e.metaOk, e.coldOk);
        if cold.Some? {
          HotStoreOk(c, events, h, s'.hot, id, Entry(cold.value.account, cold.value.payload, cold.value.createdAt, e.fillTime), e.fillTime);
        }
      }
    }
    WithHot(c, events, s, s');
  }

  lemma CanReplayKeeps(c: Config, events: seq<Event>, s: State, e: Event, s': State)
    requires Inv(c, events, s) && e.CanReplay? && Next(c, s, e, s')
    ensures Inv(c, events, s')
  {
    hide HotFind, TrimSpace, Last;
    if TrimSpace(e.id) != "" && TrimSpace(e.account) != "" {
      var found :| CanReplayStep(c, s, s'.hot, found, e);
      FindOk(c, events, s.hot, s'.hot, TrimSpace(e.id), e.hotTime, found);
    }
    WithHot(c, events, s, s');
  }

  lemma OwnerKeeps(c: Config, events: seq<Event>, s: State, e: Event, s': State)
    requires Inv(c, events, s) && e.Owner? && Next(c, s, e, s')
    ensures Inv(c, events, s')
  {
    hide HotFind, TrimSpace, Last;
    if TrimSpace(e.id) != "" {
      var h, found :| OwnerStep(c, s, h, found, e, s'.hot);
      if MetaFind(c, s.meta, TrimSpace(e.id), e.metaTime, e.metaOk).None? {
        FindOk(c, events, s.hot, h, TrimSpace(e.id), e.hotTime, found);
      }
    }
    WithHot(c, events, s, s');
  }

  lemma CleanupKeeps(c: Config, events: seq<Event>, s: State, e: Event, s': State)
    requires Inv(c, events, s) && e.Cleanup? && Next(c, s, e, s')
    ensures Inv(c, events, s')
  {
    hide Last, Expiry, EntryOk, Vouched;
    LaterOk(c, events, s, s.(clock := s'.clock));
  }

  lemma StoreKeeps(c: Config, events: seq<Event>, s: State, e: Event, s': State)
    requires c.metadata && Inv(c, events, s) && e.Store? && e.metaOk && Next(c, s, e, s')
    ensures Inv(c, events + [e], s')
  {
    hide HotStore, TrimSpace, Last;
    var id, account := TrimSpace(e.id), TrimSpace(e.account);
    forall k
      ensures Last(c, events + [e], k) ==
        if id == k && k != "" && account != "" then Some(Binding(account, e.payload, c.archive && e.coldOk, e.metaTime))
        else Last(c, events, k)
    {
      LastSnoc(c, events, e, k);
    }
    if id != "" && account != "" {
      StoreTiersKeep(c, events, s, e, s');
    }
  }

  function BindingOf(c: Config, e: Event): Binding
    requires e.Store?
  {
    Binding(TrimSpace(e.account), e.payload, c.archive && e.coldOk, e.metaTime)
  }

  lemma StoreTiersKeep(c: Config, events: seq<Event>, s: State, e: Event, s': State)
    requires c.metadata && Inv(c, events, s) && e.Store? && e.metaOk && StoreStep(c, s, e, s')
    requires TrimSpace(e.id) != "" && TrimSpace(e.account) != ""
    requires forall k :: Last(c, events + [e], k) == if TrimSpace(e.id) == k then Some(BindingOf(c, e)) else Last(c, events, k)
    ensures Inv(c, events + [e], s')
  {
    hide HotStore, TrimSpace, Last;
    var all, id := events + [e], TrimSpace(e.id);
    HotStoreOk(c, all, s.hot, s'.hot, id, Entry(TrimSpace(e.account), e.payload, e.createdTime, e.createdTime), e.hotTime);
    assert Unix(s.clock) <= Unix(s'.clock);
    assert MetaTierOk(c, all, s'.meta, s'.clock) by {
      forall k | k in s'.meta
        ensures MetaOk(c, s'.meta[k], Last(c, all, k))
      {
        assert k != id ==> MetaOk(c, s.meta[k], Last(c, events, k));
      }
    }
    forall k | k in s'.meta && s'.meta[k].ready
      ensures Vouched(s'.cold, k, Last(c, all, k))
    {
      assert k != id ==> Vouched(s.cold, k, Last(c, events, k));
    }
  }

  lemma EvictLast(c: Config, events: seq<Event>, e: Event, k: string)
    requires e.Evict?
    ensures Last(c, events + [e], k) ==
      if Last(c, events, k).Some? && Last(c, events, k).value.account == TrimSpace(e.account) then None else Last(c, events, k)
    ensures Last(c, events, k).Some? ==> Last(c, events, k).value.account != ""
  {
    LastSnoc(c, events, e, k);
    LastClean(c, events, k);
  }

  lemma EvictHotKeeps(c: Config, events: seq<Event>, s: State, e: Event, s': State)
    requires HotOk(c, events, s.hot) && e.Evict? && Next(c, s, e, s')
    ensures HotOk(c, events + [e], s'.hot)
  {
    hide TrimSpace, Last;
    SubmapSize(s.hot, s'.hot);
    forall k | k in s'.hot
      ensures EntryOk(s'.hot[k], Last(c, events + [e], k))
    {
      assert EntryOk(s.hot[k], Last(c, events, k));
      EvictLast(c, events, e, k);
    }
  }

  lemma EvictMetaKeeps(c: Config, events: seq<Event>, s: State, e: Event, s': State)
    requires c.metadata && MetaTierOk(c, events, s.meta, s.clock) && e.Evict? && e.metaOk && Next(c, s, e, s')
    ensures MetaTierOk(c, events + [e], s'.meta, s'.clock)
  {
    hide TrimSpace, Last, Expiry;
    forall k
      ensures Last(c, events + [e], k) ==
        if Last(c, events, k).Some? && Last(c, events, k).value.account == TrimSpace(e.account) then None else Last(c, events, k)
      ensures Last(c, events, k).Some? ==> Last(c, events, k).value.account != ""
    {
      EvictLast(c, events, e, k);
    }
  }

  lemma EvictColdKeeps(c: Config, events: seq<Event>, s: State, e: Event, s': State)
    requires c.metadata && MetaTierOk(c, events, s.meta, s.clock) && ColdOk(c, events, s.meta, s.cold)
    requires e.Evict? && e.metaOk && Next(c, s, e, s')
    ensures ColdOk(c, events + [e], s'.meta, s'.cold)
  {
    hide TrimSpace, Last, Expiry;
    forall k | k in s'.meta && s'.meta[k].ready
      ensures Vouched(s'.cold, k, Last(c, events + [e], k))
    {
      assert MetaOk(c, s.meta[k], Last(c, events, k)) && Vouched(s.cold, k, Last(c, events, k));
      EvictLast(c, events, e, k);
    }
  }

  lemma EvictKeeps(c: Config, events: seq<Event>, s: State, e: Event, s': State)
    requires c.metadata && Inv(c, events, s) && e.Evict? && e.metaOk && Next(c, s, e, s')
    ensures Inv(c, events + [e], s')
  {
    hide HotOk, MetaTierOk, ColdOk;
    EvictHotKeeps(c, events, s, e, s');
    EvictMetaKeeps(c, events, s, e, s');
    EvictColdKeeps(c, events, s, e, s');
  }

  lemma NextKeeps(c: Config, events: seq<Event>, s: State, e: Event, s': State)
    requires c.metadata && Inv(c, events, s) && Next(c, s, e, s')
    requires (e.Store? ==> e.metaOk) && (e.Evict? ==> e.metaOk)
    ensures Inv(c, events + [e], s')
  {
    hide *;
    if e.Store? {
      StoreKeeps(c, events, s, e, s');
    } else if e.Evict? {
      EvictKeeps(c, events, s, e, s');
    } else {
      if e.Load? {
        LoadKeeps(c, events, s, e, s');
      } else if e.CanReplay? {
        CanReplayKeeps(c, events, s, e, s');
      } else if e.Owner? {
        OwnerKeeps(c, events, s, e, s');
      } else {
        CleanupKeeps(c, events, s, e, s');
      }
      SameLast(c, events, e, s');
    }
  }

  lemma {:induction false} RunInv(c: Config, events: seq<Event>, s: State)
    requires c.metadata && Run(c, events, s) && MetaSucceeds(events)
    ensures Inv(c, events, s) && |s.hot| <= 256
  {
    hide Inv, Next;
    if events == [] {
      EmptyInv(c, s);
    } else {
      var front, e := events[..|events| - 1], events[|events| - 1];
      var p :| Run(c, front, p) && Next(c, p, e, s);
      assert front + [e] == events && e in events;
      assert MetaSucceeds(front);
      RunInv(c, front, p);
      NextKeeps(c, front, p, e, s);
    }
    Bounded(c, events, s);
  }

  lemma Bounded(c: Config, events: seq<Event>, s: State)
    requires Inv(c, events, s)
    ensures |s.hot| <= 256
  {
  }

  lemma EmptyInv(c: Config, s: State)
    requires s.hot == map[] && s.meta == map[] && s.cold == map[]
    ensures Inv(c, [], s)
  {
  }

  /** The state before the last event of a run, with the invariant. */
  lemma Before(c: Config, events: seq<Event>, e: Event, s: State) returns (p: State)
    requires c.metadata && Run(c, events + [e], s) && MetaSucceeds(events + [e])
    ensures Run(c, events, p) && Next(c, p, e, s) && Inv(c, events, p)
  {
    hide Next, Inv;
    assert (events + [e])[..|events|] == events;
    p :| Run(c, events, p) && Next(c, p, e, s);
    assert forall x | x in events :: x in events + [e];
    RunInv(c, events, p);
  }

  // ----- What clients see -----

  /** A load is a miss or exactly the last store for the id. An unexpired binding whose payload reached the cold tier is always
      found by its account as long as reads succeed, and nothing else is found later than the hot lifetime after the store. */
  ghost predicate LoadIsLast(c: Config, e: Event, last: Option<Binding>)
    requires e.Load?
  {
    && (e.loaded.Some? ==> last.Some? && e.loaded.value == Replay(last.value.account, last.value.payload))
    && (e.loaded.Some? && e.wanted.Some? ==> e.loaded.value.account == TrimSpace(e.wanted.value))
    && (Loadable(c, e, last) ==> e.loaded.Some?)
    && (e.loaded.Some? && e.hotTime - last.value.storedAt > 1_800_000_000_000 ==> Loadable(c, e, last))
  }

  /** The retention has not run out, in whole seconds. */
  predicate Lives(c: Config, b: Binding, now: int) {
    now / 1_000_000_000 <= (b.storedAt + c.retention) / 1_000_000_000
  }

  lemma LivesIs(c: Config, b: Binding, now: int)
    ensures Lives(c, b, now) <==> Expiry(c, b) >= Unix(now)
  {
  }

  ghost predicate Loadable(c: Config, e: Event, last: Option<Binding>)
    requires e.Load?
  {
    && !BlankLoad(e) && e.metaOk && e.coldOk && last.Some? && last.value.ready && Lives(c, last.value, e.metaTime)
    && (e.wanted.Some? ==> TrimSpace(e.wanted.value) == last.value.account)
  }

  lemma LoadFindsLast(c: Config, events: seq<Event>, e: Event, s: State)
    requires c.metadata && Run(c, events + [e], s) && MetaSucceeds(events + [e]) && e.Load?
    ensures LoadIsLast(c, e, Last(c, events, TrimSpace(e.id)))
  {
    hide HotFind, HotStore, TrimSpace, Last, Archived, Inv, Run, Expiry;
    var p := Before(c, events, e, s);
    if !BlankLoad(e) {
      var id := TrimSpace(e.id);
      var h, found :| LoadStep(c, p, h, found, e, s.hot);
      InvParts(c, events, p);
      FindOk(c, events, p.hot, h, id, e.hotTime, found);
      ArchivedOk(c, events, p, id, e);
      if Last(c, events, id).Some? {
        LivesIs(c, Last(c, events, id).value, e.metaTime);
      }
    }
  }

  lemma InvParts(c: Config, events: seq<Event>, s: State)
    requires Inv(c, events, s)
    ensures HotOk(c, events, s.hot)
  {
  }

  /** The owner reported for an id is that of the last store, and an unexpired binding that can be read is always
      reported. */
  lemma OwnerIsLast(c: Config, events: seq<Event>, e: Event, s: State)
    requires c.metadata && Run(c, events + [e], s) && MetaSucceeds(events + [e]) && e.Owner?
    ensures var last := Last(c, events, TrimSpace(e.id));
      && (e.owner.Some? ==> last.Some? && e.owner.value == last.value.account)
      && (last.Some? && Lives(c, last.value, e.metaTime) && e.metaOk ==> e.owner.Some?)
  {
    hide HotFind, TrimSpace, Last, Inv, Run, Expiry, Lives;
    if Last(c, events, TrimSpace(e.id)).Some? {
      LivesIs(c, Last(c, events, TrimSpace(e.id)).value, e.metaTime);
    }
    var p := Before(c, events, e, s);
    var id := TrimSpace(e.id);
    LastClean(c, events, id);
    if id != "" {
      var h, found :| OwnerStep(c, p, h, found, e, s.hot);
      InvParts(c, events, p);
      MetaFindOk(c, events, p, id, e.metaTime, e.metaOk);
      if MetaFind(c, p.meta, id, e.metaTime, e.metaOk).None? {
        FindOk(c, events, p.hot, h, id, e.hotTime, found);
      }
    }
  }

  /** After a positive check the owner's load right behind it succeeds exactly if the hot entry still lives, or the payload
      reached the cold tier, the row has not expired and both reads succeed. After a negative check that could
      read the metadata no load right behind it finds replayable items. */
  lemma CanReplayThenLoad(c: Config, events: seq<Event>, check: Event, load: Event, s: State) returns (p: State)
    requires c.metadata && Run(c, events + [check] + [load], s) && MetaSucceeds(events + [check] + [load])
    requires check.CanReplay? && load.Load? && TrimSpace(load.id) == TrimSpace(check.id)
    requires load.wanted.Some? && TrimSpace(load.wanted.value) == TrimSpace(check.account)
    ensures Run(c, events + [check], p)
    ensures var id := TrimSpace(check.id);
      var last := Last(c, events, id);
      && (check.answer ==> last.Some? && last.value.account == TrimSpace(check.account))
      && (check.answer ==> (load.loaded.Some? <==>
            || (id in p.hot && FreshAt(p.hot[id], load.hotTime))
            || (last.value.ready && Lives(c, last.value, load.metaTime) && load.metaOk && load.coldOk)))
      && (!check.answer && check.metaOk && load.loaded.Some? ==> load.loaded.value.payload.items == [])
  {
    hide HotFind, HotStore, TrimSpace, Last, Archived, Inv, Run, Expiry, CanReplayStep, LoadStep, MetaSucceeds;
    assert MetaSucceeds(events + [check]) by {
      Fewer(events + [check], load);
    }
    p := Before(c, events + [check], load, s);
    var q := Before(c, events, check, p);
    LastSnoc(c, events, check, TrimSpace(check.id));
    if TrimSpace(check.id) != "" && TrimSpace(check.account) != "" {
      CheckThenLoad(c, events, check, load, q, p, s);
    }
  }

  lemma Fewer(events: seq<Event>, e: Event)
    requires MetaSucceeds(events + [e])
    ensures MetaSucceeds(events)
  {
    assert forall x | x in events :: x in events + [e];
  }

  lemma CheckThenLoad(c: Config, events: seq<Event>, check: Event, load: Event, q: State, p: State, s: State)
    requires c.metadata && Inv(c, events, q) && Next(c, q, check, p) && Inv(c, events + [check], p) && Next(c, p, load, s)
    requires check.CanReplay? && load.Load? && TrimSpace(load.id) == TrimSpace(check.id) != ""
    requires load.wanted.Some? && TrimSpace(load.wanted.value) == TrimSpace(check.account) != ""
    requires Last(c, events + [check], TrimSpace(check.id)) == Last(c, events, TrimSpace(check.id))
    ensures var id := TrimSpace(check.id);
      var last := Last(c, events, id);
      && (check.answer ==> last.Some? && last.value.account == TrimSpace(check.account))
      && (check.answer ==> (load.loaded.Some? <==>
            || (id in p.hot && FreshAt(p.hot[id], load.hotTime))
            || (last.value.ready && Lives(c, last.value, load.metaTime) && load.metaOk && load.coldOk)))
      && (!check.answer && check.metaOk && load.loaded.Some? ==> load.loaded.value.payload.items == [])
  {
    hide HotFind, HotStore, TrimSpace, Last, Inv, Run, Expiry, HotOk, Archived, MetaFind, Vouched, Lives;
    var id := TrimSpace(check.id);
    if Last(c, events, id).Some? {
      LivesIs(c, Last(c, events, id).value, load.metaTime);
    }
    var found :| CanReplayStep(c, q, p.hot, found, check);
    InvParts(c, events, q);
    FindOk(c, events, q.hot, p.hot, id, check.hotTime, found);
    MetaFindOk(c, events, q, id, check.metaTime, check.metaOk);
    if found.Some? {
      Touched(q.hot, p.hot, id, check.hotTime, found);
    }
    var h, again :| LoadStep(c, p, h, again, load, s.hot);
    InvParts(c, events + [check], p);
    FindOk(c, events + [check], p.hot, h, id, load.hotTime, again);
    ArchivedOk(c, events + [check], p, id, load);
    assert Unix(check.metaTime) <= Unix(load.metaTime);
  }

  /** The positive answer of a replay check is no promise: after a store whose cold write failed, the check says yes on the
      strength of the hot entry, and a load just past the hot lifetime finds nothing, whatever the retention. */
  lemma CheckedThenMissed(c: Config, payload: Payload) returns (s: State)
    requires c.metadata && payload.items != []
    ensures var events := [Store("r", "a", payload, 0, 0, 0, 0, false, true), CanReplay("r", "a", 0, 0, true, true),
                           Load("r", Some("a"), 1_800_000_000_001, 1_800_000_000_001, 1_800_000_000_001, true, true, None)];
      Run(c, events, s) && MetaSucceeds(events)
  {
    hide Next;
    TrimFixed("r");
    TrimFixed("a");
    var s0 := State(map[], map[], map[], 0);
    var s1 := HotOnly(c, "r", "a", payload);
    s := State(map[], s1.meta, map[], Ttl + 1);
    StoredHotOnly(c, "r", "a", payload);
    CheckedHotOnly(c, "r", "a", payload);
    LoadedTooLate(c, "r", "a", payload);
    ThreeEvents(c, Store("r", "a", payload, 0, 0, 0, 0, false, true), CanReplay("r", "a", 0, 0, true, true),
                Load("r", Some("a"), Ttl + 1, Ttl + 1, Ttl + 1, true, true, None), s0, s1, s1, s);
  }

  /** One response that only the hot tier holds. */
  function HotOnly(c: Config, id: string, account: string, payload: Payload): State {
    State(map[id := Entry(account, payload, 0, 0)], map[id := Meta(account, false, Unix(0 + c.retention))], map[], 0)
  }

  ghost predicate Trimmed(s: string) {
    TrimSpace(s) == s && s != ""
  }

  lemma StoredHotOnly(c: Config, id: string, account: string, payload: Payload)
    requires c.metadata && Trimmed(id) && Trimmed(account)
    ensures Next(c, State(map[], map[], map[], 0), Store(id, account, payload, 0, 0, 0, 0, false, true), HotOnly(c, id, account, payload))
  {
    hide TrimSpace, Unix;
    var none: Hot, e, s1 := map[], Entry(account, payload, 0, 0), HotOnly(c, id, account, payload);
    assert |s1.hot| == 1;
    assert Pruned(none, none, MaxEntries, 0) && Pruned(none[id := e], s1.hot, MaxEntries, 0);
    assert HotStore(none, s1.hot, id, e, 0);
  }

  lemma CheckedHotOnly(c: Config, id: string, account: string, payload: Payload)
    requires c.metadata && Trimmed(id) && Trimmed(account) && payload.items != []
    ensures var s := HotOnly(c, id, account, payload);
      Next(c, s, CanReplay(id, account, 0, 0, true, true), s)
  {
    hide TrimSpace, Unix;
    var e, s := Entry(account, payload, 0, 0), HotOnly(c, id, account, payload);
    assert |s.hot| == 1;
    assert Pruned(s.hot, s.hot, MaxEntries, 0) && Found(s.hot, s.hot, id, 0, Some(e));
    assert HotFind(s.hot, s.hot, id, 0, Some(e));
    assert CanReplayStep(c, s, s.hot, Some(e), CanReplay(id, account, 0, 0, true, true));
  }

  lemma LoadedTooLate(c: Config, id: string, account: string, payload: Payload)
    requires c.metadata && Trimmed(id) && Trimmed(account)
    ensures var s, t := HotOnly(c, id, account, payload), Ttl + 1;
      Next(c, s, Load(id, Some(account), t, t, t, true, true, None), State(map[], s.meta, map[], t))
  {
    hide TrimSpace, Unix;
    var s, t, none: Hot := HotOnly(c, id, account, payload), Ttl + 1, map[];
    assert Pruned(s.hot, none, MaxEntries, t) && Found(none, none, id, t, None);
    assert HotFind(s.hot, none, id, t, None);
    assert LoadStep(c, s, none, None, Load(id, Some(account), t, t, t, true, true, None), none);
  }

  lemma ThreeEvents(c: Config, e1: Event, e2: Event, e3: Event, s0: State, s1: State, s2: State, s3: State)
    requires s0.hot == map[] && s0.meta == map[] && s0.cold == map[]
    requires Next(c, s0, e1, s1) && Next(c, s1, e2, s2) && Next(c, s2, e3, s3)
    ensures Run(c, [e1, e2, e3], s3)
  {
    hide Next;
    assert [e1][..0] == [] && [e1, e2][..1] == [e1] && [e1, e2, e3][..2] == [e1, e2];
    assert Run(c, [], s0);
    assert Run(c, [e1], s1);
    assert Run(c, [e1, e2], s2);
  }

  lemma Touched(hot: Hot, h: Hot, id: string, now: int, found: Option<ReplayEntry>)
    requires HotFind(hot, h, id, now, found) && found.Some?
    ensures id in h && h[id].createdAt == found.value.createdAt
  {
  }

  /** An eviction whose deletes succeed leaves nothing of the account in any tier, and takes nothing else. */
  lemma EvictionClears(c: Config, events: seq<Event>, evict: Event, s: State) returns (p: State)
    requires c.metadata && c.archive && evict.Evict? && evict.metaOk && evict.coldOk && TrimSpace(evict.account) != ""
    requires Run(c, events + [evict], s)
    ensures Run(c, events, p)
    ensures var a := TrimSpace(evict.account);
      && (forall k :: k in s.hot <==> k in p.hot && p.hot[k].account != a) && (forall k | k in s.hot :: s.hot[k] == p.hot[k])
      && (forall k :: k in s.meta <==> k in p.meta && p.meta[k].account != a) && (forall k | k in s.meta :: s.meta[k] == p.meta[k])
      && (forall k :: k in s.cold <==> k in p.cold && p.cold[k].account != a) && (forall k | k in s.cold :: s.cold[k] == p.cold[k])
  {
    hide TrimSpace;
    assert (events + [evict])[..|events|] == events;
    p :| Run(c, events, p) && Next(c, p, evict, s);
  }

  /** Without an archive nothing is ever written to the cold tier. */
  lemma {:induction false} NoArchiveNoCold(c: Config, events: seq<Event>, s: State)
    requires !c.archive && Run(c, events, s)
    ensures s.cold == map[]
  {
    if events != [] {
      hide HotStore, HotFind, LoadStep, CanReplayStep, OwnerStep, TrimSpace;
      var front, e := events[..|events| - 1], events[|events| - 1];
      var p :| Run(c, front, p) && Next(c, p, e, s);
      NoArchiveNoCold(c, front, p);
    }
  }

  /** Once an account is evicted, none of its replays is loaded until it stores again, even if the cold payload stayed. */
  lemma EvictedStaysGone(c: Config, before: seq<Event>, evict: Event, after: seq<Event>, e: Event, s: State)
    requires c.metadata && evict.Evict? && e.Load?
    requires Run(c, before + [evict] + after + [e], s) && MetaSucceeds(before + [evict] + after + [e])
    requires forall x | x in after && x.Store? :: TrimSpace(x.account) != TrimSpace(evict.account)
    ensures e.loaded.Some? ==> e.loaded.value.account != TrimSpace(evict.account)
  {
    hide Last, Expiry, Run;
    LoadFindsLast(c, before + [evict] + after, e, s);
    GoneFrom(c, before, evict, after, TrimSpace(e.id));
  }

  lemma {:induction false} GoneFrom(c: Config, before: seq<Event>, evict: Event, after: seq<Event>, id: string)
    requires evict.Evict? && forall x | x in after && x.Store? :: TrimSpace(x.account) != TrimSpace(evict.account)
    ensures var last := Last(c, before + [evict] + after, id);
      last.Some? ==> last.value.account != TrimSpace(evict.account)
  {
    hide Last, TrimSpace;
    if after == [] {
      assert before + [evict] + after == before + [evict];
      LastSnoc(c, before, evict, id);
    } else {
      var front, x := after[..|after| - 1], after[|after| - 1];
      GoneFrom(c, before, evict, front, id);
      assert before + [evict] + after == (before + [evict] + front) + [x];
      LastSnoc(c, before + [evict] + front, x, id);
    }
  }
}
