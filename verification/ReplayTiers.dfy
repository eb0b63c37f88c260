/** The replay store over its three tiers, proved to follow the transitions of `ReplayStore`. */
module ReplayTiers {
  import opened Options
  import opened Text
  import opened HotCache
  import opened ResponsesItems
  import opened ReplayStore

  class Tiers {
    const config: Config
    var entries: Hot
    var metadata: map<string, Meta>
    var archive: map<string, Cold>
    var clock: int
    ghost var history: seq<Event>

    constructor (config: Config)
      ensures Valid() && this.config == config && history == []
    {
      this.config := config;
      entries, metadata, archive, clock := map[], map[], map[], 0;
      history := [];
    }

    ghost function Now(): State
      reads this
    {
      State(entries, metadata, archive, clock)
    }

    ghost predicate Valid()
      reads this
    {
      Run(config, history, Now())
    }

    /** One more operation turned the recorded run into the present state. */
    ghost predicate Recorded(before: seq<Event>, e: Event)
      reads this
    {
      Valid() && history == before + [e]
    }

    lemma Record(before: State, e: Event)
      requires Run(config, history, before) && Next(config, before, e, Now())
      ensures Run(config, history + [e], Now())
    {
      assert (history + [e])[..|history|] == history;
    }

    static lemma Loaded(c: Config, s: State, h: Hot, found: Option<ReplayEntry>, e: Event, hot': Hot, cold: Option<Cold>)
      requires e.Load? && HotFind(s.hot, h, TrimSpace(e.id), e.hotTime, found)
      requires found.Some? ==>
        && hot' == h
        && e.loaded == if e.wanted.Some? && found.value.account != TrimSpace(e.wanted.value) then None
                       else Some(Replay(found.value.account, found.value.content))
      requires found.None? ==>
        cold == Archived(c, s.meta, s.cold, TrimSpace(e.id), e.wanted, e.metaTime, e.metaOk, e.coldOk)
      requires found.None? && cold.None? ==> hot' == h && e.loaded == None
      requires found.None? && cold.Some? ==>
        && HotStore(h, hot', TrimSpace(e.id), Entry(cold.value.account, cold.value.payload, cold.value.createdAt, e.fillTime), e.fillTime)
        && e.loaded == Some(Replay(cold.value.account, cold.value.payload))
      ensures LoadStep(c, s, h, found, e, hot')
    {
      hide HotFind, HotStore, TrimSpace, Archived;
    }

    static lemma BlankNext(c: Config, s: State, e: Event)
      requires e.Load? && BlankLoad(e) && e.loaded == None && s.clock == e.hotTime == e.metaTime == e.fillTime
      ensures Next(c, s, e, s)
    {
    }

    static lemma LoadNext(c: Config, s: State, e: Event, h: Hot, found: Option<ReplayEntry>, s': State)
      requires e.Load? && !BlankLoad(e) && LoadStep(c, s, h, found, e, s'.hot)
      requires s.clock <= e.hotTime <= e.metaTime <= e.fillTime == s'.clock && s'.meta == s.meta && s'.cold == s.cold
      ensures Next(c, s, e, s')
    {
      hide LoadStep;
    }

    static lemma CanReplayNext(c: Config, s: State, e: Event, found: Option<ReplayEntry>, s': State)
      requires e.CanReplay? && TrimSpace(e.id) != "" && TrimSpace(e.account) != "" && CanReplayStep(c, s, s'.hot, found, e)
      requires s.clock <= e.hotTime <= e.metaTime == s'.clock && s'.meta == s.meta && s'.cold == s.cold
      ensures Next(c, s, e, s')
    {
      hide CanReplayStep, TrimSpace;
    }

    static lemma StoreNext(c: Config, s: State, e: Event, s': State)
      requires e.Store? && StoreStep(c, s, e, s')
      ensures Next(c, s, e, s')
    {
      hide StoreStep;
    }

    method Tick() returns (t: int)
      modifies this`clock
      ensures t == clock && old(clock) <= t
    {
      var elapsed: int := *;
      if elapsed > 0 {
        clock := clock + elapsed;
      }
      t := clock;
    }

    // ----- The hot tier -----

    method StoreHot(id: string, e: ReplayEntry, now: int)
      modifies this`entries
      ensures HotStore(old(entries), entries, id, e, now)
    {
      entries := Prune(entries, MaxEntries, now);
      entries := entries[id := e.(accessedAt := now)];
      entries := Prune(entries, MaxEntries, now);
    }

    method LoadHot(id: string, now: int) returns (found: Option<ReplayEntry>)
      modifies this`entries
      ensures HotFind(old(entries), entries, id, now, found)
    {
      hide Pruned;
      entries := Prune(entries, MaxEntries, now);
      ghost var m := entries;
      if id !in entries {
        found := None;
      } else {
        found := Some(entries[id]);
        entries := entries[id := entries[id].(accessedAt := now)];
      }
      assert Found(m, entries, id, now, found);
    }

    // ----- Operations -----

    /** Hot first, then cold; metadata says whether the cold write worked. */
    method StoreReplay(id: string, account: string, payload: Payload, coldOk: bool, metaOk: bool) returns (ghost e: Event)
      requires Valid()
      modifies this
      ensures Recorded(old(history), e)
      ensures e.Store? && e.id == id && e.account == account && e.payload == payload && e.coldOk == coldOk && e.metaOk == metaOk
    {
      hide HotStore, Run, TrimSpace, Next, StoreStep, Unix;
      ghost var before := Now();
      if TrimSpace(id) == "" || TrimSpace(account) == "" {
        e := Store(id, account, payload, clock, clock, clock, clock, coldOk, metaOk);
        BlankStore(config, before, e);
      } else {
        e := StoreTiers(id, account, payload, coldOk, metaOk);
      }
      StoreNext(config, before, e, Now());
      Record(before, e);
      history := history + [e];
    }

    static lemma BlankStore(c: Config, s: State, e: Event)
      requires e.Store? && (TrimSpace(e.id) == "" || TrimSpace(e.account) == "")
      ensures StoreStep(c, s, e, s)
    {
    }

    method StoreTiers(id: string, account: string, payload: Payload, coldOk: bool, metaOk: bool) returns (ghost e: Event)
      requires TrimSpace(id) != "" && TrimSpace(account) != ""
      modifies this`entries, this`archive, this`metadata, this`clock
      ensures e.Store? && StoreStep(config, old(Now()), e, Now())
      ensures e.id == id && e.account == account && e.payload == payload && e.coldOk == coldOk && e.metaOk == metaOk
    {
      hide HotStore, TrimSpace, Unix;
      var k, a := TrimSpace(id), TrimSpace(account);
      var created := Tick();
      var hotTime := Tick();
      StoreHot(k, Entry(a, payload, created, created), hotTime);
      var coldTime := Tick();
      var ready := false;
      if config.archive && coldOk {
        archive := archive[k := Cold(a, payload, coldTime)];
        ready := true;
      }
      var metaTime := Tick();
      if config.metadata && metaOk {
        metadata := metadata[k := Meta(a, ready, Unix(metaTime + config.retention))];
      }
      e := Store(id, account, payload, created, hotTime, coldTime, metaTime, coldOk, metaOk);
    }

    method FindArchived(id: string, wanted: Option<string>, now: int, metaOk: bool, coldOk: bool) returns (cold: Option<Cold>)
      ensures cold == Archived(config, metadata, archive, id, wanted, now, metaOk, coldOk)
    {
      var meta := MetaFind(config, metadata, id, now, metaOk);
      if meta.None? || (wanted.Some? && meta.value.account != TrimSpace(wanted.value)) {
        return None;
      }
      if meta.value.ready {
        cold := ColdFind(archive, id, coldOk);
        if cold.Some? && (wanted.None? || cold.value.account == TrimSpace(wanted.value)) {
          return;
        }
      }
      return None;
    }

    /** A hot hit, or the archived payload that metadata vouches for, which is then hot again. */
    method LoadReplay(id: string, wanted: Option<string>, metaOk: bool, coldOk: bool)
      returns (loaded: Option<Replay>, ghost e: Event)
      requires Valid()
      modifies this
      ensures Recorded(old(history), e)
      ensures e.Load? && e.id == id && e.wanted == wanted && e.metaOk == metaOk && e.coldOk == coldOk && e.loaded == loaded
    {
      hide Run, TrimSpace, Next;
      ghost var before := Now();
      if TrimSpace(id) == "" || (wanted.Some? && TrimSpace(wanted.value) == "") {
        loaded := None;
        e := Load(id, wanted, clock, clock, clock, metaOk, coldOk, None);
        BlankNext(config, before, e);
      } else {
        loaded, e := LoadTiers(id, wanted, metaOk, coldOk);
      }
      Record(before, e);
      history := history + [e];
    }

    method LoadTiers(id: string, wanted: Option<string>, metaOk: bool, coldOk: bool)
      returns (loaded: Option<Replay>, ghost e: Event)
      requires TrimSpace(id) != "" && (wanted.Some? ==> TrimSpace(wanted.value) != "")
      modifies this`entries, this`clock
      ensures Next(config, old(Now()), e, Now())
      ensures e.Load? && e.id == id && e.wanted == wanted && e.metaOk == metaOk && e.coldOk == coldOk && e.loaded == loaded
    {
      hide HotStore, HotFind, TrimSpace, Archived, Next, Unix, LoadStep;
      var k := TrimSpace(id);
      loaded := None;
      var t1 := Tick();
      var found := LoadHot(k, t1);
      ghost var h := entries;
      var t2, t3 := t1, t1;
      ghost var archived: Option<Cold> := None;
      if found.Some? {
        if wanted.None? || found.value.account == TrimSpace(wanted.value) {
          loaded := Some(Replay(found.value.account, found.value.content));
        }
      } else {
        t2 := Tick();
        var cold := FindArchived(k, wanted, t2, metaOk, coldOk);
        archived := cold;
        t3 := Tick();
        if cold.Some? {
          StoreHot(k, Entry(cold.value.account, cold.value.payload, cold.value.createdAt, t3), t3);
          loaded := Some(Replay(cold.value.account, cold.value.payload));
        }
      }
      e := Load(id, wanted, t1, t2, t3, metaOk, coldOk, loaded);
      Loaded(config, old(Now()), h, found, e, entries, archived);
      LoadNext(config, old(Now()), e, h, found, Now());
    }

    method CanReplayContinuation(account: string, id: string, metaOk: bool) returns (answer: bool, ghost e: Event)
      requires Valid()
      modifies this
      ensures Recorded(old(history), e) && e.CanReplay? && e.id == id && e.account == account && e.metaOk == metaOk && e.answer == answer
    {
      hide HotFind, Run, TrimSpace, MetaFind, Next, CanReplayStep, Unix;
      ghost var before := Now();
      var k, a := TrimSpace(id), TrimSpace(account);
      if k == "" || a == "" {
        answer := false;
        e := CanReplay(id, account, clock, clock, metaOk, false);
        BlankCheckNext(config, before, e);
        Record(before, e);
        history := history + [e];
        return;
      }
      var t1 := Tick();
      var found := LoadHot(k, t1);
      var t2 := t1;
      if found.Some? {
        answer := found.value.account == a && |found.value.content.items| > 0;
      } else {
        t2 := Tick();
        var meta := MetaFind(config, metadata, k, t2, metaOk);
        answer := meta.Some? && meta.value.account == a && meta.value.ready;
      }
      e := CanReplay(id, account, t1, t2, metaOk, answer);
      Checked(config, before, entries, found, e);
      CanReplayNext(config, before, e, found, Now());
      Record(before, e);
      history := history + [e];
    }

    static lemma BlankCheckNext(c: Config, s: State, e: Event)
      requires e.CanReplay? && (TrimSpace(e.id) == "" || TrimSpace(e.account) == "") && !e.answer
      requires s.clock == e.hotTime == e.metaTime
      ensures Next(c, s, e, s)
    {
      hide TrimSpace;
    }

    static lemma Checked(c: Config, s: State, h: Hot, found: Option<ReplayEntry>, e: Event)
      requires e.CanReplay? && HotFind(s.hot, h, TrimSpace(e.id), e.hotTime, found)
      requires found.Some? ==> e.answer == (found.value.account == TrimSpace(e.account) && |found.value.content.items| > 0)
      requires found.None? ==>
        var meta := MetaFind(c, s.meta, TrimSpace(e.id), e.metaTime, e.metaOk);
        e.answer == (meta.Some? && meta.value.account == TrimSpace(e.account) && meta.value.ready)
      ensures CanReplayStep(c, s, h, found, e)
    {
      hide HotFind, TrimSpace, MetaFind;
    }

    /** The owner of a response: metadata first, then the hot tier. */
    method LookupOwner(id: string, metaOk: bool) returns (owner: Option<string>, ghost e: Event)
      requires Valid()
      modifies this
      ensures Recorded(old(history), e) && e.Owner? && e.id == id && e.metaOk == metaOk && e.owner == owner
    {
      hide HotFind, Run, TrimSpace, MetaFind;
      ghost var before := Now();
      var k := TrimSpace(id);
      if k == "" {
        owner := None;
        e := Owner(id, clock, clock, metaOk, None);
      } else {
        var t1 := Tick();
        var meta := MetaFind(config, metadata, k, t1, metaOk);
        var t2 := t1;
        var found: Option<ReplayEntry> := None;
        if meta.Some? {
          owner := Some(meta.value.account);
        } else {
          t2 := Tick();
          found := LoadHot(k, t2);
          owner := if found.Some? then Some(found.value.account) else None;
        }
        e := Owner(id, t1, t2, metaOk, owner);
        assert OwnerStep(config, before, entries, found, e, entries);
      }
      Record(before, e);
      history := history + [e];
    }

    method EvictAccount(account: string, metaOk: bool, coldOk: bool)
      requires Valid()
      modifies this
      ensures Recorded(old(history), Evict(account, metaOk, coldOk))
    {
      hide Run, TrimSpace, HotWithout, MetaWithout, ColdWithout;
      ghost var before := Now();
      var a := TrimSpace(account);
      if a != "" {
        entries := HotWithout(entries, a);
        if config.metadata && metaOk {
          metadata := MetaWithout(metadata, a);
        }
        if config.archive && coldOk {
          archive := ColdWithout(archive, a);
        }
      }
      Record(before, Evict(account, metaOk, coldOk));
      history := history + [Evict(account, metaOk, coldOk)];
    }
  }
}
