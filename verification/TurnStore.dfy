/** The cache with its two tiers, proved to follow the transitions of `TurnCache`; its clock is any that never goes back. */
module TurnStore {
  import opened Options
  import opened Text
  import opened HotCache
  import opened TurnCache
  import SessionResolution

  ghost predicate Answers(e: Event, id: string, ok: bool, owner: Option<string>) {
    e.Lookup? && e.key == id && e.ok == ok && e.owner == owner
  }

  /** After `before` come the lookups of the first ids, with these answers; `readable` says for which ids the table can be
      read. */
  ghost predicate Lookups(history: seq<Event>, before: seq<Event>, ids: seq<string>, readable: string -> bool,
                          owners: seq<Option<string>>)
  {
    && |owners| <= |ids| && |history| == |before| + |owners| && history[..|before|] == before
    && forall i | 0 <= i < |owners| :: Answers(history[|before| + i], ids[i], readable(ids[i]), owners[i])
  }

  lemma LookupsSnoc(history: seq<Event>, before: seq<Event>, ids: seq<string>, readable: string -> bool,
                    owners: seq<Option<string>>, e: Event)
    requires Lookups(history, before, ids, readable, owners) && |owners| < |ids|
    requires e.Lookup? && e.key == ids[|owners|] && e.ok == readable(e.key)
    ensures Lookups(history + [e], before, ids, readable, owners + [e.owner])
  {
    assert (history + [e])[..|before|] == history[..|before|];
    forall i | 0 <= i < |owners| + 1
      ensures Answers((history + [e])[|before| + i], ids[i], readable(ids[i]), (owners + [e.owner])[i])
    {
      if i < |owners| {
        assert Answers(history[|before| + i], ids[i], readable(ids[i]), owners[i]);
      }
    }
  }

  class Cache {
    const config: Config
    var entries: Hot
    var table: map<string, Row>
    var clock: int
    ghost var history: seq<Event>

    constructor (config: Config)
      ensures Valid() && this.config == config && history == []
    {
      this.config := config;
      entries, table, clock := map[], map[], 0;
      history := [];
    }

    ghost function Tiers(): State
      reads this
    {
      State(entries, table, clock)
    }

    ghost predicate Valid()
      reads this
    {
      Run(config, history, Tiers())
    }

    /** One more operation turned the recorded run into the present state. */
    ghost predicate Recorded(before: seq<Event>, e: Event)
      reads this
    {
      Valid() && history == before + [e]
    }

    lemma Record(before: State, e: Event)
      requires Run(config, history, before) && Next(config, before, e, Tiers())
      ensures Run(config, history + [e], Tiers())
    {
      assert (history + [e])[..|history|] == history;
    }

    method Now() returns (t: int)
      modifies this`clock
      ensures t == clock && old(clock) <= t
    {
      var elapsed: int := *;
      if elapsed > 0 {
        clock := clock + elapsed;
      }
      t := clock;
    }

    // ----- The hot tier -----

    method StoreHot(key: string, account: string, context: Context, now: int)
      modifies this`entries
      ensures HotStore(old(entries), entries, key, account, context, now)
    {
      var k, a := TrimSpace(key), TrimSpace(account);
      if k == "" || a == "" {
        return;
      }
      entries := Prune(entries, MaxEntries, now);
      entries := entries[k := Entry(a, context, now, now)];
      entries := Prune(entries, MaxEntries, now);
    }

    /** A hot hit is touched; `wanted` restricts it to one account. */
    method FindHot(key: string, wanted: Option<string>, now: int) returns (found: Option<TurnEntry>)
      modifies this`entries
      ensures HotFind(old(entries), entries, key, wanted, now, found)
    {
      hide Pruned;
      var k := TrimSpace(key);
      if k == "" || (wanted.Some? && TrimSpace(wanted.value) == "") {
        return None;
      }
      entries := Prune(entries, MaxEntries, now);
      ghost var m := entries;
      if k !in entries || (wanted.Some? && entries[k].account != TrimSpace(wanted.value)) {
        found := None;
      } else {
        found := Some(entries[k]);
        entries := entries[k := entries[k].(accessedAt := now)];
      }
      assert Found(m, entries, k, wanted, now, found);
    }

    // ----- Operations -----

    method Store(key: string, account: string, context: Context, ok: bool) returns (ghost e: Event)
      requires Valid()
      modifies this
      ensures Recorded(old(history), e) && e.Store? && e.key == key && e.account == account && e.context == context && e.ok == ok
    {
      hide HotStore, Run, TrimSpace, Trimmed;
      ghost var before := Tiers();
      var k := TrimSpace(key);
      var t1 := Now();
      StoreHot(k, account, context, t1);
      var t2 := Now();
      if config.enabled && ok && k != "" && TrimSpace(account) != "" {
        table := table[k := RowOf(config, account, context, t2)];
      }
      e := Event.Store(key, account, context, t1, t2, ok);
      Record(before, e);
      history := history + [e];
    }

    /** The account of a key: hot, or from the table and then hot again. */
    method LookupAccount(key: string, ok: bool) returns (owner: Option<string>, ghost e: Event)
      requires Valid()
      modifies this
      ensures Recorded(old(history), e) && e.Lookup? && e.key == key && e.ok == ok && e.owner == owner
      ensures table == old(table)
    {
      hide HotStore, HotFind, Run;
      ghost var before := Tiers();
      var t1 := Now();
      var found := FindHot(key, None, t1);
      ghost var h := entries;
      var t2, t3 := t1, t1;
      if found.Some? {
        owner := Some(found.value.account);
      } else {
        t2 := Now();
        var row := TableFind(config, table, key, t2, ok);
        t3 := Now();
        if row.Some? {
          StoreHot(key, row.value.account, row.value.context, t3);
        }
        owner := if row.None? then None else Some(row.value.account);
      }
      e := Lookup(key, t1, t2, t3, ok, owner);
      assert LookupStep(config, before, h, found, e, entries);
      Record(before, e);
      history := history + [e];
    }

    /** The context of a key for one account. */
    method LoadContext(account: string, key: string, ok: bool) returns (loaded: Option<Context>, ghost e: Event)
      requires Valid()
      modifies this
      ensures Recorded(old(history), e) && e.Load? && e.key == key && e.account == account && e.ok == ok && e.loaded == loaded
    {
      hide HotStore, HotFind, Run;
      ghost var before := Tiers();
      var t1 := Now();
      var found := FindHot(key, Some(account), t1);
      ghost var h := entries;
      var t2, t3 := t1, t1;
      if found.Some? {
        loaded := Some(found.value.content);
      } else {
        t2 := Now();
        var row := TableFind(config, table, key, t2, ok);
        if row.Some? && row.value.account != TrimSpace(account) {
          row := None;
        }
        t3 := Now();
        if row.Some? {
          StoreHot(key, row.value.account, row.value.context, t3);
        }
        loaded := if row.None? then None else Some(row.value.context);
      }
      e := Load(key, account, t1, t2, t3, ok, loaded);
      assert LoadStep(config, before, h, found, e, entries);
      Record(before, e);
      history := history + [e];
    }

    method EvictAccount(account: string, ok: bool)
      requires Valid()
      modifies this
      ensures Recorded(old(history), Evict(account, ok))
    {
      hide Run;
      ghost var before := Tiers();
      var a := TrimSpace(account);
      if a != "" {
        entries := map k | k in entries && entries[k].account != a :: entries[k];
        if config.enabled && ok {
          table := map k | k in table && table[k].account != a :: table[k];
        }
      }
      Record(before, Evict(account, ok));
      history := history + [Evict(account, ok)];
    }

    // ----- Several keys -----

    ghost predicate LookedUp(before: seq<Event>, ids: seq<string>, readable: string -> bool, owners: seq<Option<string>>)
      reads this
    {
      Valid() && Lookups(history, before, ids, readable, owners)
    }

    /** One lookup, with what it adds to the history. */
    method LookupNext(ids: seq<string>, readable: string -> bool, ghost before: seq<Event>, owners: seq<Option<string>>)
      returns (owner: Option<string>)
      requires |owners| < |ids| && LookedUp(before, ids, readable, owners)
      modifies this
      ensures LookedUp(before, ids, readable, owners + [owner])
    {
      hide Run;
      ghost var e;
      owner, e := LookupAccount(ids[|owners|], readable(ids[|owners|]));
      LookupsSnoc(old(history), before, ids, readable, owners, e);
    }

    /** Classifies a session by the owners of its distinct call ids, each looked up once. */
    method ResolveSession(callIds: seq<string>, readable: string -> bool)
      returns (r: SessionResolution.Resolution, ghost owners: seq<Option<string>>)
      requires Valid()
      modifies this
      ensures |owners| == |UniqueTrimmed(callIds)| && LookedUp(old(history), UniqueTrimmed(callIds), readable, owners)
      ensures SessionResolution.Classifies(owners, r)
    {
      hide Run, UniqueTrimmed;
      var ids := CollectUnique(callIds);
      var found: seq<Option<string>> := [];
      for i := 0 to |ids|
        invariant |found| == i && LookedUp(old(history), ids, readable, found)
      {
        var owner := LookupNext(ids, readable, old(history), found);
        found := found + [owner];
      }
      r := SessionResolution.Classify(found);
      owners := found;
    }

    /** The first owner among the ids. */
    method LookupAny(callIds: seq<string>, readable: string -> bool) returns (owner: Option<string>, owners: seq<Option<string>>)
      requires Valid()
      modifies this
      ensures LookedUp(old(history), UniqueTrimmed(callIds), readable, owners)
      ensures owner.None? ==> |owners| == |UniqueTrimmed(callIds)| && forall o | o in owners :: o.None?
      ensures owner.Some? ==> owners != [] && owners[|owners| - 1] == owner && forall o | o in owners[..|owners| - 1] :: o.None?
    {
      hide Run, UniqueTrimmed;
      var ids := CollectUnique(callIds);
      owners := [];
      for i := 0 to |ids|
        invariant |owners| == i && LookedUp(old(history), ids, readable, owners) && forall o | o in owners :: o.None?
      {
        owner := LookupNext(ids, readable, old(history), owners);
        owners := owners + [owner];
        if owner.Some? {
          return;
        }
      }
      owner := None;
    }
  }
}
