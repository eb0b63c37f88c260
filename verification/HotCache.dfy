/** A bounded map with expiry and least-recently-used pruning: the hot tier of the continuation stores. */
module HotCache {

  /** A cached value of one account. Times are in nanoseconds. */
  datatype Entry<V> = Entry(account: string, content: V, createdAt: int, accessedAt: int)

  type Entries<V> = map<string, Entry<V>>

  /** Whole seconds, as the tables keep them. */
  function Unix(t: int): int {
    t / 1_000_000_000
  }

  const Ttl: int := 30 * 60 * 1_000_000_000

  predicate FreshAt<V>(e: Entry<V>, now: int) {
    now - e.createdAt <= Ttl
  }

  /** Stale entries go; above the bound the least recently used go too, ties in any order. */
  ghost predicate Pruned<V(!new)>(hot: Entries<V>, kept: Entries<V>, bound: nat, now: int) {
    && (forall k | k in kept :: k in hot && kept[k] == hot[k] && FreshAt(hot[k], now))
    && |kept| <= bound
    && (forall k | k in hot && FreshAt(hot[k], now) && k !in kept ::
          |kept| == bound && forall j | j in kept :: hot[k].accessedAt <= hot[j].accessedAt)
  }

  method DropStale<V(!new)>(hot: Entries<V>, now: int) returns (entries: Entries<V>)
    ensures forall k :: k in entries <==> k in hot && FreshAt(hot[k], now)
    ensures forall k | k in entries :: entries[k] == hot[k]
  {
    entries := hot;
    var keys := entries.Keys;
    while keys != {}
      invariant keys <= hot.Keys
      invariant forall k :: k in entries <==> k in hot && (k in keys || FreshAt(hot[k], now))
      invariant forall k | k in entries :: entries[k] == hot[k]
      decreases |keys|
    {
      var k :| k in keys;
      keys := keys - {k};
      if now - entries[k].createdAt > Ttl {
        entries := entries - {k};
      }
    }
  }

  method Oldest<V(!new)>(entries: Entries<V>, keys: set<string>) returns (oldest: string)
    requires keys != {} && keys <= entries.Keys
    ensures oldest in keys && forall k | k in keys :: entries[oldest].accessedAt <= entries[k].accessedAt
  {
    oldest :| oldest in keys;
    var rest := keys - {oldest};
    while rest != {}
      invariant rest <= keys && oldest in keys
      invariant forall k | k in keys - rest :: entries[oldest].accessedAt <= entries[k].accessedAt
      decreases |rest|
    {
      var k :| k in rest;
      rest := rest - {k};
      if entries[k].accessedAt < entries[oldest].accessedAt {
        oldest := k;
      }
    }
  }

  /** The keys sorted by last access. */
  method KeysByAccess<V(!new)>(entries: Entries<V>) returns (keys: seq<string>)
    ensures forall k :: k in keys <==> k in entries
    ensures forall i | 0 <= i < |keys| :: keys[i] in entries
    ensures forall i, j | 0 <= i < j < |keys| ::
              keys[i] != keys[j] && entries[keys[i]].accessedAt <= entries[keys[j]].accessedAt
  {
    keys := [];
    var rest := entries.Keys;
    while rest != {}
      invariant rest <= entries.Keys && forall k :: k in keys <==> k in entries.Keys - rest
      invariant forall i | 0 <= i < |keys| :: keys[i] in entries
      invariant forall i, j | 0 <= i < j < |keys| ::
                  keys[i] != keys[j] && entries[keys[i]].accessedAt <= entries[keys[j]].accessedAt
      invariant forall i, k | 0 <= i < |keys| && k in rest :: entries[keys[i]].accessedAt <= entries[k].accessedAt
      decreases |rest|
    {
      var k := Oldest(entries, rest);
      assert forall i | 0 <= i < |keys| :: keys[i] in keys;
      keys := keys + [k];
      rest := rest - {k};
    }
  }

  ghost predicate Without<V(!new)>(m: Entries<V>, m': Entries<V>, gone: seq<string>) {
    (forall k :: k in m' <==> k in m && k !in gone) && (forall k | k in m' :: m'[k] == m[k])
  }

  /** Deletes from the front of the sorted keys until the bound holds. */
  method DropOldest<V(!new)>(hot: Entries<V>, keys: seq<string>, bound: nat) returns (entries: Entries<V>, ghost n: nat)
    requires |hot| > bound && forall k :: k in keys <==> k in hot
    requires forall i, j | 0 <= i < j < |keys| :: keys[i] != keys[j]
    ensures |entries| == bound && n <= |keys| && Without(hot, entries, keys[..n])
  {
    hide Without;
    var i := 0;
    entries := hot;
    NoneGone(entries);
    assert keys[..0] == [];
    while |entries| > bound && i < |keys|
      invariant 0 <= i <= |keys| && |entries| >= bound && Without(hot, entries, keys[..i])
    {
      assert keys[i] in keys && keys[i] !in keys[..i];
      assert keys[..i + 1] == keys[..i] + [keys[i]];
      OneGone(hot, entries, keys[..i], keys[i]);
      entries := entries - {keys[i]};
      i := i + 1;
    }
    assert keys[..|keys|] == keys;
    if i == |keys| {
      AllGone(hot, entries, keys);
    }
    n := i;
  }

  lemma NoneGone<V(!new)>(m: Entries<V>)
    ensures Without(m, m, [])
  {
  }

  lemma OneGone<V(!new)>(m: Entries<V>, m': Entries<V>, gone: seq<string>, k: string)
    requires Without(m, m', gone) && k in m && k !in gone
    ensures Without(m, m' - {k}, gone + [k]) && |m' - {k}| == |m'| - 1
  {
    assert (m' - {k}).Keys == m'.Keys - {k};
  }

  lemma AllGone<V(!new)>(m: Entries<V>, m': Entries<V>, keys: seq<string>)
    requires Without(m, m', keys) && forall k :: k in keys <==> k in m
    ensures |m'| == 0
  {
    assert m'.Keys == {};
  }

  lemma OldestGone<V(!new)>(m: Entries<V>, m': Entries<V>, keys: seq<string>, n: nat)
    requires n <= |keys| && Without(m, m', keys[..n]) && forall k :: k in keys <==> k in m
    requires forall i | 0 <= i < |keys| :: keys[i] in m
    requires forall i, j | 0 <= i < j < |keys| :: m[keys[i]].accessedAt <= m[keys[j]].accessedAt
    ensures forall k, j | k in m && k !in m' && j in m' :: m[k].accessedAt <= m[j].accessedAt
  {
    assert forall c | 0 <= c < n :: keys[c] in keys[..n];
    forall k, j | k in m && k !in m' && j in m'
      ensures m[k].accessedAt <= m[j].accessedAt
    {
      var a :| 0 <= a < n && keys[..n][a] == k;
      var b :| 0 <= b < |keys| && keys[b] == j;
    }
  }

  /** Expiry first, then the bound. */
  method Prune<V(!new)>(hot: Entries<V>, bound: nat, now: int) returns (entries: Entries<V>)
    ensures Pruned(hot, entries, bound, now)
  {
    var young := DropStale(hot, now);
    if |young| <= bound {
      return young;
    }
    var keys := KeysByAccess(young);
    ghost var n;
    entries, n := DropOldest(young, keys, bound);
    OldestGone(young, entries, keys, n);
  }

  /** Losing entries never adds any. */
  lemma SubmapSize<V>(m: Entries<V>, m': Entries<V>)
    requires forall k | k in m' :: k in m
    ensures |m'| <= |m|
  {
    SubsetSize(m'.Keys, m.Keys);
  }

  lemma {:induction false} SubsetSize(a: set<string>, b: set<string>)
    requires a <= b
    ensures |a| <= |b|
  {
    if a != {} {
      var x :| x in a;
      SubsetSize(a - {x}, b - {x});
    }
  }

  /** Within the bound only stale entries go. */
  lemma FreshKept<V(!new)>(hot: Entries<V>, kept: Entries<V>, bound: nat, now: int, k: string)
    requires Pruned(hot, kept, bound, now) && |hot| <= bound && k in hot
    ensures k in kept <==> FreshAt(hot[k], now)
  {
    if FreshAt(hot[k], now) && k !in kept {
      SubsetSize(kept.Keys, hot.Keys - {k});
    }
  }
}
