/**
 The two tiers that remember which account owns a turn: a bounded hot cache with expiry and least-recently-used pruning
 over an authoritative table. One cache instance; the three instances share this code. Times are in nanoseconds.
 */
module TurnCache {
  import opened Options
  import opened Text
  import opened HotCache

  datatype Context = Context(interactionId: string, clientSessionId: string, agentTaskId: string)

  type TurnEntry = Entry<Context>

  type Hot = Entries<Context>

  /** A table row; the table keeps whole seconds. */
  datatype Row = Row(account: string, context: Context, expires: int)

  datatype State = State(hot: Hot, table: map<string, Row>, clock: int)

  datatype Config = Config(enabled: bool, retention: nat)

  const MaxEntries: nat := 1024

  function Trimmed(c: Context): Context {
    Context(TrimSpace(c.interactionId), TrimSpace(c.clientSessionId), TrimSpace(c.agentTaskId))
  }

  /** One operation of a client, with the clock readings it took; `ok` says whether its table access succeeded. */
  datatype Event =
    | Store(key: string, account: string, context: Context, hotTime: int, tableTime: int, ok: bool)
    | Lookup(key: string, hotTime: int, tableTime: int, fillTime: int, ok: bool, owner: Option<string>)
    | Load(key: string, account: string, hotTime: int, tableTime: int, fillTime: int, ok: bool, loaded: Option<Context>)
    | Evict(account: string, ok: bool)
    | Cleanup(time: int)

  // ----- The hot tier -----

  ghost predicate HotStore(hot: Hot, hot': Hot, key: string, account: string, context: Context,
                           now: int)
  {
    var k, a := TrimSpace(key), TrimSpace(account);
    if k == "" || a == "" then hot' == hot
    else exists m :: Pruned(hot, m, MaxEntries, now) && Pruned(m[k := Entry(a, context, now, now)], hot', MaxEntries, now)
  }

  /** A hot hit; `wanted` restricts it to one account. */
  ghost predicate HotFind(hot: Hot, hot': Hot, key: string, wanted: Option<string>, now: int,
                          found: Option<TurnEntry>)
  {
    var k := TrimSpace(key);
    if k == "" || (wanted.Some? && TrimSpace(wanted.value) == "") then hot' == hot && found == None
    else exists m :: Pruned(hot, m, MaxEntries, now) && Found(m, hot', k, wanted, now, found)
  }

  ghost predicate Found(m: Hot, hot': Hot, k: string, wanted: Option<string>, now: int,
                        found: Option<TurnEntry>)
  {
    if k in m && (wanted.None? || m[k].account == TrimSpace(wanted.value))
    then found == Some(m[k]) && hot' == m[k := m[k].(accessedAt := now)]
    else found == None && hot' == m
  }

  // ----- The table -----

  /** The table is asked with the key as given; a read that fails is a miss. */
  function TableFind(c: Config, table: map<string, Row>, key: string, now: int, ok: bool): Option<Row> {
    if c.enabled && ok && key in table && table[key].expires >= Unix(now) then Some(table[key]) else None
  }

  function RowOf(c: Config, account: string, context: Context, now: int): Row {
    Row(TrimSpace(account), Trimmed(context), Unix(now + c.retention))
  }

  // ----- Operations -----

  /** A hot miss goes to the table, and a row found there is made hot again. */
  ghost predicate Filled(h: Hot, hot': Hot, key: string, row: Option<Row>, now: int) {
    if row.None? then hot' == h else HotStore(h, hot', key, row.value.account, row.value.context, now)
  }

  ghost predicate LookupStep(c: Config, s: State, h: Hot, found: Option<TurnEntry>, e: Event, hot': Hot)
    requires e.Lookup?
  {
    && HotFind(s.hot, h, e.key, None, e.hotTime, found)
    && if found.Some? then e.owner == Some(found.value.account) && hot' == h
       else
         var row := TableFind(c, s.table, e.key, e.tableTime, e.ok);
         Filled(h, hot', e.key, row, e.fillTime) && e.owner == if row.None? then None else Some(row.value.account)
  }

  ghost predicate LoadStep(c: Config, s: State, h: Hot, found: Option<TurnEntry>, e: Event, hot': Hot)
    requires e.Load?
  {
    && HotFind(s.hot, h, e.key, Some(e.account), e.hotTime, found)
    && if found.Some? then e.loaded == Some(found.value.content) && hot' == h
       else
         var row := TableFind(c, s.table, e.key, e.tableTime, e.ok);
         var own := if row.Some? && row.value.account == TrimSpace(e.account) then row else None;
         Filled(h, hot', e.key, own, e.fillTime) && e.loaded == if own.None? then None else Some(own.value.context)
  }

  /** Callers trim the key before a store and drop blank ones. */
  ghost predicate StoreStep(c: Config, s: State, e: Event, s': State)
    requires e.Store?
  {
    var k := TrimSpace(e.key);
    && HotStore(s.hot, s'.hot, k, e.account, e.context, e.hotTime)
    && s'.table == if c.enabled && e.ok && k != "" && TrimSpace(e.account) != ""
      then s.table[k := RowOf(c, e.account, e.context, e.tableTime)] else s.table
  }

  ghost predicate Next(c: Config, s: State, e: Event, s': State) {
    match e
    case Store(_, _, _, t1, t2, _) => s.clock <= t1 <= t2 == s'.clock && StoreStep(c, s, e, s')
    case Lookup(_, t1, t2, t3, _, _) =>
      && s.clock <= t1 <= t2 <= t3 == s'.clock && s'.table == s.table
      && exists h, found :: LookupStep(c, s, h, found, e, s'.hot)
    case Load(_, _, t1, t2, t3, _, _) =>
      && s.clock <= t1 <= t2 <= t3 == s'.clock && s'.table == s.table
      && exists h, found :: LoadStep(c, s, h, found, e, s'.hot)
    case Evict(account, ok) =>
      var a := TrimSpace(account);
      && s'.clock == s.clock
      && s'.hot == (if a == "" then s.hot else map k | k in s.hot && s.hot[k].account != a :: s.hot[k])
      && s'.table == if a != "" && c.enabled && ok then map k | k in s.table && s.table[k].account != a :: s.table[k] else s.table
    case Cleanup(t) =>
      s.clock <= t == s'.clock && s'.hot == s.hot &&
      s'.table == map k | k in s.table && s.table[k].expires >= Unix(t) :: s.table[k]
  }

  /** `s` is reached from empty tiers by `events`. */
  ghost predicate Run(c: Config, events: seq<Event>, s: State) {
    if events == [] then s.hot == map[] && s.table == map[]
    else
      var before, e := events[..|events| - 1], events[|events| - 1];
      exists p :: Run(c, before, p) && Next(c, p, e, s)
  }

  // ----- The simple map behind the tiers -----

  datatype Binding = Binding(account: string, context: Context, storedAt: int)

  /** The last binding stored for a key, unless its account was evicted since. */
  function Last(events: seq<Event>, key: string): Option<Binding> {
    if events == [] then None
    else
      var before, e := Last(events[..|events| - 1], key), events[|events| - 1];
      match e
      case Store(k, account, context, _, t, _) =>
        if TrimSpace(k) == key && key != "" && TrimSpace(account) != "" then Some(Binding(TrimSpace(account), context, t)) else before
      case Evict(account, _) => if before.Some? && before.value.account == TrimSpace(account) then None else before
      case _ => before
  }

  function Expiry(c: Config, b: Binding): int {
    Unix(b.storedAt + c.retention)
  }

  ghost predicate WritesSucceed(events: seq<Event>) {
    forall e | e in events :: (e.Store? ==> e.ok) && (e.Evict? ==> e.ok)
  }
}
