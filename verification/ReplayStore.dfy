/**
 The three tiers that keep what is needed to replay a response: a hot cache, metadata that is the authority, and cold
 payloads whose writes and reads may fail. Times are in nanoseconds.
 */
module ReplayStore {
  import opened Options
  import opened Text
  import opened HotCache
  import opened ResponsesItems

  datatype Payload = Payload(input: seq<Json>, items: seq<Json>)

  type ReplayEntry = Entry<Payload>

  type Hot = Entries<Payload>

  /** Metadata of a response; `ready` says that the cold tier holds its payload. */
  datatype Meta = Meta(account: string, ready: bool, expires: int)

  datatype Cold = Cold(account: string, payload: Payload, createdAt: int)

  datatype State = State(hot: Hot, meta: map<string, Meta>, cold: map<string, Cold>, clock: int)

  datatype Config = Config(metadata: bool, archive: bool, retention: nat)

  const MaxEntries: nat := 256

  /** What a load returns. */
  datatype Replay = Replay(account: string, payload: Payload)

  /** One operation of a client, with its clock readings and the outcomes of its writes and reads. */
  datatype Event =
    | Store(id: string, account: string, payload: Payload, createdTime: int, hotTime: int, coldTime: int, metaTime: int,
            coldOk: bool, metaOk: bool)
    | Load(id: string, wanted: Option<string>, hotTime: int, metaTime: int, fillTime: int, metaOk: bool, coldOk: bool,
           loaded: Option<Replay>)
    | CanReplay(id: string, account: string, hotTime: int, metaTime: int, metaOk: bool, answer: bool)
    | Owner(id: string, metaTime: int, hotTime: int, metaOk: bool, owner: Option<string>)
    | Evict(account: string, metaOk: bool, coldOk: bool)
    | Cleanup(time: int)

  // ----- The tiers -----

  ghost predicate HotStore(hot: Hot, hot': Hot, id: string, e: ReplayEntry, now: int) {
    exists m :: Pruned(hot, m, MaxEntries, now) && Pruned(m[id := e.(accessedAt := now)], hot', MaxEntries, now)
  }

  ghost predicate HotFind(hot: Hot, hot': Hot, id: string, now: int, found: Option<ReplayEntry>) {
    exists m :: Pruned(hot, m, MaxEntries, now) && Found(m, hot', id, now, found)
  }

  ghost predicate Found(m: Hot, hot': Hot, id: string, now: int, found: Option<ReplayEntry>) {
    if id in m then found == Some(m[id]) && hot' == m[id := m[id].(accessedAt := now)]
    else found == None && hot' == m
  }

  /** A read that fails is a miss. */
  function MetaFind(c: Config, meta: map<string, Meta>, id: string, now: int, ok: bool): Option<Meta> {
    if c.metadata && ok && id in meta && meta[id].expires >= Unix(now) then Some(meta[id]) else None
  }

  function ColdFind(cold: map<string, Cold>, id: string, ok: bool): Option<Cold> {
    if ok && id in cold then Some(cold[id]) else None
  }

  // ----- Operations -----

  ghost predicate StoreStep(c: Config, s: State, e: Event, s': State)
    requires e.Store?
  {
    var id, account := TrimSpace(e.id), TrimSpace(e.account);
    if id == "" || account == "" then s' == s
    else
      && s.clock <= e.createdTime <= e.hotTime <= e.coldTime <= e.metaTime == s'.clock
      && HotStore(s.hot, s'.hot, id, Entry(account, e.payload, e.createdTime, e.createdTime), e.hotTime)
      && s'.cold == (if c.archive && e.coldOk then s.cold[id := Cold(account, e.payload, e.coldTime)] else s.cold)
      && s'.meta == (if c.metadata && e.metaOk
                     then s.meta[id := Meta(account, c.archive && e.coldOk, Unix(e.metaTime + c.retention))] else s.meta)
  }

  /** The cold payload that the metadata of `id` vouches for, to an account that may have it. */
  function Archived(c: Config, meta: map<string, Meta>, cold: map<string, Cold>, id: string, wanted: Option<string>, now: int,
                    metaOk: bool, coldOk: bool): Option<Cold>
  {
    var row := MetaFind(c, meta, id, now, metaOk);
    if row.None? || !row.value.ready || (wanted.Some? && row.value.account != TrimSpace(wanted.value)) then None
    else
      var payload := ColdFind(cold, id, coldOk);
      if payload.Some? && (wanted.None? || payload.value.account == TrimSpace(wanted.value)) then payload else None
  }

  ghost predicate LoadStep(c: Config, s: State, h: Hot, found: Option<ReplayEntry>, e: Event, hot': Hot)
    requires e.Load?
  {
    var id := TrimSpace(e.id);
    && HotFind(s.hot, h, id, e.hotTime, found)
    && if found.Some? then
         hot' == h && e.loaded == if e.wanted.Some? && found.value.account != TrimSpace(e.wanted.value) then None
                                  else Some(Replay(found.value.account, found.value.content))
       else
         var cold := Archived(c, s.meta, s.cold, id, e.wanted, e.metaTime, e.metaOk, e.coldOk);
         if cold.None? then hot' == h && e.loaded == None
         else
           && HotStore(h, hot', id, Entry(cold.value.account, cold.value.payload, cold.value.createdAt, e.fillTime), e.fillTime)
           && e.loaded == Some(Replay(cold.value.account, cold.value.payload))
  }

  predicate BlankLoad(e: Event)
    requires e.Load?
  {
    TrimSpace(e.id) == "" || (e.wanted.Some? && TrimSpace(e.wanted.value) == "")
  }

  ghost predicate CanReplayStep(c: Config, s: State, h: Hot, found: Option<ReplayEntry>, e: Event)
    requires e.CanReplay?
  {
    var id, account := TrimSpace(e.id), TrimSpace(e.account);
    && HotFind(s.hot, h, id, e.hotTime, found)
    && e.answer ==
      if found.Some? then found.value.account == account && found.value.content.items != []
      else
        var meta := MetaFind(c, s.meta, id, e.metaTime, e.metaOk);
        meta.Some? && meta.value.account == account && meta.value.ready
  }

  ghost predicate OwnerStep(c: Config, s: State, h: Hot, found: Option<ReplayEntry>, e: Event, hot': Hot)
    requires e.Owner?
  {
    var id := TrimSpace(e.id);
    var meta := MetaFind(c, s.meta, id, e.metaTime, e.metaOk);
    if meta.Some? then hot' == s.hot && e.owner == Some(meta.value.account)
    else
      && HotFind(s.hot, h, id, e.hotTime, found) && hot' == h
      && e.owner == if found.Some? then Some(found.value.account) else None
  }

  ghost predicate Next(c: Config, s: State, e: Event, s': State) {
    match e
    case Store(_, _, _, _, _, _, _, _, _) => StoreStep(c, s, e, s')
    case Load(_, _, t1, t2, t3, _, _, loaded) =>
      && s.clock <= t1 <= t2 <= t3 == s'.clock && s'.meta == s.meta && s'.cold == s.cold
      && if BlankLoad(e) then s'.hot == s.hot && loaded == None else exists h, found :: LoadStep(c, s, h, found, e, s'.hot)
    case CanReplay(id, account, t1, t2, _, answer) =>
      && s.clock <= t1 <= t2 == s'.clock && s'.meta == s.meta && s'.cold == s.cold
      && if TrimSpace(id) == "" || TrimSpace(account) == "" then s'.hot == s.hot && !answer
         else exists found :: CanReplayStep(c, s, s'.hot, found, e)
    case Owner(id, t1, t2, _, owner) =>
      && s.clock <= t1 <= t2 == s'.clock && s'.meta == s.meta && s'.cold == s.cold
      && if TrimSpace(id) == "" then s'.hot == s.hot && owner == None
         else exists h, found :: OwnerStep(c, s, h, found, e, s'.hot)
    case Evict(account, metaOk, coldOk) => EvictStep(c, s, TrimSpace(account), metaOk, coldOk, s')
    case Cleanup(t) =>
      && s.clock <= t == s'.clock && s'.hot == s.hot && s'.cold == s.cold
      && s'.meta == map k | k in s.meta && s.meta[k].expires >= Unix(t) :: s.meta[k]
  }

  function HotWithout(hot: Hot, account: string): Hot {
    map k | k in hot && hot[k].account != account :: hot[k]
  }

  function MetaWithout(meta: map<string, Meta>, account: string): map<string, Meta> {
    map k | k in meta && meta[k].account != account :: meta[k]
  }

  function ColdWithout(cold: map<string, Cold>, account: string): map<string, Cold> {
    map k | k in cold && cold[k].account != account :: cold[k]
  }

  ghost predicate EvictStep(c: Config, s: State, a: string, metaOk: bool, coldOk: bool, s': State) {
    if a == "" then s' == s
    else
      && s'.clock == s.clock
      && s'.hot == HotWithout(s.hot, a)
      && s'.meta == (if c.metadata && metaOk then MetaWithout(s.meta, a) else s.meta)
      && s'.cold == if c.archive && coldOk then ColdWithout(s.cold, a) else s.cold
  }

  /** `s` is reached from empty tiers by `events`. */
  ghost predicate Run(c: Config, events: seq<Event>, s: State) {
    if events == [] then s.hot == map[] && s.meta == map[] && s.cold == map[]
    else
      var before, e := events[..|events| - 1], events[|events| - 1];
      exists p :: Run(c, before, p) && Next(c, p, e, s)
  }

  // ----- The simple map behind the tiers -----

  /** The last store for an id; `ready` if its payload reached the cold tier. */
  datatype Binding = Binding(account: string, payload: Payload, ready: bool, storedAt: int)

  function Last(c: Config, events: seq<Event>, id: string): Option<Binding> {
    if events == [] then None
    else
      var before, e := Last(c, events[..|events| - 1], id), events[|events| - 1];
      if e.Store? && TrimSpace(e.id) == id && id != "" && TrimSpace(e.account) != "" then
        Some(Binding(TrimSpace(e.account), e.payload, c.archive && e.coldOk, e.metaTime))
      else if e.Evict? && before.Some? && before.value.account == TrimSpace(e.account) then None
      else before
  }

  function Expiry(c: Config, b: Binding): int {
    Unix(b.storedAt + c.retention)
  }

  /** Metadata writes succeed; cold writes and deletes may fail at will. */
  ghost predicate MetaSucceeds(events: seq<Event>) {
    forall e | e in events :: (e.Store? ==> e.metaOk) && (e.Evict? ==> e.metaOk)
  }
}
