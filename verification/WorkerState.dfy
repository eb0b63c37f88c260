/**
 The state shared by the worker supervisor, its port pool and the reapers of its children, with the atomic steps of each.
 A child keeps its incarnation number for ever; the registry is keyed by account.
 */
module WorkerState {

  datatype Status = Starting | Ready | Crashed | Stopping | StartTimeout

  datatype Worker = Worker(port: int, status: Status, child: nat, adopted: bool)

  /** `marked` and `done` are the two steps of the child's reaper after it has exited; adopted children have no reaper. */
  datatype Child = Child(account: string, port: int, adopted: bool, exited: bool, marked: bool, done: bool)

  datatype State = State(workers: map<string, Worker>, taken: set<int>, children: seq<Child>)

  datatype Range = Range(start: int, end: int)

  /** A child that may still run, or whose reaper has not finished. */
  predicate Unfinished(c: Child) {
    !c.exited || (!c.adopted && !c.done)
  }

  function PortsOf(workers: map<string, Worker>): set<int> {
    set a | a in workers :: workers[a].port
  }

  ghost predicate OneToOne(workers: map<string, Worker>) {
    forall a, b | a in workers && b in workers && a != b :: workers[a].port != workers[b].port
  }

  ghost predicate Registered(st: State, a: string) {
    a in st.workers &&
    var w := st.workers[a];
    && w.child < |st.children|
    && st.children[w.child].account == a && st.children[w.child].port == w.port && st.children[w.child].adopted == w.adopted
  }

  /** The child is the one its account is registered with. */
  ghost predicate Current(st: State, c: nat)
    requires c < |st.children|
  {
    st.children[c].account in st.workers && st.workers[st.children[c].account].child == c
  }

  ghost predicate ReaperOrder(c: Child) {
    (c.done ==> c.marked) && (c.marked ==> c.exited)
  }

  /** `pending` holds the port a spawn has taken and not yet registered. Allocated ports are the registered ones and the
      pending one, each worker has its own, all lie in the range, and every unfinished child is its account's current one. */
  ghost predicate Inv(r: Range, st: State, pending: set<int>) {
    && st.taken == PortsOf(st.workers) + pending && PortsOf(st.workers) !! pending
    && OneToOne(st.workers)
    && (forall p | p in st.taken :: r.start <= p <= r.end)
    && (forall a | a in st.workers :: Registered(st, a))
    && (forall c: nat | c < |st.children| && Unfinished(st.children[c]) :: Current(st, c))
    && (forall c: nat | c < |st.children| :: ReaperOrder(st.children[c]))
  }

  // ----- Steps of the environment -----

  function Exited(st: State, c: nat): State
    requires c < |st.children|
  {
    st.(children := st.children[c := st.children[c].(exited := true)])
  }

  /** `markCrashed`: the entry of the child's account, whichever child that is. */
  function Marked(st: State, c: nat): State
    requires c < |st.children|
  {
    var a := st.children[c].account;
    st.(children := st.children[c := st.children[c].(marked := true)], workers := CrashedIn(st.workers, a))
  }

  function CrashedIn(workers: map<string, Worker>, a: string): map<string, Worker> {
    if a in workers && workers[a].status != Stopping then workers[a := workers[a].(status := Crashed)] else workers
  }

  function Closed(st: State, c: nat): State
    requires c < |st.children|
  {
    st.(children := st.children[c := st.children[c].(done := true)])
  }

  // ----- Steps of the supervisor -----

  function Reserved(st: State, port: int): State {
    st.(taken := st.taken + {port})
  }

  function Released(st: State, port: int): State {
    st.(taken := st.taken - {port})
  }

  /** A new child under `account`, on `port`. */
  function Added(st: State, account: string, port: int, status: Status, adopted: bool): State {
    st.(workers := st.workers[account := Worker(port, status, |st.children|, adopted)],
        children := st.children + [Child(account, port, adopted, false, false, false)])
  }

  function Removed(st: State, account: string): State {
    st.(workers := st.workers - {account})
  }

  function WithStatus(st: State, account: string, status: Status): State {
    if account in st.workers then st.(workers := st.workers[account := st.workers[account].(status := status)]) else st
  }

  // ----- Every step keeps the invariant -----

  /** Same registrations: accounts, ports and children; only statuses may differ. */
  ghost predicate SameWorkers(m: map<string, Worker>, m': map<string, Worker>) {
    m'.Keys == m.Keys && forall a | a in m :: m'[a] == m[a].(status := m'[a].status)
  }

  lemma SamePorts(m: map<string, Worker>, m': map<string, Worker>)
    requires SameWorkers(m, m')
    ensures PortsOf(m) == PortsOf(m') && (OneToOne(m) ==> OneToOne(m'))
  {
    assert forall a | a in m :: m'[a].port == m[a].port;
    forall p | p in PortsOf(m)
      ensures p in PortsOf(m')
    {
      var a :| a in m && m[a].port == p;
      assert m'[a].port == p;
    }
    forall p | p in PortsOf(m')
      ensures p in PortsOf(m)
    {
      var a :| a in m' && m'[a].port == p;
      assert m[a].port == p;
    }
  }

  /** Statuses and finished work do not matter to the invariant. */
  lemma ProgressKeeps(r: Range, st: State, st': State, pending: set<int>)
    requires Inv(r, st, pending) && SameWorkers(st.workers, st'.workers) && st'.taken == st.taken
    requires |st'.children| == |st.children|
    requires forall c: nat | c < |st.children| ::
               && st'.children[c].account == st.children[c].account && st'.children[c].port == st.children[c].port
               && st'.children[c].adopted == st.children[c].adopted
               && (Unfinished(st'.children[c]) ==> Unfinished(st.children[c])) && ReaperOrder(st'.children[c])
    ensures Inv(r, st', pending)
  {
    SamePorts(st.workers, st'.workers);
    forall a | a in st'.workers
      ensures Registered(st', a)
    {
      assert Registered(st, a);
    }
    forall c: nat | c < |st'.children| && Unfinished(st'.children[c])
      ensures Current(st', c)
    {
      assert Current(st, c);
    }
  }

  lemma ExitKeeps(r: Range, st: State, c: nat, pending: set<int>)
    requires Inv(r, st, pending) && c < |st.children|
    ensures Inv(r, Exited(st, c), pending)
  {
    ProgressKeeps(r, st, Exited(st, c), pending);
  }

  /** A reaper marks no child but its own: as long as it has not marked, its child is the registered one. */
  lemma MarkKeeps(r: Range, st: State, c: nat, pending: set<int>)
    requires Inv(r, st, pending) && c < |st.children|
    requires var x := st.children[c]; !x.adopted && x.exited && !x.marked
    ensures Inv(r, Marked(st, c), pending) && SameWorkers(st.workers, Marked(st, c).workers)
    ensures forall a | a in st.workers && Marked(st, c).workers[a] != st.workers[a] :: st.workers[a].child == c
  {
    assert ReaperOrder(st.children[c]) && Unfinished(st.children[c]);
    assert Current(st, c);
    ProgressKeeps(r, st, Marked(st, c), pending);
  }

  lemma CloseKeeps(r: Range, st: State, c: nat, pending: set<int>)
    requires Inv(r, st, pending) && c < |st.children|
    requires var x := st.children[c]; !x.adopted && x.marked && !x.done
    ensures Inv(r, Closed(st, c), pending)
  {
    assert ReaperOrder(st.children[c]);
    ProgressKeeps(r, st, Closed(st, c), pending);
  }

  lemma StatusKeeps(r: Range, st: State, account: string, status: Status, pending: set<int>)
    requires Inv(r, st, pending)
    ensures Inv(r, WithStatus(st, account, status), pending)
    ensures SameWorkers(st.workers, WithStatus(st, account, status).workers)
  {
    assert forall c: nat | c < |st.children| :: ReaperOrder(st.children[c]);
    ProgressKeeps(r, st, WithStatus(st, account, status), pending);
  }

  lemma ReserveKeeps(r: Range, st: State, port: int)
    requires Inv(r, st, {}) && port !in st.taken && r.start <= port <= r.end
    ensures Inv(r, Reserved(st, port), {port})
  {
    assert forall a | a in st.workers :: Registered(st, a);
    assert forall c: nat | c < |st.children| && Unfinished(st.children[c]) :: Current(st, c);
    forall a | a in st.workers
      ensures Registered(Reserved(st, port), a)
    {
    }
    forall c: nat | c < |st.children| && Unfinished(st.children[c])
      ensures Current(Reserved(st, port), c)
    {
    }
  }

  /** Giving a pending port back: no child that may still run uses it. */
  lemma ReleaseKeeps(r: Range, st: State, port: int)
    requires Inv(r, st, {port})
    ensures Inv(r, Released(st, port), {})
    ensures forall c: nat | c < |st.children| && st.children[c].port == port :: st.children[c].exited
  {
    forall a | a in st.workers
      ensures Registered(Released(st, port), a)
    {
      assert Registered(st, a);
    }
    forall c: nat | c < |st.children| && Unfinished(st.children[c])
      ensures Current(Released(st, port), c) && st.children[c].port != port
    {
      assert Current(st, c);
      assert Registered(st, st.children[c].account);
      assert st.workers[st.children[c].account].port in PortsOf(st.workers);
    }
  }

  lemma AddKeeps(r: Range, st: State, account: string, port: int, status: Status, adopted: bool)
    requires Inv(r, st, {port}) && account !in st.workers
    ensures Inv(r, Added(st, account, port, status, adopted), {})
  {
    var st' := Added(st, account, port, status, adopted);
    forall a | a in st.workers
      ensures st.workers[a].port != port
    {
      assert st.workers[a].port in PortsOf(st.workers);
    }
    AddedPorts(st.workers, account, st'.workers[account]);
    forall a | a in st'.workers
      ensures Registered(st', a)
    {
      assert a != account ==> Registered(st, a);
    }
    forall c: nat | c < |st'.children| && Unfinished(st'.children[c])
      ensures Current(st', c)
    {
      if c < |st.children| {
        assert Current(st, c);
      }
    }
    forall c: nat | c < |st'.children|
      ensures ReaperOrder(st'.children[c])
    {
      assert c < |st.children| ==> ReaperOrder(st.children[c]);
    }
  }

  lemma AddedPorts(m: map<string, Worker>, a: string, w: Worker)
    requires a !in m
    ensures PortsOf(m[a := w]) == PortsOf(m) + {w.port}
  {
    var m' := m[a := w];
    forall p | p in PortsOf(m)
      ensures p in PortsOf(m')
    {
      var b :| b in m && m[b].port == p;
      assert m'[b].port == p;
    }
    assert m'[a].port in PortsOf(m');
  }

  /** Unregistering a worker whose child has finished leaves its port pending for release. */
  lemma RemoveKeeps(r: Range, st: State, account: string)
    requires Inv(r, st, {}) && account in st.workers && !Unfinished(st.children[st.workers[account].child])
    ensures Inv(r, Removed(st, account), {st.workers[account].port})
  {
    var st', w := Removed(st, account), st.workers[account];
    assert Registered(st, account);
    RemovedPorts(st.workers, account);
    forall a | a in st'.workers
      ensures Registered(st', a)
    {
      assert Registered(st, a);
    }
    forall c: nat | c < |st'.children| && Unfinished(st'.children[c])
      ensures Current(st', c)
    {
      assert Current(st, c);
    }
  }

  lemma RemovedPorts(m: map<string, Worker>, a: string)
    requires OneToOne(m) && a in m
    ensures PortsOf(m - {a}) == PortsOf(m) - {m[a].port}
  {
    forall p | p in PortsOf(m) && p != m[a].port
      ensures p in PortsOf(m - {a})
    {
      var b :| b in m && m[b].port == p;
      assert b in m - {a} && (m - {a})[b].port == p;
    }
  }

  // ----- Time passing -----

  ghost predicate ChildEvolves(c: Child, c': Child) {
    && c'.account == c.account && c'.port == c.port && c'.adopted == c.adopted
    && (c.exited ==> c'.exited) && (c.marked ==> c'.marked) && (c.done ==> c'.done)
  }

  /** What reapers and dying children can do: statuses and progress, never registrations or ports. */
  ghost predicate Evolves(st: State, st': State) {
    && SameWorkers(st.workers, st'.workers) && st'.taken == st.taken && |st'.children| == |st.children|
    && forall c: nat | c < |st.children| :: ChildEvolves(st.children[c], st'.children[c])
  }

  /** How far a child is from being finished. */
  function Remaining(c: Child): nat {
    (if c.exited then 0 else 1) + (if c.adopted || c.marked then 0 else 1) + (if c.adopted || c.done then 0 else 1)
  }

  lemma EvolvesRemaining(st: State, st': State, c: nat)
    requires Evolves(st, st') && c < |st.children|
    ensures c < |st'.children| && Remaining(st'.children[c]) <= Remaining(st.children[c])
  {
    assert ChildEvolves(st.children[c], st'.children[c]);
  }

  /** A stopping worker keeps its status until it is unregistered. */
  ghost predicate StoppingStays(m: map<string, Worker>, m': map<string, Worker>) {
    forall a | a in m && m[a].status == Stopping :: a in m' && m'[a].status == Stopping
  }

  lemma StoppingStaysSelf(m: map<string, Worker>)
    ensures StoppingStays(m, m)
  {
  }

  lemma StoppingStaysTwice(a: map<string, Worker>, b: map<string, Worker>, c: map<string, Worker>)
    requires StoppingStays(a, b) && StoppingStays(b, c)
    ensures StoppingStays(a, c)
  {
  }

  lemma StatusEvolves(st: State, account: string, status: Status)
    ensures Evolves(st, WithStatus(st, account, status))
  {
  }

  lemma FinishedStays(st: State, st': State, c: nat)
    requires Evolves(st, st') && c < |st.children| && !Unfinished(st.children[c])
    ensures c < |st'.children| && !Unfinished(st'.children[c])
  {
    assert ChildEvolves(st.children[c], st'.children[c]);
  }

  lemma EvolvesStep(a: State, b: State, c: State)
    requires Evolves(a, b) && Evolves(b, c)
    ensures Evolves(a, c)
  {
    forall i: nat | i < |a.children|
      ensures ChildEvolves(a.children[i], c.children[i])
    {
      assert ChildEvolves(a.children[i], b.children[i]) && ChildEvolves(b.children[i], c.children[i]);
    }
  }

  lemma EvolvesWorkers(st: State, st': State)
    requires Evolves(st, st')
    ensures SameWorkers(st.workers, st'.workers) && st'.taken == st.taken && |st'.children| == |st.children|
  {
  }

  lemma SameTwice(a: map<string, Worker>, b: map<string, Worker>, c: map<string, Worker>)
    requires SameWorkers(a, b) && SameWorkers(b, c)
    ensures SameWorkers(a, c)
  {
  }

  lemma SameWithout(a: map<string, Worker>, b: map<string, Worker>, account: string)
    requires SameWorkers(a, b)
    ensures SameWorkers(a - {account}, b - {account})
  {
  }

  lemma SameSelf(a: map<string, Worker>)
    ensures SameWorkers(a, a)
  {
  }

  lemma SameStatus(a: map<string, Worker>, account: string, status: Status)
    requires account in a
    ensures SameWorkers(a, a[account := a[account].(status := status)])
  {
  }

  /** Why public calls are serialized: a second spawn that registers over a live worker breaks the correspondence. */
  lemma RegisteringTwiceBreaks(r: Range, st: State, account: string, port: int)
    requires Inv(r, st, {port}) && account in st.workers && Unfinished(st.children[st.workers[account].child])
    ensures !Inv(r, Added(st, account, port, Starting, false), {})
  {
    var st' := Added(st, account, port, Starting, false);
    var c := st.workers[account].child;
    assert Registered(st, account);
    assert Unfinished(st'.children[c]) && !Current(st', c);
  }
}
