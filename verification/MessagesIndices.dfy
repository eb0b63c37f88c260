/**
 When the messages translator's index counting works. The counter is right exactly for streams without an index
 conflict; the conflicts are read off the upstream events alone.
 */
module MessagesIndices {
  import opened Text
  import opened ResponsesEvents
  import opened MessagesStream

  // ----- Conflicts, in terms of the upstream events -----

  /** Block indices that stand for an open item after `events`. */
  function OpenItems(events: seq<MsgEvent>): set<int> {
    if events == [] then {}
    else
      var before := OpenItems(events[..|events| - 1]);
      match events[|events| - 1]
      case BlockStart(i, b) => if IsItem(b) then before + {i} else if b.Thinking? then before - {i} else before
      case BlockStop(i) => before - {i}
      case Error(_) => {}
      case _ => before
  }

  /** The indices under which items were started, in order. */
  function ItemStarts(events: seq<MsgEvent>): seq<int> {
    if events == [] then []
    else
      var before := ItemStarts(events[..|events| - 1]);
      var last := events[|events| - 1];
      if last.BlockStart? && IsItem(last.block) then before + [last.index] else before
  }

  function Count(xs: seq<int>, x: int): nat {
    if xs == [] then 0 else Count(xs[..|xs| - 1], x) + (if xs[|xs| - 1] == x then 1 else 0)
  }

  /** After `events`, starting block `e` either takes the index of an open item, or opens an item while an open item
      sits on an index that was used before. */
  ghost predicate Conflict(events: seq<MsgEvent>, e: MsgEvent) {
    && e.BlockStart?
    && (|| ((IsItem(e.block) || e.block.Thinking?) && e.index in OpenItems(events))
        || (IsItem(e.block) && exists i :: i in OpenItems(events) && Count(ItemStarts(events), i) >= 2))
  }

  ghost predicate ConflictFree(events: seq<MsgEvent>) {
    forall n | 0 <= n < |events| :: !Conflict(events[..n], events[n])
  }

  // ----- Facts about every reachable state -----

  function ClosedCount(slots: seq<Slot>): nat {
    if slots == [] then 0 else ClosedCount(slots[..|slots| - 1]) + (if slots[|slots| - 1].closed then 1 else 0)
  }

  lemma {:induction false} ClosedCountSet(slots: seq<Slot>, k: nat, s: Slot)
    requires k < |slots| && !slots[k].closed && s.closed
    ensures ClosedCount(slots[k := s]) == ClosedCount(slots) + 1
  {
    var front := slots[..|slots| - 1];
    if k == |front| {
      assert slots[k := s][..|front|] == front;
    } else {
      assert slots[k := s][..|front|] == front[k := s];
      ClosedCountSet(front, k, s);
    }
  }

  lemma {:induction false} ClosedCountSame(a: seq<Slot>, b: seq<Slot>)
    requires |a| == |b| && forall k | 0 <= k < |a| :: a[k].closed == b[k].closed
    ensures ClosedCount(a) == ClosedCount(b)
  {
    if a != [] {
      ClosedCountSame(a[..|a| - 1], b[..|b| - 1]);
    }
  }

  lemma {:induction false} ClosedCountAll(slots: seq<Slot>)
    ensures ClosedCount(slots) <= |slots|
    ensures (forall k | 0 <= k < |slots| :: slots[k].closed) ==> ClosedCount(slots) == |slots|
  {
    if slots != [] {
      ClosedCountAll(slots[..|slots| - 1]);
    }
  }

  /** Started indices and slots run in parallel, directories point at the slot they opened, and the output list grows
      with every closed slot. */
  ghost predicate Basic(st: State) {
    && |st.order| == |st.slots|
    && (forall k | 0 <= k < |st.slots| :: st.order[k] == st.slots[k].block)
    && (forall i | i in st.blocks && st.blocks[i].Item? ::
          st.blocks[i].slot < |st.slots| && st.slots[st.blocks[i].slot].block == i)
    && |st.output| == ClosedCount(st.slots)
  }

  lemma BasicStart(st: State, i: int, b: Block)
    requires Basic(st)
    ensures Basic(OnStart(st, i, b))
  {
    if IsItem(b) {
      assert OnStart(st, i, b).slots[..|st.slots|] == st.slots;
    }
  }

  lemma BasicDelta(st: State, i: int, d: Delta)
    requires Basic(st)
    ensures Basic(OnDelta(st, i, d))
  {
    ClosedCountSame(st.slots, OnDelta(st, i, d).slots);
  }

  lemma BasicStop(st: State, i: int)
    requires Basic(st)
    ensures Basic(OnStop(st, i))
  {
    if Open(st, i) {
      var k := st.blocks[i].slot;
      ClosedCountSet(st.slots, k, st.slots[k].(closed := true));
    }
  }

  lemma {:induction false} BasicCloseAll(st: State, order: seq<int>)
    requires Basic(st)
    ensures Basic(CloseAll(st, order))
    ensures CloseAll(st, order).blocks == st.blocks && CloseAll(st, order).order == st.order
    ensures |CloseAll(st, order).slots| == |st.slots|
    ensures forall k | 0 <= k < |st.slots| ::
              CloseAll(st, order).slots[k] == st.slots[k] || CloseAll(st, order).slots[k] == st.slots[k].(closed := true)
    ensures forall i | i in order :: !Open(CloseAll(st, order), i)
  {
    if order != [] {
      var front, i := order[..|order| - 1], order[|order| - 1];
      BasicCloseAll(st, front);
      BasicStop(CloseAll(st, front), i);
      forall j | j in order
        ensures !Open(CloseAll(st, order), j)
      {
        assert j in front || j == i;
      }
    }
  }

  lemma BasicStep(st: State, responseId: string, e: MsgEvent)
    requires Basic(st)
    ensures Basic(Step(st, responseId, e))
  {
    hide Basic;
    match e
    case BlockStart(i, b) => BasicStart(st, i, b);
    case BlockDelta(i, d) => BasicDelta(st, i, d);
    case BlockStop(i) => BasicStop(st, i);
    case Error(detail) =>
      BasicCloseAll(st, st.order);
      BasicFields(Settle(st), Finish(st, responseId, Failed(detail)));
    case MessageDelta(reason) => BasicFields(st, Step(st, responseId, e));
    case MessageStart =>
    case Ignored =>
  }

  lemma BasicFields(st: State, r: State)
    requires Basic(st) && r.slots == st.slots && r.order == st.order && r.blocks == st.blocks && r.output == st.output
    ensures Basic(r)
  {
  }

  lemma {:induction false} ReachBasic(responseId: string, events: seq<MsgEvent>)
    ensures Basic(Reach(responseId, events))
  {
    hide Basic;
    if events == [] {
      BasicInit();
    } else {
      ReachBasic(responseId, events[..|events| - 1]);
      BasicStep(Reach(responseId, events[..|events| - 1]), responseId, events[|events| - 1]);
    }
  }

  lemma BasicInit()
    ensures Basic(Init)
  {
  }

  /** The open items and started indices of the machine are those of the events. */
  lemma {:induction false} ReachOpenItems(responseId: string, events: seq<MsgEvent>)
    ensures forall i :: i in OpenItems(events) <==> Open(Reach(responseId, events), i)
    ensures Reach(responseId, events).order == ItemStarts(events)
  {
    if events != [] {
      var front, e := events[..|events| - 1], events[|events| - 1];
      ReachOpenItems(responseId, front);
      ReachBasic(responseId, front);
      StepOpenItems(Reach(responseId, front), responseId, e, OpenItems(front));
    }
  }

  lemma SettleClosesAll(st: State)
    requires Basic(st)
    ensures forall j :: !Open(Settle(st), j)
  {
    BasicCloseAll(st, st.order);
    forall j
      ensures !Open(Settle(st), j)
    {
      if j in st.blocks && st.blocks[j].Item? {
        assert st.order[st.blocks[j].slot] == j;
        assert j in st.order;
      }
    }
  }

  lemma StepOpenItems(st: State, responseId: string, e: MsgEvent, open: set<int>)
    requires Basic(st)
    requires forall i :: i in open <==> Open(st, i)
    ensures var r := Step(st, responseId, e);
      match e
      case BlockStart(i, b) =>
        && (forall j :: Open(r, j) <==> if IsItem(b) then j in open + {i} else if b.Thinking? then j in open - {i} else j in open)
        && r.order == if IsItem(b) then st.order + [i] else st.order
      case BlockStop(i) => (forall j :: Open(r, j) <==> j in open - {i}) && r.order == st.order
      case Error(_) => (forall j :: !Open(r, j)) && r.order == st.order
      case _ => (forall j :: Open(r, j) <==> j in open) && r.order == st.order
  {
    if e.Error? {
      BasicCloseAll(st, st.order);
      SettleClosesAll(st);
      assert forall j :: Open(Step(st, responseId, e), j) <==> Open(Settle(st), j);
    }
  }

  // ----- Lost items -----

  /** Every open item can still be reached through its block index. */
  ghost predicate NoneLost(st: State) {
    forall k | 0 <= k < |st.slots| && !st.slots[k].closed ::
      st.slots[k].block in st.blocks && st.blocks[st.slots[k].block] == Item(k)
  }

  ghost predicate Lost(st: State, k: nat) {
    && k < |st.slots| && !st.slots[k].closed
    && !(st.slots[k].block in st.blocks && st.blocks[st.slots[k].block] == Item(k))
  }

  lemma StopKeepsLost(st: State, i: int, k: nat)
    requires Basic(st) && Lost(st, k)
    ensures Lost(OnStop(st, i), k)
  {
  }

  lemma {:induction false} CloseAllKeepsLost(st: State, order: seq<int>, k: nat)
    requires Basic(st) && Lost(st, k)
    ensures Lost(CloseAll(st, order), k)
  {
    if order != [] {
      var front := order[..|order| - 1];
      CloseAllKeepsLost(st, front, k);
      BasicCloseAll(st, front);
      StopKeepsLost(CloseAll(st, front), order[|order| - 1], k);
    }
  }

  lemma StepKeepsLost(st: State, responseId: string, e: MsgEvent, k: nat)
    requires Basic(st) && Lost(st, k)
    ensures Lost(Step(st, responseId, e), k)
  {
    if e.Error? {
      CloseAllKeepsLost(st, st.order, k);
      assert Step(st, responseId, e).slots == Settle(st).slots && Step(st, responseId, e).blocks == Settle(st).blocks;
    }
  }

  lemma {:induction false} LostStays(responseId: string, events: seq<MsgEvent>, n: nat, k: nat)
    requires n <= |events| && Lost(Reach(responseId, events[..n]), k)
    ensures Lost(Reach(responseId, events), k)
    decreases |events| - n
  {
    if n == |events| {
      assert events[..n] == events;
    } else {
      assert events[..n + 1][..n] == events[..n];
      ReachBasic(responseId, events[..n]);
      StepKeepsLost(Reach(responseId, events[..n]), responseId, events[n], k);
      LostStays(responseId, events, n + 1, k);
    }
  }

  // ----- What the counter returns -----

  /** Position `p` of the started indices is counted for an item that is already closed. */
  ghost predicate CountedTwice(st: State, p: nat)
    requires Basic(st) && p < |st.order|
  {
    Open(st, st.order[p]) && st.slots[p].closed
  }

  lemma {:induction false} LiveAtLeast(st: State, n: nat, p: nat)
    requires Basic(st) && NoneLost(st) && n <= |st.order|
    ensures LiveCount(st, n) + ClosedCount(st.slots[..n]) >= n
    ensures p < n && CountedTwice(st, p) ==> LiveCount(st, n) + ClosedCount(st.slots[..n]) > n
  {
    if n > 0 {
      LiveAtLeast(st, n - 1, p);
      assert st.slots[..n][..n - 1] == st.slots[..n - 1];
      assert st.order[n - 1] == st.slots[n - 1].block;
    }
  }

  lemma {:induction false} LiveExactly(st: State, n: nat)
    requires Basic(st) && NoneLost(st) && n <= |st.order|
    requires forall p | 0 <= p < n :: !CountedTwice(st, p)
    ensures LiveCount(st, n) + ClosedCount(st.slots[..n]) == n
  {
    if n > 0 {
      LiveExactly(st, n - 1);
      assert !CountedTwice(st, n - 1);
      assert st.slots[..n][..n - 1] == st.slots[..n - 1];
      assert st.order[n - 1] == st.slots[n - 1].block;
    }
  }

  lemma {:induction false} CountPosition(xs: seq<int>, x: int, p: nat)
    requires p < |xs| && xs[p] == x
    ensures Count(xs, x) >= 1
  {
    if p < |xs| - 1 {
      CountPosition(xs[..|xs| - 1], x, p);
    }
  }

  lemma {:induction false} CountTwo(xs: seq<int>, x: int, p: nat, q: nat)
    requires p < q < |xs| && xs[p] == x && xs[q] == x
    ensures Count(xs, x) >= 2
  {
    var front := xs[..|xs| - 1];
    if q < |xs| - 1 {
      CountTwo(front, x, p, q);
    } else {
      CountPosition(front, x, p);
    }
  }

  /** A second position of a value that occurs twice. */
  lemma {:induction false} OtherPosition(xs: seq<int>, x: int, k: nat) returns (p: nat)
    requires k < |xs| && xs[k] == x && Count(xs, x) >= 2
    ensures p < |xs| && p != k && xs[p] == x
  {
    var n := |xs| - 1;
    if k == n {
      p := SomePosition(xs[..n], x);
    } else if xs[n] == x {
      p := n;
    } else {
      p := OtherPosition(xs[..n], x, k);
    }
  }

  lemma {:induction false} SomePosition(xs: seq<int>, x: int) returns (p: nat)
    requires Count(xs, x) >= 1
    ensures p < |xs| && xs[p] == x
  {
    var n := |xs| - 1;
    if xs[n] == x {
      p := n;
    } else {
      p := SomePosition(xs[..n], x);
    }
  }

  /** While no item is lost the counter never falls short, and it is exact unless an open item sits on an index that
      was used before. */
  lemma CounterIsExact(st: State)
    requires Basic(st) && NoneLost(st)
    ensures NextIndex(st) >= |st.slots|
    ensures NextIndex(st) == |st.slots| <==> forall i | Open(st, i) :: Count(st.order, i) < 2
  {
    var n := |st.slots|;
    assert st.slots[..n] == st.slots;
    LiveAtLeast(st, n, 0);
    if i :| Open(st, i) && Count(st.order, i) >= 2 {
      var k := st.blocks[i].slot;
      var p := OtherPosition(st.order, i, k);
      assert st.slots[p].block == i && st.slots[p].closed;
      LiveAtLeast(st, n, p);
    } else {
      forall p | 0 <= p < n
        ensures !CountedTwice(st, p)
      {
        if CountedTwice(st, p) {
          var i := st.order[p];
          var k := st.blocks[i].slot;
          CountTwo(st.order, i, if p < k then p else k, if p < k then k else p);
          assert false;
        }
      }
      LiveExactly(st, n);
    }
  }
}
