/**
 The worker supervisor. Its public calls are serialized; the reapers of its children and the marks of the health loop run
 in between, at every point where a call does not hold the lock, also while a port is taken but not yet registered or no
 longer registered but not yet released. Bind probes, process starts, readiness probes and contexts are parameters.
 */
module WorkerSupervisor {
  import opened Text
  import opened WorkerState

  datatype Error =
    | EmptyAccount | SupervisorClosed | AlreadyLive | Unknown | PortExhausted | PortReserved | InvalidRange
    | HomeFailed | StartFailed | NotReady | ProbeFailed | ContextDone

  datatype Result<T> = Ok(value: T) | Err(error: Error)

  /** What the environment does to one spawn. */
  datatype SpawnWorld = SpawnWorld(homeOk: bool, bindable: int -> bool, startOk: bool, readyOk: bool)

  class Supervisor {
    const range: Range
    var workers: map<string, Worker>
    var taken: set<int>
    var children: seq<Child>
    var closed: bool

    constructor (start: int, end: int)
      requires 0 < start <= end
      ensures Valid() && workers == map[] && taken == {} && !closed && range == Range(start, end)
    {
      range := Range(start, end);
      workers, taken, children, closed := map[], {}, [], false;
    }

    ghost function Now(): State
      reads this
    {
      State(workers, taken, children)
    }

    /** Between public calls no port is pending. */
    ghost predicate Valid()
      reads this
    {
      Inv(range, Now(), {})
    }

    // ----- Reapers -----

    /** One step of some child or its reaper, if it can take one. */
    method ReaperStep(c: nat, ghost pending: set<int>)
      requires Inv(range, Now(), pending) && c < |children|
      modifies this`workers, this`children
      ensures Inv(range, Now(), pending) && Evolves(old(Now()), Now())
      ensures StoppingStays(old(workers), workers)
      ensures c < |children| && (Unfinished(old(children[c])) ==> Remaining(children[c]) < Remaining(old(children[c])))
    {
      hide Inv;
      var x := children[c];
      if !x.exited {
        ExitKeeps(range, Now(), c, pending);
        children := children[c := x.(exited := true)];
      } else if !x.adopted && !x.marked {
        MarkKeeps(range, Now(), c, pending);
        MarkCrashed(x.account);
        children := children[c := x.(marked := true)];
      } else if !x.adopted && !x.done {
        CloseKeeps(range, Now(), c, pending);
        children := children[c := x.(done := true)];
      }
    }

    method MarkCrashed(account: string)
      modifies this`workers
      ensures workers == CrashedIn(old(workers), account)
    {
      if account in workers {
        if workers[account].status == Stopping {
          return;
        }
        workers := workers[account := workers[account].(status := Crashed)];
      }
    }

    /** The health loop's own mark, on whatever worker the account has at that time. */
    method HealthMark(account: string, ghost pending: set<int>)
      requires Inv(range, Now(), pending)
      modifies this`workers
      ensures Inv(range, Now(), pending) && Evolves(old(Now()), Now()) && StoppingStays(old(workers), workers)
    {
      hide Inv, Evolves;
      EvolvesSelf(Now());
      if account in workers && workers[account].status != Stopping {
        StatusKeeps(range, Now(), account, Crashed, pending);
        StatusEvolves(Now(), account, Crashed);
      }
      MarkCrashed(account);
    }

    /** The lock is free: children, reapers and the health loop take any number of steps in any order. */
    method Interleave(ghost pending: set<int>)
      requires Inv(range, Now(), pending)
      modifies this`workers, this`children
      ensures Inv(range, Now(), pending) && Evolves(old(Now()), Now()) && StoppingStays(old(workers), workers)
    {
      hide Inv, Evolves, StoppingStays;
      ghost var was := Now();
      EvolvesSelf(Now());
      StoppingStaysSelf(workers);
      var steps: int := *;
      while steps > 0
        invariant Inv(range, Now(), pending) && Evolves(was, Now()) && StoppingStays(was.workers, workers)
        decreases steps
      {
        ghost var before := Now();
        var c: int := *;
        if 0 <= c < |children| {
          ReaperStep(c, pending);
        } else {
          var account: string := *;
          HealthMark(account, pending);
        }
        EvolvesStep(was, before, Now());
        StoppingStaysTwice(was.workers, before.workers, workers);
        steps := steps - 1;
      }
    }

    static lemma EvolvesSelf(st: State)
      ensures Evolves(st, st)
    {
    }

    /** Blocks until the child has exited and its reaper, if it has one, has finished. */
    method AwaitExit(c: nat)
      requires Valid() && c < |children|
      modifies this`workers, this`children
      ensures Valid() && Evolves(old(Now()), Now()) && c < |children| && !Unfinished(children[c])
    {
      hide Inv, Evolves;
      ghost var was := Now();
      EvolvesSelf(Now());
      while Unfinished(children[c])
        invariant Valid() && Evolves(was, Now()) && c < |children|
        decreases Remaining(children[c])
      {
        ghost var before := Now();
        Interleave({});
        EvolvesRemaining(before, Now(), c);
        EvolvesStep(was, before, Now());
        if !Unfinished(children[c]) {
          break;
        }
        ghost var middle := Now();
        ReaperStep(c, {});
        EvolvesStep(was, middle, Now());
      }
    }

    // ----- The port pool -----

    method Reserve(port: int) returns (r: Result<int>)
      modifies this`taken
      ensures r.Ok? <==> range.start <= port <= range.end && port !in old(taken)
      ensures taken == if r.Ok? then old(taken) + {port} else old(taken)
      ensures r.Ok? ==> r.value == port
      ensures r.Err? ==> r.error == if range.start <= port <= range.end then PortReserved else InvalidRange
    {
      if port < range.start || port > range.end {
        return Err(InvalidRange);
      }
      if port in taken {
        return Err(PortReserved);
      }
      taken := taken + {port};
      return Ok(port);
    }

    /** The first free port that can be bound. */
    method Alloc(bindable: int -> bool) returns (r: Result<int>)
      modifies this`taken
      ensures r.Ok? ==> var p := r.value;
        && range.start <= p <= range.end && p !in old(taken) && bindable(p) && taken == old(taken) + {p}
        && forall q | range.start <= q < p :: q in old(taken) || !bindable(q)
      ensures r.Err? ==>
        r.error == PortExhausted && taken == old(taken) && forall q | range.start <= q <= range.end :: q in taken || !bindable(q)
    {
      var port := range.start;
      while port <= range.end
        invariant range.start <= port && taken == old(taken)
        invariant forall q | range.start <= q < port && q <= range.end :: q in taken || !bindable(q)
        decreases range.end - port
      {
        if port !in taken && bindable(port) {
          taken := taken + {port};
          return Ok(port);
        }
        port := port + 1;
      }
      return Err(PortExhausted);
    }

    method SelectPort(preferred: int, bindable: int -> bool) returns (r: Result<int>)
      modifies this`taken
      ensures r.Ok? ==>
        && range.start <= r.value <= range.end && r.value !in old(taken) && bindable(r.value) && taken == old(taken) + {r.value}
        && (r.value == preferred || forall p | range.start <= p < r.value :: p in old(taken) || !bindable(p))
      ensures r.Err? ==>
        taken == old(taken) && r.error == PortExhausted && forall p | range.start <= p <= range.end :: p in taken || !bindable(p)
      ensures r.Ok? && preferred > 0 && range.start <= preferred <= range.end && bindable(preferred) && preferred !in old(taken) ==>
                r.value == preferred
    {
      if preferred > 0 && preferred >= range.start && preferred <= range.end && bindable(preferred) {
        r := Reserve(preferred);
        if r.Ok? {
          return;
        }
      }
      r := Alloc(bindable);
    }

    /** Gives a pending port back; by then no child that may still run uses it. */
    method Release(port: int)
      requires Inv(range, Now(), {port})
      modifies this`taken
      ensures Valid() && taken == old(taken) - {port}
      ensures forall c: nat | c < |children| && children[c].port == port :: children[c].exited
    {
      hide Inv;
      ReleaseKeeps(range, Now(), port);
      taken := taken - {port};
    }

    // ----- Public calls -----

    method SetStatus(account: string, status: Status)
      requires Valid() && account in workers
      modifies this`workers
      ensures Valid() && SameWorkers(old(workers), workers) && account in workers && workers[account].status == status
    {
      hide Inv;
      StatusKeeps(range, Now(), account, status, {});
      workers := workers[account := workers[account].(status := status)];
    }

    /** Stops a worker and waits for its child and the child's reaper before its port is free again. If the context ends
        first, the worker stays registered and keeps its port. */
    method Stop(account: string, cancelled: bool) returns (r: Result<int>)
      requires Valid()
      modifies this`workers, this`taken, this`children
      ensures Valid()
      ensures account !in old(workers) ==> r == Err(Unknown)
      ensures account in old(workers) ==> r == if cancelled then Err(ContextDone) else Ok(old(workers)[account].port)
      ensures r.Ok? ==>
        && SameWorkers(old(workers) - {account}, workers) && taken == old(taken) - {r.value}
        && forall c: nat | c < |children| && children[c].port == r.value :: children[c].exited
      ensures r.Err? ==> SameWorkers(old(workers), workers) && taken == old(taken)
      ensures account in old(workers) && r.Err? ==> account in workers && workers[account].status == Stopping
      ensures |children| == |old(children)|
    {
      hide Inv, Evolves, SameWorkers;
      ghost var was := workers;
      Interleave({});
      EvolvesWorkers(old(Now()), Now());
      SameKeys(was, workers);
      if account !in workers {
        return Err(Unknown);
      }
      ghost var entered := workers;
      SetStatus(account, Stopping);
      SameTwice(was, entered, workers);
      SameFields(was, workers, account);
      var port, child := workers[account].port, workers[account].child;
      ghost var marked := Now();
      KnownChild(marked, account);
      Interleave({});
      EvolvesWorkers(marked, Now());
      SameTwice(was, marked.workers, workers);
      SameFields(was, workers, account);
      if cancelled {
        return Err(ContextDone);
      }
      ghost var waiting := Now();
      AwaitExit(child);
      EvolvesWorkers(waiting, Now());
      SameTwice(was, waiting.workers, workers);
      SameFields(was, workers, account);
      ghost var ended := workers;
      Unregister(account, child);
      SameWithout(was, ended, account);
      SameTwice(was - {account}, ended - {account}, workers);
      return Ok(port);
    }

    /** The end of a stop: the finished worker leaves the registry, and then its port is free again. */
    method Unregister(account: string, child: nat)
      requires Valid() && account in workers && workers[account].child == child
      requires child < |children| && !Unfinished(children[child])
      modifies this`workers, this`taken, this`children
      ensures Valid() && SameWorkers(old(workers) - {account}, workers) && taken == old(taken) - {old(workers)[account].port}
      ensures forall c: nat | c < |children| && children[c].port == old(workers)[account].port :: children[c].exited
      ensures |children| == |old(children)|
    {
      hide Inv, Evolves, SameWorkers, Unfinished;
      ghost var was := Now();
      Interleave({});
      EvolvesWorkers(was, Now());
      FinishedStays(was, Now(), child);
      SameFields(was.workers, workers, account);
      var port := workers[account].port;
      RemoveKeeps(range, Now(), account);
      SameWithout(was.workers, workers, account);
      workers := workers - {account};
      ghost var removed := Now();
      Interleave({port});
      EvolvesWorkers(removed, Now());
      SameTwice(was.workers - {account}, removed.workers, workers);
      Release(port);
    }

    static lemma SameFields(a: map<string, Worker>, b: map<string, Worker>, account: string)
      requires SameWorkers(a, b) && account in a
      ensures account in b && b[account].port == a[account].port && b[account].child == a[account].child
      ensures b[account].adopted == a[account].adopted
    {
    }

    lemma KnownChild(st: State, account: string)
      requires Inv(range, st, {}) && account in st.workers
      ensures st.workers[account].child < |st.children|
    {
      assert Registered(st, account);
    }

    /** Starts a worker on a free port and waits for it to become ready; every failure leaves the account unregistered and
        its port free. */
    method Spawn(account: string, preferred: int, w: SpawnWorld) returns (r: Result<int>)
      requires Valid()
      modifies this`workers, this`taken, this`children
      ensures Valid()
      ensures r.Ok? <==>
        && !Blank(account) && !closed && account !in old(workers) && w.homeOk && w.startOk && w.readyOk
        && exists p :: range.start <= p <= range.end && p !in old(taken) && w.bindable(p)
      ensures r.Err? ==>
        r.error ==
        if Blank(account) then EmptyAccount
        else if closed then SupervisorClosed
        else if account in old(workers) then AlreadyLive
        else if !w.homeOk then HomeFailed
        else if !(exists p :: range.start <= p <= range.end && p !in old(taken) && w.bindable(p)) then PortExhausted
        else if !w.startOk then StartFailed
        else NotReady
      ensures r.Ok? ==>
        && range.start <= r.value <= range.end && r.value !in old(taken) && w.bindable(r.value)
        && (preferred > 0 && range.start <= preferred <= range.end && preferred !in old(taken) && w.bindable(preferred) ==>
              r.value == preferred)
        && (r.value == preferred || forall p | range.start <= p < r.value :: p in old(taken) || !w.bindable(p))
      ensures r.Ok? ==>
        && account in workers && workers[account] == Worker(r.value, Ready, |old(children)|, false)
        && taken == old(taken) + {r.value} && SameWorkers(old(workers), workers - {account})
      ensures r.Err? ==> SameWorkers(old(workers), workers) && taken == old(taken)
    {
      hide Inv, Evolves, SameWorkers;
      Interleave({});
      EvolvesWorkers(old(Now()), Now());
      SameKeys(old(workers), workers);
      if Blank(account) {
        return Err(EmptyAccount);
      }
      if closed {
        return Err(SupervisorClosed);
      }
      if account in workers {
        return Err(AlreadyLive);
      }
      ghost var checked := Now();
      Interleave({});
      EvolvesWorkers(checked, Now());
      SameTwice(old(workers), checked.workers, workers);
      if !w.homeOk {
        return Err(HomeFailed);
      }
      SameKeys(old(workers), workers);
      ghost var before := Now();
      var selected := SelectPort(preferred, w.bindable);
      if selected.Err? {
        return Err(selected.error);
      }
      assert range.start <= selected.value <= range.end && selected.value !in old(taken) && w.bindable(selected.value);
      ReserveKeeps(range, before, selected.value);
      r := Launch(account, selected.value, w);
      if r.Ok? {
        SameTwice(old(workers), before.workers, workers - {account});
      } else {
        SameTwice(old(workers), before.workers, workers);
        assert taken == old(taken);
      }
    }

    /** Starts the child on the pending port. */
    method Launch(account: string, port: int, w: SpawnWorld) returns (r: Result<int>)
      requires Inv(range, Now(), {port}) && account !in workers
      modifies this`workers, this`taken, this`children
      ensures Valid()
      ensures r.Ok? <==> w.startOk && w.readyOk
      ensures r.Err? ==> r.error == if !w.startOk then StartFailed else NotReady
      ensures r.Ok? ==>
        && r.value == port && account in workers && workers[account] == Worker(port, Ready, |old(children)|, false)
        && taken == old(taken) && SameWorkers(old(workers), workers - {account})
      ensures r.Err? ==> SameWorkers(old(workers), workers) && taken == old(taken) - {port}
    {
      hide Inv, Evolves, SameWorkers;
      Interleave({port});
      EvolvesWorkers(old(Now()), Now());
      SameKeys(old(workers), workers);
      if !w.startOk {
        Release(port);
        return Err(StartFailed);
      }
      ghost var started := workers;
      Register(account, port, Starting, false);
      ghost var registered := workers;
      assert registered - {account} == started;
      r := AwaitReady(account, w.readyOk);
      if r.Ok? {
        SameWithout(registered, workers, account);
        SameTwice(old(workers), started, workers - {account});
      } else {
        SameTwice(old(workers), started, workers);
      }
    }

    static lemma SameKeys(a: map<string, Worker>, b: map<string, Worker>)
      requires SameWorkers(a, b)
      ensures a.Keys == b.Keys
    {
    }

    /** Enters a new child into the registry, on the pending port. */
    method Register(account: string, port: int, status: Status, adopted: bool)
      requires Inv(range, Now(), {port}) && account !in workers
      modifies this`workers, this`children
      ensures Valid() && workers == old(workers)[account := Worker(port, status, |old(children)|, adopted)]
    {
      hide Inv;
      AddKeeps(range, Now(), account, port, status, adopted);
      workers, children := workers[account := Worker(port, status, |children|, adopted)],
                           children + [Child(account, port, adopted, false, false, false)];
    }

    /** The readiness probe of a fresh worker, with the rollback if it fails. */
    method AwaitReady(account: string, readyOk: bool) returns (r: Result<int>)
      requires Valid() && account in workers
      modifies this`workers, this`taken, this`children
      ensures Valid() && (r.Ok? <==> readyOk) && (r.Err? ==> r.error == NotReady)
      ensures r.Ok? ==>
        && r.value == old(workers)[account].port && SameWorkers(old(workers), workers) && taken == old(taken)
        && account in workers && workers[account] == old(workers)[account].(status := Ready)
      ensures r.Err? ==> SameWorkers(old(workers) - {account}, workers) && taken == old(taken) - {old(workers)[account].port}
    {
      hide Inv, Evolves, SameWorkers;
      Interleave({});
      EvolvesWorkers(old(Now()), Now());
      SameFields(old(workers), workers, account);
      ghost var middle := workers;
      if !readyOk {
        SetStatus(account, StartTimeout);
        SameFields(middle, workers, account);
        SameTwice(old(workers), middle, workers);
        ghost var timedOut := workers;
        var stopped := Stop(account, false);
        SameWithout(old(workers), timedOut, account);
        SameTwice(old(workers) - {account}, timedOut - {account}, workers);
        return Err(NotReady);
      }
      SetStatus(account, Ready);
      SameTwice(old(workers), middle, workers);
      SameFields(old(workers), workers, account);
      return Ok(workers[account].port);
    }

    method Restart(account: string, cancelled: bool, w: SpawnWorld) returns (r: Result<int>)
      requires Valid()
      modifies this`workers, this`taken, this`children
      ensures Valid()
      ensures account in old(workers) && cancelled ==>
        r == Err(ContextDone) && SameWorkers(old(workers), workers) && taken == old(taken)
      ensures !(account in old(workers) && cancelled) ==>
        var free := if account in old(workers) then old(taken) - {old(workers)[account].port} else old(taken);
        && (r.Ok? <==>
              && !Blank(account) && !closed && w.homeOk && w.startOk && w.readyOk
              && exists p :: range.start <= p <= range.end && p !in free && w.bindable(p))
        && (r.Ok? ==>
              && account in workers && workers[account] == Worker(r.value, Ready, |old(children)|, false)
              && r.value !in free && taken == free + {r.value} && SameWorkers(old(workers) - {account}, workers - {account}))
        && (r.Err? ==> SameWorkers(old(workers) - {account}, workers) && taken == free)
    {
      hide Inv, Evolves, SameWorkers;
      var stopped := Stop(account, cancelled);
      if stopped.Err? && stopped.error != Unknown {
        return Err(stopped.error);
      }
      ghost var middle := workers;
      if account !in old(workers) {
        assert old(workers) - {account} == old(workers);
      }
      SameKeys(old(workers) - {account}, middle);
      assert account !in middle;
      r := Spawn(account, 0, w);
      if r.Err? {
        SameTwice(old(workers) - {account}, middle, workers);
      } else {
        SameTwice(old(workers) - {account}, middle, workers - {account});
      }
    }

    /** Takes over a live process of an earlier run on its recorded port; every failure gives the port back. */
    method TryAdopt(account: string, port: int, pid: int, alive: bool, readyOk: bool) returns (r: Result<bool>)
      requires Valid()
      modifies this`workers, this`taken, this`children
      ensures Valid()
      ensures r ==
        if port <= 0 || pid <= 0 || !alive then Ok(false)
        else if !readyOk then Err(ProbeFailed)
        else if !(range.start <= port <= range.end) then Err(InvalidRange)
        else if port in old(taken) then Err(PortReserved)
        else if closed then Err(SupervisorClosed)
        else if account in old(workers) then Err(AlreadyLive)
        else Ok(true)
      ensures r == Ok(true) ==>
        && account in workers && workers[account] == Worker(port, Ready, |old(children)|, true)
        && taken == old(taken) + {port} && SameWorkers(old(workers), workers - {account})
      ensures r != Ok(true) ==> SameWorkers(old(workers), workers) && taken == old(taken)
    {
      hide Inv, Evolves, SameWorkers;
      SameSelf(workers);
      if port <= 0 || pid <= 0 || !alive {
        return Ok(false);
      }
      Interleave({});
      EvolvesWorkers(old(Now()), Now());
      SameKeys(old(workers), workers);
      if !readyOk {
        return Err(ProbeFailed);
      }
      ghost var before := Now();
      var reserved := Reserve(port);
      if reserved.Err? {
        return Err(reserved.error);
      }
      ReserveKeeps(range, before, port);
      ghost var reservedAt := Now();
      Interleave({port});
      EvolvesWorkers(reservedAt, Now());
      SameTwice(old(workers), before.workers, workers);
      SameKeys(old(workers), workers);
      ghost var locked := workers;
      if closed {
        Release(port);
        assert taken == old(taken);
        return Err(SupervisorClosed);
      }
      if account in workers {
        Release(port);
        assert taken == old(taken);
        return Err(AlreadyLive);
      }
      Register(account, port, Ready, true);
      assert workers - {account} == locked;
      return Ok(true);
    }

    /** Stops every worker; one whose context ends keeps its registration and port. */
    method Shutdown(cancelled: string -> bool)
      requires Valid()
      modifies this
      ensures Valid() && closed
      ensures workers.Keys == set a | a in old(workers) && cancelled(a)
      ensures (forall a | a in old(workers) :: !cancelled(a)) ==> taken == {}
    {
      hide Inv, Evolves, SameWorkers;
      closed := true;
      var ids := workers.Keys;
      while ids != {}
        invariant Valid() && closed
        invariant workers.Keys == set a | a in old(workers) && (a in ids || cancelled(a))
        invariant ids <= old(workers).Keys
        decreases |ids|
      {
        var a :| a in ids;
        ids := ids - {a};
        ghost var was := workers;
        var stopped := Stop(a, cancelled(a));
        if stopped.Ok? {
          SameKeys(was - {a}, workers);
        } else {
          SameKeys(was, workers);
        }
      }
      if forall a | a in old(workers) :: !cancelled(a) {
        NothingTaken();
      }
    }

    lemma NothingTaken()
      requires Valid() && workers.Keys == {}
      ensures taken == {}
    {
    }
  }
}
