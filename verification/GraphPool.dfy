/** The graph pool (src/inference/threadpool.rs): the main thread publishes a work function and its data,
    bumps a packed, wrapping counter under the mutex and notifies; workers poll, then sleep on the
    condition variable; everyone runs the work, which meets at the spin barrier. One shared-memory
    operation a step, any interleaving, spurious wake-ups included. Thread 0 is the main thread. */
module GraphPool {
  import B = SpinBarrier

  /** A work function and its data pointer. */
  type Work = (int, int)

  const SPIN_POLL_ROUNDS: nat := 131_072
  const COUNTER_UNIT: int := 0x1_0000
  const NO_HOLDER: int := -1

  datatype Pc =
    // main thread
    | StoreFn | StoreData | Kickoff | Load | StoreCounter(seen: int) | Notify | Release
    // workers
    | Poll(left: nat)          // spin-polling, `left` rounds to go
    | WantLock
    | Check                    // holds the mutex, about to read the counter
    | Sleepy                   // holds the mutex, about to wait on the condition variable
    | Asleep
    | Relock                   // woken, about to take the mutex again
    | Unlock(pending: bool)
    | ReadFn
    | ReadData(fn: int)
    // both
    | Run(work: Work, waits: nat)   // running, `waits` barrier waits completed

  datatype State = State(
    b: B.State,
    fn: int, data: int,        // work_fn, work_data
    counter: int,              // n_graph
    lock: int,                 // who holds the mutex
    pc: seq<Pc>,
    last: seq<int>,            // last_graph of each worker
    ran: seq<seq<Work>>,       // history: what each thread has started
    sent: nat)                 // history: counter bumps so far

  // ---------- the packed counter ----------

  function Wrap32(x: int): (r: int)
    ensures -0x8000_0000 <= r < 0x8000_0000 && (r - x) % 0x1_0000_0000 == 0
  {
    (x + 0x8000_0000) % 0x1_0000_0000 - 0x8000_0000
  }

  /** The new counter: arithmetic shift right, plus one, shift left in 32 bits, thread count below. */
  function Bump(prev: int, n: nat): int {
    Wrap32((prev / COUNTER_UNIT + 1) * COUNTER_UNIT) + n % COUNTER_UNIT
  }

  /** The counter after k dispatches. */
  function Packed(k: nat, n: nat): (c: int)
    ensures -0x8000_0000 <= c < 0x8000_0000
    ensures k > 0 ==> c % COUNTER_UNIT == n % COUNTER_UNIT
  {
    if k == 0 then 0 else (BumpOk(Packed(k - 1, n), n); Bump(Packed(k - 1, n), n))
  }

  /** Although the counter wraps, one dispatch always changes it, and it keeps the thread count. */
  lemma BumpOk(prev: int, n: nat)
    requires -0x8000_0000 <= prev < 0x8000_0000
    ensures -0x8000_0000 <= Bump(prev, n) < 0x8000_0000
    ensures Bump(prev, n) != prev && Bump(prev, n) % COUNTER_UNIT == n % COUNTER_UNIT
  {
    var h := prev / COUNTER_UNIT + 1;
    assert -0x7FFF <= h <= 0x8000;
    assert Wrap32(h * COUNTER_UNIT) == if h == 0x8000 then -0x8000_0000 else h * COUNTER_UNIT;
  }

  /** Its upper half counts dispatches, from 0x7FFF on again from -0x8000; its lower half is the thread count. */
  lemma BumpCounts(prev: int, n: nat)
    requires -0x8000_0000 <= prev < 0x8000_0000
    ensures Bump(prev, n) / 0x1_0000 == if prev / 0x1_0000 == 0x7FFF then -0x8000 else prev / 0x1_0000 + 1
    ensures n < 0x1_0000 ==> Bump(prev, n) % 0x1_0000 == n
  {
    var h := prev / COUNTER_UNIT + 1;
    assert -0x7FFF <= h <= 0x8000;
    assert Wrap32(h * COUNTER_UNIT) == if h == 0x8000 then -0x8000_0000 else h * COUNTER_UNIT;
  }

  // ---------- steps ----------

  predicate IsMain(p: Pc) {
    p.StoreFn? || p.StoreData? || p.Kickoff? || p.Load? || p.StoreCounter? || p.Notify? || p.Release?
  }

  predicate Holds(p: Pc) {
    p.Load? || p.StoreCounter? || p.Notify? || p.Release? || p.Check? || p.Sleepy? || p.Unlock?
  }

  ghost predicate Sized(graphs: seq<Work>, s: State) {
    && B.Reachable(s.b) && B.Sized(s.b) && |s.pc| == |s.last| == |s.ran| == |s.b.pc| < COUNTER_UNIT
    && |s.ran[0]| <= |graphs|
    && (forall i: nat :: i < |s.pc| ==> i == 0 || !IsMain(s.pc[i]))
    && (s.pc[0].StoreData? || s.pc[0].Release? ==> |s.ran[0]| < |graphs|)
  }

  function Init(n: nat, fn: int, data: int): State {
    State(B.Init(n), fn, data, 0, NO_HOLDER, seq(n, i => if i == 0 then StoreFn else Poll(SPIN_POLL_ROUNDS)),
          seq(n, _ => 0), seq(n, _ => []), 0)
  }

  function At(s: State, i: nat, p: Pc): State
    requires i < |s.pc|
  {
    s.(pc := s.pc[i := p])
  }

  /** A worker compares the counter with the last one it saw. */
  function Seen(s: State, i: nat, found: bool -> Pc, same: Pc): State
    requires i < |s.pc| == |s.last|
  {
    if s.counter == s.last[i] then At(s, i, same)
    else At(s, i, found(i < s.counter % COUNTER_UNIT)).(last := s.last[i := s.counter])
  }

  function AfterPoll(pending: bool): Pc {
    if pending then ReadFn else WantLock
  }

  function NotifyAll(pc: seq<Pc>): (r: seq<Pc>)
    ensures |r| == |pc| && forall j :: 0 <= j < |pc| ==> r[j] == if pc[j].Asleep? then Relock else pc[j]
  {
    seq(|pc|, j requires 0 <= j < |pc| => if pc[j].Asleep? then Relock else pc[j])
  }

  function Start(s: State, i: nat, w: Work): State
    requires i < |s.pc| == |s.ran|
  {
    At(s, i, Run(w, 0)).(ran := s.ran[i := s.ran[i] + [w]])
  }

  /** Acquire the mutex and go on at p, or stay blocked. */
  function Acquire(s: State, i: nat, p: Pc): State
    requires i < |s.pc|
  {
    if s.lock == NO_HOLDER then At(s, i, p).(lock := i) else s
  }

  /** The running thread makes one step inside the barrier; `waits` counts the ones it has completed. */
  ghost function WaitStep(s: State, i: nat): State
    requires B.Reachable(s.b) && B.Sized(s.b) && i < |s.pc| == |s.b.pc| && s.pc[i].Run?
  {
    B.ReachStep(s.b, i);
    var b := B.Step(s.b, i);
    At(s, i, s.pc[i].(waits := s.pc[i].waits + if b.returned[i] == s.b.returned[i] then 0 else 1)).(b := b)
  }

  /** How often the graph a thread is in waits at the barrier, `ran` being what it has started. It goes by
      the graph's position, so that one function and data pointer may wait differently each time. */
  function Due(cost: nat -> nat, ran: seq<Work>): nat {
    if ran == [] then 0 else cost(|ran| - 1)
  }

  /** One step of thread i. `cost` is how often each dispatched graph waits at the barrier. */
  ghost function Step(graphs: seq<Work>, cost: nat -> nat, s: State, i: nat): State
    requires Sized(graphs, s) && i < |s.pc|
  {
    var g := |s.ran[0]|;
    match s.pc[i]
    case StoreFn => if g < |graphs| then At(s, i, StoreData).(fn := graphs[g].0) else s
    case StoreData => At(s, i, Kickoff).(data := graphs[g].1)
    case Kickoff => Acquire(s, i, Load)
    case Load => At(s, i, StoreCounter(s.counter))
    case StoreCounter(seen) => At(s, i, Notify).(counter := Bump(seen, |s.pc|), sent := s.sent + 1)
    case Notify => s.(pc := NotifyAll(s.pc)[i := Release])
    case Release => Start(s.(lock := NO_HOLDER), i, graphs[g])
    case Poll(left) => if left == 0 then At(s, i, WantLock) else Seen(s, i, AfterPoll, Poll(left - 1))
    case WantLock => Acquire(s, i, Check)
    case Check => Seen(s, i, pending => Unlock(pending), Sleepy)
    case Sleepy => At(s, i, Asleep).(lock := NO_HOLDER)
    case Asleep => At(s, i, Relock)
    case Relock => Acquire(s, i, Check)
    case Unlock(pending) => At(s, i, if pending then ReadFn else Poll(SPIN_POLL_ROUNDS)).(lock := NO_HOLDER)
    case ReadFn => At(s, i, ReadData(s.fn))
    case ReadData(fn) => Start(s, i, (fn, s.data))
    case Run(work, waits) =>
      if s.b.pc[i] != B.Outside || waits < Due(cost, s.ran[i]) then WaitStep(s, i)
      else At(s, i, if i == 0 then StoreFn else Poll(SPIN_POLL_ROUNDS))
  }

  // ---------- invariant ----------

  /** Barrier waits in the first k graphs. */
  function Waits(k: nat, cost: nat -> nat): nat {
    if k == 0 then 0 else Waits(k - 1, cost) + cost(k - 1)
  }

  /** Once the counter is bumped, and until the main thread finishes the graph, a worker may not have
      started it yet. */
  predicate Lagging(p: Pc) {
    p.Notify? || p.Release? || p.Run?
  }

  predicate MainOk(graphs: seq<Work>, s: State)
    requires 0 < |s.pc| && |s.ran| == |s.pc|
  {
    var p, g := s.pc[0], |s.ran[0]|;
    && g <= |graphs| && s.sent <= |graphs| && s.counter == Packed(s.sent, |s.pc|)
    && match p
       case StoreFn => s.sent == g
       case StoreData => s.sent == g < |graphs| && s.fn == graphs[g].0
       case Kickoff => s.sent == g < |graphs| && (s.fn, s.data) == graphs[g]
       case Load => s.sent == g < |graphs| && (s.fn, s.data) == graphs[g]
       case StoreCounter(seen) => s.sent == g < |graphs| && (s.fn, s.data) == graphs[g] && seen == s.counter
       case Notify => s.sent == g + 1 && (s.fn, s.data) == graphs[g]
       case Release => s.sent == g + 1 && (s.fn, s.data) == graphs[g]
       case Run(_, _) => s.sent == g > 0 && (s.fn, s.data) == graphs[g - 1]
       case _ => false
  }

  /** Where a worker that has started `ran` graphs stands. */
  predicate WorkerOk(graphs: seq<Work>, n: nat, sent: nat, main: Pc, p: Pc, last: int, ran: nat) {
    && (ran == sent || (Lagging(main) && ran + 1 == sent <= |graphs|))
    && match p
       case Unlock(pending) => pending && ran + 1 == sent && last == Packed(sent, n)
       case ReadFn => ran + 1 == sent && last == Packed(sent, n)
       case ReadData(fn) => ran + 1 == sent <= |graphs| && last == Packed(sent, n) && fn == graphs[ran].0
       case Sleepy => last == Packed(ran, n) && ran == sent
       case Asleep => last == Packed(ran, n) && (ran == sent || main.Notify?)
       case _ => last == Packed(ran, n) && !IsMain(p)
  }

  /** What a thread has started is a prefix of the graphs, and its completed waits are theirs. */
  ghost predicate HistoryOk(graphs: seq<Work>, cost: nat -> nat, p: Pc, ran: seq<Work>, out: bool, returned: nat) {
    && ran <= graphs
    && match p
       case Run(work, waits) =>
         && ran != [] && work == ran[|ran| - 1]
         && waits <= Due(cost, ran) && (!out ==> waits < Due(cost, ran))
         && returned + Due(cost, ran) == Waits(|ran|, cost) + waits
       case _ => out && returned == Waits(|ran|, cost)
  }

  ghost predicate LockOk(s: State) {
    && (s.lock == NO_HOLDER || 0 <= s.lock < |s.pc|)
    && forall i: nat :: i < |s.pc| ==> (Holds(s.pc[i]) <==> s.lock == i)
  }

  ghost predicate ThreadOk(graphs: seq<Work>, cost: nat -> nat, s: State, i: nat)
    requires Sized(graphs, s) && i < |s.pc|
  {
    && (i > 0 ==> WorkerOk(graphs, |s.pc|, s.sent, s.pc[0], s.pc[i], s.last[i], |s.ran[i]|))
    && HistoryOk(graphs, cost, s.pc[i], s.ran[i], s.b.pc[i] == B.Outside, s.b.returned[i])
  }

  ghost predicate ThreadsOk(graphs: seq<Work>, cost: nat -> nat, s: State)
    requires Sized(graphs, s)
  {
    forall i: nat :: i < |s.pc| ==> ThreadOk(graphs, cost, s, i)
  }

  ghost predicate Inv(graphs: seq<Work>, cost: nat -> nat, s: State) {
    Sized(graphs, s) && MainOk(graphs, s) && LockOk(s) && ThreadsOk(graphs, cost, s)
  }

  /** Every graph waits at the barrier at least once. */
  ghost predicate AllWait(graphs: seq<Work>, cost: nat -> nat) {
    forall g: nat :: g < |graphs| ==> cost(g) >= 1
  }

  lemma InitInv(graphs: seq<Work>, cost: nat -> nat, n: nat, fn: int, data: int)
    requires 1 < n < COUNTER_UNIT
    ensures Inv(graphs, cost, Init(n, fn, data)) && |Init(n, fn, data).pc| == n
  {
    B.ReachInit(n);
    var s := Init(n, fn, data);
    forall i: nat | i < n
      ensures ThreadOk(graphs, cost, s, i)
    {
      assert s.ran[i] == graphs[..0];
    }
  }

  // ---------- everyone has started the graph the main thread finishes ----------

  /** A thread has entered no more waits than the graphs it has started contain. */
  lemma Entered(graphs: seq<Work>, cost: nat -> nat, s: State, j: nat)
    requires Sized(graphs, s) && j < |s.pc| && ThreadOk(graphs, cost, s, j)
    ensures s.b.arrived[j] <= Waits(|s.ran[j]|, cost)
  {
    B.ReachThread(s.b, j);
    hide B.CountOk, B.WakePending, Packed;
  }

  /** The main thread has done all its waits for the graph, so every worker has entered one of them,
      so every worker has read this graph's work. */
  lemma CaughtUp(graphs: seq<Work>, cost: nat -> nat, s: State, j: nat)
    requires Inv(graphs, cost, s) && AllWait(graphs, cost) && 0 < j < |s.pc|
    requires s.pc[0].Run? && s.b.pc[0] == B.Outside && s.pc[0].waits >= Due(cost, s.ran[0])
    ensures |s.ran[j]| == s.sent
  {
    MainWaited(graphs, cost, s);
    assert |s.ran[j]| == s.sent || |s.ran[j]| + 1 == s.sent by {
      assert ThreadOk(graphs, cost, s, j);
      hide B.Reachable, HistoryOk, LockOk, Packed;
    }
    hide *;
    B.ReachInv(s.b);
    B.Separation(s.b, 0, j);
    EachThread(graphs, cost, s, j);
    Entered(graphs, cost, s, j);
  }

  /** The main thread's completed waits exceed those of the graphs before this one. */
  lemma MainWaited(graphs: seq<Work>, cost: nat -> nat, s: State)
    requires Inv(graphs, cost, s) && AllWait(graphs, cost)
    requires s.pc[0].Run? && s.b.pc[0] == B.Outside && s.pc[0].waits >= Due(cost, s.ran[0])
    ensures Sized(graphs, s) && 0 < s.sent && B.Reachable(s.b) && B.Sized(s.b)
    ensures s.b.returned[0] > Waits(s.sent - 1, cost)
  {
    assert ThreadOk(graphs, cost, s, 0);
    assert cost(s.sent - 1) >= 1 && Waits(s.sent, cost) == Waits(s.sent - 1, cost) + cost(s.sent - 1);
    hide B.Reachable, Packed, Waits, LockOk;
  }

  // ---------- steps of the main thread ----------

  /** Publishing the work and taking the mutex: no worker is behind, and nothing a worker relies on changes. */
  lemma MainQuiet(graphs: seq<Work>, cost: nat -> nat, s: State, fn: int, data: int, lock: int, p: Pc)
    requires Inv(graphs, cost, s) && !Lagging(s.pc[0]) && IsMain(p) && !Lagging(p)
    requires MainOk(graphs, At(s, 0, p).(fn := fn, data := data, lock := lock))
    requires LockOk(At(s, 0, p).(fn := fn, data := data, lock := lock))
    ensures Inv(graphs, cost, At(s, 0, p).(fn := fn, data := data, lock := lock))
  {
    var s' := At(s, 0, p).(fn := fn, data := data, lock := lock);
    assert Sized(graphs, s');
    hide B.Reachable, Packed, LockOk, Waits, MainOk;
    assert ThreadOk(graphs, cost, s, 0);
    forall j: nat | j < |s.pc|
      ensures ThreadOk(graphs, cost, s', j)
    {
      assert ThreadOk(graphs, cost, s, j);
    }
  }

  lemma StoreCounterInv(graphs: seq<Work>, cost: nat -> nat, s: State)
    requires Inv(graphs, cost, s) && s.pc[0].StoreCounter?
    ensures Inv(graphs, cost, Step(graphs, cost, s, 0))
  {
    var s' := Step(graphs, cost, s, 0);
    assert s'.counter == Packed(s'.sent, |s.pc|);
    hide B.Reachable, Packed, Waits;
    forall j: nat | j < |s.pc|
      ensures ThreadOk(graphs, cost, s', j)
    {
      assert ThreadOk(graphs, cost, s, j);
      assert Holds(s.pc[j]) <==> s.lock == j;
      assert Holds(s.pc[0]);
    }
  }

  lemma NotifyInv(graphs: seq<Work>, cost: nat -> nat, s: State)
    requires Inv(graphs, cost, s) && s.pc[0].Notify?
    ensures Inv(graphs, cost, Step(graphs, cost, s, 0))
  {
    var s' := Step(graphs, cost, s, 0);
    hide B.Reachable, Packed, Waits, NotifyAll;
    forall j: nat | j < |s.pc|
      ensures ThreadOk(graphs, cost, s', j)
    {
      assert ThreadOk(graphs, cost, s, j);
      assert Holds(s.pc[j]) <==> s.lock == j;
    }
  }

  /** HistoryOk after starting one more graph. */
  lemma Started(graphs: seq<Work>, cost: nat -> nat, p: Pc, ran: seq<Work>, returned: nat, w: Work)
    requires HistoryOk(graphs, cost, p, ran, true, returned) && !p.Run?
    requires |ran| < |graphs| && w == graphs[|ran|]
    ensures HistoryOk(graphs, cost, Run(w, 0), ran + [w], true, returned)
  {
    assert Waits(|ran| + 1, cost) == Waits(|ran|, cost) + cost(|ran|);
    assert ran + [w] <= graphs;
    hide Waits;
  }

  lemma ReleaseInv(graphs: seq<Work>, cost: nat -> nat, s: State)
    requires Inv(graphs, cost, s) && s.pc[0].Release?
    ensures Inv(graphs, cost, Step(graphs, cost, s, 0))
  {
    var s' := Step(graphs, cost, s, 0);
    assert ThreadOk(graphs, cost, s, 0);
    Started(graphs, cost, s.pc[0], s.ran[0], s.b.returned[0], graphs[|s.ran[0]|]);
    hide B.Reachable, Packed, Waits, HistoryOk;
    forall j: nat | j < |s.pc|
      ensures ThreadOk(graphs, cost, s', j)
    {
      assert ThreadOk(graphs, cost, s, j);
      assert Holds(s.pc[j]) <==> s.lock == j;
    }
  }

  lemma FinishMainInv(graphs: seq<Work>, cost: nat -> nat, s: State)
    requires Inv(graphs, cost, s) && AllWait(graphs, cost)
    requires s.pc[0].Run? && s.b.pc[0] == B.Outside && s.pc[0].waits >= Due(cost, s.ran[0])
    ensures Inv(graphs, cost, Step(graphs, cost, s, 0))
  {
    var s' := Step(graphs, cost, s, 0);
    forall j: nat | 0 < j < |s.pc|
      ensures |s.ran[j]| == s.sent
    {
      CaughtUp(graphs, cost, s, j);
    }
    assert ThreadOk(graphs, cost, s, 0);
    hide B.Reachable, Packed, AllWait;
    forall j: nat | j < |s.pc|
      ensures ThreadOk(graphs, cost, s', j)
    {
      assert ThreadOk(graphs, cost, s, j);
      assert Holds(s.pc[j]) <==> s.lock == j;
    }
  }

  // ---------- steps of a worker ----------

  /** A worker changes its program counter, the last counter it saw, and perhaps the mutex. */
  lemma WorkerMove(graphs: seq<Work>, cost: nat -> nat, s: State, s': State, i: nat)
    requires Inv(graphs, cost, s) && 0 < i < |s.pc| == |s'.pc| == |s'.last|
    requires s' == s.(pc := s.pc[i := s'.pc[i]], last := s.last[i := s'.last[i]], lock := s'.lock)
    requires !IsMain(s'.pc[i]) && !s.pc[i].Run? && !s'.pc[i].Run? && LockOk(s')
    requires WorkerOk(graphs, |s.pc|, s.sent, s.pc[0], s'.pc[i], s'.last[i], |s.ran[i]|)
    ensures Inv(graphs, cost, s')
  {
    hide B.Reachable, Packed, LockOk, Waits, WorkerOk;
    assert ThreadOk(graphs, cost, s, i);
    forall j: nat | j < |s.pc|
      ensures ThreadOk(graphs, cost, s', j)
    {
      assert ThreadOk(graphs, cost, s, j);
    }
  }

  /** The worker compares counters: equal exactly if it has started every graph dispatched so far. */
  lemma SeenIsNew(graphs: seq<Work>, cost: nat -> nat, s: State, i: nat)
    requires Inv(graphs, cost, s) && 0 < i < |s.pc| && (s.pc[i].Poll? || s.pc[i].Check?)
    ensures s.counter == s.last[i] <==> |s.ran[i]| == s.sent
    ensures s.counter != s.last[i] ==> |s.ran[i]| + 1 == s.sent && i < s.counter % COUNTER_UNIT
  {
    assert ThreadOk(graphs, cost, s, i);
    if |s.ran[i]| + 1 == s.sent {
      BumpOk(Packed(s.sent - 1, |s.pc|), |s.pc|);
    }
    hide B.Reachable, Bump, HistoryOk, Waits;
  }

  /** What a worker's step must establish for itself. */
  ghost predicate WorkerStepOk(graphs: seq<Work>, s: State, s': State, i: nat)
    requires i < |s.pc| == |s.last| == |s.ran|
  {
    && |s'.pc| == |s.pc| == |s'.last| && !s'.pc[i].Run?
    && s' == s.(pc := s.pc[i := s'.pc[i]], last := s.last[i := s'.last[i]], lock := s'.lock)
    && WorkerOk(graphs, |s.pc|, s.sent, s.pc[0], s'.pc[i], s'.last[i], |s.ran[i]|)
  }

  lemma LookTarget(graphs: seq<Work>, cost: nat -> nat, s: State, i: nat)
    requires Inv(graphs, cost, s) && 0 < i < |s.pc| && (s.pc[i].Poll? || s.pc[i].Check?)
    ensures WorkerStepOk(graphs, s, Step(graphs, cost, s, i), i)
  {
    assert ThreadOk(graphs, cost, s, i);
    SeenIsNew(graphs, cost, s, i);
    hide B.Reachable, Packed, Waits, HistoryOk, ThreadsOk, LockOk;
  }

  lemma LockTarget(graphs: seq<Work>, cost: nat -> nat, s: State, i: nat)
    requires Inv(graphs, cost, s) && 0 < i < |s.pc| && (s.pc[i].WantLock? || s.pc[i].Relock?)
    ensures WorkerStepOk(graphs, s, Step(graphs, cost, s, i), i)
  {
    assert ThreadOk(graphs, cost, s, i);
    hide B.Reachable, Packed, Waits, HistoryOk, ThreadsOk, LockOk, Seen, MainOk, NotifyAll, WaitStep;
  }

  /** Waiting on the condition variable, waking, letting go of the mutex. */
  lemma OtherTarget(graphs: seq<Work>, cost: nat -> nat, s: State, i: nat)
    requires Sized(graphs, s) && 0 < i < |s.pc| && (s.pc[i].Sleepy? || s.pc[i].Asleep? || s.pc[i].Unlock?)
    requires WorkerOk(graphs, |s.pc|, s.sent, s.pc[0], s.pc[i], s.last[i], |s.ran[i]|)
    ensures WorkerStepOk(graphs, s, Step(graphs, cost, s, i), i)
  {
    hide B.Reachable, Packed, Seen, NotifyAll, WaitStep, Acquire;
  }

  lemma ReadFnTarget(graphs: seq<Work>, cost: nat -> nat, s: State, i: nat)
    requires Sized(graphs, s) && 0 < i < |s.pc| && s.pc[i].ReadFn? && MainOk(graphs, s)
    requires WorkerOk(graphs, |s.pc|, s.sent, s.pc[0], s.pc[i], s.last[i], |s.ran[i]|)
    ensures WorkerStepOk(graphs, s, Step(graphs, cost, s, i), i)
  {
    hide B.Reachable, Packed, Seen, NotifyAll, WaitStep, Acquire;
  }

  lemma WorkerStep(graphs: seq<Work>, cost: nat -> nat, s: State, i: nat)
    requires Inv(graphs, cost, s) && 0 < i < |s.pc| && !s.pc[i].Run? && !s.pc[i].ReadData?
    ensures Inv(graphs, cost, Step(graphs, cost, s, i))
  {
    hide B.Reachable, Packed, Step, HistoryOk, ThreadsOk, MainOk, LockOk, WorkerOk;
    if s.pc[i].Poll? || s.pc[i].Check? {
      LookTarget(graphs, cost, s, i);
    } else if s.pc[i].WantLock? || s.pc[i].Relock? {
      LockTarget(graphs, cost, s, i);
    } else {
      assert ThreadOk(graphs, cost, s, i) by { EachThread(graphs, cost, s, i); }
      WorkerKinds(graphs, s, i);
      if s.pc[i].ReadFn? { ReadFnTarget(graphs, cost, s, i); } else { OtherTarget(graphs, cost, s, i); }
    }
    WorkerLock(graphs, cost, s, i);
    var s' := Step(graphs, cost, s, i);
    assert !IsMain(s'.pc[i]) by {
      WorkerNotMain(graphs, |s.pc|, s.sent, s.pc[0], s'.pc[i], s'.last[i], |s.ran[i]|);
    }
    WorkerMove(graphs, cost, s, s', i);
  }

  lemma EachThread(graphs: seq<Work>, cost: nat -> nat, s: State, i: nat)
    requires Inv(graphs, cost, s) && i < |s.pc|
    ensures ThreadOk(graphs, cost, s, i)
  {
    hide B.Reachable, Packed, ThreadOk, MainOk, LockOk;
  }

  lemma WorkerKinds(graphs: seq<Work>, s: State, i: nat)
    requires Sized(graphs, s) && 0 < i < |s.pc| && !s.pc[i].Run? && !s.pc[i].ReadData?
    ensures s.pc[i].Poll? || s.pc[i].Check? || s.pc[i].WantLock? || s.pc[i].Relock? || s.pc[i].Sleepy?
            || s.pc[i].Asleep? || s.pc[i].Unlock? || s.pc[i].ReadFn?
  {
    hide B.Reachable;
    assert !IsMain(s.pc[i]);
  }

  lemma WorkerNotMain(graphs: seq<Work>, n: nat, sent: nat, main: Pc, p: Pc, last: int, ran: nat)
    requires WorkerOk(graphs, n, sent, main, p, last, ran)
    ensures !IsMain(p)
  {
  }

  lemma WorkerLock(graphs: seq<Work>, cost: nat -> nat, s: State, i: nat)
    requires Inv(graphs, cost, s) && 0 < i < |s.pc| && !s.pc[i].Run? && !s.pc[i].ReadData?
    ensures LockOk(Step(graphs, cost, s, i))
  {
    assert Holds(s.pc[i]) <==> s.lock == i;
    assert !IsMain(s.pc[i]);
    hide B.Reachable, Packed, Waits, HistoryOk, ThreadsOk, MainOk;
  }

  lemma ReadDataInv(graphs: seq<Work>, cost: nat -> nat, s: State, i: nat)
    requires Inv(graphs, cost, s) && 0 < i < |s.pc| && s.pc[i].ReadData?
    ensures Inv(graphs, cost, Step(graphs, cost, s, i))
  {
    var s' := Step(graphs, cost, s, i);
    assert ThreadOk(graphs, cost, s, i);
    Started(graphs, cost, s.pc[i], s.ran[i], s.b.returned[i], graphs[|s.ran[i]|]);
    hide B.Reachable, Packed, Waits, HistoryOk;
    forall j: nat | j < |s.pc|
      ensures ThreadOk(graphs, cost, s', j)
    {
      assert ThreadOk(graphs, cost, s, j);
    }
    assert Holds(s.pc[i]) <==> s.lock == i;
  }

  lemma FinishWorkerInv(graphs: seq<Work>, cost: nat -> nat, s: State, i: nat)
    requires Inv(graphs, cost, s) && 0 < i < |s.pc| && s.pc[i].Run?
    requires s.b.pc[i] == B.Outside && s.pc[i].waits >= Due(cost, s.ran[i])
    ensures Inv(graphs, cost, Step(graphs, cost, s, i))
  {
    var s' := Step(graphs, cost, s, i);
    assert ThreadOk(graphs, cost, s, i);
    hide B.Reachable, Packed;
    forall j: nat | j < |s.pc|
      ensures ThreadOk(graphs, cost, s', j)
    {
      assert ThreadOk(graphs, cost, s, j);
    }
    assert Holds(s.pc[i]) <==> s.lock == i;
  }

  lemma WaitSelf(graphs: seq<Work>, cost: nat -> nat, s: State, i: nat)
    requires Sized(graphs, s) && i < |s.pc| && ThreadOk(graphs, cost, s, i) && s.pc[i].Run?
    requires s.b.pc[i] != B.Outside || s.pc[i].waits < Due(cost, s.ran[i])
    ensures Sized(graphs, WaitStep(s, i)) && ThreadOk(graphs, cost, WaitStep(s, i), i)
  {
    B.ReachStep(s.b, i);
    hide Packed, Waits, B.Step, B.Reachable;
    assert |WaitStep(s, i).b.pc| == |s.pc|;
    if i > 0 {
      assert !IsMain(s.pc[i]);
    }
  }

  lemma WaitOther(graphs: seq<Work>, cost: nat -> nat, s: State, i: nat, j: nat)
    requires Sized(graphs, s) && i < |s.pc| && s.pc[i].Run? && Sized(graphs, WaitStep(s, i))
    requires j < |s.pc| && j != i && ThreadOk(graphs, cost, s, j)
    ensures ThreadOk(graphs, cost, WaitStep(s, i), j)
  {
    B.ReachFrame(s.b, i, j);
    hide Packed, Waits, B.Step, B.Reachable;
  }

  /** A step inside the barrier. */
  lemma WaitInv(graphs: seq<Work>, cost: nat -> nat, s: State, i: nat)
    requires Inv(graphs, cost, s) && i < |s.pc| && s.pc[i].Run?
    requires s.b.pc[i] != B.Outside || s.pc[i].waits < Due(cost, s.ran[i])
    ensures Inv(graphs, cost, WaitStep(s, i))
  {
    var s' := WaitStep(s, i);
    assert Holds(s.pc[i]) <==> s.lock == i;
    assert ThreadOk(graphs, cost, s, i);
    hide Packed, B.Step, B.Reachable, ThreadOk;
    WaitSelf(graphs, cost, s, i);
    forall j: nat | j < |s.pc|
      ensures ThreadOk(graphs, cost, s', j)
    {
      if j != i {
        WaitOther(graphs, cost, s, i, j);
      }
    }
  }

  /** Every step of every thread keeps the invariant. */
  lemma StepInv(graphs: seq<Work>, cost: nat -> nat, s: State, i: nat)
    requires Inv(graphs, cost, s) && AllWait(graphs, cost) && i < |s.pc|
    ensures Inv(graphs, cost, Step(graphs, cost, s, i)) && |Step(graphs, cost, s, i).pc| == |s.pc|
  {
    var s' := Step(graphs, cost, s, i);
    if s.pc[i].Run? {
      if s.b.pc[i] != B.Outside || s.pc[i].waits < Due(cost, s.ran[i]) { WaitInv(graphs, cost, s, i); }
      else if i == 0 { FinishMainInv(graphs, cost, s); }
      else { FinishWorkerInv(graphs, cost, s, i); }
    } else if i > 0 {
      if s.pc[i].ReadData? { ReadDataInv(graphs, cost, s, i); } else { WorkerStep(graphs, cost, s, i); }
    } else if s.pc[0].StoreCounter? { StoreCounterInv(graphs, cost, s); }
    else if s.pc[0].Notify? { NotifyInv(graphs, cost, s); }
    else if s.pc[0].Release? { ReleaseInv(graphs, cost, s); }
    else if s' != s { QuietStep(graphs, cost, s); }
    hide B.Reachable, Packed, MainOk, LockOk, ThreadsOk, Waits;
  }

  lemma QuietStep(graphs: seq<Work>, cost: nat -> nat, s: State)
    requires Inv(graphs, cost, s) && !Lagging(s.pc[0]) && !s.pc[0].StoreCounter?
    requires Step(graphs, cost, s, 0) != s
    ensures Inv(graphs, cost, Step(graphs, cost, s, 0))
  {
    assert Holds(s.pc[0]) <==> s.lock == 0;
    hide B.Reachable, Packed, ThreadsOk, Waits;
    var s' := Step(graphs, cost, s, 0);
    MainQuiet(graphs, cost, s, s'.fn, s'.data, s'.lock, s'.pc[0]);
  }
}
