/** The spin-then-futex barrier (src/inference/threadpool.rs, SpinBarrier) as a transition system:
    any number of threads, any interleaving, one atomic operation a step. `gen`, `arrived` and
    `returned` are history: the barrier never reads them. */
module SpinBarrier {

  /** The pass counter is a u32. */
  const GENERATIONS: nat := 0x1_0000_0000

  const SPIN_BUDGET: nat := 30_000

  datatype Pc =
    | Outside                        // not inside wait()
    | Loaded(seen: nat)               // has read the pass counter
    | Reset                          // last arrival: about to store 0 into the counter
    | Bump                           // last arrival: about to bump the pass counter
    | Wake                           // last arrival: about to wake all sleepers, then return
    | Spin(seen: nat, left: nat)      // fast path, `left` polls to go
    | Recheck(seen: nat)              // slow path: about to re-read the pass counter
    | FutexCall(seen: nat)            // about to compare-and-block
    | Asleep(seen: nat)

  datatype State = State(
    count: nat,                      // n_barrier
    passed: nat,                     // n_barrier_passed
    pc: seq<Pc>,
    gen: nat,                        // how often the pass counter was bumped
    arrived: seq<nat>,               // per thread: arrivals (fetch_adds) so far
    returned: seq<nat>)              // per thread: completed wait() calls

  function Init(n: nat): State {
    State(0, 0, seq(n, _ => Outside), 0, seq(n, _ => 0), seq(n, _ => 0))
  }

  ghost predicate Sized(s: State) {
    |s.pc| == |s.arrived| == |s.returned| > 1
  }

  function Return(s: State, i: nat): State
    requires i < |s.pc| && |s.returned| == |s.pc|
  {
    s.(pc := s.pc[i := Outside], returned := s.returned[i := s.returned[i] + 1])
  }

  function WakeAll(pc: seq<Pc>): (r: seq<Pc>)
    ensures |r| == |pc|
    ensures forall j :: 0 <= j < |pc| ==> r[j] == if pc[j].Asleep? then Recheck(pc[j].seen) else pc[j]
  {
    seq(|pc|, j requires 0 <= j < |pc| => if pc[j].Asleep? then Recheck(pc[j].seen) else pc[j])
  }

  /** One atomic operation of thread i. From `Outside` it calls wait(); from `Asleep` it wakes up
      spuriously (a real wake-up is the waker's step). */
  function Step(s: State, i: nat): State
    requires i < |s.pc| == |s.arrived| == |s.returned|
  {
    match s.pc[i]
    case Outside => s.(pc := s.pc[i := Loaded(s.passed)])
    case Loaded(seen) =>
      s.(count := s.count + 1, arrived := s.arrived[i := s.arrived[i] + 1],
         pc := s.pc[i := if s.count == |s.pc| - 1 then Reset else Spin(seen, SPIN_BUDGET)])
    case Reset => s.(count := 0, pc := s.pc[i := Bump])
    case Bump => s.(passed := (s.passed + 1) % GENERATIONS, gen := s.gen + 1, pc := s.pc[i := Wake])
    case Wake => Return(s.(pc := WakeAll(s.pc)), i)
    case Spin(seen, left) =>
      if left == 0 then s.(pc := s.pc[i := Recheck(seen)])
      else if s.passed != seen then Return(s, i)
      else s.(pc := s.pc[i := Spin(seen, left - 1)])
    case Recheck(seen) =>
      if s.passed == seen then s.(pc := s.pc[i := FutexCall(seen)]) else Return(s, i)
    case FutexCall(seen) =>
      if s.passed == seen then s.(pc := s.pc[i := Asleep(seen)]) else s.(pc := s.pc[i := Recheck(seen)])
    case Asleep(seen) => s.(pc := s.pc[i := Recheck(seen)])
  }

  // ---------- counting arrivals ----------

  /** How many threads have arrived g times. */
  function Arrivals(a: seq<nat>, g: nat): (c: nat)
    ensures c <= |a|
  {
    if a == [] then 0 else Arrivals(a[1..], g) + if a[0] == g then 1 else 0
  }

  lemma {:induction false} ArrivalsUpdate(a: seq<nat>, i: nat, v: nat, g: nat)
    requires i < |a|
    ensures Arrivals(a[i := v], g) + (if a[i] == g then 1 else 0) == Arrivals(a, g) + (if v == g then 1 else 0)
  {
    if i == 0 {
      assert a[i := v][1..] == a[1..];
    } else {
      assert a[i := v][1..] == a[1..][i - 1 := v];
      ArrivalsUpdate(a[1..], i - 1, v, g);
    }
  }

  lemma {:induction false} ArrivalsFull(a: seq<nat>, g: nat, i: nat)
    requires Arrivals(a, g) == |a| && i < |a|
    ensures a[i] == g
  {
    if i > 0 {
      ArrivalsFull(a[1..], g, i - 1);
    }
  }

  lemma {:induction false} ArrivalsNone(a: seq<nat>, g: nat)
    requires forall i :: 0 <= i < |a| ==> a[i] != g
    ensures Arrivals(a, g) == 0
  {
    if a != [] {
      ArrivalsNone(a[1..], g);
    }
  }

  // ---------- invariant ----------

  predicate Closing(p: Pc) {
    p == Reset || p == Bump
  }

  predicate Waiting(p: Pc) {
    p.Spin? || p.Recheck? || p.FutexCall? || p.Asleep?
  }

  /** Where a thread stands relative to the generation. A waiting thread's remembered counter value
      equals the current one exactly while its generation has not passed. */
  ghost predicate ThreadOk(s: State, i: nat)
    requires Sized(s) && i < |s.pc|
  {
    match s.pc[i]
    case Outside => s.arrived[i] == s.gen && s.returned[i] == s.gen
    case Loaded(seen) => s.arrived[i] == s.gen && s.returned[i] == s.gen && seen == s.passed
    case Reset => s.arrived[i] == s.gen + 1 && s.returned[i] == s.gen
    case Bump => s.arrived[i] == s.gen + 1 && s.returned[i] == s.gen
    case Wake => s.arrived[i] == s.gen && s.returned[i] + 1 == s.gen
    case Spin(seen, _) => WaitOk(s, i, seen)
    case Recheck(seen) => WaitOk(s, i, seen)
    case FutexCall(seen) => WaitOk(s, i, seen)
    case Asleep(seen) => WaitOk(s, i, seen)
  }

  ghost predicate WaitOk(s: State, i: nat, seen: nat)
    requires Sized(s) && i < |s.pc|
  {
    && s.returned[i] + 1 == s.arrived[i]
    && ((s.arrived[i] == s.gen + 1 && seen == s.passed)
        || (s.arrived[i] == s.gen && s.gen > 0 && seen == (s.gen - 1) % GENERATIONS))
  }

  /** Some thread is about to wake the sleepers. */
  ghost predicate WakePending(s: State) {
    exists j :: 0 <= j < |s.pc| && s.pc[j] == Wake
  }

  ghost predicate CountOk(s: State)
    requires Sized(s)
  {
    && (forall i, j :: 0 <= i < |s.pc| && 0 <= j < |s.pc| && Closing(s.pc[i]) && Closing(s.pc[j]) ==> i == j)
    && (forall i, j :: 0 <= i < |s.pc| && 0 <= j < |s.pc| && Closing(s.pc[i]) ==> s.arrived[j] == s.gen + 1)
    && (forall i :: 0 <= i < |s.pc| && s.pc[i] == Reset ==> s.count == |s.pc|)
    && (forall i :: 0 <= i < |s.pc| && s.pc[i] == Bump ==> s.count == 0)
    && ((forall i :: 0 <= i < |s.pc| ==> !Closing(s.pc[i])) ==>
          s.count == Arrivals(s.arrived, s.gen + 1) && s.count < |s.pc|)
  }

  ghost predicate Inv(s: State) {
    && Sized(s)
    && s.passed == s.gen % GENERATIONS
    && (forall i: nat :: i < |s.pc| ==> ThreadOk(s, i))
    && CountOk(s)
    && (forall i :: 0 <= i < |s.pc| && s.pc[i].Asleep? && s.arrived[i] == s.gen ==> WakePending(s))
  }

  lemma InitInv(n: nat)
    requires n > 1
    ensures Inv(Init(n))
  {
    var s := Init(n);
    ArrivalsNone(s.arrived, 1);
    forall i: nat | i < |s.pc|
      ensures ThreadOk(s, i)
    {
    }
  }

  /** Consecutive generations never share a counter value. */
  lemma NoAlias(g: nat)
    ensures (g + 1) % GENERATIONS != g % GENERATIONS
    ensures (g % GENERATIONS + 1) % GENERATIONS == (g + 1) % GENERATIONS
  {
  }

  /** A step that changes only thread i's program counter, to one that claims no more. */
  lemma MoveInv(s: State, i: nat, p: Pc)
    requires Inv(s) && i < |s.pc| && !Closing(s.pc[i]) && s.pc[i] != Wake && !Closing(p) && p != Wake
    requires ThreadOk(s.(pc := s.pc[i := p]), i)
    requires p.Asleep? && s.arrived[i] == s.gen ==> WakePending(s)
    ensures Inv(s.(pc := s.pc[i := p]))
  {
    var s' := s.(pc := s.pc[i := p]);
    forall j: nat | j < |s.pc|
      ensures ThreadOk(s', j)
    {
      assert ThreadOk(s, j);
    }
    if WakePending(s) {
      var j :| 0 <= j < |s.pc| && s.pc[j] == Wake;
      assert s'.pc[j] == Wake;
    }
    if k :| 0 <= k < |s.pc| && Closing(s.pc[k]) {
      assert Closing(s'.pc[k]);
    }
  }

  lemma ReturnInv(s: State, i: nat)
    requires Inv(s) && i < |s.pc| && Waiting(s.pc[i]) && s.passed != s.pc[i].seen
    ensures Inv(Return(s, i))
  {
    var s' := Return(s, i);
    assert ThreadOk(s, i);
    forall j: nat | j < |s.pc|
      ensures ThreadOk(s', j)
    {
      assert ThreadOk(s, j);
    }
    if WakePending(s) {
      var j :| 0 <= j < |s.pc| && s.pc[j] == Wake;
      assert s'.pc[j] == Wake;
    }
    assert forall k :: 0 <= k < |s.pc| ==> !Closing(s.pc[k]);
  }

  /** The arrival (fetch_add): the counter counts exactly the arrivals of this generation, so the
      last arrival is the one that sees n_threads - 1. */
  lemma ArriveInv(s: State, i: nat)
    requires Inv(s) && i < |s.pc| && s.pc[i].Loaded?
    ensures Inv(Step(s, i))
  {
    var s' := Step(s, i);
    ArriveCount(s, i);
    forall j: nat | j < |s.pc|
      ensures ThreadOk(s', j)
    {
      assert ThreadOk(s, j);
    }
    if WakePending(s) {
      var j :| 0 <= j < |s.pc| && s.pc[j] == Wake;
      assert s'.pc[j] == Wake;
    }
    hide CountOk, Arrivals;
  }

  lemma ArriveCount(s: State, i: nat)
    requires Inv(s) && i < |s.pc| && s.pc[i].Loaded?
    ensures Sized(Step(s, i)) && CountOk(Step(s, i))
  {
    var s', g := Step(s, i), s.gen + 1;
    assert ThreadOk(s, i);
    ArrivalsUpdate(s.arrived, i, s.arrived[i] + 1, g);
    assert forall k :: 0 <= k < |s.pc| ==> !Closing(s.pc[k]);
    if s'.pc[i] == Reset {
      forall j: nat | j < |s.pc|
        ensures s'.arrived[j] == g
      {
        ArrivalsFull(s'.arrived, g, j);
      }
    }
    hide ThreadOk, Arrivals;
  }

  lemma ResetInv(s: State, i: nat)
    requires Inv(s) && i < |s.pc| && s.pc[i] == Reset
    ensures Inv(Step(s, i))
  {
    var s' := Step(s, i);
    forall j: nat | j < |s.pc|
      ensures ThreadOk(s', j)
    {
      assert ThreadOk(s, j) && ThreadOk(s, i);
    }
    assert Closing(s'.pc[i]);
    if WakePending(s) {
      var j :| 0 <= j < |s.pc| && s.pc[j] == Wake;
      assert s'.pc[j] == Wake;
    }
  }

  lemma BumpInv(s: State, i: nat)
    requires Inv(s) && i < |s.pc| && s.pc[i] == Bump
    ensures Inv(Step(s, i))
  {
    var s', g := Step(s, i), s.gen + 2;
    NoAlias(s.gen);
    assert Closing(s.pc[i]);
    forall j: nat | j < |s.pc|
      ensures ThreadOk(s', j)
    {
      assert ThreadOk(s, j);
    }
    ArrivalsNone(s'.arrived, g);
    assert forall k :: 0 <= k < |s.pc| ==> !Closing(s'.pc[k]);
    assert s'.pc[i] == Wake;
  }

  lemma WakeInv(s: State, i: nat)
    requires Inv(s) && i < |s.pc| && s.pc[i] == Wake
    ensures Inv(Step(s, i))
  {
    var s' := Step(s, i);
    forall j: nat | j < |s.pc|
      ensures ThreadOk(s', j)
    {
      assert ThreadOk(s, j);
    }
    assert forall k :: 0 <= k < |s.pc| ==> Closing(s'.pc[k]) == Closing(s.pc[k]);
    assert forall k :: 0 <= k < |s.pc| ==> !s'.pc[k].Asleep?;
    hide ThreadOk, Arrivals, WakeAll;
  }

  lemma SpinInv(s: State, i: nat)
    requires Inv(s) && i < |s.pc| && s.pc[i].Spin?
    ensures Inv(Step(s, i))
  {
    var seen, left := s.pc[i].seen, s.pc[i].left;
    assert ThreadOk(s, i);
    hide Inv, CountOk, WakePending;
    if left == 0 { MoveInv(s, i, Recheck(seen)); }
    else if s.passed != seen { ReturnInv(s, i); }
    else { MoveInv(s, i, Spin(seen, left - 1)); }
  }

  lemma BlockInv(s: State, i: nat)
    requires Inv(s) && i < |s.pc| && (s.pc[i].Recheck? || s.pc[i].FutexCall? || s.pc[i].Asleep?)
    ensures Inv(Step(s, i))
  {
    var seen := s.pc[i].seen;
    assert ThreadOk(s, i);
    NoAlias(if s.gen > 0 then s.gen - 1 else 0);
    assert Sized(s) && s.passed == s.gen % GENERATIONS;
    hide Inv, CountOk, WakePending;
    if s.pc[i].Recheck? && s.passed != seen { ReturnInv(s, i); }
    else if s.pc[i].Recheck? { MoveInv(s, i, FutexCall(seen)); }
    else if s.pc[i].FutexCall? && s.passed == seen { MoveInv(s, i, Asleep(seen)); }
    else { MoveInv(s, i, Recheck(seen)); }
  }

  lemma EnterInv(s: State, i: nat)
    requires Inv(s) && i < |s.pc| && s.pc[i].Outside?
    ensures Inv(Step(s, i))
  {
    assert ThreadOk(s, i);
    hide Inv, CountOk, WakePending;
    MoveInv(s, i, Loaded(s.passed));
  }

  /** Every step keeps the invariant. */
  lemma StepInv(s: State, i: nat)
    requires Inv(s) && i < |s.pc|
    ensures Inv(Step(s, i))
  {
    assert Sized(s);
    hide Inv, Step;
    match s.pc[i]
    case Outside => EnterInv(s, i);
    case Loaded(_) => ArriveInv(s, i);
    case Reset => ResetInv(s, i);
    case Bump => BumpInv(s, i);
    case Wake => WakeInv(s, i);
    case Spin(_, _) => SpinInv(s, i);
    case _ => BlockInv(s, i);
  }

  // ---------- what holds over every run ----------

  ghost predicate Next(s: State, s': State) {
    exists i: nat :: i < |s.pc| == |s.arrived| == |s.returned| && s' == Step(s, i)
  }

  ghost predicate IsRun(n: nat, run: seq<State>) {
    run != [] && run[0] == Init(n) && forall k :: 0 < k < |run| ==> Next(run[k - 1], run[k])
  }

  lemma NextInv(s: State, s': State)
    requires Inv(s) && Next(s, s')
    ensures Inv(s') && |s'.pc| == |s.pc|
  {
    var i: nat :| i < |s.pc| && s' == Step(s, i);
    StepInv(s, i);
    StepSelf(s, i);
  }

  lemma {:induction false} RunInv(n: nat, run: seq<State>, k: nat)
    requires n > 1 && IsRun(n, run) && k < |run|
    ensures Inv(run[k]) && |run[k].pc| == n
  {
    InitInv(n);
    hide Inv, Next;
    if k > 0 {
      RunInv(n, run, k - 1);
      NextInv(run[k - 1], run[k]);
    }
  }

  /** No thread returns from its k-th wait before every thread has entered its k-th, and completed
      waits differ by at most one. */
  lemma Separation(s: State, i: nat, j: nat)
    requires Inv(s) && i < |s.pc| && j < |s.pc|
    ensures s.returned[i] <= s.arrived[j]
    ensures s.returned[i] <= s.returned[j] + 1 && s.arrived[i] <= s.arrived[j] + 1
  {
    assert ThreadOk(s, i) && ThreadOk(s, j);
  }

  lemma BarrierSafety(n: nat, run: seq<State>, k: nat, i: nat, j: nat)
    requires n > 1 && IsRun(n, run) && k < |run| && i < n && j < n
    ensures |run[k].pc| == |run[k].arrived| == |run[k].returned| == n
    ensures run[k].returned[i] <= run[k].arrived[j]
    ensures run[k].returned[i] <= run[k].returned[j] + 1 && run[k].arrived[i] <= run[k].arrived[j] + 1
  {
    RunInv(n, run, k);
    Separation(run[k], i, j);
  }

  /** A waiting thread sees the counter unchanged exactly while its generation has not passed: the
      wrapping counter never aliases. */
  lemma WaiterSeesItsRelease(n: nat, run: seq<State>, k: nat, i: nat)
    requires n > 1 && IsRun(n, run) && k < |run| && i < n
    ensures |run[k].pc| == |run[k].arrived| == n
    ensures Waiting(run[k].pc[i]) ==> (run[k].passed == run[k].pc[i].seen <==> run[k].arrived[i] == run[k].gen + 1)
  {
    RunInv(n, run, k);
    var s := run[k];
    assert ThreadOk(s, i);
    if s.gen > 0 {
      NoAlias(s.gen - 1);
    }
  }

  /** A thread asleep on a generation that has passed has a waker on its way. */
  lemma NoLostWakeup(n: nat, run: seq<State>, k: nat, i: nat)
    requires n > 1 && IsRun(n, run) && k < |run| && i < n
    ensures |run[k].pc| == n
    ensures run[k].pc[i].Asleep? && run[k].passed != run[k].pc[i].seen ==> WakePending(run[k])
  {
    RunInv(n, run, k);
    assert ThreadOk(run[k], i);
  }

  lemma {:induction false} AllArrived(a: seq<nat>, g: nat)
    requires forall i :: 0 <= i < |a| ==> a[i] == g
    ensures Arrivals(a, g) == |a|
  {
    if a != [] {
      AllArrived(a[1..], g);
    }
  }

  /** While a generation has not passed, someone still has to arrive or is about to release it: the
      waiters never all wait for each other. */
  lemma SomeoneElseMoves(n: nat, run: seq<State>, k: nat)
    requires n > 1 && IsRun(n, run) && k < |run|
    ensures |run[k].pc| == |run[k].arrived| == n
    ensures exists j :: 0 <= j < n && (Closing(run[k].pc[j]) || run[k].arrived[j] == run[k].gen)
  {
    RunInv(n, run, k);
    var s := run[k];
    if forall j :: 0 <= j < n ==> !Closing(s.pc[j]) && s.arrived[j] != s.gen {
      forall j: nat | j < n
        ensures s.arrived[j] == s.gen + 1
      {
        assert ThreadOk(s, j);
      }
      AllArrived(s.arrived, s.gen + 1);
    }
  }

  // ---------- for the programs that use the barrier ----------

  /** States that some run of the barrier reaches. */
  ghost predicate Reachable(s: State) {
    exists n: nat, run: seq<State> :: n > 1 && IsRun(n, run) && run[|run| - 1] == s
  }

  lemma ReachInit(n: nat)
    requires n > 1
    ensures Reachable(Init(n)) && Sized(Init(n))
  {
    hide Init;
    var run := [Init(n)];
    assert IsRun(n, run) && run[|run| - 1] == Init(n);
    InitInv(n);
  }

  lemma ReachInv(s: State)
    requires Reachable(s)
    ensures Inv(s)
  {
    hide Inv, Next;
    var n: nat, run: seq<State> :| n > 1 && IsRun(n, run) && run[|run| - 1] == s;
    RunInv(n, run, |run| - 1);
  }

  lemma RunLonger(n: nat, run: seq<State>, s: State)
    requires IsRun(n, run) && Next(run[|run| - 1], s)
    ensures IsRun(n, run + [s])
  {
    hide Next;
  }

  /** A step from a reachable state, and what it does to its own thread's history. */
  lemma ReachStep(s: State, i: nat)
    requires Reachable(s) && Sized(s) && i < |s.pc|
    ensures Reachable(Step(s, i)) && Sized(Step(s, i)) && |Step(s, i).pc| == |s.pc|
    ensures Step(s, i).returned[i] == s.returned[i]
            || (Step(s, i).returned[i] == s.returned[i] + 1 && Step(s, i).pc[i] == Outside && s.pc[i] != Outside)
    ensures s.pc[i] != Outside && Step(s, i).pc[i] == Outside ==> Step(s, i).returned[i] == s.returned[i] + 1
    ensures Step(s, i).gen == if s.pc[i] == Bump then s.gen + 1 else s.gen
  {
    hide Step, Inv;
    var n: nat, run: seq<State> :| n > 1 && IsRun(n, run) && run[|run| - 1] == s;
    assert Next(s, Step(s, i));
    RunLonger(n, run, Step(s, i));
    var longer := run + [Step(s, i)];
    assert longer[|longer| - 1] == Step(s, i);
    ReachInv(s);
    StepSelf(s, i);
  }

  lemma ReachFrame(s: State, i: nat, j: nat)
    requires Reachable(s) && Sized(s) && i < |s.pc| && j < |s.pc| && i != j
    ensures |Step(s, i).pc| == |s.pc| && Sized(Step(s, i))
    ensures Step(s, i).arrived[j] == s.arrived[j] && Step(s, i).returned[j] == s.returned[j]
    ensures Step(s, i).pc[j] == s.pc[j] || (s.pc[j].Asleep? && Step(s, i).pc[j].Recheck?)
  {
    hide Reachable, Inv, Step;
    ReachInv(s);
    StepFrame(s, i, j);
  }

  lemma ReachThread(s: State, i: nat)
    requires Reachable(s) && Sized(s) && i < |s.pc|
    ensures ThreadOk(s, i)
  {
    ReachInv(s);
    hide Reachable, CountOk, ThreadOk;
  }

  /** A step of thread i changes nobody else's history, and moves others only from `Asleep`. */
  lemma StepFrame(s: State, i: nat, j: nat)
    requires Sized(s) && i < |s.pc| && j < |s.pc| && i != j
    ensures |Step(s, i).pc| == |s.pc| && Sized(Step(s, i))
    ensures Step(s, i).arrived[j] == s.arrived[j] && Step(s, i).returned[j] == s.returned[j]
    ensures Step(s, i).pc[j] == s.pc[j] || (s.pc[j].Asleep? && Step(s, i).pc[j].Recheck?)
  {
  }

  lemma StepSelf(s: State, i: nat)
    requires Sized(s) && i < |s.pc|
    ensures |Step(s, i).pc| == |s.pc| && Sized(Step(s, i))
    ensures Step(s, i).returned[i] == s.returned[i]
            || (Step(s, i).returned[i] == s.returned[i] + 1 && Step(s, i).pc[i] == Outside && s.pc[i] != Outside)
    ensures s.pc[i] != Outside && Step(s, i).pc[i] == Outside ==> Step(s, i).returned[i] == s.returned[i] + 1
    ensures Step(s, i).gen == if s.pc[i] == Bump then s.gen + 1 else s.gen
  {
  }
}
