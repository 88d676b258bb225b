/** Progress of the graph pool (src/inference/threadpool.rs): whatever the scheduler does, without spurious
    wake-ups the pool comes to rest after a bounded number of steps, and then every thread has run every
    graph and every worker sleeps. */
module PoolProgress {
  import B = SpinBarrier
  import P = BarrierProgress
  import opened GraphPool
  import opened GraphPoolRuns
  import opened Ranks

  /** Blocked on the condition variable or in the barrier: only another thread wakes it. */
  predicate Sleeping(s: State, i: nat)
    requires i < |s.pc| == |s.b.pc|
  {
    s.pc[i].Asleep? || s.b.pc[i].Asleep?
  }

  /** A thread that is not asleep changes the state: it is not waiting for the mutex either, and the main
      thread still has graphs to dispatch. */
  ghost predicate Moves(graphs: seq<Work>, cost: nat -> nat, s: State, i: nat) {
    Sized(graphs, s) && i < |s.pc| && !Sleeping(s, i) && Step(graphs, cost, s, i) != s
  }

  /** The main thread is done, every thread has run every graph to its end, every worker sleeps. */
  ghost predicate Finished(graphs: seq<Work>, cost: nat -> nat, s: State) {
    && Sized(graphs, s) && s.pc[0].StoreFn?
    && forall i: nat :: i < |s.pc| ==>
         && s.ran[i] == graphs && (i > 0 ==> s.pc[i].Asleep?)
         && s.b.pc[i] == B.Outside && s.b.returned[i] == Waits(|graphs|, cost)
  }

  // ---------- within the barrier waits of the graphs ----------

  lemma {:induction false} WaitsMono(cost: nat -> nat, a: nat, b: nat)
    requires a <= b
    ensures Waits(a, cost) <= Waits(b, cost)
  {
    if a < b {
      WaitsMono(cost, a, b - 1);
    }
  }

  /** A thread's completed waits, and whether it has another to make. */
  lemma WaitsLeft(graphs: seq<Work>, cost: nat -> nat, s: State, i: nat)
    requires Inv(graphs, cost, s) && i < |s.pc|
    ensures B.Sized(s.b) && |s.b.pc| == |s.pc| == |s.ran|
    ensures s.b.returned[i] <= Waits(|graphs|, cost)
    ensures s.b.pc[i] != B.Outside || (s.pc[i].Run? && s.pc[i].waits < Due(cost, s.ran[i])) ==>
              s.pc[i].Run? && s.b.returned[i] < Waits(|s.ran[i]|, cost) <= Waits(|graphs|, cost)
  {
    assert ThreadOk(graphs, cost, s, i);
    assert |s.ran[i]| <= |graphs|;
    WaitsMono(cost, |s.ran[i]|, |graphs|);
    if s.ran[i] != [] {
      assert Waits(|s.ran[i]|, cost) == Waits(|s.ran[i]| - 1, cost) + Due(cost, s.ran[i]);
    }
    hide B.Reachable, Waits, MainOk, LockOk, ThreadsOk, WorkerOk, Packed;
  }

  lemma BarrierWithin(graphs: seq<Work>, cost: nat -> nat, s: State)
    requires Inv(graphs, cost, s)
    ensures B.Sized(s.b) && |s.b.pc| == |s.pc| && P.Within(s.b, Waits(|graphs|, cost))
  {
    assert B.Reachable(s.b) && B.Sized(s.b) && |s.b.pc| == |s.pc|;
    hide Inv, B.Reachable, B.Inv, P.SpinBounded;
    B.ReachInv(s.b);
    P.ReachSpins(s.b);
    forall i: nat | i < |s.pc|
      ensures s.b.returned[i] <= Waits(|graphs|, cost)
      ensures !s.b.pc[i].Outside? ==> s.b.returned[i] < Waits(|graphs|, cost)
    {
      WaitsLeft(graphs, cost, s, i);
    }
  }

  // ---------- a rank that every such step lowers ----------

  /** Steps of a worker until it sleeps or starts a graph. */
  function WorkerLeft(p: Pc): nat {
    match p
    case Run(_, _) => SPIN_POLL_ROUNDS + 10
    case Poll(left) => 9 + left
    case WantLock => 8
    case Relock => 8
    case Check => 7
    case Sleepy => 6
    case Asleep => 5
    case Unlock(_) => 3
    case ReadFn => 2
    case ReadData(_) => 1
    case _ => 0
  }

  /** Steps of the main thread until it starts the next graph. Notifying pays for the sleepers it wakes. */
  function MainLeft(n: nat, p: Pc): nat {
    match p
    case Run(_, _) => 3 * n + 8
    case StoreFn => 3 * n + 7
    case StoreData => 3 * n + 6
    case Kickoff => 3 * n + 5
    case Load => 3 * n + 4
    case StoreCounter(_) => 3 * n + 3
    case Notify => 3 * n + 2
    case Release => 1
    case _ => 0
  }

  function ThreadRank(n: nat, total: nat, i: nat, p: Pc, ran: nat): nat {
    if i == 0 then MainLeft(n, p) + Repeat(Minus(total, ran), 3 * n + 8)
    else WorkerLeft(p) + Repeat(Minus(total, ran), SPIN_POLL_ROUNDS + 10)
  }

  function ThreadRanks(graphs: seq<Work>, s: State): (r: seq<nat>)
    requires |s.pc| == |s.ran|
    ensures |r| == |s.pc|
    ensures forall j: nat :: j < |r| ==> r[j] == ThreadRank(|s.pc|, |graphs|, j, s.pc[j], |s.ran[j]|)
  {
    seq(|s.pc|, j requires 0 <= j < |s.pc| => ThreadRank(|s.pc|, |graphs|, j, s.pc[j], |s.ran[j]|))
  }

  function Rank(graphs: seq<Work>, cost: nat -> nat, s: State): nat
    requires |s.pc| == |s.ran| && |s.b.pc| == |s.b.returned|
  {
    P.Rank(s.b, Waits(|graphs|, cost)) + Total(ThreadRanks(graphs, s))
  }

  /** What notifying may add to the rank of each thread. */
  function Toll(p: Pc): nat {
    if p.Notify? then 3 else 0
  }

  /** A step inside the barrier. */
  ghost predicate Waiting(cost: nat -> nat, s: State, i: nat)
    requires i < |s.pc| == |s.ran| == |s.b.pc|
  {
    s.pc[i].Run? && (s.b.pc[i] != B.Outside || s.pc[i].waits < Due(cost, s.ran[i]))
  }

  lemma BarrierStepIs(graphs: seq<Work>, cost: nat -> nat, s: State, i: nat)
    requires Inv(graphs, cost, s) && i < |s.pc| && Waiting(cost, s, i)
    ensures var s' := Step(graphs, cost, s, i);
            && |s'.pc| == |s'.ran| == |s.pc| && s'.b == B.Step(s.b, i)
            && ThreadRanks(graphs, s') == ThreadRanks(graphs, s)
  {
    assert Step(graphs, cost, s, i) == WaitStep(s, i);
    hide Inv, Step, B.Step, B.Reachable, Waits, Repeat;
  }

  lemma BarrierRank(graphs: seq<Work>, cost: nat -> nat, s: State, i: nat)
    requires Inv(graphs, cost, s) && i < |s.pc| && Waiting(cost, s, i) && !s.b.pc[i].Asleep?
    ensures var s' := Step(graphs, cost, s, i);
            && |s'.pc| == |s'.ran| && |s'.b.pc| == |s'.b.returned|
            && Rank(graphs, cost, s') < Rank(graphs, cost, s)
  {
    BarrierWithin(graphs, cost, s);
    WaitsLeft(graphs, cost, s, i);
    BarrierStepIs(graphs, cost, s, i);
    hide Inv, Step, B.Step, P.Within, P.Rank, Waits, ThreadRanks, Sized;
    P.RankStep(s.b, i, Waits(|graphs|, cost));
  }

  lemma Restart(total: nat, ran: nat, lap: nat)
    requires ran < total
    ensures Repeat(Minus(total, ran), lap) == lap + Repeat(Minus(total, ran + 1), lap)
  {
  }

  lemma LookFalls(graphs: seq<Work>, cost: nat -> nat, s: State, i: nat)
    requires Inv(graphs, cost, s) && 0 < i < |s.pc| && (s.pc[i].Poll? || s.pc[i].Check?)
    ensures var s' := Step(graphs, cost, s, i);
            |s'.pc| == |s.pc| && s'.ran == s.ran && WorkerLeft(s'.pc[i]) < WorkerLeft(s.pc[i])
  {
    SeenIsNew(graphs, cost, s, i);
    hide B.Reachable, Packed, Waits, LockOk, ThreadsOk, MainOk;
  }

  lemma ReadDataFalls(graphs: seq<Work>, cost: nat -> nat, s: State, i: nat)
    requires Inv(graphs, cost, s) && 0 < i < |s.pc| && s.pc[i].ReadData?
    ensures var s' := Step(graphs, cost, s, i);
            && |s'.pc| == |s'.ran| == |s.pc| && s'.pc[i].Run? && |s'.ran[i]| == |s.ran[i]| + 1 <= |graphs|
  {
    assert ThreadOk(graphs, cost, s, i);
    hide B.Reachable, Packed, Waits, HistoryOk, LockOk, ThreadsOk, MainOk;
  }

  lemma OtherFalls(graphs: seq<Work>, cost: nat -> nat, s: State, i: nat)
    requires Inv(graphs, cost, s) && 0 < i < |s.pc| && !Waiting(cost, s, i) && Moves(graphs, cost, s, i)
    requires !s.pc[i].Poll? && !s.pc[i].Check? && !s.pc[i].ReadData?
    ensures var s' := Step(graphs, cost, s, i);
            |s'.pc| == |s.pc| && s'.ran == s.ran && WorkerLeft(s'.pc[i]) < WorkerLeft(s.pc[i])
  {
    assert ThreadOk(graphs, cost, s, i);
    assert !IsMain(s.pc[i]);
    hide B.Reachable, Packed, Waits, HistoryOk, LockOk, ThreadsOk, MainOk, NotifyAll, Seen;
  }

  /** Other steps of a worker: its rank falls. */
  lemma WorkerFalls(graphs: seq<Work>, cost: nat -> nat, s: State, i: nat)
    requires Inv(graphs, cost, s) && 0 < i < |s.pc| && !Waiting(cost, s, i) && Moves(graphs, cost, s, i)
    ensures var s' := Step(graphs, cost, s, i);
            && |s'.pc| == |s'.ran| == |s.pc|
            && ThreadRank(|s.pc|, |graphs|, i, s'.pc[i], |s'.ran[i]|)
               < ThreadRank(|s.pc|, |graphs|, i, s.pc[i], |s.ran[i]|)
  {
    assert |s.ran| == |s.pc|;
    hide Inv, Moves, Step, Waiting, Repeat;
    if s.pc[i].Poll? || s.pc[i].Check? {
      LookFalls(graphs, cost, s, i);
    } else if s.pc[i].ReadData? {
      ReadDataFalls(graphs, cost, s, i);
      Restart(|graphs|, |s.ran[i]|, SPIN_POLL_ROUNDS + 10);
    } else {
      OtherFalls(graphs, cost, s, i);
    }
  }

  /** A step of a worker outside the barrier touches nobody else. */
  lemma WorkerFrame(graphs: seq<Work>, cost: nat -> nat, s: State, i: nat)
    requires Inv(graphs, cost, s) && 0 < i < |s.pc| && !Waiting(cost, s, i)
    ensures var s' := Step(graphs, cost, s, i);
            && |s'.pc| == |s'.ran| == |s.pc| && s'.b == s.b
            && forall j: nat :: j < |s.pc| && j != i ==> s'.pc[j] == s.pc[j] && s'.ran[j] == s.ran[j]
  {
    assert !IsMain(s.pc[i]);
    hide B.Reachable, Packed, Waits, LockOk, ThreadsOk, MainOk, NotifyAll;
  }

  /** Other steps of the main thread: its rank falls, at the notify by enough for every sleeper. */
  lemma MainFalls(graphs: seq<Work>, cost: nat -> nat, s: State)
    requires Inv(graphs, cost, s) && !Waiting(cost, s, 0) && Moves(graphs, cost, s, 0)
    ensures var s' := Step(graphs, cost, s, 0);
            && |s'.pc| == |s'.ran| == |s.pc| && s'.b == s.b
            && ThreadRank(|s.pc|, |graphs|, 0, s'.pc[0], |s'.ran[0]|) + (if s.pc[0].Notify? then 3 * |s.pc| else 0)
               < ThreadRank(|s.pc|, |graphs|, 0, s.pc[0], |s.ran[0]|)
  {
    if s.pc[0].Release? {
      Restart(|graphs|, |s.ran[0]|, 3 * |s.pc| + 8);
    }
    hide B.Reachable, Packed, Waits, HistoryOk, LockOk, ThreadsOk, NotifyAll, Repeat, WorkerOk;
  }

  lemma MainOthers(graphs: seq<Work>, cost: nat -> nat, s: State, j: nat)
    requires Inv(graphs, cost, s) && !Waiting(cost, s, 0) && Moves(graphs, cost, s, 0) && 0 < j < |s.pc|
    ensures var s' := Step(graphs, cost, s, 0);
            && |s'.pc| == |s'.ran| == |s.pc|
            && ThreadRank(|s.pc|, |graphs|, j, s'.pc[j], |s'.ran[j]|)
               <= ThreadRank(|s.pc|, |graphs|, j, s.pc[j], |s.ran[j]|) + Toll(s.pc[0])
  {
    hide B.Reachable, Packed, Waits, HistoryOk, LockOk, ThreadsOk, Repeat, WorkerOk;
  }

  /** Every step of a thread that is not asleep, if it changes anything, lowers the rank. */
  lemma RankStep(graphs: seq<Work>, cost: nat -> nat, s: State, i: nat)
    requires Inv(graphs, cost, s) && Moves(graphs, cost, s, i)
    ensures var s' := Step(graphs, cost, s, i);
            && |s'.pc| == |s'.ran| && |s'.b.pc| == |s'.b.returned|
            && Rank(graphs, cost, s') < Rank(graphs, cost, s)
  {
    var s' := Step(graphs, cost, s, i);
    if Waiting(cost, s, i) {
      BarrierRank(graphs, cost, s, i);
      return;
    }
    var a := ThreadRanks(graphs, s);
    if i == 0 {
      MainFalls(graphs, cost, s);
      var b := ThreadRanks(graphs, s');
      hide Inv, Step, ThreadRank, P.Rank, Total, Waits;
      forall j: nat | j < |a| && j != 0
        ensures b[j] <= a[j] + Toll(s.pc[0])
      {
        MainOthers(graphs, cost, s, j);
      }
      TotalFalls(a, b, 0, Toll(s.pc[0]), if s.pc[0].Notify? then 3 * |s.pc| else 0, 0);
    } else {
      WorkerFalls(graphs, cost, s, i);
      WorkerFrame(graphs, cost, s, i);
      var b := ThreadRanks(graphs, s');
      hide Inv, Step, ThreadRank, P.Rank, Total, Waits;
      TotalFalls(a, b, i, 0, 0, 0);
    }
  }

  // ---------- no deadlock ----------

  ghost predicate Stuck(graphs: seq<Work>, cost: nat -> nat, s: State) {
    forall i: nat :: !Moves(graphs, cost, s, i)
  }

  /** Only a thread that runs a graph is inside the barrier. */
  lemma OutsideUnlessRunning(graphs: seq<Work>, cost: nat -> nat, s: State, i: nat)
    requires Inv(graphs, cost, s) && i < |s.pc|
    ensures |s.b.pc| == |s.pc| && (s.b.pc[i] != B.Outside ==> s.pc[i].Run?)
  {
    assert ThreadOk(graphs, cost, s, i);
    hide B.Reachable, Waits, LockOk, ThreadsOk, MainOk, WorkerOk;
  }

  /** A thread that cannot go on has finished, or sleeps on the condition variable, or in the barrier. */
  ghost predicate AtRest(graphs: seq<Work>, s: State, i: nat)
    requires i < |s.pc| == |s.b.pc| == |s.ran|
  {
    || (i == 0 && s.pc[0].StoreFn? && |s.ran[0]| == |graphs|)
    || (i > 0 && s.pc[i].Asleep?)
    || (s.pc[i].Run? && s.b.pc[i].Asleep?)
  }

  lemma StepMoves(graphs: seq<Work>, cost: nat -> nat, s: State, i: nat)
    requires Inv(graphs, cost, s) && i < |s.pc| == |s.b.pc| == |s.ran|
    requires s.pc[i].Kickoff? || s.pc[i].WantLock? || s.pc[i].Relock? ==> s.lock == NO_HOLDER
    requires !AtRest(graphs, s, i) && !Waiting(cost, s, i) && !s.pc[i].Asleep?
    ensures Step(graphs, cost, s, i) != s
  {
    var s' := Step(graphs, cost, s, i);
    assert i > 0 ==> !IsMain(s.pc[i]);
    hide B.Reachable, ThreadsOk, Packed, LockOk, Waits;
    assert s'.pc[i] != s.pc[i];
  }

  /** Whoever holds the mutex goes on. */
  lemma MutexFree(graphs: seq<Work>, cost: nat -> nat, s: State)
    requires Inv(graphs, cost, s) && Stuck(graphs, cost, s)
    ensures s.lock == NO_HOLDER
  {
    if s.lock != NO_HOLDER {
      var i: nat := s.lock;
      assert Holds(s.pc[i]);
      OutsideUnlessRunning(graphs, cost, s, i);
      assert !Moves(graphs, cost, s, i);
      hide B.Reachable, ThreadsOk, MainOk, Packed, LockOk;
      StepMoves(graphs, cost, s, i);
    }
  }

  lemma StuckThread(graphs: seq<Work>, cost: nat -> nat, s: State, i: nat)
    requires Inv(graphs, cost, s) && Stuck(graphs, cost, s) && i < |s.pc|
    ensures |s.b.pc| == |s.pc| == |s.ran| && AtRest(graphs, s, i)
  {
    MutexFree(graphs, cost, s);
    OutsideUnlessRunning(graphs, cost, s, i);
    WorkerKind(graphs, cost, s, i);
    assert !Moves(graphs, cost, s, i);
    hide Inv, Step, Waiting, Stuck;
    if !AtRest(graphs, s, i) {
      if Waiting(cost, s, i) {
        RunningWaits(cost, s, i);
        BarrierRank(graphs, cost, s, i);
      } else {
        StepMoves(graphs, cost, s, i);
      }
    }
  }

  lemma WorkerKind(graphs: seq<Work>, cost: nat -> nat, s: State, i: nat)
    requires Inv(graphs, cost, s) && i < |s.pc|
    ensures Sized(graphs, s) && (s.pc[i].Asleep? ==> i > 0)
  {
    hide B.Reachable, ThreadsOk, LockOk, Packed;
  }

  lemma RunningWaits(cost: nat -> nat, s: State, i: nat)
    requires i < |s.pc| == |s.ran| == |s.b.pc| && Waiting(cost, s, i)
    ensures s.pc[i].Run?
  {
  }

  /** A thread asleep in the barrier of a pool at rest waits for the current generation. */
  lemma BarrierSleeper(graphs: seq<Work>, cost: nat -> nat, s: State, i: nat)
    requires Inv(graphs, cost, s) && Stuck(graphs, cost, s) && i < |s.pc| == |s.b.pc| && s.b.pc[i].Asleep?
    ensures B.Sized(s.b) && s.b.arrived[i] == s.b.gen + 1 && s.b.gen < Waits(|s.ran[i]|, cost)
  {
    B.ReachInv(s.b);
    WaitsLeft(graphs, cost, s, i);
    if B.WakePending(s.b) {
      var w: nat :| w < |s.b.pc| && s.b.pc[w] == B.Wake;
      StuckThread(graphs, cost, s, w);
      OutsideUnlessRunning(graphs, cost, s, w);
    }
    assert B.ThreadOk(s.b, i);
    hide Inv, Stuck, Waits, B.CountOk;
  }

  /** What a thread has started, if it is out of the barrier; and how far the others can be. */
  lemma OutAndStarted(graphs: seq<Work>, cost: nat -> nat, s: State, j: nat, i: nat)
    requires Inv(graphs, cost, s) && Stuck(graphs, cost, s) && j < |s.pc| == |s.b.pc| && i < |s.pc|
    requires !s.b.pc[j].Asleep?
    ensures B.Sized(s.b) && |s.ran| == |s.pc| && s.b.pc[j] == B.Outside && s.b.gen == Waits(|s.ran[j]|, cost) == s.b.returned[j]
    ensures |s.ran[i]| <= |s.ran[j]|
  {
    StuckThread(graphs, cost, s, 0);
    StuckThread(graphs, cost, s, j);
    StuckThread(graphs, cost, s, i);
    assert ThreadOk(graphs, cost, s, j) && ThreadOk(graphs, cost, s, i);
    B.ReachThread(s.b, j);
    hide B.Reachable, Waits, Stuck, LockOk, ThreadsOk, Packed, B.CountOk;
  }

  lemma NobodyInBarrier(graphs: seq<Work>, cost: nat -> nat, s: State, i: nat)
    requires Inv(graphs, cost, s) && Stuck(graphs, cost, s) && i < |s.pc|
    ensures |s.b.pc| == |s.pc| && !s.b.pc[i].Asleep?
  {
    assert |s.b.pc| == |s.pc| && B.Reachable(s.b) && B.Sized(s.b);
    hide Inv, Stuck, B.Reachable, B.Inv, Waits;
    if s.b.pc[i].Asleep? {
      B.ReachInv(s.b);
      P.AllAsleep(s.b);
      var j: nat :| j < |s.b.pc| && !(s.b.arrived[j] == s.b.gen + 1 && s.b.pc[j].Asleep?);
      BarrierSleeper(graphs, cost, s, i);
      if s.b.pc[j].Asleep? {
        BarrierSleeper(graphs, cost, s, j);
      } else {
        OutAndStarted(graphs, cost, s, j, i);
        WaitsMono(cost, |s.ran[i]|, |s.ran[j]|);
      }
    }
  }

  lemma RestIsFinished(graphs: seq<Work>, cost: nat -> nat, s: State, i: nat)
    requires Inv(graphs, cost, s) && Stuck(graphs, cost, s) && i < |s.pc|
    ensures |s.ran| == |s.pc| == |s.b.pc| == |s.b.returned| && s.pc[0].StoreFn?
    ensures s.ran[i] == graphs && (i > 0 ==> s.pc[i].Asleep?)
    ensures s.b.pc[i] == B.Outside && s.b.returned[i] == Waits(|graphs|, cost)
  {
    NobodyInBarrier(graphs, cost, s, 0);
    NobodyInBarrier(graphs, cost, s, i);
    StuckThread(graphs, cost, s, 0);
    StuckThread(graphs, cost, s, i);
    OutAndStarted(graphs, cost, s, i, 0);
    assert ThreadOk(graphs, cost, s, i);
    hide B.Reachable, Waits, Stuck, LockOk, ThreadsOk, Packed;
  }

  /** Unless the pool has finished, some thread that is not asleep can change the state. */
  lemma NoDeadlock(graphs: seq<Work>, cost: nat -> nat, s: State)
    requires Inv(graphs, cost, s) && !Finished(graphs, cost, s)
    ensures exists i: nat :: Moves(graphs, cost, s, i)
  {
    if Stuck(graphs, cost, s) {
      WorkerKind(graphs, cost, s, 0);
      hide Inv, Stuck, Sized;
      RestIsFinished(graphs, cost, s, 0);
      forall i: nat | i < |s.pc|
        ensures s.ran[i] == graphs && (i > 0 ==> s.pc[i].Asleep?)
        ensures s.b.pc[i] == B.Outside && s.b.returned[i] == Waits(|graphs|, cost)
      {
        RestIsFinished(graphs, cost, s, i);
      }
    }
  }

  // ---------- runs ----------

  ghost predicate Advances(graphs: seq<Work>, cost: nat -> nat, s: State, s': State) {
    exists i: nat :: Moves(graphs, cost, s, i) && s' == Step(graphs, cost, s, i)
  }

  /** A continuation without spurious wake-ups, each of whose steps changes the state. */
  ghost predicate Advancing(graphs: seq<Work>, cost: nat -> nat, run: seq<State>) {
    run != [] && forall k :: 0 < k < |run| ==> Advances(graphs, cost, run[k - 1], run[k])
  }

  lemma AdvanceInv(graphs: seq<Work>, cost: nat -> nat, s: State, s': State)
    requires Inv(graphs, cost, s) && AllWait(graphs, cost) && Advances(graphs, cost, s, s')
    ensures Inv(graphs, cost, s') && |s.pc| == |s.ran| && |s.b.pc| == |s.b.returned|
    ensures |s'.pc| == |s'.ran| && |s'.b.pc| == |s'.b.returned| && Rank(graphs, cost, s') < Rank(graphs, cost, s)
  {
    WorkerKind(graphs, cost, s, 0);
    hide Inv, AllWait, Step, Rank;
    var i: nat :| Moves(graphs, cost, s, i) && s' == Step(graphs, cost, s, i);
    StepInv(graphs, cost, s, i);
    RankStep(graphs, cost, s, i);
  }

  lemma {:induction false} AdvancingBound(graphs: seq<Work>, cost: nat -> nat, run: seq<State>, k: nat)
    requires Advancing(graphs, cost, run) && Inv(graphs, cost, run[0]) && AllWait(graphs, cost) && k < |run|
    ensures Inv(graphs, cost, run[k]) && Sized(graphs, run[0]) && Sized(graphs, run[k])
    ensures k + Rank(graphs, cost, run[k]) <= Rank(graphs, cost, run[0])
  {
    WorkerKind(graphs, cost, run[0], 0);
    hide Inv, AllWait, Rank, Sized, Advances;
    if k > 0 {
      AdvancingBound(graphs, cost, run, k - 1);
      AdvanceInv(graphs, cost, run[k - 1], run[k]);
      WorkerKind(graphs, cost, run[k], 0);
    }
  }

  /** From a reachable state every such continuation is finite, and when it cannot go on, every thread has
      run every graph and every worker sleeps: nothing the scheduler does makes the pool hang. */
  lemma EveryRunFinishes(graphs: seq<Work>, cost: nat -> nat, n: nat, past: seq<State>, run: seq<State>)
    requires 1 < n < COUNTER_UNIT && AllWait(graphs, cost) && IsRun(graphs, cost, n, past)
    requires Advancing(graphs, cost, run) && run[0] == past[|past| - 1]
    ensures Sized(graphs, run[0]) && |run| <= Rank(graphs, cost, run[0]) + 1
    ensures Stuck(graphs, cost, run[|run| - 1]) ==> Finished(graphs, cost, run[|run| - 1])
  {
    hide Inv, AllWait, Rank, Sized, Advances, Finished, Moves;
    RunInv(graphs, cost, n, past, |past| - 1);
    AdvancingBound(graphs, cost, run, |run| - 1);
    if !Finished(graphs, cost, run[|run| - 1]) {
      NoDeadlock(graphs, cost, run[|run| - 1]);
    }
  }

  /** And there is one that finishes. */
  lemma SomeRunFinishes(graphs: seq<Work>, cost: nat -> nat, n: nat, past: seq<State>) returns (run: seq<State>)
    requires 1 < n < COUNTER_UNIT && AllWait(graphs, cost) && IsRun(graphs, cost, n, past)
    ensures Advancing(graphs, cost, run) && run[0] == past[|past| - 1] && Finished(graphs, cost, run[|run| - 1])
  {
    hide Inv, AllWait, Rank, Sized, Finished, Moves, Step;
    RunInv(graphs, cost, n, past, |past| - 1);
    run := [past[|past| - 1]];
    while !Finished(graphs, cost, run[|run| - 1])
      invariant Advancing(graphs, cost, run) && run[0] == past[|past| - 1] && Inv(graphs, cost, run[|run| - 1])
      decreases Remaining(graphs, cost, run[|run| - 1])
    {
      var s := run[|run| - 1];
      NoDeadlock(graphs, cost, s);
      var i: nat :| Moves(graphs, cost, s, i);
      MovesFrom(graphs, cost, s, i);
      var s' := Step(graphs, cost, s, i);
      AdvanceInv(graphs, cost, s, s');
      run := run + [s'];
    }
  }

  function Remaining(graphs: seq<Work>, cost: nat -> nat, s: State): nat {
    if |s.pc| == |s.ran| && |s.b.pc| == |s.b.returned| then Rank(graphs, cost, s) else 0
  }

  lemma MovesFrom(graphs: seq<Work>, cost: nat -> nat, s: State, i: nat)
    requires Moves(graphs, cost, s, i)
    ensures Sized(graphs, s) && i < |s.pc| && Advances(graphs, cost, s, Step(graphs, cost, s, i))
  {
    hide Sized, Step;
  }
}
