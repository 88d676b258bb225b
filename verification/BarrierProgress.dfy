/** Progress of the spin-then-futex barrier (src/inference/threadpool.rs, SpinBarrier): whatever the
    scheduler does, threads that each call wait() the same number of times all get out of every wait.
    Spurious wake-ups are allowed, and each costs at most three further steps. */
module BarrierProgress {
  import opened Ranks
  import opened SpinBarrier

  // ---------- schedules ----------

  predicate Names(s: State, who: seq<nat>) {
    forall k: nat :: k < |who| ==> who[k] < |s.pc|
  }

  /** The state after the threads in `who` have stepped in that order. */
  function After(s: State, who: seq<nat>): (t: State)
    requires Sized(s) && Names(s, who)
    ensures Sized(t) && |t.pc| == |s.pc|
  {
    if who == [] then s
    else
      var t, i := After(s, who[..|who| - 1]), who[|who| - 1];
      StepSelf(t, i);
      Step(t, i)
  }

  /** No thread calls wait() once it has completed `laps` waits. */
  predicate Calls(s: State, i: nat, laps: nat)
    requires i < |s.pc| == |s.returned|
  {
    s.pc[i].Outside? ==> s.returned[i] < laps
  }

  ghost predicate Schedule(s: State, laps: nat, who: seq<nat>)
    requires Sized(s)
  {
    && Names(s, who)
    && (who == [] || (Schedule(s, laps, who[..|who| - 1]) && Calls(After(s, who[..|who| - 1]), who[|who| - 1], laps)))
  }

  /** How often a schedule wakes a sleeper without the waker. */
  ghost function Spurious(s: State, who: seq<nat>): nat
    requires Sized(s) && Names(s, who)
  {
    if who == [] then 0
    else
      var t, i := After(s, who[..|who| - 1]), who[|who| - 1];
      Spurious(s, who[..|who| - 1]) + if t.pc[i].Asleep? then 1 else 0
  }

  /** A thread takes a step of its own accord. */
  predicate Moves(s: State, i: nat, laps: nat)
    requires i < |s.pc| == |s.returned|
  {
    Calls(s, i, laps) && !s.pc[i].Asleep?
  }

  /** Spinning never has more polls left than the budget. */
  predicate SpinBounded(s: State) {
    forall i: nat :: i < |s.pc| && s.pc[i].Spin? ==> s.pc[i].left <= SPIN_BUDGET
  }

  /** No thread has completed more than `laps` waits or is inside a further one. */
  ghost predicate Within(s: State, laps: nat) {
    && Inv(s) && SpinBounded(s)
    && forall i: nat :: i < |s.pc| ==> s.returned[i] <= laps && (!s.pc[i].Outside? ==> s.returned[i] < laps)
  }

  ghost predicate Done(s: State, laps: nat)
    requires Sized(s)
  {
    forall i: nat :: i < |s.pc| ==> s.pc[i].Outside? && s.returned[i] == laps
  }

  // ---------- a rank that every step lowers ----------

  /** More than the steps of one wait() among n threads. */
  function Lap(n: nat): nat {
    SPIN_BUDGET + 2 * n + 10
  }

  /** What is left of the wait() a thread is in. The wake-up call pays for the sleepers it disturbs. */
  function Left(n: nat, passed: nat, p: Pc): nat {
    match p
    case Outside => 0
    case Loaded(_) => Lap(n) - 1
    case Reset => 2 * n + 3
    case Bump => 2 * n + 2
    case Wake => 2 * n + 1
    case Spin(_, left) => 7 + left
    case Recheck(seen) => if seen == passed then 6 else 1
    case FutexCall(seen) => if seen == passed then 5 else 2
    case Asleep(seen) => if seen == passed then 4 else 3
  }

  function ThreadRank(n: nat, passed: nat, laps: nat, p: Pc, returned: nat): nat {
    Left(n, passed, p) + Repeat(if p.Outside? then Minus(laps, returned) else Minus(laps, returned + 1), Lap(n))
  }

  /** The threads' ranks together. */
  function Rank(s: State, laps: nat): nat
    requires |s.pc| == |s.returned|
  {
    Total(ThreadRanks(s, laps))
  }

  function ThreadRanks(s: State, laps: nat): (r: seq<nat>)
    requires |s.pc| == |s.returned|
    ensures |r| == |s.pc|
    ensures forall j: nat :: j < |r| ==> r[j] == ThreadRank(|s.pc|, s.passed, laps, s.pc[j], s.returned[j])
  {
    seq(|s.pc|, j requires 0 <= j < |s.pc| => ThreadRank(|s.pc|, s.passed, laps, s.pc[j], s.returned[j]))
  }

  /** What a step may add to the rank of each other thread. */
  function Toll(p: Pc): nat {
    if p.Wake? then 2 else 0
  }

  /** The thread that steps loses rank, and if it is the waker enough of it to pay for two units of
      everyone else. A sleeper that wakes by itself gains two units. */
  lemma OwnRank(s: State, i: nat, laps: nat)
    requires Within(s, laps) && i < |s.pc| && Calls(s, i, laps)
    ensures var s' := Step(s, i);
            && |s'.pc| == |s.pc| == |s'.returned|
            && ThreadRank(|s.pc|, s'.passed, laps, s'.pc[i], s'.returned[i]) + (if s.pc[i].Wake? then 2 * |s.pc| else 0)
               < ThreadRank(|s.pc|, s.passed, laps, s.pc[i], s.returned[i]) + if s.pc[i].Asleep? then 3 else 0
  {
    assert ThreadOk(s, i);
    hide CountOk, WakePending, WakeAll;
  }

  lemma OtherRank(s: State, i: nat, j: nat, laps: nat)
    requires Within(s, laps) && i < |s.pc| && j < |s.pc| && i != j
    ensures var s' := Step(s, i);
            && |s'.pc| == |s.pc| == |s'.returned|
            && ThreadRank(|s.pc|, s'.passed, laps, s'.pc[j], s'.returned[j])
               <= ThreadRank(|s.pc|, s.passed, laps, s.pc[j], s.returned[j]) + Toll(s.pc[i])
  {
    if s.pc[i].Bump? {
      BumpRank(s, i, j, laps);
    } else {
      StepFrame(s, i, j);
      assert s.pc[i].Wake? ==> Step(s, i).passed == s.passed;
      hide Inv, Repeat, WakeAll;
    }
  }

  lemma BumpRank(s: State, i: nat, j: nat, laps: nat)
    requires Inv(s) && i < |s.pc| && j < |s.pc| && i != j && s.pc[i].Bump?
    ensures Step(s, i).pc[j] == s.pc[j] && Step(s, i).returned[j] == s.returned[j]
    ensures ThreadRank(|s.pc|, Step(s, i).passed, laps, s.pc[j], s.returned[j])
            <= ThreadRank(|s.pc|, s.passed, laps, s.pc[j], s.returned[j])
  {
    assert ThreadOk(s, j);
    assert Closing(s.pc[i]) && s.arrived[j] == s.gen + 1;
    hide WakePending, Repeat, CountOk;
  }

  // ---------- staying within the laps ----------

  lemma WithinStep(s: State, i: nat, laps: nat)
    requires Within(s, laps) && i < |s.pc| && Calls(s, i, laps)
    ensures Within(Step(s, i), laps)
  {
    StepInv(s, i);
    var s' := Step(s, i);
    StepSelf(s, i);
    hide Inv;
    forall j: nat | j < |s.pc|
      ensures s'.returned[j] <= laps && (!s'.pc[j].Outside? ==> s'.returned[j] < laps)
      ensures s'.pc[j].Spin? ==> s'.pc[j].left <= SPIN_BUDGET
    {
      if j != i { StepFrame(s, i, j); }
    }
  }

  lemma {:induction false} RunSpins(n: nat, run: seq<State>, k: nat)
    requires n > 1 && IsRun(n, run) && k < |run|
    ensures SpinBounded(run[k])
  {
    if k > 0 {
      RunSpins(n, run, k - 1);
      var s := run[k - 1];
      var i: nat :| i < |s.pc| == |s.arrived| == |s.returned| && run[k] == Step(s, i);
    }
  }

  lemma ReachSpins(s: State)
    requires Reachable(s)
    ensures SpinBounded(s)
  {
    hide SpinBounded, Next;
    var n: nat, run: seq<State> :| n > 1 && IsRun(n, run) && run[|run| - 1] == s;
    RunSpins(n, run, |run| - 1);
  }

  /** A reachable state is within any number of laps above its generation. */
  lemma ReachWithin(s: State, laps: nat)
    requires Reachable(s) && s.gen < laps
    ensures Within(s, laps)
  {
    ReachInv(s);
    ReachSpins(s);
    forall i: nat | i < |s.pc|
      ensures s.returned[i] <= s.gen
    {
      assert ThreadOk(s, i);
    }
  }

  lemma {:induction false} ScheduleBound(s: State, laps: nat, who: seq<nat>)
    requires Sized(s) && Within(s, laps) && Schedule(s, laps, who)
    ensures Within(After(s, who), laps)
    ensures |who| + Rank(After(s, who), laps) <= Rank(s, laps) + 3 * Spurious(s, who)
  {
    hide Within, Step, Rank, Calls;
    if who != [] {
      var before, i := who[..|who| - 1], who[|who| - 1];
      ScheduleBound(s, laps, before);
      RankStep(After(s, before), i, laps);
      WithinStep(After(s, before), i, laps);
    }
  }

  lemma RankStep(s: State, i: nat, laps: nat)
    requires Within(s, laps) && i < |s.pc| && Calls(s, i, laps)
    ensures Sized(s) && Sized(Step(s, i))
    ensures Rank(Step(s, i), laps) < Rank(s, laps) + if s.pc[i].Asleep? then 3 else 0
  {
    StepSelf(s, i);
    OwnRank(s, i, laps);
    hide Within, Step, ThreadRank, Total;
    var a, b := ThreadRanks(s, laps), ThreadRanks(Step(s, i), laps);
    forall j: nat | j < |a| && j != i
      ensures b[j] <= a[j] + Toll(s.pc[i])
    {
      OtherRank(s, i, j, laps);
    }
    TotalFalls(a, b, i, Toll(s.pc[i]), if s.pc[i].Wake? then 2 * |s.pc| else 0, if s.pc[i].Asleep? then 3 else 0);
  }

  /** A schedule from a reachable state that gives every thread no more than `laps` waits is finite: its
      length is bounded by the state's rank and three steps for each spurious wake-up. */
  lemma StepsBounded(s: State, laps: nat, who: seq<nat>)
    requires Reachable(s) && s.gen < laps && Sized(s) && Schedule(s, laps, who)
    ensures |who| <= Rank(s, laps) + 3 * Spurious(s, who)
  {
    ReachWithin(s, laps);
    ScheduleBound(s, laps, who);
  }

  // ---------- no deadlock ----------

  /** A thread that cannot move sleeps on the current generation, if no waker is on its way. */
  lemma StuckAsleep(s: State, i: nat, laps: nat)
    requires Within(s, laps) && i < |s.pc| && !Moves(s, i, laps) && !WakePending(s)
    ensures (s.arrived[i] == s.gen + 1 && s.pc[i].Asleep? && s.gen < laps) || (s.pc[i].Outside? && s.returned[i] == s.gen == laps)
  {
    assert ThreadOk(s, i);
    hide CountOk;
  }

  lemma AllAsleep(s: State)
    requires Inv(s)
    ensures exists i: nat :: i < |s.pc| && !(s.arrived[i] == s.gen + 1 && s.pc[i].Asleep?)
  {
    if forall i: nat :: i < |s.pc| ==> s.arrived[i] == s.gen + 1 && s.pc[i].Asleep? {
      AllArrived(s.arrived, s.gen + 1);
      hide ThreadOk, Arrivals;
    }
  }

  /** Unless every thread has completed its waits, one that is awake can go on. */
  lemma NoDeadlock(s: State, laps: nat)
    requires Within(s, laps) && !Done(s, laps)
    ensures exists i: nat :: i < |s.pc| && Moves(s, i, laps)
  {
    if WakePending(s) {
      var w: nat :| w < |s.pc| && s.pc[w] == Wake;
      assert Moves(s, w, laps);
    } else {
      var j: nat :| j < |s.pc| && !(s.pc[j].Outside? && s.returned[j] == laps);
      AllAsleep(s);
      var i: nat :| i < |s.pc| && !(s.arrived[i] == s.gen + 1 && s.pc[i].Asleep?);
      if !Moves(s, i, laps) && !Moves(s, j, laps) {
        StuckAsleep(s, i, laps);
        StuckAsleep(s, j, laps);
      }
      hide Inv, WakePending;
    }
  }

  /** When a schedule can only go on by spurious wake-ups, every thread has returned from all its waits. */
  lemma StuckIsDone(s: State, laps: nat, who: seq<nat>)
    requires Reachable(s) && s.gen < laps && Sized(s) && Schedule(s, laps, who)
    requires var t := After(s, who); forall i: nat :: i < |t.pc| ==> !Moves(t, i, laps)
    ensures Done(After(s, who), laps)
  {
    ReachWithin(s, laps);
    ScheduleBound(s, laps, who);
    if !Done(After(s, who), laps) {
      NoDeadlock(After(s, who), laps);
    }
  }

  lemma GoOn(s: State, laps: nat, who: seq<nat>) returns (i: nat)
    requires Sized(s) && Schedule(s, laps, who) && Within(After(s, who), laps) && !Done(After(s, who), laps)
    ensures Schedule(s, laps, who + [i]) && Spurious(s, who + [i]) == Spurious(s, who)
    ensures Within(After(s, who + [i]), laps) && Rank(After(s, who + [i]), laps) < Rank(After(s, who), laps)
  {
    hide Within, Done, Rank, Step;
    var t := After(s, who);
    NoDeadlock(t, laps);
    i :| i < |t.pc| && Moves(t, i, laps);
    RankStep(t, i, laps);
    WithinStep(t, i, laps);
    assert (who + [i])[..|who|] == who;
  }

  /** From every reachable state some schedule without spurious wake-ups gets every thread, asleep or
      not, out of every wait. */
  lemma EveryWaitReturns(s: State, laps: nat) returns (who: seq<nat>)
    requires Reachable(s) && s.gen < laps && Sized(s)
    ensures Schedule(s, laps, who) && Spurious(s, who) == 0 && Done(After(s, who), laps)
  {
    ReachWithin(s, laps);
    who := [];
    while !Done(After(s, who), laps)
      invariant Schedule(s, laps, who) && Spurious(s, who) == 0 && Within(After(s, who), laps)
      decreases Rank(After(s, who), laps)
    {
      hide Within, Done, Rank, Schedule, Spurious, After;
      var i := GoOn(s, laps, who);
      who := who + [i];
    }
  }
}
