/** What holds in every run of the graph pool (src/inference/threadpool.rs). */
module GraphPoolRuns {
  import B = SpinBarrier
  import opened GraphPool

  ghost predicate Next(graphs: seq<Work>, cost: nat -> nat, s: State, s': State) {
    exists i: nat :: Sized(graphs, s) && i < |s.pc| && s' == Step(graphs, cost, s, i)
  }

  /** The main thread dispatches `graphs` one after the other on a pool of n threads. */
  ghost predicate IsRun(graphs: seq<Work>, cost: nat -> nat, n: nat, run: seq<State>) {
    && run != [] && (exists fn: int, data: int :: run[0] == Init(n, fn, data))
    && forall k :: 0 < k < |run| ==> Next(graphs, cost, run[k - 1], run[k])
  }

  lemma NextInv(graphs: seq<Work>, cost: nat -> nat, s: State, s': State)
    requires Inv(graphs, cost, s) && AllWait(graphs, cost) && Next(graphs, cost, s, s')
    ensures Inv(graphs, cost, s') && |s'.pc| == |s.pc|
  {
    hide Inv, AllWait, Sized;
    var i: nat :| Sized(graphs, s) && i < |s.pc| && s' == Step(graphs, cost, s, i);
    StepInv(graphs, cost, s, i);
  }

  lemma {:induction false} RunInv(graphs: seq<Work>, cost: nat -> nat, n: nat, run: seq<State>, k: nat)
    requires 1 < n < COUNTER_UNIT && AllWait(graphs, cost) && IsRun(graphs, cost, n, run) && k < |run|
    ensures Inv(graphs, cost, run[k]) && |run[k].pc| == n
  {
    hide Inv, AllWait, Next, Init;
    if k == 0 {
      var fn: int, data: int :| run[0] == Init(n, fn, data);
      InitInv(graphs, cost, n, fn, data);
    } else {
      RunInv(graphs, cost, n, run, k - 1);
      NextInv(graphs, cost, run[k - 1], run[k]);
    }
  }

  /** In every reachable state, what each thread has started is a prefix of the dispatched graphs, in
      order, each with its own function and data; threads differ by at most one graph; and whenever the
      main thread is about to publish another graph, all threads have started the same ones. */
  lemma GraphsInOrder(graphs: seq<Work>, cost: nat -> nat, n: nat, run: seq<State>, k: nat, i: nat)
    requires 1 < n < COUNTER_UNIT && AllWait(graphs, cost) && IsRun(graphs, cost, n, run) && k < |run| && i < n
    ensures var s := run[k];
            && |s.pc| == |s.ran| == n
            && s.ran[i] <= graphs
            && (s.pc[i].Run? ==> s.ran[i] != [] && s.pc[i].work == graphs[|s.ran[i]| - 1])
            && |s.ran[0]| - 1 <= |s.ran[i]| <= |s.ran[0]| + 1
            && (s.pc[0].StoreFn? || s.pc[0].StoreData? ==> |s.ran[i]| == |s.ran[0]|)
  {
    RunInv(graphs, cost, n, run, k);
    assert ThreadOk(graphs, cost, run[k], i);
    hide B.Reachable, Packed, Waits, IsRun, AllWait;
  }

  /** Once the main thread has run the last graph, every thread has started each graph exactly once. */
  lemma EveryGraphOnce(graphs: seq<Work>, cost: nat -> nat, n: nat, run: seq<State>, k: nat, i: nat)
    requires 1 < n < COUNTER_UNIT && AllWait(graphs, cost) && IsRun(graphs, cost, n, run) && k < |run| && i < n
    ensures var s := run[k];
            |s.pc| == |s.ran| == n && (s.pc[0].StoreFn? && |s.ran[0]| == |graphs| ==> s.ran[i] == graphs)
  {
    GraphsInOrder(graphs, cost, n, run, k, i);
    hide IsRun, AllWait;
  }

  /** While the main thread is about to notify, a sleeping worker has not started the new graph: it would
      have had to meet the main thread in the barrier. */
  lemma BehindAtNotify(graphs: seq<Work>, cost: nat -> nat, s: State, i: nat)
    requires Inv(graphs, cost, s) && AllWait(graphs, cost) && 0 < i < |s.pc| && s.pc[i].Asleep? && s.pc[0].Notify?
    ensures |s.ran[i]| + 1 == s.sent && s.last[i] == Packed(s.sent - 1, |s.pc|)
  {
    B.ReachInv(s.b);
    B.Separation(s.b, i, 0);
    assert ThreadOk(graphs, cost, s, i) && ThreadOk(graphs, cost, s, 0);
    Entered(graphs, cost, s, 0);
    assert cost(|s.ran[0]|) >= 1;
    assert Waits(|s.ran[0]| + 1, cost) == Waits(|s.ran[0]|, cost) + cost(|s.ran[0]|);
    hide B.Reachable, Packed, Waits, LockOk, ThreadsOk;
  }

  /** A sleeping worker has seen the current counter, and so has started every graph dispatched so far,
      except exactly in the moment before the main thread's notify. A worker that looks finds the counter
      unchanged exactly if it has started every graph dispatched so far. */
  lemma SleepsOnlyWhenIdle(graphs: seq<Work>, cost: nat -> nat, n: nat, run: seq<State>, k: nat, i: nat)
    requires 1 < n < COUNTER_UNIT && AllWait(graphs, cost) && IsRun(graphs, cost, n, run) && k < |run| && 0 < i < n
    ensures var s := run[k];
            && |s.pc| == |s.last| == |s.ran| == n
            && (s.pc[i].Asleep? ==> (s.last[i] == s.counter <==> !s.pc[0].Notify?))
            && (s.pc[i].Asleep? ==> (|s.ran[i]| == s.sent <==> !s.pc[0].Notify?))
            && (s.pc[i].Poll? || s.pc[i].Check? ==> (s.last[i] == s.counter <==> |s.ran[i]| == s.sent))
  {
    RunInv(graphs, cost, n, run, k);
    var s := run[k];
    assert ThreadOk(graphs, cost, s, i);
    if s.pc[i].Poll? || s.pc[i].Check? {
      SeenIsNew(graphs, cost, s, i);
    } else if s.pc[i].Asleep? && s.pc[0].Notify? {
      BehindAtNotify(graphs, cost, s, i);
      BumpOk(Packed(s.sent - 1, n), n);
    }
    hide B.Reachable, Waits, IsRun, AllWait, Bump;
  }
}
