/** What holds in every run of the work-stealing rounds (src/inference/forward_graph_layer.rs,
    src/inference/matmul_graph.rs). */
module StealingRuns {
  import B = SpinBarrier
  import opened WorkStealing

  ghost predicate Next(jobs: seq<Job>, s: State, s': State) {
    exists i: nat :: Sized(jobs, s) && i < |s.pc| && s' == Step(jobs, s, i)
  }

  ghost predicate IsRun(jobs: seq<Job>, n: nat, counter: int, out: map<nat, real>, run: seq<State>) {
    run != [] && run[0] == Init(jobs, n, counter, out) && forall k :: 0 < k < |run| ==> Next(jobs, run[k - 1], run[k])
  }

  lemma NextInv(jobs: seq<Job>, s: State, s': State)
    requires Inv(jobs, s) && JobsOk(jobs, |s.pc|) && Next(jobs, s, s')
    ensures Inv(jobs, s') && |s'.pc| == |s.pc|
  {
    hide Inv, JobsOk, Sized;
    var i: nat :| Sized(jobs, s) && i < |s.pc| && s' == Step(jobs, s, i);
    StepInv(jobs, s, i);
  }

  lemma {:induction false} RunInv(jobs: seq<Job>, n: nat, counter: int, out: map<nat, real>, run: seq<State>, k: nat)
    requires n > 1 && JobsOk(jobs, n) && IsRun(jobs, n, counter, out, run) && k < |run|
    ensures Inv(jobs, run[k]) && |run[k].pc| == n
  {
    hide Inv, Next, JobsOk, Init;
    if k > 0 {
      RunInv(jobs, n, counter, out, run, k - 1);
      NextInv(jobs, run[k - 1], run[k]);
    } else {
      InitInv(jobs, n, counter, out);
    }
  }

  lemma CompleteCovers(job: Job, log: Log, a: nat)
    requires LogSized(job, log) && Complete(job, log)
    ensures Written(job, log, a) <==> Covers(job, a)
  {
  }

  /** Address a holds what the place that writes it computes. */
  ghost predicate HoldsCell(job: Job, out: map<nat, real>, a: nat) {
    && (forall q: nat, k: nat :: InChunk(job, a, q, k) ==> a in out && out[a] == job.chunkVal(q, k))
    && (forall k: nat :: InRest(job, a, k) ==> a in out && out[a] == job.restVal(k))
  }

  lemma CellHeld(job: Job, out: map<nat, real>, a: nat)
    requires Distinct(job) && (Covers(job, a) ==> a in out && out[a] == Val(job, a))
    ensures HoldsCell(job, out, a)
  {
    hide Val;
    forall q: nat, k: nat | InChunk(job, a, q, k)
      ensures a in out && out[a] == job.chunkVal(q, k)
    {
      ValOfChunk(job, q, k);
    }
    forall k: nat | InRest(job, a, k)
      ensures a in out && out[a] == job.restVal(k)
    {
      ValOfRest(job, k);
    }
  }

  /** Thread i has returned from the closing wait of round r and not yet entered its next wait: it finds
      every address of job r written exactly once, with what the chunk or remainder place that writes it
      computed, and no other address written. */
  lemma RoundResult(jobs: seq<Job>, s: State, i: nat, r: nat, a: nat)
    requires Inv(jobs, s) && i < |s.pc| && r < |jobs| && Distinct(jobs[r])
    requires s.b.pc[i] == B.Outside && s.b.returned[i] == 2 * r + 2
    ensures s.logs[r].hits[a] == if Covers(jobs[r], a) then 1 else 0
    ensures HoldsCell(jobs[r], s.out, a)
  {
    B.ReachThread(s.b, i);
    assert s.b.gen == 2 * r + 2;
    assert LogOk(jobs[r], s.logs[r], r, s.b.gen, s.out);
    CompleteCovers(jobs[r], s.logs[r], a);
    hide B.Reachable, Written, Covers, Complete, Val, HoldsCell, Distinct;
    CellHeld(jobs[r], s.out, a);
  }

  lemma StealingComputes(jobs: seq<Job>, n: nat, counter: int, out: map<nat, real>, run: seq<State>,
                            k: nat, i: nat, r: nat, a: nat)
    requires n > 1 && JobsOk(jobs, n) && IsRun(jobs, n, counter, out, run) && k < |run|
    requires i < n && r < |jobs|
    ensures var s := run[k];
            && i < |s.b.pc| && i < |s.b.returned| && r < |s.logs|
            && (s.b.pc[i] == B.Outside && s.b.returned[i] == 2 * r + 2 ==>
                  && s.logs[r].hits[a] == (if Covers(jobs[r], a) then 1 else 0)
                  && HoldsCell(jobs[r], s.out, a))
  {
    RunInv(jobs, n, counter, out, run, k);
    if run[k].b.pc[i] == B.Outside && run[k].b.returned[i] == 2 * r + 2 {
      RoundResult(jobs, run[k], i, r, a);
    }
  }

  /** Two threads never hold cells of the same chunk, and the counter never wraps. */
  lemma NoSharedChunk(jobs: seq<Job>, n: nat, counter: int, out: map<nat, real>, run: seq<State>,
                         k: nat, i: nat, j: nat)
    requires n > 1 && JobsOk(jobs, n) && IsRun(jobs, n, counter, out, run) && k < |run| && i < n && j < n
    ensures |run[k].pc| == n
    ensures run[k].pc[i].Steal? && run[k].pc[j].Steal? && run[k].pc[i].c == run[k].pc[j].c ==> i == j
    ensures run[k].pc[i].Claim? ==> run[k].counter < I32_MAX
  {
    RunInv(jobs, n, counter, out, run, k);
    var s := run[k];
    if s.pc[i].Steal? {
      InRound(jobs, s, i);
      assert Held(s.pc[i], i) == s.pc[i].c;
      assert s.pc[j].Steal? ==> Held(s.pc[j], j) == s.pc[j].c;
    }
    if s.pc[i].Claim? {
      InRound(jobs, s, i);
      assert PcOk(jobs, s.logs, s.pc[i]);
      CounterBound(jobs[s.pc[i].r], s.logs[s.pc[i].r], s.pc[i].r, s.counter, s.pc, i);
    }
  }
}
