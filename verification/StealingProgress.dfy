/** Progress of the work-stealing rounds (src/inference/forward_graph_layer.rs,
    src/inference/matmul_graph.rs): whatever the scheduler does, without spurious wake-ups the rounds end
    after a bounded number of steps, with every cell of every job written once and every thread out. */
module StealingProgress {
  import B = SpinBarrier
  import P = BarrierProgress
  import opened Ranks
  import opened StealingRuns
  import opened WorkStealing

  /** A thread that is not asleep in the barrier changes the state. */
  ghost predicate Moves(jobs: seq<Job>, s: State, i: nat) {
    Sized(jobs, s) && i < |s.pc| && !s.b.pc[i].Asleep? && Step(jobs, s, i) != s
  }

  /** Every thread is past the last round, and every job is written, each address once. */
  ghost predicate Finished(jobs: seq<Job>, s: State) {
    && Sized(jobs, s)
    && (forall i: nat :: i < |s.pc| ==>
          s.pc[i] == Store(|jobs|) && s.b.pc[i] == B.Outside && s.b.returned[i] == 2 * |jobs|)
    && forall r: nat :: r < |jobs| ==> Complete(jobs[r], s.logs[r]) && HitOnce(jobs[r], s.logs[r])
  }

  // ---------- the barrier ----------

  lemma BarrierWithin(jobs: seq<Job>, s: State)
    requires Inv(jobs, s)
    ensures B.Sized(s.b) && |s.b.pc| == |s.pc| && P.Within(s.b, 2 * |jobs|)
  {
    B.ReachInv(s.b);
    P.ReachSpins(s.b);
    forall i: nat | i < |s.pc|
      ensures s.b.returned[i] <= 2 * |jobs| && (!s.b.pc[i].Outside? ==> s.b.returned[i] < 2 * |jobs|)
    {
      assert PcOk(jobs, s.logs, s.pc[i]);
      assert ThreadOk(s.pc[i], i, s.b.pc[i] == B.Outside, s.b.returned[i]);
    }
    hide B.Reachable, B.Inv, LogsOk, RoundOk, P.SpinBounded;
  }

  lemma BarrierCalls(jobs: seq<Job>, s: State, i: nat)
    requires Inv(jobs, s) && i < |s.pc| == |s.b.pc| && B.Sized(s.b) && AtBarrier(s, i)
    ensures P.Calls(s.b, i, 2 * |jobs|)
  {
    assert PcOk(jobs, s.logs, s.pc[i]);
    hide B.Reachable, LogsOk, RoundOk, ThreadsOk;
  }

  // ---------- a rank that every step lowers ----------

  /** Steps of a thread in its round; claiming again is paid for by the counter. */
  function Left(p: Pc): nat {
    match p
    case Store(_) => 6
    case Open(_) => 5
    case Steal(_, _, _) => 4
    case Claim(_, _) => 3
    case Rest(_, _, _) => 2
    case Close(_, _) => 1
  }

  function ThreadRank(rounds: nat, p: Pc): nat {
    Repeat(Minus(rounds, p.r), 10) + Left(p)
  }

  function ThreadRanks(rounds: nat, pc: seq<Pc>): (r: seq<nat>)
    ensures |r| == |pc| && forall j: nat :: j < |r| ==> r[j] == ThreadRank(rounds, pc[j])
  {
    seq(|pc|, j requires 0 <= j < |pc| => ThreadRank(rounds, pc[j]))
  }

  /** Cells a job still has to write. */
  function ChunksLeft(job: Job, log: Log): (r: seq<nat>)
    requires |log.done| == |job.chunks|
    ensures |r| == |job.chunks| && forall q: nat :: q < |r| ==> r[q] == Minus(|job.chunks[q]|, log.done[q])
  {
    seq(|job.chunks|, q requires 0 <= q < |job.chunks| => Minus(|job.chunks[q]|, log.done[q]))
  }

  function CellsLeft(job: Job, log: Log): nat
    requires |log.done| == |job.chunks|
  {
    Total(ChunksLeft(job, log)) + Minus(|job.rest|, log.rest)
  }

  function JobsLeft(jobs: seq<Job>, logs: seq<Log>): (r: seq<nat>)
    requires |logs| == |jobs| && forall k :: 0 <= k < |jobs| ==> |logs[k].done| == |jobs[k].chunks|
    ensures |r| == |jobs| && forall k: nat :: k < |r| ==> r[k] == CellsLeft(jobs[k], logs[k])
  {
    seq(|jobs|, k requires 0 <= k < |jobs| => CellsLeft(jobs[k], logs[k]))
  }

  /** Three for each chunk of the rounds from r on. */
  function ClaimsFrom(jobs: seq<Job>, r: nat): nat
    decreases |jobs| - r
  {
    if r >= |jobs| then 0 else 3 * |jobs[r].chunks| + ClaimsFrom(jobs, r + 1)
  }

  /** Three for each claim still possible: in the round being stolen the counter says how many. */
  function Claims(jobs: seq<Job>, n: nat, gen: nat, counter: int): nat {
    if gen % 2 == 1 && gen / 2 < |jobs| then
      var open := |jobs[gen / 2].chunks| + n;
      3 * (if counter < open then (if counter < 0 then open else open - counter) else 0) + ClaimsFrom(jobs, gen / 2 + 1)
    else ClaimsFrom(jobs, gen / 2)
  }

  function Rank(jobs: seq<Job>, s: State): nat
    requires |s.b.pc| == |s.b.returned| && |s.logs| == |jobs|
    requires forall k :: 0 <= k < |jobs| ==> |s.logs[k].done| == |jobs[k].chunks|
  {
    P.Rank(s.b, 2 * |jobs|) + Total(ThreadRanks(|jobs|, s.pc)) + Total(JobsLeft(jobs, s.logs))
    + Claims(jobs, |s.pc|, s.b.gen, s.counter)
  }

  lemma Ranked(jobs: seq<Job>, s: State)
    requires Sized(jobs, s)
    ensures |s.b.pc| == |s.b.returned| == |s.pc| && |s.logs| == |jobs|
    ensures forall k :: 0 <= k < |jobs| ==> LogSized(jobs[k], s.logs[k]) && |s.logs[k].done| == |jobs[k].chunks|
  {
    hide B.Reachable, PcOk;
  }

  // ---------- each kind of step ----------

  /** The round opens with the counter at the thread count. */
  lemma ClaimsAtBump(jobs: seq<Job>, s: State, i: nat)
    requires Inv(jobs, s) && i < |s.pc| == |s.b.pc| && s.b.pc[i] == B.Bump
    ensures Claims(jobs, |s.pc|, s.b.gen + 1, s.counter) <= Claims(jobs, |s.pc|, s.b.gen, s.counter)
  {
    AllInsideRound(jobs, s, i);
    assert PcOk(jobs, s.logs, s.pc[i]);
    if s.b.gen % 2 == 0 {
      assert s.pc[i].Open? && s.counter == |s.pc|;
    }
    hide B.Reachable, LogsOk, ThreadsOk, StealOk;
  }

  lemma BarrierClaims(jobs: seq<Job>, s: State, i: nat)
    requires Inv(jobs, s) && i < |s.pc| == |s.b.pc| && B.Sized(s.b)
    ensures Claims(jobs, |s.pc|, B.Step(s.b, i).gen, s.counter) <= Claims(jobs, |s.pc|, s.b.gen, s.counter)
  {
    assert B.Reachable(s.b);
    hide Inv, Claims, B.Reachable, B.Step;
    B.ReachStep(s.b, i);
    if s.b.pc[i] == B.Bump {
      ClaimsAtBump(jobs, s, i);
    }
  }

  lemma BarrierRank(jobs: seq<Job>, s: State, i: nat)
    requires Inv(jobs, s) && i < |s.pc| == |s.b.pc| && B.Sized(s.b) && AtBarrier(s, i) && !s.b.pc[i].Asleep?
    requires Sized(jobs, s) && Sized(jobs, BarrierStep(s, i))
    ensures Rank(jobs, BarrierStep(s, i)) < Rank(jobs, s)
  {
    hide Inv, Sized, B.Step, P.Within, P.Calls, P.Rank, Claims, ThreadRanks, JobsLeft, AtBarrier;
    BarrierWithin(jobs, s);
    BarrierCalls(jobs, s, i);
    Ranked(jobs, s);
    Ranked(jobs, BarrierStep(s, i));
    BarrierClaims(jobs, s, i);
    P.RankStep(s.b, i, 2 * |jobs|);
  }

  /** A step outside the barrier that only moves the thread on within its program. */
  lemma MoveRank(jobs: seq<Job>, s: State, i: nat, p: Pc, counter: int)
    requires Sized(jobs, s) && i < |s.pc| && Sized(jobs, Move(s, i, p).(counter := counter))
    requires ThreadRank(|jobs|, p) + Claims(jobs, |s.pc|, s.b.gen, counter)
             < ThreadRank(|jobs|, s.pc[i]) + Claims(jobs, |s.pc|, s.b.gen, s.counter)
    ensures Rank(jobs, Move(s, i, p).(counter := counter)) < Rank(jobs, s)
  {
    var s' := Move(s, i, p).(counter := counter);
    Ranked(jobs, s);
    Ranked(jobs, s');
    hide Sized, Claims, ThreadRank, JobsLeft, P.Rank, Total;
    var a, b := ThreadRanks(|jobs|, s.pc), ThreadRanks(|jobs|, s'.pc);
    var now, then' := Claims(jobs, |s.pc|, s.b.gen, s.counter), Claims(jobs, |s.pc|, s.b.gen, counter);
    TotalFalls(a, b, i, 0, then', now);
  }

  lemma Restart(rounds: nat, r: nat)
    requires r < rounds
    ensures Repeat(Minus(rounds, r), 10) == 10 + Repeat(Minus(rounds, r + 1), 10)
  {
  }

  /** One cell fewer, in one job. */
  lemma CellRank(jobs: seq<Job>, s: State, i: nat, a: nat, v: real, log: Log)
    requires Sized(jobs, s) && i < |s.pc| && (s.pc[i].Steal? || s.pc[i].Rest?) && s.pc[i].r < |jobs|
    requires Sized(jobs, WriteStep(jobs, s, i, a, v, log)) && |log.done| == |jobs[s.pc[i].r].chunks|
    requires |s.logs| == |jobs| && |s.logs[s.pc[i].r].done| == |jobs[s.pc[i].r].chunks|
    requires CellsLeft(jobs[s.pc[i].r], log) < CellsLeft(jobs[s.pc[i].r], s.logs[s.pc[i].r])
    ensures Rank(jobs, WriteStep(jobs, s, i, a, v, log)) < Rank(jobs, s)
  {
    var s', r := WriteStep(jobs, s, i, a, v, log), s.pc[i].r;
    Ranked(jobs, s);
    Ranked(jobs, s');
    hide Sized, Claims, CellsLeft, P.Rank, Total, Repeat;
    assert ThreadRanks(|jobs|, s'.pc) == ThreadRanks(|jobs|, s.pc);
    TotalFalls(JobsLeft(jobs, s.logs), JobsLeft(jobs, s'.logs), r, 0, 0, 0);
  }

  lemma ChunkCell(job: Job, log: Log, q: nat)
    requires q < |job.chunks| == |log.done| && log.done[q] < |job.chunks[q]|
    ensures |WriteChunk(job, log, q).done| == |job.chunks|
    ensures CellsLeft(job, WriteChunk(job, log, q)) < CellsLeft(job, log)
  {
    hide Total;
    TotalFalls(ChunksLeft(job, log), ChunksLeft(job, WriteChunk(job, log, q)), q, 0, 0, 0);
  }

  lemma RestCell(job: Job, log: Log)
    requires |log.done| == |job.chunks| && log.rest < |job.rest|
    ensures |WriteRest(job, log).done| == |job.chunks|
    ensures CellsLeft(job, WriteRest(job, log)) < CellsLeft(job, log)
  {
    assert ChunksLeft(job, WriteRest(job, log)) == ChunksLeft(job, log);
  }

  /** The fetch_add uses up one of the claims still possible. */
  lemma ClaimRank(jobs: seq<Job>, s: State, i: nat)
    requires Inv(jobs, s) && JobsOk(jobs, |s.pc|) && i < |s.pc| == |s.b.pc| && s.b.pc[i] == B.Outside && s.pc[i].Claim?
    ensures Claims(jobs, |s.pc|, s.b.gen, WrappingSucc(s.counter)) + 3 == Claims(jobs, |s.pc|, s.b.gen, s.counter)
  {
    InRound(jobs, s, i);
    assert PcOk(jobs, s.logs, s.pc[i]);
    var r := s.pc[i].r;
    CounterBound(jobs[r], s.logs[r], r, s.counter, s.pc, i);
    assert HeldOk(jobs[r], s.logs[r], r, s.counter, s.pc[i], i);
    hide B.Reachable, HitOnce, ValuesOk, StealOk, Distinct, LogsOk, ThreadsOk;
  }

  /** Where a move outside the barrier leads, and with what counter. */
  ghost predicate MovesTo(jobs: seq<Job>, s: State, i: nat, p: Pc, counter: int)
    requires Sized(jobs, s) && i < |s.pc|
  {
    Step(jobs, s, i) == Move(s, i, p).(counter := counter)
  }

  lemma StoreRank(jobs: seq<Job>, s: State, i: nat)
    requires Inv(jobs, s) && i < |s.pc| == |s.b.pc| && !AtBarrier(s, i) && s.pc[i].Store? && s.pc[i].r < |jobs|
    ensures MovesTo(jobs, s, i, Open(s.pc[i].r), |s.pc|)
    ensures Claims(jobs, |s.pc|, s.b.gen, |s.pc|) == Claims(jobs, |s.pc|, s.b.gen, s.counter)
  {
    Phase(jobs, s, i);
    hide B.Reachable, LogsOk, RoundOk, ThreadsOk;
  }

  /** Moves that leave the counter alone. */
  lemma QuietTarget(jobs: seq<Job>, s: State, i: nat) returns (p: Pc)
    requires Inv(jobs, s) && i < |s.pc| == |s.b.pc| && !AtBarrier(s, i)
    requires s.pc[i].Open? || s.pc[i].Steal? || s.pc[i].Rest? || s.pc[i].Close?
    requires s.pc[i].Steal? && s.pc[i].c < |jobs[s.pc[i].r].chunks| ==> s.pc[i].p >= |jobs[s.pc[i].r].chunks[s.pc[i].c]|
    requires s.pc[i].Rest? ==> s.pc[i].p >= |jobs[s.pc[i].r].rest|
    ensures MovesTo(jobs, s, i, p, s.counter) && ThreadRank(|jobs|, p) < ThreadRank(|jobs|, s.pc[i])
  {
    assert PcOk(jobs, s.logs, s.pc[i]);
    hide B.Reachable, LogsOk, RoundOk, ThreadsOk;
    var r := s.pc[i].r;
    match s.pc[i]
    case Open(_) => p := Steal(r, i, 0);
    case Steal(_, c, _) =>
      p := if c < |jobs[r].chunks| then Claim(r, c) else if i == 0 then Rest(r, c, 0) else Close(r, c);
    case Rest(_, c, _) => p := Close(r, c);
    case Close(_, _) => p := Store(r + 1); Restart(|jobs|, r);
  }

  lemma WriteChunkRank(jobs: seq<Job>, s: State, i: nat)
    requires Inv(jobs, s) && i < |s.pc| == |s.b.pc| && s.b.pc[i] == B.Outside && s.pc[i].Steal? && s.pc[i].r < |jobs|
    requires 0 <= s.pc[i].c < |jobs[s.pc[i].r].chunks| && s.pc[i].p < |jobs[s.pc[i].r].chunks[s.pc[i].c]|
    requires Sized(jobs, s) && Sized(jobs, Step(jobs, s, i))
    ensures Rank(jobs, Step(jobs, s, i)) < Rank(jobs, s)
  {
    Ranked(jobs, s);
    StepIsWrite(jobs, s, i);
    hide Inv, Sized, Step, Rank;
    var job, log, c := jobs[s.pc[i].r], s.logs[s.pc[i].r], s.pc[i].c;
    ChunkCell(job, log, c);
    CellRank(jobs, s, i, job.chunks[c][log.done[c]], job.chunkVal(c, log.done[c]), WriteChunk(job, log, c));
  }

  lemma WriteRestRank(jobs: seq<Job>, s: State, i: nat)
    requires Inv(jobs, s) && i < |s.pc| == |s.b.pc| && s.b.pc[i] == B.Outside && s.pc[i].Rest?
    requires s.pc[i].r < |jobs| && s.pc[i].p < |jobs[s.pc[i].r].rest|
    requires Sized(jobs, s) && Sized(jobs, Step(jobs, s, i))
    ensures Rank(jobs, Step(jobs, s, i)) < Rank(jobs, s)
  {
    Ranked(jobs, s);
    assert PcOk(jobs, s.logs, s.pc[i]);
    var job, log, p := jobs[s.pc[i].r], s.logs[s.pc[i].r], s.pc[i].p;
    assert Step(jobs, s, i) == WriteStep(jobs, s, i, job.rest[p], job.restVal(p), WriteRest(job, log));
    hide Inv, Sized, Step, Rank;
    RestCell(job, log);
    CellRank(jobs, s, i, job.rest[p], job.restVal(p), WriteRest(job, log));
  }

  /** At the barrier, the step is the barrier's. */
  lemma StepsBarrier(jobs: seq<Job>, s: State, i: nat)
    requires Sized(jobs, s) && i < |s.pc| == |s.b.pc| && B.Sized(s.b) && AtBarrier(s, i)
    ensures Step(jobs, s, i) == BarrierStep(s, i)
  {
    hide B.Reachable, LogSized;
  }

  /** Which thread has nothing left to do. */
  ghost predicate Past(jobs: seq<Job>, s: State, i: nat)
    requires i < |s.pc| == |s.b.pc|
  {
    s.pc[i] == Store(|jobs|) && s.b.pc[i] == B.Outside
  }

  lemma PastIsStill(jobs: seq<Job>, s: State, i: nat)
    requires Sized(jobs, s) && i < |s.pc| == |s.b.pc| && Past(jobs, s, i)
    ensures Step(jobs, s, i) == s
  {
    hide B.Reachable, LogSized;
  }

  lemma ClaimTarget(jobs: seq<Job>, s: State, i: nat)
    requires Sized(jobs, s) && i < |s.pc| == |s.b.pc| && s.b.pc[i] == B.Outside && s.pc[i].Claim?
    ensures MovesTo(jobs, s, i, Steal(s.pc[i].r, s.counter, 0), WrappingSucc(s.counter))
    ensures ThreadRank(|jobs|, Steal(s.pc[i].r, s.counter, 0)) == ThreadRank(|jobs|, s.pc[i]) + 1
  {
    hide B.Reachable, LogSized;
  }

  /** A step of a thread that is not asleep and has something left to do lowers the rank. */
  lemma RankStep(jobs: seq<Job>, s: State, i: nat)
    requires Inv(jobs, s) && JobsOk(jobs, |s.pc|) && i < |s.pc| == |s.b.pc| && !s.b.pc[i].Asleep? && !Past(jobs, s, i)
    ensures Sized(jobs, s) && Sized(jobs, Step(jobs, s, i)) && Rank(jobs, Step(jobs, s, i)) < Rank(jobs, s)
  {
    StepInv(jobs, s, i);
    assert Sized(jobs, s) && PcOk(jobs, s.logs, s.pc[i]);
    InvSized(jobs, Step(jobs, s, i));
    Ranked(jobs, s);
    SizedLogs(jobs, s);
    hide Inv, JobsOk, Sized, Step, Rank, Claims, ThreadRank, B.Reachable, LogSized;
    if AtBarrier(s, i) {
      StepsBarrier(jobs, s, i);
      BarrierRank(jobs, s, i);
      return;
    }
    match s.pc[i]
    case Store(r) =>
      StoreRank(jobs, s, i);
      OpenIsLess(|jobs|, r);
      MoveRank(jobs, s, i, Open(r), |s.pc|);
    case Claim(r, _) =>
      ClaimTarget(jobs, s, i);
      ClaimRank(jobs, s, i);
      MoveRank(jobs, s, i, Steal(r, s.counter, 0), WrappingSucc(s.counter));
    case Steal(r, c, p) =>
      if c < |jobs[r].chunks| && p < |jobs[r].chunks[c]| {
        WriteChunkRank(jobs, s, i);
      } else {
        var q := QuietTarget(jobs, s, i);
        MoveRank(jobs, s, i, q, s.counter);
      }
    case Rest(r, _, p) =>
      if p < |jobs[r].rest| {
        WriteRestRank(jobs, s, i);
      } else {
        var q := QuietTarget(jobs, s, i);
        MoveRank(jobs, s, i, q, s.counter);
      }
    case _ =>
      var q := QuietTarget(jobs, s, i);
      MoveRank(jobs, s, i, q, s.counter);
  }

  lemma OpenIsLess(rounds: nat, r: nat)
    ensures ThreadRank(rounds, Open(r)) < ThreadRank(rounds, Store(r))
  {
  }

  lemma InvSized(jobs: seq<Job>, s: State)
    requires Inv(jobs, s)
    ensures Sized(jobs, s)
  {
    hide Sized;
  }

  // ---------- no deadlock ----------

  ghost predicate Stuck(jobs: seq<Job>, s: State) {
    forall i: nat :: !Moves(jobs, s, i)
  }

  lemma StuckThread(jobs: seq<Job>, s: State, i: nat)
    requires Inv(jobs, s) && JobsOk(jobs, |s.pc|) && Stuck(jobs, s) && i < |s.pc|
    ensures |s.b.pc| == |s.pc| && (s.b.pc[i].Asleep? || Past(jobs, s, i))
  {
    InvSized(jobs, s);
    SizedLogs(jobs, s);
    assert !Moves(jobs, s, i);
    hide Inv, JobsOk, Stuck, Rank, Sized, Step;
    if !s.b.pc[i].Asleep? && !Past(jobs, s, i) {
      RankStep(jobs, s, i);
    }
  }

  lemma BarrierSleeper(jobs: seq<Job>, s: State, i: nat)
    requires Inv(jobs, s) && JobsOk(jobs, |s.pc|) && Stuck(jobs, s) && i < |s.pc| == |s.b.pc| && s.b.pc[i].Asleep?
    ensures B.Sized(s.b) && s.b.arrived[i] == s.b.gen + 1 && s.b.gen < 2 * |jobs|
  {
    assert B.Reachable(s.b);
    BarrierWithin(jobs, s);
    B.ReachInv(s.b);
    if B.WakePending(s.b) {
      var w: nat :| w < |s.b.pc| && s.b.pc[w] == B.Wake;
      StuckThread(jobs, s, w);
    }
    assert B.ThreadOk(s.b, i);
    hide Inv, JobsOk, Stuck, B.CountOk;
  }

  /** A thread past the last round has completed all its waits. */
  lemma PastWaits(jobs: seq<Job>, s: State, i: nat)
    requires Inv(jobs, s) && i < |s.pc| == |s.b.pc| && Past(jobs, s, i)
    ensures B.Sized(s.b) && s.b.returned[i] == s.b.gen == 2 * |jobs|
  {
    B.ReachThread(s.b, i);
    assert ThreadOk(s.pc[i], i, s.b.pc[i] == B.Outside, s.b.returned[i]);
    hide B.Reachable, LogsOk, RoundOk, ThreadsOk, B.CountOk;
  }

  lemma NobodyAsleep(jobs: seq<Job>, s: State, i: nat)
    requires Inv(jobs, s) && JobsOk(jobs, |s.pc|) && Stuck(jobs, s) && i < |s.pc|
    ensures |s.b.pc| == |s.pc| && Past(jobs, s, i)
  {
    StuckThread(jobs, s, i);
    assert B.Reachable(s.b) && B.Sized(s.b);
    hide Inv, JobsOk, Stuck, B.Reachable, B.Inv;
    if s.b.pc[i].Asleep? {
      B.ReachInv(s.b);
      P.AllAsleep(s.b);
      var j: nat :| j < |s.b.pc| && !(s.b.arrived[j] == s.b.gen + 1 && s.b.pc[j].Asleep?);
      BarrierSleeper(jobs, s, i);
      StuckThread(jobs, s, j);
      if s.b.pc[j].Asleep? {
        BarrierSleeper(jobs, s, j);
      } else {
        PastWaits(jobs, s, j);
      }
    }
  }

  lemma AllWritten(jobs: seq<Job>, s: State, r: nat)
    requires Inv(jobs, s) && s.b.gen == 2 * |jobs| && r < |jobs|
    ensures |s.logs| == |jobs| && LogSized(jobs[r], s.logs[r])
    ensures Complete(jobs[r], s.logs[r]) && HitOnce(jobs[r], s.logs[r])
  {
    assert LogOk(jobs[r], s.logs[r], r, s.b.gen, s.out);
    hide B.Reachable, ThreadsOk, RoundOk, PcOk, Written;
  }

  /** Unless the rounds are over, some thread that is not asleep changes the state. */
  lemma NoDeadlock(jobs: seq<Job>, s: State)
    requires Inv(jobs, s) && JobsOk(jobs, |s.pc|) && !Finished(jobs, s)
    ensures exists i: nat :: Moves(jobs, s, i)
  {
    if Stuck(jobs, s) {
      InvSized(jobs, s);
      SizedLogs(jobs, s);
      hide Inv, JobsOk, Stuck, Sized, Complete, HitOnce, LogSized;
      forall i: nat | i < |s.pc|
        ensures Past(jobs, s, i) && s.b.returned[i] == s.b.gen == 2 * |jobs|
      {
        NobodyAsleep(jobs, s, i);
        PastWaits(jobs, s, i);
      }
      assert Past(jobs, s, 0);
      forall r: nat | r < |jobs|
        ensures Complete(jobs[r], s.logs[r]) && HitOnce(jobs[r], s.logs[r])
      {
        AllWritten(jobs, s, r);
      }
    }
  }

  // ---------- runs ----------

  ghost predicate Advances(jobs: seq<Job>, s: State, s': State) {
    exists i: nat :: Moves(jobs, s, i) && s' == Step(jobs, s, i)
  }

  /** A continuation without spurious wake-ups, each of whose steps changes the state. */
  ghost predicate Advancing(jobs: seq<Job>, run: seq<State>) {
    run != [] && forall k :: 0 < k < |run| ==> Advances(jobs, run[k - 1], run[k])
  }

  /** The rank, for any state at all. */
  ghost function Remaining(jobs: seq<Job>, s: State): nat {
    if Sized(jobs, s) then (Ranked(jobs, s); Rank(jobs, s)) else 0
  }

  lemma AdvanceInv(jobs: seq<Job>, s: State, s': State)
    requires Inv(jobs, s) && JobsOk(jobs, |s.pc|) && Advances(jobs, s, s')
    ensures Inv(jobs, s') && |s'.pc| == |s.pc| && Remaining(jobs, s') < Remaining(jobs, s)
  {
    InvSized(jobs, s);
    SizedLogs(jobs, s);
    hide Inv, JobsOk, Step, Rank, Sized;
    var i: nat :| Moves(jobs, s, i) && s' == Step(jobs, s, i);
    if Past(jobs, s, i) {
      PastIsStill(jobs, s, i);
    }
    StepInv(jobs, s, i);
    RankStep(jobs, s, i);
  }

  lemma {:induction false} AdvancingBound(jobs: seq<Job>, n: nat, run: seq<State>, k: nat)
    requires Advancing(jobs, run) && Inv(jobs, run[0]) && |run[0].pc| == n && JobsOk(jobs, n) && k < |run|
    ensures Inv(jobs, run[k]) && |run[k].pc| == n && k + Remaining(jobs, run[k]) <= Remaining(jobs, run[0])
  {
    hide Inv, JobsOk, Remaining, Advances;
    if k > 0 {
      AdvancingBound(jobs, n, run, k - 1);
      AdvanceInv(jobs, run[k - 1], run[k]);
    }
  }

  /** From a reachable state every such continuation is finite, and when it cannot go on, every thread is
      past the last round and every cell of every job has been written, each address once. */
  lemma EveryRunFinishes(jobs: seq<Job>, n: nat, counter: int, out: map<nat, real>, past: seq<State>, run: seq<State>)
    requires n > 1 && JobsOk(jobs, n) && IsRun(jobs, n, counter, out, past)
    requires Advancing(jobs, run) && run[0] == past[|past| - 1]
    ensures |run| <= Remaining(jobs, run[0]) + 1
    ensures Stuck(jobs, run[|run| - 1]) ==> Finished(jobs, run[|run| - 1])
  {
    hide Inv, JobsOk, Remaining, Advances, Finished, Moves;
    RunInv(jobs, n, counter, out, past, |past| - 1);
    AdvancingBound(jobs, n, run, |run| - 1);
    if !Finished(jobs, run[|run| - 1]) {
      NoDeadlock(jobs, run[|run| - 1]);
    }
  }

  /** And there is one that finishes: the end of the last round is reached. */
  lemma SomeRunFinishes(jobs: seq<Job>, n: nat, counter: int, out: map<nat, real>, past: seq<State>) returns (run: seq<State>)
    requires n > 1 && JobsOk(jobs, n) && IsRun(jobs, n, counter, out, past)
    ensures Advancing(jobs, run) && run[0] == past[|past| - 1] && Finished(jobs, run[|run| - 1])
  {
    hide Inv, JobsOk, Remaining, Finished, Moves, Step;
    RunInv(jobs, n, counter, out, past, |past| - 1);
    run := [past[|past| - 1]];
    while !Finished(jobs, run[|run| - 1])
      invariant Advancing(jobs, run) && run[0] == past[|past| - 1]
      invariant Inv(jobs, run[|run| - 1]) && |run[|run| - 1].pc| == n
      decreases Remaining(jobs, run[|run| - 1])
    {
      var s := run[|run| - 1];
      NoDeadlock(jobs, s);
      var i: nat :| Moves(jobs, s, i);
      MovesFrom(jobs, s, i);
      var s' := Step(jobs, s, i);
      AdvanceInv(jobs, s, s');
      run := run + [s'];
    }
  }

  lemma MovesFrom(jobs: seq<Job>, s: State, i: nat)
    requires Moves(jobs, s, i)
    ensures Sized(jobs, s) && i < |s.pc| && Advances(jobs, s, Step(jobs, s, i))
  {
    hide Sized, Step;
  }

  // ---------- the end of every round is reached ----------

  lemma AdvanceIsNext(jobs: seq<Job>, s: State, s': State)
    requires Advances(jobs, s, s')
    ensures Next(jobs, s, s')
  {
    hide Sized, Step;
    var i: nat :| Moves(jobs, s, i) && s' == Step(jobs, s, i);
  }

  lemma Joined(jobs: seq<Job>, n: nat, counter: int, out: map<nat, real>, past: seq<State>, run: seq<State>)
    requires IsRun(jobs, n, counter, out, past) && Advancing(jobs, run) && run[0] == past[|past| - 1]
    ensures IsRun(jobs, n, counter, out, past + run[1..])
  {
    var all := past + run[1..];
    hide Next, Advances, Init;
    forall k | 0 < k < |all|
      ensures Next(jobs, all[k - 1], all[k])
    {
      if k >= |past| {
        assert all[k - 1] == run[k - |past|] && all[k] == run[k - |past| + 1];
        AdvanceIsNext(jobs, all[k - 1], all[k]);
      }
    }
  }

  /** A step completes at most one wait, and leaves the barrier by doing so. */
  lemma OneWait(jobs: seq<Job>, s: State, s': State, i: nat)
    requires Next(jobs, s, s') && i < |s.b.returned|
    ensures i < |s'.b.returned| == |s'.b.pc| && s.b.returned[i] <= s'.b.returned[i]
    ensures s'.b.returned[i] != s.b.returned[i] ==> s'.b.returned[i] == s.b.returned[i] + 1 && s'.b.pc[i] == B.Outside
  {
    hide Step, Sized;
    var j: nat :| Sized(jobs, s) && j < |s.pc| && s' == Step(jobs, s, j);
    StepBarrier(jobs, s, j);
    if s'.b != s.b {
      B.ReachStep(s.b, j);
      if j != i {
        B.ReachFrame(s.b, j, i);
      }
    }
  }

  lemma StepBarrier(jobs: seq<Job>, s: State, j: nat)
    requires Sized(jobs, s) && j < |s.pc|
    ensures B.Reachable(s.b) && B.Sized(s.b) && |s.b.pc| == |s.pc|
    ensures Step(jobs, s, j).b == s.b || Step(jobs, s, j).b == B.Step(s.b, j)
  {
    assert PcOk(jobs, s.logs, s.pc[j]);
    hide B.Reachable, LogSized, B.Step;
  }

  /** On the way to its w-th completed wait a thread has just completed each earlier one. */
  lemma {:induction false} WaitReached(jobs: seq<Job>, run: seq<State>, i: nat, w: nat, last: nat) returns (k: nat)
    requires forall k :: 0 < k < |run| ==> Next(jobs, run[k - 1], run[k])
    requires last < |run| && 0 < w && i < |run[0].b.returned| && run[0].b.returned[i] == 0
    requires i < |run[last].b.returned| && w <= run[last].b.returned[i]
    ensures k < |run| && i < |run[k].b.returned| == |run[k].b.pc| && run[k].b.returned[i] == w && run[k].b.pc[i] == B.Outside
  {
    hide Next;
    var before: nat := last - 1;
    WaitsThere(jobs, run, i, before);
    OneWait(jobs, run[before], run[last], i);
    if run[before].b.returned[i] >= w {
      k := WaitReached(jobs, run, i, w, before);
    } else {
      k := last;
    }
  }

  lemma {:induction false} WaitsThere(jobs: seq<Job>, run: seq<State>, i: nat, k: nat)
    requires forall k :: 0 < k < |run| ==> Next(jobs, run[k - 1], run[k])
    requires k < |run| && i < |run[0].b.returned|
    ensures i < |run[k].b.returned|
  {
    hide Next;
    if k > 0 {
      WaitsThere(jobs, run, i, k - 1);
      OneWait(jobs, run[k - 1], run[k], i);
    }
  }

  /** Some run brings thread i out of the closing wait of round r. */
  lemma RoundReached(jobs: seq<Job>, n: nat, counter: int, out: map<nat, real>, i: nat, r: nat)
    returns (run: seq<State>, k: nat)
    requires n > 1 && JobsOk(jobs, n) && i < n && r < |jobs|
    ensures IsRun(jobs, n, counter, out, run) && k < |run| && i < |run[k].b.pc| == |run[k].b.returned|
    ensures run[k].b.pc[i] == B.Outside && run[k].b.returned[i] == 2 * r + 2
  {
    var past := [Init(jobs, n, counter, out)];
    assert IsRun(jobs, n, counter, out, past);
    assert i < |past[0].b.returned| && past[0].b.returned[i] == 0;
    hide JobsOk, Init, Next;
    InitInv(jobs, n, counter, out);
    var more := SomeRunFinishes(jobs, n, counter, out, past);
    Joined(jobs, n, counter, out, past, more);
    run := past + more[1..];
    FinishedWaits(jobs, n, counter, out, run, more, i);
    k := WaitReached(jobs, run, i, 2 * r + 2, |run| - 1);
  }

  lemma FinishedWaits(jobs: seq<Job>, n: nat, counter: int, out: map<nat, real>, run: seq<State>, more: seq<State>, i: nat)
    requires n > 1 && JobsOk(jobs, n) && IsRun(jobs, n, counter, out, run) && i < n
    requires more != [] && run[0] == more[0] && run == [run[0]] + more[1..] && Finished(jobs, more[|more| - 1])
    ensures i < |run[|run| - 1].b.returned| && run[|run| - 1].b.returned[i] == 2 * |jobs|
  {
    hide JobsOk, Sized, Next, Complete, HitOnce;
    RunInv(jobs, n, counter, out, run, |run| - 1);
    assert run[|run| - 1] == more[|more| - 1];
    var s := run[|run| - 1];
    SizedLogs(jobs, s);
  }
}
