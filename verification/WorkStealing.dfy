/** The reset / barrier / steal / barrier discipline around each matrix product
    (src/inference/forward_graph_layer.rs, src/inference/matmul_graph.rs), composed with the barrier
    machine: every thread stores `nth` into the shared chunk counter, waits, claims chunks with
    fetch_add (its own index first), thread 0 does the remainder, and all wait again.
    A job says which output addresses each chunk writes, in order, and what the chunk computes for each. */
module WorkStealing {
  import B = SpinBarrier

  /** Addresses by chunk and place, and of the remainder; and what chunk q computes at its k-th place. */
  datatype Job = Job(chunks: seq<seq<nat>>, rest: seq<nat>, chunkVal: (nat, nat) -> real, restVal: nat -> real)

  /** No address occurs twice in a job. */
  ghost predicate Distinct(job: Job) {
    && (forall q, k, q', k' | 0 <= q < |job.chunks| && 0 <= k < |job.chunks[q]|
                              && 0 <= q' < |job.chunks| && 0 <= k' < |job.chunks[q']| ::
          job.chunks[q][k] == job.chunks[q'][k'] ==> q == q' && k == k')
    && (forall k, k' :: 0 <= k < |job.rest| && 0 <= k' < |job.rest| && job.rest[k] == job.rest[k'] ==> k == k')
    && (forall q, k, k' :: 0 <= q < |job.chunks| && 0 <= k < |job.chunks[q]| && 0 <= k' < |job.rest| ==>
          job.chunks[q][k] != job.rest[k'])
  }

  /** The addresses a job must write. */
  ghost predicate Covers(job: Job, a: nat) {
    || (exists q, k :: 0 <= q < |job.chunks| && 0 <= k < |job.chunks[q]| && job.chunks[q][k] == a)
    || (exists k :: 0 <= k < |job.rest| && job.rest[k] == a)
  }

  ghost predicate InChunk(job: Job, a: nat, q: nat, k: nat) {
    q < |job.chunks| && k < |job.chunks[q]| && job.chunks[q][k] == a
  }

  ghost predicate InRest(job: Job, a: nat, k: nat) {
    k < |job.rest| && job.rest[k] == a
  }

  /** What the place that writes an address computes. */
  ghost function Val(job: Job, a: nat): real {
    if exists q: nat, k: nat :: InChunk(job, a, q, k) then
      var q: nat, k: nat :| InChunk(job, a, q, k);
      job.chunkVal(q, k)
    else if exists k: nat :: InRest(job, a, k) then
      var k: nat :| InRest(job, a, k);
      job.restVal(k)
    else 0.0
  }

  lemma ValOfChunk(job: Job, q: nat, k: nat)
    requires Distinct(job) && q < |job.chunks| && k < |job.chunks[q]|
    ensures Val(job, job.chunks[q][k]) == job.chunkVal(q, k)
  {
    assert InChunk(job, job.chunks[q][k], q, k);
  }

  lemma ValOfRest(job: Job, k: nat)
    requires Distinct(job) && k < |job.rest|
    ensures Val(job, job.rest[k]) == job.restVal(k)
  {
    assert InRest(job, job.rest[k], k);
  }

  /** History of one job: how many cells of each chunk, and of the remainder, have been written, and
      how often each address was written. No thread reads it. */
  datatype Log = Log(done: seq<nat>, rest: nat, hits: multiset<nat>)

  function EmptyLog(job: Job): Log {
    Log(seq(|job.chunks|, _ => 0), 0, multiset{})
  }

  ghost predicate Written(job: Job, log: Log, a: nat)
    requires |log.done| == |job.chunks| && log.rest <= |job.rest|
    requires forall q :: 0 <= q < |job.chunks| ==> log.done[q] <= |job.chunks[q]|
  {
    || (exists q, k :: 0 <= q < |job.chunks| && 0 <= k < log.done[q] && job.chunks[q][k] == a)
    || (exists k :: 0 <= k < log.rest && job.rest[k] == a)
  }

  ghost predicate LogSized(job: Job, log: Log) {
    && |log.done| == |job.chunks| && log.rest <= |job.rest|
    && forall q :: 0 <= q < |job.chunks| ==> log.done[q] <= |job.chunks[q]|
  }

  /** Every written address was written once, every other never. */
  ghost predicate HitOnce(job: Job, log: Log)
    requires LogSized(job, log)
  {
    forall a: nat :: log.hits[a] == if Written(job, log, a) then 1 else 0
  }

  ghost predicate ValuesOk(job: Job, log: Log, out: map<nat, real>)
    requires LogSized(job, log)
  {
    forall a: nat :: Written(job, log, a) ==> a in out && out[a] == Val(job, a)
  }

  ghost predicate Fresh(log: Log) {
    log.rest == 0 && log.hits == multiset{} && forall q :: 0 <= q < |log.done| ==> log.done[q] == 0
  }

  ghost predicate Complete(job: Job, log: Log)
    requires LogSized(job, log)
  {
    log.rest == |job.rest| && forall q :: 0 <= q < |job.chunks| ==> log.done[q] == |job.chunks[q]|
  }

  function WriteChunk(job: Job, log: Log, q: nat): Log
    requires q < |log.done| == |job.chunks| && log.done[q] < |job.chunks[q]|
  {
    log.(done := log.done[q := log.done[q] + 1], hits := log.hits + multiset{job.chunks[q][log.done[q]]})
  }

  function WriteRest(job: Job, log: Log): Log
    requires log.rest < |job.rest|
  {
    log.(rest := log.rest + 1, hits := log.hits + multiset{job.rest[log.rest]})
  }

  /** The next cell of a chunk has not been written, and writing it adds exactly it. */
  lemma WriteChunkAdds(job: Job, log: Log, q: nat, a: nat)
    requires Distinct(job) && LogSized(job, log) && q < |job.chunks| && log.done[q] < |job.chunks[q]|
    ensures LogSized(job, WriteChunk(job, log, q))
    ensures !Written(job, log, job.chunks[q][log.done[q]])
    ensures Written(job, WriteChunk(job, log, q), a) <==> Written(job, log, a) || a == job.chunks[q][log.done[q]]
  {
    var log' := WriteChunk(job, log, q);
    if Written(job, log', a) && a != job.chunks[q][log.done[q]] {
      if exists q', k :: 0 <= q' < |job.chunks| && 0 <= k < log'.done[q'] && job.chunks[q'][k] == a {
        var q', k :| 0 <= q' < |job.chunks| && 0 <= k < log'.done[q'] && job.chunks[q'][k] == a;
        assert k < log.done[q'];
      }
    }
    if exists q', k :: 0 <= q' < |job.chunks| && 0 <= k < log.done[q'] && job.chunks[q'][k] == a {
      var q', k :| 0 <= q' < |job.chunks| && 0 <= k < log.done[q'] && job.chunks[q'][k] == a;
      assert k < log'.done[q'];
    }
    assert log.done[q] < log'.done[q];
  }

  lemma WriteRestAdds(job: Job, log: Log, a: nat)
    requires Distinct(job) && LogSized(job, log) && log.rest < |job.rest|
    ensures LogSized(job, WriteRest(job, log))
    ensures !Written(job, log, job.rest[log.rest])
    ensures Written(job, WriteRest(job, log), a) <==> Written(job, log, a) || a == job.rest[log.rest]
  {
    var log' := WriteRest(job, log);
    if exists k :: 0 <= k < log'.rest && job.rest[k] == a {
      var k :| 0 <= k < log'.rest && job.rest[k] == a;
      assert k < log.rest || k == log.rest;
    }
    assert log.rest < log'.rest;
  }

  lemma WriteChunkAddsOne(job: Job, log: Log, q: nat)
    requires Distinct(job) && LogSized(job, log) && q < |job.chunks| && log.done[q] < |job.chunks[q]|
    ensures LogSized(job, WriteChunk(job, log, q)) && !Written(job, log, job.chunks[q][log.done[q]])
    ensures forall b: nat :: Written(job, WriteChunk(job, log, q), b) <==>
                             Written(job, log, b) || b == job.chunks[q][log.done[q]]
  {
    WriteChunkAdds(job, log, q, 0);
    hide Written, Distinct;
    forall b: nat
      ensures Written(job, WriteChunk(job, log, q), b) <==> Written(job, log, b) || b == job.chunks[q][log.done[q]]
    {
      WriteChunkAdds(job, log, q, b);
    }
  }

  lemma WriteRestAddsOne(job: Job, log: Log)
    requires Distinct(job) && LogSized(job, log) && log.rest < |job.rest|
    ensures LogSized(job, WriteRest(job, log)) && !Written(job, log, job.rest[log.rest])
    ensures forall b: nat :: Written(job, WriteRest(job, log), b) <==>
                             Written(job, log, b) || b == job.rest[log.rest]
  {
    WriteRestAdds(job, log, 0);
    hide Written, Distinct;
    forall b: nat
      ensures Written(job, WriteRest(job, log), b) <==> Written(job, log, b) || b == job.rest[log.rest]
    {
      WriteRestAdds(job, log, b);
    }
  }

  // ---------- the machine ----------

  datatype Pc =
    | Store(r: nat)                          // about to store nth (round |jobs|: finished)
    | Open(r: nat)                           // opening wait
    | Steal(r: nat, c: int, p: nat)          // holds chunk c, p cells written; loop test when p == 0
    | Claim(r: nat, c: int)                  // chunk c done, about to fetch_add
    | Rest(r: nat, c: int, p: nat)           // thread 0, remainder
    | Close(r: nat, c: int)                  // closing wait; c is the claim that ended the loop

  datatype State = State(b: B.State, counter: int, pc: seq<Pc>, out: map<nat, real>, logs: seq<Log>)

  const I32_MAX: int := 0x7FFF_FFFF

  /** fetch_add on an i32 wraps. */
  function WrappingSucc(x: int): int {
    if x == I32_MAX then -0x8000_0000 else x + 1
  }

  ghost function Init(jobs: seq<Job>, n: nat, counter: int, out: map<nat, real>): State {
    State(B.Init(n), counter, seq(n, _ => Store(0)), out,
          seq(|jobs|, k requires 0 <= k < |jobs| => EmptyLog(jobs[k])))
  }

  /** A program counter names an existing job, and its cell count is what the log says. */
  ghost predicate PcOk(jobs: seq<Job>, logs: seq<Log>, p: Pc)
    requires |logs| == |jobs| && forall k :: 0 <= k < |jobs| ==> LogSized(jobs[k], logs[k])
  {
    match p
    case Store(r) => r <= |jobs|
    case Open(r) => r < |jobs|
    case Steal(r, c, k) =>
      r < |jobs| && LogSized(jobs[r], logs[r]) && 0 <= c
      && if c < |jobs[r].chunks| then k == logs[r].done[c] else k == 0
    case Claim(r, c) => r < |jobs| && 0 <= c < |jobs[r].chunks|
    case Rest(r, c, k) => r < |jobs| && k == logs[r].rest && c >= |jobs[r].chunks|
    case Close(r, c) => r < |jobs| && c >= |jobs[r].chunks|
  }

  ghost predicate Sized(jobs: seq<Job>, s: State) {
    && B.Reachable(s.b) && B.Sized(s.b) && |s.b.pc| == |s.pc| && |s.logs| == |jobs|
    && (forall k :: 0 <= k < |jobs| ==> LogSized(jobs[k], s.logs[k]))
    && (forall i :: 0 <= i < |s.pc| ==> PcOk(jobs, s.logs, s.pc[i]))
  }

  ghost function BarrierStep(s: State, i: nat): State
    requires i < |s.b.pc| == |s.b.arrived| == |s.b.returned|
  {
    s.(b := B.Step(s.b, i))
  }

  ghost function WriteStep(jobs: seq<Job>, s: State, i: nat, a: nat, v: real, log: Log): State
    requires i < |s.pc| && (s.pc[i].Steal? || s.pc[i].Rest?) && s.pc[i].r < |jobs| == |s.logs|
  {
    var r := s.pc[i].r;
    s.(out := s.out[a := v], logs := s.logs[r := log],
       pc := s.pc[i := s.pc[i].(p := s.pc[i].p + 1)])
  }

  ghost function Move(s: State, i: nat, p: Pc): State
    requires i < |s.pc|
  {
    s.(pc := s.pc[i := p])
  }

  /** One atomic step of thread i: an operation inside the barrier, a store, one output write, or one
      fetch_add. */
  ghost function Step(jobs: seq<Job>, s: State, i: nat): State
    requires Sized(jobs, s) && i < |s.pc|
  {
    assert PcOk(jobs, s.logs, s.pc[i]);
    if s.b.pc[i] != B.Outside then BarrierStep(s, i)
    else
      match s.pc[i]
      case Store(r) =>
        if r < |jobs| then Move(s, i, Open(r)).(counter := |s.pc|) else s
      case Open(r) =>
        if s.b.returned[i] == 2 * r then BarrierStep(s, i) else Move(s, i, Steal(r, i, 0))
      case Steal(r, c, p) =>
        var job := jobs[r];
        if c >= |job.chunks| then Move(s, i, if i == 0 then Rest(r, c, 0) else Close(r, c))
        else if p < |job.chunks[c]| then
          WriteStep(jobs, s, i, job.chunks[c][p], job.chunkVal(c, p), WriteChunk(job, s.logs[r], c))
        else Move(s, i, Claim(r, c))
      case Claim(r, c) =>
        Move(s, i, Steal(r, s.counter, 0)).(counter := WrappingSucc(s.counter))
      case Rest(r, c, p) =>
        var job := jobs[r];
        if p < |job.rest| then WriteStep(jobs, s, i, job.rest[p], job.restVal(p), WriteRest(job, s.logs[r]))
        else Move(s, i, Close(r, c))
      case Close(r, c) =>
        if s.b.returned[i] == 2 * r + 1 then BarrierStep(s, i) else Move(s, i, Store(r + 1))
  }

  // ---------- invariant ----------

  /** The number of waits a thread has completed fixes how far it is in the program. */
  predicate ThreadOk(p: Pc, i: nat, out: bool, waits: nat) {
    match p
    case Store(r) => out && waits == 2 * r
    case Open(r) => waits == 2 * r || (waits == 2 * r + 1 && out)
    case Steal(r, _, _) => out && waits == 2 * r + 1
    case Claim(r, _) => out && waits == 2 * r + 1
    case Rest(r, _, _) => i == 0 && out && waits == 2 * r + 1
    case Close(r, _) => waits == 2 * r + 1 || (waits == 2 * r + 2 && out)
  }

  /** The chunk a thread answers for while a round is being stolen: its own index until it starts,
      then its last claim. */
  function Held(p: Pc, i: nat): int {
    match p
    case Store(_) => -1
    case Open(_) => i
    case Steal(_, c, _) => c
    case Claim(_, c) => c
    case Rest(_, c, _) => c
    case Close(_, c) => c
  }

  /** Thread i still has cells of chunk q to write. */
  predicate Working(p: Pc, i: nat, q: int) {
    match p
    case Open(_) => i == q
    case Steal(_, c, _) => c == q
    case _ => false
  }

  ghost predicate HeldOk(job: Job, log: Log, r: nat, counter: int, p: Pc, i: nat)
    requires LogSized(job, log)
  {
    && !p.Store? && p.r == r
    && 0 <= Held(p, i) < counter
    && (p.Open? && i < |log.done| ==> log.done[i] == 0)
    && (p.Claim? && 0 <= p.c < |log.done| ==> log.done[p.c] == |job.chunks[p.c]|)
  }

  ghost predicate SomeoneWorking(pc: seq<Pc>, q: nat) {
    exists i: nat :: i < |pc| && Working(pc[i], i, q)
  }

  ghost predicate SomeoneHolds(pc: seq<Pc>, v: nat) {
    exists i: nat :: i < |pc| && Held(pc[i], i) == v
  }

  ghost predicate ChunkOk(job: Job, log: Log, counter: int, pc: seq<Pc>, q: nat)
    requires LogSized(job, log) && q < |job.chunks|
  {
    && (q >= counter ==> log.done[q] == 0)
    && (q < counter && log.done[q] != |job.chunks[q]| ==> SomeoneWorking(pc, q))
  }

  predicate RestOk(job: Job, log: Log, p: Pc) {
    (p.Close? ==> log.rest == |job.rest|) && (!p.Close? && !p.Rest? ==> log.rest == 0)
  }

  ghost predicate Exclusive(pc: seq<Pc>) {
    forall i: nat, j: nat :: i < |pc| && j < |pc| && Held(pc[i], i) == Held(pc[j], j) ==> i == j
  }

  /** Round r is being stolen: each claimed chunk belongs to one thread or is finished, and claims
      past the last chunk are held by threads that have left the loop. */
  ghost predicate StealOk(job: Job, log: Log, r: nat, counter: int, pc: seq<Pc>)
    requires LogSized(job, log)
  {
    && 0 < |pc| <= counter
    && (forall i: nat :: i < |pc| ==> HeldOk(job, log, r, counter, pc[i], i))
    && Exclusive(pc)
    && (forall q: nat :: q < |job.chunks| ==> ChunkOk(job, log, counter, pc, q))
    && (forall v: nat :: |job.chunks| <= v < counter ==> SomeoneHolds(pc, v))
    && RestOk(job, log, pc[0])
  }

  /** Between rounds: whoever has passed its store left `nth` in the counter. */
  ghost predicate StoreOk(counter: int, pc: seq<Pc>) {
    forall i: nat :: i < |pc| && pc[i].Open? ==> counter == |pc|
  }

  ghost predicate LogOk(job: Job, log: Log, k: nat, gen: nat, out: map<nat, real>)
    requires LogSized(job, log)
  {
    && HitOnce(job, log)
    && (2 * k + 1 < gen ==> Complete(job, log))
    && (2 * k + 1 > gen ==> Fresh(log))
    && (gen == 2 * k + 1 || gen == 2 * k + 2 ==> ValuesOk(job, log, out))
  }

  ghost predicate ThreadsOk(s: State)
    requires B.Sized(s.b) && |s.b.pc| == |s.pc|
  {
    forall i: nat :: i < |s.pc| ==> ThreadOk(s.pc[i], i, s.b.pc[i] == B.Outside, s.b.returned[i])
  }

  ghost predicate LogsOk(jobs: seq<Job>, logs: seq<Log>, gen: nat, out: map<nat, real>)
    requires |logs| == |jobs| && forall k :: 0 <= k < |jobs| ==> LogSized(jobs[k], logs[k])
  {
    forall k: nat :: k < |jobs| ==> LogOk(jobs[k], logs[k], k, gen, out)
  }

  ghost predicate RoundOk(jobs: seq<Job>, logs: seq<Log>, gen: nat, counter: int, pc: seq<Pc>)
    requires |logs| == |jobs| && forall k :: 0 <= k < |jobs| ==> LogSized(jobs[k], logs[k])
  {
    if gen % 2 == 1 then
      gen / 2 < |jobs| && StealOk(jobs[gen / 2], logs[gen / 2], gen / 2, counter, pc)
    else
      StoreOk(counter, pc)
  }

  ghost predicate Inv(jobs: seq<Job>, s: State) {
    && Sized(jobs, s)
    && ThreadsOk(s)
    && LogsOk(jobs, s.logs, s.b.gen, s.out)
    && RoundOk(jobs, s.logs, s.b.gen, s.counter, s.pc)
  }

  /** What the jobs of a run must satisfy: addresses distinct, and the counter cannot leave i32. */
  ghost predicate JobsOk(jobs: seq<Job>, n: nat) {
    forall k :: 0 <= k < |jobs| ==> Distinct(jobs[k]) && |jobs[k].chunks| + n <= I32_MAX
  }

  lemma InitInv(jobs: seq<Job>, n: nat, counter: int, out: map<nat, real>)
    requires n > 1
    ensures Inv(jobs, Init(jobs, n, counter, out)) && |Init(jobs, n, counter, out).pc| == n
  {
    B.ReachInit(n);
    var s := Init(jobs, n, counter, out);
    assert Sized(jobs, s);
    forall k: nat | k < |jobs|
      ensures LogOk(jobs[k], s.logs[k], k, s.b.gen, s.out)
    {
    }
  }

  // ---------- where the threads are ----------

  /** A thread's round and phase follow from the generation. */
  lemma Phase(jobs: seq<Job>, s: State, i: nat)
    requires Sized(jobs, s) && ThreadsOk(s) && i < |s.pc|
    ensures match s.pc[i]
            case Store(r) => s.b.gen == 2 * r
            case Open(r) => s.b.gen == 2 * r || s.b.gen == 2 * r + 1
            case Close(r, _) => s.b.gen == 2 * r + 1 || s.b.gen == 2 * r + 2
            case p => s.b.gen == 2 * p.r + 1
    ensures s.pc[i].Open? && s.b.returned[i] == 2 * s.pc[i].r + 1 ==> s.b.gen == 2 * s.pc[i].r + 1
    ensures s.pc[i].Close? && s.b.returned[i] == 2 * s.pc[i].r + 2 ==> s.b.gen == 2 * s.pc[i].r + 2
  {
    B.ReachThread(s.b, i);
    assert ThreadOk(s.pc[i], i, s.b.pc[i] == B.Outside, s.b.returned[i]);
    hide B.CountOk, B.WakePending;
  }

  /** When the last arriver bumps the generation, everyone is inside this wait. */
  lemma AllInside(jobs: seq<Job>, s: State, i: nat, j: nat)
    requires Sized(jobs, s) && ThreadsOk(s) && i < |s.pc| && j < |s.pc| && s.b.pc[i] == B.Bump
    ensures s.b.pc[j] != B.Outside
    ensures s.pc[j].Open? || s.pc[j].Close?
    ensures s.b.gen == if s.pc[j].Open? then 2 * s.pc[j].r else 2 * s.pc[j].r + 1
  {
    B.ReachInv(s.b);
    assert B.ThreadOk(s.b, j) && B.Closing(s.b.pc[i]);
    assert ThreadOk(s.pc[j], j, s.b.pc[j] == B.Outside, s.b.returned[j]);
  }

  // ---------- barrier steps ----------

  /** Inside the barrier, or calling it. */
  ghost predicate AtBarrier(s: State, i: nat)
    requires B.Sized(s.b) && |s.b.pc| == |s.pc| && i < |s.pc|
  {
    || s.b.pc[i] != B.Outside
    || (s.pc[i].Open? && s.b.returned[i] == 2 * s.pc[i].r)
    || (s.pc[i].Close? && s.b.returned[i] == 2 * s.pc[i].r + 1)
  }

  lemma BarrierThreads(jobs: seq<Job>, s: State, i: nat)
    requires Sized(jobs, s) && ThreadsOk(s) && i < |s.pc| && AtBarrier(s, i)
    ensures Sized(jobs, BarrierStep(s, i)) && ThreadsOk(BarrierStep(s, i))
  {
    var s' := BarrierStep(s, i);
    B.ReachStep(s.b, i);
    assert Sized(jobs, s');
    forall j: nat | j < |s.pc|
      ensures ThreadOk(s'.pc[j], j, s'.b.pc[j] == B.Outside, s'.b.returned[j])
    {
      assert ThreadOk(s.pc[j], j, s.b.pc[j] == B.Outside, s.b.returned[j]);
      if j != i {
        B.ReachFrame(s.b, i, j);
      }
    }
  }

  /** All threads arrived at the opening wait of round r: the round starts with the counter at nth
      and thread i answering for chunk i. */
  lemma RoundStarts(job: Job, log: Log, r: nat, counter: int, pc: seq<Pc>)
    requires LogSized(job, log) && Fresh(log) && pc != []
    requires StoreOk(counter, pc) && forall i: nat :: i < |pc| ==> pc[i] == Open(r)
    ensures StealOk(job, log, r, counter, pc)
  {
    assert pc[0] == Open(r) && counter == |pc|;
    forall q: nat | q < |job.chunks|
      ensures ChunkOk(job, log, counter, pc, q)
    {
      if q < counter {
        assert Working(pc[q], q, q);
      }
    }
    forall v: nat | |job.chunks| <= v < counter
      ensures SomeoneHolds(pc, v)
    {
      assert Held(pc[v], v) == v;
    }
  }

  /** All threads arrived at the closing wait: every chunk and the remainder are written. */
  lemma RoundEnds(job: Job, log: Log, r: nat, counter: int, pc: seq<Pc>)
    requires LogSized(job, log) && StealOk(job, log, r, counter, pc)
    requires forall i: nat :: i < |pc| ==> pc[i].Close? && pc[i].c >= |job.chunks|
    ensures Complete(job, log)
  {
    assert HeldOk(job, log, r, counter, pc[0], 0);
    forall q: nat | q < |job.chunks|
      ensures log.done[q] == |job.chunks[q]|
    {
      assert ChunkOk(job, log, counter, pc, q);
      assert !SomeoneWorking(pc, q);
    }
  }

  lemma BumpLogs(jobs: seq<Job>, logs: seq<Log>, gen: nat, out: map<nat, real>)
    requires |logs| == |jobs| && forall k :: 0 <= k < |jobs| ==> LogSized(jobs[k], logs[k])
    requires LogsOk(jobs, logs, gen, out)
    requires gen % 2 == 1 ==> gen / 2 < |jobs| && Complete(jobs[gen / 2], logs[gen / 2])
    ensures LogsOk(jobs, logs, gen + 1, out)
  {
    forall k: nat | k < |jobs|
      ensures LogOk(jobs[k], logs[k], k, gen + 1, out)
    {
      assert LogOk(jobs[k], logs[k], k, gen, out);
      if gen == 2 * k {
        assert Fresh(logs[k]);
      }
      hide HitOnce, Complete;
    }
  }

  lemma BumpRound(jobs: seq<Job>, s: State, i: nat)
    requires Inv(jobs, s) && i < |s.pc| && s.b.pc[i] == B.Bump
    ensures RoundOk(jobs, s.logs, s.b.gen + 1, s.counter, s.pc)
    ensures s.b.gen % 2 == 1 ==> s.b.gen / 2 < |jobs| && Complete(jobs[s.b.gen / 2], s.logs[s.b.gen / 2])
  {
    var gen, r := s.b.gen, s.b.gen / 2;
    AllInsideRound(jobs, s, i);
    assert PcOk(jobs, s.logs, s.pc[i]);
    hide StealOk, HitOnce, B.Reachable, Complete, LogSized;
    if gen % 2 == 0 {
      assert LogOk(jobs[r], s.logs[r], r, gen, s.out);
      RoundStarts(jobs[r], s.logs[r], r, s.counter, s.pc);
      assert (gen + 1) / 2 == r;
    } else {
      RoundEnds(jobs[r], s.logs[r], r, s.counter, s.pc);
      assert (gen + 1) % 2 == 0;
    }
  }

  lemma AllInsideRound(jobs: seq<Job>, s: State, i: nat)
    requires Sized(jobs, s) && ThreadsOk(s) && i < |s.pc| && s.b.pc[i] == B.Bump
    ensures forall j: nat :: j < |s.pc| ==>
              if s.b.gen % 2 == 0 then s.pc[j] == Open(s.b.gen / 2)
              else s.pc[j].Close? && s.pc[j].r == s.b.gen / 2 && s.b.gen / 2 < |jobs|
                   && s.pc[j].c >= |jobs[s.b.gen / 2].chunks|
  {
    forall j: nat | j < |s.pc|
      ensures if s.b.gen % 2 == 0 then s.pc[j] == Open(s.b.gen / 2)
              else s.pc[j].Close? && s.pc[j].r == s.b.gen / 2 && s.b.gen / 2 < |jobs|
                   && s.pc[j].c >= |jobs[s.b.gen / 2].chunks|
    {
      AllInside(jobs, s, i, j);
      assert PcOk(jobs, s.logs, s.pc[j]);
    }
    hide B.Reachable, ThreadOk, LogSized;
  }

  lemma BumpInv(jobs: seq<Job>, s: State, i: nat)
    requires Inv(jobs, s) && i < |s.pc| && s.b.pc[i] == B.Bump
    ensures Inv(jobs, BarrierStep(s, i))
  {
    BumpRound(jobs, s, i);
    hide RoundOk, LogsOk, ThreadsOk, Complete, B.Reachable, PcOk, LogSized, B.Step, AtBarrier;
    BarrierThreadsAtBump(jobs, s, i);
    BumpLogs(jobs, s.logs, s.b.gen, s.out);
  }

  lemma BarrierThreadsAtBump(jobs: seq<Job>, s: State, i: nat)
    requires Sized(jobs, s) && ThreadsOk(s) && i < |s.pc| && s.b.pc[i] == B.Bump
    ensures Sized(jobs, BarrierStep(s, i)) && ThreadsOk(BarrierStep(s, i))
    ensures BarrierStep(s, i).b.gen == s.b.gen + 1
  {
    BarrierThreads(jobs, s, i);
    B.ReachStep(s.b, i);
    hide ThreadOk, PcOk, LogSized;
  }

  lemma BarrierInv(jobs: seq<Job>, s: State, i: nat)
    requires Inv(jobs, s) && i < |s.pc| && AtBarrier(s, i)
    ensures Inv(jobs, BarrierStep(s, i))
  {
    hide LogsOk, RoundOk;
    if s.b.pc[i] == B.Bump {
      BumpInv(jobs, s, i);
    } else {
      BarrierThreads(jobs, s, i);
      B.ReachStep(s.b, i);
    }
  }

  // ---------- steps of the program ----------

  lemma MoveThreads(jobs: seq<Job>, s: State, i: nat, p: Pc, counter: int)
    requires Sized(jobs, s) && ThreadsOk(s) && i < |s.pc|
    requires PcOk(jobs, s.logs, p) && ThreadOk(p, i, s.b.pc[i] == B.Outside, s.b.returned[i])
    ensures Sized(jobs, Move(s, i, p).(counter := counter)) && ThreadsOk(Move(s, i, p).(counter := counter))
  {
    assert |s.b.returned| == |s.pc|;
    hide B.Reachable, PcOk, ThreadOk;
    var s' := Move(s, i, p).(counter := counter);
    forall j: nat | j < |s.pc|
      ensures ThreadOk(s'.pc[j], j, s'.b.pc[j] == B.Outside, s'.b.returned[j])
    {
      assert ThreadOk(s.pc[j], j, s.b.pc[j] == B.Outside, s.b.returned[j]);
    }
  }

  /** A thread moves on without changing the chunk it answers for. */
  lemma StealMove(job: Job, log: Log, r: nat, counter: int, pc: seq<Pc>, i: nat, p: Pc)
    requires LogSized(job, log) && StealOk(job, log, r, counter, pc) && i < |pc|
    requires Held(p, i) == Held(pc[i], i) && HeldOk(job, log, r, counter, p, i) && (i == 0 ==> RestOk(job, log, p))
    requires |log.done| == |job.chunks|
    requires forall q: nat :: q < |job.chunks| && Working(pc[i], i, q) ==>
               Working(p, i, q) || log.done[q] == |job.chunks[q]|
    ensures StealOk(job, log, r, counter, pc[i := p])
  {
    var pc' := pc[i := p];
    forall j: nat | j < |pc'|
      ensures HeldOk(job, log, r, counter, pc'[j], j) && Held(pc'[j], j) == Held(pc[j], j)
    {
      assert HeldOk(job, log, r, counter, pc[j], j);
    }
    forall q: nat | q < |job.chunks|
      ensures ChunkOk(job, log, counter, pc', q)
    {
      assert ChunkOk(job, log, counter, pc, q);
      if q < counter && log.done[q] != |job.chunks[q]| {
        var j: nat :| j < |pc| && Working(pc[j], j, q);
        assert Working(pc'[j], j, q);
      }
    }
    forall v: nat | |job.chunks| <= v < counter
      ensures SomeoneHolds(pc', v)
    {
      assert SomeoneHolds(pc, v);
      var j: nat :| j < |pc| && Held(pc[j], j) == v;
      assert Held(pc'[j], j) == v;
    }
  }

  /** One more cell of the chunk thread i holds. */
  lemma StealWrite(job: Job, log: Log, r: nat, counter: int, pc: seq<Pc>, i: nat, c: nat)
    requires LogSized(job, log) && StealOk(job, log, r, counter, pc) && i < |pc|
    requires c < |job.chunks| && log.done[c] < |job.chunks[c]| && pc[i] == Steal(r, c, log.done[c])
    requires LogSized(job, WriteChunk(job, log, c))
    ensures StealOk(job, WriteChunk(job, log, c), r, counter, pc[i := Steal(r, c, log.done[c] + 1)])
  {
    var log', pc' := WriteChunk(job, log, c), pc[i := Steal(r, c, log.done[c] + 1)];
    assert HeldOk(job, log, r, counter, pc[i], i);
    forall j: nat | j < |pc'|
      ensures HeldOk(job, log', r, counter, pc'[j], j) && Held(pc'[j], j) == Held(pc[j], j)
    {
      assert HeldOk(job, log, r, counter, pc[j], j);
      assert j != i ==> Held(pc[j], j) != Held(pc[i], i);
    }
    forall q: nat | q < |job.chunks|
      ensures ChunkOk(job, log', counter, pc', q)
    {
      assert ChunkOk(job, log, counter, pc, q);
      if q == c {
        assert Working(pc'[i], i, c);
      } else if q < counter && log.done[q] != |job.chunks[q]| {
        var j: nat :| j < |pc| && Working(pc[j], j, q);
        assert Working(pc'[j], j, q);
      }
    }
    forall v: nat | |job.chunks| <= v < counter
      ensures SomeoneHolds(pc', v)
    {
      assert SomeoneHolds(pc, v);
      var j: nat :| j < |pc| && Held(pc[j], j) == v;
      assert Held(pc'[j], j) == v;
    }
  }

  /** One more cell of the remainder, by thread 0. */
  lemma StealWriteRest(job: Job, log: Log, r: nat, counter: int, pc: seq<Pc>, p: Pc)
    requires LogSized(job, log) && StealOk(job, log, r, counter, pc)
    requires log.rest < |job.rest| && pc[0].Rest? && p.Rest? && p.r == r && p.c == pc[0].c
    requires LogSized(job, WriteRest(job, log))
    ensures StealOk(job, WriteRest(job, log), r, counter, pc[0 := p])
  {
    var log', pc' := WriteRest(job, log), pc[0 := p];
    forall j: nat | j < |pc'|
      ensures HeldOk(job, log', r, counter, pc'[j], j) && Held(pc'[j], j) == Held(pc[j], j)
    {
      assert HeldOk(job, log, r, counter, pc[j], j);
    }
    forall q: nat | q < |job.chunks|
      ensures ChunkOk(job, log', counter, pc', q)
    {
      assert ChunkOk(job, log, counter, pc, q);
      if q < counter && log.done[q] != |job.chunks[q]| {
        var j: nat :| j < |pc| && Working(pc[j], j, q);
        assert Working(pc'[j], j, q);
      }
    }
    forall v: nat | |job.chunks| <= v < counter
      ensures SomeoneHolds(pc', v)
    {
      assert SomeoneHolds(pc, v);
      var j: nat :| j < |pc| && Held(pc[j], j) == v;
      assert Held(pc'[j], j) == v;
    }
  }

  lemma UnclaimedIsEmpty(job: Job, log: Log, r: nat, counter: int, pc: seq<Pc>)
    requires LogSized(job, log) && StealOk(job, log, r, counter, pc)
    ensures 0 <= counter < |job.chunks| ==> log.done[counter] == 0
  {
    if counter < |job.chunks| {
      assert ChunkOk(job, log, counter, pc, counter);
    }
  }

  /** The fetch_add hands out the counter's value to thread i alone. */
  lemma StealClaim(job: Job, log: Log, r: nat, counter: int, pc: seq<Pc>, i: nat, c: nat)
    requires LogSized(job, log) && StealOk(job, log, r, counter, pc) && i < |pc|
    requires pc[i] == Claim(r, c) && c < |job.chunks|
    ensures StealOk(job, log, r, counter + 1, pc[i := Steal(r, counter, 0)])
  {
    var pc', counter' := pc[i := Steal(r, counter, 0)], counter + 1;
    forall j: nat | j < |pc'|
      ensures HeldOk(job, log, r, counter', pc'[j], j)
      ensures Held(pc'[j], j) == if j == i then counter else Held(pc[j], j)
      ensures j != i ==> Held(pc'[j], j) < counter
    {
      assert HeldOk(job, log, r, counter, pc[j], j);
    }
    forall q: nat | q < |job.chunks|
      ensures ChunkOk(job, log, counter', pc', q)
    {
      assert ChunkOk(job, log, counter, pc, q);
      if q == counter {
        assert Working(pc'[i], i, q);
      } else if q < counter && log.done[q] != |job.chunks[q]| {
        var j: nat :| j < |pc| && Working(pc[j], j, q);
        assert Working(pc'[j], j, q);
      }
    }
    forall v: nat | |job.chunks| <= v < counter'
      ensures SomeoneHolds(pc', v)
    {
      if v == counter {
        assert Held(pc'[i], i) == v;
      } else {
        assert SomeoneHolds(pc, v);
        var j: nat :| j < |pc| && Held(pc[j], j) == v;
        assert Held(pc'[j], j) == v;
      }
    }
  }

  // ---------- the counter stays in i32 ----------

  function Holdings(pc: seq<Pc>): (h: seq<int>)
    ensures |h| == |pc| && forall i :: 0 <= i < |pc| ==> h[i] == Held(pc[i], i)
  {
    seq(|pc|, i requires 0 <= i < |pc| => Held(pc[i], i))
  }

  /** n values cannot cover more than n integers. */
  lemma {:induction false} Pigeonhole(h: seq<int>, lo: int, hi: int)
    requires lo <= hi && forall v :: lo <= v < hi ==> v in h
    ensures hi - lo <= |h|
    decreases hi - lo
  {
    if lo < hi {
      var v := hi - 1;
      assert v in h;
      var k :| 0 <= k < |h| && h[k] == v;
      var h' := h[..k] + h[k + 1..];
      forall w | lo <= w < v
        ensures w in h'
      {
        assert w in h;
        var j :| 0 <= j < |h| && h[j] == w;
        assert h'[if j < k then j else j - 1] == w;
      }
      Pigeonhole(h', lo, v);
    }
  }

  lemma CounterBound(job: Job, log: Log, r: nat, counter: int, pc: seq<Pc>, i: nat)
    requires LogSized(job, log) && StealOk(job, log, r, counter, pc) && i < |pc|
    requires pc[i].Claim? && 0 <= pc[i].c < |job.chunks|
    ensures counter < |job.chunks| + |pc|
  {
    if counter > |job.chunks| {
      var h := Holdings(pc);
      var h' := h[..i] + h[i + 1..];
      forall v | |job.chunks| <= v < counter
        ensures v in h'
      {
        assert SomeoneHolds(pc, v);
        var j: nat :| j < |pc| && Held(pc[j], j) == v;
        assert h'[if j < i then j else j - 1] == v;
      }
      Pigeonhole(h', |job.chunks|, counter);
    }
  }

  // ---------- every step keeps the invariant ----------

  /** Writing one more address: the log of its job stays exact and the value is in place. */
  lemma WriteLog(job: Job, log: Log, out: map<nat, real>, log': Log, a: nat)
    requires LogSized(job, log) && LogSized(job, log') && HitOnce(job, log) && ValuesOk(job, log, out)
    requires !Written(job, log, a) && log'.hits == log.hits + multiset{a}
    requires forall b: nat :: Written(job, log', b) <==> Written(job, log, b) || b == a
    ensures HitOnce(job, log') && ValuesOk(job, log', out[a := Val(job, a)])
  {
    hide Written, LogSized, Val;
  }

  lemma WriteLogs(jobs: seq<Job>, logs: seq<Log>, gen: nat, out: map<nat, real>, r: nat, log': Log, a: nat)
    requires |logs| == |jobs| && forall k :: 0 <= k < |jobs| ==> LogSized(jobs[k], logs[k])
    requires LogsOk(jobs, logs, gen, out) && gen == 2 * r + 1 && r < |jobs|
    requires LogSized(jobs[r], log') && !Written(jobs[r], logs[r], a)
    requires log'.hits == logs[r].hits + multiset{a}
    requires forall b: nat :: Written(jobs[r], log', b) <==> Written(jobs[r], logs[r], b) || b == a
    ensures LogsOk(jobs, logs[r := log'], gen, out[a := Val(jobs[r], a)])
  {
    var logs', out' := logs[r := log'], out[a := Val(jobs[r], a)];
    assert LogOk(jobs[r], logs[r], r, gen, out);
    hide Written, Complete, HitOnce, ValuesOk, Val;
    WriteLog(jobs[r], logs[r], out, log', a);
    forall k: nat | k < |jobs|
      ensures LogOk(jobs[k], logs'[k], k, gen, out')
    {
      assert LogOk(jobs[k], logs[k], k, gen, out);
    }
  }

  /** The write keeps every thread's cell count in step with the log. */
  lemma WriteSized(jobs: seq<Job>, s: State, i: nat, a: nat, v: real, log': Log)
    requires Sized(jobs, s) && ThreadsOk(s) && i < |s.pc| && (s.pc[i].Steal? || s.pc[i].Rest?)
    requires s.b.gen == 2 * s.pc[i].r + 1 && RoundOk(jobs, s.logs, s.b.gen, s.counter, s.pc)
    requires LogSized(jobs[s.pc[i].r], log') && PcOk(jobs, s.logs[s.pc[i].r := log'], s.pc[i].(p := s.pc[i].p + 1))
    requires var log := s.logs[s.pc[i].r];
             if s.pc[i].Rest? then i == 0 && log'.done == log.done
             else log'.rest == log.rest && forall q :: 0 <= q < |log.done| && q != s.pc[i].c ==> log'.done[q] == log.done[q]
    ensures Sized(jobs, WriteStep(jobs, s, i, a, v, log')) && ThreadsOk(WriteStep(jobs, s, i, a, v, log'))
  {
    var s', r := WriteStep(jobs, s, i, a, v, log'), s.pc[i].r;
    var job, log := jobs[r], s.logs[r];
    assert ThreadOk(s.pc[i], i, s.b.pc[i] == B.Outside, s.b.returned[i]);
    assert StealOk(job, log, r, s.counter, s.pc);
    hide B.Reachable, Written;
    forall j: nat | j < |s.pc|
      ensures PcOk(jobs, s'.logs, s'.pc[j])
      ensures ThreadOk(s'.pc[j], j, s'.b.pc[j] == B.Outside, s'.b.returned[j])
    {
      assert PcOk(jobs, s.logs, s.pc[j]) && HeldOk(job, log, r, s.counter, s.pc[j], j);
      assert ThreadOk(s.pc[j], j, s.b.pc[j] == B.Outside, s.b.returned[j]);
      assert j != i ==> Held(s.pc[j], j) != Held(s.pc[i], i);
    }
  }

  /** The round being stolen, seen from a thread in it. */
  lemma InRound(jobs: seq<Job>, s: State, i: nat)
    requires Inv(jobs, s) && i < |s.pc| && (s.pc[i].Steal? || s.pc[i].Claim? || s.pc[i].Rest?
             || (s.pc[i].Open? && s.b.pc[i] == B.Outside && s.b.returned[i] != 2 * s.pc[i].r))
    ensures var r := s.pc[i].r;
            && r < |jobs| && s.b.gen == 2 * r + 1 && s.b.gen / 2 == r && s.b.gen % 2 == 1
            && StealOk(jobs[r], s.logs[r], r, s.counter, s.pc)
            && HeldOk(jobs[r], s.logs[r], r, s.counter, s.pc[i], i)
            && s.b.pc[i] == B.Outside && s.b.returned[i] == 2 * r + 1
  {
    Phase(jobs, s, i);
    assert PcOk(jobs, s.logs, s.pc[i]);
    assert ThreadOk(s.pc[i], i, s.b.pc[i] == B.Outside, s.b.returned[i]);
    hide B.Reachable, HitOnce, ValuesOk;
  }

  lemma StepStore(jobs: seq<Job>, s: State, i: nat)
    requires Inv(jobs, s) && i < |s.pc| && s.b.pc[i] == B.Outside && s.pc[i].Store?
    ensures Inv(jobs, Step(jobs, s, i))
  {
    Phase(jobs, s, i);
    var r := s.pc[i].r;
    assert ThreadOk(s.pc[i], i, s.b.pc[i] == B.Outside, s.b.returned[i]);
    if r < |jobs| {
      MoveThreads(jobs, s, i, Open(r), |s.pc|);
    }
    hide B.Reachable, HitOnce, ValuesOk, StealOk;
  }

  lemma StepOpen(jobs: seq<Job>, s: State, i: nat)
    requires Inv(jobs, s) && i < |s.pc| && s.b.pc[i] == B.Outside && s.pc[i].Open?
    ensures Inv(jobs, Step(jobs, s, i))
  {
    var r := s.pc[i].r;
    if s.b.returned[i] == 2 * r {
      BarrierInv(jobs, s, i);
    } else {
      InRound(jobs, s, i);
      MoveThreads(jobs, s, i, Steal(r, i, 0), s.counter);
      StealMove(jobs[r], s.logs[r], r, s.counter, s.pc, i, Steal(r, i, 0));
    }
    hide B.Reachable, HitOnce, ValuesOk, StealOk;
  }

  /** The loop test fails: thread 0 turns to the remainder, the others to the closing wait. */
  lemma StepLeave(jobs: seq<Job>, s: State, i: nat)
    requires Inv(jobs, s) && i < |s.pc| && s.b.pc[i] == B.Outside && s.pc[i].Steal?
    requires s.pc[i].r < |jobs| && s.pc[i].c >= |jobs[s.pc[i].r].chunks|
    ensures Inv(jobs, Step(jobs, s, i))
  {
    InRound(jobs, s, i);
    var r, c := s.pc[i].r, s.pc[i].c;
    var p := if i == 0 then Rest(r, c, 0) else Close(r, c);
    assert i == 0 ==> RestOk(jobs[r], s.logs[r], s.pc[0]);
    MoveThreads(jobs, s, i, p, s.counter);
    StealMove(jobs[r], s.logs[r], r, s.counter, s.pc, i, p);
    hide B.Reachable, HitOnce, ValuesOk, StealOk;
  }

  lemma StepFinishChunk(jobs: seq<Job>, s: State, i: nat)
    requires Inv(jobs, s) && i < |s.pc| && s.b.pc[i] == B.Outside && s.pc[i].Steal?
    requires s.pc[i].r < |jobs| && 0 <= s.pc[i].c < |jobs[s.pc[i].r].chunks|
    requires s.pc[i].p >= |jobs[s.pc[i].r].chunks[s.pc[i].c]|
    ensures Inv(jobs, Step(jobs, s, i))
  {
    InRound(jobs, s, i);
    var r, c := s.pc[i].r, s.pc[i].c;
    assert PcOk(jobs, s.logs, s.pc[i]);
    MoveThreads(jobs, s, i, Claim(r, c), s.counter);
    StealMove(jobs[r], s.logs[r], r, s.counter, s.pc, i, Claim(r, c));
    hide B.Reachable, HitOnce, ValuesOk, StealOk;
  }

  /** The state after a write in round r meets the invariant part by part. */
  lemma InRoundInv(jobs: seq<Job>, s: State, r: nat)
    requires Sized(jobs, s) && ThreadsOk(s) && LogsOk(jobs, s.logs, s.b.gen, s.out)
    requires r < |jobs| && s.b.gen == 2 * r + 1 && StealOk(jobs[r], s.logs[r], r, s.counter, s.pc)
    ensures Inv(jobs, s)
  {
    hide Sized, ThreadsOk, LogsOk, StealOk;
    assert s.b.gen / 2 == r && s.b.gen % 2 == 1;
    assert Sized(jobs, s);
    assert |s.logs| == |jobs| && (forall k :: 0 <= k < |jobs| ==> LogSized(jobs[k], s.logs[k])) by {
      SizedLogs(jobs, s);
    }
    hide LogSized;
  }

  lemma SizedLogs(jobs: seq<Job>, s: State)
    requires Sized(jobs, s)
    ensures B.Sized(s.b) && |s.b.pc| == |s.pc|
    ensures |s.logs| == |jobs| && forall k :: 0 <= k < |jobs| ==> LogSized(jobs[k], s.logs[k])
  {
    hide B.Reachable, LogSized, PcOk;
  }

  lemma WriteChunkThreads(jobs: seq<Job>, s: State, i: nat, a: nat, v: real)
    requires Sized(jobs, s) && ThreadsOk(s) && i < |s.pc| && s.pc[i].Steal? && s.pc[i].r < |jobs|
    requires s.b.gen == 2 * s.pc[i].r + 1 && RoundOk(jobs, s.logs, s.b.gen, s.counter, s.pc)
    requires 0 <= s.pc[i].c < |jobs[s.pc[i].r].chunks|
    requires s.logs[s.pc[i].r].done[s.pc[i].c] == s.pc[i].p < |jobs[s.pc[i].r].chunks[s.pc[i].c]|
    requires LogSized(jobs[s.pc[i].r], WriteChunk(jobs[s.pc[i].r], s.logs[s.pc[i].r], s.pc[i].c))
    ensures var s' := WriteStep(jobs, s, i, a, v, WriteChunk(jobs[s.pc[i].r], s.logs[s.pc[i].r], s.pc[i].c));
            Sized(jobs, s') && ThreadsOk(s')
  {
    hide B.Reachable, ThreadsOk, RoundOk, WriteStep, Distinct;
    WriteSized(jobs, s, i, a, v, WriteChunk(jobs[s.pc[i].r], s.logs[s.pc[i].r], s.pc[i].c));
  }

  lemma StepIsWrite(jobs: seq<Job>, s: State, i: nat)
    requires Sized(jobs, s) && i < |s.pc| && s.b.pc[i] == B.Outside && s.pc[i].Steal?
    requires s.pc[i].r < |jobs| && 0 <= s.pc[i].c < |jobs[s.pc[i].r].chunks|
    requires s.pc[i].p < |jobs[s.pc[i].r].chunks[s.pc[i].c]|
    ensures var job, log, c := jobs[s.pc[i].r], s.logs[s.pc[i].r], s.pc[i].c;
            && LogSized(job, log) && log.done[c] == s.pc[i].p
            && WriteChunk(job, log, c).hits == log.hits + multiset{job.chunks[c][log.done[c]]}
            && var s' := WriteStep(jobs, s, i, job.chunks[c][log.done[c]], job.chunkVal(c, log.done[c]), WriteChunk(job, log, c));
               && Step(jobs, s, i) == s'
               && s'.b == s.b && s'.counter == s.counter
               && s'.out == s.out[job.chunks[c][log.done[c]] := job.chunkVal(c, log.done[c])]
               && s'.logs == s.logs[s.pc[i].r := WriteChunk(job, log, c)]
               && s'.pc == s.pc[i := Steal(s.pc[i].r, c, log.done[c] + 1)]
  {
    assert PcOk(jobs, s.logs, s.pc[i]);
    hide B.Reachable, LogSized;
  }

  lemma StepWriteChunk(jobs: seq<Job>, s: State, i: nat)
    requires Inv(jobs, s) && JobsOk(jobs, |s.pc|) && i < |s.pc| && s.b.pc[i] == B.Outside && s.pc[i].Steal?
    requires s.pc[i].r < |jobs| && 0 <= s.pc[i].c < |jobs[s.pc[i].r].chunks|
    requires s.pc[i].p < |jobs[s.pc[i].r].chunks[s.pc[i].c]|
    ensures Inv(jobs, Step(jobs, s, i))
  {
    InRound(jobs, s, i);
    var r, c := s.pc[i].r, s.pc[i].c;
    var job, log := jobs[r], s.logs[r];
    StepIsWrite(jobs, s, i);
    hide B.Reachable, Written, Distinct, StealOk, HeldOk, LogsOk, ThreadsOk, RoundOk, Step, WriteStep, WriteChunk, PcOk;
    var a, log' := job.chunks[c][log.done[c]], WriteChunk(job, log, c);
    assert Distinct(job);
    hide JobsOk, Val;
    WriteChunkAddsOne(job, log, c);
    ValOfChunk(job, c, log.done[c]);
    var v := job.chunkVal(c, log.done[c]);
    WriteChunkThreads(jobs, s, i, a, v);
    StealWrite(job, log, r, s.counter, s.pc, i, c);
    hide Sized, LogSized;
    WriteLogs(jobs, s.logs, s.b.gen, s.out, r, log', a);
    InRoundInv(jobs, WriteStep(jobs, s, i, a, v, log'), r);
  }

  lemma StepClaim(jobs: seq<Job>, s: State, i: nat)
    requires Inv(jobs, s) && JobsOk(jobs, |s.pc|) && i < |s.pc| && s.b.pc[i] == B.Outside && s.pc[i].Claim?
    ensures Inv(jobs, Step(jobs, s, i))
  {
    InRound(jobs, s, i);
    var r, c := s.pc[i].r, s.pc[i].c;
    assert PcOk(jobs, s.logs, s.pc[i]);
    hide B.Reachable, HitOnce, ValuesOk, StealOk, Distinct, LogsOk;
    CounterBound(jobs[r], s.logs[r], r, s.counter, s.pc, i);
    assert s.counter < I32_MAX;
    UnclaimedIsEmpty(jobs[r], s.logs[r], r, s.counter, s.pc);
    MoveThreads(jobs, s, i, Steal(r, s.counter, 0), WrappingSucc(s.counter));
    StealClaim(jobs[r], s.logs[r], r, s.counter, s.pc, i, c);
    InRoundInv(jobs, Step(jobs, s, i), r);
  }

  lemma StepWriteRest(jobs: seq<Job>, s: State, i: nat)
    requires Inv(jobs, s) && JobsOk(jobs, |s.pc|) && i < |s.pc| && s.b.pc[i] == B.Outside && s.pc[i].Rest?
    requires s.pc[i].r < |jobs| && s.pc[i].p < |jobs[s.pc[i].r].rest|
    ensures Inv(jobs, Step(jobs, s, i))
  {
    InRound(jobs, s, i);
    var r, c, p := s.pc[i].r, s.pc[i].c, s.pc[i].p;
    var job, log := jobs[r], s.logs[r];
    assert PcOk(jobs, s.logs, s.pc[i]);
    assert ThreadOk(s.pc[i], i, s.b.pc[i] == B.Outside, s.b.returned[i]);
    hide B.Reachable, HitOnce, ValuesOk, Written, Distinct, StealOk, LogOk, HeldOk, LogsOk;
    var a, v, log' := job.rest[p], job.restVal(p), WriteRest(job, log);
    WriteRestAddsOne(job, log);
    ValOfRest(job, p);
    WriteLogs(jobs, s.logs, s.b.gen, s.out, r, log', a);
    assert Step(jobs, s, i) == WriteStep(jobs, s, i, a, v, log');
    hide Step;
    WriteSized(jobs, s, i, a, v, log');
    StealWriteRest(job, log, r, s.counter, s.pc, Rest(r, c, p + 1));
    InRoundInv(jobs, WriteStep(jobs, s, i, a, v, log'), r);
  }

  lemma StepEndRest(jobs: seq<Job>, s: State, i: nat)
    requires Inv(jobs, s) && i < |s.pc| && s.b.pc[i] == B.Outside && s.pc[i].Rest?
    requires s.pc[i].r < |jobs| && s.pc[i].p >= |jobs[s.pc[i].r].rest|
    ensures Inv(jobs, Step(jobs, s, i))
  {
    InRound(jobs, s, i);
    var r, c := s.pc[i].r, s.pc[i].c;
    assert PcOk(jobs, s.logs, s.pc[i]);
    assert ThreadOk(s.pc[i], i, s.b.pc[i] == B.Outside, s.b.returned[i]);
    MoveThreads(jobs, s, i, Close(r, c), s.counter);
    StealMove(jobs[r], s.logs[r], r, s.counter, s.pc, i, Close(r, c));
    hide B.Reachable, HitOnce, ValuesOk, StealOk;
  }

  lemma StepClose(jobs: seq<Job>, s: State, i: nat)
    requires Inv(jobs, s) && i < |s.pc| && s.b.pc[i] == B.Outside && s.pc[i].Close?
    ensures Inv(jobs, Step(jobs, s, i))
  {
    var r := s.pc[i].r;
    if s.b.returned[i] == 2 * r + 1 {
      BarrierInv(jobs, s, i);
    } else {
      Phase(jobs, s, i);
      assert PcOk(jobs, s.logs, s.pc[i]);
      assert ThreadOk(s.pc[i], i, s.b.pc[i] == B.Outside, s.b.returned[i]);
      MoveThreads(jobs, s, i, Store(r + 1), s.counter);
    }
    hide B.Reachable, HitOnce, ValuesOk, StealOk;
  }

  /** Any step of any thread, whatever the interleaving. */
  lemma StepInv(jobs: seq<Job>, s: State, i: nat)
    requires Inv(jobs, s) && JobsOk(jobs, |s.pc|) && i < |s.pc|
    ensures Inv(jobs, Step(jobs, s, i)) && |Step(jobs, s, i).pc| == |s.pc|
  {
    assert Sized(jobs, s) && PcOk(jobs, s.logs, s.pc[i]);
    hide B.Reachable, LogsOk, RoundOk, ThreadsOk, JobsOk, StealOk, LogSized, Distinct;
    if s.b.pc[i] != B.Outside {
      BarrierInv(jobs, s, i);
    } else {
      match s.pc[i]
      case Store(_) => StepStore(jobs, s, i);
      case Open(_) => StepOpen(jobs, s, i);
      case Steal(r, c, p) =>
        if c >= |jobs[r].chunks| { StepLeave(jobs, s, i); }
        else if p < |jobs[r].chunks[c]| { StepWriteChunk(jobs, s, i); }
        else { StepFinishChunk(jobs, s, i); }
      case Claim(_, _) => StepClaim(jobs, s, i);
      case Rest(r, _, p) =>
        if p < |jobs[r].rest| { StepWriteRest(jobs, s, i); } else { StepEndRest(jobs, s, i); }
      case Close(_, _) => StepClose(jobs, s, i);
    }
  }
}
