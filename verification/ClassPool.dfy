/**
 * The class of server/ClassPool.cpp. Every critical section and every action between them is a method; each is
 * proved to take the protocol step of PoolProtocol that stands for it.
 */
module ClassPool {
  import opened RealFacts
  import opened PoolProtocol
  import opened ChunkQueue

  /** What one worker has done so far (seconds). */
  datatype WorkerStats = WorkerStats(done: nat, svc: real, svcSq: real, wait: real) {
    function Plus(o: WorkerStats): WorkerStats {
      WorkerStats(done + o.done, svc + o.svc, svcSq + o.svcSq, wait + o.wait)
    }
  }

  datatype PoolSnapshot = PoolSnapshot(
    offered: nat, shed: nat, dequeued: nat, expired: nat, done: nat,
    svcSum: real, svcSqSum: real, waitSum: real, qlen: nat, chunks: nat, active: int, cap: nat)

  const NO_STATS := WorkerStats(0, 0.0, 0.0, 0.0)

  function Seconds(ns: int): real { ns as real / 1000000000.0 }

  /** What a service of the given length after the given wait adds to the sums. */
  function Sample(svc: real, wait: real): (r: WorkerStats)
    ensures r.done == 1
  {
    WorkerStats(1, svc, svc * svc, wait)
  }

  function StatsOf(e: Served): (r: WorkerStats)
    ensures r.done == 1
  {
    Sample(Seconds(e.doneNs - e.deqNs), Seconds(e.deqNs - e.job.tEnqNs))
  }

  function Sum(stats: seq<WorkerStats>): WorkerStats {
    if stats == [] then NO_STATS else Sum(stats[..|stats| - 1]).Plus(stats[|stats| - 1])
  }

  function LogStats(log: seq<Served>): WorkerStats {
    if log == [] then NO_STATS else LogStats(log[..|log| - 1]).Plus(StatsOf(log[|log| - 1]))
  }

  lemma {:induction false} SumUpdate(stats: seq<WorkerStats>, i: nat, d: WorkerStats)
    requires i < |stats|
    ensures Sum(stats[i := stats[i].Plus(d)]) == Sum(stats).Plus(d)
  {
    var n := |stats| - 1;
    if i == n {
      assert stats[i := stats[i].Plus(d)][..n] == stats[..n];
    } else {
      SumUpdate(stats[..n], i, d);
      assert stats[i := stats[i].Plus(d)][..n] == stats[..n][i := stats[i].Plus(d)];
    }
  }

  /** Every worker's count and times of service are at least what they were. */
  predicate NoLess(before: seq<WorkerStats>, after: seq<WorkerStats>) {
    |before| == |after| && forall i :: 0 <= i < |before| ==>
      before[i].done <= after[i].done && before[i].svc <= after[i].svc && before[i].svcSq <= after[i].svcSq
  }

  lemma NoLessAdding(stats: seq<WorkerStats>, i: nat, e: Served)
    requires i < |stats| && e.deqNs <= e.doneNs
    ensures NoLess(stats, stats[i := stats[i].Plus(StatsOf(e))])
  {
    var svc := Seconds(e.doneNs - e.deqNs);
    MulMono2(0.0, 0.0, svc, svc);
  }

  lemma {:induction false} SumGrows(a: seq<WorkerStats>, b: seq<WorkerStats>)
    requires NoLess(a, b)
    ensures Sum(a).done <= Sum(b).done && Sum(a).svc <= Sum(b).svc && Sum(a).svcSq <= Sum(b).svcSq
  {
    if a != [] { SumGrows(a[..|a| - 1], b[..|b| - 1]); }
  }

  /** The stores of each worker as read at its own instant. */
  function Reads(hist: seq<seq<WorkerStats>>, at: seq<nat>): (r: seq<WorkerStats>)
    requires forall k :: 0 <= k < |hist| ==> |hist[k]| == |at|
    requires forall i :: 0 <= i < |at| ==> at[i] < |hist|
  {
    seq(|at|, i requires 0 <= i < |at| => hist[at[i]][i])
  }

  lemma {:induction false} NoLessLater(hist: seq<seq<WorkerStats>>, j: nat, k: nat)
    requires forall i: nat :: i + 1 < |hist| ==> NoLess(hist[i], hist[i + 1])
    requires j <= k < |hist|
    ensures NoLess(hist[j], hist[k])
    decreases k
  {
    if j < k {
      NoLessLater(hist, j, k - 1);
      assert NoLess(hist[k - 1], hist[k - 1 + 1]);
    }
  }

  /**
   * A snapshot reads one worker after the other while they go on working: whatever the instants are, what it adds up
   * lies between the sums of the first instant and those of the last.
   */
  lemma TornReads(hist: seq<seq<WorkerStats>>, at: seq<nat>)
    requires hist != [] && forall k :: 0 <= k < |hist| ==> |hist[k]| == |at|
    requires forall i :: 0 <= i < |at| ==> at[i] < |hist|
    requires forall i: nat :: i + 1 < |hist| ==> NoLess(hist[i], hist[i + 1])
    ensures var first, read, last := Sum(hist[0]), Sum(Reads(hist, at)), Sum(hist[|hist| - 1]);
      && first.done <= read.done <= last.done && first.svc <= read.svc <= last.svc
      && first.svcSq <= read.svcSq <= last.svcSq
  {
    var read := Reads(hist, at);
    forall i | 0 <= i < |at| ensures NoLess(hist[0], hist[at[i]]) && NoLess(hist[at[i]], hist[|hist| - 1]) {
      NoLessLater(hist, 0, at[i]);
      NoLessLater(hist, at[i], |hist| - 1);
    }
    assert NoLess(hist[0], read) && NoLess(read, hist[|hist| - 1]);
    SumGrows(hist[0], read);
    SumGrows(read, hist[|hist| - 1]);
  }

  lemma LogStatsAppend(log: seq<Served>, e: Served)
    ensures LogStats(log + [e]) == LogStats(log).Plus(StatsOf(e))
  {
    assert (log + [e])[..|log|] == log;
  }

  function NoneYet(n: nat): (r: seq<WorkerStats>)
    ensures |r| == n
  {
    seq(n, i => NO_STATS)
  }

  lemma {:induction false} SumOfNone(n: nat)
    ensures Sum(NoneYet(n)) == NO_STATS
  {
    if n > 0 {
      SumOfNone(n - 1);
      assert NoneYet(n)[..n - 1] == NoneYet(n - 1);
    }
  }

  class ClassPool {
    const deadlineNs: int
    const q: ChunkQueue<Job>
    var stop: bool
    var offered: nat
    var shed: nat
    var dequeued: nat
    var active: int
    var cap: nat
    var qlen: nat
    var expired: nat
    var stats: seq<WorkerStats>

    // thread positions, undelivered notifications and history, as in PoolProtocol.Pool
    ghost var workers: seq<Worker>
    ghost var oneTokens: nat
    ghost var parkAlls: nat
    ghost var workAlls: nat
    ghost var phase: Shutdown
    ghost var clock: int
    ghost var accepted: seq<Job>
    ghost var served: seq<Served>
    ghost var late: seq<(Job, int)>
    ghost var capSeen: nat

    /** The fields and the protocol's history agree. */
    ghost predicate Sound()
      reads this, q, q.Repr
    {
      && q.Valid() && this !in q.Repr
      && qlen == |q.Contents|
      && (stop <==> phase != Running)
      && |stats| == |workers| >= 1 && Sum(stats) == LogStats(served)
      && Sum(stats).done == |served|
    }

    ghost function State(): Pool
      reads this, q
    {
      Pool(workers, q.Contents, active, cap, deadlineNs, offered, shed, dequeued, expired, |served|,
           oneTokens, parkAlls, workAlls, phase, clock, accepted, served, late, capSeen)
    }

    /** And the object is where some run of the protocol leads, so that all of the protocol's theorems hold of it. */
    ghost predicate Valid()
      reads this, q, q.Repr
    {
      Sound() && Reachable(State())
    }

    constructor (threads: int, initialActive: int, initialCap: nat, deadline: int, ghost now: int)
      ensures Valid() && fresh(q.Repr)
      ensures State() == Init(threads, initialActive, initialCap, deadline, now)
      ensures |workers| == if threads < 1 then 1 else threads
      ensures forall i :: 0 <= i < |workers| ==> workers[i] == Ready
      ensures active == if initialActive < 1 then 1 else if initialActive > |workers| then |workers| else initialActive
      ensures cap == initialCap && deadlineNs == deadline && q.Contents == [] && phase == Running
    {
      hide NoneYet, AllReady, Reachable;
      var n := if threads < 1 then 1 else threads;
      deadlineNs := deadline;
      q := new ChunkQueue<Job>(1024);
      stop := false;
      offered, shed, dequeued, expired, qlen := 0, 0, 0, 0, 0;
      active := Clamp(initialActive, 1, n);
      cap := initialCap;
      stats := NoneYet(n);
      workers := AllReady(n);
      oneTokens, parkAlls, workAlls, phase, clock := 0, 0, 0, Running, now;
      accepted, served, late, capSeen := [], [], [], 0;
      SumOfNone(n);
      new;
      InitReaches(threads, initialActive, initialCap, deadline, now);
    }

    /** What the kernel does with notifications, and on its own, to threads that wait. */
    ghost method Deliver(step: Step)
      requires Valid() && Enabled(State(), step)
      requires step.NotifyOne? || step.NotifyParked? || step.NotifyWorking? || step.WakeSpuriously?
               || step.StopNotifyWork? || step.StopNotifyPark?
      modifies this`workers, this`oneTokens, this`parkAlls, this`workAlls, this`phase
      ensures Valid() && State() == Next(old(State()), step)
    {
      hide q.Valid, Sum, LogStats, Reachable;
      ghost var t := Next(State(), step);
      workers, oneTokens, parkAlls, workAlls, phase := t.workers, t.oneTokens, t.parkAlls, t.workAlls, t.phase;
      StepReaches(old(State()), step, State());
    }

    /** The queue is full, or the job is stamped, queued and one waiting thread is about to be notified. */
    method TryEnqueue(job: Job, now: int) returns (ok: bool)
      requires Valid() && now >= clock
      modifies this, q.Repr
      ensures Valid() && fresh(q.Repr - old(q.Repr))
      ensures State() == AfterEnqueue(old(State()), job, now)
      ensures ok <==> |old(q.Contents)| < old(cap)
      ensures q.Contents == old(q.Contents) + if ok then [job.(tEnqNs := now)] else []
      ensures offered == old(offered) + 1 && shed == old(shed) + if ok then 0 else 1
      ensures oneTokens == old(oneTokens) + if ok then 1 else 0
      ensures stats == old(stats)
    {
      hide q.Valid, Sum, LogStats, Reachable;
      offered := offered + 1;
      clock := now;
      ok := q.size < cap;
      if ok {
        Accept(job.(tEnqNs := now));
      } else {
        shed := shed + 1;
      }
      StepReaches(old(State()), Enqueue(job, now), State());
    }

    method Accept(job: Job)
      requires Sound()
      modifies this`qlen, this`oneTokens, this`accepted, this`capSeen, q.Repr
      ensures Sound() && fresh(q.Repr - old(q.Repr))
      ensures State() == old(State()).(q := old(q.Contents) + [job], oneTokens := old(oneTokens) + 1,
                                       accepted := old(accepted) + [job],
                                       capSeen := if old(cap) > old(capSeen) then old(cap) else old(capSeen))
    {
      hide q.Valid, Sum, LogStats;
      q.Push(job);
      qlen := q.size;
      oneTokens := oneTokens + 1;
      accepted := accepted + [job];
      capSeen := if cap > capSeen then cap else capSeen;
    }

    method SetActiveThreads(n: int)
      requires Valid()
      modifies this
      ensures Valid() && State() == Next(old(State()), SetActive(n))
      ensures active == if n < 1 then 1 else if n > |workers| then |workers| else n
      ensures parkAlls == old(parkAlls) + if active == old(active) then 0 else 1
      ensures stats == old(stats)
    {
      hide q.Valid, Sum, LogStats, Reachable;
      var k := Clamp(n, 1, |stats|);
      if active == k { return; }
      active := k;
      parkAlls := parkAlls + 1;
      StepReaches(old(State()), SetActive(n), State());
    }

    method SetCapacity(k: nat)
      requires Valid()
      modifies this`cap
      ensures Valid() && State() == Next(old(State()), SetCap(k))
      ensures cap == if k < 1 then 1 else k
    {
      hide q.Valid, Sum, LogStats, Reachable;
      cap := if k < 1 then 1 else k;
      StepReaches(old(State()), SetCap(k), State());
    }

    /** One pass of workerLoop under the mutex: exit, park, wait for work, or take the oldest job. */
    method LockPass(i: nat) returns (taken: bool, job: Job)
      requires Valid() && i < |workers| && workers[i] == Ready
      modifies this, q.Repr
      ensures Valid() && q.Repr == old(q.Repr)
      ensures State() == AfterLock(old(State()), i)
      ensures taken <==> !stop && i < active && old(q.Contents) != []
      ensures taken ==> job == old(q.Contents)[0] && q.Contents == old(q.Contents)[1..] && dequeued == old(dequeued) + 1
      ensures !taken ==> q.Contents == old(q.Contents) && dequeued == old(dequeued)
      ensures workers == old(workers)[i :=
        if stop then Exited else if i >= active then ParkWait else if taken then Taken(job) else WorkWait]
      ensures stats == old(stats)
    {
      hide Sound, Reachable;
      taken, job := Pass(i);
      StepReaches(old(State()), Lock(i), State());
    }

    method Pass(i: nat) returns (taken: bool, job: Job)
      requires Sound() && i < |workers| && workers[i] == Ready
      modifies this, q.Repr
      ensures Sound() && q.Repr == old(q.Repr)
      ensures State() == AfterLock(old(State()), i)
      ensures taken <==> !stop && i < active && old(q.Contents) != []
      ensures taken ==> job == old(q.Contents)[0] && q.Contents == old(q.Contents)[1..] && dequeued == old(dequeued) + 1
      ensures !taken ==> q.Contents == old(q.Contents) && dequeued == old(dequeued)
      ensures workers == old(workers)[i :=
        if stop then Exited else if i >= active then ParkWait else if taken then Taken(job) else WorkWait]
      ensures stats == old(stats)
    {
      hide q.Valid, Sum, LogStats;
      taken, job := false, Job(-1, -1, 0.0, 0.0, 0, 0, 0);
      if stop {
        workers := workers[i := Exited];
        return;
      }
      if i >= active {
        workers := workers[i := ParkWait];
        return;
      }
      if q.size == 0 {
        workers := workers[i := WorkWait];
        return;
      }
      taken, job := q.Pop(job);
      dequeued := dequeued + 1;
      qlen := q.size;
      workers := workers[i := Taken(job)];
    }

    /** The deadline test of a job just taken, at clock reading deqNs. */
    method TestDeadline(i: nat, job: Job, deqNs: int) returns (isLate: bool)
      requires Valid() && i < |workers| && workers[i] == Taken(job) && deqNs >= clock
      modifies this
      ensures Valid() && State() == AfterStamp(old(State()), i, deqNs)
      ensures isLate <==> deadlineNs > 0 && deqNs - job.tEnqNs > deadlineNs
      ensures workers == old(workers)[i := if isLate then Late(job) else Serving(job, deqNs)]
      ensures expired == old(expired) + if isLate then 1 else 0
      ensures stats == old(stats)
    {
      hide q.Valid, Sum, LogStats, Reachable;
      isLate := deadlineNs > 0 && deqNs - job.tEnqNs > deadlineNs;
      if isLate {
        expired := expired + 1;
        late := late + [(job, deqNs)];
        workers := workers[i := Late(job)];
      } else {
        workers := workers[i := Serving(job, deqNs)];
      }
      clock := deqNs;
      StepReaches(old(State()), Stamp(i, deqNs), State());
    }

    /** The end of process(), at clock reading doneNs: the worker adds the job to its own sums. */
    method RecordService(i: nat, job: Job, deqNs: int, doneNs: int)
      requires Valid() && i < |workers| && workers[i] == Serving(job, deqNs) && doneNs >= clock
      modifies this
      ensures Valid() && State() == AfterFinish(old(State()), i, doneNs)
      ensures NoLess(old(stats), stats)
      ensures var w, svc := old(stats[i]), (doneNs - deqNs) as real / 1000000000.0;
        stats == old(stats)[i := WorkerStats(w.done + 1, w.svc + svc, w.svcSq + svc * svc,
                                             w.wait + (deqNs - job.tEnqNs) as real / 1000000000.0)]
    {
      hide Sound, Reachable, NoLess;
      ServingSince(i);
      Record(i, job, deqNs, doneNs);
      StepReaches(old(State()), Finish(i, doneNs), State());
    }

    method Record(i: nat, job: Job, deqNs: int, doneNs: int)
      requires Sound() && i < |workers| && workers[i] == Serving(job, deqNs) && deqNs <= doneNs
      modifies this`stats, this`served, this`workers, this`clock
      ensures Sound() && State() == AfterFinish(old(State()), i, doneNs)
      ensures NoLess(old(stats), stats)
      ensures stats == old(stats)[i :=
        old(stats[i]).Plus(Sample(Seconds(doneNs - deqNs), Seconds(deqNs - job.tEnqNs)))]
    {
      hide q.Valid, Sum, LogStats, Sample, StatsOf, Seconds, NoLess;
      ghost var e := Served(job, deqNs, doneNs);
      AddSample(i, e, Seconds(doneNs - deqNs), Seconds(deqNs - job.tEnqNs));
      served := served + [e];
      workers := workers[i := Ready];
      clock := doneNs;
    }

    /** The end of expire(): the job was counted when it was found late. */
    method EndExpiry(i: nat, job: Job, now: int)
      requires Valid() && i < |workers| && workers[i] == Late(job) && now >= clock
      modifies this`workers, this`clock
      ensures Valid() && State() == AfterFinish(old(State()), i, now)
    {
      hide q.Valid, Sum, LogStats, Reachable;
      workers := workers[i := Ready];
      clock := now;
      StepReaches(old(State()), Finish(i, now), State());
    }

    method AddSample(i: nat, ghost e: Served, svc: real, wait: real)
      requires i < |stats| && Sum(stats) == LogStats(served)
      requires e.deqNs <= e.doneNs && svc == Seconds(e.doneNs - e.deqNs) && wait == Seconds(e.deqNs - e.job.tEnqNs)
      modifies this`stats
      ensures |stats| == old(|stats|) && Sum(stats) == LogStats(served + [e]) == LogStats(served).Plus(StatsOf(e))
      ensures Sum(stats).done == LogStats(served).done + 1
      ensures NoLess(old(stats), stats) && stats == old(stats)[i := old(stats[i]).Plus(Sample(svc, wait))]
    {
      hide Sum, LogStats, Seconds, Sample;
      SumUpdate(stats, i, StatsOf(e));
      LogStatsAppend(served, e);
      NoLessAdding(stats, i, e);
      stats := stats[i := stats[i].Plus(Sample(svc, wait))];
    }

    lemma ServingSince(i: nat)
      requires Valid() && i < |workers| && workers[i].Serving?
      ensures workers[i].deqNs <= clock
    {
      hide Sound, Reachable;
      DeadlineDecides(State());
    }

    /** What a snapshot reads under the mutex. */
    method SnapshotLocked() returns (s: PoolSnapshot)
      requires Valid()
      ensures s == PoolSnapshot(offered, shed, dequeued, 0, 0, 0.0, 0.0, 0.0, |q.Contents|, q.chunks, 0, 0)
    {
      s := PoolSnapshot(offered, shed, dequeued, 0, 0, 0.0, 0.0, 0.0, q.size, q.chunks, 0, 0);
    }

    /** What it reads after releasing the mutex, when the pool may have moved on. */
    method SnapshotRest(locked: PoolSnapshot) returns (s: PoolSnapshot)
      requires Valid()
      ensures s == locked.(expired := s.expired, done := s.done, svcSum := s.svcSum, svcSqSum := s.svcSqSum,
                           waitSum := s.waitSum, active := active, cap := cap)
      ensures s.expired == expired && s.done == |served|
      ensures WorkerStats(s.done, s.svcSum, s.svcSqSum, s.waitSum) == LogStats(served)
    {
      hide q.Valid, Reachable, LogStats;
      s := locked.(expired := expired, done := 0, svcSum := 0.0, svcSqSum := 0.0, waitSum := 0.0);
      for i := 0 to |stats|
        invariant s == locked.(expired := expired, done := s.done, svcSum := s.svcSum, svcSqSum := s.svcSqSum,
                               waitSum := s.waitSum)
        invariant WorkerStats(s.done, s.svcSum, s.svcSqSum, s.waitSum) == Sum(stats[..i])
      {
        assert stats[..i + 1][..i] == stats[..i];
        s := ReadWorker(i, s);
      }
      assert stats[..|stats|] == stats;
      s := s.(active := active, cap := cap);
    }

    /** One worker's stores, at the instant of their reading. */
    method ReadWorker(i: nat, s: PoolSnapshot) returns (s': PoolSnapshot)
      requires i < |stats|
      ensures s' == s.(done := s'.done, svcSum := s'.svcSum, svcSqSum := s'.svcSqSum, waitSum := s'.waitSum)
      ensures WorkerStats(s'.done, s'.svcSum, s'.svcSqSum, s'.waitSum)
           == WorkerStats(s.done, s.svcSum, s.svcSqSum, s.waitSum).Plus(stats[i])
    {
      s' := s.(done := s.done + stats[i].done, svcSum := s.svcSum + stats[i].svc,
               svcSqSum := s.svcSqSum + stats[i].svcSq, waitSum := s.waitSum + stats[i].wait);
    }

    /** Both parts with nothing in between. For reads at different instants see TornReads and SnapshotSpans. */
    method Snapshot() returns (s: PoolSnapshot)
      requires Valid()
      ensures s.offered == offered && s.shed == shed && s.dequeued == dequeued && s.expired == expired
      ensures s.qlen == |q.Contents| && s.chunks == q.chunks && s.active == active && s.cap == cap
      ensures WorkerStats(s.done, s.svcSum, s.svcSqSum, s.waitSum) == LogStats(served)
      ensures s.done == |served| && s.offered == s.shed + s.dequeued + s.qlen
      ensures s.done + s.expired <= s.dequeued <= s.done + s.expired + |workers|
    {
      hide Valid;
      Accounts();
      s := SnapshotLocked();
      s := SnapshotRest(s);
    }

    /** The protocol's accounting, of the object's own fields. */
    lemma Accounts()
      requires Valid()
      ensures offered == shed + dequeued + |q.Contents| && |q.Contents| <= capSeen
      ensures dequeued == |served| + expired + InFlight(workers) && InFlight(workers) <= |workers|
      ensures forall j, k :: 0 <= j < k < |q.Contents| ==> q.Contents[j].tEnqNs <= q.Contents[k].tEnqNs
      ensures forall j :: Times(accepted, j) == ServedTimes(served, j) + LateTimes(late, j) + HeldTimes(workers, j)
                                                + Times(q.Contents, j)
    {
      hide Sound, Reachable, Deadlines, InFlight, Times, ServedTimes, LateTimes, HeldTimes;
      PoolAccounting(State());
      forall j ensures Times(accepted, j) == ServedTimes(served, j) + LateTimes(late, j) + HeldTimes(workers, j)
                                             + Times(q.Contents, j) {
        EveryJobOnce(State(), j);
      }
    }

    /** Work conservation, of the object's own fields: no queued job is forgotten while its thread sleeps. */
    lemma Conserves()
      requires Valid() && !stop && oneTokens == 0 && parkAlls == 0 && workAlls == 0
      ensures 1 <= active <= |workers|
      ensures AwakeBelow(workers, active) >= if active < |q.Contents| then active else |q.Contents|
      ensures (exists i :: 0 <= i < |workers| && workers[i] == WorkWait) ==>
        |q.Contents| <= ReadyBelow(workers, active)
    {
      hide Reachable, AwakeBelow, ReadyBelow, Sum, LogStats, q.Valid;
      WorkConservation(State());
    }

    /** Once the destructor has notified, as many worker steps as Work counts end every thread. */
    lemma JoinsEnd(steps: seq<Step>, t: Pool)
      requires Valid() && phase == AllNotified && Runs(State(), steps, t)
      ensures WorkerSteps(steps) <= Work(workers)
      ensures WorkerSteps(steps) == Work(workers) ==> forall i :: 0 <= i < |t.workers| ==> t.workers[i] == Exited
      ensures forall i :: 0 <= i < |t.workers| && t.workers[i] != Exited ==> Enabled(t, WorkerStep(t, i))
    {
      hide Sound, Reachable, Runs, Work, WorkerSteps, Enabled, PoolProtocol.Inv;
      ReachableInv(State());
      ShutdownFinishes(State(), steps, t);
    }

    /** The first part of the destructor: the notifications that follow are steps of the protocol. */
    method RequestStop()
      requires Valid() && phase == Running
      modifies this`stop, this`phase
      ensures Valid() && State() == Next(old(State()), Stop)
    {
      hide q.Valid, Sum, LogStats, Reachable;
      stop := true;
      phase := StopSet;
      StepReaches(old(State()), Stop, State());
    }

    /** The last part of the destructor: every job still queued gives its descriptor back, once and in order. */
    method Drain() returns (closed: seq<int>)
      requires Valid()
      modifies this, q.Repr
      ensures q.Valid() && q.Contents == []
      ensures closed == OwnedFds(old(q.Contents))
      ensures forall fd :: fd in closed <==> fd >= 0 && exists j :: j in old(q.Contents) && j.fd == fd
      ensures (forall j :: j in old(q.Contents) ==> j.fd >= 0) ==>
        |closed| == |old(q.Contents)| && forall k :: 0 <= k < |closed| ==> closed[k] == old(q.Contents)[k].fd
    {
      hide q.Valid, Sum, LogStats, OwnedFds;
      OwnedFdsAre(q.Contents);
      NothingOwned();
      closed := [];
      ghost var popped: seq<Job> := [];
      var more, j := q.Pop(Job(-1, -1, 0.0, 0.0, 0, 0, 0));
      while more
        invariant q.Valid() && q.Repr == old(q.Repr) && this !in q.Repr
        invariant old(q.Contents) == popped + (if more then [j] else []) + q.Contents
        invariant !more ==> q.Contents == []
        invariant closed == OwnedFds(popped)
        invariant !more ==> popped == old(q.Contents)
        decreases more, |q.Contents|
      {
        OwnedFdsAppend(popped, j);
        popped := popped + [j];
        if j.fd >= 0 { closed := closed + [j.fd]; }
        more, j := q.Pop(j);
      }
    }
  }

  /** The descriptors that jobs own, in queue order. */
  function OwnedFds(jobs: seq<Job>): seq<int> {
    if jobs == [] then []
    else OwnedFds(jobs[..|jobs| - 1]) + (if jobs[|jobs| - 1].fd >= 0 then [jobs[|jobs| - 1].fd] else [])
  }

  /** Exactly the valid descriptors, each at its job's place when every job owns one. */
  lemma {:induction false} OwnedFdsAre(jobs: seq<Job>)
    ensures forall fd :: fd in OwnedFds(jobs) <==> fd >= 0 && exists j :: j in jobs && j.fd == fd
    ensures (forall j :: j in jobs ==> j.fd >= 0) ==>
      |OwnedFds(jobs)| == |jobs| && forall k :: 0 <= k < |jobs| ==> OwnedFds(jobs)[k] == jobs[k].fd
  {
    if jobs != [] {
      var init, last := jobs[..|jobs| - 1], jobs[|jobs| - 1];
      OwnedFdsAre(init);
      assert jobs == init + [last];
      assert forall j :: j in jobs <==> j in init || j == last;
    }
  }

  lemma NothingOwned()
    ensures OwnedFds([]) == []
  {}

  lemma OwnedFdsAppend(jobs: seq<Job>, j: Job)
    ensures OwnedFds(jobs + [j]) == OwnedFds(jobs) + (if j.fd >= 0 then [j.fd] else [])
  {
    assert (jobs + [j])[..|jobs|] == jobs;
  }
}
