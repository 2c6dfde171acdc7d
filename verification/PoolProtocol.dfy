/**
 * The concurrent protocol of ClassPool (server/ClassPool.cpp) as a state machine.
 *
 * A step is one critical section of the pool's mutex, one atomic action outside it, or one delivery of a
 * notification. Notifications are sent after the mutex is released, so they are state: a sent but undelivered
 * notify_one is a token, and a setActive call owes a parkCv_.notify_all and then a workCv_.notify_all.
 */
module PoolProtocol {

  /** A queued query; fd is the dup'ed descriptor that the job owns. */
  datatype Job = Job(fd: int, zoneId: int, lat: real, lon: real, workUs: nat, reqId: nat, tEnqNs: int)

  /**
   * Where a worker thread is. Ready: about to take the mutex at the loop head; a thread woken by a condition
   * variable is Ready too, since re-testing its wait predicate leads to the same wait or the same loop pass.
   */
  datatype Worker =
    | Ready
    | WorkWait
    | ParkWait
    | Taken(job: Job)
    | Serving(job: Job, deqNs: int)
    | Late(job: Job)
    | Exited

  /** A job served to the end, with its dequeue and completion times. */
  datatype Served = Served(job: Job, deqNs: int, doneNs: int)

  /** How far the destructor has come. */
  datatype Shutdown = Running | StopSet | WorkersNotified | AllNotified

  datatype Pool = Pool(
    // the fields of the source
    workers: seq<Worker>, q: seq<Job>, active: int, cap: nat, deadlineNs: int,
    offered: nat, shed: nat, dequeued: nat, expired: nat, done: nat,
    // undelivered notifications, and the clock
    oneTokens: nat, parkAlls: nat, workAlls: nat, phase: Shutdown, clock: int,
    // history: accepted jobs in order, jobs served, jobs found late with the time they were taken, largest cap used
    accepted: seq<Job>, served: seq<Served>, late: seq<(Job, int)>, capSeen: nat)

  datatype Step =
    | Enqueue(job: Job, now: int)
    | NotifyOne(woken: int)       // the thread the kernel picks, or -1 when nobody waits on workCv_
    | SetActive(n: int)
    | NotifyParked
    | NotifyWorking
    | SetCap(k: nat)
    | WakeSpuriously(i: nat)
    | Lock(i: nat)                // one pass of the worker loop under the mutex
    | Stamp(i: nat, now: int)     // the deadline test after the mutex is released
    | Finish(i: nat, now: int)    // end of process() or expire()
    | Stop
    | StopNotifyWork
    | StopNotifyPark

  function Clamp(n: int, lo: int, hi: int): int {
    if n < lo then lo else if n > hi then hi else n
  }

  // ---------------------------------------------------------------- initial state and steps

  function AllReady(n: nat): (r: seq<Worker>)
    ensures |r| == n && forall i :: 0 <= i < n ==> r[i] == Ready
  {
    seq(n, i => Ready)
  }

  function Init(threads: int, initialActive: int, cap: nat, deadlineNs: int, clock: int): Pool {
    var n := if threads < 1 then 1 else threads;
    Pool(AllReady(n), [], Clamp(initialActive, 1, n), cap, deadlineNs, 0, 0, 0, 0, 0,
         0, 0, 0, Running, clock, [], [], [], 0)
  }

  /** notify_all: everyone in the given wait becomes Ready. */
  function WakeAll(ws: seq<Worker>, from: Worker): (r: seq<Worker>)
    ensures |r| == |ws|
    ensures forall i :: 0 <= i < |ws| ==> r[i] == if ws[i] == from then Ready else ws[i]
  {
    seq(|ws|, i requires 0 <= i < |ws| => if ws[i] == from then Ready else ws[i])
  }

  predicate Enabled(s: Pool, step: Step) {
    match step
    case Enqueue(job, now) => now >= s.clock
    case NotifyOne(w) =>
      && s.oneTokens > 0
      && (if w == -1 then forall i :: 0 <= i < |s.workers| ==> s.workers[i] != WorkWait
          else 0 <= w < |s.workers| && s.workers[w] == WorkWait)
    case SetActive(n) => true
    case NotifyParked => s.parkAlls > 0
    case NotifyWorking => s.workAlls > 0
    case SetCap(k) => true
    case WakeSpuriously(i) => i < |s.workers| && (s.workers[i] == WorkWait || s.workers[i] == ParkWait)
    case Lock(i) => i < |s.workers| && s.workers[i] == Ready
    case Stamp(i, now) => i < |s.workers| && s.workers[i].Taken? && now >= s.clock
    case Finish(i, now) => i < |s.workers| && (s.workers[i].Serving? || s.workers[i].Late?) && now >= s.clock
    case Stop => s.phase == Running
    case StopNotifyWork => s.phase == StopSet
    case StopNotifyPark => s.phase == WorkersNotified
  }

  function Next(s: Pool, step: Step): Pool
    requires Enabled(s, step)
  {
    match step
    case Enqueue(job, now) => AfterEnqueue(s, job, now)
    case NotifyOne(w) =>
      s.(oneTokens := s.oneTokens - 1, workers := if w == -1 then s.workers else s.workers[w := Ready])
    case SetActive(n) =>
      var k := Clamp(n, 1, |s.workers|);
      if k == s.active then s else s.(active := k, parkAlls := s.parkAlls + 1)
    case NotifyParked =>
      s.(workers := WakeAll(s.workers, ParkWait), parkAlls := s.parkAlls - 1, workAlls := s.workAlls + 1)
    case NotifyWorking =>
      s.(workers := WakeAll(s.workers, WorkWait), workAlls := s.workAlls - 1)
    case SetCap(k) => s.(cap := if k < 1 then 1 else k)
    case WakeSpuriously(i) => s.(workers := s.workers[i := Ready])
    case Lock(i) => AfterLock(s, i)
    case Stamp(i, now) => AfterStamp(s, i, now)
    case Finish(i, now) => AfterFinish(s, i, now)
    case Stop => s.(phase := StopSet)
    case StopNotifyWork => s.(phase := WorkersNotified, workers := WakeAll(s.workers, WorkWait))
    case StopNotifyPark => s.(phase := AllNotified, workers := WakeAll(s.workers, ParkWait))
  }

  function AfterEnqueue(s: Pool, job: Job, now: int): Pool {
    if |s.q| >= s.cap then s.(offered := s.offered + 1, shed := s.shed + 1, clock := now)
    else
      var j := job.(tEnqNs := now);
      s.(offered := s.offered + 1, q := s.q + [j], oneTokens := s.oneTokens + 1, clock := now,
         accepted := s.accepted + [j], capSeen := if s.cap > s.capSeen then s.cap else s.capSeen)
  }

  function AfterLock(s: Pool, i: nat): Pool
    requires i < |s.workers|
  {
    if s.phase != Running then s.(workers := s.workers[i := Exited])
    else if i >= s.active then s.(workers := s.workers[i := ParkWait])
    else if s.q == [] then s.(workers := s.workers[i := WorkWait])
    else s.(workers := s.workers[i := Taken(s.q[0])], q := s.q[1..], dequeued := s.dequeued + 1)
  }

  /** The job waited longer than a positive deadline. */
  predicate Overdue(deadlineNs: int, job: Job, now: int) {
    deadlineNs > 0 && now - job.tEnqNs > deadlineNs
  }

  function AfterStamp(s: Pool, i: nat, now: int): Pool
    requires i < |s.workers| && s.workers[i].Taken?
  {
    var job := s.workers[i].job;
    if Overdue(s.deadlineNs, job, now) then
      s.(workers := s.workers[i := Late(job)], expired := s.expired + 1, late := s.late + [(job, now)], clock := now)
    else
      s.(workers := s.workers[i := Serving(job, now)], clock := now)
  }

  function AfterFinish(s: Pool, i: nat, now: int): Pool
    requires i < |s.workers| && (s.workers[i].Serving? || s.workers[i].Late?)
  {
    var w := s.workers[i];
    if w.Late? then s.(workers := s.workers[i := Ready], clock := now)
    else s.(workers := s.workers[i := Ready], done := s.done + 1, clock := now,
            served := s.served + [Served(w.job, w.deqNs, now)])
  }

  // ---------------------------------------------------------------- counting workers

  /** Ready workers with index below n: each will look at the queue before it waits. */
  function ReadyBelow(ws: seq<Worker>, n: nat): nat
    requires n <= |ws|
  {
    if n == 0 then 0 else ReadyBelow(ws, n - 1) + (if ws[n - 1] == Ready then 1 else 0)
  }

  lemma {:induction false} ReadyBelowUpdate(ws: seq<Worker>, n: nat, i: nat, w: Worker)
    requires n <= |ws| && i < |ws|
    ensures ReadyBelow(ws[i := w], n)
         == ReadyBelow(ws, n) + (if i < n && w == Ready then 1 else 0) - (if i < n && ws[i] == Ready then 1 else 0)
  {
    if n > 0 { ReadyBelowUpdate(ws, n - 1, i, w); }
  }

  /** Workers below n that neither wait nor have exited. */
  function AwakeBelow(ws: seq<Worker>, n: nat): nat
    requires n <= |ws|
  {
    if n == 0 then 0
    else
      AwakeBelow(ws, n - 1)
      + (if ws[n - 1] == WorkWait || ws[n - 1] == ParkWait || ws[n - 1] == Exited then 0 else 1)
  }

  lemma {:induction false} ReadyAreAwake(ws: seq<Worker>, n: nat)
    requires n <= |ws|
    ensures ReadyBelow(ws, n) <= AwakeBelow(ws, n) <= n
    ensures (forall i :: 0 <= i < n ==> ws[i] != WorkWait && ws[i] != ParkWait && ws[i] != Exited) ==>
      AwakeBelow(ws, n) == n
  {
    if n > 0 { ReadyAreAwake(ws, n - 1); }
  }

  /** A worker holds a job from taking it off the queue until it is served or counted late. */
  predicate Holds(w: Worker, j: Job) {
    (w.Taken? || w.Serving?) && w.job == j
  }

  /** How many workers hold job j. */
  function HeldTimes(ws: seq<Worker>, j: Job): nat {
    if ws == [] then 0 else HeldTimes(ws[..|ws| - 1], j) + (if Holds(ws[|ws| - 1], j) then 1 else 0)
  }

  /** How many workers hold a job. */
  function InFlight(ws: seq<Worker>): (n: nat)
    ensures n <= |ws|
  {
    if ws == [] then 0 else InFlight(ws[..|ws| - 1]) + (if ws[|ws| - 1].Taken? || ws[|ws| - 1].Serving? then 1 else 0)
  }

  lemma {:induction false} HeldUpdate(ws: seq<Worker>, i: nat, w: Worker, j: Job)
    requires i < |ws|
    ensures HeldTimes(ws[i := w], j) ==
      HeldTimes(ws, j) + (if Holds(w, j) then 1 else 0) - (if Holds(ws[i], j) then 1 else 0)
  {
    var n := |ws| - 1;
    if i == n {
      assert ws[i := w][..n] == ws[..n];
    } else {
      HeldUpdate(ws[..n], i, w, j);
      assert ws[i := w][..n] == ws[..n][i := w];
    }
  }

  lemma {:induction false} InFlightUpdate(ws: seq<Worker>, i: nat, w: Worker)
    requires i < |ws|
    ensures InFlight(ws[i := w]) == InFlight(ws) + (if w.Taken? || w.Serving? then 1 else 0)
                                    - (if ws[i].Taken? || ws[i].Serving? then 1 else 0)
  {
    var n := |ws| - 1;
    if i == n {
      assert ws[i := w][..n] == ws[..n];
    } else {
      InFlightUpdate(ws[..n], i, w);
      assert ws[i := w][..n] == ws[..n][i := w];
    }
  }

  lemma {:induction false} HeldWakeAll(ws: seq<Worker>, from: Worker, j: Job)
    requires from == WorkWait || from == ParkWait
    ensures HeldTimes(WakeAll(ws, from), j) == HeldTimes(ws, j) && InFlight(WakeAll(ws, from)) == InFlight(ws)
  {
    if ws != [] {
      var n := |ws| - 1;
      HeldWakeAll(ws[..n], from, j);
      assert WakeAll(ws, from)[..n] == WakeAll(ws[..n], from);
    }
  }

  lemma {:induction false} HeldReady(ws: seq<Worker>, j: Job)
    requires forall i :: 0 <= i < |ws| ==> ws[i] == Ready
    ensures HeldTimes(ws, j) == 0 && InFlight(ws) == 0
  {
    if ws != [] { HeldReady(ws[..|ws| - 1], j); }
  }

  // ---------------------------------------------------------------- invariants

  function Times(js: seq<Job>, j: Job): nat {
    if js == [] then 0 else Times(js[..|js| - 1], j) + (if js[|js| - 1] == j then 1 else 0)
  }

  lemma {:induction false} TimesConcat(xs: seq<Job>, ys: seq<Job>, j: Job)
    ensures Times(xs + ys, j) == Times(xs, j) + Times(ys, j)
  {
    if ys == [] {
      assert xs + ys == xs;
    } else {
      TimesConcat(xs, ys[..|ys| - 1], j);
      assert (xs + ys)[..|xs + ys| - 1] == xs + ys[..|ys| - 1];
    }
  }

  function ServedTimes(log: seq<Served>, j: Job): nat {
    if log == [] then 0 else ServedTimes(log[..|log| - 1], j) + (if log[|log| - 1].job == j then 1 else 0)
  }

  function LateTimes(log: seq<(Job, int)>, j: Job): nat {
    if log == [] then 0 else LateTimes(log[..|log| - 1], j) + (if log[|log| - 1].0 == j then 1 else 0)
  }

  lemma ServedSnoc(log: seq<Served>, x: Served, j: Job)
    ensures ServedTimes(log + [x], j) == ServedTimes(log, j) + (if x.job == j then 1 else 0)
  {
    assert (log + [x])[..|log|] == log;
  }

  lemma LateSnoc(s: Pool, job: Job, now: int, j: Job)
    ensures LateTimes(s.late + [(job, now)], j) == LateTimes(s.late, j) + (if job == j then 1 else 0)
  {
    assert (s.late + [(job, now)])[..|s.late|] == s.late;
  }

  lemma TimesTake(js: seq<Job>, n: nat, j: Job)
    requires n < |js|
    ensures Times(js[..n + 1], j) == Times(js[..n], j) + (if js[n] == j then 1 else 0)
  {
    assert js[..n + 1][..n] == js[..n];
  }

  /** Counters, queue order and queue length. */
  ghost predicate Accounting(s: Pool) {
    && s.offered == s.shed + |s.accepted|
    && s.dequeued <= |s.accepted| && s.q == s.accepted[s.dequeued..]
    && s.done == |s.served| && s.expired == |s.late|
    && s.dequeued == s.done + s.expired + InFlight(s.workers)
    && (forall j, k :: 0 <= j < k < |s.accepted| ==> s.accepted[j].tEnqNs <= s.accepted[k].tEnqNs)
    && (forall j :: 0 <= j < |s.accepted| ==> s.accepted[j].tEnqNs <= s.clock)
    && |s.q| <= s.capSeen
  }

  /** Each time job j is taken from the queue it ends up served, late or in flight. */
  ghost predicate Fate(s: Pool, j: Job)
    requires s.dequeued <= |s.accepted|
  {
    Times(s.accepted[..s.dequeued], j) == ServedTimes(s.served, j) + LateTimes(s.late, j) + HeldTimes(s.workers, j)
  }

  /** A served job met a positive deadline when it was taken, and its times run forward. */
  predicate ServedMet(deadlineNs: int, e: Served, clock: int) {
    (deadlineNs > 0 ==> e.deqNs - e.job.tEnqNs <= deadlineNs) && e.deqNs <= e.doneNs <= clock
  }

  /** An expired job exceeded a positive deadline. */
  predicate WasLate(deadlineNs: int, job: Job, deqNs: int, clock: int) {
    deadlineNs > 0 && deqNs - job.tEnqNs > deadlineNs && deqNs <= clock
  }

  predicate ServingMet(deadlineNs: int, w: Worker, clock: int) {
    w.Serving? ==> (deadlineNs > 0 ==> w.deqNs - w.job.tEnqNs <= deadlineNs) && w.deqNs <= clock
  }

  /** What is served was taken within a positive deadline, what is late was not, and times run forward. */
  ghost predicate Deadlines(s: Pool) {
    && (forall k :: 0 <= k < |s.served| ==> ServedMet(s.deadlineNs, s.served[k], s.clock))
    && (forall k :: 0 <= k < |s.late| ==> WasLate(s.deadlineNs, s.late[k].0, s.late[k].1, s.clock))
    && (forall i :: 0 <= i < |s.workers| ==> ServingMet(s.deadlineNs, s.workers[i], s.clock))
  }

  /** Who may be asleep, and what keeps a sleeper from being needed. */
  ghost predicate Wakeups(s: Pool) {
    && 1 <= s.active <= |s.workers|
    && (s.parkAlls == 0 ==> forall i :: 0 <= i < s.active ==> s.workers[i] != ParkWait)
    && (s.parkAlls == 0 && s.workAlls == 0 ==>
          forall i :: s.active <= i < |s.workers| ==> s.workers[i] != WorkWait)
    && (s.parkAlls == 0 && s.workAlls == 0 && s.phase == Running
        && (exists i :: 0 <= i < |s.workers| && s.workers[i] == WorkWait)
        ==> |s.q| <= ReadyBelow(s.workers, s.active) + s.oneTokens)
  }

  ghost predicate Stopping(s: Pool) {
    && (s.phase == Running ==> forall i :: 0 <= i < |s.workers| ==> s.workers[i] != Exited)
    && (s.phase.WorkersNotified? || s.phase.AllNotified? ==> forall i :: 0 <= i < |s.workers| ==>
         s.workers[i] != WorkWait)
    && (s.phase.AllNotified? ==> forall i :: 0 <= i < |s.workers| ==> s.workers[i] != ParkWait)
  }

  ghost predicate Inv(s: Pool) {
    Accounting(s) && (forall j :: Fate(s, j)) && Deadlines(s) && Wakeups(s) && Stopping(s)
  }

  lemma InitInv(threads: int, initialActive: int, cap: nat, deadlineNs: int, clock: int)
    ensures Inv(Init(threads, initialActive, cap, deadlineNs, clock))
  {
    var s := Init(threads, initialActive, cap, deadlineNs, clock);
    HeldReady(s.workers, Job(0, 0, 0.0, 0.0, 0, 0, 0));
    forall j ensures Fate(s, j) { HeldReady(s.workers, j); }
  }

  /** Steps that only move workers between states that hold no job. */
  predicate Quiet(step: Step) {
    !step.Enqueue? && !step.Lock? && !step.Stamp? && !step.Finish?
  }

  /** Quiet steps and enqueueing leave the job-holding workers alone. */
  lemma HeldNext(s: Pool, step: Step, j: Job)
    requires Enabled(s, step) && (Quiet(step) || step.Enqueue?)
    ensures HeldTimes(Next(s, step).workers, j) == HeldTimes(s.workers, j)
    ensures InFlight(Next(s, step).workers) == InFlight(s.workers)
  {
    hide HeldTimes, InFlight;
    match step
    case NotifyOne(w) => if w != -1 { HeldUpdate(s.workers, w, Ready, j); InFlightUpdate(s.workers, w, Ready); }
    case WakeSpuriously(i) => HeldUpdate(s.workers, i, Ready, j); InFlightUpdate(s.workers, i, Ready);
    case NotifyParked => HeldWakeAll(s.workers, ParkWait, j);
    case NotifyWorking => HeldWakeAll(s.workers, WorkWait, j);
    case StopNotifyWork => HeldWakeAll(s.workers, WorkWait, j);
    case StopNotifyPark => HeldWakeAll(s.workers, ParkWait, j);
    case _ =>
  }

  lemma EnqueueAccounts(s: Pool, job: Job, now: int)
    requires Accounting(s) && Enabled(s, Enqueue(job, now))
    ensures Accounting(AfterEnqueue(s, job, now))
  {
    hide InFlight;
    if |s.q| < s.cap {
      assert AfterEnqueue(s, job, now).q == AfterEnqueue(s, job, now).accepted[s.dequeued..];
    }
  }

  lemma LockAccounts(s: Pool, i: nat)
    requires Accounting(s) && i < |s.workers| && s.workers[i] == Ready
    ensures Accounting(AfterLock(s, i))
  {
    InFlightUpdate(s.workers, i, AfterLock(s, i).workers[i]);
    hide InFlight;
  }

  lemma ServiceAccounts(s: Pool, step: Step)
    requires Accounting(s) && Enabled(s, step) && (step.Stamp? || step.Finish?)
    ensures Accounting(Next(s, step))
  {
    InFlightUpdate(s.workers, step.i, Next(s, step).workers[step.i]);
    hide InFlight;
  }

  lemma QuietAccounts(s: Pool, step: Step, anyJob: Job)
    requires Accounting(s) && Enabled(s, step) && Quiet(step)
    ensures Accounting(Next(s, step))
  {
    HeldNext(s, step, anyJob);
    hide InFlight;
  }

  lemma AccountingKept(s: Pool, step: Step, anyJob: Job)
    requires Accounting(s) && Enabled(s, step)
    ensures Accounting(Next(s, step))
  {
    hide Accounting;
    match step
    case Enqueue(job, now) => EnqueueAccounts(s, job, now);
    case Lock(i) => LockAccounts(s, i);
    case Stamp(_, _) => ServiceAccounts(s, step);
    case Finish(_, _) => ServiceAccounts(s, step);
    case _ => QuietAccounts(s, step, anyJob);
  }

  lemma DeadlinesKept(s: Pool, step: Step)
    requires Deadlines(s) && Enabled(s, step)
    ensures Deadlines(Next(s, step))
  {
    hide Deadlines;
    match step
    case Stamp(i, now) => DeadlinesKeptByStamp(s, i, now);
    case Finish(i, now) => DeadlinesKeptByFinish(s, i, now);
    case _ => DeadlinesKeptByOthers(s, step);
  }

  lemma DeadlinesKeptByStamp(s: Pool, i: nat, now: int)
    requires Deadlines(s) && Enabled(s, Stamp(i, now))
    ensures Deadlines(AfterStamp(s, i, now))
  {}

  lemma DeadlinesKeptByFinish(s: Pool, i: nat, now: int)
    requires Deadlines(s) && Enabled(s, Finish(i, now))
    ensures Deadlines(AfterFinish(s, i, now))
  {
    assert ServingMet(s.deadlineNs, s.workers[i], s.clock);
  }

  lemma DeadlinesKeptByOthers(s: Pool, step: Step)
    requires Deadlines(s) && Enabled(s, step) && !step.Stamp? && !step.Finish?
    ensures Deadlines(Next(s, step))
  {}

  lemma FateKeptByOthers(s: Pool, step: Step, j: Job)
    requires s.dequeued <= |s.accepted| && Fate(s, j) && Enabled(s, step) && (step.Enqueue? || Quiet(step))
    ensures Fate(Next(s, step), j)
  {
    HeldNext(s, step, j);
    hide HeldTimes, InFlight, Times, ServedTimes, LateTimes;
    assert Next(s, step).accepted[..s.dequeued] == s.accepted[..s.dequeued];
  }

  lemma FateKeptByStamp(s: Pool, i: nat, now: int, j: Job)
    requires s.dequeued <= |s.accepted| && Fate(s, j) && Enabled(s, Stamp(i, now))
    ensures Fate(AfterStamp(s, i, now), j)
  {
    hide HeldTimes, Times, ServedTimes, LateTimes, Overdue;
    HeldUpdate(s.workers, i, AfterStamp(s, i, now).workers[i], j);
    LateSnoc(s, s.workers[i].job, now, j);
  }

  lemma FateKeptByFinish(s: Pool, i: nat, now: int, j: Job)
    requires s.dequeued <= |s.accepted| && Fate(s, j) && Enabled(s, Finish(i, now))
    ensures Fate(AfterFinish(s, i, now), j)
  {
    hide HeldTimes, Times, ServedTimes, LateTimes;
    HeldUpdate(s.workers, i, Ready, j);
    if s.workers[i].Serving? { ServedSnoc(s.served, Served(s.workers[i].job, s.workers[i].deqNs, now), j); }
  }

  /** A worker that takes the head job holds it from then on. */
  lemma FateKeptByLock(s: Pool, i: nat, j: Job)
    requires Accounting(s) && Fate(s, j) && i < |s.workers| && s.workers[i] == Ready
    ensures AfterLock(s, i).dequeued <= |s.accepted| && Fate(AfterLock(s, i), j)
  {
    hide HeldTimes, InFlight, Times, ServedTimes, LateTimes;
    var t := AfterLock(s, i);
    HeldUpdate(s.workers, i, t.workers[i], j);
    if t.dequeued > s.dequeued { TimesTake(s.accepted, s.dequeued, j); }
  }

  lemma StoppingKept(s: Pool, step: Step)
    requires Stopping(s) && Enabled(s, step)
    ensures Stopping(Next(s, step))
  {
    hide Stopping;
    if Quiet(step) { QuietKeepsStopping(s, step); } else { OthersKeepStopping(s, step); }
  }

  lemma QuietKeepsStopping(s: Pool, step: Step)
    requires Stopping(s) && Enabled(s, step) && Quiet(step)
    ensures Stopping(Next(s, step))
  {}

  lemma OthersKeepStopping(s: Pool, step: Step)
    requires Stopping(s) && Enabled(s, step) && !Quiet(step)
    ensures Stopping(Next(s, step))
  {}

  /** Notifications and setActive, none of which touches the queue. */
  lemma QuietKeepsWakeups(s: Pool, step: Step)
    requires Wakeups(s) && Enabled(s, step) && Quiet(step)
    ensures Wakeups(Next(s, step))
  {
    match step
    case NotifyOne(w) => if w != -1 { ReadyBelowUpdate(s.workers, s.active, w, Ready); }
    case WakeSpuriously(i) => ReadyBelowUpdate(s.workers, s.active, i, Ready);
    case _ =>
  }

  lemma LockKeepsWakeups(s: Pool, i: nat)
    requires Wakeups(s) && i < |s.workers| && s.workers[i] == Ready
    ensures Wakeups(AfterLock(s, i))
  {
    ReadyBelowUpdate(s.workers, s.active, i, AfterLock(s, i).workers[i]);
  }

  lemma OtherStepsKeepWakeups(s: Pool, step: Step)
    requires Wakeups(s) && Enabled(s, step) && (step.Enqueue? || step.Stamp? || step.Finish?)
    ensures Wakeups(Next(s, step))
  {
    if step.Stamp? || step.Finish? {
      ReadyBelowUpdate(s.workers, s.active, step.i, Next(s, step).workers[step.i]);
    }
  }

  lemma InvKept(s: Pool, step: Step)
    requires Inv(s) && Enabled(s, step)
    ensures Inv(Next(s, step))
  {
    hide Accounting, Fate, Deadlines, Wakeups, Stopping;
    StoppingKept(s, step);
    AccountingKept(s, step, Job(0, 0, 0.0, 0.0, 0, 0, 0));
    DeadlinesKept(s, step);
    InBounds(s);
    InBounds(Next(s, step));
    forall j ensures Fate(Next(s, step), j) {
      match step
      case Lock(i) => FateKeptByLock(s, i, j);
      case Stamp(i, now) => FateKeptByStamp(s, i, now, j);
      case Finish(i, now) => FateKeptByFinish(s, i, now, j);
      case _ => FateKeptByOthers(s, step, j);
    }
    if step.Lock? { LockKeepsWakeups(s, step.i); }
    else if Quiet(step) { QuietKeepsWakeups(s, step); }
    else { OtherStepsKeepWakeups(s, step); }
  }

  lemma InBounds(s: Pool)
    requires Accounting(s)
    ensures s.dequeued <= |s.accepted|
  {}

  // ---------------------------------------------------------------- runs

  /** A run is a list of steps; its states follow from the initial one. */
  ghost predicate Runs(s: Pool, steps: seq<Step>, t: Pool)
    decreases |steps|
  {
    if steps == [] then t == s
    else Enabled(s, steps[0]) && Runs(Next(s, steps[0]), steps[1..], t)
  }

  ghost predicate Reachable(t: Pool) {
    exists threads: int, active: int, cap: nat, deadlineNs: int, clock: int, steps: seq<Step> ::
      Runs(Init(threads, active, cap, deadlineNs, clock), steps, t)
  }

  lemma {:induction false} RunKeepsInv(s: Pool, steps: seq<Step>, t: Pool)
    requires Inv(s) && Runs(s, steps, t)
    ensures Inv(t)
    decreases |steps|
  {
    if steps != [] {
      InvKept(s, steps[0]);
      RunKeepsInv(Next(s, steps[0]), steps[1..], t);
    }
  }

  lemma ReachableInv(t: Pool)
    requires Reachable(t)
    ensures Inv(t)
  {
    var threads: int, active: int, cap: nat, deadlineNs: int, clock: int, steps: seq<Step> :|
      Runs(Init(threads, active, cap, deadlineNs, clock), steps, t);
    InitInv(threads, active, cap, deadlineNs, clock);
    RunKeepsInv(Init(threads, active, cap, deadlineNs, clock), steps, t);
  }

  lemma {:induction false} RunExtended(s: Pool, steps: seq<Step>, t: Pool, step: Step)
    requires Runs(s, steps, t) && Enabled(t, step)
    ensures Runs(s, steps + [step], Next(t, step))
    decreases |steps|
  {
    hide Enabled, Next;
    var more := steps + [step];
    if steps == [] {
      assert more[1..] == [];
    } else {
      assert more[0] == steps[0] && more[1..] == steps[1..] + [step];
      RunExtended(Next(s, steps[0]), steps[1..], t, step);
    }
  }

  /** A step from a reachable pool leads to a reachable pool. */
  lemma StepReaches(s: Pool, step: Step, t: Pool)
    requires Reachable(s) && Enabled(s, step) && t == Next(s, step)
    ensures Reachable(t)
  {
    hide Init, Enabled, Next, Runs;
    var threads: int, active: int, cap: nat, deadlineNs: int, clock: int, steps: seq<Step> :|
      Runs(Init(threads, active, cap, deadlineNs, clock), steps, s);
    RunExtended(Init(threads, active, cap, deadlineNs, clock), steps, s, step);
  }

  lemma InitReaches(threads: int, active: int, cap: nat, deadlineNs: int, clock: int)
    ensures Reachable(Init(threads, active, cap, deadlineNs, clock))
  {
    hide Init;
    var s := Init(threads, active, cap, deadlineNs, clock);
    assert Runs(s, [], s);
  }

  /**
   * Work conservation: with no notification under way, as many active threads are awake as there is work for;
   * and if some active thread sleeps, every queued job has a Ready thread of its own on the way to the queue.
   */
  lemma WorkConservation(t: Pool)
    requires Reachable(t) && t.phase == Running && t.oneTokens == 0 && t.parkAlls == 0 && t.workAlls == 0
    ensures 1 <= t.active <= |t.workers|
    ensures AwakeBelow(t.workers, t.active) >= if t.active < |t.q| then t.active else |t.q|
    ensures (exists i :: 0 <= i < |t.workers| && t.workers[i] == WorkWait) ==> |t.q| <= ReadyBelow(t.workers, t.active)
  {
    ReachableInv(t);
    ReadyAreAwake(t.workers, t.active);
  }

  /** What every snapshot shows, and what the queue order, length and deadline test amount to. */
  lemma PoolAccounting(t: Pool)
    requires Reachable(t)
    ensures t.offered == t.shed + t.dequeued + |t.q|
    ensures t.dequeued == t.done + t.expired + InFlight(t.workers) && InFlight(t.workers) <= |t.workers|
    ensures forall j, k :: 0 <= j < k < |t.q| ==> t.q[j].tEnqNs <= t.q[k].tEnqNs
    ensures |t.q| <= t.capSeen
  {
    ReachableInv(t);
  }

  /** The deadline in clock times: what is served met it, what expired did not, and 0 or less lets nothing expire. */
  lemma DeadlineDecides(t: Pool)
    requires Reachable(t)
    ensures t.deadlineNs > 0 ==>
      forall k :: 0 <= k < |t.served| ==> t.served[k].deqNs - t.served[k].job.tEnqNs <= t.deadlineNs
    ensures forall k :: 0 <= k < |t.late| ==> t.late[k].1 - t.late[k].0.tEnqNs > t.deadlineNs
    ensures t.deadlineNs <= 0 ==> t.late == [] && t.expired == 0
    ensures forall k :: 0 <= k < |t.served| ==> t.served[k].deqNs <= t.served[k].doneNs <= t.clock
    ensures forall i :: 0 <= i < |t.workers| && t.workers[i].Serving? ==> t.workers[i].deqNs <= t.clock
  {
    hide Fate, Wakeups, Stopping;
    ReachableInv(t);
    assert t.late != [] ==> WasLate(t.deadlineNs, t.late[0].0, t.late[0].1, t.clock);
    forall k | 0 <= k < |t.served| ensures ServedMet(t.deadlineNs, t.served[k], t.clock) {}
    forall k | 0 <= k < |t.late| ensures WasLate(t.deadlineNs, t.late[k].0, t.late[k].1, t.clock) {}
    forall i | 0 <= i < |t.workers| ensures ServingMet(t.deadlineNs, t.workers[i], t.clock) {}
  }

  /** Only a running pool's active thread takes a job, and it takes the oldest. */
  lemma ActiveTakesOldest(s: Pool, step: Step)
    requires Enabled(s, step) && Next(s, step).dequeued != s.dequeued
    ensures step.Lock? && step.i < s.active && s.phase == Running && s.q != []
    ensures Next(s, step).workers == s.workers[step.i := Taken(s.q[0])] && Next(s, step).q == s.q[1..]
  {}

  /** No accepted job is lost or handled twice. */
  lemma EveryJobOnce(t: Pool, j: Job)
    requires Reachable(t)
    ensures Times(t.accepted, j) == ServedTimes(t.served, j) + LateTimes(t.late, j)
      + HeldTimes(t.workers, j) + Times(t.q, j)
  {
    ReachableInv(t);
    assert Fate(t, j);
    assert t.accepted == t.accepted[..t.dequeued] + t.q;
    TimesConcat(t.accepted[..t.dequeued], t.q, j);
  }

  /** Along any run the counters only grow and the logs are only extended. */
  lemma {:induction false} CountersGrow(s: Pool, steps: seq<Step>, t: Pool)
    requires Runs(s, steps, t)
    ensures s.offered <= t.offered && s.shed <= t.shed && s.dequeued <= t.dequeued
    ensures s.expired <= t.expired && s.done <= t.done && s.clock <= t.clock
    ensures s.served <= t.served && s.late <= t.late && s.accepted <= t.accepted && s.capSeen <= t.capSeen
    decreases |steps|
  {
    if steps != [] { CountersGrow(Next(s, steps[0]), steps[1..], t); }
  }

  // ---------------------------------------------------------------- shutdown

  function Rank(w: Worker): nat {
    match w
    case Exited => 0
    case Ready => 1
    case WorkWait => 1
    case ParkWait => 1
    case Serving(_, _) => 2
    case Late(_) => 2
    case Taken(_) => 3
  }

  function Work(ws: seq<Worker>): nat {
    if ws == [] then 0 else Work(ws[..|ws| - 1]) + Rank(ws[|ws| - 1])
  }

  lemma {:induction false} WorkUpdate(ws: seq<Worker>, i: nat, w: Worker)
    requires i < |ws|
    ensures Work(ws[i := w]) == Work(ws) - Rank(ws[i]) + Rank(w)
  {
    var n := |ws| - 1;
    if i == n {
      assert ws[i := w][..n] == ws[..n];
    } else {
      WorkUpdate(ws[..n], i, w);
      assert ws[i := w][..n] == ws[..n][i := w];
    }
  }

  /** The step a worker can always take once the destructor has notified everyone. */
  function WorkerStep(s: Pool, i: nat): Step
    requires i < |s.workers| && s.workers[i] != Exited
  {
    match s.workers[i]
    case Taken(_) => Stamp(i, s.clock)
    case Serving(_, _) => Finish(i, s.clock)
    case Late(_) => Finish(i, s.clock)
    case _ => Lock(i)
  }

  /** Nobody else's step touches a worker once every worker is out of its wait. */
  lemma OthersLeaveWorkers(s: Pool, step: Step)
    requires Enabled(s, step) && !step.Lock? && !step.Stamp? && !step.Finish?
    requires forall i :: 0 <= i < |s.workers| ==> s.workers[i] != WorkWait && s.workers[i] != ParkWait
    ensures Next(s, step).workers == s.workers
  {}

  /**
   * What the joins wait for: after the destructor's notifications no thread sleeps, each can go on, each step it
   * takes brings the shutdown closer, and nothing anyone else does sets it back.
   */
  lemma ShutdownProgress(s: Pool, step: Step)
    requires Inv(s) && s.phase == AllNotified && Enabled(s, step)
    ensures forall i :: 0 <= i < |s.workers| && s.workers[i] != Exited ==> Enabled(s, WorkerStep(s, i))
    ensures Next(s, step).phase == AllNotified && |Next(s, step).workers| == |s.workers|
    ensures Work(Next(s, step).workers) + (if IsWorkerStep(step) then 1 else 0) <= Work(s.workers)
  {
    hide Inv, Work, Enabled, Next, WorkerStep;
    NobodyWaits(s);
    forall i | 0 <= i < |s.workers| && s.workers[i] != Exited ensures Enabled(s, WorkerStep(s, i)) { CanStep(s, i); }
    NotifiedStays(s, step);
    if IsWorkerStep(step) {
      RankFalls(s, step);
      WorkUpdate(s.workers, step.i, Next(s, step).workers[step.i]);
    } else {
      OthersLeaveWorkers(s, step);
    }
  }

  lemma CanStep(s: Pool, i: nat)
    requires i < |s.workers| && s.workers[i] != Exited && s.workers[i] != WorkWait && s.workers[i] != ParkWait
    ensures Enabled(s, WorkerStep(s, i))
  {}

  lemma NotifiedStays(s: Pool, step: Step)
    requires s.phase == AllNotified && Enabled(s, step)
    ensures Next(s, step).phase == AllNotified && |Next(s, step).workers| == |s.workers|
  {}

  lemma RankFalls(s: Pool, step: Step)
    requires s.phase == AllNotified && Enabled(s, step) && IsWorkerStep(step)
    ensures step.i < |s.workers| && |Next(s, step).workers| == |s.workers|
    ensures var w := Next(s, step).workers[step.i];
      Next(s, step).workers == s.workers[step.i := w] && Rank(w) < Rank(s.workers[step.i])
  {}

  predicate IsWorkerStep(step: Step) { step.Lock? || step.Stamp? || step.Finish? }

  lemma NobodyWaits(s: Pool)
    requires Inv(s) && s.phase == AllNotified
    ensures forall i :: 0 <= i < |s.workers| ==> s.workers[i] != WorkWait && s.workers[i] != ParkWait
  {
    assert Stopping(s);
  }

  function WorkerSteps(steps: seq<Step>): nat {
    if steps == [] then 0 else (if IsWorkerStep(steps[0]) then 1 else 0) + WorkerSteps(steps[1..])
  }

  /**
   * So the joins return: after the notifications, any run in which the workers together take as many steps as there is
   * work left has ended every thread, whatever else happens in between; and until then every remaining thread has a
   * step to take.
   */
  lemma {:induction false} ShutdownFinishes(s: Pool, steps: seq<Step>, t: Pool)
    requires Inv(s) && s.phase == AllNotified && Runs(s, steps, t)
    ensures Work(t.workers) + WorkerSteps(steps) <= Work(s.workers)
    ensures WorkerSteps(steps) == Work(s.workers) ==> forall i :: 0 <= i < |t.workers| ==> t.workers[i] == Exited
    ensures forall i :: 0 <= i < |t.workers| && t.workers[i] != Exited ==> Enabled(t, WorkerStep(t, i))
    decreases |steps|
  {
    hide Inv, Work;
    if steps == [] {
      NobodyWaits(s);
      if Work(s.workers) == 0 { NoWork(s.workers); }
    } else {
      ShutdownProgress(s, steps[0]);
      InvKept(s, steps[0]);
      var u := Next(s, steps[0]);
      ShutdownFinishes(u, steps[1..], t);
    }
  }

  lemma {:induction false} NoWork(ws: seq<Worker>)
    requires Work(ws) == 0
    ensures forall i :: 0 <= i < |ws| ==> ws[i] == Exited
  {
    if ws != [] { NoWork(ws[..|ws| - 1]); }
  }

  // ---------------------------------------------------------------- snapshots

  /**
   * A snapshot reads the queue counters under the mutex, in state a, and the others one after the other until state b:
   * its own equation holds, what it finds late and done is between the counts of a and b, and so falls short of what
   * was taken by at most the threads and does not exceed what has been taken by then.
   */
  lemma SnapshotSpans(a: Pool, steps: seq<Step>, b: Pool, lateRead: nat, doneRead: nat)
    requires Inv(a) && Runs(a, steps, b)
    requires a.expired <= lateRead <= b.expired && a.done <= doneRead <= b.done
    ensures a.offered == a.shed + a.dequeued + |a.q|
    ensures a.done <= b.done && a.expired <= b.expired
    ensures a.dequeued - |a.workers| <= doneRead + lateRead <= b.dequeued
    ensures steps == [] ==> a.dequeued == doneRead + lateRead + InFlight(a.workers)
  {
    RunKeepsInv(a, steps, b);
    CountersGrow(a, steps, b);
    hide Fate, Deadlines, Wakeups, Stopping, InFlight, Runs;
    assert Accounting(a) && Accounting(b);
    if steps == [] { NoSteps(a, b); }
  }

  lemma NoSteps(a: Pool, b: Pool)
    requires Runs(a, [], b)
    ensures a == b
  {}
}
