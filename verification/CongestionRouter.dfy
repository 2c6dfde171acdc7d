/**
 * Single-flight, stale-while-revalidate resolution (server/CongestionRouter.h) as a step system over its lock sections:
 * worker threads, the I/O thread, the inflight set, the refresh queue and the cache. External clients, the internal
 * calculator and the clock answer anything; the clock never runs backwards.
 */
module CongestionRouter {
  import opened CacheManager
  import opened Clock
  import opened Options

  const STALE_MAX_AGE_SEC := 300
  const FAILURE_TTL_SEC := 10
  const REFRESH_QUEUE_MAX: nat := 2000

  /** The I/O thread in asynchronous mode. */
  const IO: nat := 0

  datatype Level = Relaxed | Moderate | Crowded

  datatype Result = Result(level: Level, ratio: real, userCount: int)

  datatype Reply = NotCovered | Invalid | Valid(level: int)

  datatype Task = Task(zone: int, lat: real, lon: real, userCount: int)

  /** Where a thread stands between two lock sections. */
  datatype Pc =
    | Idle
    | Lookup(task: Task)                                    // about to ask the cache
    | Missed(task: Task)                                    // about to claim the zone, or to ask for a refresh
    | Unclaimed(task: Task)                                 // about to answer from stale data
    | Checking(task: Task)                                  // owns the zone, about to ask the cache again
    | Calling(task: Task, next: nat)                        // about to try the client with this index
    | Storing(task: Task, result: Result, ttlSec: int)
    | Clearing(task: Task)

  /** One round of client calls for a zone: when the cache missed, whether an earlier entry had been evicted by
      then, and what the round stored. */
  datatype Round = Round(checked: int, lost: bool, stored: Option<Entry<Result>>)

  datatype World = World(
    sync: bool, clients: nat, ttl: int, maxSize: nat,       // fixed at start
    now: int,
    cache: Lru<Result>,
    inflight: set<int>, queue: seq<Task>,                   // under inflightMutex
    threads: seq<Pc>,
    last: map<int, Entry<Result>>,                          // what was last stored for a zone, evicted or not
    rounds: map<int, seq<Round>>)

  datatype Step =
    | Query(t: nat, task: Task)
    | LookUp(t: nat)
    | Claim(t: nat)
    | Submit(t: nat)
    | AnswerStale(t: nat)
    | Pop
    | Check(t: nat)
    | Try(t: nat, reply: Reply)
    | Fallback(t: nat, calculated: Result)
    | Store(t: nat)
    | Clear(t: nat)
    | Tick(now: int)

  function ExternalToResult(level: int): Result {
    Result(if level == 1 then Relaxed else if level == 2 then Moderate else Crowded, level as real / 4.0, 0)
  }

  function EffectiveTtl(ttlSec: int, ttl: int): int { if ttlSec < 0 then ttl else ttlSec }

  /** submitRefresh: the queue's length is looked at before the inflight set. */
  function Submitted(queue: seq<Task>, inflight: set<int>, task: Task): (seq<Task>, set<int>) {
    if |queue| >= REFRESH_QUEUE_MAX || task.zone in inflight then (queue, inflight)
    else (queue + [task], inflight + {task.zone})
  }

  ghost predicate Enabled(w: World, step: Step) {
    match step
    case Query(t, _) => t < |w.threads| && w.threads[t].Idle? && (w.sync || t != IO)
    case LookUp(t) => t < |w.threads| && w.threads[t].Lookup?
    case Claim(t) => t < |w.threads| && w.threads[t].Missed? && w.sync
    case Submit(t) => t < |w.threads| && w.threads[t].Missed? && !w.sync
    case AnswerStale(t) => t < |w.threads| && w.threads[t].Unclaimed?
    case Pop => !w.sync && IO < |w.threads| && w.threads[IO].Idle? && w.queue != []
    case Check(t) => t < |w.threads| && w.threads[t].Checking?
    case Try(t, _) => t < |w.threads| && w.threads[t].Calling? && w.threads[t].next < w.clients
    case Fallback(t, _) => t < |w.threads| && w.threads[t].Calling? && w.threads[t].next >= w.clients
    case Store(t) => t < |w.threads| && w.threads[t].Storing?
    case Clear(t) => t < |w.threads| && w.threads[t].Clearing?
    case Tick(now) => w.now <= now
  }

  function Move(w: World, t: nat, pc: Pc): World
    requires t < |w.threads|
  {
    w.(threads := w.threads[t := pc])
  }

  function RoundsOf(w: World, z: int): seq<Round> { if z in w.rounds then w.rounds[z] else [] }

  function LastOf(w: World, z: int): Option<Entry<Result>> { if z in w.last then Some(w.last[z]) else None }

  function OpenRound(w: World, z: int): World {
    w.(rounds := w.rounds[z := RoundsOf(w, z) + [Round(w.now, z in w.last && z !in w.cache.entries, None)]])
  }

  function CloseRound(w: World, z: int, e: Entry<Result>): World {
    var rs := RoundsOf(w, z);
    w.(rounds := w.rounds[z := if rs == [] then [] else rs[|rs| - 1 := rs[|rs| - 1].(stored := Some(e))]])
  }

  ghost function Next(w: World, step: Step): World
    requires w.maxSize >= 1 && Enabled(w, step)
  {
    match step
    case Query(t, task) => Move(w, t, Lookup(task))
    case LookUp(t) =>
      var task := w.threads[t].task;
      Move(w.(cache := AfterGet(w.cache, task.zone, w.now)), t,
           if Hit(w.cache, task.zone, w.now) then Idle else Missed(task))
    case Claim(t) =>
      var task := w.threads[t].task;
      if task.zone in w.inflight then Move(w, t, Unclaimed(task))
      else Move(w.(inflight := w.inflight + {task.zone}), t, Checking(task))
    case Submit(t) =>
      var task := w.threads[t].task;
      var (queue, inflight) := Submitted(w.queue, w.inflight, task);
      Move(w.(queue := queue, inflight := inflight), t, Unclaimed(task))
    case AnswerStale(t) => Move(w, t, Idle)
    case Pop => Move(w.(queue := w.queue[1..]), IO, Checking(w.queue[0]))
    case Check(t) =>
      var task := w.threads[t].task;
      if Hit(w.cache, task.zone, w.now)
      then Move(w.(cache := AfterGet(w.cache, task.zone, w.now)), t, Clearing(task))
      else Move(OpenRound(w, task.zone), t, Calling(task, 0))
    case Try(t, reply) =>
      var pc := w.threads[t];
      Move(w, t,
           if reply.Valid? then Storing(pc.task, ExternalToResult(reply.level), -1) else Calling(pc.task, pc.next + 1))
    case Fallback(t, calculated) => Move(w, t, Storing(w.threads[t].task, calculated, FAILURE_TTL_SEC))
    case Store(t) =>
      var pc := w.threads[t];
      var z, e := pc.task.zone, Entry(pc.result, w.now, EffectiveTtl(pc.ttlSec, w.ttl));
      Move(CloseRound(w, z, e).(cache := AfterSet(w.cache, z, e, w.maxSize), last := w.last[z := e]), t,
           Clearing(pc.task))
    case Clear(t) =>
      Move(w.(inflight := w.inflight - {w.threads[t].task.zone}), t, Idle)
    case Tick(now) => w.(now := now)
  }

  // ---------------------------------------------------------------- who owns a zone

  predicate Owns(pc: Pc) { pc.Checking? || pc.Calling? || pc.Storing? || pc.Clearing? }

  predicate Fetching(pc: Pc) { pc.Calling? || pc.Storing? }

  ghost predicate IsOwned(w: World, z: int) {
    exists t :: 0 <= t < |w.threads| && Owns(w.threads[t]) && w.threads[t].task.zone == z
  }

  ghost predicate IsQueued(w: World, z: int) {
    exists k :: 0 <= k < |w.queue| && w.queue[k].zone == z
  }

  ghost predicate IsFetched(w: World, z: int) {
    exists t :: 0 <= t < |w.threads| && Fetching(w.threads[t]) && w.threads[t].task.zone == z
  }

  /** At most one owner a zone. */
  ghost predicate OneOwner(w: World) {
    forall t, u ::
      (&& 0 <= t < |w.threads| && 0 <= u < |w.threads| && Owns(w.threads[t]) && Owns(w.threads[u])
       && w.threads[t].task.zone == w.threads[u].task.zone) ==> t == u
  }

  ghost predicate QueueOnce(w: World) {
    && |w.queue| <= REFRESH_QUEUE_MAX
    && (forall j, k :: 0 <= j < |w.queue| && 0 <= k < |w.queue| && w.queue[j].zone == w.queue[k].zone ==> j == k)
  }

  /** The inflight set is the disjoint union of the queued zones and the owned ones. */
  ghost predicate InflightIsWork(w: World) {
    && (forall z :: z in w.inflight ==> IsQueued(w, z) || IsOwned(w, z))
    && (forall k :: 0 <= k < |w.queue| ==> w.queue[k].zone in w.inflight && !IsOwned(w, w.queue[k].zone))
    && (forall t :: 0 <= t < |w.threads| && Owns(w.threads[t]) ==> w.threads[t].task.zone in w.inflight)
  }

  /** Without the I/O thread nothing is queued; with it no query ever waits for a client. */
  ghost predicate ModeKept(w: World) {
    if w.sync then w.queue == [] else forall t :: 0 <= t < |w.threads| && t != IO ==> !Owns(w.threads[t])
  }

  // ---------------------------------------------------------------- the cache and the rounds

  ghost predicate WellFormed(l: Lru<Result>, maxSize: nat) {
    Distinct(l.order) && |l.order| <= maxSize && forall z :: z in l.entries <==> z in l.order
  }

  ghost predicate CacheIsRecent(w: World) {
    && w.maxSize >= 1 && WellFormed(w.cache, w.maxSize)
    && (forall z :: z in w.cache.entries ==> z in w.last && w.cache.entries[z] == w.last[z])
  }

  /** Before a round calls, the entry of the round before it has expired, unless it was evicted. */
  ghost predicate Spaced(before: Round, after: Round) {
    && before.stored.Some? && before.stored.value.timestamp <= after.checked
    && (after.lost || Elapsed(after.checked, before.stored.value.timestamp) > before.stored.value.ttlSec)
  }

  ghost predicate LogOk(rs: seq<Round>, open: bool, last: Option<Entry<Result>>, ttl: int, now: int) {
    var done := if open then |rs| - 1 else |rs|;
    && done >= 0
    && (forall i :: 0 <= i < |rs| ==> rs[i].checked <= now)
    && (forall i :: 0 <= i < done ==> rs[i].stored.Some? && rs[i].checked <= rs[i].stored.value.timestamp <= now)
    && (forall i :: 0 <= i < done ==> rs[i].stored.value.ttlSec == ttl || rs[i].stored.value.ttlSec == FAILURE_TTL_SEC)
    && (forall i :: 0 < i < |rs| ==> Spaced(rs[i - 1], rs[i]))
    && last == if done == 0 then None else rs[done - 1].stored
  }

  ghost predicate LogsOk(w: World) {
    && (forall z :: LogOk(RoundsOf(w, z), IsFetched(w, z), LastOf(w, z), w.ttl, w.now))
    && (forall t :: 0 <= t < |w.threads| && w.threads[t].Storing? ==> w.threads[t].ttlSec in {-1, FAILURE_TTL_SEC})
  }

  ghost predicate Inv(w: World) {
    Claims(w) && CacheIsRecent(w) && LogsOk(w)
  }

  // ---------------------------------------------------------------- every step keeps it

  lemma OwnedAfterMove(w: World, w': World, t: nat)
    requires t < |w.threads| && |w'.threads| == |w.threads| && w'.threads == w.threads[t := w'.threads[t]]
    requires OneOwner(w)
    ensures forall z :: IsOwned(w', z) <==>
      (Owns(w'.threads[t]) && w'.threads[t].task.zone == z) ||
      (IsOwned(w, z) && !(Owns(w.threads[t]) && w.threads[t].task.zone == z))
  {
    assert forall u :: 0 <= u < |w.threads| && u != t ==> w'.threads[u] == w.threads[u];
  }

  ghost predicate Claims(w: World) { OneOwner(w) && QueueOnce(w) && InflightIsWork(w) && ModeKept(w) }

  /** A step of an owner inside its round, or of a query that owns nothing, moves no claim. */
  lemma SameClaims(w: World, w': World, t: nat)
    requires Claims(w) && t < |w.threads| && |w'.threads| == |w.threads|
    requires w'.threads == w.threads[t := w'.threads[t]]
    requires w'.queue == w.queue && w'.inflight == w.inflight && w'.sync == w.sync
    requires Owns(w'.threads[t]) <==> Owns(w.threads[t])
    requires Owns(w.threads[t]) ==> w'.threads[t].task.zone == w.threads[t].task.zone
    ensures Claims(w')
  {
    OwnedAfterMove(w, w', t);
    assert forall z :: IsQueued(w', z) == IsQueued(w, z);
  }

  lemma ClaimKept(w: World, t: nat)
    requires w.maxSize >= 1 && Claims(w) && Enabled(w, Claim(t))
    ensures Claims(Next(w, Claim(t)))
  {
    var w' := Next(w, Claim(t));
    if w.threads[t].task.zone in w.inflight {
      SameClaims(w, w', t);
    } else {
      OwnedAfterMove(w, w', t);
      assert forall z :: IsQueued(w', z) == IsQueued(w, z);
    }
  }

  lemma SubmitKept(w: World, t: nat)
    requires w.maxSize >= 1 && Claims(w) && Enabled(w, Submit(t))
    ensures Claims(Next(w, Submit(t)))
  {
    var w', task := Next(w, Submit(t)), w.threads[t].task;
    if w'.queue == w.queue {
      SameClaims(w, w', t);
    } else {
      assert w'.queue == w.queue + [task];
      OwnedAfterMove(w, w', t);
      forall z ensures IsQueued(w', z) <==> IsQueued(w, z) || z == task.zone {
        if IsQueued(w, z) {
          var k :| 0 <= k < |w.queue| && w.queue[k].zone == z;
          assert w'.queue[k].zone == z;
        }
        assert w'.queue[|w.queue|].zone == task.zone;
      }
      hide IsOwned, IsQueued;
    }
  }

  lemma PopKept(w: World)
    requires w.maxSize >= 1 && Claims(w) && Enabled(w, Pop)
    ensures Claims(Next(w, Pop))
  {
    var w' := Next(w, Pop);
    OwnedAfterMove(w, w', IO);
    forall z | IsQueued(w, z) && z != w.queue[0].zone ensures IsQueued(w', z) {
      var k :| 0 <= k < |w.queue| && w.queue[k].zone == z;
      assert w'.queue[k - 1].zone == z;
    }
    forall k | 0 <= k < |w'.queue| ensures w'.queue[k] == w.queue[k + 1] {}
    assert !IsOwned(w, w.queue[0].zone);
  }

  lemma ClearKept(w: World, t: nat)
    requires w.maxSize >= 1 && Claims(w) && Enabled(w, Clear(t))
    ensures Claims(Next(w, Clear(t)))
  {
    var w' := Next(w, Clear(t));
    OwnedAfterMove(w, w', t);
    assert forall z :: IsQueued(w', z) == IsQueued(w, z);
  }

  lemma ClaimsKept(w: World, step: Step)
    requires w.maxSize >= 1 && Claims(w) && Enabled(w, step)
    ensures Claims(Next(w, step))
  {
    hide AfterGet, AfterSet, Hit, Claims;
    match step
    case Claim(t) => ClaimKept(w, t);
    case Submit(t) => SubmitKept(w, t);
    case Pop => PopKept(w);
    case Clear(t) => ClearKept(w, t);
    case Tick(_) => TickKept(w, step.now);
    case _ => SameClaims(w, Next(w, step), step.t);
  }

  lemma TickKept(w: World, now: int)
    requires Claims(w)
    ensures Claims(w.(now := now))
  {
    var w' := w.(now := now);
    assert forall z :: IsOwned(w', z) == IsOwned(w, z);
    assert forall z :: IsQueued(w', z) == IsQueued(w, z);
  }

  lemma SetWellFormed(l: Lru<Result>, z: int, e: Entry<Result>, maxSize: nat)
    requires maxSize >= 1 && WellFormed(l, maxSize)
    ensures WellFormed(AfterSet(l, z, e, maxSize), maxSize)
    ensures forall x :: x in AfterSet(l, z, e, maxSize).entries ==>
      if x == z then AfterSet(l, z, e, maxSize).entries[x] == e
      else x in l.entries && AfterSet(l, z, e, maxSize).entries[x] == l.entries[x]
  {
    hide Restrict, Remove;
    RemoveElements(l.order, z);
  }

  lemma GetWellFormed(l: Lru<Result>, z: int, now: int, maxSize: nat)
    requires maxSize >= 1 && WellFormed(l, maxSize)
    ensures WellFormed(AfterGet(l, z, now), maxSize) && AfterGet(l, z, now).entries == l.entries
  {
    hide Remove, Elapsed;
    RemoveElements(l.order, z);
  }

  lemma CacheKept(w: World, step: Step)
    requires CacheIsRecent(w) && Enabled(w, step)
    ensures CacheIsRecent(Next(w, step))
  {
    hide AfterGet, AfterSet, Hit, WellFormed;
    if step.LookUp? || step.Check? {
      GetWellFormed(w.cache, w.threads[step.t].task.zone, w.now, w.maxSize);
    } else if step.Store? {
      var pc := w.threads[step.t];
      var z, e := pc.task.zone, Entry(pc.result, w.now, EffectiveTtl(pc.ttlSec, w.ttl));
      SetWellFormed(w.cache, z, e, w.maxSize);
    }
  }

  // ---------------------------------------------------------------- the rounds of each zone

  /** Which zones are being fetched after thread t moved. */
  lemma FetchedAfterMove(w: World, w': World, t: nat)
    requires t < |w.threads| && |w'.threads| == |w.threads| && w'.threads == w.threads[t := w'.threads[t]]
    requires OneOwner(w)
    ensures forall z :: IsFetched(w', z) <==>
      (Fetching(w'.threads[t]) && w'.threads[t].task.zone == z) ||
      (IsFetched(w, z) && !(Owns(w.threads[t]) && w.threads[t].task.zone == z))
  {
    assert forall u :: 0 <= u < |w.threads| && u != t ==> w'.threads[u] == w.threads[u];
  }

  lemma LogLater(rs: seq<Round>, open: bool, last: Option<Entry<Result>>, ttl: int, now: int, later: int)
    requires LogOk(rs, open, last, ttl, now) && now <= later
    ensures LogOk(rs, open, last, ttl, later)
  {}

  /** A cache miss opens a round properly spaced from the one before. */
  lemma LogOpened(w: World, z: int)
    requires CacheIsRecent(w) && !Hit(w.cache, z, w.now)
    requires LogOk(RoundsOf(w, z), false, LastOf(w, z), w.ttl, w.now)
    ensures LogOk(RoundsOf(OpenRound(w, z), z), true, LastOf(w, z), w.ttl, w.now)
  {}

  lemma LogClosed(w: World, z: int, e: Entry<Result>)
    requires LogOk(RoundsOf(w, z), true, LastOf(w, z), w.ttl, w.now)
    requires e.timestamp == w.now && (e.ttlSec == w.ttl || e.ttlSec == FAILURE_TTL_SEC)
    ensures LogOk(RoundsOf(CloseRound(w, z, e), z), false, Some(e), w.ttl, w.now)
  {}

  /** A step that neither opens nor closes a round. */
  lemma SameLogs(w: World, w': World, t: nat)
    requires Claims(w) && LogsOk(w) && t < |w.threads| && |w'.threads| == |w.threads|
    requires w'.threads == w.threads[t := w'.threads[t]]
    requires w'.rounds == w.rounds && w'.last == w.last && w'.ttl == w.ttl && w'.now == w.now
    requires Fetching(w'.threads[t]) <==> Fetching(w.threads[t])
    requires Fetching(w.threads[t]) ==> w'.threads[t].task.zone == w.threads[t].task.zone
    requires w'.threads[t].Storing? ==> w'.threads[t].ttlSec in {-1, FAILURE_TTL_SEC}
    ensures LogsOk(w')
  {
    hide LogOk;
    FetchedAfterMove(w, w', t);
    if Owns(w.threads[t]) && !Fetching(w.threads[t]) { NotFetchedUnless(w, t); }
    if Fetching(w.threads[t]) { assert IsFetched(w, w.threads[t].task.zone); }
    assert forall z :: IsFetched(w', z) == IsFetched(w, z);
    hide IsFetched;
  }

  /** An owner that is not calling or storing owns a zone that nobody fetches. */
  lemma NotFetchedUnless(w: World, t: nat)
    requires OneOwner(w) && t < |w.threads| && Owns(w.threads[t]) && !Fetching(w.threads[t])
    ensures !IsFetched(w, w.threads[t].task.zone)
  {}

  lemma RoundOpened(w: World, t: nat)
    requires Claims(w) && CacheIsRecent(w) && LogsOk(w) && Enabled(w, Check(t))
    requires !Hit(w.cache, w.threads[t].task.zone, w.now)
    ensures LogsOk(Next(w, Check(t)))
  {
    hide LogOk, Hit;
    var w', z0 := Next(w, Check(t)), w.threads[t].task.zone;
    NotFetchedUnless(w, t);
    FetchedAfterMove(w, w', t);
    LogOpened(w, z0);
    hide IsFetched;
  }

  lemma RoundClosed(w: World, t: nat)
    requires Claims(w) && CacheIsRecent(w) && LogsOk(w) && Enabled(w, Store(t))
    ensures LogsOk(Next(w, Store(t)))
  {
    hide LogOk, Hit, AfterSet;
    var w', pc := Next(w, Store(t)), w.threads[t];
    FetchedAfterMove(w, w', t);
    assert IsFetched(w, pc.task.zone);
    LogClosed(w, pc.task.zone, Entry(pc.result, w.now, EffectiveTtl(pc.ttlSec, w.ttl)));
    hide IsFetched;
  }

  lemma LogsKept(w: World, step: Step)
    requires Claims(w) && CacheIsRecent(w) && LogsOk(w) && Enabled(w, step)
    ensures LogsOk(Next(w, step))
  {
    hide AfterGet, AfterSet, Hit, Claims, LogsOk, WellFormed;
    match step
    case Check(t) =>
      if Hit(w.cache, w.threads[t].task.zone, w.now) { SameLogs(w, Next(w, step), t); } else { RoundOpened(w, t); }
    case Store(t) => RoundClosed(w, t);
    case Tick(now) => LogsLater(w, now);
    case Pop => SameLogs(w, Next(w, step), IO);
    case _ => SameLogs(w, Next(w, step), step.t);
  }

  lemma LogsLater(w: World, now: int)
    requires LogsOk(w) && w.now <= now
    ensures LogsOk(w.(now := now))
  {
    var w' := w.(now := now);
    forall z ensures LogOk(RoundsOf(w', z), IsFetched(w', z), LastOf(w', z), w'.ttl, w'.now) {
      assert IsFetched(w', z) == IsFetched(w, z);
      LogLater(RoundsOf(w, z), IsFetched(w, z), LastOf(w, z), w.ttl, w.now, now);
    }
  }

  // ---------------------------------------------------------------- over whole runs

  ghost predicate Initial(w: World) {
    && w.maxSize >= 1 && w.cache == Lru([], map[]) && w.inflight == {} && w.queue == []
    && (forall t :: 0 <= t < |w.threads| ==> w.threads[t] == Idle) && w.last == map[] && w.rounds == map[]
  }

  /** w' is reached from w by the given steps. */
  ghost predicate Run(w: World, steps: seq<Step>, w': World)
    decreases |steps|
  {
    if steps == [] then w == w'
    else w.maxSize >= 1 && Enabled(w, steps[0]) && Run(Next(w, steps[0]), steps[1..], w')
  }

  lemma InitialInv(w: World)
    requires Initial(w)
    ensures Inv(w)
  {}

  lemma InvKept(w: World, step: Step)
    requires Inv(w) && Enabled(w, step)
    ensures Inv(Next(w, step))
  {
    hide Claims, LogsOk, WellFormed, Next, Enabled;
    ClaimsKept(w, step);
    CacheKept(w, step);
    LogsKept(w, step);
  }

  lemma {:induction false} InvAlways(w: World, steps: seq<Step>, w': World)
    requires Inv(w) && Run(w, steps, w')
    ensures Inv(w')
    decreases |steps|
  {
    hide Inv;
    if steps != [] {
      InvKept(w, steps[0]);
      InvAlways(Next(w, steps[0]), steps[1..], w');
    }
  }

  /**
   * Single flight: in every reachable state the inflight set is exactly the queued zones and the owned ones, no zone
   * is both or twice either, so two threads never fetch the same zone; and with the I/O thread only it fetches.
   */
  lemma SingleFlight(w0: World, steps: seq<Step>, w: World)
    requires Initial(w0) && Run(w0, steps, w)
    ensures forall z :: z in w.inflight <==> IsQueued(w, z) || IsOwned(w, z)
    ensures forall z :: !(IsQueued(w, z) && IsOwned(w, z))
    ensures OneOwner(w) && QueueOnce(w)
    ensures forall t, u ::
      (0 <= t < u < |w.threads| && Fetching(w.threads[t]) && Fetching(w.threads[u])) ==>
        w.threads[t].task.zone != w.threads[u].task.zone
    ensures forall t :: 0 <= t < |w.threads| && Fetching(w.threads[t]) ==> w.sync || t == IO
  {
    hide LogsOk, CacheIsRecent;
    InitialInv(w0);
    InvAlways(w0, steps, w);
  }

  /**
   * No stampede: of two consecutive rounds of a zone the earlier has stored its entry before the later looks, and
   * the later calls clients only when that entry is past its own TTL or has been evicted.
   */
  lemma NoStampede(w0: World, steps: seq<Step>, w: World, z: int, i: nat)
    requires Initial(w0) && Run(w0, steps, w)
    requires 0 < i < |RoundsOf(w, z)|
    ensures var before, after := RoundsOf(w, z)[i - 1], RoundsOf(w, z)[i];
      && before.stored.Some? && before.checked <= before.stored.value.timestamp <= after.checked <= w.now
      && (after.lost || !Fresh(before.stored.value, after.checked))
  {
    hide Claims, CacheIsRecent;
    InitialInv(w0);
    InvAlways(w0, steps, w);
    assert LogOk(RoundsOf(w, z), IsFetched(w, z), LastOf(w, z), w.ttl, w.now);
    assert Spaced(RoundsOf(w, z)[i - 1], RoundsOf(w, z)[i]);
  }

  /** The shortest time between two rounds of a zone that stays cached, in nanoseconds. */
  function Gap(ttl: int): int { ((if ttl < FAILURE_TTL_SEC then ttl else FAILURE_TTL_SEC) + 1) * 1000000000 }

  lemma OneGap(w0: World, steps: seq<Step>, w: World, z: int, i: nat)
    requires Initial(w0) && Run(w0, steps, w) && w.ttl >= 0
    requires 0 < i < |RoundsOf(w, z)| && !RoundsOf(w, z)[i].lost
    ensures RoundsOf(w, z)[i].checked >= RoundsOf(w, z)[i - 1].checked + Gap(w.ttl)
  {
    hide Run, Initial;
    NoStampede(w0, steps, w, z, i);
    StoredTtl(w0, steps, w, z, i - 1);
  }

  lemma StoredTtl(w0: World, steps: seq<Step>, w: World, z: int, i: nat)
    requires Initial(w0) && Run(w0, steps, w) && i < |RoundsOf(w, z)| - 1
    ensures RoundsOf(w, z)[i].stored.Some?
    ensures RoundsOf(w, z)[i].stored.value.ttlSec == w.ttl || RoundsOf(w, z)[i].stored.value.ttlSec == FAILURE_TTL_SEC
  {
    hide Claims, CacheIsRecent;
    InitialInv(w0);
    InvAlways(w0, steps, w);
    assert LogOk(RoundsOf(w, z), IsFetched(w, z), LastOf(w, z), w.ttl, w.now);
  }

  /** The rate of external rounds of a zone is bounded however many queries ask for it. */
  lemma {:induction false} RateBound(w0: World, steps: seq<Step>, w: World, z: int, i: nat, j: nat)
    requires Initial(w0) && Run(w0, steps, w) && w.ttl >= 0
    requires i <= j < |RoundsOf(w, z)|
    requires forall k :: i < k <= j ==> !RoundsOf(w, z)[k].lost
    ensures RoundsOf(w, z)[j].checked - RoundsOf(w, z)[i].checked >= (j - i) * Gap(w.ttl)
    decreases j
  {
    if i < j {
      hide Run, Initial, Gap;
      RateBound(w0, steps, w, z, i, j - 1);
      OneGap(w0, steps, w, z, j);
      assert (j - i) * Gap(w.ttl) == (j - 1 - i) * Gap(w.ttl) + Gap(w.ttl);
    }
  }

  // ---------------------------------------------------------------- when nothing is evicted

  /** A stored zone leaves the cache only as the least recent of a full cache, when a zone not in it is stored. */
  lemma EvictionIsLru(w: World, step: Step, z: int)
    requires Inv(w) && Enabled(w, step)
    requires z in w.cache.entries && z !in Next(w, step).cache.entries
    ensures step.Store? && w.threads[step.t].task.zone !in w.cache.entries
    ensures |w.cache.order| == w.maxSize && w.cache.order[w.maxSize - 1] == z
  {
    hide Claims, LogsOk, Restrict, Remove, Hit;
  }

  ghost predicate Within(w: World, zones: set<int>) {
    && (forall k :: 0 <= k < |w.queue| ==> w.queue[k].zone in zones)
    && (forall t :: 0 <= t < |w.threads| && !w.threads[t].Idle? ==> w.threads[t].task.zone in zones)
    && (forall z :: z in w.last ==> z in zones)
  }

  ghost predicate NothingLost(w: World) {
    && (forall z :: z in w.last ==> z in w.cache.entries)
    && (forall z, i :: z in w.rounds && 0 <= i < |w.rounds[z]| ==> !w.rounds[z][i].lost)
  }

  lemma WithinKept(w: World, step: Step, zones: set<int>)
    requires w.maxSize >= 1 && Enabled(w, step) && Within(w, zones) && (step.Query? ==> step.task.zone in zones)
    ensures Within(Next(w, step), zones)
  {
    hide AfterGet, AfterSet, Hit;
  }

  lemma {:induction false} Pigeonhole(order: seq<int>, zones: set<int>)
    requires Distinct(order) && forall k :: 0 <= k < |order| ==> order[k] in zones
    ensures |order| <= |zones|
  {
    if order != [] {
      var last := order[|order| - 1];
      assert last in zones;
      Pigeonhole(order[..|order| - 1], zones - {last});
    }
  }

  lemma RoomForOne(l: Lru<Result>, maxSize: nat, z: int, zones: set<int>)
    requires WellFormed(l, maxSize) && z !in l.entries && z in zones
    requires forall x :: x in l.entries ==> x in zones
    ensures |l.order| < |zones|
  {
    var all := l.order + [z];
    forall k | 0 <= k < |all| ensures all[k] in zones {
      if k < |l.order| {
        assert all[k] == l.order[k] && l.order[k] in l.order;
        assert l.order[k] in l.entries;
      }
    }
    forall i, j | 0 <= i < j < |all| ensures all[i] != all[j] {
      assert l.order[i] in l.order;
    }
    Pigeonhole(all, zones);
  }

  lemma NothingLostKept(w: World, step: Step, zones: set<int>)
    requires Inv(w) && Enabled(w, step) && Within(w, zones) && |zones| <= w.maxSize && NothingLost(w)
    ensures NothingLost(Next(w, step))
  {
    hide AfterGet, AfterSet, Claims, LogsOk;
    CacheKept(w, step);
    forall z | z in w.cache.entries ensures z in Next(w, step).cache.entries {
      if z !in Next(w, step).cache.entries {
        EvictionIsLru(w, step, z);
        var stored := w.threads[step.t].task.zone;
        assert forall x :: x in w.cache.entries ==> x in zones;
        RoomForOne(w.cache, w.maxSize, stored, zones);
        assert false;
      }
    }
    if step.Store? { StoredIsCached(w, step.t); }
  }

  lemma StoredIsCached(w: World, t: nat)
    requires Inv(w) && Enabled(w, Store(t))
    ensures w.threads[t].task.zone in Next(w, Store(t)).cache.entries
  {
    hide Claims, LogsOk, Restrict, Remove, Hit;
  }

  /** With no more zones in play than the cache holds, no entry is ever evicted, so RateBound holds outright. */
  lemma {:induction false} FewZonesNeverLost(w: World, steps: seq<Step>, w': World, zones: set<int>)
    requires Inv(w) && Within(w, zones) && NothingLost(w) && |zones| <= w.maxSize
    requires Run(w, steps, w') && forall k :: 0 <= k < |steps| && steps[k].Query? ==> steps[k].task.zone in zones
    ensures NothingLost(w')
    decreases |steps|
  {
    hide Inv, Within, NothingLost;
    if steps != [] {
      InvKept(w, steps[0]);
      WithinKept(w, steps[0], zones);
      NothingLostKept(w, steps[0], zones);
      assert Next(w, steps[0]).maxSize == w.maxSize;
      FewZonesNeverLost(Next(w, steps[0]), steps[1..], w', zones);
    }
  }

  // ---------------------------------------------------------------- a round ends

  /** How many more of its own steps a thread needs to be idle again. */
  function StepsLeft(pc: Pc, clients: nat): nat {
    match pc
    case Idle => 0
    case Lookup(_) => clients + 7
    case Missed(_) => clients + 6
    case Unclaimed(_) => 1
    case Checking(_) => clients + 5
    case Calling(_, next) => if next < clients then clients - next + 3 else 3
    case Storing(_, _, _) => 2
    case Clearing(_) => 1
  }

  /** Every step of a busy thread brings it nearer to idle, whatever the others do, so an owned zone is given up;
      a query with the I/O thread running is answered in at most three steps of its own. */
  lemma RoundEnds(w: World, step: Step, t: nat)
    requires Inv(w) && Enabled(w, step) && t < |w.threads| && !w.threads[t].Idle?
    ensures var own := !step.Tick? && !step.Pop? && step.t == t;
      && (own ==> StepsLeft(Next(w, step).threads[t], w.clients) < StepsLeft(w.threads[t], w.clients))
      && (!own ==> Next(w, step).threads[t] == w.threads[t])
      && (own && !w.sync && w.threads[t].Missed? ==> Next(w, step).threads[t].Unclaimed?)
  {
    hide AfterGet, AfterSet, Hit, Claims, LogsOk;
  }

  // ---------------------------------------------------------------- a refresh is asked for, and has its turn

  /** After a query that missed has asked, the zone is queued or owned, unless 2000 refreshes were waiting. */
  lemma SubmitAsks(w0: World, steps: seq<Step>, w: World, t: nat)
    requires Initial(w0) && Run(w0, steps, w) && Enabled(w, Submit(t)) && w.maxSize >= 1
    ensures var zone, v := w.threads[t].task.zone, Next(w, Submit(t));
      && (|w.queue| < 2000 ==> IsQueued(v, zone) || IsOwned(v, zone))
      && (|w.queue| < 2000 && !IsQueued(w, zone) && !IsOwned(w, zone) ==> v.queue == w.queue + [w.threads[t].task])
      && (|w.queue| >= 2000 ==> v.queue == w.queue && v.inflight == w.inflight)
  {
    hide Initial, IsQueued, IsOwned;
    var v := Next(w, Submit(t));
    RunSnoc(w0, steps, w, Submit(t));
    SingleFlight(w0, steps, w);
    SingleFlight(w0, steps + [Submit(t)], v);
  }

  function Pops(steps: seq<Step>): nat {
    if steps == [] then 0 else (if steps[0].Pop? then 1 else 0) + Pops(steps[1..])
  }

  /** The queue is served in order: whatever happens, a refresh moves up one place with every one taken. */
  lemma {:induction false} QueueMovesUp(w: World, steps: seq<Step>, v: World, k: nat)
    requires Run(w, steps, v) && k < |w.queue| && Pops(steps) <= k
    ensures k - Pops(steps) < |v.queue| && v.queue[k - Pops(steps)] == w.queue[k]
    decreases |steps|
  {
    if steps != [] {
      var u, j := Next(w, steps[0]), if steps[0].Pop? then k - 1 else k;
      QueueStep(w, steps[0], k);
      QueueMovesUp(u, steps[1..], v, j);
    }
  }

  lemma QueueStep(w: World, step: Step, k: nat)
    requires w.maxSize >= 1 && Enabled(w, step) && k < |w.queue| && (step.Pop? ==> k > 0)
    ensures var u, j := Next(w, step), if step.Pop? then k - 1 else k;
      j < |u.queue| && u.queue[j] == w.queue[k]
  {
    hide AfterGet, AfterSet, Hit;
  }

  /**
   * Every refresh has its turn: when as many have been taken as were ahead of it, the I/O thread takes it next, and
   * then asks the cache again; it calls clients if and only if there is still no fresh entry.
   */
  lemma RefreshHasItsTurn(w: World, steps: seq<Step>, v: World, k: nat)
    requires Run(w, steps, v) && k < |w.queue| && Pops(steps) == k && v.maxSize >= 1 && Enabled(v, Pop)
    ensures var u, zone := Next(v, Pop), w.queue[k].zone;
      && u.threads[IO] == Checking(w.queue[k]) && Enabled(u, Check(IO))
      && var x := Next(u, Check(IO));
         && (zone in u.cache.entries && Elapsed(u.now, u.cache.entries[zone].timestamp) <= u.cache.entries[zone].ttlSec
             ==> x.threads[IO] == Clearing(w.queue[k]))
         && (zone !in u.cache.entries || Elapsed(u.now, u.cache.entries[zone].timestamp) > u.cache.entries[zone].ttlSec
             ==> x.threads[IO] == Calling(w.queue[k], 0) && x.cache == u.cache)
  {
    hide AfterGet, Run;
    QueueMovesUp(w, steps, v, k);
  }

  // ---------------------------------------------------------------- the class

  /** The first valid answer of the clients in order, if any. */
  ghost predicate FirstValid(replies: seq<Reply>, k: nat) {
    k < |replies| && replies[k].Valid? && forall j :: 0 <= j < k ==> !replies[j].Valid?
  }

  /** What a round gives: the first valid client's answer under the cache's TTL, else the internal calculation
      under the short failure TTL. */
  ghost predicate RoundGives(replies: seq<Reply>, calculated: Result, r: Result, ttlSec: int) {
    if exists k: nat :: FirstValid(replies, k)
    then
      && ttlSec == -1
      && exists k: nat ::
           && FirstValid(replies, k) && r.userCount == 0 && 4.0 * r.ratio == replies[k].level as real
           && (r.level == Relaxed <==> replies[k].level == 1) && (r.level == Moderate <==> replies[k].level == 2)
    else ttlSec == 10 && r == calculated
  }

  /** What fetchAndStore does to the cache's history and returns. */
  ghost predicate FetchDone(h: seq<Op<Result>>, h': seq<Op<Result>>, ttl: int, maxSize: nat, zone: int,
                            replies: seq<Reply>, calculated: Result, now: int, later: int, r: Result)
  {
    var asked := h + [Op.Get(zone, now)];
    if FreshRecent(h, zone, now, ttl, maxSize)
    then h' == asked && LastSet(h, zone, ttl).Some? && r == LastSet(h, zone, ttl).value.result
    else exists ttlSec :: RoundGives(replies, calculated, r, ttlSec) && h' == asked + [Op.Set(zone, r, ttlSec, later)]
  }

  lemma {:induction false} SomeFirstValid(replies: seq<Reply>, k: nat)
    requires k < |replies| && replies[k].Valid?
    ensures exists j: nat :: FirstValid(replies, j)
  {
    if j: nat :| j < k && replies[j].Valid? {
      SomeFirstValid(replies, j);
    } else {
      assert FirstValid(replies, k);
    }
  }

  /** w' can be reached from w. */
  ghost predicate Leads(w: World, w': World) { exists steps :: Run(w, steps, w') }

  lemma LeadsNowhere(w: World)
    ensures Leads(w, w)
  {
    assert Run(w, [], w);
  }

  lemma LeadsOn(w: World, v: World, step: Step)
    requires Leads(w, v) && v.maxSize >= 1 && Enabled(v, step)
    ensures Leads(w, Next(v, step))
  {
    var steps :| Run(w, steps, v);
    RunSnoc(w, steps, v, step);
  }

  lemma {:induction false} RunSnoc(w: World, steps: seq<Step>, v: World, step: Step)
    requires Run(w, steps, v) && v.maxSize >= 1 && Enabled(v, step)
    ensures Run(w, steps + [step], Next(v, step))
    decreases |steps|
  {
    hide Enabled, Next;
    if steps == [] {
      assert [] + [step] == [step] && [step][1..] == [];
    } else {
      assert (steps + [step])[1..] == steps[1..] + [step];
      RunSnoc(Next(w, steps[0]), steps[1..], v, step);
    }
  }

  /** The world after one more step, with the proof that it is reached. */
  lemma Go(w: World, v: World, step: Step) returns (u: World)
    requires Leads(w, v) && v.maxSize >= 1 && Enabled(v, step)
    ensures u == Next(v, step) && Leads(w, u)
  {
    hide Enabled, Next;
    LeadsOn(w, v, step);
    u := Next(v, step);
  }

  /** Thread t tries clients that do not answer. */
  lemma {:induction false} TriesFail(w: World, v: World, t: nat, replies: seq<Reply>, k: nat) returns (u: World)
    requires Leads(w, v) && v.maxSize >= 1 && t < |v.threads| && v.threads[t].Calling? && v.threads[t].next == 0
    requires k <= |replies| == v.clients && forall j :: 0 <= j < k ==> !replies[j].Valid?
    ensures Leads(w, u) && u == Move(v, t, Calling(v.threads[t].task, k))
  {
    if k == 0 {
      u := v;
      assert v.threads == v.threads[t := Calling(v.threads[t].task, 0)];
    } else {
      var x := TriesFail(w, v, t, replies, k - 1);
      u := Go(w, x, Try(t, replies[k - 1]));
      assert x.threads[t := Calling(v.threads[t].task, k)] == v.threads[t := Calling(v.threads[t].task, k)];
    }
  }

  /** The lock sections as one thread runs them: each method leads from one world of the protocol to another. */
  class Router {
    const cache: Cache<Result>
    const sync: bool
    var inflight: set<int>
    var refreshQueue: seq<Task>

    /** The protocol's world has this object's fields. */
    ghost predicate Mirrors(w: World)
      reads this, cache
    {
      && cache.Valid() && w.sync == sync && w.ttl == cache.ttl && w.maxSize == cache.maxSize >= 1
      && w.cache == cache.Abs() && w.inflight == inflight && w.queue == refreshQueue
    }

    constructor (cache: Cache<Result>, sync: bool, clients: nat, threads: seq<Pc>, ghost now: int)
      requires cache.Valid() && cache.log == [] && forall t :: 0 <= t < |threads| ==> threads[t] == Idle
      ensures this.cache == cache && this.sync == sync
      ensures var w := World(sync, clients, cache.ttl, cache.maxSize, now, Lru([], map[]),
        {}, [], threads, map[], map[]);
        Initial(w) && Mirrors(w)
    {
      this.cache, this.sync := cache, sync;
      inflight, refreshQueue := {}, [];
    }

    /** In every world that the object can be in, its own inflight set is the queued and the owned zones. */
    lemma InflightIsExact(w0: World, w: World)
      requires Initial(w0) && Leads(w0, w) && Mirrors(w)
      ensures forall z :: z in inflight <==> IsQueued(w, z) || IsOwned(w, z)
      ensures |refreshQueue| <= REFRESH_QUEUE_MAX
    {
      hide Run, Initial, IsQueued, IsOwned;
      var steps :| Run(w0, steps, w);
      SingleFlight(w0, steps, w);
    }

    method SubmitRefresh(task: Task, ghost w: World, ghost t: nat) returns (ghost w': World)
      requires Mirrors(w) && !sync && t < |w.threads| && w.threads[t] == Missed(task)
      modifies this
      ensures |old(refreshQueue)| >= 2000 || task.zone in old(inflight) ==>
        refreshQueue == old(refreshQueue) && inflight == old(inflight)
      ensures |old(refreshQueue)| < 2000 && task.zone !in old(inflight) ==>
        refreshQueue == old(refreshQueue) + [task] && inflight == old(inflight) + {task.zone}
      ensures Mirrors(w') && Leads(w, w') && w'.threads == w.threads[t := Unclaimed(task)] && w'.now == w.now
    {
      LeadsNowhere(w);
      w' := Go(w, w, Submit(t));
      if |refreshQueue| >= REFRESH_QUEUE_MAX { return; }
      if task.zone in inflight { return; }
      inflight := inflight + {task.zone};
      refreshQueue := refreshQueue + [task];
    }

    /** The cache is asked once more; on a miss the clients are tried in order and the outcome is stored. */
    method FetchAndStore(task: Task, replies: seq<Reply>, calculated: Result, now: int, later: int, ghost w: World,
                         ghost t: nat)
      returns (r: Result, ghost w': World)
      requires Mirrors(w) && t < |w.threads| && w.threads[t] == Checking(task) && |replies| == w.clients
      requires w.now <= now <= later
      modifies cache
      ensures FetchDone(old(cache.log), cache.log, cache.ttl, cache.maxSize, task.zone,
        replies, calculated, now, later, r)
      ensures Mirrors(w') && Leads(w, w') && w'.threads == w.threads[t := Clearing(task)] && w'.now <= later
    {
      hide FreshRecent, LastSet, AfterGet, AfterSet, Hit, Run, cache.Abs, cache.Valid;
      LeadsNowhere(w);
      w' := Go(w, w, Tick(now));
      w' := Go(w, w', Check(t));
      var hit: bool;
      hit, r := cache.Get(task.zone, now, calculated);
      if hit { return; }
      MissKeeps(w.cache, task.zone, now);
      var k := 0;
      while k < |replies|
        invariant k <= |replies| && forall j :: 0 <= j < k ==> !replies[j].Valid?
      {
        if replies[k].Valid? {
          r := ExternalToResult(replies[k].level);
          assert FirstValid(replies, k);
          w' := Conclude(w, w', t, task, replies, k, calculated, later);
          cache.Set(task.zone, r, -1, later);
          return;
        }
        k := k + 1;
      }
      r := calculated;
      w' := Conclude(w, w', t, task, replies, k, calculated, later);
      cache.Set(task.zone, r, FAILURE_TTL_SEC, later);
    }

    /** One turn of the I/O thread's loop. */
    method IoTurn(replies: seq<Reply>, calculated: Result, now: int, later: int, ghost w: World)
      returns (r: Result, ghost w': World)
      requires Mirrors(w) && !sync && IO < |w.threads| && w.threads[IO] == Idle && refreshQueue != []
      requires |replies| == w.clients && w.now <= now <= later
      modifies this, cache
      ensures refreshQueue == old(refreshQueue)[1..] && inflight == old(inflight) - {old(refreshQueue)[0].zone}
      ensures FetchDone(old(cache.log), cache.log, cache.ttl, cache.maxSize, old(refreshQueue)[0].zone,
                replies, calculated, now, later, r)
      ensures Mirrors(w') && Leads(w, w') && w'.threads == w.threads && w'.now <= later
    {
      hide FetchDone, Leads, cache.Abs, cache.Valid;
      var task := refreshQueue[0];
      LeadsNowhere(w);
      ghost var v := Go(w, w, Pop);
      refreshQueue := refreshQueue[1..];
      r, w' := FetchAndStore(task, replies, calculated, now, later, v, IO);
      LeadsThrough(w, v, w');
      w' := Go(w, w', Clear(IO));
      inflight := inflight - {task.zone};
      assert w'.threads == w.threads;
    }

    /** A stale answer, or the internal calculation; the order of use stays as it is. */
    method AnswerWithout(task: Task, calculated: Result, now: int, ghost w: World, ghost t: nat)
      returns (r: Result, ghost w': World)
      requires Mirrors(w) && t < |w.threads| && w.threads[t] == Unclaimed(task) && w.now <= now
      modifies cache`log
      ensures cache.log == old(cache.log) + [Op.GetStale(task.zone, STALE_MAX_AGE_SEC, now)]
      ensures r == StaleOr(cache.Abs(), task.zone, now, calculated)
      ensures Mirrors(w') && Leads(w, w') && w'.threads == w.threads[t := Idle] && w'.now == now
    {
      hide Leads;
      LeadsNowhere(w);
      w' := Go(w, w, Tick(now));
      w' := Go(w, w', AnswerStale(t));
      var found: bool;
      found, r := cache.GetStale(task.zone, STALE_MAX_AGE_SEC, now, calculated);
      if !found { r := calculated; }
    }

    /** The first look at the cache. */
    method LookInCache(task: Task, now: int, prev: Result, ghost w: World, ghost t: nat)
      returns (hit: bool, r: Result, ghost w': World)
      requires Mirrors(w) && t < |w.threads| && w.threads[t] == Lookup(task) && w.now <= now
      modifies cache
      ensures cache.log == old(cache.log) + [Op.Get(task.zone, now)]
      ensures hit <==> FreshRecent(old(cache.log), task.zone, now, cache.ttl, cache.maxSize)
      ensures hit ==> LastSet(old(cache.log), task.zone, cache.ttl).Some?
                      && r == LastSet(old(cache.log), task.zone, cache.ttl).value.result
      ensures !hit ==> cache.cache == old(cache.cache)
      ensures Mirrors(w') && Leads(w, w') && w'.threads == w.threads[t := if hit then Idle else Missed(task)]
      ensures w'.now == now && w'.clients == w.clients
    {
      hide Leads, FreshRecent, LastSet, AfterGet, Hit, cache.Abs, cache.Valid;
      LeadsNowhere(w);
      w' := Go(w, w, Tick(now));
      w' := Go(w, w', LookUp(t));
      hit, r := cache.Get(task.zone, now, prev);
    }

    /** A fresh entry, else a refresh is asked for and the answer is a stale entry or the internal calculation: the
        clients are never called here. */
    method ResolveAsync(task: Task, calculated: Result, now: int, later: int, ghost w: World, ghost t: nat)
      returns (r: Result, ghost w': World)
      requires Mirrors(w) && !sync && t < |w.threads| && w.threads[t] == Lookup(task) && w.now <= now <= later
      modifies this, cache
      ensures FreshRecent(old(cache.log), task.zone, now, cache.ttl, cache.maxSize) ==>
        && refreshQueue == old(refreshQueue) && inflight == old(inflight)
        && LastSet(old(cache.log), task.zone, cache.ttl).Some?
        && r == LastSet(old(cache.log), task.zone, cache.ttl).value.result
      ensures !FreshRecent(old(cache.log), task.zone, now, cache.ttl, cache.maxSize) ==>
        && cache.cache == old(cache.cache) && r == StaleOr(cache.Abs(), task.zone, later, calculated)
        && (|old(refreshQueue)| >= 2000 ==> refreshQueue == old(refreshQueue) && inflight == old(inflight))
        && (|old(refreshQueue)| < 2000 ==> task.zone in inflight && inflight == old(inflight) + {task.zone})
        && (|old(refreshQueue)| < 2000 && task.zone !in old(inflight) ==> refreshQueue == old(refreshQueue) + [task])
        && (task.zone in old(inflight) ==> refreshQueue == old(refreshQueue))
      ensures Mirrors(w') && Leads(w, w') && w'.threads == w.threads[t := Idle] && w'.now <= later
    {
      hide FreshRecent, LastSet, StaleOr, Leads, cache.Abs, cache.Valid;
      var hit: bool;
      ghost var v, u: World;
      hit, r, w' := LookInCache(task, now, calculated, w, t);
      if hit { return; }
      v := SubmitRefresh(task, w', t);
      LeadsThrough(w, w', v);
      r, u := AnswerWithout(task, calculated, later, v, t);
      LeadsThrough(w, v, u);
      w' := u;
      assert w'.threads == w.threads[t := Idle];
    }

    /** A fresh entry, else whoever claims the zone fetches and everyone else answers without; the claim is given
        up again on every path. */
    method ResolveSync(task: Task, replies: seq<Reply>, calculated: Result, now: int, later: int, stored: int,
                       ghost w: World, ghost t: nat)
      returns (r: Result, ghost w': World)
      requires Mirrors(w) && sync && t < |w.threads| && w.threads[t] == Lookup(task)
      requires |replies| == w.clients && w.now <= now <= later <= stored
      modifies this, cache
      ensures refreshQueue == old(refreshQueue) && inflight == old(inflight)
      ensures SyncDone(old(cache.log), cache.log, cache.ttl, cache.maxSize, task.zone, old(task.zone in inflight),
                replies, calculated, now, later, stored, r)
      ensures Mirrors(w') && Leads(w, w') && w'.threads == w.threads[t := Idle] && w'.now <= stored
    {
      hide FreshRecent, LastSet, StaleOr, FetchDone, Leads, cache.Abs, cache.Valid;
      var hit: bool;
      ghost var v, u: World;
      hit, r, w' := LookInCache(task, now, calculated, w, t);
      if hit { return; }
      v := Go(w, w', Claim(t));
      var claimed := task.zone !in inflight;
      if !claimed {
        r, u := AnswerWithout(task, calculated, later, v, t);
        LeadsThrough(w, v, u);
        w' := u;
        cache.AbsIsHistory();
        assert w'.threads == w.threads[t := Idle];
        return;
      }
      inflight := inflight + {task.zone};
      r, u := FetchAndStore(task, replies, calculated, later, stored, v, t);
      LeadsThrough(w, v, u);
      w' := Go(w, u, Clear(t));
      inflight := inflight - {task.zone};
      assert inflight == old(inflight);
      assert w'.threads == w.threads[t := Idle];
    }
  }

  lemma LeadsThrough(w: World, v: World, u: World)
    requires Leads(w, v) && Leads(v, u)
    ensures Leads(w, u)
  {
    var a :| Run(w, a, v);
    var b :| Run(v, b, u);
    RunJoin(w, a, v, b, u);
  }

  lemma {:induction false} RunJoin(w: World, a: seq<Step>, v: World, b: seq<Step>, u: World)
    requires Run(w, a, v) && Run(v, b, u)
    ensures Run(w, a + b, u)
    decreases |a|
  {
    hide Enabled, Next;
    if a == [] {
      assert a + b == b;
    } else {
      assert (a + b)[1..] == a[1..] + b;
      RunJoin(Next(w, a[0]), a[1..], v, b, u);
    }
  }

  /** A stale answer is the stored result while it is less than 301 s old, else the calculation. */
  lemma StaleOrIs(l: Lru<Result>, zone: int, now: int, calculated: Result)
    ensures StaleOr(l, zone, now, calculated) ==
      if zone in l.entries && now - l.entries[zone].timestamp < 301000000000 then l.entries[zone].result else calculated
  {}

  /** What resolveSync does to the cache's history and returns. */
  ghost predicate SyncDone(h: seq<Op<Result>>, h': seq<Op<Result>>, ttl: int, maxSize: nat, zone: int, taken: bool,
                           replies: seq<Reply>, calculated: Result, now: int, later: int, stored: int, r: Result)
    requires maxSize >= 1
  {
    var asked := h + [Op.Get(zone, now)];
    if FreshRecent(h, zone, now, ttl, maxSize)
    then h' == asked && LastSet(h, zone, ttl).Some? && r == LastSet(h, zone, ttl).value.result
    else if taken
    then h' == asked + [Op.GetStale(zone, STALE_MAX_AGE_SEC, later)]
      && r == StaleOr(AfterAll(h', ttl, maxSize), zone, later, calculated)
    else FetchDone(asked, h', ttl, maxSize, zone, replies, calculated, later, stored, r)
  }

  lemma MissKeeps(l: Lru<Result>, zone: int, now: int)
    ensures !Hit(l, zone, now) ==> AfterGet(l, zone, now) == l
  {}

  /** From the second cache miss on: clients, then the store. */
  lemma Conclude(w: World, v: World, t: nat, task: Task, replies: seq<Reply>, k: nat, calculated: Result, later: int)
    returns (u: World)
    requires Leads(w, v) && v.maxSize >= 1 && t < |v.threads| && v.threads[t] == Calling(task, 0)
    requires k <= |replies| == v.clients && (forall j :: 0 <= j < k ==> !replies[j].Valid?)
    requires (k < |replies| ==> replies[k].Valid?)
    requires v.now <= later
    ensures Leads(w, u) && u.threads == v.threads[t := Clearing(task)] && u.now == later
    ensures u.sync == v.sync && u.ttl == v.ttl && u.maxSize == v.maxSize && u.inflight == v.inflight
    ensures u.queue == v.queue
    ensures var (r, ttlSec) := if k < |replies| then (ExternalToResult(replies[k].level), -1)
      else (calculated, FAILURE_TTL_SEC);
      u.cache == AfterSet(v.cache, task.zone, Entry(r, later, EffectiveTtl(ttlSec, v.ttl)), v.maxSize)
  {
    hide Run, AfterSet, AfterGet, Hit;
    u := TriesFail(w, v, t, replies, k);
    if k < |replies| { u := Go(w, u, Try(t, replies[k])); } else { u := Go(w, u, Fallback(t, calculated)); }
    u := Go(w, u, Tick(later));
    u := Go(w, u, Store(t));
  }

  function StaleOr(l: Lru<Result>, zone: int, now: int, calculated: Result): Result {
    match StaleHit(l, zone, STALE_MAX_AGE_SEC, now)
    case Some(x) => x
    case None => calculated
  }
}
