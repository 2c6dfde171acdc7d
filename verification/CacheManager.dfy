/**
 * The TTL/LRU cache of server/CacheManager.h. The class keeps the source's list of nodes and map with iterators;
 * it is proved against a cache of plain values (Lru), and that against the history of calls alone.
 */
module CacheManager {
  import opened Clock
  import opened Options

  /** Times are readings of the steady clock in nanoseconds. */
  datatype Entry<R> = Entry(result: R, timestamp: int, ttlSec: int)

  predicate Fresh<R>(e: Entry<R>, now: int) { Elapsed(now, e.timestamp) <= e.ttlSec }

  datatype Op<R> =
    | Get(zone: int, now: int)
    | GetStale(zone: int, maxAge: int, now: int)
    | Set(zone: int, result: R, ttlSec: int, now: int)

  // ---------------------------------------------------------------- sequences

  function Take<T>(s: seq<T>, n: nat): seq<T> { if |s| <= n then s else s[..n] }

  function Remove(s: seq<int>, z: int): seq<int> {
    if s == [] then [] else (if s[0] == z then [] else [s[0]]) + Remove(s[1..], z)
  }

  ghost predicate Distinct<T>(s: seq<T>) { forall i, j :: 0 <= i < j < |s| ==> s[i] != s[j] }

  lemma {:induction false} RemoveElements(s: seq<int>, z: int)
    requires Distinct(s)
    ensures Distinct(Remove(s, z)) && forall x :: x in Remove(s, z) <==> x in s && x != z
    ensures |Remove(s, z)| == |s| - (if z in s then 1 else 0)
    ensures z !in s ==> Remove(s, z) == s
  {
    if s != [] {
      RemoveElements(s[1..], z);
      assert s == [s[0]] + s[1..];
      assert s[0] !in s[1..];
    }
  }

  lemma TakeCons<T>(x: T, s: seq<T>, m: nat)
    requires m >= 1
    ensures Take([x] + s, m) == [x] + Take(s, m - 1)
  {}

  lemma RemoveCons(x: int, s: seq<int>, z: int)
    ensures Remove([x] + s, z) == (if x == z then [] else [x]) + Remove(s, z)
  {
    assert ([x] + s)[1..] == s;
  }

  /** Moving z to the front of a distinct list and cutting at m is moving it to the front of the cut list. */
  lemma {:induction false} TakeRemove(s: seq<int>, z: int, m: nat)
    requires Distinct(s) && m >= 1
    ensures Take(Remove(s, z), m - 1) == if z in Take(s, m) then Remove(Take(s, m), z) else Take(s, m - 1)
  {
    if s != [] {
      var x, r := s[0], s[1..];
      assert s == [x] + r;
      TakeCons(x, r, m);
      RemoveCons(x, r, z);
      RemoveCons(x, Take(r, m - 1), z);
      RemoveElements(r, z);
      if x == z {
        RemoveElements(Take(r, m - 1), z);
      } else if m > 1 {
        TakeRemove(r, z, m - 1);
        TakeCons(x, r, m - 1);
        TakeCons(x, Remove(r, z), m - 1);
      }
    }
  }

  // ---------------------------------------------------------------- the cache as a value

  /** Zones from most to least recently used, and what is stored for each. */
  datatype Lru<R> = Lru(order: seq<int>, entries: map<int, Entry<R>>)

  predicate Hit<R>(l: Lru<R>, z: int, now: int) { z in l.entries && Fresh(l.entries[z], now) }

  function AfterGet<R>(l: Lru<R>, z: int, now: int): Lru<R> {
    if Hit(l, z, now) then l.(order := [z] + Remove(l.order, z)) else l
  }

  function StaleHit<R>(l: Lru<R>, z: int, maxAge: int, now: int): Option<R> {
    if z in l.entries && Elapsed(now, l.entries[z].timestamp) <= maxAge then Some(l.entries[z].result) else None
  }

  /** Keep only the entries of the given zones. */
  function Restrict<R>(entries: map<int, Entry<R>>, zones: seq<int>): (r: map<int, Entry<R>>)
    ensures forall z :: z in r <==> z in entries && z in zones
    ensures forall z :: z in r ==> r[z] == entries[z]
  {
    map z | z in entries && z in zones :: entries[z]
  }

  function AfterSet<R>(l: Lru<R>, z: int, e: Entry<R>, maxSize: nat): Lru<R>
    requires maxSize >= 1
  {
    if z in l.entries then Lru([z] + Remove(l.order, z), l.entries[z := e])
    else
      var kept := Take(l.order, maxSize - 1);
      Lru([z] + kept, Restrict(l.entries, kept)[z := e])
  }

  /** A set puts its zone first with its entry, and drops at most the least recent of a full cache. */
  lemma SetEffects<R>(l: Lru<R>, z: int, e: Entry<R>, maxSize: nat)
    requires maxSize >= 1 && Distinct(l.order) && |l.order| <= maxSize && forall x :: x in l.entries <==> x in l.order
    ensures var t := AfterSet(l, z, e, maxSize);
      && z in t.entries && t.entries[z] == e && t.order != [] && t.order[0] == z && |t.order| <= maxSize
      && (forall x :: x in t.entries && x != z ==> x in l.entries && t.entries[x] == l.entries[x])
      && (forall x :: x in l.entries && x !in t.entries ==>
            z !in l.entries && |l.order| == maxSize && x == l.order[maxSize - 1])
  {
    hide Restrict, Remove;
    RemoveElements(l.order, z);
  }

  function AfterOp<R>(l: Lru<R>, op: Op<R>, ttl: int, maxSize: nat): Lru<R>
    requires maxSize >= 1
  {
    match op
    case Get(z, now) => AfterGet(l, z, now)
    case GetStale(_, _, _) => l
    case Set(z, r, t, now) => AfterSet(l, z, Entry(r, now, if t < 0 then ttl else t), maxSize)
  }

  /** The cache after a history of calls, oldest first. */
  function AfterAll<R>(h: seq<Op<R>>, ttl: int, maxSize: nat): Lru<R>
    requires maxSize >= 1
  {
    if h == [] then Lru([], map[]) else AfterOp(AfterAll(h[..|h| - 1], ttl, maxSize), h[|h| - 1], ttl, maxSize)
  }

  // ---------------------------------------------------------------- the same, from the history alone

  /** The most recent set of a zone. */
  function LastSet<R>(h: seq<Op<R>>, z: int, ttl: int): Option<Entry<R>> {
    if h == [] then None
    else
      var op := h[|h| - 1];
      if op.Set? && op.zone == z then Some(Entry(op.result, op.now, if op.ttlSec < 0 then ttl else op.ttlSec))
      else LastSet(h[..|h| - 1], z, ttl)
  }

  /** First occurrences only. */
  function Dedup(ts: seq<int>): seq<int> {
    if ts == [] then [] else [ts[0]] + Remove(Dedup(ts[1..]), ts[0])
  }

  /** The zones touched by effective calls, most recent first: every set, and every get that finds a fresh entry
      of a zone among the maxSize most recently touched. */
  function Touches<R>(h: seq<Op<R>>, ttl: int, maxSize: nat): seq<int>
    decreases |h|, 0
  {
    if h == [] then []
    else
      var h', op := h[..|h| - 1], h[|h| - 1];
      match op
      case Set(z, _, _, _) => [z] + Touches(h', ttl, maxSize)
      case Get(z, now) => (if FreshRecent(h', z, now, ttl, maxSize) then [z] else []) + Touches(h', ttl, maxSize)
      case GetStale(_, _, _) => Touches(h', ttl, maxSize)
  }

  predicate FreshRecent<R>(h: seq<Op<R>>, z: int, now: int, ttl: int, maxSize: nat)
    decreases |h|, 1
  {
    && z in Take(Dedup(Touches(h, ttl, maxSize)), maxSize)
    && LastSet(h, z, ttl).Some? && Fresh(LastSet(h, z, ttl).value, now)
  }

  lemma {:induction false} DedupDistinct(ts: seq<int>)
    ensures Distinct(Dedup(ts))
  {
    if ts != [] {
      DedupDistinct(ts[1..]);
      RemoveElements(Dedup(ts[1..]), ts[0]);
    }
  }

  ghost predicate Matches<R>(l: Lru<R>, h: seq<Op<R>>, ttl: int, maxSize: nat) {
    && l.order == Take(Dedup(Touches(h, ttl, maxSize)), maxSize)
    && (forall z :: z in l.entries <==> z in l.order)
    && (forall z :: z in l.entries ==> LastSet(h, z, ttl) == Some(l.entries[z]))
  }

  /** What touching z does to the list of the maxSize most recent zones. */
  lemma TouchOrder(ts: seq<int>, z: int, maxSize: nat)
    requires maxSize >= 1
    ensures var order := Take(Dedup(ts), maxSize);
      Take(Dedup([z] + ts), maxSize) == [z] + (if z in order then Remove(order, z) else Take(order, maxSize - 1))
  {
    DedupDistinct(ts);
    TakeRemove(Dedup(ts), z, maxSize);
    assert ([z] + ts)[1..] == ts;
    var rest := Remove(Dedup(ts), z);
    assert Take([z] + rest, maxSize) == [z] + Take(rest, maxSize - 1);
  }

  lemma SetMatches<R>(l: Lru<R>, h: seq<Op<R>>, op: Op<R>, ttl: int, maxSize: nat)
    requires maxSize >= 1 && Matches(l, h, ttl, maxSize) && op.Set?
    ensures Matches(AfterOp(l, op, ttl, maxSize), h + [op], ttl, maxSize)
  {
    hide Restrict, Dedup, Remove, FreshRecent;
    var z, ts := op.zone, Touches(h, ttl, maxSize);
    assert (h + [op])[..|h|] == h;
    TouchOrder(ts, z, maxSize);
    DedupDistinct(ts);
    RemoveElements(l.order, z);
    assert Touches(h + [op], ttl, maxSize) == [z] + ts;
  }

  lemma GetMatches<R>(l: Lru<R>, h: seq<Op<R>>, op: Op<R>, ttl: int, maxSize: nat)
    requires maxSize >= 1 && Matches(l, h, ttl, maxSize) && !op.Set?
    ensures Matches(AfterOp(l, op, ttl, maxSize), h + [op], ttl, maxSize)
  {
    assert (h + [op])[..|h|] == h;
    if op.Get? {
      var z, ts := op.zone, Touches(h, ttl, maxSize);
      DedupDistinct(ts);
      RemoveElements(l.order, z);
      if Hit(l, z, op.now) {
        TouchOrder(ts, z, maxSize);
        assert Touches(h + [op], ttl, maxSize) == [z] + ts;
      } else {
        assert Touches(h + [op], ttl, maxSize) == ts;
      }
    }
  }

  /**
   * The cache is its history: the order is the effective touches without repetition, most recent first, cut at
   * maxSize; exactly those zones are stored, each with its last set; so a get hits iff its zone is among them and
   * that set is fresh, and returns that set's result.
   */
  lemma {:induction false} CacheIsHistory<R>(h: seq<Op<R>>, ttl: int, maxSize: nat)
    requires maxSize >= 1
    ensures Matches(AfterAll(h, ttl, maxSize), h, ttl, maxSize)
    ensures Distinct(AfterAll(h, ttl, maxSize).order) && |AfterAll(h, ttl, maxSize).order| <= maxSize
    ensures forall z, now :: Hit(AfterAll(h, ttl, maxSize), z, now) <==> FreshRecent(h, z, now, ttl, maxSize)
  {
    DedupDistinct(Touches(h, ttl, maxSize));
    if h != [] {
      CacheIsHistory(h[..|h| - 1], ttl, maxSize);
      assert h == h[..|h| - 1] + [h[|h| - 1]];
      if h[|h| - 1].Set? {
        SetMatches(AfterAll(h[..|h| - 1], ttl, maxSize), h[..|h| - 1], h[|h| - 1], ttl, maxSize);
      } else {
        GetMatches(AfterAll(h[..|h| - 1], ttl, maxSize), h[..|h| - 1], h[|h| - 1], ttl, maxSize);
      }
    }
  }

  // ---------------------------------------------------------------- the class

  /** A list node; its id stands for the address that a std::list iterator holds. */
  datatype Node = Node(id: nat, zone: int)

  /** A map value: the entry and the iterator to the zone's node. */
  datatype Slot<R> = Slot(entry: Entry<R>, it: nat)

  function Zones(order: seq<Node>): (r: seq<int>)
    ensures |r| == |order| && forall i :: 0 <= i < |r| ==> r[i] == order[i].zone
  {
    seq(|order|, i requires 0 <= i < |order| => order[i].zone)
  }

  function Entries<R>(cache: map<int, Slot<R>>): (r: map<int, Entry<R>>)
    ensures forall z :: z in r <==> z in cache
    ensures forall z :: z in r ==> r[z] == cache[z].entry
  {
    map z | z in cache :: cache[z].entry
  }

  /** list::erase of one iterator. */
  function Erase(order: seq<Node>, it: nat): seq<Node> {
    if order == [] then [] else (if order[0].id == it then [] else [order[0]]) + Erase(order[1..], it)
  }

  lemma {:induction false} EraseZones(order: seq<Node>, it: nat, z: int)
    requires forall i :: 0 <= i < |order| ==> (order[i].id == it <==> order[i].zone == z)
    ensures Zones(Erase(order, it)) == Remove(Zones(order), z)
  {
    if order != [] {
      EraseZones(order[1..], it, z);
      assert Zones(order)[1..] == Zones(order[1..]);
    }
  }

  lemma {:induction false} EraseElements(order: seq<Node>, it: nat)
    requires DistinctIds(order)
    ensures forall n :: n in Erase(order, it) ==> n in order && n.id != it
    ensures DistinctIds(Erase(order, it))
  {
    if order != [] {
      EraseElements(order[1..], it);
      forall i | 0 <= i < |Erase(order[1..], it)| ensures Erase(order[1..], it)[i].id != order[0].id {
        assert Erase(order[1..], it)[i] in order[1..];
      }
    }
  }

  lemma NoZoneLeft(order: seq<Node>, it: nat, z: int)
    requires forall i :: 0 <= i < |order| ==> (order[i].id == it <==> order[i].zone == z)
    requires DistinctIds(order)
    ensures forall n :: n in Erase(order, it) ==> n.zone != z
  {
    EraseElements(order, it);
  }

  ghost predicate DistinctIds(order: seq<Node>) {
    forall i, j :: 0 <= i < j < |order| ==> order[i].id != order[j].id
  }

  lemma {:induction false} DistinctSize<R>(zones: seq<int>, cache: map<int, Slot<R>>)
    requires Distinct(zones) && forall z :: z in cache <==> z in zones
    ensures |cache| == |zones|
  {
    if zones == [] {
      assert forall z :: z in cache ==> z in zones;
      assert cache.Keys == {};
    } else {
      var n := |zones| - 1;
      var last := zones[n];
      assert zones == zones[..n] + [last];
      assert last in cache;
      DistinctSize(zones[..n], cache - {last});
      assert (cache - {last}).Keys == cache.Keys - {last};
    }
  }

  /** A smaller map that agrees with a larger one is the larger one's restriction to its keys. */
  lemma Restricted<R>(small: map<int, Slot<R>>, big: map<int, Slot<R>>, zones: seq<int>)
    requires forall z :: z in small <==> z in zones
    requires forall z :: z in small ==> z in big && small[z] == big[z]
    ensures Entries(small) == Restrict(Entries(big), zones)
  {
    var a, b := Entries(small), Restrict(Entries(big), zones);
    forall z ensures z in a.Keys <==> z in b.Keys {}
    forall z | z in a ensures a[z] == b[z] {}
  }

  lemma DropLast(order: seq<Node>)
    requires |order| > 0 && Distinct(Zones(order))
    ensures var k := |order| - 1;
      && Zones(order[..k]) == Zones(order)[..k] && Distinct(Zones(order[..k]))
      && (forall z :: z in Zones(order[..k]) <==> z in Zones(order) && z != order[k].zone)
      && (forall n :: n in order[..k] ==> n in order && n.zone != order[k].zone)
  {
    var k := |order| - 1;
    var zs := Zones(order);
    assert zs == zs[..k] + [order[k].zone];
    assert Zones(order[..k]) == zs[..k];
    forall n | n in order[..k] ensures n in order && n.zone != order[k].zone {
      var i :| 0 <= i < k && order[i] == n;
      assert zs[i] == n.zone;
    }
  }

  class Cache<R> {
    const ttl: int
    const maxSize: int
    var lruOrder: seq<Node>
    var cache: map<int, Slot<R>>
    var nextId: nat
    ghost var log: seq<Op<R>>      // the calls so far

    ghost function Abs(): Lru<R>
      reads this
    {
      Lru(Zones(lruOrder), Entries(cache))
    }

    /** Every iterator in the map points to the node of its own zone, and every node is pointed to. */
    ghost predicate Iterators()
      reads this`lruOrder, this`cache, this`nextId
    {
      && DistinctIds(lruOrder)
      && (forall n :: n in lruOrder ==> n.id < nextId && n.zone in cache && cache[n.zone].it == n.id)
    }

    ghost predicate Valid()
      reads this
    {
      maxSize >= 1 && Iterators() && Abs() == AfterAll(log, ttl, maxSize)
    }

    constructor (ttlSeconds: int, size: int)
      ensures Iterators() && Abs() == Lru([], map[]) && log == [] && ttl == ttlSeconds && maxSize == size
      ensures Valid() <==> size >= 1
    {
      ttl, maxSize := ttlSeconds, size;
      lruOrder, cache, nextId := [], map[], 0;
      log := [];
    }

    lemma AbsIsHistory()
      requires Valid()
      ensures maxSize >= 1 && Abs() == AfterAll(log, ttl, maxSize)
    {}

    /** What the history says about list and map. */
    lemma Shape()
      requires Valid()
      ensures Distinct(Zones(lruOrder)) && |lruOrder| <= maxSize
      ensures Keeps(cache)
    {
      CacheIsHistory(log, ttl, maxSize);
    }

    lemma LogAppend(op: Op<R>)
      requires maxSize >= 1
      ensures AfterAll(log + [op], ttl, maxSize) == AfterOp(AfterAll(log, ttl, maxSize), op, ttl, maxSize)
    {
      assert (log + [op])[..|log|] == log;
    }

    /** The iterator of a stored zone selects exactly the zone's node. */
    lemma IteratorOf(zone: int)
      requires Iterators() && zone in cache && zone in Zones(lruOrder)
      ensures forall i :: 0 <= i < |lruOrder| ==> (lruOrder[i].id == cache[zone].it <==> lruOrder[i].zone == zone)
    {
      var k :| 0 <= k < |lruOrder| && Zones(lruOrder)[k] == zone;
      assert lruOrder[k] in lruOrder;
      forall i | 0 <= i < |lruOrder| ensures lruOrder[i].id == cache[zone].it <==> lruOrder[i].zone == zone {
        assert lruOrder[i] in lruOrder;
      }
    }

    /** Moves the node of a stored zone to the front and stores e for it. */
    method MoveToFront(zone: int, e: Entry<R>)
      requires Iterators() && zone in cache && zone in Zones(lruOrder)
      modifies this`lruOrder, this`cache, this`nextId
      ensures Iterators()
      ensures Abs() == Lru([zone] + Remove(old(Zones(lruOrder)), zone), old(Entries(cache))[zone := e])
    {
      hide Erase, Remove;
      var it := cache[zone].it;
      IteratorOf(zone);
      EraseZones(lruOrder, it, zone);
      EraseElements(lruOrder, it);
      NoZoneLeft(lruOrder, it, zone);
      lruOrder := Erase(lruOrder, it);
      lruOrder := PushFront(zone);
      cache := cache[zone := Slot(e, nextId)];
      nextId := nextId + 1;
    }

    function PushFront(zone: int): (r: seq<Node>)
      reads this
      ensures r == [Node(nextId, zone)] + lruOrder && Zones(r) == [zone] + Zones(lruOrder)
    {
      [Node(nextId, zone)] + lruOrder
    }

    /** What looking a zone up finds, in terms of the history. */
    lemma Lookup(zone: int, now: int)
      requires Valid()
      ensures zone in cache && Fresh(cache[zone].entry, now) <==> FreshRecent(log, zone, now, ttl, maxSize)
      ensures zone in cache <==> zone in Zones(lruOrder)
      ensures zone in cache ==> LastSet(log, zone, ttl) == Some(cache[zone].entry)
    {
      CacheIsHistory(log, ttl, maxSize);
      var l := AfterAll(log, ttl, maxSize);
      assert Hit(l, zone, now) <==> FreshRecent(log, zone, now, ttl, maxSize);
      assert zone in cache ==> l.entries[zone] == cache[zone].entry;
    }

    /** A fresh entry is a hit and becomes the most recent; anything else is a miss and changes nothing. */
    method Get(zone: int, now: int, prev: R) returns (hit: bool, result: R)
      requires Valid()
      modifies this
      ensures Valid() && log == old(log) + [Op.Get(zone, now)]
      ensures Abs() == AfterGet(old(Abs()), zone, now) && (hit <==> Hit(old(Abs()), zone, now))
      ensures hit <==> FreshRecent(old(log), zone, now, ttl, maxSize)
      ensures hit ==> LastSet(old(log), zone, ttl).Some? && result == LastSet(old(log), zone, ttl).value.result
      ensures !hit ==> result == prev && lruOrder == old(lruOrder) && cache == old(cache)
      ensures hit ==> Zones(lruOrder) == [zone] + Remove(old(Zones(lruOrder)), zone)
      ensures hit ==> zone in old(cache) && result == old(cache)[zone].entry.result
      ensures Entries(cache) == old(Entries(cache))
      ensures zone in old(cache) && old(cache)[zone].entry.ttlSec >= 0 ==>
        var e := old(cache)[zone].entry;
        (hit <==> now - e.timestamp < (e.ttlSec + 1) * 1000000000)
    {
      hide AfterAll, FreshRecent, LastSet, Elapsed;
      Lookup(zone, now);
      LogAppend(Op.Get(zone, now));
      hit, result := false, prev;
      log := log + [Op.Get(zone, now)];
      if zone !in cache { return; }
      var e := cache[zone].entry;
      ElapsedIs(now, e.timestamp, e.ttlSec);
      if Elapsed(now, e.timestamp) > e.ttlSec { return; }
      MoveToFront(zone, e);
      assert old(Entries(cache))[zone := e] == old(Entries(cache));
      hit, result := true, e.result;
    }

    /** An entry of at most the given age, expired or not; the order stays as it is. */
    method GetStale(zone: int, maxAgeSec: int, now: int, prev: R) returns (hit: bool, result: R)
      requires Valid()
      modifies this`log
      ensures Valid() && log == old(log) + [Op.GetStale(zone, maxAgeSec, now)]
      ensures Abs() == old(Abs()) && StaleHit(Abs(), zone, maxAgeSec, now) == if hit then Some(result) else None
      ensures maxAgeSec >= 0 ==>
        (hit <==> zone in cache && now - cache[zone].entry.timestamp < (maxAgeSec + 1) * 1000000000)
      ensures if hit then zone in cache && result == cache[zone].entry.result else result == prev
      ensures hit ==> LastSet(old(log), zone, ttl).Some? && result == LastSet(old(log), zone, ttl).value.result
    {
      hide AfterAll, LastSet, Elapsed;
      Lookup(zone, now);
      LogAppend(Op.GetStale(zone, maxAgeSec, now));
      log := log + [Op.GetStale(zone, maxAgeSec, now)];
      if zone !in cache { return false, prev; }
      var e := cache[zone].entry;
      ElapsedIs(now, e.timestamp, maxAgeSec);
      if Elapsed(now, e.timestamp) > maxAgeSec { return false, prev; }
      return true, e.result;
    }

    /** The map keeps what it had for exactly the listed zones. */
    ghost predicate Keeps(was: map<int, Slot<R>>)
      reads this
    {
      && (forall z :: z in cache <==> z in Zones(lruOrder))
      && (forall z :: z in cache ==> z in was && cache[z] == was[z])
    }

    method EvictIfNeeded()
      requires maxSize >= 1 && Iterators() && Distinct(Zones(lruOrder)) && Keeps(cache)
      modifies this`lruOrder, this`cache
      ensures Iterators()
      ensures Zones(lruOrder) == Take(old(Zones(lruOrder)), maxSize - 1)
      ensures Entries(cache) == Restrict(old(Entries(cache)), Zones(lruOrder))
      ensures Keeps(old(cache))
    {
      hide Restrict, Iterators, Entries, Keeps, Distinct;
      ghost var was, zs := cache, Zones(lruOrder);
      Sized();
      while |cache| >= maxSize
        invariant |cache| == |lruOrder| <= |zs|
        invariant |lruOrder| == |zs| || |lruOrder| >= maxSize - 1
        invariant Zones(lruOrder) == zs[..|lruOrder|]
        invariant Distinct(Zones(lruOrder)) && Iterators() && Keeps(was)
        decreases |lruOrder|
      {
        EvictOldest(was);
      }
      Restriction(was);
    }

    lemma Sized()
      requires Distinct(Zones(lruOrder)) && Keeps(cache)
      ensures |cache| == |lruOrder|
    {
      DistinctSize(Zones(lruOrder), cache);
    }

    lemma Restriction(was: map<int, Slot<R>>)
      requires Keeps(was)
      ensures Entries(cache) == Restrict(Entries(was), Zones(lruOrder))
    {
      Restricted(cache, was, Zones(lruOrder));
    }

    /** Drops the last node and its map entry. */
    method EvictOldest(ghost was: map<int, Slot<R>>)
      requires Iterators() && |lruOrder| > 0 && Distinct(Zones(lruOrder)) && Keeps(was)
      modifies this`lruOrder, this`cache
      ensures |lruOrder| == |old(lruOrder)| - 1 && Zones(lruOrder) == old(Zones(lruOrder))[..|lruOrder|]
      ensures Iterators() && Distinct(Zones(lruOrder)) && Keeps(was) && |cache| == old(|cache|) - 1
    {
      var k := |lruOrder| - 1;
      var oldest := lruOrder[k].zone;
      ghost var zs := Zones(lruOrder);
      DropLast(lruOrder);
      assert oldest in cache && (cache - {oldest}).Keys == cache.Keys - {oldest};
      lruOrder := lruOrder[..k];
      cache := cache - {oldest};
    }

    /** Stores a result; a zone not yet stored first makes room by dropping the least recent ones. */
    method Set(zone: int, r: R, ttlSec: int, now: int)
      requires Valid()
      modifies this
      ensures Valid() && log == old(log) + [Op.Set(zone, r, ttlSec, now)]
      ensures Abs() == AfterSet(old(Abs()), zone, Entry(r, now, if ttlSec < 0 then ttl else ttlSec), maxSize)
      ensures zone in cache && cache[zone].entry == Entry(r, now, if ttlSec < 0 then ttl else ttlSec)
      ensures lruOrder != [] && Zones(lruOrder)[0] == zone && |lruOrder| <= maxSize
      ensures forall z :: z in cache && z != zone ==> z in old(cache) && cache[z].entry == old(cache)[z].entry
      ensures forall z :: z in old(cache) && z !in cache ==>
        zone !in old(cache) && |old(lruOrder)| == maxSize && z == old(Zones(lruOrder))[maxSize - 1]
    {
      hide AfterAll, AfterSet, Iterators, Distinct;
      Shape();
      SetEffects(Abs(), zone, Entry(r, now, if ttlSec < 0 then ttl else ttlSec), maxSize);
      LogAppend(Op.Set(zone, r, ttlSec, now));
      Store(zone, Entry(r, now, if ttlSec < 0 then ttl else ttlSec));
      log := log + [Op.Set(zone, r, ttlSec, now)];
    }

    method Store(zone: int, e: Entry<R>)
      requires maxSize >= 1 && Iterators() && Distinct(Zones(lruOrder)) && Keeps(cache)
      modifies this`lruOrder, this`cache, this`nextId
      ensures Iterators() && Abs() == AfterSet(old(Abs()), zone, e, maxSize)
    {
      hide Iterators, Take, Restrict, Distinct;
      if zone in cache {
        MoveToFront(zone, e);
      } else {
        EvictIfNeeded();
        AddFront(zone, e);
      }
    }

    method AddFront(zone: int, e: Entry<R>)
      requires Iterators() && zone !in cache
      modifies this`lruOrder, this`cache, this`nextId
      ensures Iterators() && Abs() == Lru([zone] + old(Zones(lruOrder)), old(Entries(cache))[zone := e])
    {
      lruOrder := PushFront(zone);
      cache := cache[zone := Slot(e, nextId)];
      nextId := nextId + 1;
    }
  }
}
