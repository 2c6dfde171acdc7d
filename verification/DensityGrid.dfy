/**
 * The density grid (server/SpatialHash.h, GridZone.h, SpatialDensityEngine.h): cells in 1024 stripes, each cell with a
 * window of location events and of Bluetooth counts. It is proved against flat lists of events without stripes or
 * cells. Coordinates are reals and times are nanoseconds of one clock.
 */
module DensityGrid {
  import opened Clock

  const NUM_STRIPES: nat := 1024
  const WINDOW_SEC := 300
  const GRID_SIZE: real := 0.001
  const TWO32: int := 0x1_0000_0000
  const TWO64: int := 0x1_0000_0000_0000_0000

  // ---------------------------------------------------------------- keys

  function GridIndex(x: real): int { (x / GRID_SIZE).Floor }

  predicate Is32(i: int) { -0x8000_0000 <= i < 0x8000_0000 }

  /** The signed reading of 64 bits. */
  function Signed64(u: int): int { if u >= TWO64 / 2 then u - TWO64 else u }

  /** (latIdx << 32) | uint32(lonIdx): the low 32 bits of each index, latitude above longitude. */
  function Key(latIdx: int, lonIdx: int): int { Signed64((latIdx % TWO32) * TWO32 + lonIdx % TWO32) }

  function GenerateKey(lat: real, lon: real): int { Key(GridIndex(lat), GridIndex(lon)) }

  /** The key as an unsigned 64-bit number, modulo the number of stripes. */
  function Stripe(key: int): (i: nat)
    ensures i < NUM_STRIPES
  {
    (key % TWO64) % NUM_STRIPES
  }

  /** The index of a coordinate is the whole number of cells of 0.001 degrees below it. */
  lemma GridIndexIs(x: real)
    ensures GridIndex(x) as real <= x * 1000.0 < GridIndex(x) as real + 1.0
  {
    assert x / GRID_SIZE == x * 1000.0;
  }

  /** The latitude's low 32 bits lie above the longitude's. */
  lemma KeyParts(i: int, j: int)
    ensures Key(i, j) % TWO32 == j % TWO32 && (Key(i, j) / TWO32) % TWO32 == i % TWO32
    ensures -TWO64 / 2 <= Key(i, j) < TWO64 / 2
  {}

  /** What the packing keeps, and all that it loses. */
  lemma SameKeyIff(i: int, j: int, i': int, j': int)
    ensures Key(i, j) == Key(i', j') <==> i % TWO32 == i' % TWO32 && j % TWO32 == j' % TWO32
  {}

  /** Packing is injective on indices of 32 bits. */
  lemma KeyInjective(i: int, j: int, i': int, j': int)
    requires Is32(i) && Is32(j) && Is32(i') && Is32(j') && Key(i, j) == Key(i', j')
    ensures i == i' && j == j'
  {
    SameKeyIff(i, j, i', j');
    hide Key;
  }

  /** Beyond 32 bits it is not, in either index: these cells share the key of cell (0, 0). */
  lemma KeyCollides()
    ensures Key(0, 0) == Key(0, TWO32) == Key(TWO32, 0) && !Is32(TWO32)
  {}

  /** The keys of a cell and its eight neighbours. */
  function Near(i: int, j: int): set<int> {
    Row(i - 1, j) + Row(i, j) + Row(i + 1, j)
  }

  function Row(i: int, j: int): set<int> { {Key(i, j - 1), Key(i, j), Key(i, j + 1)} }

  /** A cell is counted for a place exactly when both its indices are within 1 of the place's, in 32 bits. */
  lemma NearIff(i: int, j: int, i': int, j': int)
    ensures Key(i', j') in Near(i, j) <==> (i' - i + 1) % TWO32 <= 2 && (j' - j + 1) % TWO32 <= 2
  {
    hide Key, Row;
    InRow(i - 1, j, i', j');
    InRow(i, j, i', j');
    InRow(i + 1, j, i', j');
    WithinOne(i, i');
  }

  lemma InRow(i: int, j: int, i': int, j': int)
    ensures Key(i', j') in Row(i, j) <==> i % TWO32 == i' % TWO32 && (j' - j + 1) % TWO32 <= 2
  {
    hide Key;
    SameKeyIff(i, j - 1, i', j');
    SameKeyIff(i, j, i', j');
    SameKeyIff(i, j + 1, i', j');
    WithinOne(j, j');
  }

  lemma WithinOne(k: int, k': int)
    ensures (k' - k + 1) % TWO32 <= 2 <==>
      (k - 1) % TWO32 == k' % TWO32 || k % TWO32 == k' % TWO32 || (k + 1) % TWO32 == k' % TWO32
  {
    Residue(k - 1, k', 0);
    Residue(k - 1, k', 1);
    Residue(k - 1, k', 2);
  }

  lemma Residue(i: int, j: int, d: nat)
    requires d < TWO32
    ensures (j - i) % TWO32 == d <==> (i + d) % TWO32 == j % TWO32
  {}

  /** With indices of 32 bits these are the cell itself and its eight neighbours. */
  lemma NearIsNeighbours(i: int, j: int, i': int, j': int)
    requires Is32(i - 1) && Is32(i + 1) && Is32(j - 1) && Is32(j + 1) && Is32(i') && Is32(j')
    ensures Key(i', j') in Near(i, j) <==> -1 <= i - i' <= 1 && -1 <= j - j' <= 1
  {
    NearIff(i, j, i', j');
    hide Key, Near;
  }

  lemma ThreeApart(k: int)
    ensures (k - 1) % TWO32 != k % TWO32 && k % TWO32 != (k + 1) % TWO32 && (k - 1) % TWO32 != (k + 1) % TWO32
  {}

  /** Whatever the indices, the nine keys are distinct. */
  lemma NineDistinct(i: int, j: int)
    ensures |Near(i, j)| == 9
  {
    hide Row;
    RowOfThree(i - 1, j);
    RowOfThree(i, j);
    RowOfThree(i + 1, j);
    ThreeApart(i);
    RowsDisjoint(i - 1, i, j);
    RowsDisjoint(i - 1, i + 1, j);
    RowsDisjoint(i, i + 1, j);
    assert (Row(i - 1, j) + Row(i, j)) !! Row(i + 1, j);
  }

  lemma RowOfThree(i: int, j: int)
    ensures |Row(i, j)| == 3
  {
    hide Key;
    ThreeApart(j);
    SameKeyIff(i, j - 1, i, j);
    SameKeyIff(i, j, i, j + 1);
    SameKeyIff(i, j - 1, i, j + 1);
  }

  lemma RowsDisjoint(i: int, i': int, j: int)
    requires i % TWO32 != i' % TWO32
    ensures Row(i, j) !! Row(i', j)
  {
    hide Key;
    forall a, b | j - 1 <= a <= j + 1 && j - 1 <= b <= j + 1
      ensures Key(i, a) != Key(i', b)
    {
      SameKeyIff(i, a, i', b);
    }
  }

  /** Stepping one cell size moves the index by one. */
  lemma StepIndex(x: real, n: nat)
    requires n < 3
    ensures GridIndex(x + Offset(n)) == GridIndex(x) + n - 1
  {
    if n == 0 {
      assert Offset(0) == -GRID_SIZE;
    } else if n == 1 {
      assert Offset(1) == 0.0;
    } else {
      assert Offset(2) == GRID_SIZE;
    }
  }

  // ---------------------------------------------------------------- one cell

  /** A user and when; or a device count and when. */
  datatype Item = Item(value: int, ts: int)

  datatype Zone = Zone(events: seq<Item>, ble: seq<Item>)

  const EMPTY := Zone([], [])

  predicate Expired(ts: int, now: int) { Elapsed(now, ts) > WINDOW_SEC }

  /** Ages are cut to whole seconds, so the window ends at 301 s. */
  lemma ExpiredIs(ts: int, now: int)
    ensures Expired(ts, now) <==> now - ts >= 301000000000
  {}

  /** Expired items at the front are dropped, up to the first that has not expired. */
  function Drop(s: seq<Item>, now: int): seq<Item> {
    if s != [] && Expired(s[0].ts, now) then Drop(s[1..], now) else s
  }

  function Live(s: seq<Item>, now: int): seq<Item> {
    if s == [] then [] else (if Expired(s[0].ts, now) then [] else [s[0]]) + Live(s[1..], now)
  }

  function MaxValue(s: seq<Item>): nat {
    if s == [] then 0
    else
      var rest := MaxValue(s[..|s| - 1]);
      if s[|s| - 1].value > rest then s[|s| - 1].value else rest
  }

  function Cleaned(z: Zone, now: int): Zone { Zone(Drop(z.events, now), Drop(z.ble, now)) }

  /** No expired item waits behind one that has not expired. */
  ghost predicate NoneHidden(s: seq<Item>, now: int) {
    forall i, j :: 0 <= i < j < |s| && Expired(s[j].ts, now) ==> Expired(s[i].ts, now)
  }

  lemma {:induction false} LiveIsAll(s: seq<Item>, now: int)
    ensures |Live(s, now)| <= |s|
    ensures Live(s, now) == s <==> forall i :: 0 <= i < |s| ==> !Expired(s[i].ts, now)
  {
    if s != [] {
      LiveIsAll(s[1..], now);
      assert forall i :: 1 <= i < |s| ==> s[i] == s[1..][i - 1];
      if Expired(s[0].ts, now) {
        assert |Live(s, now)| < |s|;
      } else {
        assert s == [s[0]] + s[1..];
        assert Live(s, now)[1..] == Live(s[1..], now);
      }
    }
  }

  /** cleanup leaves exactly the unexpired items if and only if no expired one is hidden. */
  lemma {:induction false} CleanupExactIff(s: seq<Item>, now: int)
    ensures Drop(s, now) == Live(s, now) <==> NoneHidden(s, now)
  {
    hide Expired;
    if s != [] {
      var rest := s[1..];
      assert forall i :: 1 <= i < |s| ==> s[i] == rest[i - 1];
      if Expired(s[0].ts, now) {
        CleanupExactIff(rest, now);
        HiddenInRest(s, now);
      } else {
        LiveIsAll(s, now);
      }
    }
  }

  lemma HiddenInRest(s: seq<Item>, now: int)
    requires s != [] && Expired(s[0].ts, now)
    ensures NoneHidden(s, now) <==> NoneHidden(s[1..], now)
  {
    hide Expired;
    var rest := s[1..];
    if NoneHidden(rest, now) {
      forall i, j | 0 <= i < j < |s| && Expired(s[j].ts, now) ensures Expired(s[i].ts, now) {
        if i > 0 { assert Expired(rest[j - 1].ts, now) && rest[i - 1] == s[i]; }
      }
    }
    if NoneHidden(s, now) {
      forall i, j | 0 <= i < j < |rest| && Expired(rest[j].ts, now) ensures Expired(rest[i].ts, now) {
        assert Expired(s[j + 1].ts, now) && rest[i] == s[i + 1];
      }
    }
  }

  /** Times in order hide nothing. */
  lemma SortedHidesNothing(s: seq<Item>, now: int)
    requires forall i, j :: 0 <= i < j < |s| ==> s[i].ts <= s[j].ts
    ensures Drop(s, now) == Live(s, now)
  {
    CleanupExactIff(s, now);
    forall i, j | 0 <= i < j < |s| && Expired(s[j].ts, now) ensures Expired(s[i].ts, now) {
      Older(s[i].ts, s[j].ts, now);
    }
  }

  lemma Older(a: int, b: int, now: int)
    requires a <= b && Expired(b, now)
    ensures Expired(a, now)
  {}

  /** Restored events can come out of order: an old one behind a newer one outlives the window. */
  lemma HiddenStays()
    ensures var s := [Item(1, 200000000000), Item(2, 0)];
      var now := 400000000000;
      Expired(s[1].ts, now) && Drop(s, now) == s && Live(s, now) == [s[0]]
  {
    var s := [Item(1, 200000000000), Item(2, 0)];
    assert s[1..] == [Item(2, 0)] && s[1..][1..] == [];
  }

  /** The zone object with its two deques. */
  class GridZone {
    var events: seq<Item>
    var ble: seq<Item>

    constructor ()
      ensures events == [] && ble == []
    {
      events, ble := [], [];
    }

    method Update(userId: int, now: int)
      modifies this`events
      ensures events == old(events) + [Item(userId, now)]
    {
      events := events + [Item(userId, now)];
    }

    method UpdateBle(bleCount: int, now: int)
      modifies this`ble
      ensures ble == Drop(old(ble) + [Item(bleCount, now)], now)
    {
      ble := ble + [Item(bleCount, now)];
      CleanupBle(now);
    }

    method Cleanup(now: int)
      modifies this`events
      ensures events == Drop(old(events), now)
    {
      while events != []
        invariant Drop(events, now) == Drop(old(events), now)
        decreases |events|
      {
        if Elapsed(now, events[0].ts) > WINDOW_SEC { events := events[1..]; } else { break; }
      }
    }

    method CleanupBle(now: int)
      modifies this`ble
      ensures ble == Drop(old(ble), now)
    {
      while ble != []
        invariant Drop(ble, now) == Drop(old(ble), now)
        decreases |ble|
      {
        if Elapsed(now, ble[0].ts) > WINDOW_SEC { ble := ble[1..]; } else { break; }
      }
    }

    method GetMaxBleCount() returns (maxBle: nat)
      ensures maxBle == MaxValue(ble)
      ensures forall i :: 0 <= i < |ble| ==> ble[i].value <= maxBle
      ensures maxBle == 0 || exists i :: 0 <= i < |ble| && ble[i].value == maxBle
    {
      maxBle := 0;
      var i := 0;
      while i < |ble|
        invariant 0 <= i <= |ble| && maxBle == MaxValue(ble[..i])
        invariant forall k :: 0 <= k < i ==> ble[k].value <= maxBle
        invariant maxBle == 0 || exists k :: 0 <= k < i && ble[k].value == maxBle
      {
        assert ble[..i + 1][..i] == ble[..i];
        if ble[i].value > maxBle { maxBle := ble[i].value; }
        i := i + 1;
      }
      assert ble[..i] == ble;
    }
  }

  // ---------------------------------------------------------------- the flat lists

  /** An event of some cell, with the time it was put in. */
  datatype Event = Event(key: int, item: Item, at: int)

  function ItemsOf(bag: seq<Event>, key: int): seq<Item> {
    if bag == [] then []
    else ItemsOf(bag[..|bag| - 1], key) + if bag[|bag| - 1].key == key then [bag[|bag| - 1].item] else []
  }

  /** Cleaning all cells at once: an event goes if it has expired and nothing older of its cell stays. */
  function Clean(bag: seq<Event>, now: int, blocked: set<int>): seq<Event> {
    if bag == [] then []
    else
      var e := bag[0];
      if e.key !in blocked && Expired(e.item.ts, now) then Clean(bag[1..], now, blocked)
      else [e] + Clean(bag[1..], now, blocked + {e.key})
  }

  /** Cleaning one cell. */
  function CleanCell(bag: seq<Event>, key: int, now: int): seq<Event> {
    if bag == [] then []
    else if bag[0].key == key && !Expired(bag[0].item.ts, now) then bag
    else (if bag[0].key == key then [] else [bag[0]]) + CleanCell(bag[1..], key, now)
  }

  function CountIn(bag: seq<Event>, keys: set<int>): nat {
    if bag == [] then 0 else CountIn(bag[..|bag| - 1], keys) + if bag[|bag| - 1].key in keys then 1 else 0
  }

  function MaxIn(bag: seq<Event>, keys: set<int>): nat {
    if bag == [] then 0
    else
      var rest, e := MaxIn(bag[..|bag| - 1], keys), bag[|bag| - 1];
      if e.key in keys && e.item.value > rest then e.item.value else rest
  }

  lemma {:induction false} ItemsCons(e: Event, bag: seq<Event>, key: int)
    ensures ItemsOf([e] + bag, key) == (if e.key == key then [e.item] else []) + ItemsOf(bag, key)
  {
    if bag == [] {
      assert [e] + bag == [e] && [e][..0] == [];
    } else {
      var init := bag[..|bag| - 1];
      assert ([e] + bag)[..|bag|] == [e] + init;
      ItemsCons(e, init, key);
    }
  }

  lemma ItemsSnoc(bag: seq<Event>, e: Event, key: int)
    ensures ItemsOf(bag + [e], key) == ItemsOf(bag, key) + if e.key == key then [e.item] else []
  {
    assert (bag + [e])[..|bag|] == bag;
  }

  /** Seen cell by cell, cleaning the flat list is the cells' own cleanup. */
  lemma {:induction false} CleanIsDrop(bag: seq<Event>, now: int, blocked: set<int>, key: int)
    ensures ItemsOf(Clean(bag, now, blocked), key) ==
      if key in blocked then ItemsOf(bag, key) else Drop(ItemsOf(bag, key), now)
  {
    hide Expired;
    if bag != [] {
      var e, rest := bag[0], bag[1..];
      assert bag == [e] + rest;
      ItemsCons(e, rest, key);
      assert [] + ItemsOf(rest, key) == ItemsOf(rest, key);
      if e.key !in blocked && Expired(e.item.ts, now) {
        CleanIsDrop(rest, now, blocked, key);
        DropCons(e.item, ItemsOf(rest, key), now);
      } else {
        CleanIsDrop(rest, now, blocked + {e.key}, key);
        ItemsCons(e, Clean(rest, now, blocked + {e.key}), key);
        DropCons(e.item, ItemsOf(rest, key), now);
      }
    }
  }

  lemma DropCons(x: Item, s: seq<Item>, now: int)
    ensures Drop([x] + s, now) == if Expired(x.ts, now) then Drop(s, now) else [x] + s
  {
    assert ([x] + s)[1..] == s;
  }

  lemma {:induction false} CleanCellIsDrop(bag: seq<Event>, key: int, now: int, k: int)
    ensures ItemsOf(CleanCell(bag, key, now), k) == if k == key then Drop(ItemsOf(bag, k), now) else ItemsOf(bag, k)
  {
    hide Expired;
    if bag != [] {
      var e, rest := bag[0], bag[1..];
      assert bag == [e] + rest;
      ItemsCons(e, rest, k);
      DropCons(e.item, ItemsOf(rest, k), now);
      assert [] + ItemsOf(rest, k) == ItemsOf(rest, k);
      if !(e.key == key && !Expired(e.item.ts, now)) {
        CleanCellIsDrop(rest, key, now, k);
        if e.key != key { ItemsCons(e, CleanCell(rest, key, now), k); }
        assert [] + CleanCell(rest, key, now) == CleanCell(rest, key, now);
        assert e.key != k ==> [] + ItemsOf(CleanCell(rest, key, now), k) == ItemsOf(CleanCell(rest, key, now), k);
      }
    }
  }

  /** Nothing put in at least 301 s before a cleanup survives it, in whatever order the times are. */
  lemma {:induction false} OldEventsGo(bag: seq<Event>, now: int, blocked: set<int>)
    requires forall i :: 0 <= i < |bag| ==> bag[i].item.ts <= bag[i].at
    requires forall i, j :: 0 <= i < j < |bag| ==> bag[i].at <= bag[j].at
    requires forall i :: 0 <= i < |bag| && bag[i].key in blocked ==> now - bag[i].at < (WINDOW_SEC + 1) * 1000000000
    ensures forall i :: 0 <= i < |Clean(bag, now, blocked)| ==>
      now - Clean(bag, now, blocked)[i].at < (WINDOW_SEC + 1) * 1000000000
  {
    if bag != [] {
      var e, rest := bag[0], bag[1..];
      assert forall i :: 0 <= i < |rest| ==> rest[i] == bag[i + 1];
      if e.key !in blocked && Expired(e.item.ts, now) {
        OldEventsGo(rest, now, blocked);
      } else {
        OldEventsGo(rest, now, blocked + {e.key});
      }
    }
  }

  /** Counting over one more cell adds that cell's events. */
  lemma {:induction false} CountOneMore(bag: seq<Event>, keys: set<int>, key: int)
    requires key !in keys
    ensures CountIn(bag, keys + {key}) == CountIn(bag, keys) + |ItemsOf(bag, key)|
  {
    if bag != [] {
      CountOneMore(bag[..|bag| - 1], keys, key);
    }
  }

  lemma {:induction false} MaxOneMore(bag: seq<Event>, keys: set<int>, key: int)
    ensures MaxIn(bag, keys + {key}) ==
      if MaxIn(bag, keys) >= MaxValue(ItemsOf(bag, key)) then MaxIn(bag, keys) else MaxValue(ItemsOf(bag, key))
  {
    if bag != [] {
      var init := bag[..|bag| - 1];
      MaxOneMore(init, keys, key);
      var items := ItemsOf(init, key);
      assert (items + [bag[|bag| - 1].item])[..|items|] == items && items + [] == items;
    }
  }

  lemma {:induction false} NothingIn(bag: seq<Event>)
    ensures CountIn(bag, {}) == 0 && MaxIn(bag, {}) == 0
  {
    if bag != [] { NothingIn(bag[..|bag| - 1]); }
  }

  // ---------------------------------------------------------------- the engine

  /** A GPS count and a Bluetooth maximum, weighted 60 to 40 and cut to a whole number; without Bluetooth the count. */
  function Weighted(gps: nat, ble: nat): int {
    if ble > 0 then (0.6 * gps as real + 0.4 * ble as real).Floor else gps
  }

  /** Ten times the result is six times the count plus four times the maximum, cut to a multiple of ten. */
  lemma WeightedIsMean(gps: nat, ble: nat)
    requires ble > 0
    ensures 10 * Weighted(gps, ble) <= 6 * gps + 4 * ble < 10 * Weighted(gps, ble) + 10
    ensures (if gps < ble then gps else ble) <= Weighted(gps, ble) <= (if gps < ble then ble else gps)
  {
    var x := 0.6 * gps as real + 0.4 * ble as real;
    assert 10.0 * x == (6 * gps + 4 * ble) as real;
  }

  /** A Redis record: key, user, and Unix time in seconds. */
  datatype Saved = Saved(key: int, userId: int, unixTs: int)

  /** The events that restoring puts in: those of age 0 to 300 s, with their age taken off the clock. */
  function Restorable(saved: seq<Saved>, now: int, unixNow: int): seq<Event> {
    if saved == [] then []
    else
      var x := saved[|saved| - 1];
      var age := unixNow - x.unixTs;
      Restorable(saved[..|saved| - 1], now, unixNow) +
        if 0 <= age <= WINDOW_SEC then [Event(x.key, Item(x.userId, now - age * 1000000000), now)] else []
  }

  /** Exactly the records aged 0 to 300 s give an event, each with its own age. */
  lemma {:induction false} RestorableAre(saved: seq<Saved>, now: int, unixNow: int)
    ensures forall x :: x in saved && unixNow - 300 <= x.unixTs <= unixNow ==>
      Event(x.key, Item(x.userId, now - (unixNow - x.unixTs) * 1000000000), now) in Restorable(saved, now, unixNow)
    ensures forall e :: e in Restorable(saved, now, unixNow) ==>
      exists x :: x in saved && unixNow - 300 <= x.unixTs <= unixNow
        && e == Event(x.key, Item(x.userId, now - (unixNow - x.unixTs) * 1000000000), now)
    ensures (forall x :: x in saved ==> unixNow - 300 <= x.unixTs <= unixNow) ==>
      |Restorable(saved, now, unixNow)| == |saved|
  {
    if saved != [] {
      var init, last := saved[..|saved| - 1], saved[|saved| - 1];
      RestorableAre(init, now, unixNow);
      assert saved == init + [last];
      assert forall x :: x in saved <==> x in init || x == last;
    }
  }

  function ZoneIn(zones: map<int, Zone>, key: int): Zone { if key in zones then zones[key] else EMPTY }

  /** One stripe after its cells were cleaned and the empty ones erased. */
  function CleanedStripe(zones: map<int, Zone>, now: int): (r: map<int, Zone>)
    ensures forall k :: k in r ==> k in zones
  {
    map k | k in zones && !(Cleaned(zones[k], now).events == [] && MaxValue(Cleaned(zones[k], now).ble) == 0) ::
      Cleaned(zones[k], now)
  }

  predicate Positive(s: seq<Item>) { forall i :: 0 <= i < |s| ==> s[i].value > 0 }

  lemma PositiveMax(s: seq<Item>)
    requires Positive(s) && MaxValue(s) == 0
    ensures s == []
  {}

  lemma {:induction false} DropPositive(s: seq<Item>, now: int)
    requires Positive(s)
    ensures Positive(Drop(s, now))
  {
    if s != [] && Expired(s[0].ts, now) { DropPositive(s[1..], now); }
  }

  /** Erasing the empty cells loses nothing. */
  lemma CleanedZone(zones: map<int, Zone>, now: int, key: int)
    requires Positive(ZoneIn(zones, key).ble)
    ensures ZoneIn(CleanedStripe(zones, now), key) == Cleaned(ZoneIn(zones, key), now)
  {
    if key in zones {
      DropPositive(zones[key].ble, now);
      var c := Cleaned(zones[key], now);
      if c.events == [] && MaxValue(c.ble) == 0 { PositiveMax(c.ble); }
    }
  }

  /** A stripe that holds the flat lists' events of a cell holds those of the cleaned lists after its cleaning. */
  lemma CleanedCell(zones: map<int, Zone>, bag: seq<Event>, bleBag: seq<Event>, now: int, k: int)
    requires Positive(ItemsOf(bleBag, k)) && ZoneIn(zones, k) == Zone(ItemsOf(bag, k), ItemsOf(bleBag, k))
    ensures ZoneIn(CleanedStripe(zones, now), k) ==
      Zone(ItemsOf(Clean(bag, now, {}), k), ItemsOf(Clean(bleBag, now, {}), k))
    ensures Positive(ItemsOf(Clean(bleBag, now, {}), k))
  {
    CleanedZone(zones, now, k);
    CleanIsDrop(bag, now, {}, k);
    CleanIsDrop(bleBag, now, {}, k);
    DropPositive(ItemsOf(bleBag, k), now);
  }

  lemma PositiveSnoc(s: seq<Item>, x: Item)
    requires Positive(s) && x.value > 0
    ensures Positive(s + [x])
  {}

  lemma PutItems(bag: seq<Event>, e: Event, now: int, k: int)
    ensures ItemsOf(CleanCell(bag + [e], e.key, now), k) ==
      if k == e.key then Drop(ItemsOf(bag, k) + [e.item], now) else ItemsOf(bag, k)
  {
    ItemsSnoc(bag, e, k);
    assert ItemsOf(bag, k) + [] == ItemsOf(bag, k);
    CleanCellIsDrop(bag + [e], e.key, now, k);
  }

  class Engine {
    const buckets: array<map<int, Zone>>
    ghost var bag: seq<Event>       // location events
    ghost var bleBag: seq<Event>    // Bluetooth counts
    ghost var log: seq<Op>          // the calls so far

    ghost function At(key: int): Zone
      reads buckets
      requires buckets.Length == NUM_STRIPES
    {
      ZoneIn(buckets[Stripe(key)], key)
    }

    /** A cell lies in its own stripe only, and holds exactly the flat lists' events of that cell, in order. */
    ghost predicate Striped()
      reads this`bag, this`bleBag, buckets
    {
      && buckets.Length == NUM_STRIPES
      && (forall i, k :: 0 <= i < NUM_STRIPES && k in buckets[i] ==> Stripe(k) == i)
      && (forall k :: At(k).events == ItemsOf(bag, k) && At(k).ble == ItemsOf(bleBag, k))
      && (forall k :: Positive(ItemsOf(bleBag, k)))
    }

    /** The list of location events is what the calls so far make of it. */
    ghost predicate Valid()
      reads this, buckets
    {
      Striped() && bag == BagAfter(log)
    }

    constructor ()
      ensures Valid() && fresh(buckets) && bag == [] && bleBag == [] && log == []
    {
      buckets := new map<int, Zone>[NUM_STRIPES](i => map[]);
      bag, bleBag, log := [], [], [];
    }

    /** A user is somewhere now, perhaps with a count of Bluetooth devices around. */
    method RecordLocation(userId: int, lat: real, lon: real, bleCount: int, now: int)
      requires Valid()
      modifies this, buckets
      ensures Valid() && bag == old(bag) + [Event(GenerateKey(lat, lon), Item(userId, now), now)]
      ensures bleBag == if bleCount > 0
        then CleanCell(old(bleBag) + [Event(GenerateKey(lat, lon), Item(bleCount, now), now)],
          GenerateKey(lat, lon), now)
        else old(bleBag)
      ensures log == old(log) + [Record(GenerateKey(lat, lon), userId, now)]
    {
      hide GenerateKey, Stripe, Drop, Positive, Striped, BagAfter;
      BagStep(log, Record(GenerateKey(lat, lon), userId, now));
      var key := GenerateKey(lat, lon);
      PutEvent(key, Event(key, Item(userId, now), now));
      if bleCount > 0 { PutBle(key, bleCount, now); }
      log := log + [Record(key, userId, now)];
    }

    method PutEvent(key: int, e: Event)
      requires Striped() && e.key == key
      modifies this`bag, buckets
      ensures Striped() && bag == old(bag) + [e]
    {
      hide Stripe, Positive;
      var b := Stripe(key);
      var z := ZoneIn(buckets[b], key);
      forall k ensures ItemsOf(bag + [e], k) == ItemsOf(bag, k) + (if e.key == k then [e.item] else []) {
        ItemsSnoc(bag, e, k);
      }
      buckets[b] := buckets[b][key := z.(events := z.events + [e.item])];
      bag := bag + [e];
    }

    method PutBle(key: int, count: int, now: int)
      requires Striped() && count > 0
      modifies this`bleBag, buckets
      ensures Striped() && bleBag == CleanCell(old(bleBag) + [Event(key, Item(count, now), now)], key, now)
    {
      hide Stripe, Drop, Positive, CleanCell, ItemsOf;
      var b := Stripe(key);
      var z := ZoneIn(buckets[b], key);
      var e := Event(key, Item(count, now), now);
      assert z == At(key) && Positive(ItemsOf(bleBag, key));
      PositiveSnoc(z.ble, e.item);
      DropPositive(z.ble + [e.item], now);
      forall k { PutItems(bleBag, e, now, k); }
      buckets[b] := buckets[b][key := z.(ble := Drop(z.ble + [e.item], now))];
      bleBag := CleanCell(bleBag + [e], key, now);
    }

    /** At start: saved events of the window come back with their own times, in the order they were read. */
    method RestoreFromRedis(saved: seq<Saved>, now: int, unixNow: int) returns (restored: nat)
      requires Valid()
      modifies this`bag, this`log, buckets
      ensures Valid() && bag == old(bag) + Restorable(saved, now, unixNow)
      ensures restored == |Restorable(saved, now, unixNow)|
      ensures log == old(log) + [Restore(saved, now, unixNow)]
    {
      hide Striped, BagAfter;
      BagStep(log, Restore(saved, now, unixNow));
      restored := 0;
      var i := 0;
      while i < |saved|
        invariant 0 <= i <= |saved| && Striped() && log == old(log)
        invariant bag == old(bag) + Restorable(saved[..i], now, unixNow)
        invariant restored == |Restorable(saved[..i], now, unixNow)|
      {
        assert saved[..i + 1][..i] == saved[..i];
        var x := saved[i];
        var age := unixNow - x.unixTs;
        if 0 <= age <= WINDOW_SEC {
          PutEvent(x.key, Event(x.key, Item(x.userId, now - age * 1000000000), now));
          restored := restored + 1;
        }
        i := i + 1;
      }
      assert saved[..i] == saved;
      log := log + [Restore(saved, now, unixNow)];
    }

    /** Every cell of every stripe is cleaned, which cleans the flat lists. */
    method GlobalCleanup(now: int)
      requires Valid()
      modifies this, buckets
      ensures Valid() && bag == Clean(old(bag), now, {}) && bleBag == Clean(old(bleBag), now, {})
      ensures log == old(log) + [Op.Cleanup(now)]
      ensures Monotone(old(log), now) ==> forall k :: 0 <= k < |bag| ==> now - bag[k].at < (WINDOW_SEC + 1) * 1000000000
      ensures forall e :: e in old(bag) && now - e.item.ts < 301000000000 ==> e in bag
      ensures forall e :: e in bag ==> e in old(bag)
    {
      hide Striped, BagAfter, Clean, Monotone;
      BagStep(log, Op.Cleanup(now));
      if Monotone(log, now) { NoEventOutlives(log, now); }
      CleanKeepsYoung(bag, now, {});
      CleanStripes(now);
      log := log + [Op.Cleanup(now)];
    }

    method CleanStripes(now: int)
      requires Striped()
      modifies this`bag, this`bleBag, buckets
      ensures Striped() && bag == Clean(old(bag), now, {}) && bleBag == Clean(old(bleBag), now, {})
    {
      hide Stripe, Clean, ItemsOf, CleanedStripe, Positive;
      ghost var before := buckets[..];
      Sweep(now);
      ghost var kept, keptBle := Clean(bag, now, {}), Clean(bleBag, now, {});
      forall k ensures At(k) == Zone(ItemsOf(kept, k), ItemsOf(keptBle, k)) && Positive(ItemsOf(keptBle, k)) {
        assert before[Stripe(k)] == old(buckets[Stripe(k)]) && ZoneIn(before[Stripe(k)], k) == old(At(k));
        CleanedCell(before[Stripe(k)], bag, bleBag, now, k);
      }
      bag, bleBag := kept, keptBle;
    }

    method Sweep(now: int)
      requires buckets.Length == NUM_STRIPES
      modifies buckets
      ensures forall s :: 0 <= s < NUM_STRIPES ==> buckets[s] == CleanedStripe(old(buckets[s]), now)
    {
      hide CleanedStripe;
      var i := 0;
      while i < NUM_STRIPES
        invariant 0 <= i <= NUM_STRIPES
        invariant forall s :: 0 <= s < i ==> buckets[s] == CleanedStripe(old(buckets[s]), now)
        invariant forall s :: i <= s < NUM_STRIPES ==> buckets[s] == old(buckets[s])
      {
        buckets[i] := CleanedStripe(buckets[i], now);
        i := i + 1;
      }
    }

    /** The events around a place, each counted once, corrected by the largest Bluetooth count around it. */
    method GetDensity(lat: real, lon: real) returns (r: int)
      requires Valid()
      ensures var near := Near(GridIndex(lat), GridIndex(lon)); r == Weighted(CountIn(bag, near), MaxIn(bleBag, near))
    {
      hide Near, Row, GridIndex, Striped, BagAfter;
      ghost var i, j := GridIndex(lat), GridIndex(lon);
      var totalGps, maxBle := 0, 0;
      var dLat := -GRID_SIZE;
      ghost var n := 0;
      NothingIn(bag);
      NothingIn(bleBag);
      while dLat <= GRID_SIZE
        invariant 0 <= n <= 3 && dLat == Offset(n)
        invariant totalGps == CountIn(bag, Rows(i, j, n)) && maxBle == MaxIn(bleBag, Rows(i, j, n))
        decreases 3 - n
      {
        StepIndex(lat, n);
        RowsStep(i, j, n);
        totalGps, maxBle := CountRow(lat + dLat, lon, Rows(i, j, n), totalGps, maxBle);
        dLat := dLat + GRID_SIZE;
        n := n + 1;
      }
      RowsAre(i, j);
      r := if maxBle > 0 then (0.6 * totalGps as real + 0.4 * maxBle as real).Floor else totalGps;
    }

    /** The inner loop: the three cells of one latitude. */
    method CountRow(lat: real, lon: real, ghost seen: set<int>, gps: nat, ble: nat) returns (totalGps: nat, maxBle: nat)
      requires Striped() && gps == CountIn(bag, seen) && ble == MaxIn(bleBag, seen)
      requires Row(GridIndex(lat), GridIndex(lon)) !! seen
      ensures totalGps == CountIn(bag, seen + Row(GridIndex(lat), GridIndex(lon)))
      ensures maxBle == MaxIn(bleBag, seen + Row(GridIndex(lat), GridIndex(lon)))
    {
      hide Row, GridIndex, Striped, Key;
      ghost var i, j := GridIndex(lat), GridIndex(lon);
      totalGps, maxBle := gps, ble;
      var dLon := -GRID_SIZE;
      ghost var n := 0;
      assert seen + Cells(i, j, 0) == seen;
      while dLon <= GRID_SIZE
        invariant 0 <= n <= 3 && dLon == Offset(n)
        invariant totalGps == CountIn(bag, seen + Cells(i, j, n)) && maxBle == MaxIn(bleBag, seen + Cells(i, j, n))
        decreases 3 - n
      {
        StepIndex(lon, n);
        CellStep(i, j, n, seen);
        var key := GenerateKey(lat, lon + dLon);
        var gpsHere, bleHere := LookUp(key);
        CountOneMore(bag, seen + Cells(i, j, n), key);
        MaxOneMore(bleBag, seen + Cells(i, j, n), key);
        totalGps := totalGps + gpsHere;
        if bleHere > maxBle { maxBle := bleHere; }
        dLon := dLon + GRID_SIZE;
        n := n + 1;
      }
      CellsAre(i, j);
    }

    /** One cell, found in its stripe or absent. */
    method LookUp(key: int) returns (gps: nat, ble: nat)
      requires Striped()
      ensures gps == |ItemsOf(bag, key)| && ble == MaxValue(ItemsOf(bleBag, key))
    {
      hide Stripe;
      var zones := buckets[Stripe(key)];
      assert At(key) == ZoneIn(zones, key);
      if key in zones { return |zones[key].events|, MaxValue(zones[key].ble); }
      return 0, 0;
    }
  }

  /** The loop variable's value in its n-th turn. */
  function Offset(n: nat): real { (n as real - 1.0) * GRID_SIZE }

  /** The first n cells of a row of three, and the first n rows of three. */
  function Cells(i: int, j: int, n: nat): set<int> {
    if n == 0 then {} else Cells(i, j, n - 1) + {Key(i, j + n - 2)}
  }

  function Rows(i: int, j: int, n: nat): set<int> {
    if n == 0 then {} else Rows(i, j, n - 1) + Row(i + n - 2, j)
  }

  lemma CellsAre(i: int, j: int)
    ensures Cells(i, j, 0) == {} && Cells(i, j, 1) == {Key(i, j - 1)}
    ensures Cells(i, j, 2) == {Key(i, j - 1), Key(i, j)} && Cells(i, j, 3) == Row(i, j)
  {
    hide Key;
    var a, b, c := Key(i, j - 1), Key(i, j), Key(i, j + 1);
    forall x ensures x in Cells(i, j, 1) <==> x in {a} {}
    forall x ensures x in Cells(i, j, 2) <==> x in {a, b} {}
    forall x ensures x in Cells(i, j, 3) <==> x in {a, b, c} {}
  }

  lemma CellStep(i: int, j: int, n: nat, seen: set<int>)
    requires n < 3 && Row(i, j) !! seen
    ensures var key := Key(i, j + n - 1);
      key !in seen + Cells(i, j, n) && seen + Cells(i, j, n + 1) == (seen + Cells(i, j, n)) + {key}
  {
    hide Key;
    ThreeApart(j);
    SameKeyIff(i, j - 1, i, j);
    SameKeyIff(i, j, i, j + 1);
    SameKeyIff(i, j - 1, i, j + 1);
    var key := Key(i, j + n - 1);
    assert key in Row(i, j);
    CellsAre(i, j);
    forall x ensures x in seen + Cells(i, j, n + 1) <==> x in (seen + Cells(i, j, n)) + {key} {}
  }

  lemma RowsAre(i: int, j: int)
    ensures Rows(i, j, 0) == {} && Rows(i, j, 1) == Row(i - 1, j)
    ensures Rows(i, j, 2) == Row(i - 1, j) + Row(i, j) && Rows(i, j, 3) == Near(i, j)
  {
    hide Row;
    forall x ensures x in Rows(i, j, 1) <==> x in Row(i - 1, j) {}
    forall x ensures x in Rows(i, j, 2) <==> x in Row(i - 1, j) + Row(i, j) {}
    forall x ensures x in Rows(i, j, 3) <==> x in Near(i, j) {}
  }

  lemma RowsStep(i: int, j: int, n: nat)
    requires n < 3
    ensures Row(i + n - 1, j) !! Rows(i, j, n) && Rows(i, j, n + 1) == Rows(i, j, n) + Row(i + n - 1, j)
  {
    hide Row;
    ThreeApart(i);
    RowsDisjoint(i - 1, i, j);
    RowsDisjoint(i - 1, i + 1, j);
    RowsDisjoint(i, i + 1, j);
    RowsAre(i, j);
    var more, both := Rows(i, j, n + 1), Rows(i, j, n) + Row(i + n - 1, j);
    forall x ensures x in more <==> x in both {}
  }

  // ---------------------------------------------------------------- over whole runs

  /** Nothing younger than 301 s is ever cleaned away. */
  lemma {:induction false} CleanKeepsYoung(bag: seq<Event>, now: int, blocked: set<int>)
    ensures forall e :: e in bag && now - e.item.ts < 301000000000 ==> e in Clean(bag, now, blocked)
    ensures forall e :: e in Clean(bag, now, blocked) ==> e in bag
  {
    hide Expired;
    if bag != [] {
      var e, rest := bag[0], bag[1..];
      ExpiredIs(e.item.ts, now);
      var closed := if e.key !in blocked && Expired(e.item.ts, now) then blocked else blocked + {e.key};
      CleanKeepsYoung(rest, now, closed);
      assert forall x :: x in bag <==> x == e || x in rest;
    }
  }

  /** What changes the list of location events. */
  datatype Op =
    | Record(key: int, userId: int, now: int)
    | Restore(saved: seq<Saved>, now: int, unixNow: int)
    | Cleanup(now: int)

  function BagWith(bag: seq<Event>, op: Op): seq<Event> {
    match op
    case Record(key, userId, now) => bag + [Event(key, Item(userId, now), now)]
    case Restore(saved, now, unixNow) => bag + Restorable(saved, now, unixNow)
    case Cleanup(now) => Clean(bag, now, {})
  }

  /** The list after a history of calls, oldest first. */
  function BagAfter(ops: seq<Op>): seq<Event> {
    if ops == [] then [] else BagWith(BagAfter(ops[..|ops| - 1]), ops[|ops| - 1])
  }

  lemma BagStep(ops: seq<Op>, op: Op)
    ensures BagAfter(ops + [op]) == BagWith(BagAfter(ops), op)
  {
    assert (ops + [op])[..|ops|] == ops;
  }

  /** The clock never runs backwards. */
  predicate Monotone(ops: seq<Op>, now: int) {
    (forall i :: 0 <= i < |ops| ==> ops[i].now <= now) && forall i, j :: 0 <= i < j < |ops| ==> ops[i].now <= ops[j].now
  }

  /** Events stand in the order they were put in, and none is newer than that. */
  ghost predicate InOrder(bag: seq<Event>, now: int) {
    && (forall i :: 0 <= i < |bag| ==> bag[i].item.ts <= bag[i].at <= now)
    && (forall i, j :: 0 <= i < j < |bag| ==> bag[i].at <= bag[j].at)
  }

  lemma {:induction false} CleanInOrder(bag: seq<Event>, now: int, blocked: set<int>, latest: int)
    requires InOrder(bag, latest)
    ensures InOrder(Clean(bag, now, blocked), latest)
    ensures bag != [] ==> forall i :: 0 <= i < |Clean(bag, now, blocked)| ==>
      bag[0].at <= Clean(bag, now, blocked)[i].at
  {
    hide Expired;
    if bag != [] {
      var e, rest := bag[0], bag[1..];
      assert forall i :: 0 <= i < |rest| ==> rest[i] == bag[i + 1];
      var closed := if e.key !in blocked && Expired(e.item.ts, now) then blocked else blocked + {e.key};
      var kept := Clean(rest, now, closed);
      CleanInOrder(rest, now, closed, latest);
      if rest != [] { assert rest[0].at >= e.at; }
      forall i | 0 <= i < |kept| ensures kept[i].at >= e.at {}
    }
  }

  lemma {:induction false} RestorableInOrder(saved: seq<Saved>, now: int, unixNow: int)
    ensures AllPutAt(Restorable(saved, now, unixNow), now)
  {
    if saved != [] {
      var init := saved[..|saved| - 1];
      RestorableInOrder(init, now, unixNow);
      assert AllPutAt(Restorable(init, now, unixNow), now);
    }
  }

  ghost predicate AllPutAt(bag: seq<Event>, now: int) {
    forall i :: 0 <= i < |bag| ==> bag[i].item.ts <= bag[i].at && bag[i].at == now
  }

  lemma InOrderAppend(a: seq<Event>, b: seq<Event>, before: int, now: int)
    requires InOrder(a, before) && before <= now && AllPutAt(b, now)
    ensures InOrder(a + b, now)
  {}

  lemma {:induction false} RunInOrder(ops: seq<Op>, now: int)
    requires Monotone(ops, now)
    ensures InOrder(BagAfter(ops), now)
  {
    if ops != [] {
      var init, op := ops[..|ops| - 1], ops[|ops| - 1];
      RunInOrder(init, op.now);
      match op
      case Record(key, userId, at) => InOrderAppend(BagAfter(init), [Event(key, Item(userId, at), at)], at, at);
      case Restore(saved, at, unixNow) =>
        RestorableInOrder(saved, at, unixNow);
        InOrderAppend(BagAfter(init), Restorable(saved, at, unixNow), at, at);
      case Cleanup(at) => CleanInOrder(BagAfter(init), at, {}, at);
    }
  }

  /**
   * After any run and any restored times, the first cleanup at least 301 s after an event was put in has removed it,
   * although a cleanup stops at the first event of a cell that has not expired.
   */
  lemma NoEventOutlives(ops: seq<Op>, now: int)
    requires Monotone(ops, now)
    ensures var left := BagAfter(ops + [Cleanup(now)]);
      forall i :: 0 <= i < |left| ==> now - left[i].at < (WINDOW_SEC + 1) * 1000000000
  {
    assert (ops + [Cleanup(now)])[..|ops|] == ops;
    RunInOrder(ops, now);
    OldEventsGo(BagAfter(ops), now, {});
  }
}
