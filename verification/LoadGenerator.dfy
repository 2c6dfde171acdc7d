/**
 * The request accounting of one load-generator thread (server/tools/loadgen.cpp): connections with a fixed number of
 * slots, and per class what was sent and what became of it. Sockets and random draws are input.
 */
module LoadGenerator {
  import opened Options
  import opened Response
  import opened Text

  const INT64_MAX: int := 0x7FFF_FFFF_FFFF_FFFF
  const MAX_TRIES: nat := 64

  /** A slot; id 0 marks it empty, whatever its other fields still hold. */
  datatype Pending = Pending(id: nat, schedNs: int, cls: nat, measured: bool)

  datatype Conn = Conn(up: bool, free: int, pend: seq<Pending>)

  datatype ClassStats = ClassStats(sent: nat, ok: nat, shed: nat, late: nat, timeout: nat, skipped: nat, lost: nat)

  datatype Outcome = Ok | Shed | Late | Timeout | Skipped | Lost

  /** One request's end; a skipped request never got a number. */
  datatype Ended = Ended(id: nat, cls: nat, measured: bool, outcome: Outcome)

  function Counter(s: ClassStats, o: Outcome): nat {
    match o
    case Ok => s.ok
    case Shed => s.shed
    case Late => s.late
    case Timeout => s.timeout
    case Skipped => s.skipped
    case Lost => s.lost
  }

  function Counted(s: ClassStats, o: Outcome): ClassStats {
    match o
    case Ok => s.(ok := s.ok + 1)
    case Shed => s.(shed := s.shed + 1)
    case Late => s.(late := s.late + 1)
    case Timeout => s.(timeout := s.timeout + 1)
    case Skipped => s.(skipped := s.skipped + 1)
    case Lost => s.(lost := s.lost + 1)
  }

  function Outcomes(s: ClassStats): nat { s.ok + s.shed + s.late + s.timeout + s.skipped + s.lost }

  // ---------------------------------------------------------------- sums over slots

  /** What is counted over the slots: occupied ones, measured ones of a class, those with a given number. */
  datatype Weight = Busy | Measured(cls: nat) | WithId(id: nat)

  function Weigh(w: Weight, p: Pending): nat {
    if p.id == 0 then 0
    else
      match w
      case Busy => 1
      case Measured(c) => if p.measured && p.cls == c then 1 else 0
      case WithId(i) => if p.id == i then 1 else 0
  }

  function SlotSum(pend: seq<Pending>, w: Weight): nat {
    if pend == [] then 0 else Weigh(w, pend[0]) + SlotSum(pend[1..], w)
  }

  function ConnSum(conns: seq<Conn>, w: Weight): nat {
    if conns == [] then 0 else SlotSum(conns[0].pend, w) + ConnSum(conns[1..], w)
  }

  lemma {:induction false} SlotUpdate(pend: seq<Pending>, j: nat, p: Pending, w: Weight)
    requires j < |pend|
    ensures SlotSum(pend[j := p], w) == SlotSum(pend, w) - Weigh(w, pend[j]) + Weigh(w, p)
  {
    if j > 0 {
      SlotUpdate(pend[1..], j - 1, p, w);
      assert pend[j := p][1..] == pend[1..][j - 1 := p];
    } else {
      assert pend[0 := p][1..] == pend[1..];
    }
  }

  lemma {:induction false} ConnUpdate(conns: seq<Conn>, k: nat, c: Conn, w: Weight)
    requires k < |conns|
    ensures ConnSum(conns[k := c], w) == ConnSum(conns, w) - SlotSum(conns[k].pend, w) + SlotSum(c.pend, w)
  {
    if k > 0 {
      ConnUpdate(conns[1..], k - 1, c, w);
      assert conns[k := c][1..] == conns[1..][k - 1 := c];
    } else {
      assert conns[0 := c][1..] == conns[1..];
    }
  }

  /** Fewer occupied slots than slots: one of them is empty. */
  lemma {:induction false} SomeEmpty(pend: seq<Pending>)
    requires SlotSum(pend, Busy) < |pend|
    ensures exists j :: 0 <= j < |pend| && pend[j].id == 0
  {
    if pend[0].id != 0 {
      SomeEmpty(pend[1..]);
      var j :| 0 <= j < |pend[1..]| && pend[1..][j].id == 0;
      assert pend[j + 1].id == 0;
    }
  }

  lemma {:induction false} NoneBusy(pend: seq<Pending>, w: Weight)
    requires forall j :: 0 <= j < |pend| ==> pend[j].id == 0
    ensures SlotSum(pend, w) == 0
  {
    if pend != [] { NoneBusy(pend[1..], w); }
  }

  lemma {:induction false} NoneAnywhere(conns: seq<Conn>, w: Weight)
    requires forall k, j :: 0 <= k < |conns| && 0 <= j < |conns[k].pend| ==> conns[k].pend[j].id == 0
    ensures ConnSum(conns, w) == 0
  {
    if conns != [] {
      NoneBusy(conns[0].pend, w);
      assert forall k :: 0 <= k < |conns[1..]| ==> conns[1..][k] == conns[k + 1];
      NoneAnywhere(conns[1..], w);
    }
  }

  // ---------------------------------------------------------------- the books

  function Tally(ended: seq<Ended>, c: nat, o: Outcome): nat {
    if ended == [] then 0
    else
      var e := ended[|ended| - 1];
      Tally(ended[..|ended| - 1], c, o) + if e.measured && e.cls == c && e.outcome == o then 1 else 0
  }

  function Times(ended: seq<Ended>, id: nat): nat {
    if ended == [] then 0 else Times(ended[..|ended| - 1], id) + if ended[|ended| - 1].id == id then 1 else 0
  }

  /** The state that the accounting lives in. */
  datatype Ledger = Ledger(conns: seq<Conn>, stats: seq<ClassStats>, total: int, nextId: nat, ended: seq<Ended>)

  /** Per class: what was sent has ended in exactly one counted way or is still pending. */
  ghost predicate Conserved(l: Ledger) {
    && |l.stats| == 2
    && (forall c :: 0 <= c < 2 ==> l.stats[c].sent == Outcomes(l.stats[c]) + ConnSum(l.conns, Measured(c)))
    && CountersOk(l.stats, l.ended)
  }

  /** Every counter counts the requests that ended that way. */
  ghost predicate CountersOk(stats: seq<ClassStats>, ended: seq<Ended>) {
    |stats| == 2 && forall c, o :: 0 <= c < 2 ==> Counter(stats[c], o) == Tally(ended, c, o)
  }

  /** Every number handed out is in one slot or has ended once; no other number is anywhere. */
  ghost predicate OnceEach(l: Ledger) {
    && l.total == ConnSum(l.conns, Busy)
    && (forall id: nat :: id >= 1 ==>
          ConnSum(l.conns, WithId(id)) + Times(l.ended, id) == if id <= l.nextId then 1 else 0)
  }

  ghost predicate ClassesOk(l: Ledger) {
    forall k, j :: 0 <= k < |l.conns| && 0 <= j < |l.conns[k].pend| ==> l.conns[k].pend[j].cls < 2
  }

  ghost predicate Books(l: Ledger) { Conserved(l) && OnceEach(l) && ClassesOk(l) }

  /** What the books say of the program's own counters: each counts the requests that ended its way. */
  lemma CountersCount(l: Ledger, c: nat)
    requires Books(l) && c < 2
    ensures var s := l.stats[c];
      && s.ok == Tally(l.ended, c, Ok) && s.shed == Tally(l.ended, c, Shed) && s.late == Tally(l.ended, c, Late)
      && s.timeout == Tally(l.ended, c, Timeout) && s.skipped == Tally(l.ended, c, Skipped)
      && s.lost == Tally(l.ended, c, Lost)
      && s.sent == s.ok + s.shed + s.late + s.timeout + s.skipped + s.lost + ConnSum(l.conns, Measured(c))
  {
    var s := l.stats[c];
    assert forall o :: Counter(s, o) == Tally(l.ended, c, o);
    assert Counter(s, Ok) == s.ok && Counter(s, Shed) == s.shed && Counter(s, Late) == s.late;
    assert Counter(s, Timeout) == s.timeout && Counter(s, Skipped) == s.skipped && Counter(s, Lost) == s.lost;
  }

  /** A connection's free count is its number of empty slots, and a closed connection has nothing pending. */
  ghost predicate SlotsOk(c: Conn, outstanding: nat) {
    |c.pend| == outstanding && c.free == outstanding - SlotSum(c.pend, Busy) && (!c.up ==> c.free == outstanding)
  }

  function Emptied(c: Conn, j: nat): Conn
    requires j < |c.pend|
  {
    c.(pend := c.pend[j := c.pend[j].(id := 0)])
  }

  function CountedIn(stats: seq<ClassStats>, p: Pending, o: Outcome): seq<ClassStats>
    requires p.cls < |stats|
  {
    if p.measured then stats[p.cls := Counted(stats[p.cls], o)] else stats
  }

  /** The ledger after the request in slot j of connection k ended. */
  function After(l: Ledger, k: nat, j: nat, o: Outcome): Ledger
    requires k < |l.conns| && j < |l.conns[k].pend| && l.conns[k].pend[j].cls < |l.stats|
  {
    var p := l.conns[k].pend[j];
    Ledger(l.conns[k := Emptied(l.conns[k], j)], CountedIn(l.stats, p, o), l.total - 1, l.nextId,
           l.ended + [Ended(p.id, p.cls, p.measured, o)])
  }

  lemma AfterSums(l: Ledger, k: nat, j: nat, w: Weight)
    requires k < |l.conns| && j < |l.conns[k].pend|
    ensures ConnSum(l.conns[k := Emptied(l.conns[k], j)], w) == ConnSum(l.conns, w) - Weigh(w, l.conns[k].pend[j])
  {
    var p := l.conns[k].pend[j];
    SlotUpdate(l.conns[k].pend, j, p.(id := 0), w);
    ConnUpdate(l.conns, k, Emptied(l.conns[k], j), w);
  }

  lemma Logged(ended: seq<Ended>, e: Ended)
    ensures forall c, o ::
      Tally(ended + [e], c, o) == Tally(ended, c, o) + if e.measured && e.cls == c && e.outcome == o then 1 else 0
    ensures forall id :: Times(ended + [e], id) == Times(ended, id) + if e.id == id then 1 else 0
  {
    assert (ended + [e])[..|ended|] == ended;
  }

  /** A request that ends moves from the pending to one counter, whatever the outcome. */
  lemma EndKeepsBooks(l: Ledger, k: nat, j: nat, o: Outcome)
    requires Books(l) && k < |l.conns| && j < |l.conns[k].pend| && l.conns[k].pend[j].id != 0
    ensures Books(After(l, k, j, o))
  {
    hide ConnSum, Tally, Times;
    EndConserves(l, k, j, o);
    EndOnce(l, k, j, o);
  }

  lemma EndConserves(l: Ledger, k: nat, j: nat, o: Outcome)
    requires Conserved(l) && ClassesOk(l) && k < |l.conns| && j < |l.conns[k].pend| && l.conns[k].pend[j].id != 0
    ensures Conserved(After(l, k, j, o))
  {
    hide ConnSum, CountersOk, Emptied, Counted, Outcomes;
    var p := l.conns[k].pend[j];
    CountersKept(l.stats, l.ended, p, o);
    AfterSums(l, k, j, Measured(0));
    AfterSums(l, k, j, Measured(1));
    OneMoreOutcome(l.stats[p.cls], o);
  }

  lemma OneMoreOutcome(s: ClassStats, o: Outcome)
    ensures Outcomes(Counted(s, o)) == Outcomes(s) + 1 && Counted(s, o).sent == s.sent
  {}

  lemma CountersKept(stats: seq<ClassStats>, ended: seq<Ended>, p: Pending, o: Outcome)
    requires CountersOk(stats, ended) && p.cls < 2
    ensures CountersOk(CountedIn(stats, p, o), ended + [Ended(p.id, p.cls, p.measured, o)])
  {
    hide Tally;
    Logged(ended, Ended(p.id, p.cls, p.measured, o));
  }

  lemma EndOnce(l: Ledger, k: nat, j: nat, o: Outcome)
    requires Conserved(l) && OnceEach(l) && ClassesOk(l)
    requires k < |l.conns| && j < |l.conns[k].pend| && l.conns[k].pend[j].id != 0
    ensures OnceEach(After(l, k, j, o))
  {
    hide ConnSum, Tally, Times;
    var p := l.conns[k].pend[j];
    Logged(l.ended, Ended(p.id, p.cls, p.measured, o));
    AfterSums(l, k, j, Busy);
    forall id: nat | id >= 1
      ensures ConnSum(After(l, k, j, o).conns, WithId(id)) == ConnSum(l.conns, WithId(id)) - Weigh(WithId(id), p)
    {
      AfterSums(l, k, j, WithId(id));
    }
  }

  /** The slots of the connection itself after one of them was emptied and counted as free. */
  lemma EndKeepsSlots(c: Conn, j: nat, outstanding: nat)
    requires SlotsOk(c, outstanding) && j < |c.pend| && c.pend[j].id != 0 && c.up
    ensures SlotsOk(Emptied(c, j).(free := c.free + 1), outstanding)
  {
    SlotUpdate(c.pend, j, c.pend[j].(id := 0), Busy);
  }

  /** Changing flags and counts of a connection leaves every sum as it is. */
  lemma SamePend(conns: seq<Conn>, k: nat, c: Conn, w: Weight)
    requires k < |conns| && c.pend == conns[k].pend
    ensures ConnSum(conns[k := c], w) == ConnSum(conns, w)
  {
    ConnUpdate(conns, k, c, w);
  }

  lemma SameBooks(l: Ledger, k: nat, c: Conn)
    requires Books(l) && k < |l.conns| && c.pend == l.conns[k].pend
    ensures Books(l.(conns := l.conns[k := c]))
  {
    hide ConnSum, Tally, Times;
    forall w ensures ConnSum(l.conns[k := c], w) == ConnSum(l.conns, w) { SamePend(l.conns, k, c, w); }
  }

  // ---------------------------------------------------------------- issuing

  /** The ledger after a request was put into the empty slot j of connection k. */
  function Placed(l: Ledger, k: nat, j: nat, p: Pending): Ledger
    requires k < |l.conns| && j < |l.conns[k].pend| && p.cls < |l.stats|
  {
    var c := l.conns[k];
    Ledger(l.conns[k := c.(pend := c.pend[j := p])],
           if p.measured then l.stats[p.cls := l.stats[p.cls].(sent := l.stats[p.cls].sent + 1)] else l.stats,
           l.total + 1, p.id, l.ended)
  }

  lemma PlaceKeepsBooks(l: Ledger, k: nat, j: nat, p: Pending)
    requires Books(l) && k < |l.conns| && j < |l.conns[k].pend| && l.conns[k].pend[j].id == 0
    requires p.id == l.nextId + 1 && p.cls < 2
    ensures Books(Placed(l, k, j, p))
  {
    hide ConnSum, Tally, Times;
    var l' := Placed(l, k, j, p);
    forall w ensures ConnSum(l'.conns, w) == ConnSum(l.conns, w) + Weigh(w, p) {
      SlotUpdate(l.conns[k].pend, j, p, w);
      ConnUpdate(l.conns, k, l'.conns[k], w);
    }
    PlaceConserves(l, l', p);
    PlaceOnce(l, l', p);
  }

  lemma PlaceConserves(l: Ledger, l': Ledger, p: Pending)
    requires Conserved(l) && p.cls < 2 && p.id != 0 && l'.ended == l.ended
    requires forall w :: ConnSum(l'.conns, w) == ConnSum(l.conns, w) + Weigh(w, p)
    requires l'.stats == if p.measured then l.stats[p.cls := l.stats[p.cls].(sent := l.stats[p.cls].sent + 1)]
      else l.stats
    ensures Conserved(l')
  {
    hide ConnSum, Tally;
  }

  lemma PlaceOnce(l: Ledger, l': Ledger, p: Pending)
    requires OnceEach(l) && p.id == l.nextId + 1 == l'.nextId && l'.total == l.total + 1 && l'.ended == l.ended
    requires forall w :: ConnSum(l'.conns, w) == ConnSum(l.conns, w) + Weigh(w, p)
    ensures OnceEach(l')
  {
    hide ConnSum, Times;
    assert ConnSum(l'.conns, Busy) == ConnSum(l.conns, Busy) + Weigh(Busy, p);
    forall id: nat | id >= 1
      ensures ConnSum(l'.conns, WithId(id)) + Times(l'.ended, id) == if id <= l'.nextId then 1 else 0
    {
      assert ConnSum(l'.conns, WithId(id)) == ConnSum(l.conns, WithId(id)) + Weigh(WithId(id), p);
    }
  }

  lemma PlaceKeepsSlots(c: Conn, j: nat, p: Pending, outstanding: nat)
    requires SlotsOk(c, outstanding) && j < |c.pend| && c.pend[j].id == 0 && p.id != 0 && c.up
    ensures SlotsOk(c.(pend := c.pend[j := p], free := c.free - 1), outstanding)
  {
    SlotUpdate(c.pend, j, p, Busy);
  }

  /** A request that cannot be sent is counted as sent and as skipped, and gets no number. */
  lemma SkipKeepsBooks(l: Ledger, cls: nat, measured: bool)
    requires Books(l) && cls < 2
    ensures Books(l.(stats := if measured
                              then l.stats[cls := Counted(l.stats[cls].(sent := l.stats[cls].sent + 1), Skipped)]
                              else l.stats,
                     ended := l.ended + [Ended(0, cls, measured, Skipped)]))
  {
    hide ConnSum, Tally, Times;
    Logged(l.ended, Ended(0, cls, measured, Skipped));
  }

  // ---------------------------------------------------------------- the class

  predicate Usable(c: Conn) { c.up && c.free > 0 }

  /** The cursor after t steps round n connections. */
  function Round(cursor: nat, t: nat, n: nat): nat
    requires n > 0
  {
    if t == 0 then cursor else (Round(cursor, t - 1, n) + 1) % n
  }

  /** t steps from the cursor, and at most once round: the place, with r rounds taken off. */
  lemma {:induction false} RoundIs(cursor: nat, t: nat, n: nat) returns (r: nat)
    requires cursor < n
    ensures Round(cursor, t, n) == cursor + t - r * n && Round(cursor, t, n) < n
  {
    if t == 0 {
      r := 0;
    } else {
      r := RoundIs(cursor, t - 1, n);
      if Round(cursor, t - 1, n) + 1 == n { r := r + 1; }
      OneFurther(Round(cursor, t - 1, n), n);
    }
  }

  lemma OneFurther(x: nat, n: nat)
    requires x < n
    ensures (x + 1) % n == if x + 1 == n then 0 else x + 1
  {}

  function OutcomeOf(tag: char): Outcome { if tag == 'S' then Shed else if tag == 'D' then Late else Ok }

  /** The first slot holding a number; the number of slots when there is none. */
  function FindSlot(pend: seq<Pending>, id: nat): (j: nat)
    ensures j <= |pend| && (j < |pend| ==> pend[j].id == id) && forall i :: 0 <= i < j ==> pend[i].id != id
  {
    if pend == [] || pend[0].id == id then 0 else 1 + FindSlot(pend[1..], id)
  }

  const NO_STATS := ClassStats(0, 0, 0, 0, 0, 0, 0)

  function EmptySlots(n: nat): (pend: seq<Pending>)
    ensures |pend| == n && forall j :: 0 <= j < n ==> pend[j].id == 0 && pend[j].cls == 0
  {
    if n == 0 then [] else EmptySlots(n - 1) + [Pending(0, 0, 0, false)]
  }

  /** Unconnected connections with all slots empty. */
  function Fresh(n: nat, outstanding: nat): (conns: seq<Conn>)
    ensures |conns| == n && forall k :: 0 <= k < n ==> conns[k] == Conn(false, outstanding, EmptySlots(outstanding))
  {
    if n == 0 then [] else Fresh(n - 1, outstanding) + [Conn(false, outstanding, EmptySlots(outstanding))]
  }

  lemma FreshIsEmpty(n: nat, outstanding: nat)
    ensures forall k :: 0 <= k < n ==> SlotsOk(Fresh(n, outstanding)[k], outstanding)
    ensures forall w :: ConnSum(Fresh(n, outstanding), w) == 0
  {
    hide SlotSum, ConnSum;
    NoneBusy(EmptySlots(outstanding), Busy);
    forall w ensures ConnSum(Fresh(n, outstanding), w) == 0 { NoneAnywhere(Fresh(n, outstanding), w); }
  }

  lemma FreshBooks(l: Ledger, n: nat, outstanding: nat)
    requires l == Ledger(Fresh(n, outstanding), [NO_STATS, NO_STATS], 0, 0, [])
    ensures Books(l)
  {
    hide ConnSum, SlotSum, Fresh, EmptySlots, Weigh;
    FreshIsEmpty(n, outstanding);
    forall id: nat | id >= 1
      ensures ConnSum(l.conns, WithId(id)) + Times(l.ended, id) == if id <= l.nextId then 1 else 0 {}
    assert ClassesOk(l);
    assert CountersOk(l.stats, l.ended);
  }

  class Worker {
    const outstanding: nat
    const limit: int                    // the timeout in nanoseconds
    var conns: seq<Conn>
    var stats: seq<ClassStats>
    var cursor: nat
    var nextId: nat
    var outstandingTotal: int
    var unknownId: nat
    ghost var ended: seq<Ended>

    ghost function Account(): Ledger
      reads this
    {
      Ledger(conns, stats, outstandingTotal, nextId, ended)
    }

    ghost predicate Valid()
      reads this
    {
      && |conns| > 0 && cursor < |conns| && Books(Account())
      && (forall k :: 0 <= k < |conns| ==> SlotsOk(conns[k], outstanding))
    }

    constructor (n: nat, outstanding: nat, limit: int)
      requires n > 0
      ensures Valid() && conns == Fresh(n, outstanding) && ended == [] && nextId == 0
    {
      this.outstanding, this.limit := outstanding, limit;
      conns, stats := Fresh(n, outstanding), [NO_STATS, NO_STATS];
      cursor, nextId, outstandingTotal, unknownId := 0, 0, 0, 0;
      ended := [];
      FreshIsEmpty(n, outstanding);
      new;
      FreshBooks(Account(), n, outstanding);
    }

    /** A pending request ends: counted if measured, its slot freed. */
    method End(k: nat, j: nat, o: Outcome)
      requires Valid() && k < |conns| && j < |conns[k].pend| && conns[k].up && conns[k].pend[j].id != 0
      modifies this`conns, this`stats, this`outstandingTotal, this`ended
      ensures Valid() && conns == old(conns)[k := Emptied(old(conns[k]), j).(free := old(conns[k]).free + 1)]
      ensures var p := old(conns[k]).pend[j]; ended == old(ended) + [Ended(p.id, p.cls, p.measured, o)]
      ensures outstandingTotal == old(outstandingTotal) - 1 && stats == CountedIn(old(stats), old(conns[k]).pend[j], o)
    {
      hide Books, SlotsOk;
      ghost var l := Account();
      var c, p := conns[k], conns[k].pend[j];
      BooksShape(l);
      EndKeepsBooks(l, k, j, o);
      EndKeepsSlots(c, j, outstanding);
      SameBooks(After(l, k, j, o), k, Emptied(c, j).(free := c.free + 1));
      assert conns[k := Emptied(c, j)][k := Emptied(c, j).(free := c.free + 1)] ==
        conns[k := Emptied(c, j).(free := c.free + 1)];
      stats := CountedIn(stats, p, o);
      conns := conns[k := Emptied(c, j).(free := c.free + 1)];
      outstandingTotal := outstandingTotal - 1;
      ended := ended + [Ended(p.id, p.cls, p.measured, o)];
    }

    /** One reply line. A reply that names no pending request of this connection is only counted; the books stay in
        order exactly when the line does not name number 0 while some slot is empty. */
    method HandleLine(k: nat, line: string)
      requires Valid() && k < |conns| && conns[k].up
      modifies this`conns, this`stats, this`outstandingTotal, this`unknownId, this`ended
      ensures Valid() <==> !(Field(line, "id=") == Some(0) && FindSlot(old(conns[k]).pend, 0) < outstanding)
      ensures var id := Field(line, "id=");
        var j := if id == None then outstanding else FindSlot(old(conns[k]).pend, id.value);
        var o := if Tag(line) == 'S' then Shed else if Tag(line) == 'D' then Late else Ok;
        && (j == outstanding ==> unknownId == old(unknownId) + 1 && Account() == old(Account()))
        && (j < outstanding ==>
              && unknownId == old(unknownId)
              && conns == old(conns)[k := Emptied(old(conns[k]), j).(free := old(conns[k]).free + 1)]
              && stats == CountedIn(old(stats), old(conns[k]).pend[j], o)
              && ended == old(ended) + [Ended(id.value, old(conns[k]).pend[j].cls, old(conns[k]).pend[j].measured, o)])
    {
      hide Books, Field, Tag;
      ghost var l := Account();
      BooksShape(l);
      var id := Field(line, "id=");
      if id == None {
        unknownId := unknownId + 1;
        return;
      }
      var pend := conns[k].pend;
      var j := 0;
      while j < |pend| && pend[j].id != id.value
        invariant j <= |pend| && forall i :: 0 <= i < j ==> pend[i].id != id.value
      {
        j := j + 1;
      }
      FindSlotIs(pend, id.value, j);
      if j == |pend| {
        unknownId := unknownId + 1;
        return;
      }
      if id.value != 0 {
        End(k, j, OutcomeOf(Tag(line)));
      } else {
        Miscount(conns[k], j, outstanding);
        stats := CountedIn(stats, pend[j], OutcomeOf(Tag(line)));
        conns := conns[k := Emptied(conns[k], j).(free := conns[k].free + 1)];
        outstandingTotal := outstandingTotal - 1;
        ended := ended + [Ended(0, pend[j].cls, pend[j].measured, OutcomeOf(Tag(line)))];
        assert !SlotsOk(conns[k], outstanding);
      }
    }

    /** Looks at up to MAX_TRIES connections from the cursor on for one with a free slot. */
    method FindConn() returns (k: nat)
      requires |conns| > 0 && cursor < |conns|
      modifies this`cursor
      ensures cursor < |conns| && k <= |conns|
      ensures k < |conns| ==> conns[k].up && conns[k].free > 0
      ensures k < |conns| ==> exists t: nat :: t < 64 && k == Round(old(cursor), t, |conns|)
      ensures k == |conns| ==> forall t: nat :: t < 64 ==> !UsableAt(conns, Round(old(cursor), t, |conns|))
    {
      var tries := 0;
      while tries < MAX_TRIES
        invariant tries <= MAX_TRIES && cursor < |conns| && cursor == Round(old(cursor), tries, |conns|)
        invariant forall t: nat :: t < tries ==> !UsableAt(conns, Round(old(cursor), t, |conns|))
      {
        var cand := cursor;
        cursor := (cursor + 1) % |conns|;
        if Usable(conns[cand]) { return cand; }
        tries := tries + 1;
      }
      k := |conns|;
    }

    /** One scheduled request: into an empty slot of a usable connection, or skipped when none is near. */
    method Issue(schedNs: int, cls: nat, measured: bool, sendFails: bool)
      requires Valid() && cls < 2
      modifies this`conns, this`stats, this`cursor, this`nextId, this`outstandingTotal, this`ended
      ensures Valid() && stats[cls].sent == old(stats[cls].sent) + (if measured then 1 else 0)
      ensures stats[1 - cls].sent == old(stats[1 - cls].sent)
      ensures nextId == old(nextId) ==>
        && conns == old(conns) && ended == old(ended) + [Ended(0, cls, measured, Skipped)]
        && forall t: nat :: t < 64 ==> !UsableAt(old(conns), Round(old(cursor), t, |old(conns)|))
      ensures nextId != old(nextId) ==>
        && nextId == old(nextId) + 1
        && (!sendFails ==> ended == old(ended) && IsPending(conns, Pending(nextId, schedNs, cls, measured)))
        && (sendFails ==> Ended(nextId, cls, measured, Lost) in ended)
    {
      hide Books, SlotsOk, Round, LostOf;
      BooksShape(Account());
      var k := FindConn();
      if k == |conns| {
        Skip(cls, measured);
        return;
      }
      var j := Place(k, schedNs, cls, measured);
      if sendFails {
        LostHas(conns[k].pend, j);
        DropConn(k);
      }
    }

    static method FirstEmpty(pend: seq<Pending>) returns (j: nat)
      requires exists i :: 0 <= i < |pend| && pend[i].id == 0
      ensures j < |pend| && pend[j].id == 0 && forall i :: 0 <= i < j ==> pend[i].id != 0
    {
      j := 0;
      while pend[j].id != 0
        invariant j < |pend| && forall i :: 0 <= i < j ==> pend[i].id != 0
        decreases |pend| - j
      {
        j := j + 1;
      }
    }

    method Skip(cls: nat, measured: bool)
      requires Valid() && cls < 2
      modifies this`stats, this`ended
      ensures Valid() && |old(stats)| == 2 && ended == old(ended) + [Ended(0, cls, measured, Skipped)]
      ensures stats[cls].sent == old(stats[cls].sent) + (if measured then 1 else 0)
      ensures stats[1 - cls].sent == old(stats[1 - cls].sent)
    {
      hide Books, SlotsOk;
      BooksShape(Account());
      SkipKeepsBooks(Account(), cls, measured);
      if measured { stats := stats[cls := Counted(stats[cls].(sent := stats[cls].sent + 1), Skipped)]; }
      ended := ended + [Ended(0, cls, measured, Skipped)];
      BooksShape(Account());
    }

    /** A usable connection always has an empty slot to search for. */
    method Place(k: nat, schedNs: int, cls: nat, measured: bool) returns (j: nat)
      requires Valid() && k < |conns| && Usable(conns[k]) && cls < 2
      modifies this`conns, this`stats, this`nextId, this`outstandingTotal
      ensures Valid() && |conns| == |old(conns)| && nextId == old(nextId) + 1
      ensures j < |conns[k].pend| && conns[k].pend[j] == Pending(nextId, schedNs, cls, measured) && conns[k].up
      ensures |old(stats)| == |stats| == 2
      ensures stats[cls].sent == old(stats[cls].sent) + (if measured then 1 else 0)
      ensures stats[1 - cls].sent == old(stats[1 - cls].sent)
    {
      hide Books, SlotsOk;
      ghost var l := Account();
      var c := conns[k];
      SlotExists(c, outstanding);
      BooksShape(l);
      j := FirstEmpty(c.pend);
      var p := Pending(nextId + 1, schedNs, cls, measured);
      var c' := c.(pend := c.pend[j := p], free := c.free - 1);
      PlaceKeepsBooks(l, k, j, p);
      PlaceKeepsSlots(c, j, p, outstanding);
      SameBooks(Placed(l, k, j, p), k, c');
      assert conns[k := c.(pend := c.pend[j := p])][k := c'] == conns[k := c'];
      nextId := nextId + 1;
      if measured { stats := stats[cls := stats[cls].(sent := stats[cls].sent + 1)]; }
      conns := conns[k := c'];
      outstandingTotal := outstandingTotal + 1;
    }

    /** The connection closes: everything pending on it is lost, and all its slots are free again. */
    method DropConn(k: nat)
      requires Valid() && k < |conns|
      modifies this`conns, this`stats, this`outstandingTotal, this`ended
      ensures Valid() && |conns| == |old(conns)| && !conns[k].up
      ensures forall i :: 0 <= i < |conns| && i != k ==> conns[i] == old(conns[i])
      ensures ended == old(ended) + if old(conns[k]).up then LostOf(old(conns[k]).pend) else []
      ensures |stats| == |old(stats)| && forall c :: 0 <= c < |stats| ==> stats[c].sent == old(stats[c].sent)
    {
      hide Books, SlotsOk;
      if !conns[k].up { return; }
      ghost var was := conns[k].pend;
      BooksShape(Account());
      var j := 0;
      while j < |conns[k].pend|
        invariant |conns| == |old(conns)| && |conns[k].pend| == |was| && j <= |was| && Books(Account())
        invariant forall i :: 0 <= i < |conns| && i != k ==> conns[i] == old(conns[i])
        invariant forall i :: 0 <= i < j ==> conns[k].pend[i].id == 0
        invariant forall i :: j <= i < |was| ==> conns[k].pend[i] == was[i]
        invariant ended == old(ended) + LostOf(was[..j])
        invariant |stats| == |old(stats)| == 2 && forall c :: 0 <= c < 2 ==> stats[c].sent == old(stats[c].sent)
      {
        assert was[..j + 1][..j] == was[..j];
        if conns[k].pend[j].id != 0 {
          Lose(k, j);
        }
        j := j + 1;
      }
      assert was[..j] == was;
      var c := Conn(false, outstanding, conns[k].pend);
      AllFree(c, outstanding, old(conns[k]));
      SameBooks(Account(), k, c);
      conns := conns[k := c];
    }

    /** Inside a closing connection: the slot is emptied, the free count is left for later. */
    method Lose(k: nat, j: nat)
      requires Books(Account()) && k < |conns| && j < |conns[k].pend| && conns[k].pend[j].id != 0
      modifies this`conns, this`stats, this`outstandingTotal, this`ended
      ensures Books(Account()) && conns == old(conns)[k := Emptied(old(conns[k]), j)]
      ensures var p := old(conns[k]).pend[j]; ended == old(ended) + [Ended(p.id, p.cls, p.measured, Lost)]
      ensures |stats| == |old(stats)| && forall c :: 0 <= c < |stats| ==> stats[c].sent == old(stats[c].sent)
    {
      hide Books, SlotsOk;
      var p := conns[k].pend[j];
      BooksShape(Account());
      EndKeepsBooks(Account(), k, j, Lost);
      stats := CountedIn(stats, p, Lost);
      conns := conns[k := Emptied(conns[k], j)];
      outstandingTotal := outstandingTotal - 1;
      ended := ended + [Ended(p.id, p.cls, p.measured, Lost)];
    }

    /** Everything pending for the timeout or longer ends; everything else stays. */
    method ScanTimeouts(now: int)
      requires Valid()
      modifies this`conns, this`stats, this`outstandingTotal, this`ended
      ensures Valid() && |conns| == |old(conns)|
      ensures forall k, j :: 0 <= k < |conns| && 0 <= j < outstanding ==>
        var p := old(conns)[k].pend[j];
        conns[k].pend[j] == if p.id != 0 && now - p.schedNs >= limit then p.(id := 0) else p
      ensures TimedOut(old(ended), ended)
    {
      hide Books;
      SlotCounts();
      var k := 0;
      while k < |conns|
        invariant |conns| == |old(conns)| && k <= |conns| && Valid() && AllSized(conns, outstanding)
        invariant forall i, j :: 0 <= i < k && 0 <= j < outstanding ==>
          conns[i].pend[j] == Scanned(old(conns)[i].pend[j], now, limit)
        invariant forall i :: k <= i < |conns| ==> conns[i] == old(conns)[i]
        invariant TimedOut(old(ended), ended)
      {
        if conns[k].free != outstanding {
          ScanConn(k, now);
        } else {
          NothingOverdue(conns[k], outstanding, now, limit);
        }
        k := k + 1;
      }
    }

    method ScanConn(k: nat, now: int)
      requires Valid() && k < |conns| && conns[k].free != outstanding
      modifies this`conns, this`stats, this`outstandingTotal, this`ended
      ensures Valid() && |conns| == |old(conns)| && AllSized(conns, outstanding)
      ensures forall i :: 0 <= i < |conns| && i != k ==> conns[i] == old(conns[i])
      ensures forall j :: 0 <= j < outstanding ==> conns[k].pend[j] == Scanned(old(conns)[k].pend[j], now, limit)
      ensures TimedOut(old(ended), ended)
    {
      SlotCounts();
      hide Books, SlotsOk;
      var j := 0;
      while j < outstanding
        invariant j <= outstanding && Valid() && |conns| == |old(conns)| && AllSized(conns, outstanding) && conns[k].up
        invariant forall i :: 0 <= i < |conns| && i != k ==> conns[i] == old(conns[i])
        invariant forall i :: 0 <= i < j ==> conns[k].pend[i] == Scanned(old(conns)[k].pend[i], now, limit)
        invariant forall i :: j <= i < outstanding ==> conns[k].pend[i] == old(conns)[k].pend[i]
        invariant TimedOut(old(ended), ended)
      {
        if Overdue(conns[k].pend[j], now, limit) { End(k, j, Timeout); }
        j := j + 1;
      }
    }

    lemma SlotCounts()
      requires Valid()
      ensures AllSized(conns, outstanding)
    {}

    /** The last scan of a run: with every schedule time before the end of the clock less the timeout, nothing is
        pending any more and each class's sent requests are its outcomes. */
    method Finish()
      requires Valid()
      requires forall k, j :: 0 <= k < |conns| && 0 <= j < outstanding && conns[k].pend[j].id != 0 ==>
        conns[k].pend[j].schedNs <= INT64_MAX - limit
      modifies this`conns, this`stats, this`outstandingTotal, this`ended
      ensures Valid() && outstandingTotal == 0
      ensures |stats| == 2 && forall c :: 0 <= c < 2 ==> var s := stats[c];
        s.sent == s.ok + s.shed + s.late + s.timeout + s.skipped + s.lost
      ensures forall id: nat :: 1 <= id <= nextId ==> Times(ended, id) == 1
    {
      SlotCounts();
      ScanTimeouts(INT64_MAX);
      SlotCounts();
      NothingLeft(Account());
    }

    /** A reconnect came through, or failed for good. */
    method FinishConnect(k: nat, ok: bool)
      requires Valid() && k < |conns| && !conns[k].up
      modifies this`conns
      ensures Valid() && conns == old(conns)[k := old(conns[k]).(up := ok)]
    {
      SameBooks(Account(), k, conns[k].(up := ok));
      hide Books;
      conns := conns[k := conns[k].(up := ok)];
    }
  }

  /** What is lost with a connection, slot by slot. */
  function LostOf(pend: seq<Pending>): seq<Ended> {
    if pend == [] then []
    else
      var p := pend[|pend| - 1];
      LostOf(pend[..|pend| - 1]) + if p.id != 0 then [Ended(p.id, p.cls, p.measured, Lost)] else []
  }

  ghost predicate IsPending(conns: seq<Conn>, p: Pending) {
    exists k, j :: 0 <= k < |conns| && 0 <= j < |conns[k].pend| && conns[k].pend[j] == p
  }

  predicate Overdue(p: Pending, now: int, limit: int) { p.id != 0 && now - p.schedNs >= limit }

  function Scanned(p: Pending, now: int, limit: int): Pending { if Overdue(p, now, limit) then p.(id := 0) else p }

  predicate AllSized(conns: seq<Conn>, outstanding: nat) {
    forall k :: 0 <= k < |conns| ==> |conns[k].pend| == outstanding
  }

  /** Only time-outs were added. */
  predicate TimedOut(before: seq<Ended>, after: seq<Ended>) {
    before <= after && forall e :: |before| <= e < |after| ==> after[e].outcome == Timeout
  }

  lemma {:induction false} NothingOverdueIn(pend: seq<Pending>)
    requires SlotSum(pend, Busy) == 0
    ensures forall j :: 0 <= j < |pend| ==> pend[j].id == 0
  {
    if pend != [] {
      NothingOverdueIn(pend[1..]);
      assert forall j :: 1 <= j < |pend| ==> pend[j] == pend[1..][j - 1];
    }
  }

  /** A connection whose slots are all free has nothing to time out. */
  lemma NothingOverdue(c: Conn, outstanding: nat, now: int, limit: int)
    requires SlotsOk(c, outstanding) && c.free == outstanding
    ensures forall j :: 0 <= j < outstanding ==> Scanned(c.pend[j], now, limit) == c.pend[j]
  {
    NothingOverdueIn(c.pend);
  }

  lemma NothingLeft(l: Ledger)
    requires Books(l) && forall k, j :: 0 <= k < |l.conns| && 0 <= j < |l.conns[k].pend| ==> l.conns[k].pend[j].id == 0
    ensures l.total == 0 && |l.stats| == 2 && forall c :: 0 <= c < 2 ==> l.stats[c].sent == Outcomes(l.stats[c])
    ensures forall id: nat :: 1 <= id <= l.nextId ==> Times(l.ended, id) == 1
  {
    hide ConnSum;
    forall w ensures ConnSum(l.conns, w) == 0 { NoneAnywhere(l.conns, w); }
  }

  predicate UsableAt(conns: seq<Conn>, k: nat) { k < |conns| && Usable(conns[k]) }

  lemma SlotExists(c: Conn, outstanding: nat)
    requires SlotsOk(c, outstanding) && c.free > 0
    ensures exists j :: 0 <= j < |c.pend| && c.pend[j].id == 0
  {
    SomeEmpty(c.pend);
  }

  lemma AllFree(c: Conn, outstanding: nat, was: Conn)
    requires SlotsOk(was, outstanding) && |c.pend| == |was.pend| && c.free == outstanding
    requires forall j :: 0 <= j < |c.pend| ==> c.pend[j].id == 0
    ensures SlotsOk(c, outstanding)
  {
    NoneBusy(c.pend, Busy);
  }

  lemma {:induction false} LostHas(pend: seq<Pending>, j: nat)
    requires j < |pend| && pend[j].id != 0
    ensures Ended(pend[j].id, pend[j].cls, pend[j].measured, Lost) in LostOf(pend)
  {
    if j < |pend| - 1 { LostHas(pend[..|pend| - 1], j); }
  }

  lemma FindSlotIs(pend: seq<Pending>, id: nat, j: nat)
    requires j <= |pend| && (j < |pend| ==> pend[j].id == id) && forall i :: 0 <= i < j ==> pend[i].id != id
    ensures FindSlot(pend, id) == j
  {}

  /** Emptying an empty slot and counting it as freed again breaks the connection's count. */
  lemma Miscount(c: Conn, j: nat, outstanding: nat)
    requires SlotsOk(c, outstanding) && j < |c.pend| && c.pend[j].id == 0
    ensures !SlotsOk(Emptied(c, j).(free := c.free + 1), outstanding)
  {
    SlotUpdate(c.pend, j, c.pend[j].(id := 0), Busy);
  }

  lemma BooksShape(l: Ledger)
    requires Books(l)
    ensures |l.stats| == 2 && ClassesOk(l)
  {}

  /** A reply whose number is not a number names number 0. */
  lemma NonNumberNamesZero()
    ensures Field("NONE|0|id=x", "id=") == Some(0)
  {
    hide IndexOf, Split, Strtoull;
    SplitCons("NONE", '|', "0|id=x");
    SplitCons("0", '|', "id=x");
    SplitNone("id=x", '|');
    assert "NONE" + ['|'] + "0|id=x" == "NONE|0|id=x" && "0" + ['|'] + "id=x" == "0|id=x";
    FieldStep("NONE", ["0"] + ["id=x"], "id=");
    FieldStep("0", ["id=x"], "id=");
    FieldStep("id=x", [], "id=");
    assert "NONE"[0] == 'N' && "id=x"[3..] == "x" && ["id=x"] + [] == ["id=x"];
    NoDigits();
  }

  lemma NoDigits()
    ensures Strtoull("x") == 0
  {
    assert Digits("x") == 0;
  }

  /** Counting a reply to number 0 on a connection of one empty slot, then placing a request: the connection claims a
      free slot and has none left to find. */
  lemma ZeroReplyOverbooks(c: Conn, p: Pending)
    requires c.up && SlotsOk(c, 1) && c.pend[0].id == 0 && p.id != 0
    ensures FindSlot(c.pend, 0) == 0
    ensures var replied := Emptied(c, 0).(free := c.free + 1);
      Usable(replied.(pend := [p], free := replied.free - 1))
  {
    NoneBusy(c.pend, Busy);
  }
}
