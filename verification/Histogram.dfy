/**
 * The log-linear histogram of server/tools/loadgen.cpp: exact buckets below 128, then 64 buckets to every power of
 * two. A quantile read from the buckets is within 1/128 of the sample it stands for.
 */
module Histogram {
  import opened RealFacts

  const SUB: nat := 64
  const SIZE: nat := 2 * SUB + SUB * (64 - 7)

  function Pow2(n: nat): (r: nat)
    ensures r >= 1
  {
    if n == 0 then 1 else 2 * Pow2(n - 1)
  }

  /** The position of the highest set bit. */
  function Log2(v: nat): (e: nat)
    requires v >= 1
    ensures Pow2(e) <= v < 2 * Pow2(e)
  {
    if v == 1 then 0 else 1 + Log2(v / 2)
  }

  /** Shifting right by n is dividing by a power of two; masking with SUB - 1 is the remainder by SUB. */
  function Idx(v: nat): nat {
    if v < 2 * SUB then v
    else
      var e := Log2(v);
      if e < 7 then 0 else 2 * SUB + (e - 7) * SUB + v / Pow2(e - 6) % SUB
  }

  /** The middle of a bucket: half a width is a whole number, since widths start at 2. */
  function Mid(i: nat): nat {
    if i < 2 * SUB then i
    else
      var k := i - 2 * SUB;
      var e := k / SUB + 7;
      (SUB + k % SUB) * Pow2(e - 6) + Pow2(e - 7)
  }

  // ---------------------------------------------------------------- one bucket

  lemma {:induction false} Pow2Monotone(m: nat, n: nat)
    requires m <= n
    ensures Pow2(m) <= Pow2(n)
  {
    if m < n { Pow2Monotone(m, n - 1); }
  }

  lemma Scale(e: nat)
    requires e >= 7
    ensures Pow2(e) == 64 * Pow2(e - 6) && Pow2(e - 6) == 2 * Pow2(e - 7)
  {
    assert Pow2(e) == 2 * Pow2(e - 1) == 4 * Pow2(e - 2) == 8 * Pow2(e - 3);
    assert Pow2(e - 3) == 2 * Pow2(e - 4) == 4 * Pow2(e - 5) == 8 * Pow2(e - 6);
  }

  lemma MulOrder(a: nat, b: nat, w: nat)
    ensures a <= b ==> a * w <= b * w
  {}

  /** Division by a bucket's width. */
  lemma Quotient(v: nat, w: nat)
    requires w >= 1 && 64 * w <= v < 128 * w
    ensures 64 <= v / w < 128 && (v / w) * w <= v < (v / w) * w + w
  {
    var q := v / w;
    assert v == q * w + v % w;
    MulOrder(q, 63, w);
    MulOrder(128, q, w);
  }

  /** A value of 128 or more: its exponent e, the width w of its bucket, and where the bucket lies. */
  lemma Bucket(v: nat) returns (e: nat, w: nat, q: nat)
    requires v >= 2 * SUB
    ensures e == Log2(v) >= 7 && w == Pow2(e - 6) == 2 * Pow2(e - 7) && q == v / w
    ensures 64 <= q < 128 && q * w <= v < q * w + w && 64 * w <= v
    ensures Idx(v) == 2 * SUB + (e - 7) * SUB + (q - 64)
  {
    e := Log2(v);
    assert Pow2(6) == 64;
    Pow2Monotone(if e < 6 then e else 6, 6);
    Scale(e);
    w := Pow2(e - 6);
    Quotient(v, w);
    q := v / w;
    hide Pow2, Log2;
    assert q % SUB == q - 64;
  }

  lemma IdxInRange(v: nat)
    requires v < Pow2(64)
    ensures Idx(v) < SIZE
  {
    if v >= 2 * SUB {
      var e, w, q := Bucket(v);
      if e >= 64 { Pow2Monotone(64, e); }
    }
  }

  /** A relative error of at most 1/128. */
  ghost predicate Within(r: nat, x: nat) { 128 * (r - x) <= x && 128 * (x - r) <= x }

  /** The middle of its bucket is within 1/128 of the value. */
  lemma MidError(v: nat)
    ensures Within(Mid(Idx(v)), v)
  {
    if v >= 2 * SUB {
      var e, w, q := Bucket(v);
      var k := Idx(v) - 2 * SUB;
      assert k / SUB == e - 7 && k % SUB == q - 64;
      assert Mid(Idx(v)) == q * w + Pow2(e - 7);
    }
  }

  lemma {:induction false} Log2Monotone(u: nat, v: nat)
    requires 1 <= u <= v
    ensures Log2(u) <= Log2(v)
  {
    if u > 1 { Log2Monotone(u / 2, v / 2); }
  }

  lemma QuotientOrder(u: nat, v: nat, w: nat, q: nat, q': nat)
    requires q * w <= u <= v < q' * w + w
    ensures q <= q'
  {
    MulOrder(q' + 1, q, w);
  }

  lemma IdxSmall(v: nat)
    requires v < 2 * SUB
    ensures Idx(v) == v
  {}

  lemma IdxMonotone(u: nat, v: nat)
    requires u <= v
    ensures Idx(u) <= Idx(v)
  {
    hide Idx, Log2, Pow2;
    if u >= 2 * SUB {
      var e, w, q := Bucket(u);
      var e', w', q' := Bucket(v);
      Log2Monotone(u, v);
      if e == e' { QuotientOrder(u, v, w, q, q'); }
    } else {
      IdxSmall(u);
      if v >= 2 * SUB { var e, w, q := Bucket(v); } else { IdxSmall(v); }
    }
  }

  // ---------------------------------------------------------------- counting samples

  function CountLe(s: seq<nat>, x: int): (c: nat)
    ensures c <= |s|
  {
    if s == [] then 0 else (if s[0] <= x then 1 else 0) + CountLe(s[1..], x)
  }

  function CountIdx(s: seq<nat>, i: nat): nat {
    if s == [] then 0 else (if Idx(s[0]) == i then 1 else 0) + CountIdx(s[1..], i)
  }

  function CountIdxLe(s: seq<nat>, i: int): nat {
    if s == [] then 0 else (if Idx(s[0]) <= i then 1 else 0) + CountIdxLe(s[1..], i)
  }

  function Sum(s: seq<nat>): nat { if s == [] then 0 else s[0] + Sum(s[1..]) }

  function MaxOf(s: seq<nat>): (m: nat)
    ensures forall i :: 0 <= i < |s| ==> s[i] <= m
    ensures s != [] ==> m in s
  {
    if s == [] then 0
    else
      var rest := MaxOf(s[1..]);
      assert forall i :: 1 <= i < |s| ==> s[i] == s[1..][i - 1];
      if s[0] >= rest then s[0] else rest
  }

  /** The samples in order. */
  function Insert(x: nat, t: seq<nat>): seq<nat> {
    if t == [] then [x] else if x <= t[0] then [x] + t else [t[0]] + Insert(x, t[1..])
  }

  function Sorted(s: seq<nat>): seq<nat> { if s == [] then [] else Insert(s[0], Sorted(s[1..])) }

  ghost predicate IsSorted(t: seq<nat>) { forall i, j :: 0 <= i < j < |t| ==> t[i] <= t[j] }

  lemma {:induction false} InsertSorted(x: nat, t: seq<nat>)
    requires IsSorted(t)
    ensures IsSorted(Insert(x, t)) && |Insert(x, t)| == |t| + 1
    ensures forall y :: CountLe(Insert(x, t), y) == CountLe(t, y) + if x <= y then 1 else 0
    ensures forall y :: y in Insert(x, t) <==> y == x || y in t
  {
    if t != [] && x > t[0] {
      InsertSorted(x, t[1..]);
      assert t == [t[0]] + t[1..];
      var r := Insert(x, t[1..]);
      assert ([t[0]] + r)[1..] == r;
      forall i | 0 <= i < |r| ensures t[0] <= r[i] {
        assert r[i] in r;
      }
    } else {
      assert ([x] + t)[1..] == t;
      assert t != [] ==> t == [t[0]] + t[1..];
    }
  }

  lemma {:induction false} SortedFacts(s: seq<nat>)
    ensures IsSorted(Sorted(s)) && |Sorted(s)| == |s|
    ensures forall y :: y in Sorted(s) <==> y in s
    ensures forall y :: CountLe(Sorted(s), y) == CountLe(s, y)
  {
    if s != [] {
      SortedFacts(s[1..]);
      InsertSorted(s[0], Sorted(s[1..]));
      assert s == [s[0]] + s[1..];
    }
  }

  /** In a sorted list, more than k entries are at most its k-th one (from 0), and at most k are below it. */
  lemma {:induction false} CountAround(t: seq<nat>, k: nat)
    requires IsSorted(t) && k < |t|
    ensures CountLe(t, t[k]) > k && CountLe(t, t[k] as int - 1) <= k
    decreases k
  {
    var rest := t[1..];
    if k > 0 {
      CountAround(rest, k - 1);
    } else {
      NoneBelow(t, t[0] as int - 1);
    }
  }

  lemma {:induction false} NoneBelow(t: seq<nat>, x: int)
    requires forall i :: 0 <= i < |t| ==> x < t[i]
    ensures CountLe(t, x) == 0
  {
    if t != [] { NoneBelow(t[1..], x); }
  }

  /** Buckets up to that of x hold every sample up to x; buckets before it hold only samples below x. */
  lemma {:induction false} BucketsAround(s: seq<nat>, x: nat, i: int)
    ensures i >= Idx(x) ==> CountIdxLe(s, i) >= CountLe(s, x)
    ensures i < Idx(x) ==> CountIdxLe(s, i) <= CountLe(s, x as int - 1)
  {
    if s != [] {
      BucketsAround(s[1..], x, i);
      if s[0] <= x { IdxMonotone(s[0], x); }
      if x <= s[0] { IdxMonotone(x, s[0]); }
    }
  }

  lemma {:induction false} IdxLeStep(s: seq<nat>, i: nat)
    ensures CountIdxLe(s, i) == CountIdxLe(s, i - 1) + CountIdx(s, i)
  {
    if s != [] { IdxLeStep(s[1..], i); }
  }

  lemma {:induction false} IdxLeNone(s: seq<nat>)
    ensures CountIdxLe(s, -1) == 0
  {
    if s != [] { IdxLeNone(s[1..]); }
  }

  lemma {:induction false} Joined(a: seq<nat>, b: seq<nat>)
    ensures forall i :: CountIdx(a + b, i) == CountIdx(a, i) + CountIdx(b, i)
    ensures Sum(a + b) == Sum(a) + Sum(b)
    ensures MaxOf(a + b) == if MaxOf(a) >= MaxOf(b) then MaxOf(a) else MaxOf(b)
  {
    if a == [] {
      assert a + b == b;
    } else {
      assert (a + b)[1..] == a[1..] + b;
      Joined(a[1..], b);
    }
  }

  lemma One(v: nat)
    ensures forall i :: CountIdx([v], i) == if Idx(v) == i then 1 else 0
    ensures Sum([v]) == v && MaxOf([v]) == v
  {
    hide Idx;
  }

  lemma {:induction false} AllCounted(s: seq<nat>)
    requires forall k :: 0 <= k < |s| ==> s[k] < Pow2(64)
    ensures CountIdxLe(s, SIZE - 1) == |s|
  {
    if s != [] {
      assert forall k :: 0 <= k < |s[1..]| ==> s[1..][k] == s[k + 1];
      AllCounted(s[1..]);
      IdxInRange(s[0]);
    }
  }

  lemma {:induction false} AtMostAll(s: seq<nat>, i: int)
    ensures CountIdxLe(s, i) <= |s|
  {
    if s != [] { AtMostAll(s[1..], i); }
  }

  // ---------------------------------------------------------------- the class

  /** The k-th smallest sample, counted from 1. */
  function KthSmallest(s: seq<nat>, k: nat): (x: nat)
    requires 1 <= k <= |s|
  {
    SortedFacts(s);
    Sorted(s)[k - 1]
  }

  /** The bucket where the running count first reaches the rank is the bucket of the sample of that rank. */
  lemma RankBucket(s: seq<nat>, rank: nat, i: nat)
    requires 1 <= rank <= |s| && CountIdxLe(s, i) >= rank && CountIdxLe(s, i - 1) < rank
    ensures i == Idx(KthSmallest(s, rank)) && KthSmallest(s, rank) <= MaxOf(s)
  {
    hide Idx, CountLe, CountIdxLe, Sorted, MaxOf;
    var x := KthSmallest(s, rank);
    SortedFacts(s);
    CountAround(Sorted(s), rank - 1);
    BucketsAround(s, x, i);
    BucketsAround(s, x, i - 1);
    assert x in Sorted(s);
  }

  /** What pct returns from that bucket. */
  lemma Answer(s: seq<nat>, rank: nat, i: nat)
    requires 1 <= rank <= |s| && CountIdxLe(s, i) >= rank && CountIdxLe(s, i - 1) < rank
    ensures Within(if Mid(i) <= MaxOf(s) then Mid(i) else MaxOf(s), KthSmallest(s, rank))
  {
    hide Mid, Idx, MaxOf, KthSmallest, CountIdxLe;
    RankBucket(s, rank, i);
    MidError(KthSmallest(s, rank));
  }

  lemma MidZero()
    ensures Mid(0) == 0
  {}

  /** The rank that pct looks for. */
  function Rank(p: real, n: nat): int { Ceil(p * n as real) }

  lemma RankInRange(p: real, n: nat)
    requires 0.0 <= p && n > 0
    ensures p == 0.0 ==> Rank(p, n) == 0
    ensures 0.0 < p <= 1.0 ==> 1 <= Rank(p, n) <= n
    ensures p > 1.0 ==> Rank(p, n) > n
    ensures (Rank(p, n) - 1) as real < p * n as real <= Rank(p, n) as real
  {
    var x := n as real;
    assert p <= 1.0 ==> p * x <= x by { if p <= 1.0 { assert (1.0 - p) * x >= 0.0; } }
    assert p > 1.0 ==> p * x > x by { if p > 1.0 { assert (p - 1.0) * x > 0.0; } }
    assert p > 0.0 ==> p * x > 0.0;
  }

  class Hist {
    const b: array<nat>
    var n: nat
    var sum: nat
    var max: nat
    ghost var samples: seq<nat>

    ghost predicate Valid()
      reads this, b
    {
      && b.Length == SIZE && n == |samples| && sum == Sum(samples) && max == MaxOf(samples)
      && (forall i :: 0 <= i < SIZE ==> b[i] == CountIdx(samples, i))
      && (forall k :: 0 <= k < n ==> samples[k] < Pow2(64))
    }

    constructor ()
      ensures Valid() && fresh(b) && samples == []
    {
      b := new nat[SIZE](i => 0);
      n, sum, max := 0, 0, 0;
      samples := [];
    }

    /** Negative durations count as zero. */
    method Add(us: int)
      requires Valid() && us < Pow2(63)
      modifies this, b
      ensures Valid() && samples == old(samples) + [if us < 0 then 0 else us]
    {
      hide Idx, CountIdx, Sum, MaxOf, Pow2;
      var v := if us < 0 then 0 else us;
      Pow2Monotone(63, 64);
      Pow2Monotone(0, 63);
      IdxInRange(v);
      Joined(samples, [v]);
      One(v);
      b[Idx(v)] := b[Idx(v)] + 1;
      n := n + 1;
      sum := sum + v;
      max := if max >= v then max else v;
      samples := samples + [v];
    }

    /** Adds the other histogram's samples; merging a histogram into itself doubles it. */
    method Merge(o: Hist)
      requires Valid() && o.Valid() && (o != this ==> o.b != b)
      modifies this, b
      ensures Valid() && samples == old(samples) + old(o.samples)
    {
      hide Idx, CountIdx, Sum, MaxOf, Pow2;
      Joined(samples, o.samples);
      var i := 0;
      while i < SIZE
        invariant 0 <= i <= SIZE
        invariant forall k :: 0 <= k < i ==> b[k] == old(b[k]) + old(o.b[k])
        invariant forall k :: i <= k < SIZE ==> b[k] == old(b[k]) && o.b[k] == old(o.b[k])
        invariant unchanged(`n) && unchanged(`sum) && unchanged(`max) && unchanged(`samples)
        invariant o.n == old(o.n) && o.sum == old(o.sum) && o.max == old(o.max)
      {
        b[i] := b[i] + o.b[i];
        i := i + 1;
      }
      n := n + o.n;
      sum := sum + o.sum;
      max := if max >= o.max then max else o.max;
      samples := samples + old(o.samples);
    }

    /** The p-quantile: within 1/128 of the sample of rank ceil(p n). */
    method Pct(p: real) returns (r: nat)
      requires Valid() && 0.0 <= p
      ensures n == 0 || p == 0.0 ==> r == 0
      ensures n > 0 && 0.0 < p <= 1.0 ==>
        && 1 <= Rank(p, n) <= n && r <= max
        && Within(r, KthSmallest(samples, Rank(p, n)))
      ensures n > 0 ==> (Rank(p, n) - 1) as real < p * n as real <= Rank(p, n) as real
      ensures n > 0 && p > 1.0 ==> r == max
    {
      hide Idx, Mid, CountIdx, CountIdxLe, Sum, MaxOf, Pow2, KthSmallest, Rank, Within;
      if n == 0 { return 0; }
      RankInRange(p, n);
      AllCounted(samples);
      var target := Rank(p, n);
      assert target >= 1 || p == 0.0;
      var acc, i := 0, 0;
      IdxLeNone(samples);
      while i < SIZE
        invariant 0 <= i <= SIZE && acc == CountIdxLe(samples, i - 1)
        invariant i > 0 ==> acc < target
        invariant target >= 0
      {
        acc := acc + b[i];
        IdxLeStep(samples, i);
        AtMostAll(samples, i);
        if acc >= target {
          r := if Mid(i) <= max then Mid(i) else max;
          if target >= 1 { Answer(samples, target, i); } else { MidZero(); }
          return;
        }
        i := i + 1;
      }
      r := max;
    }
  }
}
