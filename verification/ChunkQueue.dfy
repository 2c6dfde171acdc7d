/** The block-linked FIFO queue of server/ChunkQueue.h. */
module ChunkQueue {

  class Chunk<T(0)> {
    const slot: array<T>
    var next: Chunk?<T>

    constructor (slots: nat)
      ensures slot.Length == slots && next == null && fresh(slot)
    {
      slot := new T[slots];
      next := null;
    }
  }

  /** (n + d - 1) / d: how many blocks of d slots n slots need. */
  function CeilDiv(n: nat, d: nat): nat
    requires d > 0
  {
    (n + d - 1) / d
  }

  /** Bounding n between consecutive multiples of d from below, and from both sides. */
  lemma CeilDivBounds(n: nat, d: nat, k: nat)
    requires d > 0 && k > 0 && (k - 1) * d < n
    ensures k <= CeilDiv(n, d)
    ensures n <= k * d ==> CeilDiv(n, d) == k
  {
    var q := CeilDiv(n, d);
    assert n + d - 1 == q * d + (n + d - 1) % d;
    assert k * d == (k - 1) * d + d && (q + 1) * d == q * d + d && (k + 1) * d == k * d + d;
    if q < k {
      MulMono(q + 1, k, d);
    }
    if n <= k * d && k < q {
      MulMono(k + 1, q, d);
    }
  }

  lemma CeilDivZero(d: nat)
    requires d > 0
    ensures CeilDiv(0, d) == 0
  {}

  lemma MulMono(x: nat, y: nat, d: nat)
    requires x <= y
    ensures x * d <= y * d
  {}

  /** The number of slots in i blocks of n; the multiplication is spelled out so that proofs stay linear. */
  ghost function Offset(n: nat, i: nat): nat {
    if i == 0 then 0 else Offset(n, i - 1) + n
  }

  lemma {:induction false} OffsetMono(n: nat, i: nat, j: nat)
    requires i <= j
    ensures Offset(n, i) <= Offset(n, j) && (i < j ==> Offset(n, i) + n <= Offset(n, j))
  {
    if i < j { OffsetMono(n, i, j - 1); }
  }

  lemma {:induction false} OffsetIsProduct(n: nat, i: nat)
    ensures Offset(n, i) == i * n
  {
    if i > 0 {
      OffsetIsProduct(n, i - 1);
      assert i * n == (i - 1) * n + n;
    }
  }

  class ChunkQueue<T(0)> {
    const N: nat
    var head: Chunk?<T>
    var tail: Chunk?<T>
    var spare: Chunk?<T>
    var headIdx: nat
    var tailIdx: nat
    var size: nat
    var chunks: nat

    ghost var Contents: seq<T>         // the queued elements, oldest first
    ghost var chain: seq<Chunk<T>>     // the linked blocks from head to tail
    ghost var Repr: set<object>
    ghost var pushes: nat              // calls of Push so far
    ghost var allocations: nat         // blocks ever allocated
    ghost var grabs: nat               // calls of Grab so far

    ghost predicate IsBlock(c: Chunk<T>)
      reads this, Repr
    {
      c in Repr && c.slot in Repr && c.slot.Length == N
    }

    /** Blocks are disjoint and linked in chain order. */
    ghost predicate Linked()
      reads this, Repr
    {
      && (forall i :: 0 <= i < |chain| ==> IsBlock(chain[i]))
      && (forall i, j :: 0 <= i < j < |chain| ==> chain[i] != chain[j] && chain[i].slot != chain[j].slot)
      && (forall i, j :: 0 <= i < |chain| - 1 && j == i + 1 ==> chain[i].next == chain[j])
      && (chain != [] ==> chain[|chain| - 1].next == null)
      && head == (if chain == [] then null else chain[0])
      && tail == (if chain == [] then null else chain[|chain| - 1])
      && (spare != null ==> IsBlock(spare) && forall i :: 0 <= i < |chain| ==>
           chain[i] != spare && chain[i].slot != spare.slot)
    }

    /** Element number Offset(i) + j - first lies in slot j of block i. */
    ghost predicate Holds(elems: seq<T>, first: nat)
      requires forall i :: 0 <= i < |chain| ==> chain[i].slot.Length == N
      reads this, chain, set i | 0 <= i < |chain| :: chain[i].slot
    {
      forall i, j :: 0 <= i < |chain| && 0 <= j < N && first <= Offset(N, i) + j < first + |elems|
        ==> elems[Offset(N, i) + j - first] == chain[i].slot[j]
    }

    ghost predicate Stored()
      requires forall i :: 0 <= i < |chain| ==> chain[i].slot.Length == N
      reads this, chain, set i | 0 <= i < |chain| :: chain[i].slot
    {
      Holds(Contents, headIdx)
    }

    /** The representation, apart from what Push still has to restore after adding an empty tail block. */
    ghost predicate Core()
      reads this, Repr
    {
      && this in Repr && N > 0
      && Linked()
      && |Contents| == size
      && Stored()
      && chunks == |chain| + (if spare == null then 0 else 1)
      && chunks <= allocations <= grabs
      && (chain != [] ==>
           && headIdx < N && tailIdx <= N && grabs > 0
           && headIdx + size == Offset(N, |chain| - 1) + tailIdx)
    }

    ghost predicate Valid()
      reads this, Repr
      ensures Valid() ==> this in Repr && size == |Contents|
    {
      && Core()
      && (chain == [] ==> size == 0 && spare == null && pushes == 0 && grabs == 0)
      && (chain != [] ==>
           && (size == 0 ==> |chain| == 1 && headIdx == 0 && spare == null)
           && (size > 0 ==> tailIdx > 0)
           && Offset(N, grabs - 1) + (if tailIdx == 0 then 1 else tailIdx) <= pushes)
    }

    constructor (slots: nat)
      requires slots > 0
      ensures Valid() && fresh(Repr) && N == slots
      ensures Contents == [] && pushes == 0 && chunks == 0
    {
      N := slots;
      head, tail, spare := null, null, null;
      headIdx, tailIdx, size, chunks := 0, 0, 0, 0;
      Contents, chain, Repr := [], [], {this};
      pushes, allocations, grabs := 0, 0, 0;
    }

    /** A block for the tail: the spare one if there is one, else a new one. */
    method Grab() returns (c: Chunk<T>)
      requires Valid()
      modifies this`spare, this`chunks, this`Repr, this`allocations, this`grabs,
        (if spare == null then {} else {spare})`next
      ensures c.next == null && IsBlock(c) && Apart(c) && fresh(Repr - old(Repr)) && old(Repr) <= Repr
      ensures c == old(spare) || (fresh(c) && fresh(c.slot))
      ensures spare == null && chunks == |chain| + 1 && chunks <= allocations <= grabs == old(grabs) + 1
      ensures this in Repr && Linked() && Stored()
    {
      hide Linked, Stored, Offset;
      if spare != null { c := TakeSpare(); } else { c := Allocate(); }
    }

    method TakeSpare() returns (c: Chunk<T>)
      requires this in Repr && Linked() && Stored() && spare != null
      modifies this`spare, this`grabs, spare`next
      ensures c == old(spare) && c.next == null && IsBlock(c) && Apart(c)
      ensures Linked() && Stored() && spare == null && grabs == old(grabs) + 1
    {
      hide Offset;
      grabs := grabs + 1;
      c := spare;
      spare := null;
      c.next := null;
    }

    method Allocate() returns (c: Chunk<T>)
      requires this in Repr && Linked() && Stored() && spare == null
      modifies this`chunks, this`Repr, this`allocations, this`grabs
      ensures fresh(c) && fresh(c.slot) && c.next == null && IsBlock(c) && Apart(c)
      ensures Repr == old(Repr) + {c, c.slot} && Linked() && Stored()
      ensures chunks == old(chunks) + 1 && allocations == old(allocations) + 1 && grabs == old(grabs) + 1
    {
      hide Offset;
      grabs := grabs + 1;
      chunks := chunks + 1;
      c := new Chunk(N);
      allocations := allocations + 1;
      Repr := Repr + {c, c.slot};
    }

    /** Makes sure the tail block has a free slot. */
    method Extend()
      requires Valid()
      modifies Repr
      ensures Core() && fresh(Repr - old(Repr))
      ensures chain != [] && tailIdx < N && Offset(N, grabs - 1) + tailIdx <= pushes
      ensures size == 0 ==> |chain| == 1 && headIdx == 0 && spare == null
      ensures Contents == old(Contents) && pushes == old(pushes)
    {
      if tail == null {
        var c := Grab();
        head, tail := c, c;
        headIdx, tailIdx := 0, 0;
        chain := [c];
      } else if tailIdx == N {
        Append();
      }
    }

    method Append()
      requires Valid() && tail != null && tailIdx == N
      modifies Repr
      ensures Core() && fresh(Repr - old(Repr))
      ensures chain != [] && tailIdx < N && Offset(N, grabs - 1) + tailIdx <= pushes
      ensures size == old(size) > 0
      ensures Contents == old(Contents) && pushes == old(pushes)
    {
      NonEmptyTail();
      hide Linked, Stored;
      var c := Grab();
      Link(c);
    }

    /** A full tail block means that something is queued. */
    lemma NonEmptyTail()
      requires Valid() && tail != null && tailIdx == N
      ensures size > 0 && chain != [] && |Contents| == size && N > 0 && headIdx < N
      ensures headIdx + size == Offset(N, |chain| - 1) + tailIdx && Offset(N, grabs - 1) + N <= pushes && grabs > 0
    {}

    /** Hangs an empty block behind the tail. */
    method Link(c: Chunk<T>)
      requires this in Repr && N > 0 && Linked() && |Contents| == size && Stored() && chain != [] && spare == null
      requires IsBlock(c) && c.next == null && Apart(c)
      requires headIdx < N && tailIdx == N && headIdx + size == Offset(N, |chain| - 1) + tailIdx
      requires chunks == |chain| + 1 && chunks <= allocations <= grabs
      modifies this`tail, this`tailIdx, this`chain, tail`next
      ensures Core() && |chain| == old(|chain|) + 1 && tailIdx == 0
    {
      tail.next := c;
      tail := c;
      tailIdx := 0;
      chain := chain + [c];
    }

    method Push(v: T)
      requires Valid()
      modifies Repr
      ensures Valid() && fresh(Repr - old(Repr))
      ensures Contents == old(Contents) + [v] && pushes == old(pushes) + 1
    {
      Extend();
      Store(v);
    }

    method Store(v: T)
      requires Core() && chain != [] && tailIdx < N && Offset(N, grabs - 1) + tailIdx <= pushes
      requires size == 0 ==> |chain| == 1 && headIdx == 0 && spare == null
      modifies this`tailIdx, this`size, this`Contents, this`pushes, tail.slot
      ensures Valid()
      ensures Contents == old(Contents) + [v] && pushes == old(pushes) + 1
    {
      Write(v);
      Include(v);
    }

    /** Counts the freshly written slot in. */
    method Include(v: T)
      requires Core() && chain != [] && tailIdx < N && Offset(N, grabs - 1) + tailIdx <= pushes
      requires size == 0 ==> |chain| == 1 && headIdx == 0 && spare == null
      requires tail.slot[tailIdx] == v
      modifies this`tailIdx, this`size, this`Contents, this`pushes
      ensures Valid()
      ensures Contents == old(Contents) + [v] && pushes == old(pushes) + 1
    {
      HoldsOneMore(v);
      hide Holds;
      Contents := Contents + [v];
      tailIdx := tailIdx + 1;
      size := size + 1;
      pushes := pushes + 1;
    }

    /** The tail slot is the place of the next element. */
    lemma HoldsOneMore(v: T)
      requires Core() && chain != [] && tailIdx < N && tail.slot[tailIdx] == v
      ensures Holds(Contents + [v], headIdx)
    {
      OffsetBelow();
      var last := |chain| - 1;
      hide Offset;
      forall i, j | 0 <= i < |chain| && 0 <= j < N && headIdx <= Offset(N, i) + j < headIdx + size + 1
        ensures (Contents + [v])[Offset(N, i) + j - headIdx] == chain[i].slot[j]
      {
        if i < last { assert Offset(N, i) + j < Offset(N, last); }
      }
    }

    /** The free tail slot holds none of the queued elements. */
    method Write(v: T)
      requires Core() && chain != [] && tailIdx < N
      modifies tail.slot
      ensures Core() && tail.slot[tailIdx] == v
    {
      OffsetBelow();
      tail.slot[tailIdx] := v;
    }

    /** Every earlier block ends before the tail block starts. */
    lemma OffsetBelow()
      ensures forall i :: 0 <= i < |chain| - 1 ==> Offset(N, i) + N <= Offset(N, |chain| - 1)
    {
      forall i | 0 <= i < |chain| - 1 ensures Offset(N, i) + N <= Offset(N, |chain| - 1) {
        OffsetMono(N, i, |chain| - 1);
      }
    }

    /** Takes the oldest element; prev stands for the caller's variable, left alone when the queue is empty. */
    method Pop(prev: T) returns (ok: bool, out: T)
      requires Valid()
      modifies Repr
      ensures Valid() && Repr == old(Repr) && pushes == old(pushes)
      ensures ok <==> old(Contents) != []
      ensures ok ==> old(Contents) == [out] + Contents
      ensures !ok ==> Contents == old(Contents) && out == prev
      ensures old(Contents) != [] && Contents == [] ==> chunks == 1
    {
      if size == 0 { return false, prev; }
      ok := true;
      out := Advance();
      if size == 0 {
        Reset();
      } else if headIdx == N {
        DropHead();
      }
    }

    /** Reads the head slot and steps past it, perhaps to the end of the head block. */
    method Advance() returns (out: T)
      requires Core() && chain != [] && size > 0 && tailIdx > 0
      modifies this`headIdx, this`size, this`Contents
      ensures headIdx == old(headIdx) + 1 && size == old(size) - 1
      ensures old(Contents) == [out] + Contents && size == |Contents| && Stored()
      ensures size == 0 ==> |chain| == 1
      ensures headIdx == N && size > 0 ==> |chain| > 1
    {
      OffsetBelow();
      out := head.slot[headIdx];
      assert out == Contents[Offset(N, 0) + headIdx - headIdx];
      headIdx := headIdx + 1;
      size := size - 1;
      Contents := Contents[1..];
    }

    /** Nothing is queued: reuse the one linked block from its start and free the spare. */
    method Reset()
      requires this in Repr && N > 0 && Linked() && |chain| == 1 && size == 0 && Contents == []
      requires chunks == 1 + (if spare == null then 0 else 1) && chunks <= allocations <= grabs
      requires 0 < tailIdx && Offset(N, grabs - 1) + tailIdx <= pushes
      modifies this`headIdx, this`tailIdx, this`spare, this`chunks
      ensures Valid() && chunks == 1
    {
      headIdx, tailIdx := 0, 0;
      if spare != null {
        spare := null;
        chunks := chunks - 1;
      }
    }

    /** The head block has been read to its end: unlink it and keep or free it. */
    method DropHead()
      requires this in Repr && N > 0 && Linked() && |Contents| == size && Stored()
      requires chunks == |chain| + (if spare == null then 0 else 1) && chunks <= allocations <= grabs
      requires |chain| > 1 && headIdx == N && 0 < tailIdx <= N && size > 0
      requires N + size == Offset(N, |chain| - 1) + tailIdx && Offset(N, grabs - 1) + tailIdx <= pushes
      modifies this, head
      ensures Valid() && Repr == old(Repr) && Contents == old(Contents) && pushes == old(pushes)
    {
      hide Linked, Stored, Offset, IsBlock;
      var gone := Unlink();
      Release(gone);
    }

    /** The second block becomes the head; element numbers fall by one block. */
    method Unlink() returns (gone: Chunk<T>)
      requires this in Repr && N > 0 && Linked() && |Contents| == size && Stored()
      requires |chain| > 1 && headIdx == N && N + size == Offset(N, |chain| - 1) + tailIdx
      modifies this`head, this`headIdx, this`chain
      ensures Linked() && Stored() && |chain| == old(|chain|) - 1 > 0 && headIdx == 0
      ensures size == Offset(N, |chain| - 1) + tailIdx && gone == old(head)
      ensures IsBlock(gone) && Apart(gone) && gone != spare && (spare != null ==> gone.slot != spare.slot)
    {
      gone := head;
      head := head.next;
      headIdx := 0;
      chain := chain[1..];
    }

    /** A block outside the chain. */
    ghost predicate Apart(c: Chunk<T>)
      reads this, Repr
    {
      c !in chain && forall i :: 0 <= i < |chain| ==> chain[i].slot != c.slot
    }

    method Release(c: Chunk<T>)
      requires chunks > 0 && this in Repr && Linked() && Stored() && IsBlock(c) && Apart(c)
      modifies this`spare, this`chunks, c`next
      ensures Linked() && Stored()
      ensures old(spare) == null ==> spare == c && c.next == null && chunks == old(chunks)
      ensures old(spare) != null ==> spare == old(spare) && unchanged(c) && chunks == old(chunks) - 1
    {
      hide Offset;
      if spare == null {
        c.next := null;
        spare := c;
      } else {
        chunks := chunks - 1;
      }
    }

    /** The exact memory bill: the linked blocks are what the occupied slots need, and allocations follow pushes. */
    lemma BlockCount()
      requires Valid()
      ensures chain == [] ==> chunks == 0
      ensures chain != [] && size == 0 ==> chunks == 1
      ensures size > 0 ==> |chain| == CeilDiv(headIdx + size, N) && |chain| <= chunks <= |chain| + 1
      ensures allocations <= CeilDiv(pushes, N)
    {
      hide CeilDiv, Stored, Linked;
      if chain != [] {
        OffsetIsProduct(N, |chain| - 1);
        OffsetIsProduct(N, grabs - 1);
        assert |chain| * N == (|chain| - 1) * N + N;
        if size > 0 { CeilDivBounds(headIdx + size, N, |chain|); }
        CeilDivBounds(pushes, N, grabs);
      } else {
        CeilDivZero(N);
      }
    }
  }
}
