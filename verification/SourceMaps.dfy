/**
 Maps from machine code to source lines, and their conversion from absolute values to deltas.
 */
module SourceMaps {
  import opened Words
  import opened Leb128

  datatype SrcMapElem = SrcMapElem(from: word, to: int32)

  predicate SortedByFrom(s: seq<SrcMapElem>)
  {
    forall i, j :: 0 <= i < j < |s| ==> s[i].from <= s[j].from
  }

  /** `s` without its highest elements; the first one always stays. */
  function Trim(s: seq<SrcMapElem>, highestPc: word): (r: seq<SrcMapElem>)
    ensures r <= s
    ensures s != [] ==> r != []
  {
    if |s| <= 1 || s[|s| - 1].from < highestPc then s else Trim(s[..|s| - 1], highestPc)
  }

  /** Trimming a sorted map drops exactly what lies at or above the end, the first element aside. */
  lemma {:induction false} TrimDropsTheHighest(s: seq<SrcMapElem>, highestPc: word, k: nat)
    requires SortedByFrom(s) && 0 < k < |s|
    ensures k < |Trim(s, highestPc)| <==> s[k].from < highestPc
  {
    if s[|s| - 1].from >= highestPc {
      if k < |s| - 1 {
        TrimDropsTheHighest(s[..|s| - 1], highestPc, k);
      }
    }
  }

  /** The element before the k-th: `start` for the first. */
  function Before(start: SrcMapElem, s: seq<SrcMapElem>, k: nat): SrcMapElem
    requires k < |s|
  {
    if k == 0 then start else s[k - 1]
  }

  /** Element-wise difference in the fields' own 32-bit arithmetic. */
  function Minus(a: SrcMapElem, b: SrcMapElem): SrcMapElem
  {
    SrcMapElem(Wrap(a.from - b.from), Signed(Wrap(a.to - b.to)))
  }

  function Deltas(start: SrcMapElem, s: seq<SrcMapElem>): (r: seq<SrcMapElem>)
    ensures |r| == |s|
  {
    seq(|s|, k requires 0 <= k < |s| => Minus(s[k], Before(start, s, k)))
  }

  /** The elements up to `n` are sorted, but for the one at `i`, which may belong further down. */
  predicate Sinking(s: seq<SrcMapElem>, n: nat, i: nat)
    requires n < |s|
  {
    forall a, b :: 0 <= a < b <= n && b != i ==> s[a].from <= s[b].from
  }

  lemma SwapKeeps(s: seq<SrcMapElem>, n: nat, i: nat)
    requires 0 < i <= n < |s| && Sinking(s, n, i) && s[i].from < s[i - 1].from
    ensures multiset(s[i - 1 := s[i]][i := s[i - 1]]) == multiset(s)
    ensures Sinking(s[i - 1 := s[i]][i := s[i - 1]], n, i - 1)
  {
  }

  class SrcMap {
    var elems: seq<SrcMapElem>

    constructor (elems: seq<SrcMapElem>)
      ensures this.elems == elems
    {
      this.elems := elems;
    }

    /** Inserts the element at index `n` into the sorted elements before it. */
    method Sink(n: nat)
      requires n < |elems| && SortedByFrom(elems[..n])
      modifies this
      ensures |elems| == old(|elems|) && SortedByFrom(elems[..n + 1])
      ensures multiset(elems) == multiset(old(elems))
    {
      var i := n;
      while 0 < i && elems[i].from < elems[i - 1].from
        invariant 0 <= i <= n && |elems| == old(|elems|) && multiset(elems) == multiset(old(elems))
        invariant Sinking(elems, n, i)
      {
        hide Sinking;
        SwapKeeps(elems, n, i);
        elems := elems[i - 1 := elems[i]][i := elems[i - 1]];
        i := i - 1;
      }
    }

    method SortByFrom()
      modifies this
      ensures SortedByFrom(elems) && multiset(elems) == multiset(old(elems))
    {
      for n := 0 to |elems|
        invariant |elems| == old(|elems|) && multiset(elems) == multiset(old(elems))
        invariant SortedByFrom(elems[..n])
      {
        Sink(n);
      }
      assert elems[..|elems|] == elems;
    }

    method TrimHighest(highestPc: word)
      modifies this
      ensures elems == Trim(old(elems), highestPc)
    {
      if elems == [] {
        return;
      }
      var i := |elems| - 1;
      assert elems[..i + 1] == elems;
      while 0 < i && elems[i].from >= highestPc
        invariant 0 <= i < |elems|
        invariant Trim(elems[..i + 1], highestPc) == Trim(elems, highestPc)
      {
        assert elems[..i + 1][..i] == elems[..i];
        i := i - 1;
      }
      elems := elems[..i + 1];
    }

    /** Each element but the first minus its predecessor, from the end down; then the first one. */
    method ToDeltas(start: SrcMapElem)
      modifies this
      ensures elems == Deltas(start, old(elems))
    {
      if elems == [] {
        return;
      }
      ghost var was := elems;
      var i := |elems| - 1;
      while 1 <= i
        invariant 0 <= i < |was| == |elems|
        invariant forall k :: 0 <= k <= i ==> elems[k] == was[k]
        invariant forall k :: i < k < |was| ==> elems[k] == Minus(was[k], was[k - 1])
      {
        elems := elems[i := Minus(elems[i], elems[i - 1])];
        i := i - 1;
      }
      elems := elems[0 := Minus(elems[0], start)];
    }

    /** DeltaFormat; `sorted` is the order the sort chose among equal addresses. */
    method DeltaFormat(start: SrcMapElem, highestPc: word) returns (ghost sorted: seq<SrcMapElem>)
      modifies this
      ensures SortedByFrom(sorted) && multiset(sorted) == multiset(old(elems))
      ensures elems == Deltas(start, Trim(sorted, highestPc))
    {
      SortByFrom();
      sorted := elems;
      TrimHighest(highestPc);
      ToDeltas(start);
    }
  }
}
