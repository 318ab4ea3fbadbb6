/**
 The objects of a boot image: how they are sorted into bins and what bin slots and final offsets
 mean.
 */
module ImageLayout {
  import opened Words
  import opened RelativeCalls

  const OBJECT_ALIGNMENT: nat := 8
  const BIN_SHIFT: nat := 29
  const NUM_BINS: nat := 8

  /** An object, as far as binning goes. */
  datatype Kind =
    | ClassObject(initialized: bool, staticsFinal: seq<bool>)
    | MethodObject(native: bool, declaringInitialized: bool)
    | StringObject(chars: seq<nat>)
    | ArrayObject(elements: seq<Option<nat>>)
    | PlainObject

  /**
   A heap of `count` objects, named by number. `fields(o, c)` are the references that object `o`
   holds in the instance fields declared by class `c`, `statics(o)` those read from a class object
   as static fields; `intern` finds the interned version of a string.
   */
  datatype Heap = Heap(
    count: nat, kind: nat -> Kind, size: nat -> nat, klass: nat -> nat,
    superclass: nat -> Option<nat>, depth: nat -> nat,
    fields: (nat, nat) -> seq<Option<nat>>, statics: nat -> seq<Option<nat>>, intern: nat -> nat)
  {
    predicate InHeap(values: seq<Option<nat>>)
    {
      forall i :: 0 <= i < |values| && values[i].Some? ==> values[i].value < count
    }

    /** The object that owns the slot `o` will have: a string shares that of its interned version. */
    function Owner(o: nat): nat
    {
      if kind(o).StringObject? then intern(o) else o
    }

    /** References stay in the heap, class hierarchies are finite, equal strings intern to one of them. */
    ghost predicate Valid()
    {
      && (forall o :: 0 <= o < count ==> ValidObject(o))
      && (forall o, p :: 0 <= o < count && 0 <= p < count && kind(o).StringObject? && kind(p).StringObject? ==>
            (intern(o) == intern(p) <==> kind(o).chars == kind(p).chars))
    }

    ghost predicate ValidObject(o: nat)
    {
      && 0 < size(o) && klass(o) < count
      && (superclass(o).Some? ==> superclass(o).value < count && depth(superclass(o).value) < depth(o))
      && (forall c :: 0 <= c < count ==> InHeap(fields(o, c))) && InHeap(statics(o))
      && (kind(o).ArrayObject? ==> InHeap(kind(o).elements))
      && (kind(o).StringObject? ==>
            intern(o) < count && kind(intern(o)).StringObject? && kind(intern(o)).chars == kind(o).chars)
    }
  }

  /** An owner owns its own slot. */
  lemma OwnersOwn(h: Heap, o: nat)
    requires h.Valid() && o < h.count
    ensures h.Owner(o) < h.count && h.Owner(h.Owner(o)) == h.Owner(o)
  {
    assert h.ValidObject(o);
  }

  /** The bin, by how likely the object is to be written at run time. */
  function BinOf(kind: Kind): (b: nat)
    ensures b < NUM_BINS
  {
    match kind
    case StringObject(_) => 0
    case MethodObject(native, initialized) => if native then 6 else if initialized then 1 else 7
    case ClassObject(initialized, statics) =>
      if !initialized then 5
      else if forall i :: 0 <= i < |statics| ==> statics[i] then 3 else 4
    case _ => 2
  }

  /** Which objects are in which bin: the likely clean ones first. */
  lemma BinsByKind(kind: Kind)
    ensures BinOf(kind) == 0 <==> kind.StringObject?
    ensures BinOf(kind) == 1 <==> kind.MethodObject? && !kind.native && kind.declaringInitialized
    ensures BinOf(kind) == 2 <==> kind.ArrayObject? || kind.PlainObject?
    ensures BinOf(kind) == 3 <==> kind.ClassObject? && kind.initialized && false !in kind.staticsFinal
    ensures BinOf(kind) == 4 <==> kind.ClassObject? && kind.initialized && false in kind.staticsFinal
    ensures BinOf(kind) == 5 <==> kind.ClassObject? && !kind.initialized
    ensures BinOf(kind) == 6 <==> kind.MethodObject? && kind.native
    ensures BinOf(kind) == 7 <==> kind.MethodObject? && !kind.native && !kind.declaringInitialized
  {
  }

  // ---------------------------------------------------------------- bin slots

  const INDEX_LIMIT: nat := 0x2000_0000

  /** A bin slot in a lock word: the bin in the top three bits, the offset in the bin below. */
  function BinSlot(bin: nat, index: nat): (slot: word)
    requires bin < NUM_BINS
  {
    Wrap(Or(Wrap(index), bin * INDEX_LIMIT))
  }

  function GetBin(slot: word): (b: nat)
    ensures b < NUM_BINS
  {
    slot / INDEX_LIMIT
  }

  function GetIndex(slot: word): nat
  {
    slot % INDEX_LIMIT
  }

  lemma Pow2Limit()
    ensures Pow2(BIN_SHIFT) == INDEX_LIMIT
  {
    assert Pow2(10) == 1024;
    assert Pow2(20) == 1048576;
  }

  /** A slot gives back what was packed into it exactly when the index leaves the bin's bits alone. */
  lemma BinSlotExact(bin: nat, index: nat)
    requires bin < NUM_BINS
    ensures GetBin(BinSlot(bin, index)) == bin && GetIndex(BinSlot(bin, index)) == index <==> index < INDEX_LIMIT
  {
    hide Or, Pow2;
    if index < INDEX_LIMIT {
      Pow2Limit();
      OrDisjoint(index, bin, BIN_SHIFT);
      assert BinSlot(bin, index) == index + bin * INDEX_LIMIT;
      SplitSlot(bin, index);
    }
  }

  lemma SplitSlot(bin: nat, index: nat)
    requires index < INDEX_LIMIT
    ensures (index + bin * INDEX_LIMIT) / INDEX_LIMIT == bin && (index + bin * INDEX_LIMIT) % INDEX_LIMIT == index
  {
  }

  // ---------------------------------------------------------------- sizes

  function Padded(h: Heap, o: nat): (r: nat)
    ensures r % OBJECT_ALIGNMENT == 0
    ensures h.size(o) <= r < h.size(o) + OBJECT_ALIGNMENT
  {
    RoundUpIsLeast(h.size(o), OBJECT_ALIGNMENT);
    RoundUp(h.size(o), OBJECT_ALIGNMENT)
  }

  /** Bytes taken up by a list of objects. */
  function Total(h: Heap, objects: seq<nat>): (r: nat)
    ensures r % OBJECT_ALIGNMENT == 0
  {
    if objects == [] then 0
    else
      var n := |objects| - 1;
      Total(h, objects[..n]) + Padded(h, objects[n])
  }

  lemma {:induction false} TotalSum(h: Heap, a: seq<nat>, b: seq<nat>)
    ensures Total(h, a + b) == Total(h, a) + Total(h, b)
    decreases |b|
  {
    if b == [] {
      assert a + b == a;
    } else {
      var n := |b| - 1;
      assert (a + b)[..|a| + n] == a + b[..n];
      TotalSum(h, a, b[..n]);
    }
  }

  lemma TotalNext(h: Heap, objects: seq<nat>, k: nat)
    requires k < |objects|
    ensures Total(h, objects[..k + 1]) == Total(h, objects[..k]) + Padded(h, objects[k])
  {
    hide Padded;
    assert objects[..k + 1][..k] == objects[..k];
  }

  lemma {:induction false} TotalGrows(h: Heap, objects: seq<nat>, j: nat, k: nat)
    requires j <= k <= |objects|
    ensures Total(h, objects[..j]) <= Total(h, objects[..k])
    decreases k
  {
    hide Padded, Total;
    if j < k {
      TotalNext(h, objects, k - 1);
      TotalGrows(h, objects, j, k - 1);
    }
  }

  /** Offsets that lay out `objects` without gaps or overlaps from `begin` to `end`. */
  ghost predicate Tiles(h: Heap, objects: seq<nat>, offset: map<nat, nat>, begin: nat, end: nat)
  {
    && (forall k :: 0 <= k < |objects| ==>
          objects[k] in offset && offset[objects[k]] == begin + Total(h, objects[..k]))
    && end == begin + Total(h, objects)
  }

  predicate Distinct(objects: seq<nat>)
  {
    forall j, k :: 0 <= j < k < |objects| ==> objects[j] != objects[k]
  }

  /** Extents of different owners are disjoint, and each lies inside the image. */
  lemma TilesDisjoint(h: Heap, objects: seq<nat>, offset: map<nat, nat>, begin: nat, end: nat, j: nat, k: nat)
    requires Tiles(h, objects, offset, begin, end) && j < k < |objects|
    ensures begin <= offset[objects[j]]
    ensures offset[objects[j]] + Padded(h, objects[j]) <= offset[objects[k]]
    ensures offset[objects[k]] + Padded(h, objects[k]) <= end
  {
    hide Padded, Total;
    assert objects[..|objects|] == objects;
    TotalNext(h, objects, j);
    TotalNext(h, objects, k);
    TotalGrows(h, objects, j + 1, k);
    TotalGrows(h, objects, k + 1, |objects|);
  }
}
