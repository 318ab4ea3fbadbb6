/**
 Laying out a boot image: a walk over the heap that gives every object a bin slot, and the pass
 that turns slots into offsets.
 */
module ImageWriter {
  import opened Words
  import opened RelativeCalls
  import opened ImageLayout
  import opened ImageWalk

  // ---------------------------------------------------------------- what the slots mean

  /** `o` is the k-th owner in its bin and its slot says so. */
  ghost predicate OwnerSlot(h: Heap, lockWord: map<nat, word>, owners: seq<seq<nat>>, b: nat, k: nat)
    requires b < |owners| == NUM_BINS && k < |owners[b]|
  {
    var o := owners[b][k];
    && o < h.count && h.Owner(o) == o && BinOf(h.kind(o)) == b
    && o in lockWord && lockWord[o] == BinSlot(b, Total(h, owners[b][..k]))
  }

  /** The owner of the object's slot has been given it, in its bin. */
  ghost predicate Served(h: Heap, lockWord: map<nat, word>, owners: seq<seq<nat>>, o: nat)
    requires |owners| == NUM_BINS && o in lockWord
  {
    var p := h.Owner(o);
    o < h.count && p in lockWord && lockWord[o] == lockWord[p] && p in owners[BinOf(h.kind(p))]
  }

  /** `owners` lists each bin's slot owners in the order in which they were placed. */
  ghost predicate SlotsRight(h: Heap, lockWord: map<nat, word>, owners: seq<seq<nat>>)
  {
    && |owners| == NUM_BINS
    && (forall b, k :: 0 <= b < NUM_BINS && 0 <= k < |owners[b]| ==> OwnerSlot(h, lockWord, owners, b, k))
    && (forall b :: 0 <= b < NUM_BINS ==> Distinct(owners[b]))
    && (forall o :: o in lockWord ==> Served(h, lockWord, owners, o))
  }

  lemma OwnersListed(h: Heap, lockWord: map<nat, word>, owners: seq<seq<nat>>, b: nat, x: nat)
    requires SlotsRight(h, lockWord, owners) && b < NUM_BINS && x in owners[b]
    ensures x in lockWord && x < h.count && h.Owner(x) == x && BinOf(h.kind(x)) == b
  {
    var k :| 0 <= k < |owners[b]| && owners[b][k] == x;
    assert OwnerSlot(h, lockWord, owners, b, k);
  }

  lemma PlacedOwnerSlot(h: Heap, lockWord: map<nat, word>, owners: seq<seq<nat>>, o: nat, b: nat, c: nat, k: nat)
    requires SlotsRight(h, lockWord, owners)
    requires o !in lockWord && o < h.count && h.Owner(o) == o && b == BinOf(h.kind(o))
    requires c < NUM_BINS && k < |owners[b := owners[b] + [o]][c]|
    ensures OwnerSlot(h, lockWord[o := BinSlot(b, Total(h, owners[b]))], owners[b := owners[b] + [o]], c, k)
  {
    hide BinSlot, BinOf, Total, Distinct, Served, Heap.Owner;
    var owners' := owners[b := owners[b] + [o]];
    if c == b && k == |owners[b]| {
      assert owners'[c][..k] == owners[b];
    } else {
      assert OwnerSlot(h, lockWord, owners, c, k);
      assert owners'[c][..k] == owners[c][..k];
    }
  }

  lemma PlacedDistinct(h: Heap, lockWord: map<nat, word>, owners: seq<seq<nat>>, o: nat, b: nat)
    requires SlotsRight(h, lockWord, owners) && o !in lockWord && b < NUM_BINS
    ensures Distinct(owners[b] + [o])
  {
    hide OwnerSlot, Served;
    assert Distinct(owners[b]);
    forall k | 0 <= k < |owners[b]|
      ensures owners[b][k] != o
    {
      OwnersListed(h, lockWord, owners, b, owners[b][k]);
    }
  }

  lemma PlacedServed(h: Heap, lockWord: map<nat, word>, owners: seq<seq<nat>>, o: nat, b: nat, x: nat, slot: word)
    requires SlotsRight(h, lockWord, owners)
    requires o !in lockWord && o < h.count && h.Owner(o) == o && b == BinOf(h.kind(o)) && (x == o || x in lockWord)
    ensures Served(h, lockWord[o := slot], owners[b := owners[b] + [o]], x)
  {
    hide BinOf, Total, Distinct, OwnerSlot, Heap.Owner;
    if x != o {
      assert Served(h, lockWord, owners, x);
    }
  }

  /** Placing an owner at the end of its bin. */
  lemma PlaceOwner(h: Heap, lockWord: map<nat, word>, owners: seq<seq<nat>>, o: nat, b: nat)
    requires SlotsRight(h, lockWord, owners)
    requires o !in lockWord && o < h.count && h.Owner(o) == o && b == BinOf(h.kind(o))
    ensures SlotsRight(h, lockWord[o := BinSlot(b, Total(h, owners[b]))], owners[b := owners[b] + [o]])
  {
    hide BinSlot, BinOf, Total, Distinct, OwnerSlot, Served, Heap.Owner;
    var after, owners' := lockWord[o := BinSlot(b, Total(h, owners[b]))], owners[b := owners[b] + [o]];
    forall c, k | 0 <= c < NUM_BINS && 0 <= k < |owners'[c]|
      ensures OwnerSlot(h, after, owners', c, k)
    {
      PlacedOwnerSlot(h, lockWord, owners, o, b, c, k);
    }
    PlacedDistinct(h, lockWord, owners, o, b);
    forall x | x in after
      ensures Served(h, after, owners', x)
    {
      PlacedServed(h, lockWord, owners, o, b, x, BinSlot(b, Total(h, owners[b])));
    }
  }

  lemma OwnerSlotStays(h: Heap, lockWord: map<nat, word>, owners: seq<seq<nat>>, o: nat, slot: word, c: nat, k: nat)
    requires SlotsRight(h, lockWord, owners) && o !in lockWord && c < NUM_BINS && k < |owners[c]|
    ensures OwnerSlot(h, lockWord[o := slot], owners, c, k)
  {
    hide BinSlot, BinOf, Total, Distinct, Heap.Owner, Served;
    assert OwnerSlot(h, lockWord, owners, c, k);
  }

  lemma ShareServed(h: Heap, lockWord: map<nat, word>, owners: seq<seq<nat>>, o: nat, x: nat)
    requires SlotsRight(h, lockWord, owners) && o !in lockWord && (x == o || x in lockWord)
    requires o < h.count && h.Owner(o) in lockWord && h.Owner(h.Owner(o)) == h.Owner(o)
    ensures Served(h, lockWord[o := lockWord[h.Owner(o)]], owners, x)
  {
    hide BinOf, Distinct, OwnerSlot, Heap.Owner;
    assert Served(h, lockWord, owners, h.Owner(o));
    if x != o {
      assert Served(h, lockWord, owners, x);
    }
  }

  /** A string that is not the interned one takes over the interned one's slot. */
  lemma ShareSlot(h: Heap, lockWord: map<nat, word>, owners: seq<seq<nat>>, o: nat)
    requires SlotsRight(h, lockWord, owners)
    requires o !in lockWord && o < h.count && h.Owner(o) in lockWord && h.Owner(h.Owner(o)) == h.Owner(o)
    ensures SlotsRight(h, lockWord[o := lockWord[h.Owner(o)]], owners)
  {
    hide BinSlot, BinOf, Total, Distinct, Heap.Owner, Served, OwnerSlot;
    var after := lockWord[o := lockWord[h.Owner(o)]];
    forall c, k | 0 <= c < NUM_BINS && 0 <= k < |owners[c]|
      ensures OwnerSlot(h, after, owners, c, k)
    {
      OwnerSlotStays(h, lockWord, owners, o, lockWord[h.Owner(o)], c, k);
    }
    forall x | x in after
      ensures Served(h, after, owners, x)
    {
      ShareServed(h, lockWord, owners, o, x);
    }
  }

  function Sum(sizes: seq<nat>): nat
  {
    if sizes == [] then 0 else Sum(sizes[..|sizes| - 1]) + sizes[|sizes| - 1]
  }

  lemma {:induction false} SumUpdate(sizes: seq<nat>, b: nat, delta: nat)
    requires b < |sizes|
    ensures Sum(sizes[b := sizes[b] + delta]) == Sum(sizes) + delta
    decreases |sizes|
  {
    var n := |sizes| - 1;
    var after := sizes[b := sizes[b] + delta];
    if b < n {
      assert after[..n] == sizes[..n][b := sizes[..n][b] + delta];
      SumUpdate(sizes[..n], b, delta);
    } else {
      assert after[..n] == sizes[..n];
    }
  }

  /** The bins' sizes and counts are those of their owners. */
  ghost predicate SizesRight(h: Heap, sizes: seq<nat>, counts: seq<nat>, owners: seq<seq<nat>>)
  {
    && |sizes| == |counts| == |owners| == NUM_BINS
    && forall b :: 0 <= b < NUM_BINS ==> sizes[b] == Total(h, owners[b]) && counts[b] == |owners[b]|
  }

  /** What has a slot keeps it. */
  ghost predicate Extends(before: map<nat, word>, after: map<nat, word>)
  {
    forall o :: o in before ==> o in after && after[o] == before[o]
  }

  /** The objects of a list that belong in a bin. */
  function InBin(h: Heap, objects: seq<nat>, b: nat): seq<nat>
  {
    if objects == [] then []
    else
      var n := |objects| - 1;
      InBin(h, objects[..n], b) + (if BinOf(h.kind(objects[n])) == b then [objects[n]] else [])
  }

  /** A list of objects sorted into bins. */
  function Bins(h: Heap, objects: seq<nat>): (r: seq<seq<nat>>)
    ensures |r| == NUM_BINS
  {
    seq(NUM_BINS, b requires 0 <= b < NUM_BINS => InBin(h, objects, b))
  }

  lemma BinsNext(h: Heap, objects: seq<nat>, o: nat)
    ensures var b := BinOf(h.kind(o));
            Bins(h, objects + [o]) == Bins(h, objects)[b := Bins(h, objects)[b] + [o]]
  {
    hide BinOf;
    assert (objects + [o])[..|objects|] == objects;
    forall b | 0 <= b < NUM_BINS
      ensures InBin(h, objects + [o], b) == InBin(h, objects, b) + if b == BinOf(h.kind(o)) then [o] else []
    {
    }
    var b := BinOf(h.kind(o));
    var after := Bins(h, objects)[b := Bins(h, objects)[b] + [o]];
    forall c | 0 <= c < NUM_BINS
      ensures Bins(h, objects + [o])[c] == after[c]
    {
    }
  }

  lemma NoBins(h: Heap)
    ensures Bins(h, []) == [[], [], [], [], [], [], [], []]
  {
  }

  // ---------------------------------------------------------------- the writer

  class Writer {
    const heap: Heap
    const begin: nat
    /** The lock words of objects in forwarding state. */
    var lockWord: map<nat, word>
    var binSizes: seq<nat>
    var binCounts: seq<nat>
    var imageEnd: nat
    /** The offsets marked in the image's bitmap. */
    var imageBitmap: set<int>
    ghost var owners: seq<seq<nat>>
    /** The owners in the order in which they were placed. */
    ghost var placed: seq<nat>

    ghost function Placed(): Placement
      reads this
    {
      Placement(lockWord.Keys, placed)
    }

    ghost predicate Valid()
      reads this
    {
      && heap.Valid()
      && SlotsRight(heap, lockWord, owners)
      && SizesRight(heap, binSizes, binCounts, owners)
      && imageEnd == begin + Sum(binSizes)
      && owners == Bins(heap, placed)
    }

    constructor (heap: Heap, begin: nat)
      requires heap.Valid()
      ensures Valid() && this.heap == heap && this.begin == begin
      ensures lockWord == map[] && imageBitmap == {} && placed == []
    {
      this.heap, this.begin := heap, begin;
      lockWord, imageEnd, imageBitmap := map[], begin, {};
      binSizes, binCounts, owners := [0, 0, 0, 0, 0, 0, 0, 0], [0, 0, 0, 0, 0, 0, 0, 0],
        [[], [], [], [], [], [], [], []];
      placed := [];
      new;
      NoBins(heap);
      assert Sum(binSizes) == 0 by { SumZeros(binSizes); }
    }

    ghost function Unassigned(): set<nat>
      reads this
    {
      Below(heap.count) - lockWord.Keys
    }

    method AssignImageBinSlot(o: nat)
      requires Valid() && o < heap.count && o !in lockWord && heap.Owner(o) == o
      modifies this`lockWord, this`binSizes, this`binCounts, this`imageEnd, this`owners, this`placed
      ensures Valid() && lockWord.Keys == old(lockWord.Keys) + {o} && Extends(old(lockWord), lockWord)
      ensures placed == old(placed) + [o]
    {
      hide heap.Valid, BinOf, Total, Sum, SlotsRight, BinSlot, Bins;
      BinsNext(heap, placed, o);
      var bin := BinOf(heap.kind(o));
      var currentOffset := binSizes[bin];
      var offsetDelta := Padded(heap, o);
      PlaceOwner(heap, lockWord, owners, o, bin);
      SumUpdate(binSizes, bin, offsetDelta);
      AppendTotal(heap, owners[bin], o);
      binSizes := binSizes[bin := binSizes[bin] + offsetDelta];
      lockWord := lockWord[o := BinSlot(bin, currentOffset)];
      binCounts := binCounts[bin := binCounts[bin] + 1];
      imageEnd := imageEnd + offsetDelta;
      owners := owners[bin := owners[bin] + [o]];
      placed := placed + [o];
    }

    /** CalculateObjectBinSlots: a string goes where its interned version goes. */
    method CalculateObjectBinSlots(o: nat)
      requires Valid() && o < heap.count && (heap.kind(o).StringObject? || o !in lockWord)
      modifies this`lockWord, this`binSizes, this`binCounts, this`imageEnd, this`owners, this`placed
      ensures Valid() && o in lockWord && Extends(old(lockWord), lockWord)
      ensures Placed() == if o in old(lockWord) then old(Placed()) else PlaceObject(heap, old(Placed()), o)
    {
      hide SlotsRight, SizesRight, Sum, Bins;
      OwnersOwn(heap, o);
      if heap.kind(o).StringObject? {
        if o in lockWord {
          return;
        }
        var interned := heap.intern(o);
        if o != interned {
          if interned !in lockWord {
            AssignImageBinSlot(interned);
          }
          ShareSlot(heap, lockWord, owners, o);
          lockWord := lockWord[o := lockWord[interned]];
          return;
        }
      }
      AssignImageBinSlot(o);
    }

    method WalkValues(values: seq<Option<nat>>)
      requires Valid() && heap.InHeap(values)
      modifies this`lockWord, this`binSizes, this`binCounts, this`imageEnd, this`owners, this`placed
      ensures Valid() && Extends(old(lockWord), lockWord)
      ensures Objects(heap, Present(values)) && Placed() == Walk(heap, old(Placed()), Present(values))
      decreases Unassigned(), 1
    {
      hide SlotsRight, SizesRight, Sum, Heap.Valid, Walk, Bins;
      NothingToVisit(heap, Placed(), []);
      PresentInHeap(heap, values);
      for i := 0 to |values|
        invariant Valid() && Extends(old(lockWord), lockWord)
        invariant Unassigned() <= old(Unassigned())
        invariant Objects(heap, Present(values[..i])) && Placed() == Walk(heap, old(Placed()), Present(values[..i]))
      {
        PresentNext(values, i);
        if values[i].Some? {
          WalkBoth(heap, old(Placed()), Present(values[..i]), [values[i].value]);
          WalkFieldsInOrder(values[i].value);
        } else {
          assert Present(values[..i + 1]) == Present(values[..i]);
        }
      }
      assert values[..|values|] == values;
    }

    /** WalkInstanceFields: the fields of superclasses come first. */
    method WalkInstanceFields(o: nat, klass: nat)
      requires Valid() && o < heap.count && klass < heap.count
      modifies this`lockWord, this`binSizes, this`binCounts, this`imageEnd, this`owners, this`placed
      ensures Valid() && Extends(old(lockWord), lockWord)
      ensures Objects(heap, FieldsAlong(heap, o, Chain(heap, klass)))
      ensures Placed() == Walk(heap, old(Placed()), FieldsAlong(heap, o, Chain(heap, klass)))
      decreases Unassigned(), 2 + heap.depth(klass)
    {
      hide SlotsRight, SizesRight, Sum, Walk, Bins, Present, FieldsAlong;
      assert heap.ValidObject(klass) && heap.ValidObject(o);
      FieldsOfClass(heap, o, klass);
      PresentInHeap(heap, heap.fields(o, klass));
      assert [] + Present(heap.fields(o, klass)) == Present(heap.fields(o, klass));
      if heap.superclass(klass).Some? {
        WalkInstanceFields(o, heap.superclass(klass).value);
        WalkBoth(heap, old(Placed()), FieldsAlong(heap, o, Chain(heap, heap.superclass(klass).value)),
                 Present(heap.fields(o, klass)));
      }
      WalkValues(heap.fields(o, klass));
    }

    /** WalkFieldsInOrder: an object without a slot gets one, then everything it refers to. */
    method WalkFieldsInOrder(o: nat)
      requires Valid() && o < heap.count
      modifies this`lockWord, this`binSizes, this`binCounts, this`imageEnd, this`owners, this`placed
      ensures Valid() && o in lockWord && Extends(old(lockWord), lockWord)
      ensures Placed() == Walk(heap, old(Placed()), [o])
      decreases Unassigned(), 0
    {
      hide SlotsRight, SizesRight, Sum, Walk, Bins, Present, FieldsAlong, Chain;
      assert heap.ValidObject(o);
      WalkDepthFirst(heap, Placed(), o);
      if o !in lockWord {
        CalculateObjectBinSlots(o);
        ghost var s := Placed();
        assert o in old(Unassigned()) && o !in Unassigned();
        WalkInstanceFields(o, heap.klass(o));
        FurtherInHeap(heap, o);
        WalkBoth(heap, s, FieldsAlong(heap, o, Chain(heap, heap.klass(o))), Further(heap, o));
        NothingToVisit(heap, Placed(), []);
        if heap.kind(o).ClassObject? {
          WalkValues(heap.statics(o));
        } else if heap.kind(o).ArrayObject? {
          WalkValues(heap.kind(o).elements);
        }
      }
    }

    /** All objects of the heap, in the order in which the heap visits them. */
    method AssignSlots(order: seq<nat>)
      requires Valid() && Objects(heap, order)
      modifies this`lockWord, this`binSizes, this`binCounts, this`imageEnd, this`owners, this`placed
      ensures Valid() && Extends(old(lockWord), lockWord)
      ensures forall i :: 0 <= i < |order| ==> order[i] in lockWord
      ensures Placed() == Walk(heap, old(Placed()), order)
    {
      hide SlotsRight, SizesRight, Sum, Heap.Valid, Walk, Bins;
      NothingToVisit(heap, Placed(), []);
      for i := 0 to |order|
        invariant Valid() && Extends(old(lockWord), lockWord)
        invariant forall j :: 0 <= j < i ==> order[j] in lockWord
        invariant Placed() == Walk(heap, old(Placed()), order[..i])
      {
        WalkBoth(heap, old(Placed()), order[..i], [order[i]]);
        assert order[..i] + [order[i]] == order[..i + 1];
        WalkFieldsInOrder(order[i]);
      }
      assert order[..|order|] == order;
    }

    /** GetBinSizeSum, which accumulates in an int. */
    method BinSizeSum(upTo: nat) returns (sum: int)
      requires upTo <= |binSizes|
      ensures sum == Narrowed(Sum(binSizes[..upTo]))
    {
      hide Narrowed;
      sum := 0;
      NarrowedStep(0, 0);
      for b := 0 to upTo
        invariant sum == Narrowed(Sum(binSizes[..b]))
      {
        SumNext(binSizes, b);
        NarrowedStep(Sum(binSizes[..b]), binSizes[b]);
        sum := Narrowed(sum + binSizes[b]);
      }
    }

    /** UnbinObjectsIntoOffset for every object: the lock word's slot becomes an offset, which is marked. */
    method UnbinObjects(order: seq<nat>)
      requires |binSizes| == NUM_BINS && Distinct(order) && forall i :: 0 <= i < |order| ==> order[i] in lockWord
      modifies this`lockWord, this`imageBitmap
      ensures lockWord.Keys == old(lockWord.Keys)
      ensures forall i :: 0 <= i < |order| ==>
              lockWord[order[i]] == Wrap(NewOffset(begin, binSizes, old(lockWord)[order[i]]))
      ensures imageBitmap ==
              old(imageBitmap) + set i | 0 <= i < |order| :: NewOffset(begin, binSizes, old(lockWord)[order[i]])
    {
      hide Sum, GetBin, GetIndex, Narrowed;
      ghost var slots := lockWord;
      for i := 0 to |order|
        invariant lockWord.Keys == slots.Keys
        invariant forall j :: 0 <= j < i ==> lockWord[order[j]] == Wrap(NewOffset(begin, binSizes, slots[order[j]]))
        invariant forall j :: i <= j < |order| ==> lockWord[order[j]] == slots[order[j]]
        invariant imageBitmap == old(imageBitmap) + set j | 0 <= j < i :: NewOffset(begin, binSizes, slots[order[j]])
      {
        var slot := lockWord[order[i]];
        var previousBinSizes := BinSizeSum(GetBin(slot));
        var offset := begin + previousBinSizes + GetIndex(slot);
        imageBitmap := imageBitmap + {offset};
        lockWord := lockWord[order[i] := Wrap(offset)];
      }
    }

    /** The two passes over the heap, each in the order in which the heap visits its objects. */
    method CalculateNewObjectOffsets(order: seq<nat>)
      requires Valid() && lockWord == map[] && imageBitmap == {} && placed == []
      requires Distinct(order) && forall o: nat :: o in order <==> o < heap.count
      modifies this
      ensures |binSizes| == NUM_BINS && lockWord.Keys == Below(heap.count) && Objects(heap, order)
      ensures BinsFit(binSizes) && imageEnd < 0x8000_0000 ==>
                && LaidOut(heap, lockWord, ImageOrder(heap, order), begin, imageEnd)
                && forall x :: x in imageBitmap <==> exists o :: o in lockWord && lockWord[o] == x
    {
      hide SlotsRight, Flat, Sum, LaidOut, OffsetOf, NewOffset, Heap.Valid, BinsFit, Distinct, Bins, Walk;
      assert forall i :: 0 <= i < |order| ==> order[i] in order;
      AssignSlots(order);
      assert old(Placed()) == Placement({}, []);
      ghost var slots := lockWord;
      assert forall o :: o in slots <==> o in order by { SlotsInHeap(heap, lockWord, owners); }
      UnbinObjects(order);
      if BinsFit(binSizes) && imageEnd < 0x8000_0000 {
        forall o | o in slots
          ensures NewOffset(begin, binSizes, slots[o]) == OffsetOf(begin, binSizes, slots[o]) < 0x8000_0000
        {
          NewOffsetExact(heap, slots, binSizes, binCounts, owners, begin, o);
        }
        OffsetsLaidOut(heap, slots, binSizes, binCounts, owners, begin, lockWord);
        MarksAreOffsets(order, slots, lockWord, imageBitmap, begin, binSizes);
      }
    }
  }

  // ---------------------------------------------------------------- from slots to offsets

  /** The slot owners bin by bin, in each bin as a walk over the heap in visiting order comes to them. */
  ghost function ImageOrder(h: Heap, order: seq<nat>): seq<nat>
    requires h.Valid() && Objects(h, order)
  {
    Flat(Bins(h, Walk(h, Placement({}, []), order).placed))
  }

  /** `layout` lists the slot owners; they tile the image, and every other string is where its interned version is. */
  ghost predicate LaidOut(h: Heap, offset: map<nat, nat>, layout: seq<nat>, begin: nat, end: nat)
  {
    && Distinct(layout) && Tiles(h, layout, offset, begin, end)
    && (forall o: nat :: o < h.count ==> o in offset && (o in layout <==> h.Owner(o) == o))
    && (forall o: nat :: o < h.count ==> h.Owner(o) in offset && offset[o] == offset[h.Owner(o)])
  }

  lemma SlotsInHeap(h: Heap, lockWord: map<nat, word>, owners: seq<seq<nat>>)
    requires SlotsRight(h, lockWord, owners)
    ensures forall o :: o in lockWord ==> o < h.count
  {
  }

  /** The bins laid end to end. */
  function Flat(lists: seq<seq<nat>>): seq<nat>
  {
    if lists == [] then [] else Flat(lists[..|lists| - 1]) + lists[|lists| - 1]
  }

  lemma FlatNext(lists: seq<seq<nat>>, b: nat)
    requires b < |lists|
    ensures Flat(lists[..b + 1]) == Flat(lists[..b]) + lists[b]
  {
    assert lists[..b + 1][..b] == lists[..b];
  }

  lemma SumNext(sizes: seq<nat>, b: nat)
    requires b < |sizes|
    ensures Sum(sizes[..b + 1]) == Sum(sizes[..b]) + sizes[b]
  {
    assert sizes[..b + 1][..b] == sizes[..b];
  }

  lemma {:induction false} FlatTotal(h: Heap, sizes: seq<nat>, counts: seq<nat>, owners: seq<seq<nat>>, b: nat)
    requires SizesRight(h, sizes, counts, owners) && b <= NUM_BINS
    ensures Total(h, Flat(owners[..b])) == Sum(sizes[..b])
  {
    hide Total, Flat, Sum;
    if b == 0 {
      assert owners[..0] == [] && sizes[..0] == [];
      EmptyBins(h);
    } else {
      FlatTotal(h, sizes, counts, owners, b - 1);
      FlatNext(owners, b - 1);
      SumNext(sizes, b - 1);
      TotalSum(h, Flat(owners[..b - 1]), owners[b - 1]);
    }
  }

  lemma EmptyBins(h: Heap)
    ensures Total(h, Flat([])) == 0 && Sum([]) == 0
  {
  }

  /** AssignImageOffset: the bins before this one, and the place in the bin. */
  function OffsetOf(begin: nat, sizes: seq<nat>, slot: word): nat
    requires |sizes| == NUM_BINS
  {
    begin + Sum(sizes[..GetBin(slot)]) + GetIndex(slot)
  }

  /** A sum kept in a 32-bit int. */
  function Narrowed(x: int): int
  {
    Signed(Wrap(x))
  }

  lemma NarrowedStep(x: int, y: int)
    ensures Narrowed(Narrowed(x) + y) == Narrowed(x + y) && Narrowed(0) == 0
  {
    assert Wrap(Signed(Wrap(x)) + y) == Wrap(x + y);
  }

  /** The int holds the sum exactly when it is below 2^31. */
  lemma NarrowedExactly(x: nat)
    ensures Narrowed(x) == x <==> x < 0x8000_0000
  {
  }

  /** The offset as computed, with the sum over the bins before in an int. */
  function NewOffset(begin: nat, sizes: seq<nat>, slot: word): int
    requires |sizes| == NUM_BINS
  {
    begin + Narrowed(Sum(sizes[..GetBin(slot)])) + GetIndex(slot)
  }

  lemma {:induction false} SumOfPart(sizes: seq<nat>, b: nat)
    requires b <= |sizes|
    ensures Sum(sizes[..b]) <= Sum(sizes)
    decreases |sizes| - b
  {
    if b < |sizes| {
      SumNext(sizes, b);
      SumOfPart(sizes, b + 1);
    } else {
      assert sizes[..b] == sizes;
    }
  }

  lemma NewOffsetExact(h: Heap, slots: map<nat, word>, sizes: seq<nat>, counts: seq<nat>, owners: seq<seq<nat>>,
                       begin: nat, o: nat)
    requires h.Valid() && SlotsRight(h, slots, owners) && SizesRight(h, sizes, counts, owners) && BinsFit(sizes)
    requires begin + Sum(sizes) < 0x8000_0000 && o in slots
    ensures NewOffset(begin, sizes, slots[o]) == OffsetOf(begin, sizes, slots[o]) < 0x8000_0000
  {
    hide SlotsRight, Flat, Sum, Heap.Valid, BinsFit, Total, Heap.Owner, GetBin, GetIndex, Narrowed, Distinct;
    SumOfPart(sizes, GetBin(slots[o]));
    NarrowedExactly(Sum(sizes[..GetBin(slots[o])]));
    OwnerServed(h, slots, owners, o);
    SlotsTile(h, slots, sizes, counts, owners, begin);
    OwnerInLayout(h, slots, owners, o);
    var layout := Flat(owners);
    var k :| 0 <= k < |layout| && layout[k] == h.Owner(o);
    TotalGrows(h, layout, k, |layout|);
    assert layout[..|layout|] == layout;
  }

  lemma OwnerInLayout(h: Heap, slots: map<nat, word>, owners: seq<seq<nat>>, o: nat)
    requires SlotsRight(h, slots, owners) && o in slots
    ensures h.Owner(o) in Flat(owners)
  {
    hide Flat, OwnerSlot;
    assert Served(h, slots, owners, o);
    FlatHolds(owners, h.Owner(o));
  }

  lemma MarksAreOffsets(order: seq<nat>, slots: map<nat, word>, offset: map<nat, word>, marks: set<int>, begin: nat,
                        sizes: seq<nat>)
    requires |sizes| == NUM_BINS && offset.Keys == slots.Keys && forall o :: o in slots <==> o in order
    requires forall o :: o in slots ==> 0 <= NewOffset(begin, sizes, slots[o]) < 0x8000_0000
    requires forall o :: o in slots ==> offset[o] == Wrap(NewOffset(begin, sizes, slots[o]))
    requires marks == set i | 0 <= i < |order| :: NewOffset(begin, sizes, slots[order[i]])
    ensures forall x :: x in marks <==> exists o :: o in offset && offset[o] == x
  {
    hide NewOffset;
    assert forall o :: o in slots ==> offset[o] == NewOffset(begin, sizes, slots[o]);
    forall x | x in marks
      ensures exists o :: o in offset && offset[o] == x
    {
      var i :| 0 <= i < |order| && x == NewOffset(begin, sizes, slots[order[i]]);
      assert order[i] in offset;
    }
    forall o | o in offset
      ensures offset[o] in marks
    {
      var i :| 0 <= i < |order| && order[i] == o;
    }
  }

  function Offsets(begin: nat, sizes: seq<nat>, lockWord: map<nat, word>): map<nat, nat>
    requires |sizes| == NUM_BINS
  {
    map o | o in lockWord :: OffsetOf(begin, sizes, lockWord[o])
  }

  /** No bin outgrows the 29 bits that a slot has for the place in the bin. */
  predicate BinsFit(sizes: seq<nat>)
  {
    forall b :: 0 <= b < |sizes| ==> sizes[b] <= INDEX_LIMIT
  }

  lemma OwnerOffset(h: Heap, lockWord: map<nat, word>, sizes: seq<nat>, counts: seq<nat>, owners: seq<seq<nat>>,
                    begin: nat, b: nat, j: nat)
    requires h.Valid() && SlotsRight(h, lockWord, owners) && SizesRight(h, sizes, counts, owners) && BinsFit(sizes)
    requires b < NUM_BINS && j < |owners[b]|
    ensures owners[b][j] in lockWord
    ensures OffsetOf(begin, sizes, lockWord[owners[b][j]]) == begin + Sum(sizes[..b]) + Total(h, owners[b][..j])
  {
    hide Total, Sum, BinSlot, GetBin, GetIndex, BinOf, Served, Padded;
    assert OwnerSlot(h, lockWord, owners, b, j);
    assert h.ValidObject(owners[b][j]);
    var bin := owners[b];
    TotalNext(h, bin, j);
    TotalGrows(h, bin, j + 1, |bin|);
    assert bin[..|bin|] == bin;
    BinSlotExact(b, Total(h, bin[..j]));
  }

  /** The k-th object of the bins laid end to end stands right behind those before it. */
  lemma {:induction false} FlatOffset(
      h: Heap, lockWord: map<nat, word>, sizes: seq<nat>, counts: seq<nat>, owners: seq<seq<nat>>,
      begin: nat, b: nat, k: nat)
    requires h.Valid() && SlotsRight(h, lockWord, owners) && SizesRight(h, sizes, counts, owners) && BinsFit(sizes)
    requires b <= NUM_BINS && k < |Flat(owners[..b])|
    ensures var o := Flat(owners[..b])[k];
            o in lockWord && OffsetOf(begin, sizes, lockWord[o]) == begin + Total(h, Flat(owners[..b])[..k])
  {
    hide Total, Sum, OffsetOf, SlotsRight, BinsFit, Flat, Heap.Valid;
    if b == 0 {
      assert owners[..0] == [];
      EmptyFlat();
    } else {
      var left, right := Flat(owners[..b - 1]), owners[b - 1];
      FlatNext(owners, b - 1);
      if k < |left| {
        FlatOffset(h, lockWord, sizes, counts, owners, begin, b - 1, k);
        assert (left + right)[..k] == left[..k];
      } else {
        var j := k - |left|;
        OwnerOffset(h, lockWord, sizes, counts, owners, begin, b - 1, j);
        assert (left + right)[..k] == left + right[..j];
        TotalSum(h, left, right[..j]);
        FlatTotal(h, sizes, counts, owners, b - 1);
      }
    }
  }

  lemma EmptyFlat()
    ensures Flat([]) == []
  {
  }

  /** Bins that fit tile the image from its first object to its end. */
  lemma SlotsTile(h: Heap, lockWord: map<nat, word>, sizes: seq<nat>, counts: seq<nat>, owners: seq<seq<nat>>,
                  begin: nat)
    requires h.Valid() && SlotsRight(h, lockWord, owners) && SizesRight(h, sizes, counts, owners) && BinsFit(sizes)
    ensures Tiles(h, Flat(owners), Offsets(begin, sizes, lockWord), begin, begin + Sum(sizes))
  {
    hide Total, Sum, OffsetOf, SlotsRight, BinsFit, Flat, Heap.Valid;
    assert owners[..NUM_BINS] == owners && sizes[..NUM_BINS] == sizes;
    FlatTotal(h, sizes, counts, owners, NUM_BINS);
    forall k | 0 <= k < |Flat(owners)|
      ensures Flat(owners)[k] in lockWord
      ensures OffsetOf(begin, sizes, lockWord[Flat(owners)[k]]) == begin + Total(h, Flat(owners)[..k])
    {
      FlatOffset(h, lockWord, sizes, counts, owners, begin, NUM_BINS, k);
    }
  }

  lemma {:induction false} FlatHolds(lists: seq<seq<nat>>, x: nat)
    ensures x in Flat(lists) <==> exists b :: 0 <= b < |lists| && x in lists[b]
    decreases |lists|
  {
    if lists != [] {
      var n := |lists| - 1;
      FlatHolds(lists[..n], x);
      assert Flat(lists) == Flat(lists[..n]) + lists[n];
      if x in Flat(lists[..n]) {
        var b :| 0 <= b < n && x in lists[..n][b];
        assert x in lists[b];
      }
    }
  }

  /** The objects laid out are exactly those that own their slot. */
  lemma OwnersExactly(h: Heap, lockWord: map<nat, word>, owners: seq<seq<nat>>, o: nat)
    requires SlotsRight(h, lockWord, owners) && o in lockWord
    ensures o in Flat(owners) <==> h.Owner(o) == o
  {
    hide Flat, OwnerSlot, BinOf;
    FlatHolds(owners, o);
    assert Served(h, lockWord, owners, o);
    if o in Flat(owners) {
      var b :| 0 <= b < |owners| && o in owners[b];
      OwnersListed(h, lockWord, owners, b, o);
    }
  }

  lemma {:induction false} FlatDistinct(h: Heap, lockWord: map<nat, word>, owners: seq<seq<nat>>, b: nat)
    requires SlotsRight(h, lockWord, owners) && b <= NUM_BINS
    ensures Distinct(Flat(owners[..b]))
  {
    hide Flat, OwnerSlot, BinOf, Served;
    if b == 0 {
      assert owners[..0] == [];
      EmptyFlat();
    } else {
      FlatDistinct(h, lockWord, owners, b - 1);
      FlatNext(owners, b - 1);
      var left, right := Flat(owners[..b - 1]), owners[b - 1];
      assert Distinct(right);
      forall j, k | 0 <= j < |left| && 0 <= k < |right|
        ensures left[j] != right[k]
      {
        FlatHolds(owners[..b - 1], left[j]);
        var c :| 0 <= c < b - 1 && left[j] in owners[..b - 1][c];
        OwnersListed(h, lockWord, owners, c, left[j]);
        OwnersListed(h, lockWord, owners, b - 1, right[k]);
      }
    }
  }

  lemma OwnerServed(h: Heap, lockWord: map<nat, word>, owners: seq<seq<nat>>, o: nat)
    requires SlotsRight(h, lockWord, owners) && o in lockWord
    ensures o < h.count && h.Owner(o) in lockWord && lockWord[o] == lockWord[h.Owner(o)]
  {
  }

  lemma OffsetsLaidOut(h: Heap, slots: map<nat, word>, sizes: seq<nat>, counts: seq<nat>, owners: seq<seq<nat>>,
                       begin: nat, offset: map<nat, word>)
    requires h.Valid() && SlotsRight(h, slots, owners) && SizesRight(h, sizes, counts, owners) && BinsFit(sizes)
    requires begin + Sum(sizes) < 0x1_0000_0000
    requires forall o: nat :: o < h.count <==> o in slots
    requires offset.Keys == slots.Keys && forall o :: o in slots ==> offset[o] == Wrap(OffsetOf(begin, sizes, slots[o]))
    ensures LaidOut(h, offset, Flat(owners), begin, begin + Sum(sizes))
  {
    hide SlotsRight, Flat, Sum, OffsetOf, Heap.Valid, BinsFit, Distinct, Total, Heap.Owner;
    var layout, end := Flat(owners), begin + Sum(sizes);
    SlotsTile(h, slots, sizes, counts, owners, begin);
    assert owners[..NUM_BINS] == owners;
    FlatDistinct(h, slots, owners, NUM_BINS);
    forall o: nat | o < h.count
      ensures o in layout <==> h.Owner(o) == o
      ensures h.Owner(o) in offset && offset[o] == offset[h.Owner(o)]
    {
      OwnersExactly(h, slots, owners, o);
      OwnerServed(h, slots, owners, o);
    }
    forall k | 0 <= k < |layout|
      ensures layout[k] in offset && offset[layout[k]] == begin + Total(h, layout[..k])
    {
      TotalGrows(h, layout, k, |layout|);
      assert layout[..|layout|] == layout;
    }
  }

  lemma {:induction false} InBinOnly(h: Heap, objects: seq<nat>, b: nat)
    ensures forall k :: 0 <= k < |InBin(h, objects, b)| ==> BinOf(h.kind(InBin(h, objects, b)[k])) == b
  {
    hide BinOf;
    if objects != [] {
      InBinOnly(h, objects[..|objects| - 1], b);
    }
  }

  lemma {:induction false} FlatByBin(h: Heap, objects: seq<nat>, b: nat, j: nat, k: nat)
    requires b <= NUM_BINS && j <= k < |Flat(Bins(h, objects)[..b])|
    ensures var flat := Flat(Bins(h, objects)[..b]);
            BinOf(h.kind(flat[j])) <= BinOf(h.kind(flat[k])) < b
  {
    hide BinOf, InBin;
    var lists := Bins(h, objects);
    if b != 0 {
      FlatNext(lists, b - 1);
      InBinOnly(h, objects, b - 1);
      var left := Flat(lists[..b - 1]);
      if k < |left| {
        FlatByBin(h, objects, b - 1, j, k);
      } else if j < |left| {
        FlatByBin(h, objects, b - 1, j, j);
      }
    }
  }

  /** In the image, all objects of one bin stand before those of the next. */
  lemma BinsInOrder(h: Heap, order: seq<nat>, offset: map<nat, nat>, begin: nat, end: nat, o: nat, p: nat)
    requires h.Valid() && Objects(h, order) && LaidOut(h, offset, ImageOrder(h, order), begin, end)
    requires o < h.count && p < h.count && h.Owner(o) == o && h.Owner(p) == p
    requires BinOf(h.kind(o)) < BinOf(h.kind(p))
    ensures offset[o] + Padded(h, o) <= offset[p]
  {
    hide Heap.Valid, Flat, BinOf, Walk, Bins, Padded, Total, Distinct;
    var objects := Walk(h, Placement({}, []), order).placed;
    var layout := ImageOrder(h, order);
    assert Bins(h, objects)[..NUM_BINS] == Bins(h, objects);
    assert o in layout && p in layout;
    var j :| 0 <= j < |layout| && layout[j] == o;
    var k :| 0 <= k < |layout| && layout[k] == p;
    if k <= j {
      FlatByBin(h, objects, NUM_BINS, k, j);
    } else {
      TilesDisjoint(h, layout, offset, begin, end, j, k);
    }
  }

  /** Two objects share an offset just when they share an owner, and every offset is aligned. */
  lemma SameOffsetSameOwner(h: Heap, offset: map<nat, nat>, layout: seq<nat>, begin: nat, end: nat, o: nat, p: nat)
    requires h.Valid() && LaidOut(h, offset, layout, begin, end) && o < h.count && p < h.count
    ensures offset[o] == offset[p] <==> h.Owner(o) == h.Owner(p)
    ensures begin % OBJECT_ALIGNMENT == 0 ==> offset[o] % OBJECT_ALIGNMENT == 0
  {
    hide LaidOut, Heap.Valid, Heap.Owner;
    var j := OwnerPlace(h, offset, layout, begin, end, o);
    var k := OwnerPlace(h, offset, layout, begin, end, p);
    assert Tiles(h, layout, offset, begin, end) by { LaidOutTiles(h, offset, layout, begin, end); }
    hide Tiles;
    if layout[j] != layout[k] {
      OwnersApart(h, offset, layout, begin, end, j, k);
    }
  }

  lemma LaidOutTiles(h: Heap, offset: map<nat, nat>, layout: seq<nat>, begin: nat, end: nat)
    requires LaidOut(h, offset, layout, begin, end)
    ensures Tiles(h, layout, offset, begin, end)
  {
  }

  /** An object stands where its owner does, which is in the layout. */
  lemma OwnerPlace(h: Heap, offset: map<nat, nat>, layout: seq<nat>, begin: nat, end: nat, o: nat) returns (j: nat)
    requires h.Valid() && LaidOut(h, offset, layout, begin, end) && o < h.count
    ensures j < |layout| && layout[j] == h.Owner(o) < h.count
    ensures o in offset && layout[j] in offset && offset[o] == offset[layout[j]]
    ensures begin % OBJECT_ALIGNMENT == 0 ==> offset[o] % OBJECT_ALIGNMENT == 0
  {
    hide Total, Padded, Heap.Valid, Distinct, Heap.Owner;
    OwnersOwn(h, o);
    assert h.Owner(o) in layout;
    j :| 0 <= j < |layout| && layout[j] == h.Owner(o);
    assert offset[layout[j]] == begin + Total(h, layout[..j]);
  }

  lemma OwnersApart(h: Heap, offset: map<nat, nat>, layout: seq<nat>, begin: nat, end: nat, j: nat, k: nat)
    requires h.Valid() && Tiles(h, layout, offset, begin, end) && j < |layout| && k < |layout| && j != k
    requires layout[j] < h.count && layout[k] < h.count
    ensures offset[layout[j]] != offset[layout[k]]
  {
    hide Total;
    assert h.ValidObject(layout[j]) && h.ValidObject(layout[k]);
    if j < k {
      TilesDisjoint(h, layout, offset, begin, end, j, k);
    } else {
      TilesDisjoint(h, layout, offset, begin, end, k, j);
    }
  }

  /** Strings share an offset just when they are equal; nothing else shares one. */
  lemma SharedExactlyByEqualStrings(h: Heap, offset: map<nat, nat>, layout: seq<nat>, begin: nat, end: nat, o: nat,
                                    p: nat)
    requires h.Valid() && LaidOut(h, offset, layout, begin, end) && o < h.count && p < h.count && o != p
    ensures offset[o] == offset[p] <==>
            h.kind(o).StringObject? && h.kind(p).StringObject? && h.kind(o).chars == h.kind(p).chars
  {
    hide LaidOut;
    SameOffsetSameOwner(h, offset, layout, begin, end, o, p);
    assert h.ValidObject(o) && h.ValidObject(p);
  }

  lemma SumZeros(sizes: seq<nat>)
    requires forall b :: 0 <= b < |sizes| ==> sizes[b] == 0
    ensures Sum(sizes) == 0
  {
  }

  lemma AppendTotal(h: Heap, objects: seq<nat>, o: nat)
    ensures Total(h, objects + [o]) == Total(h, objects) + Padded(h, o)
  {
  }
}
