/**
 The order in which the image writer places objects: a depth-first walk over the heap, here as a
 list of objects still to visit, and which objects such a walk finds.
 */
module ImageWalk {
  import opened RelativeCalls
  import opened ImageLayout

  // ---------------------------------------------------------------- references in order

  /** The references among some values, in order. */
  function Present(values: seq<Option<nat>>): seq<nat>
  {
    if values == [] then []
    else
      var n := |values| - 1;
      Present(values[..n]) + (if values[n].Some? then [values[n].value] else [])
  }

  /** The classes from the root of the hierarchy down to `klass`. */
  function Chain(h: Heap, klass: nat): seq<nat>
    requires h.Valid() && klass < h.count
    decreases h.depth(klass)
  {
    assert h.ValidObject(klass);
    (if h.superclass(klass).Some? then Chain(h, h.superclass(klass).value) else []) + [klass]
  }

  /** A chain is a line of superclasses that starts at a class without one. */
  lemma {:induction false} ChainIsHierarchy(h: Heap, klass: nat)
    requires h.Valid() && klass < h.count
    ensures var chain := Chain(h, klass);
            && chain != [] && chain[|chain| - 1] == klass && h.superclass(chain[0]) == None
            && (forall k :: 0 <= k < |chain| ==> chain[k] < h.count)
            && (forall k :: 0 < k < |chain| ==> h.superclass(chain[k]) == Some(chain[k - 1]))
    decreases h.depth(klass)
  {
    assert h.ValidObject(klass);
    if h.superclass(klass).Some? {
      ChainIsHierarchy(h, h.superclass(klass).value);
    }
  }

  /** What an object refers to in the fields of some classes. */
  function FieldsAlong(h: Heap, o: nat, chain: seq<nat>): seq<nat>
  {
    if chain == [] then [] else FieldsAlong(h, o, chain[..|chain| - 1]) + Present(h.fields(o, chain[|chain| - 1]))
  }

  /** What a class refers to as statics, or an array as elements. */
  function Further(h: Heap, o: nat): seq<nat>
  {
    match h.kind(o)
    case ClassObject(_, _) => Present(h.statics(o))
    case ArrayObject(elements) => Present(elements)
    case _ => []
  }

  /** Everything an object refers to: fields of superclasses first, then statics or elements. */
  function References(h: Heap, o: nat): seq<nat>
    requires h.Valid() && o < h.count
  {
    assert h.ValidObject(o);
    FieldsAlong(h, o, Chain(h, h.klass(o))) + Further(h, o)
  }

  predicate Objects(h: Heap, list: seq<nat>)
  {
    forall k :: 0 <= k < |list| ==> list[k] < h.count
  }

  lemma {:induction false} PresentInHeap(h: Heap, values: seq<Option<nat>>)
    requires h.InHeap(values)
    ensures Objects(h, Present(values))
  {
    if values != [] {
      PresentInHeap(h, values[..|values| - 1]);
    }
  }

  lemma {:induction false} FieldsInHeap(h: Heap, o: nat, chain: seq<nat>)
    requires h.Valid() && o < h.count && Objects(h, chain)
    ensures Objects(h, FieldsAlong(h, o, chain))
  {
    hide Present;
    if chain != [] {
      var n := |chain| - 1;
      FieldsInHeap(h, o, chain[..n]);
      assert h.ValidObject(o);
      PresentInHeap(h, h.fields(o, chain[n]));
    }
  }

  lemma PresentNext(values: seq<Option<nat>>, i: nat)
    requires i < |values|
    ensures Present(values[..i + 1]) == Present(values[..i]) + if values[i].Some? then [values[i].value] else []
  {
    assert values[..i + 1][..i] == values[..i];
  }

  /** The fields of a class come after those of its superclass. */
  lemma FieldsOfClass(h: Heap, o: nat, klass: nat)
    requires h.Valid() && o < h.count && klass < h.count
    ensures Objects(h, FieldsAlong(h, o, Chain(h, klass)))
    ensures h.superclass(klass).Some? ==> h.superclass(klass).value < h.count
    ensures FieldsAlong(h, o, Chain(h, klass)) ==
            (if h.superclass(klass).Some? then FieldsAlong(h, o, Chain(h, h.superclass(klass).value)) else [])
            + Present(h.fields(o, klass))
  {
    hide Present;
    assert h.ValidObject(klass);
    ChainIsHierarchy(h, klass);
    FieldsInHeap(h, o, Chain(h, klass));
  }

  lemma FurtherInHeap(h: Heap, o: nat)
    requires h.Valid() && o < h.count
    ensures Objects(h, Further(h, o))
  {
    hide Present;
    assert h.ValidObject(o);
    if h.kind(o).ClassObject? {
      PresentInHeap(h, h.statics(o));
    } else if h.kind(o).ArrayObject? {
      PresentInHeap(h, h.kind(o).elements);
    }
  }

  lemma ReferencesInHeap(h: Heap, o: nat)
    requires h.Valid() && o < h.count
    ensures Objects(h, References(h, o))
  {
    hide FieldsAlong, Chain, Further;
    assert h.ValidObject(o);
    ChainIsHierarchy(h, h.klass(o));
    FieldsInHeap(h, o, Chain(h, h.klass(o)));
    FurtherInHeap(h, o);
  }

  lemma {:induction false} FieldsOfPart(h: Heap, o: nat, chain: seq<nat>, k: nat)
    requires k <= |chain|
    ensures FieldsAlong(h, o, chain[..k]) <= FieldsAlong(h, o, chain)
    decreases |chain|
  {
    hide Present;
    if k < |chain| {
      var n := |chain| - 1;
      FieldsOfPart(h, o, chain[..n], k);
      assert chain[..n][..k] == chain[..k];
    } else {
      assert chain[..k] == chain;
    }
  }

  /** The fields of a superclass come before those of its subclasses, and all fields before statics and elements. */
  lemma FieldsComeFirst(h: Heap, o: nat, k: nat)
    requires h.Valid() && o < h.count && h.klass(o) < h.count && k <= |Chain(h, h.klass(o))|
    ensures FieldsAlong(h, o, Chain(h, h.klass(o))[..k]) <= References(h, o)
  {
    hide FieldsAlong, Chain, Further, Heap.Valid;
    FieldsOfPart(h, o, Chain(h, h.klass(o)), k);
  }

  lemma {:induction false} PresentExactly(values: seq<Option<nat>>, x: nat)
    ensures x in Present(values) <==> Some(x) in values
  {
    if values != [] {
      var n := |values| - 1;
      PresentExactly(values[..n], x);
      assert values == values[..n] + [values[n]];
    }
  }

  lemma {:induction false} FieldsExactly(h: Heap, o: nat, chain: seq<nat>, x: nat)
    ensures x in FieldsAlong(h, o, chain) <==> exists c :: c in chain && Some(x) in h.fields(o, c)
  {
    hide Present;
    if chain != [] {
      var n := |chain| - 1;
      FieldsExactly(h, o, chain[..n], x);
      PresentExactly(h.fields(o, chain[n]), x);
      assert chain == chain[..n] + [chain[n]];
    }
  }

  /** An object refers to what is in a field of one of its classes, in its statics or among its elements. */
  lemma ReferencesExactly(h: Heap, o: nat, x: nat)
    requires h.Valid() && o < h.count && h.klass(o) < h.count
    ensures x in References(h, o) <==>
            || (exists c :: c in Chain(h, h.klass(o)) && Some(x) in h.fields(o, c))
            || (h.kind(o).ClassObject? && Some(x) in h.statics(o))
            || (h.kind(o).ArrayObject? && Some(x) in h.kind(o).elements)
  {
    hide FieldsAlong, Chain, Heap.Valid, Present;
    FieldsExactly(h, o, Chain(h, h.klass(o)), x);
    PresentExactly(h.statics(o), x);
    if h.kind(o).ArrayObject? {
      PresentExactly(h.kind(o).elements, x);
    }
  }

  // ---------------------------------------------------------------- the walk

  /** The objects that have a slot, and the slots' owners in the order in which they got them. */
  datatype Placement = Placement(given: set<nat>, placed: seq<nat>)

  /** Placing an object: its slot belongs to its owner, which may have it already. */
  function PlaceObject(h: Heap, s: Placement, o: nat): Placement
  {
    var owner := h.Owner(o);
    Placement(s.given + {o, owner}, if owner in s.given then s.placed else s.placed + [owner])
  }

  function Below(n: nat): (r: set<nat>)
    ensures forall o: nat :: o in r <==> o < n
  {
    if n == 0 then {} else Below(n - 1) + {n - 1}
  }

  lemma FewerToPlace(h: Heap, s: Placement, todo: seq<nat>)
    requires h.Valid() && Objects(h, todo) && todo != [] && todo[0] !in s.given
    ensures Objects(h, References(h, todo[0]) + todo[1..])
    ensures Below(h.count) - PlaceObject(h, s, todo[0]).given < Below(h.count) - s.given
  {
    hide References, Heap.Valid;
    ReferencesInHeap(h, todo[0]);
    assert todo[0] in Below(h.count) - s.given;
  }

  /** Visit what is on the list; what a new object refers to comes before the rest of the list. */
  ghost function Walk(h: Heap, s: Placement, todo: seq<nat>): Placement
    requires h.Valid() && Objects(h, todo)
    decreases Below(h.count) - s.given, |todo|
  {
    if todo == [] then
      s
    else if todo[0] in s.given then
      Walk(h, s, todo[1..])
    else
      FewerToPlace(h, s, todo);
      Walk(h, PlaceObject(h, s, todo[0]), References(h, todo[0]) + todo[1..])
  }

  /** Visiting two lists in a row is visiting the first, then the second. */
  lemma {:induction false} WalkBoth(h: Heap, s: Placement, a: seq<nat>, b: seq<nat>)
    requires h.Valid() && Objects(h, a) && Objects(h, b)
    ensures Walk(h, s, a + b) == Walk(h, Walk(h, s, a), b)
    decreases Below(h.count) - s.given, |a|
  {
    hide References, Heap.Valid;
    if a == [] {
      assert a + b == b;
    } else if a[0] in s.given {
      assert (a + b)[1..] == a[1..] + b;
      WalkBoth(h, s, a[1..], b);
    } else {
      var refs := References(h, a[0]);
      ReferencesInHeap(h, a[0]);
      assert a[0] in Below(h.count) - s.given;
      assert refs + (a + b)[1..] == (refs + a[1..]) + b;
      WalkBoth(h, PlaceObject(h, s, a[0]), refs + a[1..], b);
    }
  }

  /** Depth first: visiting a new object is placing it, then visiting all it refers to. */
  lemma WalkDepthFirst(h: Heap, s: Placement, o: nat)
    requires h.Valid() && o < h.count
    ensures Objects(h, References(h, o))
    ensures Walk(h, s, [o]) ==
            if o in s.given then s else Walk(h, PlaceObject(h, s, o), References(h, o))
  {
    hide References, Heap.Valid, PlaceObject;
    ReferencesInHeap(h, o);
    assert References(h, o) + [o][1..] == References(h, o);
  }

  /** An object and the first new one it refers to are placed next to each other. */
  lemma FirstReferenceFollows(h: Heap, s: Placement, o: nat, x: nat, rest: seq<nat>)
    requires h.Valid() && o < h.count && Objects(h, rest) && o !in s.given && h.Owner(o) == o
    requires References(h, o) != [] && References(h, o)[0] == x && x !in s.given && x != o && h.Owner(x) == x
    ensures Objects(h, [o] + rest) && s.placed + [o, x] <= Walk(h, s, [o] + rest).placed
  {
    hide References, Heap.Valid, Heap.Owner, Walk;
    ReferencesInHeap(h, o);
    var s', refs := PlaceObject(h, s, o), References(h, o);
    assert refs == [x] + refs[1..];
    WalkBoth(h, s, [o], rest);
    WalkDepthFirst(h, s, o);
    WalkBoth(h, s', [x], refs[1..]);
    ReferencesInHeap(h, x);
    WalkDepthFirst(h, s', x);
    WalkKeeps(h, PlaceObject(h, s', x), References(h, x));
    WalkKeeps(h, Walk(h, s', [x]), refs[1..]);
    WalkKeeps(h, Walk(h, s, [o]), rest);
    assert PlaceObject(h, s', x).placed == s.placed + [o, x];
  }

  // ---------------------------------------------------------------- what a walk finds

  lemma {:induction false} WalkKeeps(h: Heap, s: Placement, todo: seq<nat>)
    requires h.Valid() && Objects(h, todo)
    ensures s.given <= Walk(h, s, todo).given && s.placed <= Walk(h, s, todo).placed
    decreases Below(h.count) - s.given, |todo|
  {
    hide References, Heap.Valid;
    if todo != [] {
      if todo[0] in s.given {
        WalkKeeps(h, s, todo[1..]);
      } else {
        ReferencesInHeap(h, todo[0]);
        assert todo[0] in Below(h.count) - s.given;
        WalkKeeps(h, PlaceObject(h, s, todo[0]), References(h, todo[0]) + todo[1..]);
      }
    }
  }

  /** References lead from each object of the path to the next, and none has a slot yet. */
  ghost predicate NewPath(h: Heap, given: set<nat>, path: seq<nat>)
    requires h.Valid()
  {
    && path != [] && Objects(h, path)
    && (forall k :: 0 <= k < |path| ==> path[k] !in given)
    && (forall k :: 0 < k < |path| ==> path[k] in References(h, path[k - 1]))
  }

  /** A string that others share the slot of. */
  predicate Interned(h: Heap, o: nat)
  {
    h.kind(o).StringObject? && h.Owner(o) == o
  }

  /** Every string that shares the slot refers to all that this one refers to. */
  ghost predicate Alike(h: Heap, i: nat)
    requires h.Valid() && i < h.count
  {
    forall o, x :: 0 <= o < h.count && o != i && h.Owner(o) == i && x in References(h, i) ==>
      x in References(h, o) || x == o || x == i
  }

  /** An interned string given its slot by another one is not visited; the other one has to do for it. */
  ghost predicate NothingSkipped(h: Heap, path: seq<nat>)
    requires h.Valid() && Objects(h, path)
  {
    forall k :: 0 <= k < |path| - 1 && Interned(h, path[k]) ==> Alike(h, path[k])
  }

  /** The last place of one of two objects. */
  lemma {:induction false} LastOf(list: seq<nat>, x: nat, y: nat) returns (j: nat)
    requires x in list || y in list
    ensures j < |list| && list[j] in {x, y} && x !in list[j + 1..] && y !in list[j + 1..]
  {
    j := |list| - 1;
    if list[j] !in {x, y} {
      j := LastOf(list[..j], x, y);
      assert list[j + 1..] == list[..|list| - 1][j + 1..] + [list[|list| - 1]];
    }
  }

  lemma PathRest(h: Heap, given: set<nat>, path: seq<nat>, j: nat)
    requires h.Valid() && NewPath(h, given, path) && NothingSkipped(h, path) && j + 1 < |path|
    ensures NewPath(h, given, path[j + 1..]) && NothingSkipped(h, path[j + 1..])
    ensures path[j + 1..][0] == path[j + 1] && path[j + 1] in References(h, path[j])
    ensures path[j + 1..][|path| - j - 2] == path[|path| - 1]
  {
    hide References, Heap.Valid, Interned, Alike;
  }

  /** Placing an object leaves a path new that does not lead through the object or its owner. */
  lemma PathStaysNew(h: Heap, s: Placement, path: seq<nat>, o: nat)
    requires h.Valid() && NewPath(h, s.given, path) && o !in path && h.Owner(o) !in path
    ensures NewPath(h, PlaceObject(h, s, o).given, path)
  {
    hide References, Heap.Valid, Heap.Owner;
  }

  /** What comes after an object or its owner on such a path is found from the object. */
  lemma NextIsReferred(h: Heap, path: seq<nat>, j: nat, o: nat)
    requires h.Valid() && o < h.count && Objects(h, path) && NothingSkipped(h, path) && j + 1 < |path|
    requires path[j + 1] in References(h, path[j])
    requires path[j] in {o, h.Owner(o)} && path[j + 1] !in {o, h.Owner(o)}
    ensures path[j + 1] in References(h, o)
  {
    hide References;
    OwnersOwn(h, o);
    assert h.ValidObject(o);
    hide Heap.Valid;
    if path[j] != o {
      assert Interned(h, path[j]);
      assert Alike(h, path[j]);
    }
  }

  /** Every object at the end of a path of new objects gets a slot. */
  lemma {:induction false} WalkReaches(h: Heap, s: Placement, todo: seq<nat>, path: seq<nat>)
    requires h.Valid() && Objects(h, todo)
    requires NewPath(h, s.given, path) && NothingSkipped(h, path) && path[0] in todo
    ensures path[|path| - 1] in Walk(h, s, todo).given
    decreases Below(h.count) - s.given, |todo|
  {
    hide References, Heap.Valid, Heap.Owner, NothingSkipped;
    var o, last := todo[0], path[|path| - 1];
    if o in s.given {
      WalkReaches(h, s, todo[1..], path);
    } else {
      var s', todo' := PlaceObject(h, s, o), References(h, o) + todo[1..];
      ReferencesInHeap(h, o);
      assert o in Below(h.count) - s.given;
      WalkKeeps(h, s', todo');
      if o !in path && h.Owner(o) !in path {
        PathStaysNew(h, s, path, o);
        WalkReaches(h, s', todo', path);
      } else if last !in s'.given {
        var j := LastOf(path, o, h.Owner(o));
        PathRest(h, s.given, path, j);
        PathStaysNew(h, s, path[j + 1..], o);
        NextIsReferred(h, path, j, o);
        WalkReaches(h, s', todo', path[j + 1..]);
      }
    }
  }

  lemma {:induction false} NothingToVisit(h: Heap, s: Placement, todo: seq<nat>)
    requires h.Valid() && Objects(h, todo) && forall k :: 0 <= k < |todo| ==> todo[k] in s.given
    ensures Walk(h, s, todo) == s
    decreases |todo|
  {
    hide References, Heap.Valid;
    if todo != [] {
      NothingToVisit(h, s, todo[1..]);
    }
  }

  /** Whatever has a slot and wherever a walk starts, it finds all there is to find. */
  ghost predicate WalksFindAll(h: Heap)
    requires h.Valid()
  {
    forall s: Placement, todo, path :: Objects(h, todo) && NewPath(h, s.given, path) && path[0] in todo ==>
      path[|path| - 1] in Walk(h, s, todo).given
  }

  /** If a string lacks a reference of its interned version, a walk that comes to it first misses the reference. */
  lemma SkippedReference(h: Heap, o: nat, x: nat)
    requires h.Valid() && o < h.count && h.Owner(o) != o && h.Owner(o) < h.count
    requires x in References(h, h.Owner(o)) && x !in References(h, o) && x != o && x != h.Owner(o)
    ensures !WalksFindAll(h)
  {
    hide References, Heap.Valid, Heap.Owner, Walk;
    var i := h.Owner(o);
    ReferencesInHeap(h, i);
    ReferencesInHeap(h, o);
    var s := Placement(Below(h.count) - {o, i, x}, []);
    var s' := PlaceObject(h, s, o);
    WalkBoth(h, s, [o], [i]);
    WalkDepthFirst(h, s, o);
    NothingToVisit(h, s', References(h, o));
    NothingToVisit(h, s', [i]);
    assert [o] + [i] == [o, i];
    var path := [i, x];
    assert NewPath(h, s.given, path) && path[0] in [o, i];
    assert path[1] !in Walk(h, s, [o, i]).given;
  }

  /** Walks find everything exactly when strings refer to all that their interned versions refer to. */
  lemma WalksFindAllExactlyWhen(h: Heap)
    requires h.Valid()
    ensures WalksFindAll(h) <==> forall i :: 0 <= i < h.count && Interned(h, i) ==> Alike(h, i)
  {
    hide References, Heap.Valid, Heap.Owner, Walk;
    if forall i :: 0 <= i < h.count && Interned(h, i) ==> Alike(h, i) {
      hide Alike, Interned;
      forall s: Placement, todo, path | Objects(h, todo) && NewPath(h, s.given, path) && path[0] in todo
        ensures path[|path| - 1] in Walk(h, s, todo).given
      {
        WalkReaches(h, s, todo, path);
      }
    } else {
      var i :| 0 <= i < h.count && Interned(h, i) && !Alike(h, i);
      var o, x :| 0 <= o < h.count && o != i && h.Owner(o) == i && x in References(h, i)
                  && x !in References(h, o) && x != o && x != i;
      SkippedReference(h, o, x);
    }
  }

  /** The object is at the end of a path of new objects from the list, or owns the slot of one that is. */
  ghost predicate Found(h: Heap, given: set<nat>, todo: seq<nat>, x: nat)
    requires h.Valid()
  {
    exists path :: NewPath(h, given, path) && path[0] in todo && x in {path[|path| - 1], h.Owner(path[|path| - 1])}
  }

  lemma FoundBefore(h: Heap, s: Placement, todo: seq<nat>, x: nat)
    requires h.Valid() && Objects(h, todo) && todo != [] && todo[0] !in s.given
    requires Found(h, PlaceObject(h, s, todo[0]).given, References(h, todo[0]) + todo[1..], x)
    ensures Found(h, s.given, todo, x)
  {
    hide References, Heap.Valid, Heap.Owner;
    var o := todo[0];
    var s' := PlaceObject(h, s, o);
    var path :| NewPath(h, s'.given, path) && path[0] in References(h, o) + todo[1..]
                && x in {path[|path| - 1], h.Owner(path[|path| - 1])};
    assert NewPath(h, s.given, path);
    if path[0] in References(h, o) {
      var longer := [o] + path;
      assert NewPath(h, s.given, longer) && longer[|longer| - 1] == path[|path| - 1];
    }
  }

  /** Nothing else gets one. */
  lemma {:induction false} WalkReachesOnly(h: Heap, s: Placement, todo: seq<nat>, x: nat)
    requires h.Valid() && Objects(h, todo) && x in Walk(h, s, todo).given && x !in s.given
    ensures Found(h, s.given, todo, x)
    decreases Below(h.count) - s.given, |todo|
  {
    hide References, Heap.Valid, Heap.Owner, Found;
    var o := todo[0];
    if o in s.given {
      WalkReachesOnly(h, s, todo[1..], x);
      FoundLater(h, s.given, todo, x);
    } else {
      var s', todo' := PlaceObject(h, s, o), References(h, o) + todo[1..];
      ReferencesInHeap(h, o);
      assert o in Below(h.count) - s.given;
      if x in s'.given {
        FoundAtOnce(h, s.given, todo, x);
      } else {
        WalkReachesOnly(h, s', todo', x);
        FoundBefore(h, s, todo, x);
      }
    }
  }

  lemma FoundLater(h: Heap, given: set<nat>, todo: seq<nat>, x: nat)
    requires h.Valid() && todo != [] && Found(h, given, todo[1..], x)
    ensures Found(h, given, todo, x)
  {
    hide References, Heap.Valid, NewPath;
  }

  lemma FoundAtOnce(h: Heap, given: set<nat>, todo: seq<nat>, x: nat)
    requires h.Valid() && todo != [] && Objects(h, todo) && todo[0] !in given && x in {todo[0], h.Owner(todo[0])}
    ensures Found(h, given, todo, x)
  {
    hide References, Heap.Valid, Heap.Owner;
    assert NewPath(h, given, [todo[0]]);
  }
}
