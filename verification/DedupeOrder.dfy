/**
 The order in which the writer's dedupe map keeps compiled methods. The map takes two methods for
 the same when neither comes before the other; that is so exactly when their keys are equal.
 */
module DedupeOrder {
  import opened Words
  import opened RelativeCalls
  import opened CodeLayout

  function KindNumber(kind: PatchKind): nat
  {
    match kind
    case MethodPatch => 0
    case CallPatch => 1
    case CallRelativePatch => 2
    case TypePatch => 3
  }

  /** operator< on linker patches: offset, kind, index, then dex file. */
  predicate PatchLess(a: LinkerPatch, b: LinkerPatch)
  {
    if a.literalOffset != b.literalOffset then a.literalOffset < b.literalOffset
    else if a.kind != b.kind then KindNumber(a.kind) < KindNumber(b.kind)
    else if a.target.index != b.target.index then a.target.index < b.target.index
    else a.target.dexFile < b.target.dexFile
  }

  /** The first patches that differ decide. */
  predicate PatchesLess(a: seq<LinkerPatch>, b: seq<LinkerPatch>)
    requires |a| == |b|
  {
    a != [] && (if a[0] != b[0] then PatchLess(a[0], b[0]) else PatchesLess(a[1..], b[1..]))
  }

  function Pointer(blob: Option<Blob>): nat
  {
    match blob
    case Some(b) => b.address
    case None => 0
  }

  predicate Less(a: CompiledMethod, b: CompiledMethod)
  {
    if a.code.address != b.code.address then a.code.address < b.code.address
    else if a.mappingTable.address != b.mappingTable.address then a.mappingTable.address < b.mappingTable.address
    else if a.vmapTable.address != b.vmapTable.address then a.vmapTable.address < b.vmapTable.address
    else if Pointer(a.gcMap) != Pointer(b.gcMap) then Pointer(a.gcMap) < Pointer(b.gcMap)
    else if |a.patches| != |b.patches| then |a.patches| < |b.patches|
    else PatchesLess(a.patches, b.patches)
  }

  /** CodeOffsetsKeyComparator */
  method Compare(lhs: CompiledMethod, rhs: CompiledMethod) returns (less: bool)
    ensures less == Less(lhs, rhs)
  {
    if lhs.code.address != rhs.code.address {
      return lhs.code.address < rhs.code.address;
    }
    if lhs.mappingTable.address != rhs.mappingTable.address {
      return lhs.mappingTable.address < rhs.mappingTable.address;
    }
    if lhs.vmapTable.address != rhs.vmapTable.address {
      return lhs.vmapTable.address < rhs.vmapTable.address;
    }
    if Pointer(lhs.gcMap) != Pointer(rhs.gcMap) {
      return Pointer(lhs.gcMap) < Pointer(rhs.gcMap);
    }
    if |lhs.patches| != |rhs.patches| {
      return |lhs.patches| < |rhs.patches|;
    }
    var l, r := lhs.patches, rhs.patches;
    for i := 0 to |l|
      invariant PatchesLess(l[i..], r[i..]) == PatchesLess(l, r)
    {
      assert l[i..][1..] == l[i + 1..] && r[i..][1..] == r[i + 1..];
      if l[i] != r[i] {
        return PatchLess(l[i], r[i]);
      }
    }
    return false;
  }

  /** A blob is one object: what has the same address is the same, and no blob is at null. */
  predicate SameObject(a: Blob, b: Blob)
  {
    (a.address == b.address ==> a == b) && a.address != 0 && b.address != 0
  }

  predicate OneObjectPerAddress(a: CompiledMethod, b: CompiledMethod)
  {
    && SameObject(a.code, b.code) && SameObject(a.mappingTable, b.mappingTable) && SameObject(a.vmapTable, b.vmapTable)
    && (a.gcMap.Some? ==> a.gcMap.value.address != 0) && (b.gcMap.Some? ==> b.gcMap.value.address != 0)
    && (a.gcMap.Some? && b.gcMap.Some? ==> SameObject(a.gcMap.value, b.gcMap.value))
  }

  lemma PatchTrichotomy(a: LinkerPatch, b: LinkerPatch)
    ensures !(PatchLess(a, b) && PatchLess(b, a))
    ensures PatchLess(a, b) || PatchLess(b, a) <==> a != b
  {
  }

  lemma {:induction false} PatchesTrichotomy(a: seq<LinkerPatch>, b: seq<LinkerPatch>)
    requires |a| == |b|
    ensures !(PatchesLess(a, b) && PatchesLess(b, a))
    ensures PatchesLess(a, b) || PatchesLess(b, a) <==> a != b
  {
    hide PatchLess;
    if a != [] {
      PatchTrichotomy(a[0], b[0]);
      PatchesTrichotomy(a[1..], b[1..]);
      assert a == [a[0]] + a[1..] && b == [b[0]] + b[1..];
    }
  }

  /** One comes before the other, but not both, exactly when the keys differ. */
  lemma Trichotomy(a: CompiledMethod, b: CompiledMethod)
    requires OneObjectPerAddress(a, b)
    ensures !(Less(a, b) && Less(b, a))
    ensures Less(a, b) || Less(b, a) <==> KeyOf(a) != KeyOf(b)
  {
    hide PatchesLess;
    if |a.patches| == |b.patches| {
      PatchesTrichotomy(a.patches, b.patches);
    }
  }

  lemma PatchTransitive(a: LinkerPatch, b: LinkerPatch, c: LinkerPatch)
    requires PatchLess(a, b) && PatchLess(b, c)
    ensures PatchLess(a, c)
  {
  }

  lemma {:induction false} PatchesTransitive(a: seq<LinkerPatch>, b: seq<LinkerPatch>, c: seq<LinkerPatch>)
    requires |a| == |b| == |c| && PatchesLess(a, b) && PatchesLess(b, c)
    ensures PatchesLess(a, c)
  {
    hide PatchLess;
    PatchTrichotomy(a[0], b[0]);
    PatchTrichotomy(b[0], c[0]);
    PatchTrichotomy(a[0], c[0]);
    if a[0] != b[0] && b[0] != c[0] {
      PatchTransitive(a[0], b[0], c[0]);
    } else if a[0] == b[0] == c[0] {
      PatchesTransitive(a[1..], b[1..], c[1..]);
    }
  }

  lemma Transitive(a: CompiledMethod, b: CompiledMethod, c: CompiledMethod)
    requires Less(a, b) && Less(b, c)
    ensures Less(a, c)
  {
    hide PatchesLess, Pointer;
    if |a.patches| == |b.patches| == |c.patches| && PatchesLess(a.patches, b.patches) &&
      PatchesLess(b.patches, c.patches) {
      PatchesTransitive(a.patches, b.patches, c.patches);
    }
  }
}
