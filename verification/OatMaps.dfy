/**
 The GC maps, mapping tables and vmap tables of compiled methods: laid out first, stored in method
 headers as differences that are completed when the code is placed, and written by passes that read
 those headers back.
 */
module OatMaps {
  import opened Words
  import opened RelativeCalls
  import opened CodeLayout
  import opened CodeWriting
  import opened CodeAgreement
  import opened CodePlacement
  import opened CallsLand

  datatype MapKind = GcMap | MappingTable | VmapTable

  /** GetData of the three DataAccess classes; only the GC map may be missing. */
  function MapOf(kind: MapKind, m: CompiledMethod): Option<Blob>
  {
    match kind
    case GcMap => m.gcMap
    case MappingTable => Some(m.mappingTable)
    case VmapTable => Some(m.vmapTable)
  }

  predicate HasMap(kind: MapKind, m: CompiledMethod)
  {
    MapOf(kind, m).Some? && |MapOf(kind, m).value.bytes| != 0
  }

  function FieldOf(kind: MapKind, h: MethodHeader): word
  {
    match kind
    case GcMap => h.gcMapOffset
    case MappingTable => h.mappingTableOffset
    case VmapTable => h.vmapTableOffset
  }

  function WithField(kind: MapKind, h: MethodHeader, field: word): MethodHeader
  {
    match kind
    case GcMap => h.(gcMapOffset := field)
    case MappingTable => h.(mappingTableOffset := field)
    case VmapTable => h.(vmapTableOffset := field)
  }

  /** SetOffset */
  function StoredOffset(codeOffset: nat, offset: nat): word
  {
    Wrap(ClearLowBit(codeOffset) - offset)
  }

  /** GetOffset */
  function LoadedOffset(codeOffset: nat, field: word): word
  {
    if field == 0 then 0 else Wrap(ClearLowBit(codeOffset) - field)
  }

  // ---------------------------------------------------------------- laying the maps out

  /** `offsets` holds each method's map offset, zero for none. */
  datatype MapLayout = MapLayout(offset: nat, dedupe: map<Blob, nat>, offsets: seq<nat>)

  /** InitMapMethodVisitor::VisitMethod. */
  function VisitMap(kind: MapKind, s: MapLayout, m: CompiledMethod): MapLayout
  {
    if !HasMap(kind, m) then
      s.(offsets := s.offsets + [0])
    else
      var blob := MapOf(kind, m).value;
      if blob in s.dedupe then
        s.(offsets := s.offsets + [s.dedupe[blob]])
      else
        MapLayout(s.offset + |blob.bytes|, s.dedupe[blob := s.offset], s.offsets + [s.offset])
  }

  function LayoutMaps(kind: MapKind, start: nat, ms: seq<CompiledMethod>): (s: MapLayout)
    ensures |s.offsets| == |ms|
  {
    if ms == [] then MapLayout(start, map[], [])
    else VisitMap(kind, LayoutMaps(kind, start, ms[..|ms| - 1]), ms[|ms| - 1])
  }

  /** The header after its map field, if it has such a map, has been set. */
  function HeaderWithMap(kind: MapKind, h: MethodHeader, m: CompiledMethod, offset: nat): MethodHeader
  {
    if HasMap(kind, m) then WithField(kind, h, StoredOffset(0, offset)) else h
  }

  /** The headers with the first fields filled in. */
  ghost predicate Filled(kind: MapKind, ms: seq<CompiledMethod>, offsets: seq<nat>, before: seq<MethodHeader>,
      after: seq<MethodHeader>)
    requires |offsets| <= |ms| == |before| == |after|
  {
    forall j :: 0 <= j < |ms| ==>
      after[j] == if j < |offsets| then HeaderWithMap(kind, before[j], ms[j], offsets[j]) else before[j]
  }

  lemma FilledNext(kind: MapKind, ms: seq<CompiledMethod>, offsets: seq<nat>, before: seq<MethodHeader>,
      after: seq<MethodHeader>, offset: nat)
    requires |offsets| < |ms| == |before| == |after| && Filled(kind, ms, offsets, before, after)
    ensures Filled(kind, ms, offsets + [offset], before,
                   after[|offsets| := HeaderWithMap(kind, after[|offsets|], ms[|offsets|], offset)])
  {
    hide HeaderWithMap;
  }

  /** The first pass over the methods: fill one field of each header; code offsets are still zero. */
  method InitMaps(kind: MapKind, start: nat, ms: seq<CompiledMethod>, headers: array<MethodHeader>)
    returns (offset: nat)
    requires headers.Length == |ms|
    modifies headers
    ensures offset == LayoutMaps(kind, start, ms).offset
    ensures forall i :: 0 <= i < |ms| ==>
              headers[i] == HeaderWithMap(kind, old(headers[i]), ms[i], LayoutMaps(kind, start, ms).offsets[i])
  {
    offset := start;
    var dedupe: map<Blob, nat> := map[];
    ghost var before := headers[..];
    for i := 0 to |ms|
      invariant offset == LayoutMaps(kind, start, ms[..i]).offset && dedupe == LayoutMaps(kind, start, ms[..i]).dedupe
      invariant Filled(kind, ms, LayoutMaps(kind, start, ms[..i]).offsets, before, headers[..])
    {
      LayoutNext(kind, start, ms, i);
      ghost var s, was := LayoutMaps(kind, start, ms[..i]), headers[..];
      hide WithField, StoredOffset, LayoutMaps, MapOf, Filled;
      if HasMap(kind, ms[i]) {
        var blob := MapOf(kind, ms[i]).value;
        FilledNext(kind, ms, s.offsets, before, was, if blob in dedupe then dedupe[blob] else offset);
        if blob in dedupe {
          headers[i] := WithField(kind, headers[i], StoredOffset(0, dedupe[blob]));
        } else {
          headers[i] := WithField(kind, headers[i], StoredOffset(0, offset));
          dedupe := dedupe[blob := offset];
          offset := offset + |blob.bytes|;
        }
        assert headers[..] == was[i := headers[i]];
      } else {
        FilledNext(kind, ms, s.offsets, before, was, 0);
        assert was[i := was[i]] == was;
      }
    }
    assert ms[..|ms|] == ms;
  }

  lemma LayoutNext(kind: MapKind, start: nat, ms: seq<CompiledMethod>, i: nat)
    requires i < |ms|
    ensures LayoutMaps(kind, start, ms[..i + 1]) == VisitMap(kind, LayoutMaps(kind, start, ms[..i]), ms[i])
  {
    assert ms[..i + 1][..i] == ms[..i];
  }

  /** What a layout of maps guarantees. */
  ghost predicate MapsPlaced(kind: MapKind, start: nat, ms: seq<CompiledMethod>, s: MapLayout)
    requires |s.offsets| == |ms|
  {
    && start <= s.offset
    && (forall i :: 0 <= i < |ms| && HasMap(kind, ms[i]) ==>
          && MapOf(kind, ms[i]).value in s.dedupe && s.offsets[i] == s.dedupe[MapOf(kind, ms[i]).value])
    && (forall i :: 0 <= i < |ms| && !HasMap(kind, ms[i]) ==> s.offsets[i] == 0)
    && (forall blob :: blob in s.dedupe ==>
          0 < |blob.bytes| && start <= s.dedupe[blob] && s.dedupe[blob] + |blob.bytes| <= s.offset)
  }

  lemma VisitPlacesMap(kind: MapKind, start: nat, ms: seq<CompiledMethod>, s: MapLayout, m: CompiledMethod)
    requires |s.offsets| == |ms| && MapsPlaced(kind, start, ms, s)
    ensures |VisitMap(kind, s, m).offsets| == |ms + [m]|
    ensures MapsPlaced(kind, start, ms + [m], VisitMap(kind, s, m))
  {
    var s' := VisitMap(kind, s, m);
    if HasMap(kind, m) {
      var blob := MapOf(kind, m).value;
      hide MapOf;
      assert s'.dedupe == if blob in s.dedupe then s.dedupe else s.dedupe[blob := s.offset];
    }
    hide MapOf, HasMap;
  }

  lemma {:induction false} LayoutPlacesMaps(kind: MapKind, start: nat, ms: seq<CompiledMethod>)
    ensures MapsPlaced(kind, start, ms, LayoutMaps(kind, start, ms))
    decreases |ms|
  {
    hide MapsPlaced, VisitMap;
    if ms == [] {
      NoMapsPlaced(kind, start);
    } else {
      var before, m := ms[..|ms| - 1], ms[|ms| - 1];
      LayoutPlacesMaps(kind, start, before);
      VisitPlacesMap(kind, start, before, LayoutMaps(kind, start, before), m);
      assert before + [m] == ms;
    }
  }

  lemma NoMapsPlaced(kind: MapKind, start: nat)
    ensures MapsPlaced(kind, start, [], MapLayout(start, map[], []))
  {
  }

  // ---------------------------------------------------------------- writing the maps

  datatype MapOutput = MapOutput(offset: nat, bytes: seq<byte>)

  /** WriteMapMethodVisitor::VisitMethod: a map is written when the header says it goes right here. */
  function WriteMap(kind: MapKind, w: MapOutput, m: CompiledMethod, codeOffset: nat, field: word): MapOutput
  {
    if HasMap(kind, m) && LoadedOffset(codeOffset, field) == w.offset then
      MapOutput(w.offset + |MapOf(kind, m).value.bytes|, w.bytes + MapOf(kind, m).value.bytes)
    else
      w
  }

  function WriteMaps(kind: MapKind, start: nat, ms: seq<CompiledMethod>, entries: seq<Entry>): (w: MapOutput)
    requires |entries| == |ms|
  {
    if ms == [] then MapOutput(start, [])
    else
      var k := |ms| - 1;
      WriteMap(kind, WriteMaps(kind, start, ms[..k], entries[..k]), ms[k], entries[k].codeOffset,
               FieldOf(kind, entries[k].header))
  }

  /** The pass over the methods that writes one kind of map. */
  method WriteMapPass(kind: MapKind, start: nat, ms: seq<CompiledMethod>, entries: seq<Entry>)
    returns (offset: nat, bytes: seq<byte>)
    requires |entries| == |ms|
    ensures MapOutput(offset, bytes) == WriteMaps(kind, start, ms, entries)
  {
    offset, bytes := start, [];
    for i := 0 to |ms|
      invariant MapOutput(offset, bytes) == WriteMaps(kind, start, ms[..i], entries[..i])
    {
      assert ms[..i + 1][..i] == ms[..i] && entries[..i + 1][..i] == entries[..i];
      if HasMap(kind, ms[i]) &&
         LoadedOffset(entries[i].codeOffset, FieldOf(kind, entries[i].header)) == offset {
        offset, bytes := offset + |MapOf(kind, ms[i]).value.bytes|, bytes + MapOf(kind, ms[i]).value.bytes;
      }
    }
    assert ms[..|ms|] == ms && entries[..|ms|] == entries;
  }

  // ---------------------------------------------------------------- the two fix-ups

  /**
   A map offset stored against a zero code offset and completed when the code offset is known is the
   distance from the map to the code, and reads back as the map's offset.
   */
  lemma FixUpsCancel(isa: Isa, codeOffset: nat, mapOffset: nat)
    requires CodeOffset(isa, codeOffset, OFFSET_LIMIT) && 0 < mapOffset < codeOffset - CodeDelta(isa)
    ensures var codeStart := codeOffset - CodeDelta(isa);
            var field := RebaseMapOffset(StoredOffset(0, mapOffset), codeStart);
            && 0 < field == codeStart - mapOffset < codeStart
            && LoadedOffset(codeOffset, field) == mapOffset
  {
    TargetIsCodeStart(isa, codeOffset, OFFSET_LIMIT);
    WrapDifference(0, mapOffset);
  }

  /** Each header field is what the two fix-ups make of the method's map offset. */
  ghost predicate FieldsComplete(kind: MapKind, isa: Isa, ms: seq<CompiledMethod>, offsets: seq<nat>,
                                 entries: seq<Entry>)
  {
    && |ms| == |offsets| == |entries|
    && forall i :: 0 <= i < |ms| ==>
         FieldOf(kind, entries[i].header) ==
         RebaseMapOffset(if HasMap(kind, ms[i]) then StoredOffset(0, offsets[i]) else 0,
                         entries[i].codeOffset - CodeDelta(isa))
  }

  /** Every method's code lies after all maps. */
  ghost predicate CodeAfterMaps(isa: Isa, mapsEnd: nat, entries: seq<Entry>)
  {
    forall i :: 0 <= i < |entries| ==>
      CodeOffset(isa, entries[i].codeOffset, OFFSET_LIMIT) && mapsEnd <= entries[i].codeOffset - CodeDelta(isa)
  }

  lemma OffsetsReadBack(kind: MapKind, isa: Isa, start: nat, ms: seq<CompiledMethod>, entries: seq<Entry>, i: nat)
    requires 0 < start && i < |ms|
    requires FieldsComplete(kind, isa, ms, LayoutMaps(kind, start, ms).offsets, entries)
    requires CodeAfterMaps(isa, LayoutMaps(kind, start, ms).offset, entries)
    ensures LoadedOffset(entries[i].codeOffset, FieldOf(kind, entries[i].header)) ==
            LayoutMaps(kind, start, ms).offsets[i]
  {
    hide LayoutMaps, RebaseMapOffset, LoadedOffset, StoredOffset, CodeOffset;
    var s := LayoutMaps(kind, start, ms);
    LayoutPlacesMaps(kind, start, ms);
    if HasMap(kind, ms[i]) {
      FixUpsCancel(isa, entries[i].codeOffset, s.offsets[i]);
    } else {
      NoMapReadsZero(entries[i].codeOffset, entries[i].codeOffset - CodeDelta(isa));
    }
  }

  lemma NoMapReadsZero(codeOffset: nat, codeStart: int)
    ensures LoadedOffset(codeOffset, RebaseMapOffset(0, codeStart)) == 0
  {
  }

  /** The write pass has the same offset as the layout, and every map laid out so far is in its bytes. */
  ghost predicate MapsWritten(start: nat, s: MapLayout, w: MapOutput)
  {
    && w.offset == s.offset == start + |w.bytes|
    && forall blob :: blob in s.dedupe ==> Holds(w.bytes, s.dedupe[blob] - start, blob.bytes)
  }

  lemma WriteMapStep(kind: MapKind, start: nat, ms: seq<CompiledMethod>, s: MapLayout, w: MapOutput, m: CompiledMethod,
                     codeOffset: nat, field: word)
    requires |s.offsets| == |ms| && MapsPlaced(kind, start, ms, s) && MapsWritten(start, s, w)
    requires LoadedOffset(codeOffset, field) == VisitMap(kind, s, m).offsets[|ms|]
    ensures MapsWritten(start, VisitMap(kind, s, m), WriteMap(kind, w, m, codeOffset, field))
  {
    hide LoadedOffset, Holds;
    if HasMap(kind, m) {
      var blob := MapOf(kind, m).value;
      hide MapOf;
      if blob !in s.dedupe {
        var w' := WriteMap(kind, w, m, codeOffset, field);
        assert w'.bytes == w.bytes + blob.bytes;
        HoldsItself(blob.bytes);
        HoldsInSum(w.bytes, blob.bytes, 0, blob.bytes);
        forall b | b in s.dedupe
          ensures Holds(w'.bytes, s.dedupe[b] - start, b.bytes)
        {
          HoldsInSum(w.bytes, blob.bytes, s.dedupe[b] - start, b.bytes);
        }
      }
    }
  }

  lemma HoldsItself(s: seq<byte>)
    ensures Holds(s, 0, s)
  {
  }

  lemma {:induction false} WritePassFollowsLayout(kind: MapKind, start: nat, ms: seq<CompiledMethod>,
                                                  entries: seq<Entry>)
    requires |entries| == |ms|
    requires forall i :: 0 <= i < |ms| ==>
               LoadedOffset(entries[i].codeOffset, FieldOf(kind, entries[i].header)) ==
               LayoutMaps(kind, start, ms).offsets[i]
    ensures MapsWritten(start, LayoutMaps(kind, start, ms), WriteMaps(kind, start, ms, entries))
    decreases |ms|
  {
    hide VisitMap, WriteMap, MapsPlaced, LoadedOffset, FieldOf, MapsWritten;
    if ms == [] {
      NothingWritten(start);
    } else {
      var k := |ms| - 1;
      var s := LayoutMaps(kind, start, ms[..k]);
      LayoutPlacesMaps(kind, start, ms[..k]);
      VisitKeepsOffsets(kind, s, ms[k]);
      WritePassFollowsLayout(kind, start, ms[..k], entries[..k]);
      WriteMapStep(kind, start, ms[..k], s, WriteMaps(kind, start, ms[..k], entries[..k]), ms[k], entries[k].codeOffset,
                   FieldOf(kind, entries[k].header));
    }
  }

  lemma VisitKeepsOffsets(kind: MapKind, s: MapLayout, m: CompiledMethod)
    ensures |VisitMap(kind, s, m).offsets| == |s.offsets| + 1
    ensures forall i :: 0 <= i < |s.offsets| ==> VisitMap(kind, s, m).offsets[i] == s.offsets[i]
  {
  }

  lemma NothingWritten(start: nat)
    ensures MapsWritten(start, MapLayout(start, map[], []), MapOutput(start, []))
  {
  }

  // ---------------------------------------------------------------- all three kinds, with the code

  function MapStart(kind: MapKind, start: nat, ms: seq<CompiledMethod>): nat
  {
    match kind
    case GcMap => start
    case MappingTable => LayoutMaps(GcMap, start, ms).offset
    case VmapTable => LayoutMaps(MappingTable, LayoutMaps(GcMap, start, ms).offset, ms).offset
  }

  function MapsOf(kind: MapKind, start: nat, ms: seq<CompiledMethod>): (s: MapLayout)
    ensures |s.offsets| == |ms|
  {
    LayoutMaps(kind, MapStart(kind, start, ms), ms)
  }

  /** The header field left by the map pass, before the code is placed. */
  function InitialField(kind: MapKind, start: nat, ms: seq<CompiledMethod>, i: nat): word
    requires i < |ms|
  {
    if HasMap(kind, ms[i]) then StoredOffset(0, MapsOf(kind, start, ms).offsets[i]) else 0
  }

  /** The methods and their headers, as the map passes hand them to the code pass. */
  function ItemsWithMaps(start: nat, ms: seq<CompiledMethod>): (items: seq<Item>)
    ensures |items| == |ms|
  {
    seq(|ms|, i requires 0 <= i < |ms| =>
      Item(ms[i], MethodHeader(InitialField(MappingTable, start, ms, i), InitialField(VmapTable, start, ms, i),
                               InitialField(GcMap, start, ms, i), FrameInfo(0, 0, 0), 0)))
  }

  lemma MapOrder(start: nat, ms: seq<CompiledMethod>)
    ensures start == MapStart(GcMap, start, ms) <= MapStart(MappingTable, start, ms) <= MapStart(VmapTable, start, ms)
                  <= MapsOf(VmapTable, start, ms).offset
    ensures forall kind ::
              start <= MapStart(kind, start, ms) <= MapsOf(kind, start, ms).offset
                    <= MapsOf(VmapTable, start, ms).offset
  {
    hide LayoutMaps;
    LayoutPlacesMaps(GcMap, start, ms);
    LayoutPlacesMaps(MappingTable, MapStart(MappingTable, start, ms), ms);
    LayoutPlacesMaps(VmapTable, MapStart(VmapTable, start, ms), ms);
  }

  /** Code offsets, of shared code too, are boundaries past the start of the code. */
  lemma {:induction false} EntryIsCode(cfg: Config, codeStart: nat, items: seq<Item>, i: nat)
    requires ValidItems(items) && i < |items| && Final(cfg, codeStart, items).reserved.offset < OFFSET_LIMIT
    ensures |Final(cfg, codeStart, items).entries| == |items|
    ensures var v := Final(cfg, codeStart, items).entries[i].codeOffset;
            CodeOffset(cfg.isa, v, OFFSET_LIMIT) && codeStart + HEADER_SIZE <= v - CodeDelta(cfg.isa)
    decreases i
  {
    hide Final, SlotAt, VisitMethod, OnBoundary, KeyOf;
    EntryOf(cfg, codeStart, items, i);
    if Deduplicated(items, i) {
      var j :| 0 <= j < i && KeyOf(items[j].m) == KeyOf(items[i].m);
      SharedOffset(cfg, codeStart, items, j, i);
      EntryIsCode(cfg, codeStart, items, j);
    } else {
      NewEntryOffset(cfg, codeStart, items, i);
      SlotOnBoundary(cfg, codeStart, items, i);
      SlotWithinFinal(cfg, codeStart, items, i);
      assert ValidMethod(items[i].m);
    }
  }

  lemma NewEntryOffset(cfg: Config, codeStart: nat, items: seq<Item>, i: nat)
    requires i < |items| && !Deduplicated(items, i)
    ensures |Final(cfg, codeStart, items).entries| == |items|
    ensures Final(cfg, codeStart, items).entries[i].codeOffset ==
            SlotAt(cfg, codeStart, items, i) + HEADER_SIZE + CodeDelta(cfg.isa)
    ensures codeStart <= SlotAt(cfg, codeStart, items, i)
  {
    hide Final, VisitMethod, SlotOf, Reached, Deduplicated, KeyOf, AlignCode;
    EntryOf(cfg, codeStart, items, i);
    VisitRecords(cfg, Reached(cfg, codeStart, items, i), items[i]);
    SharesExactly(cfg, codeStart, items, i);
    ReachedThunksBehind(cfg, codeStart, items, i);
    StepPlaces(cfg, Reached(cfg, codeStart, items, i), items[i]);
  }

  /** The code pass completes each map field with the method's own code offset. */
  lemma EntryHeader(cfg: Config, codeStart: nat, items: seq<Item>, i: nat, kind: MapKind)
    requires i < |items|
    ensures |Final(cfg, codeStart, items).entries| == |items|
    ensures var e := Final(cfg, codeStart, items).entries[i];
            FieldOf(kind, e.header) ==
            RebaseMapOffset(FieldOf(kind, items[i].header), e.codeOffset - CodeDelta(cfg.isa))
  {
    hide Final, ReserveSpace, SlotOf, Reached, KeyOf, RebaseMapOffset;
    EntryOf(cfg, codeStart, items, i);
  }

  ghost predicate MapsThenCode(cfg: Config, start: nat, codeStart: nat, ms: seq<CompiledMethod>)
  {
    && 0 < start && MapsOf(VmapTable, start, ms).offset <= codeStart
    && (forall i :: 0 <= i < |ms| ==> ValidMethod(ms[i]))
    && Final(cfg, codeStart, ItemsWithMaps(start, ms)).reserved.offset < OFFSET_LIMIT
  }

  lemma ItemFields(start: nat, ms: seq<CompiledMethod>, kind: MapKind, i: nat)
    requires i < |ms|
    ensures ItemsWithMaps(start, ms)[i].m == ms[i]
    ensures FieldOf(kind, ItemsWithMaps(start, ms)[i].header) == InitialField(kind, start, ms, i)
  {
  }

  lemma FinalFieldsComplete(cfg: Config, start: nat, codeStart: nat, ms: seq<CompiledMethod>, kind: MapKind,
                            items: seq<Item>, entries: seq<Entry>)
    requires items == ItemsWithMaps(start, ms) && entries == Final(cfg, codeStart, items).entries
    ensures FieldsComplete(kind, cfg.isa, ms, MapsOf(kind, start, ms).offsets, entries)
  {
    hide Final, MapsOf, ItemsWithMaps, RebaseMapOffset, StoredOffset, HasMap, FieldOf, InitialLayout;
    FinalEntryCount(cfg, codeStart, items);
    forall i | 0 <= i < |ms|
      ensures FieldOf(kind, entries[i].header) ==
              RebaseMapOffset(InitialField(kind, start, ms, i), entries[i].codeOffset - CodeDelta(cfg.isa))
    {
      ItemFields(start, ms, kind, i);
      EntryHeader(cfg, codeStart, items, i, kind);
    }
  }

  lemma FinalEntryCount(cfg: Config, codeStart: nat, items: seq<Item>)
    ensures |Final(cfg, codeStart, items).entries| == |items|
  {
    hide VisitAll, ReserveFinal;
    EntriesGrow(cfg, InitialLayout(codeStart), items);
  }

  lemma FinalCodeAfterMaps(cfg: Config, start: nat, codeStart: nat, ms: seq<CompiledMethod>, kind: MapKind,
                           items: seq<Item>, entries: seq<Entry>)
    requires MapsThenCode(cfg, start, codeStart, ms)
    requires items == ItemsWithMaps(start, ms) && entries == Final(cfg, codeStart, items).entries
    ensures CodeAfterMaps(cfg.isa, MapsOf(kind, start, ms).offset, entries)
  {
    hide Final, MapsOf, CodeOffset, ValidMethod, InitialField;
    MapOrder(start, ms);
    FinalEntryCount(cfg, codeStart, items);
    assert ValidItems(items);
    hide ItemsWithMaps;
    forall i | 0 <= i < |entries|
      ensures CodeOffset(cfg.isa, entries[i].codeOffset, OFFSET_LIMIT)
      ensures codeStart + HEADER_SIZE <= entries[i].codeOffset - CodeDelta(cfg.isa)
    {
      EntryIsCode(cfg, codeStart, items, i);
    }
  }

  /**
   Map offsets survive the two fix-ups: for each kind of map the write pass ends where the layout
   said, and code offset minus header field is where it put the method's map; a zero field means the
   method has no such map.
   */
  lemma MapsSurvive(cfg: Config, start: nat, codeStart: nat, ms: seq<CompiledMethod>, kind: MapKind,
                    items: seq<Item>, entries: seq<Entry>, i: nat)
    requires MapsThenCode(cfg, start, codeStart, ms) && i < |ms|
    requires items == ItemsWithMaps(start, ms) && entries == Final(cfg, codeStart, items).entries
    ensures |entries| == |ms|
    ensures var w := WriteMaps(kind, MapStart(kind, start, ms), ms, entries);
            var field := FieldOf(kind, entries[i].header);
            && w.offset == MapsOf(kind, start, ms).offset
            && (field != 0 <==> HasMap(kind, ms[i]))
            && (HasMap(kind, ms[i]) ==>
                  Holds(w.bytes, ClearLowBit(entries[i].codeOffset) - field - MapStart(kind, start, ms),
                        MapOf(kind, ms[i]).value.bytes))
  {
    hide Final, ItemsWithMaps, MapStart, LayoutMaps, WriteMaps, FieldsComplete, CodeAfterMaps, Holds, FieldOf,
      LoadedOffset, MapsPlaced, MapsWritten, MapsThenCode, HasMap, ClearLowBit;
    var first := MapStart(kind, start, ms);
    AllReadBack(cfg, start, codeStart, ms, kind, items, entries);
    WritePassFollowsLayout(kind, first, ms, entries);
    LayoutPlacesMaps(kind, first, ms);
    FieldLocatesMap(kind, cfg.isa, first, ms, entries, i);
    WrittenWherePlaced(kind, first, ms, LayoutMaps(kind, first, ms), WriteMaps(kind, first, ms, entries), i);
  }

  lemma WrittenWherePlaced(kind: MapKind, start: nat, ms: seq<CompiledMethod>, s: MapLayout, w: MapOutput, i: nat)
    requires i < |ms| == |s.offsets| && MapsPlaced(kind, start, ms, s) && MapsWritten(start, s, w)
    ensures w.offset == s.offset
    ensures HasMap(kind, ms[i]) ==> Holds(w.bytes, s.offsets[i] - start, MapOf(kind, ms[i]).value.bytes)
  {
    hide Holds;
  }

  lemma AllReadBack(cfg: Config, start: nat, codeStart: nat, ms: seq<CompiledMethod>, kind: MapKind,
                    items: seq<Item>, entries: seq<Entry>)
    requires MapsThenCode(cfg, start, codeStart, ms)
    requires items == ItemsWithMaps(start, ms) && entries == Final(cfg, codeStart, items).entries
    ensures |entries| == |ms| && 0 < MapStart(kind, start, ms)
    ensures FieldsComplete(kind, cfg.isa, ms, MapsOf(kind, start, ms).offsets, entries)
    ensures CodeAfterMaps(cfg.isa, MapsOf(kind, start, ms).offset, entries)
    ensures forall j :: 0 <= j < |ms| ==>
              LoadedOffset(entries[j].codeOffset, FieldOf(kind, entries[j].header)) ==
              MapsOf(kind, start, ms).offsets[j]
  {
    hide Final, ItemsWithMaps, MapStart, LayoutMaps, FieldsComplete, CodeAfterMaps, FieldOf, LoadedOffset;
    FinalEntryCount(cfg, codeStart, items);
    FinalFieldsComplete(cfg, start, codeStart, ms, kind, items, entries);
    FinalCodeAfterMaps(cfg, start, codeStart, ms, kind, items, entries);
    MapOrder(start, ms);
    forall j | 0 <= j < |ms|
      ensures LoadedOffset(entries[j].codeOffset, FieldOf(kind, entries[j].header)) ==
              MapsOf(kind, start, ms).offsets[j]
    {
      OffsetsReadBack(kind, cfg.isa, MapStart(kind, start, ms), ms, entries, j);
    }
  }

  lemma FieldLocatesMap(kind: MapKind, isa: Isa, start: nat, ms: seq<CompiledMethod>, entries: seq<Entry>, i: nat)
    requires 0 < start && i < |ms|
    requires FieldsComplete(kind, isa, ms, LayoutMaps(kind, start, ms).offsets, entries)
    requires CodeAfterMaps(isa, LayoutMaps(kind, start, ms).offset, entries)
    ensures var field := FieldOf(kind, entries[i].header);
            && (field != 0 <==> HasMap(kind, ms[i]))
            && (HasMap(kind, ms[i]) ==>
                  ClearLowBit(entries[i].codeOffset) - field == LayoutMaps(kind, start, ms).offsets[i])
  {
    hide LayoutMaps, StoredOffset, FieldOf, Wrap;
    LayoutPlacesMaps(kind, start, ms);
    if HasMap(kind, ms[i]) {
      FixUpsCancel(isa, entries[i].codeOffset, LayoutMaps(kind, start, ms).offsets[i]);
      TargetIsCodeStart(isa, entries[i].codeOffset, OFFSET_LIMIT);
    }
  }

  // ---------------------------------------------------------------- duplicates

  /** The distinct maps of one kind, in order of first use. */
  function FirstMaps(kind: MapKind, ms: seq<CompiledMethod>): seq<Blob>
  {
    if ms == [] then
      []
    else
      var k := |ms| - 1;
      var before := FirstMaps(kind, ms[..k]);
      if HasMap(kind, ms[k]) && MapOf(kind, ms[k]).value !in before then before + [MapOf(kind, ms[k]).value] else before
  }

  function Flatten(blobs: seq<Blob>): seq<byte>
  {
    if blobs == [] then [] else Flatten(blobs[..|blobs| - 1]) + blobs[|blobs| - 1].bytes
  }

  lemma {:induction false} FirstMapsAreDistinct(kind: MapKind, start: nat, ms: seq<CompiledMethod>)
    ensures forall a, b :: 0 <= a < b < |FirstMaps(kind, ms)| ==> FirstMaps(kind, ms)[a] != FirstMaps(kind, ms)[b]
    ensures forall blob :: blob in FirstMaps(kind, ms) <==> blob in LayoutMaps(kind, start, ms).dedupe
  {
    hide HasMap, MapOf;
    if ms != [] {
      FirstMapsAreDistinct(kind, start, ms[..|ms| - 1]);
    }
  }

  lemma {:induction false} BytesAreFirstMaps(kind: MapKind, start: nat, ms: seq<CompiledMethod>, entries: seq<Entry>)
    requires |entries| == |ms|
    requires forall i :: 0 <= i < |ms| ==>
               LoadedOffset(entries[i].codeOffset, FieldOf(kind, entries[i].header)) ==
               LayoutMaps(kind, start, ms).offsets[i]
    ensures WriteMaps(kind, start, ms, entries).bytes == Flatten(FirstMaps(kind, ms))
    decreases |ms|
  {
    if ms != [] {
      hide LoadedOffset, FieldOf, VisitMap, WriteMap, MapsPlaced, MapsWritten, FirstMaps, Flatten;
      var k := |ms| - 1;
      var s := LayoutMaps(kind, start, ms[..k]);
      VisitKeepsOffsets(kind, s, ms[k]);
      BytesAreFirstMaps(kind, start, ms[..k], entries[..k]);
      WritePassFollowsLayout(kind, start, ms[..k], entries[..k]);
      LayoutPlacesMaps(kind, start, ms[..k]);
      FirstMapsAreDistinct(kind, start, ms[..k]);
      FirstMapsStep(kind, start, ms, s, WriteMaps(kind, start, ms[..k], entries[..k]), entries[k].codeOffset,
                    FieldOf(kind, entries[k].header));
    }
  }

  lemma {:induction false} FirstMapsStep(kind: MapKind, start: nat, ms: seq<CompiledMethod>, s: MapLayout, w: MapOutput,
                                         codeOffset: nat, field: word)
    requires ms != [] && |s.offsets| == |ms| - 1
    requires MapsPlaced(kind, start, ms[..|ms| - 1], s) && MapsWritten(start, s, w)
    requires LoadedOffset(codeOffset, field) == VisitMap(kind, s, ms[|ms| - 1]).offsets[|ms| - 1]
    requires w.bytes == Flatten(FirstMaps(kind, ms[..|ms| - 1]))
    requires forall blob :: blob in FirstMaps(kind, ms[..|ms| - 1]) <==> blob in s.dedupe
    ensures WriteMap(kind, w, ms[|ms| - 1], codeOffset, field).bytes == Flatten(FirstMaps(kind, ms))
  {
  }

  /** Duplicate maps are written once: the bytes are the distinct maps, one after the other. */
  lemma MapsWrittenOnce(cfg: Config, start: nat, codeStart: nat, ms: seq<CompiledMethod>, kind: MapKind,
                        items: seq<Item>, entries: seq<Entry>)
    requires MapsThenCode(cfg, start, codeStart, ms)
    requires items == ItemsWithMaps(start, ms) && entries == Final(cfg, codeStart, items).entries
    ensures |entries| == |ms|
    ensures WriteMaps(kind, MapStart(kind, start, ms), ms, entries).bytes == Flatten(FirstMaps(kind, ms))
  {
    hide Final, ItemsWithMaps, MapStart, LayoutMaps, WriteMaps, FieldsComplete, CodeAfterMaps, FieldOf, LoadedOffset;
    AllReadBack(cfg, start, codeStart, ms, kind, items, entries);
    BytesAreFirstMaps(kind, MapStart(kind, start, ms), ms, entries);
  }

  /** The header written with shared code serves every method that shares it: the map fields agree. */
  lemma SharedHeaderFits(cfg: Config, start: nat, codeStart: nat, ms: seq<CompiledMethod>, kind: MapKind,
                         items: seq<Item>, entries: seq<Entry>, j: nat, i: nat)
    requires items == ItemsWithMaps(start, ms) && entries == Final(cfg, codeStart, items).entries
    requires j < i < |ms| && KeyOf(ms[j]) == KeyOf(ms[i])
    ensures |entries| == |ms| && FieldOf(kind, entries[i].header) == FieldOf(kind, entries[j].header)
  {
    hide Final, ItemsWithMaps, RebaseMapOffset, FieldOf, StoredOffset, LayoutMaps, MapStart;
    ItemFields(start, ms, kind, i);
    ItemFields(start, ms, kind, j);
    EntryHeader(cfg, codeStart, items, i, kind);
    EntryHeader(cfg, codeStart, items, j, kind);
    SharedOffset(cfg, codeStart, items, j, i);
    LayoutPlacesMaps(kind, MapStart(kind, start, ms), ms);
    assert MapOf(kind, ms[i]) == MapOf(kind, ms[j]);
  }
}
