/**
 Maps and code of an oat file, laid out and written in the writer's order: the three kinds of maps
 are laid out, then the code, then everything is written.
 */
module OatFile {
  import opened Words
  import opened RelativeCalls
  import opened CodeLayout
  import opened CodeWriting
  import opened CodeAgreement
  import opened CodePlacement
  import opened CallsLand
  import opened MethodCode
  import opened OatMaps
  import opened OatWriter

  const EMPTY_HEADER := MethodHeader(0, 0, 0, FrameInfo(0, 0, 0), 0)

  /** InitOatMaps: each kind of map after the one before; every header ends up with its three fields. */
  method InitOatMaps(start: nat, ms: seq<CompiledMethod>) returns (items: seq<Item>, end: nat)
    ensures items == ItemsWithMaps(start, ms) && end == MapsOf(VmapTable, start, ms).offset
  {
    hide LayoutMaps, HasMap, StoredOffset;
    var headers := new MethodHeader[|ms|](_ => EMPTY_HEADER);
    var offset := InitMaps(GcMap, start, ms, headers);
    offset := InitMaps(MappingTable, offset, ms, headers);
    end := InitMaps(VmapTable, offset, ms, headers);
    items := seq(|ms|, i requires 0 <= i < |ms| reads headers => Item(ms[i], headers[i]));
  }

  /** What the reader of a header finds: the map of each kind, counted back from the code. */
  ghost predicate MapFound(kind: MapKind, start: nat, maps: seq<byte>, m: CompiledMethod, entry: Entry)
  {
    var field := FieldOf(kind, entry.header);
    && (field != 0 <==> HasMap(kind, m))
    && (HasMap(kind, m) ==> Holds(maps, ClearLowBit(entry.codeOffset) - field - start, MapOf(kind, m).value.bytes))
  }

  /** The bytes written for one kind of map reach from where the kind starts to where it ends. */
  lemma MapBytes(cfg: Config, start: nat, codeStart: nat, ms: seq<CompiledMethod>, kind: MapKind,
                 items: seq<Item>, entries: seq<Entry>)
    requires MapsThenCode(cfg, start, codeStart, ms)
    requires items == ItemsWithMaps(start, ms) && entries == Final(cfg, codeStart, items).entries
    ensures |entries| == |ms|
    ensures var w := WriteMaps(kind, MapStart(kind, start, ms), ms, entries);
            w.offset == MapsOf(kind, start, ms).offset == MapStart(kind, start, ms) + |w.bytes|
  {
    hide Final, ItemsWithMaps, MapStart, LayoutMaps, WriteMaps, FieldOf, LoadedOffset, MapsThenCode;
    AllReadBack(cfg, start, codeStart, ms, kind, items, entries);
    WritePassFollowsLayout(kind, MapStart(kind, start, ms), ms, entries);
  }

  /** A map found among the bytes of its kind is found in the file. */
  lemma FoundInFile(kind: MapKind, start: nat, left: seq<byte>, own: seq<byte>, right: seq<byte>, m: CompiledMethod,
                    entry: Entry)
    requires MapFound(kind, start + |left|, own, m, entry)
    ensures MapFound(kind, start, left + own + right, m, entry)
  {
    hide FieldOf, ClearLowBit;
    if HasMap(kind, m) {
      var at, bytes := ClearLowBit(entry.codeOffset) - FieldOf(kind, entry.header) - start, MapOf(kind, m).value.bytes;
      HoldsInSum(left, own, at - |left|, bytes);
      HoldsInSum(left + own, right, at, bytes);
    }
  }

  lemma FoundAmongOwn(cfg: Config, start: nat, codeStart: nat, ms: seq<CompiledMethod>, kind: MapKind,
                      items: seq<Item>, entries: seq<Entry>, i: nat)
    requires MapsThenCode(cfg, start, codeStart, ms) && i < |ms|
    requires items == ItemsWithMaps(start, ms) && entries == Final(cfg, codeStart, items).entries
    ensures |entries| == |ms|
    ensures MapFound(kind, MapStart(kind, start, ms), WriteMaps(kind, MapStart(kind, start, ms), ms, entries).bytes,
                     ms[i], entries[i])
  {
    hide Final, ItemsWithMaps, MapStart, WriteMaps, FieldOf, MapsThenCode, Holds, ClearLowBit, LayoutMaps;
    MapsSurvive(cfg, start, codeStart, ms, kind, items, entries, i);
  }

  /** Each kind starts where the bytes of the kinds before it end. */
  lemma KindsFollow(cfg: Config, start: nat, codeStart: nat, ms: seq<CompiledMethod>, items: seq<Item>,
                    entries: seq<Entry>)
    requires MapsThenCode(cfg, start, codeStart, ms)
    requires items == ItemsWithMaps(start, ms) && entries == Final(cfg, codeStart, items).entries
    ensures |entries| == |ms|
    ensures var gc := WriteMaps(GcMap, start, ms, entries);
            var mapping := WriteMaps(MappingTable, gc.offset, ms, entries);
            var vmap := WriteMaps(VmapTable, mapping.offset, ms, entries);
            && MapStart(GcMap, start, ms) == start
            && MapStart(MappingTable, start, ms) == gc.offset == start + |gc.bytes|
            && MapStart(VmapTable, start, ms) == mapping.offset == start + |gc.bytes| + |mapping.bytes|
            && MapsOf(VmapTable, start, ms).offset == vmap.offset == start + |gc.bytes| + |mapping.bytes| + |vmap.bytes|
  {
    hide Final, ItemsWithMaps, LayoutMaps, WriteMaps, MapsThenCode;
    MapBytes(cfg, start, codeStart, ms, GcMap, items, entries);
    MapBytes(cfg, start, codeStart, ms, MappingTable, items, entries);
    MapBytes(cfg, start, codeStart, ms, VmapTable, items, entries);
  }

  /** Every kind's maps are found in the bytes of the three kinds together. */
  lemma AllFound(cfg: Config, start: nat, codeStart: nat, ms: seq<CompiledMethod>, items: seq<Item>,
                 entries: seq<Entry>, kind: MapKind, maps: seq<byte>, i: nat)
    requires MapsThenCode(cfg, start, codeStart, ms) && i < |ms| == |entries|
    requires items == ItemsWithMaps(start, ms) && entries == Final(cfg, codeStart, items).entries
    requires var gc := WriteMaps(GcMap, start, ms, entries);
             var mapping := WriteMaps(MappingTable, gc.offset, ms, entries);
             var vmap := WriteMaps(VmapTable, mapping.offset, ms, entries);
             maps == gc.bytes + mapping.bytes + vmap.bytes
    ensures MapFound(kind, start, maps, ms[i], entries[i])
  {
    hide Final, ItemsWithMaps, LayoutMaps, WriteMaps, MapsThenCode, MapFound, MapStart;
    KindsFollow(cfg, start, codeStart, ms, items, entries);
    FoundAmongOwn(cfg, start, codeStart, ms, kind, items, entries, i);
    var first := WriteMaps(GcMap, start, ms, entries);
    var second := WriteMaps(MappingTable, first.offset, ms, entries);
    var gc, mapping, vmap := first.bytes, second.bytes, WriteMaps(VmapTable, second.offset, ms, entries).bytes;
    match kind
    case GcMap =>
      FoundInFile(kind, start, [], gc, mapping + vmap, ms[i], entries[i]);
      assert [] + gc + (mapping + vmap) == maps;
    case MappingTable =>
      FoundInFile(kind, start, gc, mapping, vmap, ms[i], entries[i]);
    case VmapTable =>
      FoundInFile(kind, start, gc + mapping, vmap, [], ms[i], entries[i]);
      assert gc + mapping + vmap + [] == maps;
  }

  /**
   What stands in front of a method's code: the fields that lead to its maps and the size of its code;
   frame size and spill masks are those of the first method with this code.
   */
  ghost predicate HeaderFound(cfg: Config, codeStart: nat, items: seq<Item>, i: nat, entry: Entry, code: seq<byte>)
    requires i < |items|
  {
    exists j :: 0 <= j <= i && FirstThere(cfg, codeStart, items, j)
                && CodeStart(cfg, codeStart, items, j) == CodeStart(cfg, codeStart, items, i)
                && HeaderAt(code, CodeStart(cfg, codeStart, items, i) - codeStart, entry.header,
                            items[j].m.frame, |items[i].m.code.bytes|)
  }

  /** The header of shared code has the map fields of all methods that share it. */
  lemma SharedFields(cfg: Config, start: nat, codeStart: nat, ms: seq<CompiledMethod>, items: seq<Item>,
                     entries: seq<Entry>, j: nat, i: nat)
    requires items == ItemsWithMaps(start, ms) && entries == Final(cfg, codeStart, items).entries
    requires j <= i < |ms| && SameCode(items[j].m, items[i].m)
    ensures |entries| == |ms|
    ensures forall kind :: FieldOf(kind, entries[i].header) == FieldOf(kind, entries[j].header)
  {
    hide Final, ItemsWithMaps, FieldOf, KeyOf;
    FinalEntryCount(cfg, codeStart, items);
    if j < i {
      ItemFields(start, ms, GcMap, i);
      ItemFields(start, ms, GcMap, j);
      KeyIsCode(ms[j], ms[i]);
      forall kind
        ensures FieldOf(kind, entries[i].header) == FieldOf(kind, entries[j].header)
      {
        SharedHeaderFits(cfg, start, codeStart, ms, kind, items, entries, j, i);
      }
    }
  }

  lemma SameFields(a: MethodHeader, b: MethodHeader)
    requires forall kind :: FieldOf(kind, a) == FieldOf(kind, b)
    ensures a.gcMapOffset == b.gcMapOffset && a.mappingTableOffset == b.mappingTableOffset
    ensures a.vmapTableOffset == b.vmapTableOffset
  {
    assert FieldOf(GcMap, a) == FieldOf(GcMap, b);
    assert FieldOf(MappingTable, a) == FieldOf(MappingTable, b);
    assert FieldOf(VmapTable, a) == FieldOf(VmapTable, b);
  }

  /** Every method's header, shared or not, is found in front of its code. */
  lemma EveryHeaderFound(cfg: Config, link: Link, start: nat, codeStart: nat, ms: seq<CompiledMethod>,
                         items: seq<Item>, entries: seq<Entry>, i: nat, out: Output)
    requires items == ItemsWithMaps(start, ms) && entries == Final(cfg, codeStart, items).entries
    requires ValidItems(items) && i < |ms| == |entries| && LinkMatches(cfg, link, codeStart, items)
    requires out == WritePass(cfg, link, codeStart, items, entries)
    ensures HeaderFound(cfg, codeStart, items, i, entries[i], out.bytes)
  {
    hide Final, ItemsWithMaps, WritePass, CodeStart, FieldOf, Deduplicated, FirstThere, WordAt;
    var j := FirstOf(cfg, codeStart, items, i);
    OwnIsFirst(cfg, codeStart, items, j);
    HeaderWords(cfg, link, codeStart, items, j, out);
    SharedFields(cfg, start, codeStart, ms, items, entries, j, i);
    SameFields(entries[i].header, entries[j].header);
  }

  /** A header field leads from the code back to the map, and is zero exactly when there is none. */
  predicate Leads(field: word, codeAt: int, start: nat, maps: seq<byte>, blob: Option<Blob>)
  {
    var present := blob.Some? && blob.value.bytes != [];
    (field != 0 <==> present) && (present ==> Holds(maps, codeAt - field - start, blob.value.bytes))
  }

  /** From the words in front of the code alone, a reader finds the method's three maps. */
  predicate ReaderFinds(code: seq<byte>, codeStart: nat, codeAt: int, start: nat, maps: seq<byte>, m: CompiledMethod)
  {
    var at := codeAt - codeStart;
    && HEADER_SIZE <= at <= |code|
    && Leads(WordAt(code, at - 28), codeAt, start, maps, Some(m.mappingTable))
    && Leads(WordAt(code, at - 24), codeAt, start, maps, Some(m.vmapTable))
    && Leads(WordAt(code, at - 20), codeAt, start, maps, m.gcMap)
  }

  lemma FoundLeads(kind: MapKind, start: nat, maps: seq<byte>, m: CompiledMethod, entry: Entry, codeAt: int)
    requires MapFound(kind, start, maps, m, entry) && ClearLowBit(entry.codeOffset) == codeAt
    ensures Leads(FieldOf(kind, entry.header), codeAt, start, maps, MapOf(kind, m))
  {
    hide Holds, ClearLowBit, FieldOf;
  }

  lemma CodeAtIsCleared(cfg: Config, start: nat, codeStart: nat, ms: seq<CompiledMethod>, items: seq<Item>,
                        entries: seq<Entry>, i: nat)
    requires MapsThenCode(cfg, start, codeStart, ms) && i < |ms| == |entries|
    requires items == ItemsWithMaps(start, ms) && entries == Final(cfg, codeStart, items).entries
    ensures ClearLowBit(entries[i].codeOffset) == CodeStart(cfg, codeStart, items, i)
  {
    hide Final, ItemsWithMaps, MapsOf, MapsThenCode, ClearLowBit, CodeOffset;
    FinalCodeAfterMaps(cfg, start, codeStart, ms, GcMap, items, entries);
    TargetIsCodeStart(cfg.isa, entries[i].codeOffset, OFFSET_LIMIT);
  }

  /** The maps found by the recorded fields are found by the fields in the file. */
  lemma EveryReaderFinds(cfg: Config, start: nat, codeStart: nat, ms: seq<CompiledMethod>, items: seq<Item>,
                         entries: seq<Entry>, i: nat, maps: seq<byte>, code: seq<byte>)
    requires MapsThenCode(cfg, start, codeStart, ms) && i < |ms| == |entries|
    requires items == ItemsWithMaps(start, ms) && entries == Final(cfg, codeStart, items).entries
    requires forall kind :: MapFound(kind, start, maps, ms[i], entries[i])
    requires HeaderFound(cfg, codeStart, items, i, entries[i], code)
    ensures ReaderFinds(code, codeStart, CodeStart(cfg, codeStart, items, i), start, maps, ms[i])
  {
    hide Final, ItemsWithMaps, MapsThenCode, MapFound, CodeStart, WordAt, Leads, FirstThere, ClearLowBit;
    CodeAtIsCleared(cfg, start, codeStart, ms, items, entries, i);
    var codeAt := CodeStart(cfg, codeStart, items, i);
    FoundLeads(GcMap, start, maps, ms[i], entries[i], codeAt);
    FoundLeads(MappingTable, start, maps, ms[i], entries[i], codeAt);
    FoundLeads(VmapTable, start, maps, ms[i], entries[i], codeAt);
  }

  /** WriteMaps: each kind continues where the one before ended. */
  method WriteOatMaps(start: nat, ms: seq<CompiledMethod>, entries: seq<Entry>)
    returns (maps: seq<byte>, end: nat)
    requires |entries| == |ms|
    ensures var gc := WriteMaps(GcMap, start, ms, entries);
            var mapping := WriteMaps(MappingTable, gc.offset, ms, entries);
            var vmap := WriteMaps(VmapTable, mapping.offset, ms, entries);
            maps == gc.bytes + mapping.bytes + vmap.bytes && end == vmap.offset
  {
    var offset, gc := WriteMapPass(GcMap, start, ms, entries);
    var offset', mapping := WriteMapPass(MappingTable, offset, ms, entries);
    var vmap;
    end, vmap := WriteMapPass(VmapTable, offset', ms, entries);
    maps := gc + mapping + vmap;
  }

  /**
   The passes in the writer's order. Every method's code, with its patches filled in, is found at the
   code offset recorded for it, behind a header; every method's maps are found in the written maps by
   counting back from its code offset as the header in the file says.
   */
  method WriteOat(cfg: Config, link: Link, start: nat, codeStart: nat, ms: seq<CompiledMethod>)
    returns (maps: seq<byte>, code: seq<byte>, entries: seq<Entry>)
    requires MapsThenCode(cfg, start, codeStart, ms)
    ensures |entries| == |ms| && start + |maps| == MapsOf(VmapTable, start, ms).offset
    ensures forall i, kind :: 0 <= i < |ms| ==> MapFound(kind, start, maps, ms[i], entries[i])
    ensures var items := ItemsWithMaps(start, ms);
            var linked := Linked(link, InitPass(cfg, codeStart, items));
            && entries == Final(cfg, codeStart, items).entries
            && code == Planned(cfg, linked, InitialLayout(codeStart), items)
            && forall i :: 0 <= i < |ms| ==>
                 && CodeFound(cfg, linked, codeStart, items, i, code)
                 && HeaderFound(cfg, codeStart, items, i, entries[i], code)
                 && ReaderFinds(code, codeStart, CodeStart(cfg, codeStart, items, i), start, maps, ms[i])
  {
    hide MapFound, LayoutMaps, WriteMaps, Planned, VisitAll, EndInit, MapsThenCode, MapStart, CodeFound, HeaderFound,
      ReaderFinds, CodeStart;
    var items, end := InitOatMaps(start, ms);
    assert ValidItems(items) by { ItemsValid(cfg, start, codeStart, ms, items); }
    hide ItemsWithMaps;
    code, entries := WriteCode(cfg, link, codeStart, items);
    KindsFollow(cfg, start, codeStart, ms, items, entries);
    var mapsEnd;
    maps, mapsEnd := WriteOatMaps(start, ms, entries);
    forall i, kind | 0 <= i < |ms|
      ensures MapFound(kind, start, maps, ms[i], entries[i])
    {
      AllFound(cfg, start, codeStart, ms, items, entries, kind, maps, i);
    }
    forall i | 0 <= i < |ms|
      ensures CodeFound(cfg, Linked(link, InitPass(cfg, codeStart, items)), codeStart, items, i, code)
      ensures HeaderFound(cfg, codeStart, items, i, entries[i], code)
    {
      MethodWritten(cfg, link, start, codeStart, ms, items, entries, i, code);
    }
    forall i | 0 <= i < |ms|
      ensures ReaderFinds(code, codeStart, CodeStart(cfg, codeStart, items, i), start, maps, ms[i])
    {
      EveryReaderFinds(cfg, start, codeStart, ms, items, entries, i, maps, code);
    }
  }

  lemma MethodWritten(cfg: Config, link: Link, start: nat, codeStart: nat, ms: seq<CompiledMethod>, items: seq<Item>,
                      entries: seq<Entry>, i: nat, code: seq<byte>)
    requires MapsThenCode(cfg, start, codeStart, ms) && i < |ms| == |entries| && ValidItems(items)
    requires items == ItemsWithMaps(start, ms) && entries == Final(cfg, codeStart, items).entries
    requires var linked := Linked(link, InitPass(cfg, codeStart, items));
             code == Planned(cfg, linked, InitialLayout(codeStart), items)
    ensures CodeFound(cfg, Linked(link, InitPass(cfg, codeStart, items)), codeStart, items, i, code)
    ensures HeaderFound(cfg, codeStart, items, i, entries[i], code)
  {
    hide ItemsWithMaps, WritePass, Planned, VisitAll, EndInit, CodeFound, HeaderFound, MapsOf, ValidMethod;
    var linked := Linked(link, InitPass(cfg, codeStart, items));
    WritePassAgrees(cfg, linked, codeStart, items);
    var out := WritePass(cfg, linked, codeStart, items, entries);
    EveryMethodFound(cfg, linked, codeStart, items, i, out);
    EveryHeaderFound(cfg, linked, start, codeStart, ms, items, entries, i, out);
  }

  lemma ItemsValid(cfg: Config, start: nat, codeStart: nat, ms: seq<CompiledMethod>, items: seq<Item>)
    requires MapsThenCode(cfg, start, codeStart, ms) && items == ItemsWithMaps(start, ms)
    ensures ValidItems(items)
  {
    hide InitialField, Final, MapsOf, ValidMethod;
  }

  // ---------------------------------------------------------------- a sufficient size

  /** Room for the methods' code with headers and padding. */
  function CodeRoom(items: seq<Item>): nat
  {
    if items == [] then 0 else 16 + HEADER_SIZE + |items[0].m.code.bytes| + CodeRoom(items[1..])
  }

  ghost predicate NoCalls(items: seq<Item>)
  {
    forall i, codeStart :: 0 <= i < |items| ==> RelativeCallsOf(items[i].m.patches, codeStart) == []
  }

  lemma RoomForMethod(cfg: Config, s: Layout, item: Item)
    requires s.reserved.pending == [] && NoCalls([item])
    ensures var s' := VisitMethod(cfg, s, item);
            s'.reserved.pending == [] && s'.reserved.offset <= s.reserved.offset + CodeRoom([item])
  {
    hide RelativeCallsOf, CompleteHeader, AlignCode, KeyOf, AbsoluteLocations;
    assert RelativeCallsOf([item][0].m.patches, AlignCode(s.reserved.offset, cfg.isa) + HEADER_SIZE) == [];
  }

  lemma {:induction false} RoomForAll(cfg: Config, s: Layout, items: seq<Item>)
    requires s.reserved.pending == [] && NoCalls(items)
    ensures var s' := VisitAll(cfg, s, items);
            s'.reserved.pending == [] && s'.reserved.offset <= s.reserved.offset + CodeRoom(items)
    decreases |items|
  {
    hide VisitMethod, RelativeCallsOf;
    if items != [] {
      RoomForMethod(cfg, s, items[0]);
      RoomForAll(cfg, VisitMethod(cfg, s, items[0]), items[1..]);
    }
  }

  /** Methods without relative calls fit wherever there is room for their code. */
  lemma RoomIsEnough(cfg: Config, start: nat, codeStart: nat, ms: seq<CompiledMethod>)
    requires 0 < start && MapsOf(VmapTable, start, ms).offset <= codeStart
    requires forall i :: 0 <= i < |ms| ==> ValidMethod(ms[i])
    requires NoCalls(ItemsWithMaps(start, ms)) && codeStart + CodeRoom(ItemsWithMaps(start, ms)) < OFFSET_LIMIT
    ensures MapsThenCode(cfg, start, codeStart, ms)
  {
    hide ItemsWithMaps, MapsOf, VisitAll, NoCalls, CodeRoom;
    RoomForAll(cfg, InitialLayout(codeStart), ItemsWithMaps(start, ms));
  }
}
