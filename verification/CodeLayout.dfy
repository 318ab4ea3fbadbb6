/**
 Compiled methods and the pass that lays their code out: where each method goes, which ones share
 code, and where branch islands (thunks) are reserved for calls that would not reach.
 */
module CodeLayout {
  import opened Words
  import opened RelativeCalls

  datatype MethodRef = MethodRef(dexFile: nat, index: nat)

  datatype PatchKind = MethodPatch | CallPatch | CallRelativePatch | TypePatch

  /** A place in a method's code to fill in at link time; a type patch names a type, not a method. */
  datatype LinkerPatch = LinkerPatch(literalOffset: nat, kind: PatchKind, target: MethodRef)

  /** A byte vector owned by the compiler driver: equal vectors are one object at one address. */
  datatype Blob = Blob(address: nat, bytes: seq<byte>)

  datatype FrameInfo = FrameInfo(frameSize: word, coreSpillMask: word, fpSpillMask: word)

  datatype CompiledMethod = CompiledMethod(
    ref: MethodRef, code: Blob, mappingTable: Blob, vmapTable: Blob, gcMap: Option<Blob>,
    frame: FrameInfo, patches: seq<LinkerPatch>)

  /** What the code dedupe map compares; the frame information is not part of it. */
  datatype CodeKey = CodeKey(
    code: Blob, mappingTable: Blob, vmapTable: Blob, gcMap: Option<Blob>, patches: seq<LinkerPatch>)

  function KeyOf(m: CompiledMethod): CodeKey
  {
    CodeKey(m.code, m.mappingTable, m.vmapTable, m.gcMap, m.patches)
  }

  /** OatQuickMethodHeader, stored right before the code. */
  datatype MethodHeader = MethodHeader(
    mappingTableOffset: word, vmapTableOffset: word, gcMapOffset: word, frame: FrameInfo, codeSize: word)

  const HEADER_SIZE: nat := 28

  function HeaderBytes(h: MethodHeader): (s: seq<byte>)
    ensures |s| == HEADER_SIZE
  {
    LittleEndian(h.mappingTableOffset) + LittleEndian(h.vmapTableOffset) + LittleEndian(h.gcMapOffset) +
    LittleEndian(h.frame.frameSize) + LittleEndian(h.frame.coreSpillMask) + LittleEndian(h.frame.fpSpillMask) +
    LittleEndian(h.codeSize)
  }

  /** The runtime finds each field of the header at its place in the structure. */
  lemma HeaderReadsBack(h: MethodHeader)
    ensures var s := HeaderBytes(h);
            h == MethodHeader(WordAt(s, 0), WordAt(s, 4), WordAt(s, 8),
                              FrameInfo(WordAt(s, 12), WordAt(s, 16), WordAt(s, 20)), WordAt(s, 24))
  {
    hide LittleEndian, FromLittleEndian;
    var s := HeaderBytes(h);
    FieldReads(s, 0, h.mappingTableOffset);
    FieldReads(s, 4, h.vmapTableOffset);
    FieldReads(s, 8, h.gcMapOffset);
    FieldReads(s, 12, h.frame.frameSize);
    FieldReads(s, 16, h.frame.coreSpillMask);
    FieldReads(s, 20, h.frame.fpSpillMask);
    FieldReads(s, 24, h.codeSize);
  }

  lemma FieldReads(s: seq<byte>, k: nat, w: word)
    requires k + 4 <= |s| && s[k..k + 4] == LittleEndian(w)
    ensures WordAt(s, k) == w
  {
    LittleEndianRoundTrip(w);
  }

  /** What the writer demands of a compiled method: some code, and patches inside it. */
  predicate ValidMethod(m: CompiledMethod)
  {
    && 0 < |m.code.bytes| < 0x1_0000_0000
    && forall p :: p in m.patches ==> p.literalOffset + 4 <= |m.code.bytes|
  }

  /** A method as the code passes see it: with the header the map passes left for it. */
  datatype Item = Item(m: CompiledMethod, header: MethodHeader)

  predicate ValidItems(items: seq<Item>)
  {
    forall i :: 0 <= i < |items| ==> ValidMethod(items[i].m)
  }

  datatype Config = Config(isa: Isa, thunkCode: seq<byte>, executableOffset: nat)

  /** The Thumb bit carried by code offsets. */
  function CodeDelta(isa: Isa): nat
  {
    if isa.Thumb2? then 1 else 0
  }

  predicate Aligned(offset: nat, isa: Isa)
  {
    if isa.Thumb2? then offset % 8 == 0 else offset % 16 == 0
  }

  /** The next place where code may start. */
  function AlignCode(offset: nat, isa: Isa): (r: nat)
    ensures offset <= r < offset + 16
    ensures Aligned(r, isa)
    ensures Aligned(offset, isa) ==> r == offset
  {
    NextMultiple(offset);
    var n := if isa.Thumb2? then offset % 8 else offset % 16;
    if n == 0 then offset else offset - n + (if isa.Thumb2? then 8 else 16)
  }

  lemma NextMultiple(offset: nat)
    ensures (offset - offset % 8 + 8) % 8 == 0
    ensures (offset - offset % 16 + 16) % 16 == 0
  {
    NextMultipleOf8(offset);
    NextMultipleOf16(offset);
  }

  lemma NextMultipleOf8(offset: nat)
    ensures (offset - offset % 8 + 8) % 8 == 0
  {
    var k := offset / 8 + 1;
    assert offset - offset % 8 + 8 == 8 * k;
  }

  lemma NextMultipleOf16(offset: nat)
    ensures (offset - offset % 16 + 16) % 16 == 0
  {
    var k := offset / 16 + 1;
    assert offset - offset % 16 + 16 == 16 * k;
  }

  /** Code starts at the first place where it may. */
  lemma AlignIsLeast(offset: nat, isa: Isa, place: nat)
    requires offset <= place && Aligned(place, isa)
    ensures AlignCode(offset, isa) <= place
  {
    if isa.Thumb2? {
      LeastMultiple(offset, 8, place);
    } else {
      LeastMultiple(offset, 16, place);
    }
  }

  lemma LeastMultiple(offset: nat, n: nat, place: nat)
    requires n == 8 || n == 16
    requires offset <= place && place % n == 0
    ensures offset % n != 0 ==> offset - offset % n + n <= place
  {
    if offset % n != 0 {
      var k, l := offset / n, place / n;
      assert offset == n * k + offset % n && place == n * l;
    }
  }

  /** Bytes a thunk takes up, with the padding after it. */
  function ThunkSpan(cfg: Config): nat
  {
    AlignCode(|cfg.thunkCode|, cfg.isa)
  }

  // ---------------------------------------------------------------- reserving thunks

  datatype PendingCall = PendingCall(target: MethodRef, offset: nat)

  function Last(s: seq<nat>): nat
    requires s != []
  {
    s[|s| - 1]
  }

  /**
   ReserveSpaceProcessPatches: drops calls from the front of the queue while they are known to be
   in reach; tells whether a thunk is needed now, and what is left of the queue.
   */
  function ProcessPatches(isa: Isa, thunks: seq<nat>, pending: seq<PendingCall>, known: map<MethodRef, nat>, next: nat)
    : (r: (bool, seq<PendingCall>))
    decreases |pending|
  {
    if pending == [] then
      (false, pending)
    else
      var at, target := pending[0].offset, pending[0].target;
      if target !in known then
        if thunks == [] || Wrap(at - Last(thunks)) > MaxNegative(isa) then
          (Wrap(next - at) > MaxPositive(isa), pending)
        else
          ProcessPatches(isa, thunks, pending[1..], known, next)
      else if known[target] >= at then
        ProcessPatches(isa, thunks, pending[1..], known, next)
      else
        var closest := if thunks == [] || known[target] > Last(thunks) then known[target] else Last(thunks);
        if Wrap(at - closest) > MaxNegative(isa) then
          (true, pending)
        else
          ProcessPatches(isa, thunks, pending[1..], known, next)
  }

  datatype Reservation = Reservation(offset: nat, thunks: seq<nat>, pending: seq<PendingCall>)

  /** The relative calls among `patches`, as queued for code at `codeStart`. */
  function RelativeCallsOf(patches: seq<LinkerPatch>, codeStart: nat): seq<PendingCall>
  {
    if patches == [] then
      []
    else
      (if patches[0].kind.CallRelativePatch?
       then [PendingCall(patches[0].target, codeStart + patches[0].literalOffset)] else [])
      + RelativeCallsOf(patches[1..], codeStart)
  }

  /** ReserveSpace for a method; the queued offsets ignore a thunk inserted right here. */
  function ReserveSpace(cfg: Config, r: Reservation, known: map<MethodRef, nat>, m: CompiledMethod): Reservation
  {
    var codeStart := AlignCode(r.offset, cfg.isa) + HEADER_SIZE;
    var next := AlignCode(codeStart + |m.code.bytes|, cfg.isa);
    var calls := RelativeCallsOf(m.patches, codeStart);
    if r.pending != [] && Wrap(next - r.pending[0].offset) > MaxPositive(cfg.isa) then
      var (needsThunk, rest) := ProcessPatches(cfg.isa, r.thunks, r.pending, known, next);
      if needsThunk then
        var location := AlignCode(r.offset, cfg.isa);
        Reservation(AlignCode(location + |cfg.thunkCode|, cfg.isa), r.thunks + [location], calls)
      else
        r.(pending := rest + calls)
    else
      r.(pending := r.pending + calls)
  }

  /** ReserveSpace after the last method. */
  function ReserveFinal(cfg: Config, r: Reservation, known: map<MethodRef, nat>): Reservation
  {
    var location := AlignCode(r.offset, cfg.isa);
    var (needsThunk, rest) := ProcessPatches(cfg.isa, r.thunks, r.pending, known, location);
    if needsThunk then
      Reservation(AlignCode(location + |cfg.thunkCode|, cfg.isa), r.thunks + [location], rest)
    else
      r.(pending := rest)
  }

  // ---------------------------------------------------------------- the init pass

  /** What the init pass decides for one method. */
  datatype Entry = Entry(codeOffset: nat, header: MethodHeader)

  datatype Layout = Layout(
    reserved: Reservation, dedupe: map<CodeKey, nat>, known: map<MethodRef, nat>,
    entries: seq<Entry>, absolute: seq<int>)

  function InitialLayout(offset: nat): Layout
  {
    Layout(Reservation(offset, [], []), map[], map[], [], [])
  }

  /** A map offset, stored so far relative to zero, made relative to the code; zero stays zero. */
  function RebaseMapOffset(field: word, codeStart: int): word
  {
    if field == 0 then 0 else Wrap(field + codeStart)
  }

  function CompleteHeader(h: MethodHeader, m: CompiledMethod, codeStart: int): MethodHeader
  {
    MethodHeader(RebaseMapOffset(h.mappingTableOffset, codeStart), RebaseMapOffset(h.vmapTableOffset, codeStart),
                 RebaseMapOffset(h.gcMapOffset, codeStart), m.frame, Wrap(|m.code.bytes|))
  }

  /** Where the absolute patches of code starting at `codeStart` sit in the executable section. */
  function AbsoluteLocations(patches: seq<LinkerPatch>, codeStart: int): seq<int>
  {
    if patches == [] then
      []
    else
      (if patches[0].kind.CallRelativePatch? then [] else [codeStart + patches[0].literalOffset])
      + AbsoluteLocations(patches[1..], codeStart)
  }

  predicate Shares(s: Layout, m: CompiledMethod)
  {
    KeyOf(m) in s.dedupe
  }

  /** The start of the method's own slot: after a thunk inserted for it, before its header. */
  function SlotOf(cfg: Config, s: Layout, m: CompiledMethod): nat
  {
    AlignCode(ReserveSpace(cfg, s.reserved, s.known, m).offset, cfg.isa)
  }

  function CodeOffsetOf(cfg: Config, s: Layout, m: CompiledMethod): nat
  {
    if Shares(s, m) then s.dedupe[KeyOf(m)] else SlotOf(cfg, s, m) + HEADER_SIZE + CodeDelta(cfg.isa)
  }

  /** InitCodeMethodVisitor::VisitMethod. */
  function VisitMethod(cfg: Config, s: Layout, item: Item): Layout
  {
    var m := item.m;
    var reserved := ReserveSpace(cfg, s.reserved, s.known, m);
    var slot := SlotOf(cfg, s, m);
    var codeOffset := CodeOffsetOf(cfg, s, m);
    var header := CompleteHeader(item.header, m, codeOffset - CodeDelta(cfg.isa));
    var end := slot + HEADER_SIZE + |m.code.bytes|;
    Layout(
      reserved.(offset := if Shares(s, m) then slot else end),
      if Shares(s, m) then s.dedupe else s.dedupe[KeyOf(m) := codeOffset],
      if m.ref in s.known then s.known else s.known[m.ref := codeOffset],
      s.entries + [Entry(codeOffset, header)],
      if Shares(s, m) then s.absolute
      else s.absolute + AbsoluteLocations(m.patches, slot + HEADER_SIZE - cfg.executableOffset))
  }

  /** The init pass over the remaining methods. */
  function VisitAll(cfg: Config, s: Layout, items: seq<Item>): Layout
    decreases |items|
  {
    if items == [] then s else VisitAll(cfg, VisitMethod(cfg, s, items[0]), items[1..])
  }

  /** EndClass of the last class: reserve the final thunk. */
  function EndInit(cfg: Config, s: Layout): Layout
  {
    s.(reserved := ReserveFinal(cfg, s.reserved, s.known))
  }

  function InitPass(cfg: Config, start: nat, items: seq<Item>): Layout
  {
    EndInit(cfg, VisitAll(cfg, InitialLayout(start), items))
  }
}
