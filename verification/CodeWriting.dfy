/**
 The pass that writes thunks, headers and patched code, and the proof that it puts everything
 exactly where the init pass said it would, although it may write a thunk early.
 */
module CodeWriting {
  import opened Words
  import opened RelativeCalls
  import opened CodeLayout

  // ---------------------------------------------------------------- patching

  /** What patching needs besides the layout: trampolines, and where the image will be loaded. */
  datatype Link = Link(
    thunks: seq<nat>, known: map<MethodRef, nat>, trampoline: MethodRef -> nat,
    imageBegin: int, oatDataOffset: nat, imageOffset: LinkerPatch -> nat)

  /** GetTargetOffset: the compiled code, or the right trampoline if there is none. */
  function TargetOffset(link: Link, p: LinkerPatch): nat
  {
    if p.target in link.known && link.known[p.target] != 0 then link.known[p.target] else link.trampoline(p.target)
  }

  /** The address an absolute patch stores. */
  function AbsoluteAddress(link: Link, p: LinkerPatch): word
  {
    Wrap(link.imageBegin + (if p.kind.CallPatch? then link.oatDataOffset + TargetOffset(link, p)
                            else link.imageOffset(p)))
  }

  /** target_offset & ~1 */
  function ClearLowBit(offset: nat): nat
  {
    offset - offset % 2
  }

  /** The four bytes a patch writes, unless no displacement can be computed. */
  function PatchBytes(isa: Isa, link: Link, nextThunk: nat, codeStart: nat, p: LinkerPatch): (s: Option<seq<byte>>)
    requires nextThunk <= |link.thunks|
    ensures s.Some? ==> |s.value| == 4
  {
    if p.kind.CallRelativePatch? then
      match CalculateDisplacement(isa, link.thunks, nextThunk, codeStart + p.literalOffset,
                                  ClearLowBit(TargetOffset(link, p)))
      case Some(displacement) => Some(BlBytes(isa, displacement))
      case None => None
    else
      Some(LittleEndian(AbsoluteAddress(link, p)))
  }

  function ApplyPatch(isa: Isa, link: Link, nextThunk: nat, codeStart: nat, code: seq<byte>,
                      p: LinkerPatch): (r: seq<byte>)
    requires nextThunk <= |link.thunks| && p.literalOffset + 4 <= |code|
    ensures |r| == |code|
    ensures forall x :: 0 <= x < |code| && !(p.literalOffset <= x < p.literalOffset + 4) ==> r[x] == code[x]
  {
    match PatchBytes(isa, link, nextThunk, codeStart, p)
    case Some(bytes) => Overwrite(code, p.literalOffset, bytes)
    case None => code
  }

  function PatchCode(isa: Isa, link: Link, nextThunk: nat, codeStart: nat, code: seq<byte>, patches: seq<LinkerPatch>)
    : (r: seq<byte>)
    requires nextThunk <= |link.thunks|
    requires forall p :: p in patches ==> p.literalOffset + 4 <= |code|
    ensures |r| == |code|
    decreases |patches|
  {
    if patches == [] then
      code
    else
      PatchCode(isa, link, nextThunk, codeStart, ApplyPatch(isa, link, nextThunk, codeStart, code, patches[0]),
                patches[1..])
  }

  // ---------------------------------------------------------------- the write pass

  datatype Output = Output(offset: nat, nextThunk: nat, bytes: seq<byte>)

  function Zeros(n: nat): (s: seq<byte>)
    ensures |s| == n
  {
    seq(n, _ => 0)
  }

  /** A thunk and the padding that follows it. */
  function ThunkChunk(cfg: Config): (s: seq<byte>)
    ensures |s| == ThunkSpan(cfg)
  {
    cfg.thunkCode + Zeros(ThunkSpan(cfg) - |cfg.thunkCode|)
  }

  /** WriteThunks: at most one thunk, and only if its place is the next aligned offset. */
  function WriteThunks(cfg: Config, thunks: seq<nat>, w: Output): (r: Output)
    requires w.nextThunk <= |thunks|
    ensures r.nextThunk <= |thunks|
  {
    var aligned := AlignCode(w.offset, cfg.isa);
    if w.nextThunk < |thunks| && aligned == thunks[w.nextThunk] then
      var end := aligned + |cfg.thunkCode|;
      var offset := AlignCode(end, cfg.isa);
      Output(offset, w.nextThunk + 1,
             w.bytes + Zeros(aligned - w.offset) + cfg.thunkCode + Zeros(offset - end))
    else
      w
  }

  /** WriteThunks, then padding up to where code may start. */
  function WriteThunksAndAlign(cfg: Config, thunks: seq<nat>, w: Output): (r: Output)
    requires w.nextThunk <= |thunks|
    ensures r.nextThunk <= |thunks|
  {
    var w1 := WriteThunks(cfg, thunks, w);
    var slot := AlignCode(w1.offset, cfg.isa);
    Output(slot, w1.nextThunk, w1.bytes + Zeros(slot - w1.offset))
  }

  function MethodBytes(cfg: Config, link: Link, nextThunk: nat, slot: nat, m: CompiledMethod, header: MethodHeader)
    : (s: seq<byte>)
    requires ValidMethod(m) && nextThunk <= |link.thunks|
    ensures |s| == HEADER_SIZE + |m.code.bytes|
  {
    HeaderBytes(header) + PatchCode(cfg.isa, link, nextThunk, slot + HEADER_SIZE, m.code.bytes, m.patches)
  }

  /** WriteCodeMethodVisitor::VisitMethod: code whose recorded offset lies behind is skipped. */
  function WriteMethod(cfg: Config, link: Link, w: Output, m: CompiledMethod, entry: Entry): (r: Output)
    requires ValidMethod(m) && w.nextThunk <= |link.thunks|
    ensures r.nextThunk <= |link.thunks|
  {
    var w1 := WriteThunksAndAlign(cfg, link.thunks, w);
    if entry.codeOffset >= w1.offset then
      Output(w1.offset + HEADER_SIZE + |m.code.bytes|, w1.nextThunk,
             w1.bytes + MethodBytes(cfg, link, w1.nextThunk, w1.offset, m, entry.header))
    else
      w1
  }

  function WriteAll(cfg: Config, link: Link, w: Output, items: seq<Item>, entries: seq<Entry>): (r: Output)
    requires ValidItems(items) && |items| == |entries| && w.nextThunk <= |link.thunks|
    ensures r.nextThunk <= |link.thunks|
    decreases |items|
  {
    if items == [] then w
    else WriteAll(cfg, link, WriteMethod(cfg, link, w, items[0].m, entries[0]), items[1..], entries[1..])
  }

  function WritePass(cfg: Config, link: Link, start: nat, items: seq<Item>, entries: seq<Entry>): (r: Output)
    requires ValidItems(items) && |items| == |entries|
  {
    WriteThunks(cfg, link.thunks, WriteAll(cfg, link, Output(start, 0, []), items, entries))
  }

  // ---------------------------------------------------------------- the planned image

  /** What the init pass accounts for before the body of a method. */
  function PlannedLead(cfg: Config, offset: nat, inserted: bool): (s: seq<byte>)
  {
    Zeros(AlignCode(offset, cfg.isa) - offset) + (if inserted then ThunkChunk(cfg) else [])
  }

  /** Visiting the method reserved a thunk in front of it. */
  predicate Inserts(cfg: Config, s: Layout, item: Item)
  {
    |s.reserved.thunks| < |VisitMethod(cfg, s, item).reserved.thunks|
  }

  /** The bytes the init pass accounts for when it visits a method. */
  function PlannedStep(cfg: Config, link: Link, s: Layout, item: Item): seq<byte>
    requires ValidMethod(item.m) && |VisitMethod(cfg, s, item).reserved.thunks| <= |link.thunks|
  {
    var s' := VisitMethod(cfg, s, item);
    PlannedLead(cfg, s.reserved.offset, Inserts(cfg, s, item))
    + (if Shares(s, item.m) then []
       else MethodBytes(cfg, link, |s'.reserved.thunks|, SlotOf(cfg, s, item.m), item.m,
                        s'.entries[|s.entries|].header))
  }

  function PlannedEnd(cfg: Config, s: Layout): seq<byte>
  {
    if |s.reserved.thunks| < |EndInit(cfg, s).reserved.thunks| then PlannedLead(cfg, s.reserved.offset, true) else []
  }

  /** The final thunk list extends the one at any earlier point. */
  lemma {:induction false} ThunksGrow(cfg: Config, s: Layout, items: seq<Item>)
    ensures s.reserved.thunks <= VisitAll(cfg, s, items).reserved.thunks
                              <= EndInit(cfg, VisitAll(cfg, s, items)).reserved.thunks
    decreases |items|
  {
    if items != [] {
      ThunksGrow(cfg, VisitMethod(cfg, s, items[0]), items[1..]);
    }
  }

  /** The code image the init pass has in mind for the remaining methods. */
  function Planned(cfg: Config, link: Link, s: Layout, items: seq<Item>): seq<byte>
    requires ValidItems(items)
    requires link.thunks == EndInit(cfg, VisitAll(cfg, s, items)).reserved.thunks
    decreases |items|
  {
    if items == [] then
      PlannedEnd(cfg, s)
    else
      var s' := VisitMethod(cfg, s, items[0]);
      ThunksGrow(cfg, s', items[1..]);
      PlannedStep(cfg, link, s, items[0]) + Planned(cfg, link, s', items[1..])
  }
}
