/**
 From reach to arrival: the bytes in the written file at each call site branch to the call's target
 or to a thunk, and the one situation in which the patcher misses a thunk that is in reach.
 */
module CallsLand {
  import opened Words
  import opened RelativeCalls
  import opened CodeLayout
  import opened CodeWriting
  import opened CodeAgreement
  import opened CodePlacement
  import opened ThunkReach

  ghost predicate DisjointPatches(patches: seq<LinkerPatch>)
  {
    forall a, b :: 0 <= a < b < |patches| ==>
      || patches[a].literalOffset + 4 <= patches[b].literalOffset
      || patches[b].literalOffset + 4 <= patches[a].literalOffset
  }

  /** Bytes outside all patches are the compiler's. */
  lemma {:induction false} PatchCodeLeaves(isa: Isa, link: Link, n: nat, codeStart: nat, code: seq<byte>,
                                           patches: seq<LinkerPatch>, x: nat)
    requires n <= |link.thunks| && x < |code|
    requires forall p :: p in patches ==> p.literalOffset + 4 <= |code|
    requires forall p :: p in patches ==> !(p.literalOffset <= x < p.literalOffset + 4)
    ensures PatchCode(isa, link, n, codeStart, code, patches)[x] == code[x]
    decreases |patches|
  {
    hide ApplyPatch;
    if patches != [] {
      assert patches[0] in patches;
      PatchCodeLeaves(isa, link, n, codeStart, ApplyPatch(isa, link, n, codeStart, code, patches[0]), patches[1..], x);
    }
  }

  /** Later patches leave the first one's four bytes alone. */
  lemma FirstPatchHolds(isa: Isa, link: Link, n: nat, codeStart: nat, code: seq<byte>, patches: seq<LinkerPatch>,
                        written: seq<byte>)
    requires n <= |link.thunks| && patches != [] && DisjointPatches(patches)
    requires forall p :: p in patches ==> p.literalOffset + 4 <= |code|
    requires |written| == 4 && Holds(code, patches[0].literalOffset, written)
    ensures Holds(PatchCode(isa, link, n, codeStart, code, patches[1..]), patches[0].literalOffset, written)
  {
    hide PatchBytes, PatchCode;
    var at := patches[0].literalOffset;
    var r := PatchCode(isa, link, n, codeStart, code, patches[1..]);
    forall x | 0 <= x < 4
      ensures r[at + x] == written[x]
    {
      PatchCodeLeaves(isa, link, n, codeStart, code, patches[1..], at + x);
      assert code[at + x] == code[at..at + 4][x];
    }
    assert r[at..at + 4] == written;
  }

  /** With disjoint patches, a patch's four bytes are what that patch wrote. */
  lemma {:induction false} PatchCodeHolds(isa: Isa, link: Link, n: nat, codeStart: nat, code: seq<byte>,
                                          patches: seq<LinkerPatch>, a: nat)
    requires n <= |link.thunks| && a < |patches| && DisjointPatches(patches)
    requires forall p :: p in patches ==> p.literalOffset + 4 <= |code|
    requires PatchBytes(isa, link, n, codeStart, patches[a]).Some?
    ensures Holds(PatchCode(isa, link, n, codeStart, code, patches), patches[a].literalOffset,
                  PatchBytes(isa, link, n, codeStart, patches[a]).value)
    decreases |patches|
  {
    hide PatchBytes, PatchCode;
    var code' := ApplyPatch(isa, link, n, codeStart, code, patches[0]);
    PatchCodeFirst(isa, link, n, codeStart, code, patches);
    if a == 0 {
      FirstPatchHolds(isa, link, n, codeStart, code', patches, PatchBytes(isa, link, n, codeStart, patches[0]).value);
    } else {
      PatchCodeHolds(isa, link, n, codeStart, code', patches[1..], a - 1);
    }
  }

  lemma {:induction false} PatchCodeFirst(isa: Isa, link: Link, n: nat, codeStart: nat, code: seq<byte>,
      patches: seq<LinkerPatch>)
    requires n <= |link.thunks| && patches != []
    requires forall p :: p in patches ==> p.literalOffset + 4 <= |code|
    ensures PatchCode(isa, link, n, codeStart, code, patches) ==
            PatchCode(isa, link, n, codeStart, ApplyPatch(isa, link, n, codeStart, code, patches[0]), patches[1..])
  {
  }

  /** A recorded code offset: an instruction boundary inside the code laid out so far, with the Thumb bit. */
  ghost predicate CodeOffset(isa: Isa, v: nat, offset: nat)
  {
    CodeDelta(isa) < v < offset + CodeDelta(isa) && OnBoundary(isa, v - CodeDelta(isa))
  }

  ghost predicate DedupeRecorded(isa: Isa, s: Layout)
  {
    forall key :: key in s.dedupe ==> CodeOffset(isa, s.dedupe[key], s.reserved.offset)
  }

  ghost predicate KnownRecorded(isa: Isa, s: Layout)
  {
    forall ref :: ref in s.known ==> CodeOffset(isa, s.known[ref], s.reserved.offset)
  }

  ghost predicate ThunksRecorded(isa: Isa, s: Layout)
  {
    forall k :: 0 <= k < |s.reserved.thunks| ==>
      s.reserved.thunks[k] <= s.reserved.offset && Aligned(s.reserved.thunks[k], isa)
  }

  ghost predicate OffsetsRecorded(isa: Isa, s: Layout)
  {
    DedupeRecorded(isa, s) && KnownRecorded(isa, s) && ThunksRecorded(isa, s)
  }

  lemma AlignedOnBoundary(isa: Isa, offset: nat)
    requires Aligned(offset, isa)
    ensures OnBoundary(isa, offset) && OnBoundary(isa, offset + HEADER_SIZE)
  {
    var k := AlignedIsMultiple(offset, isa);
    FourTimes(isa, 2 * k);
    FourTimes(isa, 2 * k + 7);
    hide OnBoundary;
  }

  /** What the visit records for the method is a code offset behind the new end. */
  lemma NewOffsetRecorded(cfg: Config, s: Layout, item: Item)
    requires DedupeRecorded(cfg.isa, s) && ValidMethod(item.m)
    ensures CodeOffset(cfg.isa, CodeOffsetOf(cfg, s, item.m), VisitMethod(cfg, s, item).reserved.offset)
    ensures s.reserved.offset <= VisitMethod(cfg, s, item).reserved.offset
  {
    hide ReserveSpace, CompleteHeader, SlotOf, AlignCode, Aligned, OnBoundary, KeyOf, ThunkSpan, VisitMethod;
    StepPlaces(cfg, s, item);
    AlignedOnBoundary(cfg.isa, SlotOf(cfg, s, item.m));
  }

  lemma DedupeRecordedStep(cfg: Config, s: Layout, item: Item)
    requires DedupeRecorded(cfg.isa, s) && ValidMethod(item.m)
    ensures DedupeRecorded(cfg.isa, VisitMethod(cfg, s, item))
  {
    hide VisitMethod, CodeOffsetOf, OnBoundary, KeyOf;
    NewOffsetRecorded(cfg, s, item);
    VisitRecords(cfg, s, item);
  }

  lemma KnownRecordedStep(cfg: Config, s: Layout, item: Item)
    requires DedupeRecorded(cfg.isa, s) && KnownRecorded(cfg.isa, s) && ValidMethod(item.m)
    ensures KnownRecorded(cfg.isa, VisitMethod(cfg, s, item))
  {
    hide ReserveSpace, CompleteHeader, SlotOf, CodeOffsetOf, OnBoundary, KeyOf;
    NewOffsetRecorded(cfg, s, item);
    var known' := VisitMethod(cfg, s, item).known;
    assert known' == if item.m.ref in s.known then s.known else s.known[item.m.ref := CodeOffsetOf(cfg, s, item.m)];
  }

  lemma ThunksRecordedStep(cfg: Config, s: Layout, item: Item)
    requires ThunksRecorded(cfg.isa, s)
    ensures ThunksRecorded(cfg.isa, VisitMethod(cfg, s, item))
  {
    hide VisitMethod, SlotOf, AlignCode, Aligned, ThunkSpan;
    StepPlaces(cfg, s, item);
  }

  lemma OffsetsRecordedStep(cfg: Config, s: Layout, item: Item)
    requires OffsetsRecorded(cfg.isa, s) && ValidMethod(item.m)
    ensures OffsetsRecorded(cfg.isa, VisitMethod(cfg, s, item))
  {
    hide VisitMethod, DedupeRecorded, KnownRecorded, ThunksRecorded;
    DedupeRecordedStep(cfg, s, item);
    KnownRecordedStep(cfg, s, item);
    ThunksRecordedStep(cfg, s, item);
  }

  lemma {:induction false} ReachedOffsets(cfg: Config, start: nat, items: seq<Item>, i: nat)
    requires ValidItems(items) && i <= |items|
    ensures OffsetsRecorded(cfg.isa, Reached(cfg, start, items, i))
  {
    hide VisitMethod, CodeOffset, OnBoundary;
    if i == 0 {
      assert items[..0] == [];
    } else {
      ReachedOffsets(cfg, start, items, i - 1);
      ReachedNext(cfg, start, items, i - 1);
      hide Reached, OffsetsRecorded;
      OffsetsRecordedStep(cfg, Reached(cfg, start, items, i - 1), items[i - 1]);
    }
  }

  /** At the end: every known code offset and every thunk is an instruction boundary within the file. */
  lemma FinalOffsets(cfg: Config, start: nat, items: seq<Item>)
    requires ValidItems(items)
    ensures var layout := Final(cfg, start, items);
            && (forall ref :: ref in layout.known ==> CodeOffset(cfg.isa, layout.known[ref], layout.reserved.offset))
            && (forall k :: 0 <= k < |layout.reserved.thunks| ==>
                  && layout.reserved.thunks[k] <= layout.reserved.offset && Aligned(layout.reserved.thunks[k], cfg.isa)
                  && OnBoundary(cfg.isa, layout.reserved.thunks[k]))
  {
    var s := Reached(cfg, start, items, |items|);
    assert items[..|items|] == items;
    ReachedOffsets(cfg, start, items, |items|);
    FinalThunkAligned(cfg, s);
    hide VisitAll, ReserveFinal, AlignCode, Aligned, OnBoundary, Reached;
    forall k | 0 <= k < |EndInit(cfg, s).reserved.thunks|
      ensures OnBoundary(cfg.isa, EndInit(cfg, s).reserved.thunks[k])
    {
      AlignedOnBoundary(cfg.isa, EndInit(cfg, s).reserved.thunks[k]);
    }
  }

  lemma FinalThunkAligned(cfg: Config, s: Layout)
    requires ThunksRecorded(cfg.isa, s)
    ensures ThunksRecorded(cfg.isa, EndInit(cfg, s)) && s.reserved.offset <= EndInit(cfg, s).reserved.offset
  {
    hide ProcessPatches, AlignCode, Aligned;
  }

  /** The place of a relative call in the file. */
  function Place(cfg: Config, start: nat, items: seq<Item>, i: nat, p: LinkerPatch): nat
    requires i < |items|
  {
    SlotAt(cfg, start, items, i) + HEADER_SIZE + p.literalOffset
  }

  /** The four bytes at `place` branch to the target or to a thunk. */
  ghost predicate BranchLands(isa: Isa, bytes: seq<byte>, start: nat, place: nat, thunks: seq<nat>, target: int)
  {
    && start <= place && place - start + 4 <= |bytes|
    && var to := Execute(isa, bytes[place - start..place - start + 4], place);
    && to.Some? && (to.value == target || to.value in thunks)
  }

  /**
   The four bytes at `place` branch straight to the target whenever that is in range; otherwise to the
   next thunk if that is strictly closer than the positive limit; otherwise to the previous thunk.
   */
  ghost predicate BranchGoes(isa: Isa, bytes: seq<byte>, start: nat, place: nat, thunks: seq<nat>, target: int)
  {
    && start <= place && place - start + 4 <= |bytes|
    && var to := Execute(isa, bytes[place - start..place - start + 4], place);
    && (InRange(isa, place, target) ==> to == Some(target))
    && (!InRange(isa, place, target) ==>
          && (forall k :: NearestAfter(thunks, k, place) && thunks[k] - place < MaxPositive(isa) ==>
                to == Some(thunks[k]))
          && (forall k :: NearestBefore(thunks, k, place) && place - thunks[k] <= MaxNegative(isa)
                          && (k + 1 < |thunks| ==> MaxPositive(isa) <= thunks[k + 1] - place) ==>
                to == Some(thunks[k])))
  }

  /** What a patch of a method with its own code writes stands in the file at the patch's place. */
  lemma PatchInFile(cfg: Config, link: Link, start: nat, items: seq<Item>, i: nat, a: nat, bytes: seq<byte>,
                    out: Output)
    requires ValidItems(items) && i < |items| && a < |items[i].m.patches| && DisjointPatches(items[i].m.patches)
    requires WrittenAt(cfg, link, start, items, i, out)
    requires ThunksBefore(cfg, start, items, i) <= |link.thunks|
    requires PatchBytes(cfg.isa, link, ThunksBefore(cfg, start, items, i), SlotAt(cfg, start, items, i) + HEADER_SIZE,
                        items[i].m.patches[a]) == Some(bytes)
    ensures Holds(out.bytes, Place(cfg, start, items, i, items[i].m.patches[a]) - start, bytes)
  {
    hide PatchBytes, PatchCode, SlotAt, ThunksBefore, Final, HeaderBytes;
    var m, p := items[i].m, items[i].m.patches[a];
    var n, slot := ThunksBefore(cfg, start, items, i), SlotAt(cfg, start, items, i);
    var header := Final(cfg, start, items).entries[i].header;
    assert ValidMethod(m);
    PatchCodeHolds(cfg.isa, link, n, slot + HEADER_SIZE, m.code.bytes, m.patches, a);
    var code := PatchCode(cfg.isa, link, n, slot + HEADER_SIZE, m.code.bytes, m.patches);
    HoldsInSum(HeaderBytes(header), code, p.literalOffset, bytes);
    HoldsInside(out.bytes, slot - start, HeaderBytes(header) + code, HEADER_SIZE + p.literalOffset, bytes);
  }

  /** Aimed at an instruction boundary in range, the BL in the file goes there. */
  lemma WrittenBlExecutes(cfg: Config, link: Link, start: nat, items: seq<Item>, i: nat, a: nat, d: word, out: Output)
    requires ValidItems(items) && i < |items| && a < |items[i].m.patches| && DisjointPatches(items[i].m.patches)
    requires WrittenAt(cfg, link, start, items, i, out)
    requires ThunksBefore(cfg, start, items, i) <= |link.thunks|
    requires var p := items[i].m.patches[a];
             PatchBytes(cfg.isa, link, ThunksBefore(cfg, start, items, i),
                        SlotAt(cfg, start, items, i) + HEADER_SIZE, p)
             == Some(BlBytes(cfg.isa, d))
    requires OnBoundary(cfg.isa, d) && InRange(cfg.isa, 0, Signed(d))
    ensures var place := Place(cfg, start, items, i, items[i].m.patches[a]);
            && start <= place && place - start + 4 <= |out.bytes|
            && Execute(cfg.isa, out.bytes[place - start..place - start + 4], place) == Some(place + Signed(d))
  {
    hide PatchBytes, BlBytes, Execute, SlotAt, ThunksBefore, Final, OnBoundary, Signed, WrittenAt;
    PatchInFile(cfg, link, start, items, i, a, BlBytes(cfg.isa, d), out);
    BlExecutes(cfg.isa, d, Place(cfg, start, items, i, items[i].m.patches[a]));
  }

  /** The code a call is for: what was compiled, or the trampoline that stands in for it. */
  function CodeFor(link: Link, target: MethodRef): nat
  {
    if target in link.known then link.known[target] else link.trampoline(target)
  }

  /** What an absolute patch should hold once the image is loaded where the link says. */
  function LoadedAddress(link: Link, p: LinkerPatch): int
  {
    link.imageBegin
    + if p.kind.CallPatch? then link.oatDataOffset + CodeFor(link, p.target) else link.imageOffset(p)
  }

  /** The word in the file at an absolute patch is its target's address in the loaded image. */
  lemma AbsolutePatchAddresses(cfg: Config, link: Link, start: nat, items: seq<Item>, i: nat, a: nat)
    requires ValidItems(items) && i < |items| && !Deduplicated(items, i) && a < |items[i].m.patches|
    requires DisjointPatches(items[i].m.patches) && LinkMatches(cfg, link, start, items)
    requires !items[i].m.patches[a].kind.CallRelativePatch?
    ensures |Final(cfg, start, items).entries| == |items|
    ensures var out := WritePass(cfg, link, start, items, Final(cfg, start, items).entries);
            var at := Place(cfg, start, items, i, items[i].m.patches[a]) - start;
            && 0 <= at && at + 4 <= |out.bytes|
            && WordAt(out.bytes, at) == Wrap(LoadedAddress(link, items[i].m.patches[a]))
  {
    hide WritePass, Final, SlotAt, ThunksBefore, Deduplicated, LittleEndian, FromLittleEndian, Wrap;
    var p := items[i].m.patches[a];
    WrittenWhereRecorded(cfg, link, start, items, i);
    FinalOffsets(cfg, start, items);
    var out := WritePass(cfg, link, start, items, Final(cfg, start, items).entries);
    LittleEndianRoundTrip(AbsoluteAddress(link, p));
    PatchInFile(cfg, link, start, items, i, a, LittleEndian(AbsoluteAddress(link, p)), out);
  }

  ghost predicate LinkMatches(cfg: Config, link: Link, start: nat, items: seq<Item>)
  {
    link.thunks == Final(cfg, start, items).reserved.thunks && link.known == Final(cfg, start, items).known
  }

  /** Where a call stands among the thunks. */
  lemma CallAmongThunks(cfg: Config, start: nat, items: seq<Item>, i: nat, p: LinkerPatch)
    requires ValidItems(items) && i < |items| && !Deduplicated(items, i) && p in items[i].m.patches
    requires Final(cfg, start, items).reserved.offset < OFFSET_LIMIT
    ensures ThunksAround(Final(cfg, start, items).reserved.thunks, ThunksBefore(cfg, start, items, i),
                         Place(cfg, start, items, i, p))
  {
    hide SlotAt, Final, ThunksBefore, Deduplicated, CodeOffset;
    assert ValidMethod(items[i].m);
    ThunksAroundMethod(cfg, start, items, i);
    FinalOffsets(cfg, start, items);
  }

  lemma Difference2(a: int, b: int)
    requires a % 2 == 0 && b % 2 == 0
    ensures (a - b) % 2 == 0 && (a - b + 0x1_0000_0000) % 2 == 0
  {
  }

  lemma Difference4(a: int, b: int)
    requires a % 4 == 0 && b % 4 == 0
    ensures (a - b) % 4 == 0 && (a - b + 0x1_0000_0000) % 4 == 0
  {
  }

  /** A displacement between two instruction boundaries is one itself. */
  lemma DisplacementOnBoundary(isa: Isa, from: nat, to: nat)
    requires OnBoundary(isa, from) && OnBoundary(isa, to) && from < OFFSET_LIMIT && to < OFFSET_LIMIT
    ensures OnBoundary(isa, Wrap(to - from))
  {
    WrapDifference(to, from);
    hide Wrap;
    if isa.Thumb2? {
      Difference2(to, from);
    } else {
      Difference4(to, from);
    }
  }

  /** The Thumb bit is cleared before a target is used. */
  lemma TargetIsCodeStart(isa: Isa, v: nat, offset: nat)
    requires CodeOffset(isa, v, offset)
    ensures ClearLowBit(v) == v - CodeDelta(isa)
  {
    if isa.Thumb2? {
      var k := MultipleOf(v - 1, 2);
      LowBit(k);
    } else {
      var k := MultipleOf(v, 4);
      LowBit(2 * k);
    }
  }

  lemma LowBit(k: nat)
    ensures ClearLowBit(2 * k) == 2 * k == ClearLowBit(2 * k + 1)
  {
  }

  /** Trampolines are code, too: instruction boundaries, with the Thumb bit or without. */
  predicate TrampolineFits(isa: Isa, offset: nat)
  {
    offset < OFFSET_LIMIT && OnBoundary(isa, ClearLowBit(offset))
  }

  /** The offset a call is for, without the Thumb bit. */
  function CallTarget(isa: Isa, link: Link, target: MethodRef): int
  {
    if target in link.known then link.known[target] - CodeDelta(isa) else ClearLowBit(link.trampoline(target))
  }

  /** A relative call of a method with its own code. */
  ghost predicate IsCall(cfg: Config, link: Link, start: nat, items: seq<Item>, i: nat, a: nat)
  {
    && ValidItems(items) && i < |items| && !Deduplicated(items, i) && a < |items[i].m.patches|
    && DisjointPatches(items[i].m.patches)
    && LinkMatches(cfg, link, start, items) && Final(cfg, start, items).reserved.offset < OFFSET_LIMIT
    && var p := items[i].m.patches[a];
    && p.kind.CallRelativePatch? && OnBoundary(cfg.isa, p.literalOffset)
    && (p.target !in link.known ==> TrampolineFits(cfg.isa, link.trampoline(p.target)))
  }

  /** The displacement chosen for a call joins two instruction boundaries. */
  lemma ChosenOnBoundary(isa: Isa, thunks: seq<nat>, n: nat, at: nat, target: nat)
    requires n <= |thunks| && OnBoundary(isa, at) && OnBoundary(isa, target) && at < OFFSET_LIMIT &&
             target < OFFSET_LIMIT
    requires forall k :: 0 <= k < |thunks| ==> OnBoundary(isa, thunks[k]) && thunks[k] < OFFSET_LIMIT
    ensures var r := CalculateDisplacement(isa, thunks, n, at, target);
            r.Some? ==> OnBoundary(isa, r.value)
  {
    hide OnBoundary, Wrap;
    DisplacementOnBoundary(isa, at, target);
    if n < |thunks| {
      DisplacementOnBoundary(isa, at, thunks[n]);
    }
    if 0 < n {
      DisplacementOnBoundary(isa, at, thunks[n - 1]);
    }
  }

  lemma CallFacts(cfg: Config, link: Link, start: nat, items: seq<Item>, i: nat, a: nat)
    requires IsCall(cfg, link, start, items, i, a)
    ensures var p := items[i].m.patches[a];
            var place := Place(cfg, start, items, i, p);
            && ThunksAround(link.thunks, ThunksBefore(cfg, start, items, i), place)
            && 0 <= CallTarget(cfg.isa, link, p.target) < OFFSET_LIMIT
            && ClearLowBit(TargetOffset(link, p)) == CallTarget(cfg.isa, link, p.target)
            && OnBoundary(cfg.isa, place) && OnBoundary(cfg.isa, CallTarget(cfg.isa, link, p.target))
            && (forall k :: 0 <= k < |link.thunks| ==>
                  OnBoundary(cfg.isa, link.thunks[k]) && link.thunks[k] < OFFSET_LIMIT)
            && place < OFFSET_LIMIT
  {
    hide Final, ThunksBefore, Deduplicated, DisjointPatches, SlotOf, ClearLowBit, Reached;
    var p := items[i].m.patches[a];
    assert ValidMethod(items[i].m) && p in items[i].m.patches;
    CallAmongThunks(cfg, start, items, i, p);
    FinalOffsets(cfg, start, items);
    if p.target in link.known {
      TargetIsCodeStart(cfg.isa, link.known[p.target], Final(cfg, start, items).reserved.offset);
    } else {
      ClearedIsSmaller(link.trampoline(p.target));
    }
    SlotOnBoundary(cfg, start, items, i);
    BoundarySum(cfg.isa, SlotAt(cfg, start, items, i) + HEADER_SIZE, p.literalOffset);
    SlotWithinFinal(cfg, start, items, i);
  }

  lemma ClearedIsSmaller(offset: nat)
    ensures 0 <= ClearLowBit(offset) <= offset
  {
  }

  lemma SlotOnBoundary(cfg: Config, start: nat, items: seq<Item>, i: nat)
    requires i < |items|
    ensures OnBoundary(cfg.isa, SlotAt(cfg, start, items, i) + HEADER_SIZE)
  {
    hide OnBoundary, Aligned, AlignCode, ReserveSpace;
    StepPlaces(cfg, Reached(cfg, start, items, i), items[i]);
    AlignedOnBoundary(cfg.isa, SlotAt(cfg, start, items, i));
  }

  lemma SlotWithinFinal(cfg: Config, start: nat, items: seq<Item>, i: nat)
    requires i < |items| && !Deduplicated(items, i)
    ensures SlotAt(cfg, start, items, i) + HEADER_SIZE + |items[i].m.code.bytes| <=
            Final(cfg, start, items).reserved.offset
  {
    hide Final, Deduplicated, VisitMethod, SlotOf, Reached;
    StepPlaces(cfg, Reached(cfg, start, items, i), items[i]);
    ReachedNext(cfg, start, items, i);
    SharesExactly(cfg, start, items, i);
    ReachedWithinFinal(cfg, start, items, i + 1);
  }

  /** What the patcher can use for a call: its condition for a following thunk is strict. */
  ghost predicate PatcherReaches(cfg: Config, link: Link, start: nat, items: seq<Item>, i: nat, a: nat)
    requires IsCall(cfg, link, start, items, i, a)
  {
    var p := items[i].m.patches[a];
    var place := Place(cfg, start, items, i, p);
    var n := ThunksBefore(cfg, start, items, i);
    || InRange(cfg.isa, place, CallTarget(cfg.isa, link, p.target))
    || (n < |link.thunks| && link.thunks[n] - place < MaxPositive(cfg.isa))
    || (0 < n <= |link.thunks| && place - link.thunks[n - 1] <= MaxNegative(cfg.isa))
  }

  lemma PlaceInFile(cfg: Config, link: Link, start: nat, items: seq<Item>, i: nat, p: LinkerPatch, out: Output)
    requires ValidItems(items) && i < |items| && p in items[i].m.patches
    requires WrittenAt(cfg, link, start, items, i, out)
    ensures var place := Place(cfg, start, items, i, p);
            start <= place && place - start + 4 <= |out.bytes|
  {
    hide MethodBytes, SlotAt, ThunksBefore, Final;
    assert ValidMethod(items[i].m);
  }

  /** A displacement chosen for a call, in range, is where the bytes in the file branch to. */
  lemma WrittenCallExecutes(cfg: Config, link: Link, start: nat, items: seq<Item>, i: nat, a: nat, to: int,
                            out: Output)
    requires IsCall(cfg, link, start, items, i, a) && WrittenAt(cfg, link, start, items, i, out)
    requires ThunksBefore(cfg, start, items, i) <= |link.thunks|
    requires var p := items[i].m.patches[a];
             var place := Place(cfg, start, items, i, p);
             var target := CallTarget(cfg.isa, link, p.target);
             && target >= 0 && InRange(cfg.isa, place, to)
             && var r := CalculateDisplacement(cfg.isa, link.thunks, ThunksBefore(cfg, start, items, i), place, target);
                r.Some? && Signed(r.value) == to - place
    ensures var place := Place(cfg, start, items, i, items[i].m.patches[a]);
            && start <= place && place - start + 4 <= |out.bytes|
            && Execute(cfg.isa, out.bytes[place - start..place - start + 4], place) == Some(to)
  {
    hide Final, ThunksBefore, Deduplicated, SlotAt, CalculateDisplacement, OnBoundary, Execute, ThunksAround, BlBytes,
      Signed, WrittenAt, DisjointPatches;
    var isa, p := cfg.isa, items[i].m.patches[a];
    var n, place := ThunksBefore(cfg, start, items, i), Place(cfg, start, items, i, p);
    var target := CallTarget(isa, link, p.target);
    CallFacts(cfg, link, start, items, i, a);
    ChosenOnBoundary(isa, link.thunks, n, place, target);
    var r := CalculateDisplacement(isa, link.thunks, n, place, target);
    WrittenBlExecutes(cfg, link, start, items, i, a, r.value, out);
  }

  /** Every call, as it stands in the file, goes where it should. */
  lemma CallGoes(cfg: Config, link: Link, start: nat, items: seq<Item>, i: nat, a: nat)
    requires IsCall(cfg, link, start, items, i, a)
    ensures |Final(cfg, start, items).entries| == |items|
    ensures var p := items[i].m.patches[a];
            BranchGoes(cfg.isa, WritePass(cfg, link, start, items, Final(cfg, start, items).entries).bytes, start,
                       Place(cfg, start, items, i, p), link.thunks, CallTarget(cfg.isa, link, p.target))
  {
    hide Final, ThunksBefore, Deduplicated, SlotAt, WritePass, CalculateDisplacement, OnBoundary, Execute,
      ThunksAround, WrittenAt, Signed, Place, CallTarget, ValidMethod, DisjointPatches, MaxPositive, MaxNegative;
    var isa, p := cfg.isa, items[i].m.patches[a];
    var n, place := ThunksBefore(cfg, start, items, i), Place(cfg, start, items, i, p);
    var target := CallTarget(isa, link, p.target);
    CallFacts(cfg, link, start, items, i, a);
    assert n <= |link.thunks| by { AroundCounts(link.thunks, n, place); }
    WrittenWhereRecorded(cfg, link, start, items, i);
    var out := WritePass(cfg, link, start, items, Final(cfg, start, items).entries);
    PlaceInFile(cfg, link, start, items, i, p, out);
    DisplacementGoes(isa, link.thunks, n, place, target);
    NearestAreNeighbours(link.thunks, n, place);
    AroundInRange(isa, link.thunks, n, place);
    if InRange(isa, place, target) {
      WrittenCallExecutes(cfg, link, start, items, i, a, target, out);
    } else if n < |link.thunks| && link.thunks[n] - place < MaxPositive(isa) {
      WrittenCallExecutes(cfg, link, start, items, i, a, link.thunks[n], out);
    } else if 0 < n && place - link.thunks[n - 1] <= MaxNegative(isa) {
      WrittenCallExecutes(cfg, link, start, items, i, a, link.thunks[n - 1], out);
    }
  }

  lemma AroundInRange(isa: Isa, thunks: seq<nat>, n: nat, at: nat)
    requires ThunksAround(thunks, n, at)
    ensures n < |thunks| && thunks[n] - at < MaxPositive(isa) ==> InRange(isa, at, thunks[n])
    ensures 0 < n && at - thunks[n - 1] <= MaxNegative(isa) ==> InRange(isa, at, thunks[n - 1])
  {
  }

  /** Patched call lands: the bytes in the file branch to the call's target or to a thunk, as `BranchGoes` says. */
  lemma CallLands(cfg: Config, link: Link, start: nat, items: seq<Item>, i: nat, a: nat)
    requires IsCall(cfg, link, start, items, i, a) && PatcherReaches(cfg, link, start, items, i, a)
    ensures |Final(cfg, start, items).entries| == |items|
    ensures var p := items[i].m.patches[a];
            var bytes := WritePass(cfg, link, start, items, Final(cfg, start, items).entries).bytes;
            var place, target := Place(cfg, start, items, i, p), CallTarget(cfg.isa, link, p.target);
            && BranchLands(cfg.isa, bytes, start, place, link.thunks, target)
            && BranchGoes(cfg.isa, bytes, start, place, link.thunks, target)
  {
    hide Final, ThunksBefore, Deduplicated, SlotAt, WritePass, OnBoundary, Execute, Place, CallTarget, DisjointPatches,
      MaxPositive, MaxNegative;
    var place := Place(cfg, start, items, i, items[i].m.patches[a]);
    CallFacts(cfg, link, start, items, i, a);
    CallGoes(cfg, link, start, items, i, a);
    NeighboursAreNearest(link.thunks, ThunksBefore(cfg, start, items, i), place);
  }

  lemma NeighboursAreNearest(thunks: seq<nat>, n: nat, at: nat)
    requires ThunksAround(thunks, n, at)
    ensures 0 < n ==> NearestBefore(thunks, n - 1, at)
    ensures n < |thunks| ==> NearestAfter(thunks, n, at)
  {
  }

  lemma AroundCounts(thunks: seq<nat>, n: nat, at: nat)
    requires ThunksAround(thunks, n, at)
    ensures n <= |thunks|
  {
  }

  /** Every call in reach lands, except one whose following thunk is exactly the positive limit away. */
  lemma EveryCallLands(cfg: Config, link: Link, start: nat, items: seq<Item>, i: nat, a: nat)
    requires ReachInput(cfg, start, items) && IsCall(cfg, link, start, items, i, a)
    ensures |Final(cfg, start, items).entries| == |items|
    ensures var p := items[i].m.patches[a];
            var place := Place(cfg, start, items, i, p);
            var n := ThunksBefore(cfg, start, items, i);
            || BranchLands(cfg.isa, WritePass(cfg, link, start, items, Final(cfg, start, items).entries).bytes, start,
                           place, link.thunks, CallTarget(cfg.isa, link, p.target))
            || (n < |link.thunks| && link.thunks[n] - place == MaxPositive(cfg.isa))
  {
    hide Final, ThunksBefore, Deduplicated, SlotAt, WritePass, OnBoundary, ReachInput, BranchLands, PatcherReaches;
    EntryOf(cfg, start, items, i);
    if PatcherReaches(cfg, link, start, items, i, a) {
      CallLands(cfg, link, start, items, i, a);
    } else {
      OnlyTheLimitIsMissed(cfg, link, start, items, i, a);
    }
  }

  /** Calls at these places in a method cannot be the positive limit away from a thunk. */
  predicate OffTheLimit(isa: Isa, literalOffset: nat)
  {
    if isa.Thumb2? then literalOffset % 8 != 2 else literalOffset % 16 != 8
  }

  /** Slots and thunks are aligned, so what is between them decides. */
  lemma LimitResidue(isa: Isa, thunk: nat, slot: nat, literalOffset: nat)
    requires Aligned(thunk, isa) && Aligned(slot, isa)
    requires thunk - (slot + HEADER_SIZE + literalOffset) == MaxPositive(isa)
    ensures !OffTheLimit(isa, literalOffset)
  {
    if isa.Thumb2? {
      var k := MultipleOf(thunk, 8);
      var l := MultipleOf(slot, 8);
      assert literalOffset == 8 * (k - l - 2097156) + 2;
    } else {
      var k := MultipleOf(thunk, 16);
      var l := MultipleOf(slot, 16);
      assert literalOffset == 16 * (k - l - 8388610) + 8;
    }
  }

  /** Every call whose place in its method can be off the limit lands, without exception. */
  lemma CallsOffTheLimitLand(cfg: Config, link: Link, start: nat, items: seq<Item>, i: nat, a: nat)
    requires ReachInput(cfg, start, items) && IsCall(cfg, link, start, items, i, a)
    requires OffTheLimit(cfg.isa, items[i].m.patches[a].literalOffset)
    ensures |Final(cfg, start, items).entries| == |items|
    ensures var p := items[i].m.patches[a];
            BranchLands(cfg.isa, WritePass(cfg, link, start, items, Final(cfg, start, items).entries).bytes, start,
                        Place(cfg, start, items, i, p), link.thunks, CallTarget(cfg.isa, link, p.target))
  {
    hide Final, ThunksBefore, Deduplicated, WritePass, OnBoundary, ReachInput, BranchLands, Aligned, SlotOf, Reached,
      OffTheLimit;
    EveryCallLands(cfg, link, start, items, i, a);
    FinalOffsets(cfg, start, items);
    StepPlaces(cfg, Reached(cfg, start, items, i), items[i]);
    var n, lit := ThunksBefore(cfg, start, items, i), items[i].m.patches[a].literalOffset;
    if n < |link.thunks| &&
       link.thunks[n] - Place(cfg, start, items, i, items[i].m.patches[a]) == MaxPositive(cfg.isa) {
      LimitResidue(cfg.isa, link.thunks[n], SlotAt(cfg, start, items, i), lit);
    }
  }

  /** A call in reach that the patcher cannot serve has its next thunk exactly the positive limit away. */
  lemma OnlyTheLimitIsMissed(cfg: Config, link: Link, start: nat, items: seq<Item>, i: nat, a: nat)
    requires ReachInput(cfg, start, items) && IsCall(cfg, link, start, items, i, a)
    requires !PatcherReaches(cfg, link, start, items, i, a)
    ensures var n := ThunksBefore(cfg, start, items, i);
            n < |link.thunks| &&
            link.thunks[n] - Place(cfg, start, items, i, items[i].m.patches[a]) == MaxPositive(cfg.isa)
  {
    hide Final, ThunksBefore, Deduplicated, SlotAt, OnBoundary, ReachInput, ThunksAround, ClearLowBit, TargetOffset,
      DisjointPatches, Place, MaxPositive, MaxNegative;
    var p := items[i].m.patches[a];
    var n, place := ThunksBefore(cfg, start, items, i), Place(cfg, start, items, i, p);
    CallFacts(cfg, link, start, items, i, a);
    assert place == SlotAt(cfg, start, items, i) + HEADER_SIZE + p.literalOffset by {
      PlaceUnfolds(cfg, start, items, i, p);
    }
    EveryCallReaches(cfg, start, items, i, p);
    NearestAreNeighbours(link.thunks, n, place);
  }

  lemma PlaceUnfolds(cfg: Config, start: nat, items: seq<Item>, i: nat, p: LinkerPatch)
    requires i < |items|
    ensures Place(cfg, start, items, i, p) == SlotAt(cfg, start, items, i) + HEADER_SIZE + p.literalOffset
  {
  }

  lemma NearestAreNeighbours(thunks: seq<nat>, n: nat, at: nat)
    requires ThunksAround(thunks, n, at)
    ensures forall k :: NearestBefore(thunks, k, at) ==> k == n - 1
    ensures forall k :: NearestAfter(thunks, k, at) ==> k == n
  {
  }
}
