/**
 What the file holds for each method at the code offset recorded for it, also where the code there
 was written for another one: its own code with its own patches filled in, behind a header.
 */
module MethodCode {
  import opened Words
  import opened RelativeCalls
  import opened CodeLayout
  import opened CodeWriting
  import opened CodeAgreement
  import opened CodePlacement
  import opened ThunkReach
  import opened CallsLand

  /** Where the method's code starts, without the Thumb bit. */
  function CodeStart(cfg: Config, start: nat, items: seq<Item>, i: nat): int
    requires i < |items|
  {
    EntryOf(cfg, start, items, i);
    Final(cfg, start, items).entries[i].codeOffset - CodeDelta(cfg.isa)
  }

  /** The methods have the same code, maps and patches. */
  predicate SameCode(a: CompiledMethod, b: CompiledMethod)
  {
    && a.code == b.code && a.mappingTable == b.mappingTable && a.vmapTable == b.vmapTable && a.gcMap == b.gcMap
    && a.patches == b.patches
  }

  lemma KeyIsCode(a: CompiledMethod, b: CompiledMethod)
    ensures KeyOf(a) == KeyOf(b) <==> SameCode(a, b)
  {
  }

  // ---------------------------------------------------------------- which methods share

  /** The first method with the same code. */
  lemma {:induction false} FirstOf(cfg: Config, start: nat, items: seq<Item>, i: nat) returns (j: nat)
    requires i < |items|
    ensures j <= i && !Deduplicated(items, j) && SameCode(items[j].m, items[i].m)
    ensures CodeStart(cfg, start, items, j) == CodeStart(cfg, start, items, i)
  {
    hide KeyOf, Final;
    if Deduplicated(items, i) {
      var k :| 0 <= k < i && KeyOf(items[k].m) == KeyOf(items[i].m);
      KeyIsCode(items[k].m, items[i].m);
      SharedOffset(cfg, start, items, k, i);
      j := FirstOf(cfg, start, items, k);
    } else {
      j := i;
    }
  }

  lemma {:induction false} ReachedGrows(cfg: Config, start: nat, items: seq<Item>, j: nat, i: nat)
    requires j <= i <= |items|
    ensures Reached(cfg, start, items, j).reserved.offset <= Reached(cfg, start, items, i).reserved.offset
  {
    hide VisitMethod, Reached, SlotOf, AlignCode;
    if j < i {
      ReachedGrows(cfg, start, items, j, i - 1);
      ReachedNext(cfg, start, items, i - 1);
      StepPlaces(cfg, Reached(cfg, start, items, i - 1), items[i - 1]);
    }
  }

  lemma OwnCodeStart(cfg: Config, start: nat, items: seq<Item>, i: nat)
    requires i < |items| && !Deduplicated(items, i)
    ensures CodeStart(cfg, start, items, i) == SlotAt(cfg, start, items, i) + HEADER_SIZE
  {
    hide Final, Reached, KeyOf, Deduplicated, SlotOf, VisitMethod;
    EntryOf(cfg, start, items, i);
    VisitRecords(cfg, Reached(cfg, start, items, i), items[i]);
    SharesExactly(cfg, start, items, i);
  }

  /** Code that was written for different methods starts at different places. */
  lemma OwnCodeApart(cfg: Config, start: nat, items: seq<Item>, j: nat, i: nat)
    requires j < i < |items| && !Deduplicated(items, j) && !Deduplicated(items, i)
    ensures CodeStart(cfg, start, items, j) + |items[j].m.code.bytes| < CodeStart(cfg, start, items, i)
  {
    hide Final, Reached, KeyOf, Deduplicated, SlotOf, VisitMethod, AlignCode, CodeStart;
    OwnCodeStart(cfg, start, items, j);
    OwnCodeStart(cfg, start, items, i);
    SharesExactly(cfg, start, items, j);
    StepPlaces(cfg, Reached(cfg, start, items, j), items[j]);
    ReachedNext(cfg, start, items, j);
    ReachedGrows(cfg, start, items, j + 1, i);
    StepPlaces(cfg, Reached(cfg, start, items, i), items[i]);
  }

  lemma NewCodeDiffers(items: seq<Item>, j: nat, i: nat)
    requires j < i < |items| && SameCode(items[j].m, items[i].m)
    ensures Deduplicated(items, i)
  {
    hide KeyOf;
    KeyIsCode(items[j].m, items[i].m);
  }

  /** Two methods have one code offset exactly when code, maps and patches are the same. */
  lemma OneOffsetExactlyWhenSame(cfg: Config, start: nat, items: seq<Item>, a: nat, b: nat)
    requires a < |items| && b < |items|
    ensures CodeStart(cfg, start, items, a) == CodeStart(cfg, start, items, b) <==> SameCode(items[a].m, items[b].m)
  {
    hide CodeStart, Deduplicated;
    var j := FirstOf(cfg, start, items, a);
    var k := FirstOf(cfg, start, items, b);
    if j < k {
      OwnCodeApart(cfg, start, items, j, k);
      if SameCode(items[a].m, items[b].m) { NewCodeDiffers(items, j, k); }
    } else if k < j {
      OwnCodeApart(cfg, start, items, k, j);
      if SameCode(items[a].m, items[b].m) { NewCodeDiffers(items, k, j); }
    }
  }

  // ---------------------------------------------------------------- the code

  /** What was written for a method with its own code. */
  lemma OwnWritten(cfg: Config, link: Link, start: nat, items: seq<Item>, i: nat, out: Output)
    requires ValidItems(items) && i < |items| && !Deduplicated(items, i) && LinkMatches(cfg, link, start, items)
    requires |Final(cfg, start, items).entries| == |items|
    requires out == WritePass(cfg, link, start, items, Final(cfg, start, items).entries)
    ensures WrittenAt(cfg, link, start, items, i, out)
  {
    hide Final, WritePass, WrittenAt, Deduplicated;
    WrittenWhereRecorded(cfg, link, start, items, i);
  }

  /** The byte of the code is none that a patch fills in. */
  predicate Unpatched(m: CompiledMethod, x: nat)
  {
    forall p :: p in m.patches ==> !(p.literalOffset <= x < p.literalOffset + 4)
  }

  /** In the file at the method's code offset: bytes of its code that no patch touches. */
  lemma UnpatchedBytes(cfg: Config, link: Link, start: nat, items: seq<Item>, i: nat, x: nat, out: Output)
    requires ValidItems(items) && i < |items| && LinkMatches(cfg, link, start, items)
    requires |Final(cfg, start, items).entries| == |items|
    requires out == WritePass(cfg, link, start, items, Final(cfg, start, items).entries)
    requires x < |items[i].m.code.bytes| && Unpatched(items[i].m, x)
    ensures var at := CodeStart(cfg, start, items, i) - start;
            && HEADER_SIZE <= at && at + |items[i].m.code.bytes| <= |out.bytes|
            && out.bytes[at + x] == items[i].m.code.bytes[x]
  {
    hide Final, WritePass, Deduplicated, SlotAt, ThunksBefore, PatchCode, CodeStart;
    var j := FirstOf(cfg, start, items, i);
    OwnWritten(cfg, link, start, items, j, out);
    OwnCodeStart(cfg, start, items, j);
    var m, n, slot := items[j].m, ThunksBefore(cfg, start, items, j), SlotAt(cfg, start, items, j);
    assert ValidMethod(m);
    var header := HeaderBytes(Final(cfg, start, items).entries[j].header);
    var code := PatchCode(cfg.isa, link, n, slot + HEADER_SIZE, m.code.bytes, m.patches);
    PatchCodeLeaves(cfg.isa, link, n, slot + HEADER_SIZE, m.code.bytes, m.patches, x);
    SumHeld(out.bytes, slot - start, header, code);
    assert code[x] == out.bytes[slot - start + HEADER_SIZE..slot - start + HEADER_SIZE + |code|][x];
  }

  lemma SumHeld(bytes: seq<byte>, at: int, left: seq<byte>, right: seq<byte>)
    requires Holds(bytes, at, left + right)
    ensures 0 <= at && Holds(bytes, at, left) && Holds(bytes, at + |left|, right)
  {
    assert (left + right)[..|left|] == left && (left + right)[|left|..] == right;
    assert bytes[at..at + |left|] == bytes[at..at + |left + right|][..|left|];
    assert bytes[at + |left|..at + |left + right|] == bytes[at..at + |left + right|][|left|..];
  }

  /** In the file at the method's code offset: the addresses its own absolute patches ask for. */
  lemma AbsoluteWords(cfg: Config, link: Link, start: nat, items: seq<Item>, i: nat, a: nat, out: Output)
    requires ValidItems(items) && i < |items| && LinkMatches(cfg, link, start, items)
    requires |Final(cfg, start, items).entries| == |items|
    requires out == WritePass(cfg, link, start, items, Final(cfg, start, items).entries)
    requires a < |items[i].m.patches| && DisjointPatches(items[i].m.patches)
    requires !items[i].m.patches[a].kind.CallRelativePatch?
    ensures var at := CodeStart(cfg, start, items, i) + items[i].m.patches[a].literalOffset - start;
            && 0 <= at && at + 4 <= |out.bytes|
            && WordAt(out.bytes, at) == Wrap(LoadedAddress(link, items[i].m.patches[a]))
  {
    hide Final, WritePass, Deduplicated, SlotAt, CodeStart, WordAt, Wrap, LoadedAddress, DisjointPatches;
    var j := FirstOf(cfg, start, items, i);
    AbsolutePatchAddresses(cfg, link, start, items, j, a);
    OwnCodeStart(cfg, start, items, j);
  }

  /** A relative call of any method. */
  ghost predicate HasCall(cfg: Config, link: Link, items: seq<Item>, i: nat, a: nat)
    requires i < |items|
  {
    && a < |items[i].m.patches| && DisjointPatches(items[i].m.patches)
    && var p := items[i].m.patches[a];
    && p.kind.CallRelativePatch? && OnBoundary(cfg.isa, p.literalOffset)
    && (p.target !in link.known ==> TrampolineFits(cfg.isa, link.trampoline(p.target)))
  }

  /** In the file at the method's code offset: its own relative calls go where they should. */
  lemma RelativeCallsGo(cfg: Config, link: Link, start: nat, items: seq<Item>, i: nat, a: nat, out: Output)
    requires ValidItems(items) && i < |items| && LinkMatches(cfg, link, start, items)
    requires Final(cfg, start, items).reserved.offset < OFFSET_LIMIT
    requires |Final(cfg, start, items).entries| == |items|
    requires out == WritePass(cfg, link, start, items, Final(cfg, start, items).entries)
    requires HasCall(cfg, link, items, i, a)
    ensures var p := items[i].m.patches[a];
            var place := CodeStart(cfg, start, items, i) + p.literalOffset;
            && 0 <= place
            && BranchGoes(cfg.isa, out.bytes, start, place, link.thunks, CallTarget(cfg.isa, link, p.target))
  {
    hide Final, WritePass, Deduplicated, SlotAt, CodeStart, BranchGoes, CallTarget, DisjointPatches, OnBoundary,
      TrampolineFits;
    var j := FirstOf(cfg, start, items, i);
    OwnCodeStart(cfg, start, items, j);
    CallGoes(cfg, link, start, items, j, a);
  }

  /** All of it together: the method's code stands in the file at its code offset, with its patches filled in. */
  ghost predicate CodeFound(cfg: Config, link: Link, start: nat, items: seq<Item>, i: nat, bytes: seq<byte>)
    requires i < |items|
  {
    var m, at := items[i].m, CodeStart(cfg, start, items, i) - start;
    && HEADER_SIZE <= at && at + |m.code.bytes| <= |bytes|
    && (forall x :: 0 <= x < |m.code.bytes| && Unpatched(m, x) ==> bytes[at + x] == m.code.bytes[x])
    && (DisjointPatches(m.patches) ==>
          forall a :: 0 <= a < |m.patches| && !m.patches[a].kind.CallRelativePatch? ==>
            AbsoluteFound(link, m.patches[a], bytes, at))
    && (forall a :: 0 <= a < |m.patches| && HasCall(cfg, link, items, i, a) ==>
          CallFound(cfg, link, start, m.patches[a], bytes, at))
  }

  predicate AbsoluteFound(link: Link, p: LinkerPatch, bytes: seq<byte>, at: nat)
  {
    at + p.literalOffset + 4 <= |bytes| && WordAt(bytes, at + p.literalOffset) == Wrap(LoadedAddress(link, p))
  }

  ghost predicate CallFound(cfg: Config, link: Link, start: nat, p: LinkerPatch, bytes: seq<byte>, at: nat)
  {
    BranchGoes(cfg.isa, bytes, start, start + at + p.literalOffset, link.thunks, CallTarget(cfg.isa, link, p.target))
  }

  lemma CodeInside(cfg: Config, link: Link, start: nat, items: seq<Item>, i: nat, out: Output)
    requires ValidItems(items) && i < |items| && LinkMatches(cfg, link, start, items)
    requires |Final(cfg, start, items).entries| == |items|
    requires out == WritePass(cfg, link, start, items, Final(cfg, start, items).entries)
    ensures var at := CodeStart(cfg, start, items, i) - start;
            HEADER_SIZE <= at && at + |items[i].m.code.bytes| <= |out.bytes|
  {
    hide Final, WritePass, Deduplicated, SlotAt, ThunksBefore, CodeStart, MethodBytes;
    var j := FirstOf(cfg, start, items, i);
    OwnWritten(cfg, link, start, items, j, out);
    OwnCodeStart(cfg, start, items, j);
    assert ValidMethod(items[j].m);
  }

  /** Every method's code is found at its code offset. */
  lemma EveryMethodFound(cfg: Config, link: Link, start: nat, items: seq<Item>, i: nat, out: Output)
    requires ValidItems(items) && i < |items| && LinkMatches(cfg, link, start, items)
    requires Final(cfg, start, items).reserved.offset < OFFSET_LIMIT
    requires |Final(cfg, start, items).entries| == |items|
    requires out == WritePass(cfg, link, start, items, Final(cfg, start, items).entries)
    ensures CodeFound(cfg, link, start, items, i, out.bytes)
  {
    hide Final, WritePass, CodeStart, BranchGoes, CallTarget, DisjointPatches, HasCall, Unpatched, WordAt, Wrap,
      LoadedAddress;
    var m := items[i].m;
    CodeInside(cfg, link, start, items, i, out);
    var at := CodeStart(cfg, start, items, i) - start;
    forall x | 0 <= x < |m.code.bytes| && Unpatched(m, x)
      ensures out.bytes[at + x] == m.code.bytes[x]
    {
      UnpatchedBytes(cfg, link, start, items, i, x, out);
    }
    if DisjointPatches(m.patches) {
      forall a | 0 <= a < |m.patches| && !m.patches[a].kind.CallRelativePatch?
        ensures AbsoluteFound(link, m.patches[a], out.bytes, at)
      {
        AbsoluteWords(cfg, link, start, items, i, a, out);
      }
    }
    forall a | 0 <= a < |m.patches| && HasCall(cfg, link, items, i, a)
      ensures CallFound(cfg, link, start, m.patches[a], out.bytes, at)
    {
      RelativeCallsGo(cfg, link, start, items, i, a, out);
    }
  }

  /** Recorded code offsets have the Thumb bit set exactly on Thumb2, and are instruction boundaries without it. */
  lemma ThumbBit(cfg: Config, start: nat, items: seq<Item>, i: nat)
    requires i < |items|
    ensures |Final(cfg, start, items).entries| == |items|
    ensures var offset := Final(cfg, start, items).entries[i].codeOffset;
            if cfg.isa.Thumb2? then offset % 2 == 1 else offset % 4 == 0
  {
    hide Final, Deduplicated, SlotAt;
    EntryOf(cfg, start, items, i);
    var j := FirstOf(cfg, start, items, i);
    OwnCodeStart(cfg, start, items, j);
    SlotOnBoundary(cfg, start, items, j);
  }

  // ---------------------------------------------------------------- the header

  lemma WordInside(bytes: seq<byte>, at: int, part: seq<byte>, k: nat)
    requires Holds(bytes, at, part) && k + 4 <= |part|
    ensures WordAt(bytes, at + k) == WordAt(part, k)
  {
    HoldsInside(bytes, at, part, k, part[k..k + 4]);
  }

  /** What the init pass puts in the header besides the map fields. */
  lemma EntryFrame(cfg: Config, start: nat, items: seq<Item>, i: nat)
    requires i < |items|
    ensures |Final(cfg, start, items).entries| == |items|
    ensures var header := Final(cfg, start, items).entries[i].header;
            header.frame == items[i].m.frame && header.codeSize == Wrap(|items[i].m.code.bytes|)
  {
    hide Final, ReserveSpace, SlotOf, Reached, KeyOf, RebaseMapOffset, Wrap, CodeOffsetOf;
    EntryOf(cfg, start, items, i);
  }

  /** The words in front of code, in the order of the header's fields. */
  predicate HeaderAt(bytes: seq<byte>, at: int, maps: MethodHeader, frame: FrameInfo, size: nat)
  {
    && HEADER_SIZE <= at <= |bytes|
    && WordAt(bytes, at - 28) == maps.mappingTableOffset
    && WordAt(bytes, at - 24) == maps.vmapTableOffset
    && WordAt(bytes, at - 20) == maps.gcMapOffset
    && WordAt(bytes, at - 16) == frame.frameSize
    && WordAt(bytes, at - 12) == frame.coreSpillMask
    && WordAt(bytes, at - 8) == frame.fpSpillMask
    && WordAt(bytes, at - 4) == size
  }

  lemma HeaderHeld(bytes: seq<byte>, at: int, h: MethodHeader)
    requires Holds(bytes, at, HeaderBytes(h))
    ensures HeaderAt(bytes, at + HEADER_SIZE, h, h.frame, h.codeSize)
  {
    hide WordAt, HeaderBytes;
    HeaderReadsBack(h);
    var s := HeaderBytes(h);
    WordInside(bytes, at, s, 0);
    WordInside(bytes, at, s, 4);
    WordInside(bytes, at, s, 8);
    WordInside(bytes, at, s, 12);
    WordInside(bytes, at, s, 16);
    WordInside(bytes, at, s, 20);
    WordInside(bytes, at, s, 24);
  }

  /** The method is the first one at its code offset. */
  ghost predicate FirstThere(cfg: Config, start: nat, items: seq<Item>, i: nat)
    requires i < |items|
  {
    forall j :: 0 <= j < i ==> CodeStart(cfg, start, items, j) != CodeStart(cfg, start, items, i)
  }

  lemma FirstHasOwn(cfg: Config, start: nat, items: seq<Item>, i: nat)
    requires i < |items| && FirstThere(cfg, start, items, i)
    ensures !Deduplicated(items, i)
  {
    hide CodeStart, Deduplicated;
    var j := FirstOf(cfg, start, items, i);
  }

  lemma OwnIsFirst(cfg: Config, start: nat, items: seq<Item>, i: nat)
    requires i < |items| && !Deduplicated(items, i)
    ensures FirstThere(cfg, start, items, i)
  {
    hide CodeStart, Deduplicated;
    forall j | 0 <= j < i
      ensures CodeStart(cfg, start, items, j) != CodeStart(cfg, start, items, i)
    {
      OneOffsetExactlyWhenSame(cfg, start, items, j, i);
      if SameCode(items[j].m, items[i].m) {
        NewCodeDiffers(items, j, i);
      }
    }
  }

  /**
   In front of the code of a method that is the first there: its map fields, its own frame size and
   spill masks, and the size of its code.
   */
  lemma HeaderWords(cfg: Config, link: Link, start: nat, items: seq<Item>, i: nat, out: Output)
    requires ValidItems(items) && i < |items| && LinkMatches(cfg, link, start, items)
    requires |Final(cfg, start, items).entries| == |items|
    requires out == WritePass(cfg, link, start, items, Final(cfg, start, items).entries)
    requires FirstThere(cfg, start, items, i)
    ensures HeaderAt(out.bytes, CodeStart(cfg, start, items, i) - start, Final(cfg, start, items).entries[i].header,
                     items[i].m.frame, |items[i].m.code.bytes|)
  {
    hide Final, WritePass, Deduplicated, SlotAt, ThunksBefore, PatchCode, CodeStart, HeaderAt, FirstThere, HeaderBytes;
    FirstHasOwn(cfg, start, items, i);
    OwnWritten(cfg, link, start, items, i, out);
    OwnCodeStart(cfg, start, items, i);
    EntryFrame(cfg, start, items, i);
    var m, n, slot := items[i].m, ThunksBefore(cfg, start, items, i), SlotAt(cfg, start, items, i);
    assert ValidMethod(m);
    var header := Final(cfg, start, items).entries[i].header;
    var code := PatchCode(cfg.isa, link, n, slot + HEADER_SIZE, m.code.bytes, m.patches);
    SumHeld(out.bytes, slot - start, HeaderBytes(header), code);
    HeaderHeld(out.bytes, slot - start, header);
  }
}
