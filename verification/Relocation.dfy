/**
 Relocating a linked text section by patchoat gives what linking for the moved image would have
 given, byte for byte.
 */
module Relocation {
  import opened Words
  import opened RelativeCalls
  import opened CodeLayout
  import opened CodeWriting
  import opened CodeAgreement
  import opened CodePlacement
  import opened CallsLand

  // ---------------------------------------------------------------- patchoat

  /** `*patch_loc += delta_` on the word at `k`. */
  function AddWord(text: seq<byte>, k: nat, delta: int): (r: seq<byte>)
    requires k + 4 <= |text|
    ensures |r| == |text|
  {
    Overwrite(text, k, LittleEndian(Wrap(WordAt(text, k) + delta)))
  }

  predicate InText(locations: seq<int>, size: nat)
  {
    forall a :: 0 <= a < |locations| ==> 0 <= locations[a] && locations[a] + 4 <= size
  }

  /** The text after PatchTextSection has gone through `.oat_patches`. */
  function Relocate(text: seq<byte>, locations: seq<int>, delta: int): (r: seq<byte>)
    requires InText(locations, |text|)
    ensures |r| == |text|
    decreases |locations|
  {
    if locations == [] then text else Relocate(AddWord(text, locations[0], delta), locations[1..], delta)
  }

  /** CheckOatFile's loop: every recorded location starts inside the text section. */
  method CheckPatches(locations: seq<nat>, size: nat) returns (ok: bool)
    ensures ok <==> forall a :: 0 <= a < |locations| ==> locations[a] < size
  {
    for a := 0 to |locations|
      invariant forall b :: 0 <= b < a ==> locations[b] < size
    {
      if size <= locations[a] {
        return false;
      }
    }
    return true;
  }

  /** Locations in a section, as seen from the start of the file. */
  function InFile(locations: seq<nat>, section: nat): (r: seq<int>)
    ensures |r| == |locations|
  {
    seq(|locations|, a requires 0 <= a < |locations| => section + locations[a])
  }

  /**
   PatchTextSection, on the mapped file: the text section is `size` bytes from `text` on. A word that
   starts in the section but does not end there takes in the bytes behind it.
   */
  method PatchTextSection(file: array<byte>, text: nat, size: nat, locations: seq<nat>, delta: int) returns (ok: bool)
    requires text + size + 3 <= file.Length
    modifies file
    ensures ok <==> forall a :: 0 <= a < |locations| ==> locations[a] < size
    ensures !ok ==> file[..] == old(file[..])
    ensures ok ==> InText(InFile(locations, text), file.Length)
                   && file[..] == Relocate(old(file[..]), InFile(locations, text), delta)
  {
    ok := CheckPatches(locations, size);
    if ok {
      AddToWords(file, InFile(locations, text), delta);
    }
  }

  /** The loop of PatchTextSection. */
  method AddToWords(file: array<byte>, places: seq<int>, delta: int)
    requires InText(places, file.Length)
    modifies file
    ensures file[..] == Relocate(old(file[..]), places, delta)
  {
    hide Overwrite, WordAt, LittleEndian, Wrap;
    ghost var before := file[..];
    assert places[0..] == places;
    for a := 0 to |places|
      invariant InText(places[a..], file.Length)
      invariant Relocate(before, places, delta) == Relocate(file[..], places[a..], delta)
    {
      ghost var was := file[..];
      StoreWord(file, places[a], Wrap(WordAt(file[..], places[a]) + delta));
      RelocateStep(was, places, a, delta);
    }
  }

  /** Words that lie inside the section are all that changes, and they change as in the section alone. */
  lemma {:induction false} SectionRelocated(left: seq<byte>, text: seq<byte>, right: seq<byte>, locations: seq<nat>,
                                            delta: int)
    requires InText(locations, |text|)
    ensures InText(InFile(locations, |left|), |left + text + right|)
    ensures Relocate(left + text + right, InFile(locations, |left|), delta) ==
            left + Relocate(text, locations, delta) + right
    decreases |locations|
  {
    hide AddWord;
    var places := InFile(locations, |left|);
    if locations != [] {
      AddWordInside(left, text, right, locations[0], delta);
      assert places[1..] == InFile(locations[1..], |left|);
      SectionRelocated(left, AddWord(text, locations[0], delta), right, locations[1..], delta);
    }
  }

  lemma RelocateStep(text: seq<byte>, locations: seq<int>, a: nat, delta: int)
    requires InText(locations, |text|) && a < |locations|
    ensures InText(locations[a..], |text|) && InText(locations[a + 1..], |text|)
    ensures var w := LittleEndian(Wrap(WordAt(text, locations[a]) + delta));
            Relocate(text, locations[a..], delta) ==
              Relocate(Overwrite(text, locations[a], w), locations[a + 1..], delta)
  {
  }

  method StoreWord(text: array<byte>, k: nat, w: word)
    requires k + 4 <= text.Length
    modifies text
    ensures text[..] == Overwrite(old(text[..]), k, LittleEndian(w))
  {
    ghost var was := text[..];
    var s := LittleEndian(w);
    for b := 0 to 4
      invariant forall i :: 0 <= i < text.Length ==> text[i] == if k <= i < k + b then s[i - k] else was[i]
    {
      text[k + b] := s[b];
    }
    assert text[..] == was[..k] + s + was[k + 4..];
  }

  // ---------------------------------------------------------------- one method

  lemma OverwritesCommute(s: seq<byte>, j: nat, v: seq<byte>, k: nat, w: seq<byte>)
    requires j + |v| <= |s| && k + |w| <= |s| && (j + |v| <= k || k + |w| <= j)
    ensures Overwrite(Overwrite(s, j, v), k, w) == Overwrite(Overwrite(s, k, w), j, v)
  {
  }

  /** Patching leaves a word alone that no patch touches, whenever it was stored. */
  lemma {:induction false} PatchCodeCommutes(isa: Isa, link: Link, n: nat, codeStart: nat, code: seq<byte>,
                                             patches: seq<LinkerPatch>, k: nat, w: seq<byte>)
    requires n <= |link.thunks| && |w| == 4 && k + 4 <= |code|
    requires forall p :: p in patches ==> p.literalOffset + 4 <= |code|
    requires forall p :: p in patches ==> p.literalOffset + 4 <= k || k + 4 <= p.literalOffset
    ensures PatchCode(isa, link, n, codeStart, Overwrite(code, k, w), patches) ==
            Overwrite(PatchCode(isa, link, n, codeStart, code, patches), k, w)
    decreases |patches|
  {
    hide PatchBytes, Overwrite;
    if patches != [] {
      var p := patches[0];
      assert p in patches;
      var written := PatchBytes(isa, link, n, codeStart, p);
      if written.Some? {
        OverwritesCommute(code, k, w, p.literalOffset, written.value);
      }
      PatchCodeCommutes(isa, link, n, codeStart, ApplyPatch(isa, link, n, codeStart, code, p), patches[1..], k, w);
    }
  }

  function Moved(link: Link, delta: int): Link
  {
    link.(imageBegin := link.imageBegin + delta)
  }

  lemma WrapSum(a: int, b: int)
    ensures Wrap(Wrap(a) + b) == Wrap(a + b)
  {
  }

  /** Moving the image moves every absolute address by the same amount, and no relative call. */
  lemma PatchMoves(isa: Isa, link: Link, n: nat, codeStart: nat, p: LinkerPatch, delta: int)
    requires n <= |link.thunks|
    ensures if p.kind.CallRelativePatch? then
              PatchBytes(isa, Moved(link, delta), n, codeStart, p) == PatchBytes(isa, link, n, codeStart, p)
            else
              && PatchBytes(isa, link, n, codeStart, p) == Some(LittleEndian(AbsoluteAddress(link, p)))
              && PatchBytes(isa, Moved(link, delta), n, codeStart, p) ==
                 Some(LittleEndian(Wrap(AbsoluteAddress(link, p) + delta)))
  {
    hide CalculateDisplacement, BlBytes, LittleEndian;
    if !p.kind.CallRelativePatch? {
      WrapSum(link.imageBegin + (if p.kind.CallPatch? then link.oatDataOffset + TargetOffset(link, p)
                                 else link.imageOffset(p)), delta);
    }
  }

  lemma AddWordToStored(code: seq<byte>, k: nat, address: word, delta: int)
    requires k + 4 <= |code|
    ensures AddWord(Overwrite(code, k, LittleEndian(address)), k, delta) ==
            Overwrite(code, k, LittleEndian(Wrap(address + delta)))
  {
    hide LittleEndian;
    LittleEndianRoundTrip(address);
    var stored := Overwrite(code, k, LittleEndian(address));
    assert WordAt(stored, k) == address;
  }

  lemma {:induction false} LocationsInText(patches: seq<LinkerPatch>, base: nat, size: nat, text: nat)
    requires base + size <= text
    requires forall p :: p in patches ==> p.literalOffset + 4 <= size
    ensures InText(AbsoluteLocations(patches, base), text)
  {
    if patches != [] {
      assert patches[0] in patches;
      LocationsInText(patches[1..], base, size, text);
    }
  }

  /** A word no patch touches may be moved before or after patching. */
  lemma AddWordCommutes(isa: Isa, link: Link, n: nat, codeStart: nat, code: seq<byte>, patches: seq<LinkerPatch>,
      k: nat, delta: int)
    requires n <= |link.thunks| && k + 4 <= |code|
    requires forall p :: p in patches ==> p.literalOffset + 4 <= |code|
    requires forall p :: p in patches ==> p.literalOffset + 4 <= k || k + 4 <= p.literalOffset
    ensures AddWord(PatchCode(isa, link, n, codeStart, code, patches), k, delta) ==
            PatchCode(isa, link, n, codeStart, AddWord(code, k, delta), patches)
  {
    hide PatchCode;
    var patched := PatchCode(isa, link, n, codeStart, code, patches);
    var w := code[k..k + 4];
    PatchCodeCommutes(isa, link, n, codeStart, code, patches, k, w);
    assert Overwrite(code, k, w) == code;
    assert WordAt(patched, k) == WordAt(code, k);
    PatchCodeCommutes(isa, link, n, codeStart, code, patches, k, LittleEndian(Wrap(WordAt(code, k) + delta)));
  }

  /** Relocating a method's patched code is patching it for the moved image. */
  lemma {:induction false} MethodRelocates(isa: Isa, link: Link, n: nat, codeStart: nat, code: seq<byte>,
                                           patches: seq<LinkerPatch>, delta: int)
    requires n <= |link.thunks| && DisjointPatches(patches)
    requires forall p :: p in patches ==> p.literalOffset + 4 <= |code|
    requires InText(AbsoluteLocations(patches, 0), |code|)
    ensures Relocate(PatchCode(isa, link, n, codeStart, code, patches), AbsoluteLocations(patches, 0), delta) ==
            PatchCode(isa, Moved(link, delta), n, codeStart, code, patches)
    decreases |patches|
  {
    if patches != [] {
      var code' := ApplyPatch(isa, Moved(link, delta), n, codeStart, code, patches[0]);
      LocationsInText(patches[1..], 0, |code|, |code|);
      if patches[0].kind.CallRelativePatch? {
        RelativeStep(isa, link, n, codeStart, code, patches, delta);
      } else {
        AbsoluteStep(isa, link, n, codeStart, code, patches, delta);
      }
      hide ApplyPatch, Relocate, AbsoluteLocations;
      MethodRelocates(isa, link, n, codeStart, code', patches[1..], delta);
    }
  }

  lemma {:induction false} RelativeStep(isa: Isa, link: Link, n: nat, codeStart: nat, code: seq<byte>,
                                        patches: seq<LinkerPatch>, delta: int)
    requires n <= |link.thunks| && patches != [] && patches[0].kind.CallRelativePatch?
    requires forall p :: p in patches ==> p.literalOffset + 4 <= |code|
    requires InText(AbsoluteLocations(patches, 0), |code|)
    ensures AbsoluteLocations(patches, 0) == AbsoluteLocations(patches[1..], 0)
    ensures var code' := ApplyPatch(isa, Moved(link, delta), n, codeStart, code, patches[0]);
            PatchCode(isa, link, n, codeStart, code, patches) == PatchCode(isa, link, n, codeStart, code', patches[1..])
  {
  }

  lemma {:induction false} AbsoluteStep(isa: Isa, link: Link, n: nat, codeStart: nat, code: seq<byte>,
                                        patches: seq<LinkerPatch>, delta: int)
    requires n <= |link.thunks| && patches != [] && !patches[0].kind.CallRelativePatch? && DisjointPatches(patches)
    requires forall p :: p in patches ==> p.literalOffset + 4 <= |code|
    requires InText(AbsoluteLocations(patches, 0), |code|) && InText(AbsoluteLocations(patches[1..], 0), |code|)
    ensures var code' := ApplyPatch(isa, Moved(link, delta), n, codeStart, code, patches[0]);
            Relocate(PatchCode(isa, link, n, codeStart, code, patches), AbsoluteLocations(patches, 0), delta) ==
            Relocate(PatchCode(isa, link, n, codeStart, code', patches[1..]), AbsoluteLocations(patches[1..], 0), delta)
  {
    hide PatchBytes, AddWord, Overwrite, AbsoluteAddress, LittleEndian;
    var p, rest := patches[0], patches[1..];
    assert p in patches;
    PatchMoves(isa, link, n, codeStart, p, delta);
    var code1 := ApplyPatch(isa, link, n, codeStart, code, p);
    AddWordToStored(code, p.literalOffset, AbsoluteAddress(link, p), delta);
    AddWordCommutes(isa, link, n, codeStart, code1, rest, p.literalOffset, delta);
    assert AbsoluteLocations(patches, 0) == [p.literalOffset] + AbsoluteLocations(rest, 0);
  }

  lemma MovedKeeps(link: Link, delta: int)
    ensures Moved(link, delta).thunks == link.thunks && Moved(link, delta).known == link.known
  {
  }

  // ---------------------------------------------------------------- the whole text

  lemma {:induction false} RelocateAppends(text: seq<byte>, a: seq<int>, b: seq<int>, delta: int)
    requires InText(a, |text|) && InText(b, |text|)
    ensures InText(a + b, |text|)
    ensures Relocate(text, a + b, delta) == Relocate(Relocate(text, a, delta), b, delta)
    decreases |a|
  {
    hide AddWord;
    if a == [] {
      assert a + b == b;
    } else {
      assert (a + b)[1..] == a[1..] + b;
      RelocateAppends(AddWord(text, a[0], delta), a[1..], b, delta);
    }
  }

  lemma AddWordInside(left: seq<byte>, mid: seq<byte>, right: seq<byte>, k: nat, delta: int)
    requires k + 4 <= |mid|
    ensures AddWord(left + mid + right, |left| + k, delta) == left + AddWord(mid, k, delta) + right
  {
    hide Wrap, LittleEndian, FromLittleEndian;
    var text := left + mid + right;
    assert text[|left| + k..|left| + k + 4] == mid[k..k + 4];
    assert WordAt(text, |left| + k) == WordAt(mid, k);
  }

  /** Relocating a part of the text leaves the rest alone. */
  lemma {:induction false} RelocateInside(left: seq<byte>, mid: seq<byte>, right: seq<byte>,
      patches: seq<LinkerPatch>, delta: int)
    requires forall p :: p in patches ==> p.literalOffset + 4 <= |mid|
    requires InText(AbsoluteLocations(patches, 0), |mid|)
    requires InText(AbsoluteLocations(patches, |left|), |left + mid + right|)
    ensures Relocate(left + mid + right, AbsoluteLocations(patches, |left|), delta) ==
            left + Relocate(mid, AbsoluteLocations(patches, 0), delta) + right
    decreases |patches|
  {
    hide AddWord;
    if patches != [] {
      var p, rest := patches[0], patches[1..];
      assert p in patches;
      LocationsInText(rest, 0, |mid|, |mid|);
      LocationsInText(rest, |left|, |mid|, |left + mid + right|);
      if p.kind.CallRelativePatch? {
        RelocateInside(left, mid, right, rest, delta);
        assert AbsoluteLocations(patches, 0) == AbsoluteLocations(rest, 0);
        assert AbsoluteLocations(patches, |left|) == AbsoluteLocations(rest, |left|);
      } else {
        AddWordInside(left, mid, right, p.literalOffset, delta);
        RelocateInside(left, AddWord(mid, p.literalOffset, delta), right, rest, delta);
        assert AbsoluteLocations(patches, 0) == [p.literalOffset] + AbsoluteLocations(rest, 0);
        assert AbsoluteLocations(patches, |left|) == [|left| + p.literalOffset] + AbsoluteLocations(rest, |left|);
      }
    }
  }

  /** The locations recorded while visiting the remaining methods. */
  function LocationsFrom(cfg: Config, s: Layout, items: seq<Item>): seq<int>
    decreases |items|
  {
    if items == [] then []
    else StepLocations(cfg, s, items[0]) + LocationsFrom(cfg, VisitMethod(cfg, s, items[0]), items[1..])
  }

  function StepLocations(cfg: Config, s: Layout, item: Item): seq<int>
  {
    if Shares(s, item.m) then []
    else AbsoluteLocations(item.m.patches, SlotOf(cfg, s, item.m) + HEADER_SIZE - cfg.executableOffset)
  }

  lemma {:induction false} LocationsAreRecorded(cfg: Config, s: Layout, items: seq<Item>)
    ensures VisitAll(cfg, s, items).absolute == s.absolute + LocationsFrom(cfg, s, items)
    decreases |items|
  {
    hide VisitMethod, StepLocations;
    if items != [] {
      VisitAddsLocations(cfg, s, items[0]);
      var s' := VisitMethod(cfg, s, items[0]);
      LocationsAreRecorded(cfg, s', items[1..]);
      var step, rest := StepLocations(cfg, s, items[0]), LocationsFrom(cfg, s', items[1..]);
      assert s.absolute + step + rest == s.absolute + (step + rest);
    }
  }

  lemma VisitAddsLocations(cfg: Config, s: Layout, item: Item)
    ensures VisitMethod(cfg, s, item).absolute == s.absolute + StepLocations(cfg, s, item)
  {
  }

  ghost predicate Relocatable(items: seq<Item>)
  {
    ValidItems(items) && forall i :: 0 <= i < |items| ==> DisjointPatches(items[i].m.patches)
  }

  /** One method's share of the text. */
  lemma StepRelocates(cfg: Config, link: Link, s: Layout, item: Item, pre: seq<byte>, post: seq<byte>, delta: int)
    requires ValidMethod(item.m) && DisjointPatches(item.m.patches)
    requires |VisitMethod(cfg, s, item).reserved.thunks| <= |link.thunks|
    requires |pre| + cfg.executableOffset == s.reserved.offset
    ensures |PlannedStep(cfg, link, s, item)| == |PlannedStep(cfg, Moved(link, delta), s, item)|
    ensures InText(StepLocations(cfg, s, item), |pre + PlannedStep(cfg, link, s, item) + post|)
    ensures Relocate(pre + PlannedStep(cfg, link, s, item) + post, StepLocations(cfg, s, item), delta) ==
            pre + PlannedStep(cfg, Moved(link, delta), s, item) + post
  {
    if Shares(s, item.m) {
      SharedStepRelocates(cfg, link, s, item, delta);
    } else {
      NewStepRelocates(cfg, link, s, item, pre, post, delta);
    }
  }

  lemma SharedStepRelocates(cfg: Config, link: Link, s: Layout, item: Item, delta: int)
    requires ValidMethod(item.m) && Shares(s, item.m)
    requires |VisitMethod(cfg, s, item).reserved.thunks| <= |link.thunks|
    ensures PlannedStep(cfg, link, s, item) == PlannedStep(cfg, Moved(link, delta), s, item)
    ensures StepLocations(cfg, s, item) == []
  {
  }

  lemma NewStepRelocates(cfg: Config, link: Link, s: Layout, item: Item, pre: seq<byte>, post: seq<byte>, delta: int)
    requires ValidMethod(item.m) && DisjointPatches(item.m.patches) && !Shares(s, item.m)
    requires |VisitMethod(cfg, s, item).reserved.thunks| <= |link.thunks|
    requires |pre| + cfg.executableOffset == s.reserved.offset
    ensures |PlannedStep(cfg, link, s, item)| == |PlannedStep(cfg, Moved(link, delta), s, item)|
    ensures InText(StepLocations(cfg, s, item), |pre + PlannedStep(cfg, link, s, item) + post|)
    ensures Relocate(pre + PlannedStep(cfg, link, s, item) + post, StepLocations(cfg, s, item), delta) ==
            pre + PlannedStep(cfg, Moved(link, delta), s, item) + post
  {
    hide VisitMethod, PlannedStep, PlannedLead, MethodBytes, Moved, Relocate, AbsoluteLocations, SlotOf, Inserts,
      InText;
    MovedKeeps(link, delta);
    StepOfNew(cfg, link, s, item);
    StepOfNew(cfg, Moved(link, delta), s, item);
    var s', slot := VisitMethod(cfg, s, item), SlotOf(cfg, s, item.m);
    var n, h := |s'.reserved.thunks|, s'.entries[|s.entries|].header;
    var lead := PlannedLead(cfg, s.reserved.offset, Inserts(cfg, s, item));
    BodyRelocates(cfg, link, n, slot, item.m, h, pre + lead, post, delta);
    assert pre + PlannedStep(cfg, link, s, item) + post ==
           pre + lead + MethodBytes(cfg, link, n, slot, item.m, h) + post;
    assert pre + PlannedStep(cfg, Moved(link, delta), s, item) + post ==
           pre + lead + MethodBytes(cfg, Moved(link, delta), n, slot, item.m, h) + post;
  }

  lemma BodyRelocates(cfg: Config, link: Link, n: nat, slot: nat, m: CompiledMethod, h: MethodHeader, left: seq<byte>,
                      post: seq<byte>, delta: int)
    requires ValidMethod(m) && DisjointPatches(m.patches) && n <= |link.thunks| == |Moved(link, delta).thunks|
    requires |left| + cfg.executableOffset == slot
    ensures InText(AbsoluteLocations(m.patches, slot + HEADER_SIZE - cfg.executableOffset),
                   |left + MethodBytes(cfg, link, n, slot, m, h) + post|)
    ensures Relocate(left + MethodBytes(cfg, link, n, slot, m, h) + post,
                     AbsoluteLocations(m.patches, slot + HEADER_SIZE - cfg.executableOffset), delta) ==
            left + MethodBytes(cfg, Moved(link, delta), n, slot, m, h) + post
  {
    hide PatchCode, HeaderBytes, Moved, Relocate, AbsoluteLocations;
    var header := HeaderBytes(h);
    var code := PatchCode(cfg.isa, link, n, slot + HEADER_SIZE, m.code.bytes, m.patches);
    var code' := PatchCode(cfg.isa, Moved(link, delta), n, slot + HEADER_SIZE, m.code.bytes, m.patches);
    LocationsInText(m.patches, 0, |code|, |code|);
    LocationsInText(m.patches, |left + header|, |code|, |left + header + code + post|);
    MethodRelocates(cfg.isa, link, n, slot + HEADER_SIZE, m.code.bytes, m.patches, delta);
    RelocateInside(left + header, code, post, m.patches, delta);
    assert left + (header + code) + post == left + header + code + post;
    assert left + (header + code') + post == left + header + code' + post;
  }

  lemma {:induction false} PlannedRelocates(cfg: Config, link: Link, s: Layout, items: seq<Item>, pre: seq<byte>,
      delta: int)
    requires Relocatable(items) && link.thunks == FinalThunks(cfg, s, items)
    requires |pre| + cfg.executableOffset == s.reserved.offset
    ensures InText(LocationsFrom(cfg, s, items), |pre + Planned(cfg, link, s, items)|)
    ensures Relocate(pre + Planned(cfg, link, s, items), LocationsFrom(cfg, s, items), delta) ==
            pre + Planned(cfg, Moved(link, delta), s, items)
    decreases |items|
  {
    hide VisitMethod, PlannedStep, PlannedEnd, StepLocations, Moved, EndInit, DisjointPatches, AddWord;
    MovedKeeps(link, delta);
    if items != [] {
      var s', link' := VisitMethod(cfg, s, items[0]), Moved(link, delta);
      ThunksGrow(cfg, s', items[1..]);
      var step, step' := PlannedStep(cfg, link, s, items[0]), PlannedStep(cfg, link', s, items[0]);
      var rest := Planned(cfg, link, s', items[1..]);
      var here, later := StepLocations(cfg, s, items[0]), LocationsFrom(cfg, s', items[1..]);
      PlannedStepLength(cfg, link, s, items[0]);
      StepRelocates(cfg, link, s, items[0], pre, rest, delta);
      PlannedRelocates(cfg, link, s', items[1..], pre + step', delta);
      RelocateAppends(pre + step + rest, here, later, delta);
      assert pre + (step + rest) == pre + step + rest;
      assert pre + (step' + Planned(cfg, link', s', items[1..])) == pre + step' + Planned(cfg, link', s', items[1..]);
    }
  }

  /** The text section: whatever precedes the methods, then the written code. */
  function Text(cfg: Config, link: Link, start: nat, items: seq<Item>, prefix: seq<byte>): seq<byte>
    requires ValidItems(items) && |Final(cfg, start, items).entries| == |items|
  {
    prefix + WritePass(cfg, link, start, items, Final(cfg, start, items).entries).bytes
  }

  /**
   Relocation commutes with linking: running PatchTextSection with `delta` over the recorded
   locations turns the text linked for one image base into the text linked for that base plus delta.
   */
  lemma RelocationCommutes(cfg: Config, link: Link, start: nat, items: seq<Item>, prefix: seq<byte>, delta: int)
    requires Relocatable(items) && link.thunks == Final(cfg, start, items).reserved.thunks
    requires |prefix| + cfg.executableOffset == start
    ensures |Final(cfg, start, items).entries| == |items|
    ensures InText(Final(cfg, start, items).absolute, |Text(cfg, link, start, items, prefix)|)
    ensures Relocate(Text(cfg, link, start, items, prefix), Final(cfg, start, items).absolute, delta) ==
            Text(cfg, Moved(link, delta), start, items, prefix)
  {
    hide WritePass, Planned, Relocate, VisitAll, ReserveFinal, DisjointPatches;
    var s0 := InitialLayout(start);
    WritePassAgrees(cfg, link, start, items);
    WritePassAgrees(cfg, Moved(link, delta), start, items);
    PlannedRelocates(cfg, link, s0, items, prefix, delta);
    LocationsAreRecorded(cfg, s0, items);
    assert [] + LocationsFrom(cfg, s0, items) == LocationsFrom(cfg, s0, items);
  }

  // ---------------------------------------------------------------- each location once

  ghost predicate Apart(locations: seq<int>)
  {
    forall a, b :: 0 <= a < b < |locations| ==> locations[a] + 4 <= locations[b] || locations[b] + 4 <= locations[a]
  }

  lemma {:induction false} ApartFromOthers(patches: seq<LinkerPatch>, base: int, k: int)
    requires forall p :: p in patches ==> p.literalOffset + 4 <= k || k + 4 <= p.literalOffset
    ensures forall b :: 0 <= b < |AbsoluteLocations(patches, base)| ==>
              var x := AbsoluteLocations(patches, base)[b];
              base + k + 4 <= x || x + 4 <= base + k
  {
    if patches != [] {
      assert patches[0] in patches;
      ApartFromOthers(patches[1..], base, k);
    }
  }

  lemma {:induction false} MethodLocationsApart(patches: seq<LinkerPatch>, base: int)
    requires DisjointPatches(patches)
    ensures Apart(AbsoluteLocations(patches, base))
  {
    if patches != [] {
      MethodLocationsApart(patches[1..], base);
      ApartFromOthers(patches[1..], base, patches[0].literalOffset);
    }
  }

  ghost predicate Between(locations: seq<int>, low: int, high: int)
  {
    forall a :: 0 <= a < |locations| ==> low <= locations[a] && locations[a] + 4 <= high
  }

  lemma {:induction false} MethodLocationsInside(patches: seq<LinkerPatch>, base: int, size: nat)
    requires forall p :: p in patches ==> p.literalOffset + 4 <= size
    ensures Between(AbsoluteLocations(patches, base), base, base + size)
  {
    if patches != [] {
      assert patches[0] in patches;
      MethodLocationsInside(patches[1..], base, size);
    }
  }

  lemma ApartAppends(here: seq<int>, later: seq<int>, low: int, middle: int, high: int)
    requires Apart(here) && Apart(later) && Between(here, low, middle) && Between(later, middle, high) &&
             low <= middle <= high
    ensures Apart(here + later) && Between(here + later, low, high)
  {
  }

  lemma StepLocationsApart(cfg: Config, s: Layout, item: Item)
    requires ValidMethod(item.m) && DisjointPatches(item.m.patches)
    ensures Apart(StepLocations(cfg, s, item))
    ensures Between(StepLocations(cfg, s, item), s.reserved.offset - cfg.executableOffset,
                    VisitMethod(cfg, s, item).reserved.offset - cfg.executableOffset)
    ensures s.reserved.offset <= VisitMethod(cfg, s, item).reserved.offset
  {
    hide VisitMethod, SlotOf, AbsoluteLocations, AlignCode;
    StepPlaces(cfg, s, item);
    var base := SlotOf(cfg, s, item.m) + HEADER_SIZE - cfg.executableOffset;
    MethodLocationsApart(item.m.patches, base);
    MethodLocationsInside(item.m.patches, base, |item.m.code.bytes|);
  }

  lemma {:induction false} LocationsApart(cfg: Config, s: Layout, items: seq<Item>)
    requires Relocatable(items)
    ensures Apart(LocationsFrom(cfg, s, items))
    ensures s.reserved.offset <= VisitAll(cfg, s, items).reserved.offset
    ensures Between(LocationsFrom(cfg, s, items), s.reserved.offset - cfg.executableOffset,
                    VisitAll(cfg, s, items).reserved.offset - cfg.executableOffset)
    decreases |items|
  {
    hide VisitMethod, StepLocations, DisjointPatches, ValidMethod, Apart, Between;
    if items != [] {
      var s' := VisitMethod(cfg, s, items[0]);
      StepLocationsApart(cfg, s, items[0]);
      LocationsApart(cfg, s', items[1..]);
      ApartAppends(StepLocations(cfg, s, items[0]), LocationsFrom(cfg, s', items[1..]),
                   s.reserved.offset - cfg.executableOffset, s'.reserved.offset - cfg.executableOffset,
                   VisitAll(cfg, s, items).reserved.offset - cfg.executableOffset);
    } else {
      NoLocations(s.reserved.offset - cfg.executableOffset);
    }
  }

  lemma NoLocations(x: int)
    ensures Apart([]) && Between([], x, x)
  {
  }

  /** No location is recorded twice, and no two recorded words overlap, whatever code is shared. */
  lemma LocationsRecordedOnce(cfg: Config, start: nat, items: seq<Item>)
    requires Relocatable(items)
    ensures Apart(Final(cfg, start, items).absolute)
  {
    hide VisitAll, ReserveFinal, LocationsFrom, Relocatable;
    LocationsAreRecorded(cfg, InitialLayout(start), items);
    LocationsApart(cfg, InitialLayout(start), items);
    assert [] + LocationsFrom(cfg, InitialLayout(start), items) == LocationsFrom(cfg, InitialLayout(start), items);
  }
}
