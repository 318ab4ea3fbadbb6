/**
 A file in which a method shares code that makes a call, and another method's call reaches nothing:
 the queue holds the shared call at a place where no code is written, ahead of a call that stands
 before that place.
 */
module SharedCalls {
  import opened Words
  import opened RelativeCalls
  import opened CodeLayout
  import opened CodeWriting
  import opened CodeAgreement
  import opened CodePlacement
  import opened ThunkReach
  import opened MissedThunk

  const TARGET: MethodRef := MethodRef(0, 5)
  const LARGE: nat := 16777168

  const EARLY: LinkerPatch := LinkerPatch(2, CallRelativePatch, TARGET)
  const SHARED: LinkerPatch := LinkerPatch(LARGE - 4, CallRelativePatch, TARGET)
  const STRANDED: LinkerPatch := LinkerPatch(4096, CallRelativePatch, TARGET)

  /** The third method has the code of the second; the fourth one's call is the one that is lost. */
  function Methods(): (items: seq<Item>)
    ensures |items| == 6
  {
    [Method(0, 10, 100, [EARLY]), Method(1, 11, LARGE, [SHARED]), Method(2, 11, LARGE, [SHARED]),
     Method(3, 13, 8196, [STRANDED]), Method(4, 14, LARGE, []), Method(5, 15, 4, [])]
  }

  function Call(offset: nat): PendingCall
  {
    PendingCall(TARGET, offset)
  }

  lemma OneCall(p: LinkerPatch, base: nat)
    ensures RelativeCallsOf([p], base) ==
            if p.kind.CallRelativePatch? then [PendingCall(p.target, base + p.literalOffset)] else []
  {
    assert [p][1..] == [];
  }

  /** The addresses of the code laid out so far. */
  ghost predicate Codes(s: Layout, addresses: set<nat>)
  {
    forall key :: key in s.dedupe ==> key.code.address in addresses
  }

  lemma FirstMethod()
    ensures var s := VisitMethod(CFG, InitialLayout(0), Methods()[0]);
            s.reserved == Reservation(128, [], [Call(30)]) && TARGET !in s.known && Codes(s, {10})
  {
    OneCall(EARLY, 28);
  }

  lemma SecondMethod(s: Layout)
    requires s.reserved == Reservation(128, [], [Call(30)]) && TARGET !in s.known && Codes(s, {10})
    ensures var s' := VisitMethod(CFG, s, Methods()[1]);
            && s'.reserved == Reservation(16777332, [128], [Call(16777320)]) && TARGET !in s'.known &&
               Codes(s', {10, 11})
            && KeyOf(Methods()[1].m) in s'.dedupe
  {
    OneCall(SHARED, 156);
    assert KeyOf(Methods()[1].m).code.address == 11;
    assert AlignCode(128, Thumb2) == 128 && AlignCode(156 + LARGE, Thumb2) == 156 + LARGE + 4 &&
           AlignCode(136, Thumb2) == 136;
    assert ProcessPatches(Thumb2, [], [Call(30)], s.known, 160 + LARGE).0;
  }

  lemma ThirdMethod(s: Layout)
    requires s.reserved == Reservation(16777332, [128], [Call(16777320)]) && TARGET !in s.known && Codes(s, {10, 11})
    requires KeyOf(Methods()[1].m) in s.dedupe
    ensures var s' := VisitMethod(CFG, s, Methods()[2]);
            && s'.reserved == Reservation(16777336, [128], [Call(16777320), Call(33554528)])
            && TARGET !in s'.known && Codes(s', {10, 11})
  {
    OneCall(SHARED, 16777364);
    assert KeyOf(Methods()[1].m) == KeyOf(Methods()[2].m);
    assert AlignCode(16777332, Thumb2) == 16777336 && AlignCode(16777364 + LARGE, Thumb2) == 16777368 + LARGE;
  }

  lemma FourthMethod(s: Layout)
    requires s.reserved == Reservation(16777336, [128], [Call(16777320), Call(33554528)])
    requires TARGET !in s.known && Codes(s, {10, 11})
    ensures var s' := VisitMethod(CFG, s, Methods()[3]);
            && SlotOf(CFG, s, Methods()[3].m) == 16777336
            && s'.reserved == Reservation(16785560, [128], [Call(16777320), Call(33554528), Call(16781460)])
            && TARGET !in s'.known && Codes(s', {10, 11, 13})
  {
    OneCall(STRANDED, 16777364);
    assert KeyOf(Methods()[3].m).code.address == 13;
    assert AlignCode(16777336, Thumb2) == 16777336 && AlignCode(16785560, Thumb2) == 16785560;
  }

  lemma FifthMethod(s: Layout)
    requires s.reserved == Reservation(16785560, [128], [Call(16777320), Call(33554528), Call(16781460)])
    requires TARGET !in s.known && Codes(s, {10, 11, 13})
    ensures var s' := VisitMethod(CFG, s, Methods()[4]);
            && s'.reserved == Reservation(33562756, [128], [Call(33554528), Call(16781460)])
            && TARGET !in s'.known && Codes(s', {10, 11, 13, 14})
  {
    var queue := [Call(16777320), Call(33554528), Call(16781460)];
    assert queue[1..] == [Call(33554528), Call(16781460)];
    assert KeyOf(Methods()[4].m).code.address == 14;
    assert AlignCode(16785560, Thumb2) == 16785560 && AlignCode(33562756, Thumb2) == 33562760;
    assert ProcessPatches(Thumb2, [128], queue, s.known, 33562760) ==
           ProcessPatches(Thumb2, [128], queue[1..], s.known, 33562760);
    assert ProcessPatches(Thumb2, [128], queue[1..], s.known, 33562760) == (false, queue[1..]);
  }

  lemma SixthMethod(s: Layout)
    requires s.reserved == Reservation(33562756, [128], [Call(33554528), Call(16781460)])
    requires TARGET !in s.known && Codes(s, {10, 11, 13, 14})
    ensures var s' := VisitMethod(CFG, s, Methods()[5]);
            && s'.reserved == Reservation(33562792, [128], [Call(33554528), Call(16781460)])
            && TARGET in s'.known && s'.known[TARGET] == 33562789
  {
    assert KeyOf(Methods()[5].m).code.address == 15;
    assert AlignCode(33562756, Thumb2) == 33562760 && AlignCode(33562792, Thumb2) == 33562792;
  }

  lemma NoFinalThunk(s: Layout)
    requires s.reserved == Reservation(33562792, [128], [Call(33554528), Call(16781460)])
    requires TARGET in s.known && s.known[TARGET] == 33562789
    ensures EndInit(CFG, s).reserved == Reservation(33562792, [128], []) && EndInit(CFG, s).known == s.known
  {
    var queue := [Call(33554528), Call(16781460)];
    assert queue[1..] == [Call(16781460)] && queue[1..][1..] == [];
    assert AlignCode(33562792, Thumb2) == 33562792;
  }

  /** The final layout, and where the fourth method's code stands. */
  lemma SharedLayout()
    ensures var layout := Final(CFG, 0, Methods());
            && layout.reserved.thunks == [128] && layout.reserved.offset == 33562792
            && TARGET in layout.known && layout.known[TARGET] == 33562789
    ensures SlotAt(CFG, 0, Methods(), 3) == 16777336
  {
    hide VisitMethod, AlignCode, SlotOf, KeyOf, EndInit, Codes;
    var items := Methods();
    var s0 := InitialLayout(0);
    var s1 := VisitMethod(CFG, s0, items[0]);
    var s2 := VisitMethod(CFG, s1, items[1]);
    var s3 := VisitMethod(CFG, s2, items[2]);
    var s4 := VisitMethod(CFG, s3, items[3]);
    var s5 := VisitMethod(CFG, s4, items[4]);
    FirstMethod();
    SecondMethod(s1);
    ThirdMethod(s2);
    FourthMethod(s3);
    FifthMethod(s4);
    SixthMethod(s5);
    NoFinalThunk(VisitMethod(CFG, s5, items[5]));
    assert Reached(CFG, 0, items, 0) == s0 by { assert items[..0] == []; }
    ReachedNext(CFG, 0, items, 0);
    ReachedNext(CFG, 0, items, 1);
    ReachedNext(CFG, 0, items, 2);
    ReachedNext(CFG, 0, items, 3);
    ReachedNext(CFG, 0, items, 4);
    ReachedNext(CFG, 0, items, 5);
    assert items[..6] == items;
  }

  lemma MethodsWithinReach(i: nat)
    requires i < 6
    ensures WithinReach(CFG, Methods()[i].m)
    ensures forall p :: p in Methods()[i].m.patches ==> p.target == TARGET
  {
    assert ThunkSpan(CFG) == 8;
    var patches := Methods()[i].m.patches;
    assert patches == [] || patches == [EARLY] || patches == [SHARED] || patches == [STRANDED];
  }

  /**
   Every condition of the reach theorem holds but the one about shared code, and the fourth
   method's call is in range of neither its target nor a thunk.
   */
  lemma SharedCallStrandsAnother()
    ensures forall i :: 0 <= i < |Methods()| ==> WithinReach(CFG, Methods()[i].m)
    ensures forall i, p :: 0 <= i < |Methods()| && p in Methods()[i].m.patches ==> p.target == Methods()[5].m.ref
    ensures Final(CFG, 0, Methods()).reserved.offset + 16 <= OFFSET_LIMIT
    ensures Deduplicated(Methods(), 2) && SHARED in Methods()[2].m.patches && !Deduplicated(Methods(), 3)
    ensures STRANDED in Methods()[3].m.patches
    ensures var layout := Final(CFG, 0, Methods());
            !Reaches(Thumb2, layout.reserved.thunks, layout.known,
                     PendingCall(TARGET, SlotAt(CFG, 0, Methods(), 3) + HEADER_SIZE + STRANDED.literalOffset))
  {
    hide Final, SlotAt, WithinReach, VisitMethod;
    SharedLayout();
    forall i | 0 <= i < |Methods()|
      ensures WithinReach(CFG, Methods()[i].m)
      ensures forall p :: p in Methods()[i].m.patches ==> p.target == TARGET
    {
      MethodsWithinReach(i);
    }
    assert KeyOf(Methods()[1].m) == KeyOf(Methods()[2].m);
    assert KeyOf(Methods()[3].m).code.address == 13;
    assert Methods()[2].m.patches == [SHARED] && Methods()[3].m.patches == [STRANDED];
  }
}
