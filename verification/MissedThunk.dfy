/**
 A file in which a call reaches a thunk and nothing else, and the patcher does not use the thunk:
 the thunk lies exactly the largest positive displacement away.
 */
module MissedThunk {
  import opened Words
  import opened RelativeCalls
  import opened CodeLayout
  import opened CodeWriting
  import opened CodeAgreement
  import opened CodePlacement
  import opened ThunkReach
  import opened CallsLand

  const CFG: Config := Config(Thumb2, Zeros(8), 0)

  /** Method `index`, with the code that stands at address `code`. */
  function Method(index: nat, code: nat, size: nat, patches: seq<LinkerPatch>): (item: Item)
  {
    var noMap := Blob(0, []);
    var frame := FrameInfo(0, 0, 0);
    Item(CompiledMethod(MethodRef(0, index), Blob(code, Zeros(size)), noMap, noMap, None, frame, patches),
         MethodHeader(0, 0, 0, frame, 0))
  }

  const CALL: LinkerPatch := LinkerPatch(2, CallRelativePatch, MethodRef(0, 2))

  /** A caller, a method that fills the range of its call, and the callee. */
  function Items(): (items: seq<Item>)
    ensures |items| == 3
  {
    [Method(0, 0, 1000, [CALL]), Method(1, 1, 16776188, []), Method(2, 2, 8, [])]
  }

  const THUNK: nat := 0x100_0020

  lemma FirstVisit()
    ensures var s := VisitMethod(CFG, InitialLayout(0), Items()[0]);
            && SlotOf(CFG, InitialLayout(0), Items()[0].m) == 0
            && s.reserved == Reservation(1028, [], [PendingCall(MethodRef(0, 2), 30)])
            && s.known == map[MethodRef(0, 0) := 29] && |s.entries| == 1
            && s.dedupe.Keys == {KeyOf(Items()[0].m)}
  {
    assert RelativeCallsOf([CALL], 28) == [PendingCall(MethodRef(0, 2), 30)] + RelativeCallsOf([CALL][1..], 28);
  }

  lemma SecondVisit(s: Layout)
    requires s.reserved == Reservation(1028, [], [PendingCall(MethodRef(0, 2), 30)])
    requires s.known == map[MethodRef(0, 0) := 29] && s.dedupe.Keys == {KeyOf(Items()[0].m)}
    ensures var s' := VisitMethod(CFG, s, Items()[1]);
            && s'.reserved == Reservation(THUNK, [], [PendingCall(MethodRef(0, 2), 30)])
            && s'.known == map[MethodRef(0, 0) := 29, MethodRef(0, 1) := 1061] && |s'.entries| == |s.entries| + 1
            && s'.dedupe.Keys == {KeyOf(Items()[0].m), KeyOf(Items()[1].m)}
  {
    hide ProcessPatches;
    assert RelativeCallsOf(Items()[1].m.patches, 1060) == [];
    assert KeyOf(Items()[0].m).code.address != KeyOf(Items()[1].m).code.address;
    assert AlignCode(1028, Thumb2) == 1032;
    assert AlignCode(THUNK, Thumb2) == THUNK;
    assert THUNK - 30 == MaxPositive(Thumb2);
  }

  lemma ThirdVisit(s: Layout)
    requires s.reserved == Reservation(THUNK, [], [PendingCall(MethodRef(0, 2), 30)])
    requires s.known == map[MethodRef(0, 0) := 29, MethodRef(0, 1) := 1061]
    requires s.dedupe.Keys == {KeyOf(Items()[0].m), KeyOf(Items()[1].m)}
    ensures var s' := VisitMethod(CFG, s, Items()[2]);
            && s'.reserved == Reservation(THUNK + 44, [THUNK], [])
            && s'.known == map[MethodRef(0, 0) := 29, MethodRef(0, 1) := 1061, MethodRef(0, 2) := THUNK + 37]
            && |s'.entries| == |s.entries| + 1
  {
    assert RelativeCallsOf(Items()[2].m.patches, THUNK + 28) == [];
    assert KeyOf(Items()[2].m).code.address == 2;
    assert AlignCode(THUNK, Thumb2) == THUNK && AlignCode(THUNK + 8, Thumb2) == THUNK + 8;
    assert AlignCode(THUNK + 36, Thumb2) == THUNK + 40;
    assert ProcessPatches(Thumb2, [], [PendingCall(MethodRef(0, 2), 30)], s.known, THUNK + 40).0;
  }

  /** The layout of the three methods. */
  lemma TheLayout()
    ensures var layout := Final(CFG, 0, Items());
            && layout.reserved.thunks == [THUNK] && layout.reserved.offset == THUNK + 44
            && layout.known == map[MethodRef(0, 0) := 29, MethodRef(0, 1) := 1061, MethodRef(0, 2) := THUNK + 37]
    ensures SlotAt(CFG, 0, Items(), 0) == 0 && ThunksBefore(CFG, 0, Items(), 0) == 0
  {
    hide VisitMethod, AlignCode, SlotOf, KeyOf;
    var s0, items := InitialLayout(0), Items();
    var s1 := VisitMethod(CFG, s0, items[0]);
    FirstVisit();
    SecondVisit(s1);
    var s2 := VisitMethod(CFG, s1, items[1]);
    ThirdVisit(s2);
    assert items[1..][1..] == [items[2]] && items[1..][0] == items[1];
    ReachedNext(CFG, 0, items, 0);
    assert items[..0] == [];
  }

  lemma KeysDiffer(i: nat)
    requires i < 3
    ensures !Deduplicated(Items(), i)
  {
  }

  lemma WithinLimits(i: nat)
    requires i < 3
    ensures WithinReach(CFG, Items()[i].m)
    ensures forall p :: p in Items()[i].m.patches ==> p == CALL
  {
    assert ThunkSpan(CFG) == 8;
    assert Items()[0].m.patches == [CALL] && Items()[1].m.patches == [] && Items()[2].m.patches == [];
    assert forall p :: p in Items()[i].m.patches ==> p == CALL;
  }

  lemma ReachApplies()
    ensures ReachInput(CFG, 0, Items())
  {
    hide VisitMethod, AlignCode, Final, WithinReach, Deduplicated;
    TheLayout();
    forall i | 0 <= i < |Items()|
      ensures WithinReach(CFG, Items()[i].m) && !Deduplicated(Items(), i)
      ensures forall p :: p in Items()[i].m.patches ==> p == CALL
    {
      KeysDiffer(i);
      WithinLimits(i);
    }
    assert Items()[2].m.ref == CALL.target;
  }

  /**
   The whole of the reach guarantee holds, the call is an ordinary one and a thunk is within its
   range; still no displacement is found for it.
   */
  lemma ThunkAtTheLimitIsMissed(link: Link)
    requires LinkMatches(CFG, link, 0, Items())
    ensures ReachInput(CFG, 0, Items()) && IsCall(CFG, link, 0, Items(), 0, 0)
    ensures Place(CFG, 0, Items(), 0, CALL) == 30 && InRange(Thumb2, 30, THUNK) && THUNK in link.thunks
    ensures CalculateDisplacement(Thumb2, link.thunks, 0, 30, ClearLowBit(TargetOffset(link, CALL))) == None
  {
    hide VisitMethod, AlignCode, Final, WithinReach, Deduplicated, ReachInput, SlotAt, ThunksBefore, ValidItems;
    TheLayout();
    ReachApplies();
    KeysDiffer(0);
    assert ValidItems(Items()) by { AllValid(); }
    assert Items()[0].m.patches == [CALL];
    assert ClearLowBit(THUNK + 37) == THUNK + 36;
  }

  lemma AllValid()
    ensures ValidItems(Items())
  {
  }
}
