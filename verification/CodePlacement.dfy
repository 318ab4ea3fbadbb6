/**
 What the agreement of the two passes means for each method and each thunk: where its bytes are in
 the written code, and which methods have bytes of their own.
 */
module CodePlacement {
  import opened Words
  import opened RelativeCalls
  import opened CodeLayout
  import opened CodeWriting
  import opened CodeAgreement

  /** The init pass when it reaches method `i`, from the start of the code section. */
  function Reached(cfg: Config, start: nat, items: seq<Item>, i: nat): Layout
    requires i <= |items|
  {
    StateAt(cfg, InitialLayout(start), items, i)
  }

  lemma ReachedNext(cfg: Config, start: nat, items: seq<Item>, i: nat)
    requires i < |items|
    ensures Reached(cfg, start, items, i + 1) == VisitMethod(cfg, Reached(cfg, start, items, i), items[i])
  {
    VisitAllSplit(cfg, InitialLayout(start), items[..i], [items[i]]);
    assert items[..i + 1] == items[..i] + [items[i]];
  }

  lemma {:induction false} VisitAllSplit(cfg: Config, s: Layout, a: seq<Item>, b: seq<Item>)
    ensures VisitAll(cfg, s, a + b) == VisitAll(cfg, VisitAll(cfg, s, a), b)
    decreases |a|
  {
    hide VisitMethod;
    if a == [] {
      assert a + b == b;
    } else {
      VisitAllSplit(cfg, VisitMethod(cfg, s, a[0]), a[1..], b);
      assert (a + b)[1..] == a[1..] + b;
    }
  }

  /** An earlier method has the same code, maps and patches. */
  ghost predicate Deduplicated(items: seq<Item>, i: nat)
    requires i < |items|
  {
    exists j :: 0 <= j < i && KeyOf(items[j].m) == KeyOf(items[i].m)
  }

  /** The dedupe map knows exactly the keys seen so far, each with the offset of its first method. */
  ghost predicate DedupeRecords(s: Layout, items: seq<Item>, i: nat)
    requires i <= |items| && i <= |s.entries|
  {
    && (forall j :: 0 <= j < i ==> KeyOf(items[j].m) in s.dedupe)
    && (forall j :: 0 <= j < i ==> s.entries[j].codeOffset == s.dedupe[KeyOf(items[j].m)])
    && (forall key :: key in s.dedupe ==> exists j :: 0 <= j < i && KeyOf(items[j].m) == key)
  }

  lemma DedupeStep(s: Layout, s': Layout, items: seq<Item>, i: nat, codeOffset: nat)
    requires i < |items| && |s.entries| == i && DedupeRecords(s, items, i)
    requires |s'.entries| == i + 1 && s'.entries[..i] == s.entries && s'.entries[i].codeOffset == codeOffset
    requires var key := KeyOf(items[i].m);
             if key in s.dedupe then s'.dedupe == s.dedupe && codeOffset == s.dedupe[key]
             else s'.dedupe == s.dedupe[key := codeOffset]
    ensures DedupeRecords(s', items, i + 1)
  {
  }

  lemma VisitRecords(cfg: Config, s: Layout, item: Item)
    ensures var s' := VisitMethod(cfg, s, item);
            var codeOffset := CodeOffsetOf(cfg, s, item.m);
            && |s'.entries| == |s.entries| + 1
            && s'.entries[..|s.entries|] == s.entries
            && s'.entries[|s.entries|].codeOffset == codeOffset
            && (if KeyOf(item.m) in s.dedupe then s'.dedupe == s.dedupe && codeOffset == s.dedupe[KeyOf(item.m)]
                else s'.dedupe == s.dedupe[KeyOf(item.m) := codeOffset])
  {
  }

  lemma {:induction false} DedupeIsExact(cfg: Config, start: nat, items: seq<Item>, i: nat)
    requires i <= |items|
    ensures |Reached(cfg, start, items, i).entries| == i
    ensures DedupeRecords(Reached(cfg, start, items, i), items, i)
  {
    hide VisitMethod, CodeOffsetOf, KeyOf;
    if i == 0 {
      assert items[..0] == [];
    } else {
      DedupeIsExact(cfg, start, items, i - 1);
      var s := Reached(cfg, start, items, i - 1);
      ReachedNext(cfg, start, items, i - 1);
      VisitRecords(cfg, s, items[i - 1]);
      hide DedupeRecords, Reached;
      DedupeStep(s, Reached(cfg, start, items, i), items, i - 1, CodeOffsetOf(cfg, s, items[i - 1].m));
    }
  }

  /** Shared exactly when deduplicated. */
  lemma SharesExactly(cfg: Config, start: nat, items: seq<Item>, i: nat)
    requires i < |items|
    ensures Shares(Reached(cfg, start, items, i), items[i].m) <==> Deduplicated(items, i)
  {
    DedupeIsExact(cfg, start, items, i);
  }

  ghost predicate ThunksBehind(s: Layout)
  {
    forall k :: 0 <= k < |s.reserved.thunks| ==> s.reserved.thunks[k] <= s.reserved.offset
  }

  lemma {:induction false} ReachedThunksBehind(cfg: Config, start: nat, items: seq<Item>, i: nat)
    requires i <= |items|
    ensures ThunksBehind(Reached(cfg, start, items, i))
    ensures start <= Reached(cfg, start, items, i).reserved.offset
  {
    hide VisitMethod;
    if i > 0 {
      ReachedThunksBehind(cfg, start, items, i - 1);
      ReachedNext(cfg, start, items, i - 1);
      StepPlaces(cfg, Reached(cfg, start, items, i - 1), items[i - 1]);
    }
  }

  /** How many thunks precede method `i`. */
  function ThunksBefore(cfg: Config, start: nat, items: seq<Item>, i: nat): nat
    requires i < |items|
  {
    |Reached(cfg, start, items, i + 1).reserved.thunks|
  }

  /** Where method `i` begins (its header), if it has code of its own. */
  function SlotAt(cfg: Config, start: nat, items: seq<Item>, i: nat): nat
    requires i < |items|
  {
    SlotOf(cfg, Reached(cfg, start, items, i), items[i].m)
  }

  function Final(cfg: Config, start: nat, items: seq<Item>): Layout
  {
    InitPass(cfg, start, items)
  }

  /** The recorded entry of method `i` is the one made when it was visited. */
  lemma EntryOf(cfg: Config, start: nat, items: seq<Item>, i: nat)
    requires i < |items|
    ensures |Final(cfg, start, items).entries| == |items|
    ensures |Reached(cfg, start, items, i).entries| == i
    ensures Final(cfg, start, items).entries[i] == VisitMethod(cfg, Reached(cfg, start, items, i), items[i]).entries[i]
  {
    hide VisitMethod;
    var s0 := InitialLayout(start);
    EntriesGrow(cfg, s0, items);
    EntriesGrow(cfg, s0, items[..i]);
    StateAtThenRest(cfg, s0, items, i);
    EntriesGrow(cfg, Reached(cfg, start, items, i), items[i..]);
  }

  // ---------------------------------------------------------------- where methods are known to be

  /** The method map knows exactly the methods visited. */
  lemma {:induction false} KnownExactly(cfg: Config, start: nat, items: seq<Item>, i: nat, ref: MethodRef)
    requires i <= |items|
    ensures ref in Reached(cfg, start, items, i).known <==> exists k :: 0 <= k < i && items[k].m.ref == ref
  {
    hide ReserveSpace, CompleteHeader, CodeOffsetOf, SlotOf, Reached;
    if i == 0 {
      NothingKnown(cfg, start, items);
    } else {
      KnownExactly(cfg, start, items, i - 1, ref);
      ReachedNext(cfg, start, items, i - 1);
    }
  }

  lemma NothingKnown(cfg: Config, start: nat, items: seq<Item>)
    ensures Reached(cfg, start, items, 0).known == map[]
  {
  }

  /** A later definition of the same method does not change what is known. */
  lemma {:induction false} KnownStays(cfg: Config, start: nat, items: seq<Item>, j: nat, i: nat)
    requires j < i <= |items| && forall k :: 0 <= k < j ==> items[k].m.ref != items[j].m.ref
    ensures var known := Reached(cfg, start, items, i).known;
            items[j].m.ref in known &&
            known[items[j].m.ref] == CodeOffsetOf(cfg, Reached(cfg, start, items, j), items[j].m)
  {
    hide ReserveSpace, CompleteHeader, CodeOffsetOf, SlotOf, Reached;
    ReachedNext(cfg, start, items, i - 1);
    if j == i - 1 {
      KnownExactly(cfg, start, items, j, items[j].m.ref);
    } else {
      KnownStays(cfg, start, items, j, i - 1);
    }
  }

  /** Calls are linked to the recorded offset of the first definition of their target. */
  lemma KnownIsFirstDefinition(cfg: Config, start: nat, items: seq<Item>, j: nat)
    requires j < |items| && forall k :: 0 <= k < j ==> items[k].m.ref != items[j].m.ref
    ensures |Final(cfg, start, items).entries| == |items|
    ensures var layout := Final(cfg, start, items);
            items[j].m.ref in layout.known && layout.known[items[j].m.ref] == layout.entries[j].codeOffset
  {
    hide ReserveSpace, CompleteHeader, CodeOffsetOf, SlotOf, ReserveFinal;
    EntryOf(cfg, start, items, j);
    KnownStays(cfg, start, items, j, |items|);
    assert items[..|items|] == items;
  }

  /** Every thunk lies before method `i`'s slot, or after its last byte. */
  lemma ThunksAroundMethod(cfg: Config, start: nat, items: seq<Item>, i: nat)
    requires ValidItems(items) && i < |items| && !Deduplicated(items, i)
    ensures var thunks := Final(cfg, start, items).reserved.thunks;
            var n := ThunksBefore(cfg, start, items, i);
            var slot := SlotAt(cfg, start, items, i);
            && n <= |thunks|
            && (forall k :: 0 <= k < n ==> thunks[k] <= slot)
            && (forall k :: n <= k < |thunks| ==> slot + HEADER_SIZE + |items[i].m.code.bytes| <= thunks[k])
  {
    hide ReserveSpace, CompleteHeader, AlignCode, SlotOf;
    var s := Reached(cfg, start, items, i);
    var s' := Reached(cfg, start, items, i + 1);
    var s0 := InitialLayout(start);
    var thunks := FinalThunks(cfg, s0, items);
    var slot := SlotAt(cfg, start, items, i);
    ReachedNext(cfg, start, items, i);
    SharesExactly(cfg, start, items, i);
    ReachedThunksBehind(cfg, start, items, i);
    StepPlaces(cfg, s, items[i]);
    StateAtThenRest(cfg, s0, items, i + 1);
    ThunksGrow(cfg, s', items[i + 1..]);
    forall k | |s'.reserved.thunks| <= k < |thunks|
      ensures slot + HEADER_SIZE + |items[i].m.code.bytes| <= thunks[k]
    {
      FutureThunks(cfg, s', items[i + 1..], k);
    }
  }

  /** Everything the file holds for method `i`, and where. */
  ghost predicate WrittenAt(cfg: Config, link: Link, start: nat, items: seq<Item>, i: nat, out: Output)
    requires ValidItems(items) && i < |items|
  {
    var layout := Final(cfg, start, items);
    var slot := SlotAt(cfg, start, items, i);
    var n := ThunksBefore(cfg, start, items, i);
    var m := items[i].m;
    && |layout.entries| == |items| && n <= |link.thunks|
    && layout.entries[i].codeOffset == slot + HEADER_SIZE + CodeDelta(cfg.isa)
    && Holds(out.bytes, slot - start, MethodBytes(cfg, link, n, slot, m, layout.entries[i].header))
  }

  /**
   A method that is the first with its key is written, header and patched code, exactly at the
   offset recorded for it; any other method got the offset of the first one with its key.
   */
  lemma MethodsWrittenWhereRecorded(cfg: Config, link: Link, start: nat, items: seq<Item>, i: nat)
    requires ValidItems(items) && i < |items|
    requires link.thunks == Final(cfg, start, items).reserved.thunks
    ensures var layout := Final(cfg, start, items);
            && |layout.entries| == |items|
            && (if Deduplicated(items, i)
                then forall j :: 0 <= j < i && KeyOf(items[j].m) == KeyOf(items[i].m)
                                 ==> layout.entries[i].codeOffset == layout.entries[j].codeOffset
                else WrittenAt(cfg, link, start, items, i, WritePass(cfg, link, start, items, layout.entries)))
  {
    EntryOf(cfg, start, items, i);
    if Deduplicated(items, i) {
      forall j | 0 <= j < i && KeyOf(items[j].m) == KeyOf(items[i].m)
        ensures Final(cfg, start, items).entries[i].codeOffset == Final(cfg, start, items).entries[j].codeOffset
      {
        SharedOffset(cfg, start, items, j, i);
      }
    } else {
      WrittenWhereRecorded(cfg, link, start, items, i);
    }
  }

  lemma SharedOffset(cfg: Config, start: nat, items: seq<Item>, j: nat, i: nat)
    requires j < i < |items| && KeyOf(items[j].m) == KeyOf(items[i].m)
    ensures |Final(cfg, start, items).entries| == |items|
    ensures Final(cfg, start, items).entries[i].codeOffset == Final(cfg, start, items).entries[j].codeOffset
  {
    hide ReserveSpace, CompleteHeader, KeyOf, SlotOf, Reached, Final;
    EntryOf(cfg, start, items, i);
    DedupeIsExact(cfg, start, items, i);
    EntryStays(cfg, start, items, j, i);
  }

  lemma WrittenWhereRecorded(cfg: Config, link: Link, start: nat, items: seq<Item>, i: nat)
    requires ValidItems(items) && i < |items| && !Deduplicated(items, i)
    requires link.thunks == Final(cfg, start, items).reserved.thunks
    ensures |Final(cfg, start, items).entries| == |items|
    ensures WrittenAt(cfg, link, start, items, i, WritePass(cfg, link, start, items, Final(cfg, start, items).entries))
  {
    hide VisitMethod, KeyOf, SlotOf, Reached, MethodBytes, WritePass, Planned, EndInit, ValidItems, Deduplicated,
      Holds, InitPass;
    EntryOf(cfg, start, items, i);
    VisitRecords(cfg, Reached(cfg, start, items, i), items[i]);
    SharesExactly(cfg, start, items, i);
    WritePassAgrees(cfg, link, start, items);
    PlannedSlot(cfg, link, start, items, i);
  }

  lemma EntryStays(cfg: Config, start: nat, items: seq<Item>, j: nat, i: nat)
    requires j < i < |items|
    ensures |Reached(cfg, start, items, i).entries| == i
    ensures |Final(cfg, start, items).entries| == |items|
    ensures Final(cfg, start, items).entries[j] == Reached(cfg, start, items, i).entries[j]
  {
    hide VisitMethod, ReserveFinal;
    var s0 := InitialLayout(start);
    EntriesGrow(cfg, s0, items);
    EntriesGrow(cfg, s0, items[..i]);
    StateAtThenRest(cfg, s0, items, i);
    EntriesGrow(cfg, Reached(cfg, start, items, i), items[i..]);
    assert Reached(cfg, start, items, i).entries == VisitAll(cfg, s0, items).entries[..i];
  }

  /** The method's bytes inside the planned image. */
  lemma PlannedSlot(cfg: Config, link: Link, start: nat, items: seq<Item>, i: nat)
    requires ValidItems(items) && i < |items| && !Deduplicated(items, i)
    requires link.thunks == Final(cfg, start, items).reserved.thunks
    ensures ThunksBefore(cfg, start, items, i) <= |link.thunks|
    ensures |Final(cfg, start, items).entries| == |items|
    ensures var slot := SlotAt(cfg, start, items, i);
            Holds(Planned(cfg, link, InitialLayout(start), items), slot - start,
                  MethodBytes(cfg, link, ThunksBefore(cfg, start, items, i), slot, items[i].m,
                              Final(cfg, start, items).entries[i].header))
  {
    hide VisitMethod, SlotOf, MethodBytes, PlannedStep, Deduplicated, KeyOf, ReserveFinal;
    var s0 := InitialLayout(start);
    var s, s' := Reached(cfg, start, items, i), Reached(cfg, start, items, i + 1);
    EntryOf(cfg, start, items, i);
    SharesExactly(cfg, start, items, i);
    ReachedNext(cfg, start, items, i);
    StateAtThenRest(cfg, s0, items, i);
    StateAtThenRest(cfg, s0, items, i + 1);
    ThunksGrow(cfg, s', items[i + 1..]);
    PlannedAt(cfg, link, s0, items, i);
    assert items[i..][0] == items[i] && items[i..][1..] == items[i + 1..];
    StepOfNew(cfg, link, s, items[i]);
    var body := MethodBytes(cfg, link, |s'.reserved.thunks|, SlotOf(cfg, s, items[i].m), items[i].m,
                            s'.entries[i].header);
    SliceInside(Planned(cfg, link, s0, items), s.reserved.offset - start,
                PlannedLead(cfg, s.reserved.offset, Inserts(cfg, s, items[i])), body,
                Planned(cfg, link, s', items[i + 1..]));
  }

  lemma StepOfNew(cfg: Config, link: Link, s: Layout, item: Item)
    requires ValidMethod(item.m) && !Shares(s, item.m)
    requires |VisitMethod(cfg, s, item).reserved.thunks| <= |link.thunks|
    ensures var s' := VisitMethod(cfg, s, item);
            var lead := PlannedLead(cfg, s.reserved.offset, Inserts(cfg, s, item));
            && |s'.entries| == |s.entries| + 1
            && PlannedStep(cfg, link, s, item) ==
               lead + MethodBytes(cfg, link, |s'.reserved.thunks|, SlotOf(cfg, s, item.m), item.m,
                                  s'.entries[|s.entries|].header)
            && s.reserved.offset + |lead| == SlotOf(cfg, s, item.m)
  {
    hide ReserveSpace, CompleteHeader, AlignCode, SlotOf, MethodBytes;
    StepPlaces(cfg, s, item);
  }

  lemma SliceInside(bytes: seq<byte>, skip: nat, lead: seq<byte>, body: seq<byte>, rest: seq<byte>)
    requires skip <= |bytes| && bytes[skip..] == lead + body + rest
    ensures Holds(bytes, skip + |lead|, body)
  {
  }

  /** A thunk reserved from here on is in the planned bytes, at its place. */
  lemma {:induction false} ThunkPlanned(cfg: Config, link: Link, s: Layout, items: seq<Item>, k: nat)
    requires ValidItems(items) && link.thunks == FinalThunks(cfg, s, items)
    requires |s.reserved.thunks| <= k < |link.thunks|
    ensures Holds(Planned(cfg, link, s, items), link.thunks[k] - s.reserved.offset, cfg.thunkCode)
    decreases |items|
  {
    hide VisitMethod, PlannedStep, PlannedLead, PlannedEnd, EndInit, AlignCode, Holds;
    if items == [] {
      EndHoldsThunk(cfg, s);
    } else {
      var s' := VisitMethod(cfg, s, items[0]);
      ThunksGrow(cfg, s', items[1..]);
      StepPlaces(cfg, s, items[0]);
      PlannedStepLength(cfg, link, s, items[0]);
      var step, rest := PlannedStep(cfg, link, s, items[0]), Planned(cfg, link, s', items[1..]);
      if k < |s'.reserved.thunks| {
        LeadHoldsThunk(cfg, s.reserved.offset);
        StepHoldsLead(cfg, link, s, items[0], link.thunks[k] - s.reserved.offset);
        HoldsInSum(step, rest, link.thunks[k] - s.reserved.offset, cfg.thunkCode);
      } else {
        ThunkPlanned(cfg, link, s', items[1..], k);
        HoldsInSum(step, rest, link.thunks[k] - s'.reserved.offset, cfg.thunkCode);
      }
    }
  }

  lemma EndHoldsThunk(cfg: Config, s: Layout)
    ensures var end := EndInit(cfg, s).reserved.thunks;
            && |s.reserved.thunks| <= |end| <= |s.reserved.thunks| + 1
            && (|s.reserved.thunks| < |end| ==>
                  Holds(PlannedEnd(cfg, s), end[|s.reserved.thunks|] - s.reserved.offset, cfg.thunkCode))
  {
    hide ProcessPatches, AlignCode, Holds, PlannedLead;
    LeadHoldsThunk(cfg, s.reserved.offset);
  }

  lemma LeadHoldsThunk(cfg: Config, offset: nat)
    ensures Holds(PlannedLead(cfg, offset, true), AlignCode(offset, cfg.isa) - offset, cfg.thunkCode)
  {
  }

  lemma StepHoldsLead(cfg: Config, link: Link, s: Layout, item: Item, at: int)
    requires ValidMethod(item.m) && |VisitMethod(cfg, s, item).reserved.thunks| <= |link.thunks|
    requires Holds(PlannedLead(cfg, s.reserved.offset, Inserts(cfg, s, item)), at, cfg.thunkCode)
    ensures Holds(PlannedStep(cfg, link, s, item), at, cfg.thunkCode)
  {
    hide VisitMethod, PlannedLead, MethodBytes, Holds;
    var s' := VisitMethod(cfg, s, item);
    var lead := PlannedLead(cfg, s.reserved.offset, Inserts(cfg, s, item));
    HoldsInSum(lead, PlannedStep(cfg, link, s, item)[|lead|..], at, cfg.thunkCode);
    assert PlannedStep(cfg, link, s, item) == lead + PlannedStep(cfg, link, s, item)[|lead|..];
  }

  /** Every reserved thunk is in the written code, at the location reserved for it. */
  lemma ThunksWrittenWhereReserved(cfg: Config, link: Link, start: nat, items: seq<Item>, k: nat)
    requires ValidItems(items) && link.thunks == Final(cfg, start, items).reserved.thunks && k < |link.thunks|
    ensures |Final(cfg, start, items).entries| == |items|
    ensures var out := WritePass(cfg, link, start, items, Final(cfg, start, items).entries);
            Holds(out.bytes, link.thunks[k] - start, cfg.thunkCode)
  {
    hide Planned, WritePass, Holds, EndInit;
    WritePassAgrees(cfg, link, start, items);
    ThunkPlanned(cfg, link, InitialLayout(start), items, k);
  }
}
