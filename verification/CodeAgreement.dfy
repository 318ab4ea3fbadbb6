/**
 The write pass reproduces the init pass: same bytes at the same offsets, every thunk written once,
 exactly the methods with new code written, also when a thunk is written ahead of the method it was
 reserved for because the methods in between share code.
 */
module CodeAgreement {
  import opened Words
  import opened RelativeCalls
  import opened CodeLayout
  import opened CodeWriting

  function FinalThunks(cfg: Config, s: Layout, items: seq<Item>): seq<nat>
  {
    EndInit(cfg, VisitAll(cfg, s, items)).reserved.thunks
  }

  lemma AlignShift(base: nat, x: nat, isa: Isa)
    requires Aligned(base, isa)
    ensures AlignCode(base + x, isa) == base + AlignCode(x, isa)
    ensures Aligned(x, isa) ==> Aligned(base + x, isa)
  {
    if isa.Thumb2? {
      ShiftMod8(base, x);
    } else {
      ShiftMod16(base, x);
    }
  }

  lemma ShiftMod8(base: nat, x: nat)
    requires base % 8 == 0
    ensures (base + x) % 8 == x % 8
  {
  }

  lemma ShiftMod16(base: nat, x: nat)
    requires base % 16 == 0
    ensures (base + x) % 16 == x % 16
  {
    var k := MultipleOf(base, 16);
    assert (16 * k + x) % 16 == x % 16;
  }

  lemma MultipleOf(a: nat, n: nat) returns (k: nat)
    requires n > 0 && a % n == 0
    ensures a == n * k
  {
    k := a / n;
  }

  /** What one step of the init pass does to the offset and the thunks. */
  lemma StepPlaces(cfg: Config, s: Layout, item: Item)
    ensures var s' := VisitMethod(cfg, s, item);
            var at := AlignCode(s.reserved.offset, cfg.isa);
            var slot := SlotOf(cfg, s, item.m);
            && Aligned(at, cfg.isa) && Aligned(slot, cfg.isa)
            && (if |s.reserved.thunks| < |s'.reserved.thunks|
                then s'.reserved.thunks == s.reserved.thunks + [at] && slot == at + ThunkSpan(cfg)
                else s'.reserved.thunks == s.reserved.thunks && slot == at)
            && s'.reserved.offset ==
               (if Shares(s, item.m) then slot else slot + HEADER_SIZE + |item.m.code.bytes|)
  {
    AlignShift(AlignCode(s.reserved.offset, cfg.isa), |cfg.thunkCode|, cfg.isa);
    hide ProcessPatches, Aligned, AlignCode;
  }

  /** Thunks reserved from here on lie at or after the next aligned offset. */
  lemma {:induction false} FutureThunks(cfg: Config, s: Layout, items: seq<Item>, k: nat)
    requires |s.reserved.thunks| <= k < |FinalThunks(cfg, s, items)|
    ensures AlignCode(s.reserved.offset, cfg.isa) <= FinalThunks(cfg, s, items)[k]
    decreases |items|
  {
    if items != [] {
      var s' := VisitMethod(cfg, s, items[0]);
      StepPlaces(cfg, s, items[0]);
      ThunksGrow(cfg, s', items[1..]);
      if |s'.reserved.thunks| <= k {
        FutureThunks(cfg, s', items[1..], k);
      }
    }
  }

  /** Recorded code offsets of finished methods lie strictly behind the next aligned offset. */
  ghost predicate CodeBehind(cfg: Config, s: Layout)
  {
    forall key :: key in s.dedupe ==> s.dedupe[key] < AlignCode(s.reserved.offset, cfg.isa)
  }

  lemma StepKeepsCodeBehind(cfg: Config, s: Layout, item: Item)
    requires CodeBehind(cfg, s) && ValidMethod(item.m)
    ensures CodeBehind(cfg, VisitMethod(cfg, s, item))
  {
    StepPlaces(cfg, s, item);
    CodeBeforeEnd(SlotOf(cfg, s, item.m), |item.m.code.bytes|, cfg.isa);
    hide Aligned, AlignCode, ReserveSpace, CompleteHeader;
  }

  lemma CodeBeforeEnd(slot: nat, size: nat, isa: Isa)
    requires Aligned(slot, isa) && size > 0
    ensures slot + HEADER_SIZE + CodeDelta(isa) < AlignCode(slot + HEADER_SIZE + size, isa)
  {
  }

  function Repeat(chunk: seq<byte>, n: nat): seq<byte>
  {
    if n == 0 then [] else chunk + Repeat(chunk, n - 1)
  }

  lemma {:induction false} RepeatAppends(chunk: seq<byte>, n: nat)
    ensures Repeat(chunk, n) + chunk == Repeat(chunk, n + 1)
  {
    if n != 0 {
      RepeatAppends(chunk, n - 1);
      assert Repeat(chunk, n) + chunk == chunk + (Repeat(chunk, n - 1) + chunk);
    }
  }

  /**
   The write pass is where the init pass was after `n` thunks at `offset`, or `ahead` back-to-back
   thunks further; `plan` is what the init pass has accounted for.
   */
  ghost predicate InSync(cfg: Config, thunks: seq<nat>, n: nat, offset: nat, w: Output, ahead: nat, plan: seq<byte>)
  {
    && w.nextThunk == n + ahead <= |thunks|
    && w.bytes == plan + Repeat(ThunkChunk(cfg), ahead)
    && offset <= w.offset
    && (if ahead == 0 then
          w.offset == offset
        else
          && thunks[n] == offset && Aligned(offset, cfg.isa)
          && (forall k :: n < k < n + ahead ==> thunks[k] == thunks[k - 1] + ThunkSpan(cfg))
          && w.offset == thunks[n + ahead - 1] + ThunkSpan(cfg) && Aligned(w.offset, cfg.isa))
  }

  /** WriteThunks as one chunk after the padding. */
  lemma WriteThunksChunk(cfg: Config, thunks: seq<nat>, w: Output)
    requires w.nextThunk <= |thunks|
    ensures var at := AlignCode(w.offset, cfg.isa);
            WriteThunks(cfg, thunks, w) ==
            if w.nextThunk < |thunks| && thunks[w.nextThunk] == at then
              Output(at + ThunkSpan(cfg), w.nextThunk + 1, w.bytes + Zeros(at - w.offset) + ThunkChunk(cfg))
            else w
  {
    var at := AlignCode(w.offset, cfg.isa);
    AlignShift(at, |cfg.thunkCode|, cfg.isa);
    assert w.bytes + Zeros(at - w.offset) + cfg.thunkCode + Zeros(ThunkSpan(cfg) - |cfg.thunkCode|)
        == w.bytes + Zeros(at - w.offset) + ThunkChunk(cfg);
  }

  function Slot(cfg: Config, offset: nat, inserted: bool): nat
  {
    AlignCode(offset, cfg.isa) + (if inserted then ThunkSpan(cfg) else 0)
  }

  /** WriteThunks either does nothing or gets one thunk further ahead. */
  lemma SyncWrites(cfg: Config, thunks: seq<nat>, n: nat, offset: nat, w: Output, ahead: nat, plan: seq<byte>)
    requires InSync(cfg, thunks, n, offset, w, ahead, plan)
    ensures var at := AlignCode(offset, cfg.isa);
            var next := AlignCode(w.offset, cfg.isa);
            var written := n + ahead < |thunks| && thunks[n + ahead] == next;
            InSync(cfg, thunks, n, at, WriteThunksAndAlign(cfg, thunks, w), if written then ahead + 1 else ahead,
                   plan + Zeros(at - offset))
  {
    hide Aligned, AlignCode, WriteThunks, ThunkChunk;
    var chunk := ThunkChunk(cfg);
    var next := AlignCode(w.offset, cfg.isa);
    WriteThunksChunk(cfg, thunks, w);
    AlignSum(next, cfg);
    var written := n + ahead < |thunks| && thunks[n + ahead] == next;
    var w' := WriteThunksAndAlign(cfg, thunks, w);
    var pad := Zeros(next - w.offset);
    assert w'.bytes == w.bytes + pad + (if written then chunk else []);
    RepeatAppends(chunk, ahead);
    assert plan + Repeat(chunk, ahead) + pad ==
           plan + Zeros(AlignCode(offset, cfg.isa) - offset) + Repeat(chunk, ahead);
    assert plan + pad + Repeat(chunk, ahead) + chunk == plan + pad + (Repeat(chunk, ahead) + chunk);
  }

  /** The init pass inserting a thunk catches up by one. */
  lemma SyncInserts(cfg: Config, thunks: seq<nat>, n: nat, offset: nat, w: Output, ahead: nat, plan: seq<byte>)
    requires ahead > 0 && InSync(cfg, thunks, n, offset, w, ahead, plan)
    ensures InSync(cfg, thunks, n + 1, offset + ThunkSpan(cfg), w, ahead - 1, plan + ThunkChunk(cfg))
  {
    hide Aligned, AlignCode, ThunkChunk;
    var chunk := ThunkChunk(cfg);
    AlignSum(offset, cfg);
    assert plan + (chunk + Repeat(chunk, ahead - 1)) == plan + chunk + Repeat(chunk, ahead - 1);
    if ahead > 1 {
      ChainGrows(thunks, ThunkSpan(cfg), n + 1, n + ahead - 1);
    }
  }

  /** From step to step the write pass may get ahead by the next thunk, or be caught up with. */
  lemma SyncLead(cfg: Config, thunks: seq<nat>, n: nat, offset: nat, w: Output, ahead: nat, plan: seq<byte>,
                 inserted: bool)
    returns (ahead': nat)
    requires InSync(cfg, thunks, n, offset, w, ahead, plan)
    requires inserted ==> n < |thunks| && thunks[n] == AlignCode(offset, cfg.isa)
    ensures InSync(cfg, thunks, if inserted then n + 1 else n, Slot(cfg, offset, inserted),
                   WriteThunksAndAlign(cfg, thunks, w), ahead', plan + PlannedLead(cfg, offset, inserted))
  {
    hide Aligned, AlignCode, WriteThunksAndAlign, ThunkChunk;
    var at, next := AlignCode(offset, cfg.isa), AlignCode(w.offset, cfg.isa);
    var lead := plan + Zeros(at - offset);
    SyncWrites(cfg, thunks, n, offset, w, ahead, plan);
    ahead' := if n + ahead < |thunks| && thunks[n + ahead] == next then ahead + 1 else ahead;
    if inserted {
      SyncInserts(cfg, thunks, n, at, WriteThunksAndAlign(cfg, thunks, w), ahead', lead);
      ahead' := ahead' - 1;
      assert lead + ThunkChunk(cfg) == plan + PlannedLead(cfg, offset, true);
    } else {
      assert lead == plan + PlannedLead(cfg, offset, false);
    }
  }

  lemma {:induction false} ChainGrows(thunks: seq<nat>, span: nat, first: nat, last: nat)
    requires first <= last < |thunks|
    requires forall k :: first < k <= last ==> thunks[k] == thunks[k - 1] + span
    ensures thunks[first] <= thunks[last]
    decreases last
  {
    if first < last {
      ChainGrows(thunks, span, first, last - 1);
    }
  }

  lemma AlignSum(base: nat, cfg: Config)
    requires Aligned(base, cfg.isa)
    ensures Aligned(base + ThunkSpan(cfg), cfg.isa)
  {
    AlignShift(base, |cfg.thunkCode|, cfg.isa);
  }

  /** Where the next method has code of its own no thunk has been written early. */
  lemma NotAheadOfCode(cfg: Config, s: Layout, rest: seq<Item>, slot: nat, n: nat, ahead: nat, thunks: seq<nat>,
                       w: Output, lead: seq<byte>)
    requires InSync(cfg, thunks, n, slot, w, ahead, lead)
    requires thunks == FinalThunks(cfg, s, rest) && n == |s.reserved.thunks| && slot < s.reserved.offset
    ensures ahead == 0
  {
    hide FinalThunks, Aligned, AlignCode, ThunkChunk;
    if ahead > 0 {
      FutureThunksFinal(cfg, s, rest, n);
    }
  }

  /** The write pass skips a method whose code lies behind. */
  lemma SyncShared(cfg: Config, link: Link, s: Layout, w: Output, ahead: nat, item: Item, lead: seq<byte>)
    requires ValidMethod(item.m) && CodeBehind(cfg, s) && Shares(s, item.m) && w.nextThunk <= |link.thunks|
    requires AlignCode(s.reserved.offset, cfg.isa) <= SlotOf(cfg, s, item.m)
    requires InSync(cfg, link.thunks, |VisitMethod(cfg, s, item).reserved.thunks|, SlotOf(cfg, s, item.m),
                    WriteThunksAndAlign(cfg, link.thunks, w), ahead, lead)
    ensures var s' := VisitMethod(cfg, s, item);
            InSync(cfg, link.thunks, |s'.reserved.thunks|, s'.reserved.offset,
                   WriteMethod(cfg, link, w, item.m, s'.entries[|s.entries|]), ahead, lead)
  {
    hide ReserveSpace, CompleteHeader, MethodBytes, Aligned, AlignCode, SlotOf, WriteThunksAndAlign, ThunkChunk;
  }

  /** The write pass writes a method of its own right where it stands. */
  lemma SyncNew(cfg: Config, link: Link, s: Layout, w: Output, item: Item, lead: seq<byte>)
    requires ValidMethod(item.m) && !Shares(s, item.m) && w.nextThunk <= |link.thunks|
    requires |VisitMethod(cfg, s, item).reserved.thunks| <= |link.thunks|
    requires InSync(cfg, link.thunks, |VisitMethod(cfg, s, item).reserved.thunks|, SlotOf(cfg, s, item.m),
                    WriteThunksAndAlign(cfg, link.thunks, w), 0, lead)
    ensures var s' := VisitMethod(cfg, s, item);
            var entry := s'.entries[|s.entries|];
            InSync(cfg, link.thunks, |s'.reserved.thunks|, s'.reserved.offset,
                   WriteMethod(cfg, link, w, item.m, entry), 0,
                   lead + MethodBytes(cfg, link, |s'.reserved.thunks|, SlotOf(cfg, s, item.m), item.m, entry.header))
  {
    hide ReserveSpace, CompleteHeader, MethodBytes, Aligned, AlignCode, SlotOf, WriteThunksAndAlign, ThunkChunk;
  }

  lemma SharedPlan(cfg: Config, link: Link, s: Layout, item: Item, plan: seq<byte>)
    requires ValidMethod(item.m) && Shares(s, item.m) && |VisitMethod(cfg, s, item).reserved.thunks| <= |link.thunks|
    ensures plan + PlannedLead(cfg, s.reserved.offset, Inserts(cfg, s, item)) == plan + PlannedStep(cfg, link, s, item)
  {
    hide VisitMethod, PlannedLead;
  }

  lemma NewPlan(cfg: Config, link: Link, s: Layout, item: Item, plan: seq<byte>)
    requires ValidMethod(item.m) && !Shares(s, item.m) && |VisitMethod(cfg, s, item).reserved.thunks| <= |link.thunks|
    ensures var s' := VisitMethod(cfg, s, item);
            |s.entries| < |s'.entries| &&
            plan + PlannedLead(cfg, s.reserved.offset, Inserts(cfg, s, item))
            + MethodBytes(cfg, link, |s'.reserved.thunks|, SlotOf(cfg, s, item.m), item.m,
                          s'.entries[|s.entries|].header)
            == plan + PlannedStep(cfg, link, s, item)
  {
    hide ReserveSpace, CompleteHeader, MethodBytes, SlotOf, PlannedLead, Inserts;
  }

  /** One method in both passes. */
  lemma SyncStep(cfg: Config, link: Link, s: Layout, w: Output, ahead: nat, plan: seq<byte>, item: Item,
                 rest: seq<Item>)
    returns (ahead': nat)
    requires ValidMethod(item.m) && CodeBehind(cfg, s)
    requires link.thunks == FinalThunks(cfg, VisitMethod(cfg, s, item), rest)
    requires |VisitMethod(cfg, s, item).reserved.thunks| <= |link.thunks|
    requires InSync(cfg, link.thunks, |s.reserved.thunks|, s.reserved.offset, w, ahead, plan)
    ensures var s' := VisitMethod(cfg, s, item);
            InSync(cfg, link.thunks, |s'.reserved.thunks|, s'.reserved.offset,
                   WriteMethod(cfg, link, w, item.m, s'.entries[|s.entries|]), ahead',
                   plan + PlannedStep(cfg, link, s, item))
  {
    assert w.nextThunk <= |link.thunks|;
    hide VisitMethod, ReserveSpace, MethodBytes, FinalThunks, Aligned, AlignCode, SlotOf, WriteThunksAndAlign,
      ThunkChunk, PlannedLead, WriteMethod, CodeBehind, PlannedStep, InSync;
    var s' := VisitMethod(cfg, s, item);
    var slot, inserted := SlotOf(cfg, s, item.m), Inserts(cfg, s, item);
    StepPlaces(cfg, s, item);
    ThunksGrowFinal(cfg, s', rest);
    assert slot == Slot(cfg, s.reserved.offset, inserted);
    ahead' := SyncLead(cfg, link.thunks, |s.reserved.thunks|, s.reserved.offset, w, ahead, plan, inserted);
    var lead := plan + PlannedLead(cfg, s.reserved.offset, inserted);
    if Shares(s, item.m) {
      SyncShared(cfg, link, s, w, ahead', item, lead);
      SharedPlan(cfg, link, s, item, plan);
    } else {
      var w1 := WriteThunksAndAlign(cfg, link.thunks, w);
      NotAheadOfCode(cfg, s', rest, slot, |s'.reserved.thunks|, ahead', link.thunks, w1, lead);
      SyncNew(cfg, link, s, w, item, lead);
      NewPlan(cfg, link, s, item, plan);
    }
  }

  lemma ThunksGrowFinal(cfg: Config, s: Layout, items: seq<Item>)
    ensures s.reserved.thunks <= FinalThunks(cfg, s, items)
  {
    ThunksGrow(cfg, s, items);
  }

  lemma FutureThunksFinal(cfg: Config, s: Layout, items: seq<Item>, k: nat)
    requires |s.reserved.thunks| <= k < |FinalThunks(cfg, s, items)|
    ensures AlignCode(s.reserved.offset, cfg.isa) <= FinalThunks(cfg, s, items)[k]
  {
    FutureThunks(cfg, s, items, k);
  }

  /** The final thunk, written now or already. */
  lemma SyncEnd(cfg: Config, s: Layout, w: Output, ahead: nat, plan: seq<byte>)
    requires InSync(cfg, EndInit(cfg, s).reserved.thunks, |s.reserved.thunks|, s.reserved.offset, w, ahead, plan)
    ensures var end := EndInit(cfg, s).reserved;
            WriteThunks(cfg, end.thunks, w) == Output(end.offset, |end.thunks|, plan + PlannedEnd(cfg, s))
  {
    hide ProcessPatches, ThunkChunk, WriteThunks;
    var end := EndInit(cfg, s).reserved;
    var at := AlignCode(s.reserved.offset, cfg.isa);
    var chunk := ThunkChunk(cfg);
    WriteThunksChunk(cfg, end.thunks, w);
    AlignShift(at, |cfg.thunkCode|, cfg.isa);
    if |s.reserved.thunks| < |end.thunks| {
      assert plan + PlannedLead(cfg, s.reserved.offset, true) == plan + Zeros(at - s.reserved.offset) + chunk;
      if ahead > 0 {
        assert ahead == 1 && Repeat(chunk, 1) == chunk;
      }
    }
  }

  /** Each visit adds one entry and leaves the earlier ones alone. */
  lemma {:induction false} EntriesGrow(cfg: Config, s: Layout, items: seq<Item>)
    ensures var t := VisitAll(cfg, s, items);
            && |t.entries| == |s.entries| + |items|
            && t.entries[..|s.entries|] == s.entries
            && (items != [] ==> t.entries[|s.entries|] == VisitMethod(cfg, s, items[0]).entries[|s.entries|])
    decreases |items|
  {
    if items != [] {
      var s' := VisitMethod(cfg, s, items[0]);
      EntriesGrow(cfg, s', items[1..]);
      var t := VisitAll(cfg, s, items);
      assert t.entries[..|s.entries|] == t.entries[..|s'.entries|][..|s.entries|];
      assert t.entries[|s.entries|] == t.entries[..|s'.entries|][|s.entries|];
    }
  }

  /** The rest of both passes, from any point where they are in step. */
  lemma {:induction false} SyncRest(cfg: Config, link: Link, s: Layout, w: Output, ahead: nat, plan: seq<byte>,
      items: seq<Item>, entries: seq<Entry>)
    requires ValidItems(items) && CodeBehind(cfg, s)
    requires link.thunks == FinalThunks(cfg, s, items)
    requires |VisitAll(cfg, s, items).entries| == |s.entries| + |items|
    requires entries == VisitAll(cfg, s, items).entries[|s.entries|..]
    requires InSync(cfg, link.thunks, |s.reserved.thunks|, s.reserved.offset, w, ahead, plan)
    ensures var end := EndInit(cfg, VisitAll(cfg, s, items)).reserved;
            WriteThunks(cfg, link.thunks, WriteAll(cfg, link, w, items, entries)) ==
            Output(end.offset, |end.thunks|, plan + Planned(cfg, link, s, items))
    decreases |items|
  {
    hide VisitMethod, WriteMethod, PlannedStep, PlannedEnd, WriteThunks, EndInit;
    if items == [] {
      SyncEnd(cfg, s, w, ahead, plan);
    } else {
      var s' := VisitMethod(cfg, s, items[0]);
      ThunksGrow(cfg, s', items[1..]);
      var w' := WriteMethod(cfg, link, w, items[0].m, entries[0]);
      var step := PlannedStep(cfg, link, s, items[0]);
      assert s'.entries == VisitAll(cfg, s', []).entries;
      EntriesGrow(cfg, s, [items[0]]);
      EntriesGrow(cfg, s, items);
      var ahead' := SyncStep(cfg, link, s, w, ahead, plan, items[0], items[1..]);
      StepKeepsCodeBehind(cfg, s, items[0]);
      SyncRest(cfg, link, s', w', ahead', plan + step, items[1..], entries[1..]);
      assert plan + step + Planned(cfg, link, s', items[1..]) == plan + Planned(cfg, link, s, items);
    }
  }

  /**
   Two-pass agreement, for every list of methods: the write pass produces byte for byte the image
   the init pass planned, ends at the same offset, and has written every thunk.
   */
  lemma WritePassAgrees(cfg: Config, link: Link, start: nat, items: seq<Item>)
    requires ValidItems(items)
    requires link.thunks == InitPass(cfg, start, items).reserved.thunks
    ensures var layout := InitPass(cfg, start, items);
            && |layout.entries| == |items|
            && WritePass(cfg, link, start, items, layout.entries) ==
               Output(layout.reserved.offset, |layout.reserved.thunks|,
                      Planned(cfg, link, InitialLayout(start), items))
  {
    var s := InitialLayout(start);
    EntriesGrow(cfg, s, items);
    var entries := VisitAll(cfg, s, items).entries;
    assert entries[0..] == entries;
    SyncRest(cfg, link, s, Output(start, 0, []), 0, [], items, entries);
    assert [] + Planned(cfg, link, s, items) == Planned(cfg, link, s, items);
  }

  // ---------------------------------------------------------------- what is where in the image

  /** The init pass when it reaches method `i`. */
  function StateAt(cfg: Config, s: Layout, items: seq<Item>, i: nat): Layout
    requires i <= |items|
  {
    VisitAll(cfg, s, items[..i])
  }

  lemma StateAtNext(cfg: Config, s: Layout, items: seq<Item>, i: nat)
    requires 0 < i <= |items|
    ensures StateAt(cfg, s, items, i) == StateAt(cfg, VisitMethod(cfg, s, items[0]), items[1..], i - 1)
  {
    assert items[..i][1..] == items[1..][..i - 1];
  }

  lemma {:induction false} StateAtThenRest(cfg: Config, s: Layout, items: seq<Item>, i: nat)
    requires i <= |items|
    ensures VisitAll(cfg, s, items) == VisitAll(cfg, StateAt(cfg, s, items, i), items[i..])
    ensures FinalThunks(cfg, s, items) == FinalThunks(cfg, StateAt(cfg, s, items, i), items[i..])
    decreases i
  {
    hide VisitMethod;
    if i == 0 {
      assert items[..0] == [] && items[0..] == items;
    } else {
      StateAtNext(cfg, s, items, i);
      StateAtThenRest(cfg, VisitMethod(cfg, s, items[0]), items[1..], i - 1);
      assert items[1..][i - 1..] == items[i..];
    }
  }

  lemma PlannedStepLength(cfg: Config, link: Link, s: Layout, item: Item)
    requires ValidMethod(item.m) && |VisitMethod(cfg, s, item).reserved.thunks| <= |link.thunks|
    ensures s.reserved.offset + |PlannedStep(cfg, link, s, item)| == VisitMethod(cfg, s, item).reserved.offset
  {
    hide ReserveSpace, CompleteHeader, AlignCode, SlotOf;
    StepPlaces(cfg, s, item);
  }

  lemma PlannedEndLength(cfg: Config, s: Layout)
    ensures s.reserved.offset + |PlannedEnd(cfg, s)| == EndInit(cfg, s).reserved.offset
  {
    hide ProcessPatches;
    AlignShift(AlignCode(s.reserved.offset, cfg.isa), |cfg.thunkCode|, cfg.isa);
  }

  lemma {:induction false} PlannedLength(cfg: Config, link: Link, s: Layout, items: seq<Item>)
    requires ValidItems(items) && link.thunks == FinalThunks(cfg, s, items)
    ensures s.reserved.offset + |Planned(cfg, link, s, items)| ==
            EndInit(cfg, VisitAll(cfg, s, items)).reserved.offset
    decreases |items|
  {
    hide VisitMethod, PlannedStep, PlannedEnd, EndInit;
    if items == [] {
      PlannedEndLength(cfg, s);
    } else {
      var s' := VisitMethod(cfg, s, items[0]);
      ThunksGrow(cfg, s', items[1..]);
      PlannedStepLength(cfg, link, s, items[0]);
      PlannedLength(cfg, link, s', items[1..]);
    }
  }

  lemma StateAtStart(cfg: Config, s: Layout, items: seq<Item>)
    ensures StateAt(cfg, s, items, 0) == s
  {
    assert items[..0] == [];
  }

  /** The plan for some methods is the first one's step and the plan for the others. */
  lemma PlanUnfolds(cfg: Config, link: Link, s: Layout, items: seq<Item>, s': Layout, rest: seq<Item>)
    requires ValidItems(items) && items != [] && rest == items[1..] && s' == VisitMethod(cfg, s, items[0])
    requires link.thunks == FinalThunks(cfg, s, items)
    ensures link.thunks == FinalThunks(cfg, s', rest) && |s'.reserved.thunks| <= |link.thunks|
    ensures Planned(cfg, link, s, items) == PlannedStep(cfg, link, s, items[0]) + Planned(cfg, link, s', rest)
  {
    hide VisitMethod, PlannedStep, PlannedEnd, EndInit;
    ThunksGrow(cfg, s', rest);
  }

  /** The plan splits where the init pass reaches method `i`. */
  lemma {:induction false} PlanSplits(cfg: Config, link: Link, s: Layout, items: seq<Item>, i: nat, si: Layout)
    returns (lead: seq<byte>)
    requires ValidItems(items) && i <= |items| && si == StateAt(cfg, s, items, i)
    requires link.thunks == FinalThunks(cfg, s, items) == FinalThunks(cfg, si, items[i..])
    ensures s.reserved.offset + |lead| == si.reserved.offset
    ensures Planned(cfg, link, s, items) == lead + Planned(cfg, link, si, items[i..])
    decreases i
  {
    hide VisitMethod, VisitAll, Planned, PlannedStep, EndInit, StateAt, ValidMethod;
    if i == 0 {
      StateAtStart(cfg, s, items);
      assert items[0..] == items;
      lead := [];
    } else {
      var s', rest := VisitMethod(cfg, s, items[0]), items[1..];
      PlanUnfolds(cfg, link, s, items, s', rest);
      PlannedStepLength(cfg, link, s, items[0]);
      StateAtNext(cfg, s, items, i);
      assert rest[i - 1..] == items[i..];
      var lead' := PlanSplits(cfg, link, s', rest, i - 1, si);
      lead := PlannedStep(cfg, link, s, items[0]) + lead';
    }
  }

  lemma PlannedAt(cfg: Config, link: Link, s: Layout, items: seq<Item>, i: nat)
    requires ValidItems(items) && i <= |items| && link.thunks == FinalThunks(cfg, s, items)
    requires link.thunks == FinalThunks(cfg, StateAt(cfg, s, items, i), items[i..])
    ensures var si := StateAt(cfg, s, items, i);
            var skip := si.reserved.offset - s.reserved.offset;
            && 0 <= skip <= |Planned(cfg, link, s, items)|
            && Planned(cfg, link, s, items)[skip..] == Planned(cfg, link, si, items[i..])
  {
    hide Planned, StateAt;
    var lead := PlanSplits(cfg, link, s, items, i, StateAt(cfg, s, items, i));
  }
}
