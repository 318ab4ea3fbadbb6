/**
 Branch islands are placed with reason: when a thunk is reserved, some queued call is out of range of
 its target and of the last thunk, or is about to lose the chance of a thunk after it.
 */
module ThunkNeed {
  import opened Words
  import opened RelativeCalls
  import opened CodeLayout
  import opened CodeWriting
  import opened CodeAgreement
  import opened CodePlacement
  import opened ThunkReach
  import opened CallsLand

  /**
   The call is out of range of the last thunk, and of its target; or the target is not known yet and a
   thunk at `next` would not be close enough. (A call queued for code that turned out to be shared may
   lie behind `next`.)
   */
  predicate Unserved(isa: Isa, thunks: seq<nat>, known: map<MethodRef, nat>, call: PendingCall, next: nat)
  {
    && (thunks != [] ==> !InRange(isa, call.offset, Last(thunks)))
    && (if call.target in known then !InRange(isa, call.offset, known[call.target] - CodeDelta(isa))
        else MaxPositive(isa) < next - call.offset || next < call.offset)
  }

  /** Queued calls lie behind all thunks; nothing wraps. */
  ghost predicate Queued(thunks: seq<nat>, known: map<MethodRef, nat>, pending: seq<PendingCall>)
  {
    && (forall y :: 0 <= y < |pending| ==>
          pending[y].offset < 0x1_0000_0000 && (thunks != [] ==> Last(thunks) <= pending[y].offset))
    && (forall ref :: ref in known ==> known[ref] < 0x1_0000_0000)
  }

  lemma FrontUnserved(isa: Isa, thunks: seq<nat>, known: map<MethodRef, nat>, call: PendingCall, next: nat)
    requires Queued(thunks, known, [call]) && next < 0x1_0000_0000
    requires !Drops(isa, thunks, known, call)
    requires call.target !in known ==> Wrap(next - call.offset) > MaxPositive(isa)
    ensures Unserved(isa, thunks, known, call, next)
  {
    assert [call][0] == call;
    WrapDifference(next, call.offset);
    if thunks != [] {
      WrapDifference(call.offset, Last(thunks));
    }
    if call.target in known {
      WrapDifference(call.offset, known[call.target]);
    }
  }

  /** ReserveSpaceProcessPatches asks for a thunk only for a call that needs one. */
  lemma {:induction false} ProcessAsksWithReason(isa: Isa, thunks: seq<nat>, pending: seq<PendingCall>,
                                                 known: map<MethodRef, nat>, next: nat)
    requires Queued(thunks, known, pending) && next < 0x1_0000_0000
    requires ProcessPatches(isa, thunks, pending, known, next).0
    ensures exists y :: 0 <= y < |pending| && Unserved(isa, thunks, known, pending[y], next)
    decreases |pending|
  {
    hide Unserved, Drops, Wrap, Last;
    ProcessAsks(isa, thunks, pending, known, next);
    if Drops(isa, thunks, known, pending[0]) {
      ProcessAsksWithReason(isa, thunks, pending[1..], known, next);
      var y :| 0 <= y < |pending[1..]| && Unserved(isa, thunks, known, pending[1..][y], next);
      assert pending[1..][y] == pending[y + 1];
    } else {
      assert Queued(thunks, known, [pending[0]]);
      FrontUnserved(isa, thunks, known, pending[0], next);
    }
  }

  lemma {:induction false} ProcessAsks(isa: Isa, thunks: seq<nat>, pending: seq<PendingCall>,
                                       known: map<MethodRef, nat>, next: nat)
    requires ProcessPatches(isa, thunks, pending, known, next).0
    ensures pending != []
    ensures if Drops(isa, thunks, known, pending[0]) then ProcessPatches(isa, thunks, pending[1..], known, next).0
            else pending[0].target !in known ==> Wrap(next - pending[0].offset) > MaxPositive(isa)
  {
    hide Wrap;
  }

  /** A call queued behind the next offset looks far away: a thunk is asked for although one there would do. */
  lemma AskedWithoutNeed(target: MethodRef)
    ensures ProcessPatches(Thumb2, [], [PendingCall(target, 2000)], map[], 1000).0 && InRange(Thumb2, 2000, 1000)
  {
    assert [PendingCall(target, 2000)][0].offset == 2000;
  }

  /** What is left of the queue was in it. */
  lemma {:induction false} ProcessKeeps(isa: Isa, thunks: seq<nat>, pending: seq<PendingCall>,
                                        known: map<MethodRef, nat>, next: nat)
    ensures forall c :: c in ProcessPatches(isa, thunks, pending, known, next).1 ==> c in pending
    decreases |pending|
  {
    if pending != [] {
      ProcessUnfolds(isa, thunks, pending, known, next);
      hide ProcessPatches;
      if Drops(isa, thunks, known, pending[0]) {
        ProcessKeeps(isa, thunks, pending[1..], known, next);
      }
    }
  }

  // ---------------------------------------------------------------- over all methods

  /** The offset behind the method, were it to get code of its own and no thunk. */
  function NextOf(cfg: Config, s: Layout, m: CompiledMethod): nat
  {
    AlignCode(AlignCode(s.reserved.offset, cfg.isa) + HEADER_SIZE + |m.code.bytes|, cfg.isa)
  }

  lemma {:induction false} CallsBetween(patches: seq<LinkerPatch>, codeStart: nat, size: nat)
    requires forall p :: p in patches ==> p.literalOffset + 4 <= size
    ensures forall c :: c in RelativeCallsOf(patches, codeStart) ==> codeStart <= c.offset < codeStart + size
  {
    if patches != [] {
      CallsBetween(patches[1..], codeStart, size);
      assert patches[0] in patches;
    }
  }

  /** What reserving space does to queue and thunks. */
  lemma ReserveQueues(cfg: Config, r: Reservation, known: map<MethodRef, nat>, m: CompiledMethod)
    ensures var r' := ReserveSpace(cfg, r, known, m);
            var at := AlignCode(r.offset, cfg.isa);
            var calls := RelativeCallsOf(m.patches, at + HEADER_SIZE);
            && (if |r.thunks| < |r'.thunks| then r'.thunks == r.thunks + [at] && r'.pending == calls
                else r'.thunks == r.thunks && forall c :: c in r'.pending ==> c in r.pending || c in calls)
            && (|r.thunks| < |r'.thunks| ==>
                  ProcessPatches(cfg.isa, r.thunks, r.pending, known,
                                 AlignCode(at + HEADER_SIZE + |m.code.bytes|, cfg.isa)).0)
  {
    ProcessKeeps(cfg.isa, r.thunks, r.pending, known,
                 AlignCode(AlignCode(r.offset, cfg.isa) + HEADER_SIZE + |m.code.bytes|, cfg.isa));
    hide ProcessPatches, AlignCode, RelativeCallsOf, Wrap, MaxPositive;
  }

  lemma QueuedStep(cfg: Config, s: Layout, item: Item)
    requires Queued(s.reserved.thunks, map[], s.reserved.pending) && ThunksBehind(s)
    requires ValidMethod(item.m) && NextOf(cfg, s, item.m) < 0x1_0000_0000
    ensures var s' := VisitMethod(cfg, s, item);
            Queued(s'.reserved.thunks, map[], s'.reserved.pending)
  {
    var at := AlignCode(s.reserved.offset, cfg.isa);
    ReserveQueues(cfg, s.reserved, s.known, item.m);
    CallsBetween(item.m.patches, at + HEADER_SIZE, |item.m.code.bytes|);
    hide AlignCode, ReserveSpace, RelativeCallsOf, CompleteHeader, SlotOf, CodeOffsetOf;
    var r, r' := s.reserved, VisitMethod(cfg, s, item).reserved;
    forall y | 0 <= y < |r'.pending|
      ensures r'.pending[y].offset < 0x1_0000_0000
      ensures r'.thunks != [] ==> Last(r'.thunks) <= r'.pending[y].offset
    {
      assert r'.pending[y] in r'.pending;
    }
  }

  /** No offset the pass computes for the methods up to `i` wraps. */
  ghost predicate NothingWraps(cfg: Config, start: nat, items: seq<Item>, i: nat)
    requires i <= |items|
  {
    forall k :: 0 <= k < i ==> NextOf(cfg, Reached(cfg, start, items, k), items[k].m) < 0x1_0000_0000
  }

  lemma {:induction false} ReachedQueued(cfg: Config, start: nat, items: seq<Item>, i: nat)
    requires ValidItems(items) && i <= |items| && NothingWraps(cfg, start, items, i)
    ensures Queued(Reached(cfg, start, items, i).reserved.thunks, map[], Reached(cfg, start, items, i).reserved.pending)
  {
    hide VisitMethod, Reached, NextOf, Queued, ValidMethod;
    if i == 0 {
      NothingQueued(cfg, start, items);
    } else {
      ReachedQueued(cfg, start, items, i - 1);
      ReachedNext(cfg, start, items, i - 1);
      ReachedThunksBehind(cfg, start, items, i - 1);
      QueuedStep(cfg, Reached(cfg, start, items, i - 1), items[i - 1]);
    }
  }

  lemma NothingQueued(cfg: Config, start: nat, items: seq<Item>)
    ensures var r := Reached(cfg, start, items, 0).reserved;
            Queued(r.thunks, map[], r.pending)
  {
    assert items[..0] == [];
  }

  lemma KnownToo(thunks: seq<nat>, known: map<MethodRef, nat>, pending: seq<PendingCall>)
    requires Queued(thunks, map[], pending) && forall ref :: ref in known ==> known[ref] < 0x1_0000_0000
    ensures Queued(thunks, known, pending)
  {
  }

  lemma ReachedKnown(cfg: Config, start: nat, items: seq<Item>, i: nat)
    requires ValidItems(items) && i <= |items| && Reached(cfg, start, items, i).reserved.offset < 0xffff_ffff
    ensures forall ref :: ref in Reached(cfg, start, items, i).known ==>
              Reached(cfg, start, items, i).known[ref] < 0x1_0000_0000
  {
    hide Reached, DedupeRecorded, ThunksRecorded, OnBoundary;
    ReachedOffsets(cfg, start, items, i);
  }

  /** A thunk in front of a method is reserved only if a call queued at that point needs one. */
  lemma ThunkOnlyWhenNeeded(cfg: Config, start: nat, items: seq<Item>, i: nat)
    requires ValidItems(items) && i < |items| && NothingWraps(cfg, start, items, i + 1)
    requires |Reached(cfg, start, items, i).reserved.thunks| < ThunksBefore(cfg, start, items, i)
    ensures var s := Reached(cfg, start, items, i);
            exists y :: 0 <= y < |s.reserved.pending| &&
              Unserved(cfg.isa, s.reserved.thunks, s.known, s.reserved.pending[y], NextOf(cfg, s, items[i].m))
  {
    hide Reached, Queued, Unserved, AlignCode, ReserveSpace, SlotOf, CompleteHeader, CodeOffsetOf, ProcessPatches;
    var s := Reached(cfg, start, items, i);
    ReachedQueued(cfg, start, items, i);
    ReachedKnown(cfg, start, items, i);
    KnownToo(s.reserved.thunks, s.known, s.reserved.pending);
    ReachedNext(cfg, start, items, i);
    ReserveQueues(cfg, s.reserved, s.known, items[i].m);
    ProcessAsksWithReason(cfg.isa, s.reserved.thunks, s.reserved.pending, s.known, NextOf(cfg, s, items[i].m));
  }

  /** The final thunk, too, is reserved only if a call left in the queue needs one. */
  lemma FinalThunkOnlyWhenNeeded(cfg: Config, start: nat, items: seq<Item>)
    requires ValidItems(items) && NothingWraps(cfg, start, items, |items|)
    requires AlignCode(Reached(cfg, start, items, |items|).reserved.offset, cfg.isa) < 0xffff_ffff
    requires |Reached(cfg, start, items, |items|).reserved.thunks| < |Final(cfg, start, items).reserved.thunks|
    ensures var s := Reached(cfg, start, items, |items|);
            exists y :: 0 <= y < |s.reserved.pending| &&
              Unserved(cfg.isa, s.reserved.thunks, s.known, s.reserved.pending[y],
                       AlignCode(s.reserved.offset, cfg.isa))
  {
    var s := Reached(cfg, start, items, |items|);
    assert items[..|items|] == items;
    hide VisitAll, Queued, Unserved, AlignCode, ProcessPatches;
    ReachedQueued(cfg, start, items, |items|);
    ReachedKnown(cfg, start, items, |items|);
    KnownToo(s.reserved.thunks, s.known, s.reserved.pending);
    ProcessAsksWithReason(cfg.isa, s.reserved.thunks, s.reserved.pending, s.known,
                          AlignCode(s.reserved.offset, cfg.isa));
  }
}
