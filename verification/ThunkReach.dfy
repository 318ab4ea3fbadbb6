/**
 Branch islands are placed well: when all methods have been laid out, every relative call reaches
 its target, the nearest thunk before it or the nearest thunk after it.
 */
module ThunkReach {
  import opened Words
  import opened RelativeCalls
  import opened CodeLayout
  import opened CodeWriting
  import opened CodeAgreement
  import opened CodePlacement

  /** The last thunk before `at` is number `k`. */
  predicate NearestBefore(thunks: seq<nat>, k: int, at: nat)
  {
    0 <= k < |thunks| && thunks[k] < at && (k + 1 < |thunks| ==> at < thunks[k + 1])
  }

  /** The first thunk after `at` is number `k`. */
  predicate NearestAfter(thunks: seq<nat>, k: int, at: nat)
  {
    0 <= k < |thunks| && at < thunks[k] && (0 < k ==> thunks[k - 1] < at)
  }

  /** A call, standing at its final place, has something to branch to. */
  ghost predicate Reaches(isa: Isa, thunks: seq<nat>, known: map<MethodRef, nat>, call: PendingCall)
  {
    || (call.target in known && InRange(isa, call.offset, known[call.target] - CodeDelta(isa)))
    || (exists k :: NearestBefore(thunks, k, call.offset) && call.offset - thunks[k] <= MaxNegative(isa))
    || (exists k :: NearestAfter(thunks, k, call.offset) && thunks[k] - call.offset <= MaxPositive(isa))
  }

  /** The recorded offset is the call's place, or is stale and the call is taken care of already. */
  ghost predicate Tracks(isa: Isa, thunks: seq<nat>, known: map<MethodRef, nat>, pending: PendingCall,
                         call: PendingCall)
  {
    && pending.target == call.target
    && pending.offset <= call.offset
    && (pending.offset == call.offset || Reaches(isa, thunks, known, call))
  }

  /** What holds of the queue between methods; `calls` are the queued calls at their final places. */
  ghost predicate Queue(isa: Isa, thunks: seq<nat>, known: map<MethodRef, nat>, offset: nat,
                        pending: seq<PendingCall>, calls: seq<PendingCall>)
  {
    && |pending| == |calls|
    && (forall y :: 0 <= y < |pending| ==> Tracks(isa, thunks, known, pending[y], calls[y]))
    && (forall y :: 0 <= y < |pending| ==> calls[y].offset < offset && OnBoundary(isa, calls[y].offset))
    && (forall y, z :: 0 <= y <= z < |pending| ==> pending[y].offset <= pending[z].offset)
    && (forall y, k :: 0 <= y < |pending| && 0 <= k < |thunks| ==> thunks[k] < pending[y].offset)
  }

  /** Known code offsets carry the Thumb bit and lie in code already laid out. */
  ghost predicate KnownBehind(isa: Isa, known: map<MethodRef, nat>, offset: nat)
  {
    forall ref :: ref in known ==>
                    && CodeDelta(isa) <= known[ref] <= offset + CodeDelta(isa)
                    && OnBoundary(isa, known[ref] - CodeDelta(isa))
  }

  /** The front of the queue may be dropped. */
  predicate Drops(isa: Isa, thunks: seq<nat>, known: map<MethodRef, nat>, front: PendingCall)
  {
    if front.target !in known then
      thunks != [] && Wrap(front.offset - Last(thunks)) <= MaxNegative(isa)
    else if known[front.target] >= front.offset then
      true
    else
      var closest := if thunks == [] || known[front.target] > Last(thunks) then known[front.target] else Last(thunks);
      Wrap(front.offset - closest) <= MaxNegative(isa)
  }

  lemma {:induction false} ProcessUnfolds(isa: Isa, thunks: seq<nat>, pending: seq<PendingCall>,
      known: map<MethodRef, nat>, next: nat)
    requires pending != []
    ensures var r := ProcessPatches(isa, thunks, pending, known, next);
            if Drops(isa, thunks, known, pending[0]) then
              r == ProcessPatches(isa, thunks, pending[1..], known, next)
            else
              r.1 == pending &&
              (!r.0 ==> pending[0].target !in known && Wrap(next - pending[0].offset) <= MaxPositive(isa))
  {
  }

  /** Code laid out while the front of the queue is close lies within reach of it. */
  lemma ForwardInRange(isa: Isa, offset: nat, first: nat, at: nat, target: nat)
    requires AlignCode(offset, isa) - first <= MaxPositive(isa) && first <= at <= target <= offset + CodeDelta(isa)
    requires OnBoundary(isa, at) && CodeDelta(isa) <= target && OnBoundary(isa, target - CodeDelta(isa))
    ensures InRange(isa, at, target - CodeDelta(isa))
  {
  }

  /** A call dropped from the front of the queue reaches something. */
  lemma DroppedCallReaches(isa: Isa, thunks: seq<nat>, known: map<MethodRef, nat>, offset: nat, first: nat,
      call: PendingCall)
    requires KnownBehind(isa, known, offset) && AlignCode(offset, isa) - first <= MaxPositive(isa)
    requires first <= call.offset < offset < 0x1_0000_0000 && OnBoundary(isa, call.offset)
    requires forall k :: 0 <= k < |thunks| ==> thunks[k] < call.offset
    requires Drops(isa, thunks, known, call)
    ensures Reaches(isa, thunks, known, call)
  {
    if call.target in known && known[call.target] >= call.offset {
      ForwardInRange(isa, offset, first, call.offset, known[call.target]);
    } else {
      hide AlignCode, OnBoundary;
      if call.target in known && (thunks == [] || known[call.target] > Last(thunks)) {
        WrapDifference(call.offset, known[call.target]);
      } else {
        WrapDifference(call.offset, Last(thunks));
        assert NearestBefore(thunks, |thunks| - 1, call.offset);
      }
    }
  }

  lemma ReachedOneMore(isa: Isa, thunks: seq<nat>, known: map<MethodRef, nat>, calls: seq<PendingCall>, n: nat)
    requires n < |calls| && Reaches(isa, thunks, known, calls[0])
    requires forall y :: 0 <= y < n ==> Reaches(isa, thunks, known, calls[1..][y])
    ensures forall y :: 0 <= y < n + 1 ==> Reaches(isa, thunks, known, calls[y])
  {
    hide Reaches;
    forall y | 0 < y < n + 1
      ensures Reaches(isa, thunks, known, calls[y])
    {
      assert calls[y] == calls[1..][y - 1];
    }
  }

  lemma DropOneMore(pending: seq<PendingCall>, n: nat)
    requires n < |pending|
    ensures pending[1..][n..] == pending[n + 1..]
    ensures n + 1 < |pending| ==> pending[1..][n] == pending[n + 1]
  {
  }

  /** ReserveSpaceProcessPatches only drops calls that reach something. */
  lemma {:induction false} ProcessDropsReached(
      isa: Isa, thunks: seq<nat>, pending: seq<PendingCall>, known: map<MethodRef, nat>, next: nat,
      offset: nat, first: nat, calls: seq<PendingCall>)
    returns (dropped: nat)
    requires Queue(isa, thunks, known, offset, pending, calls) && KnownBehind(isa, known, offset)
    requires AlignCode(offset, isa) - first <= MaxPositive(isa) && offset < 0x1_0000_0000
    requires pending != [] ==> first <= pending[0].offset
    ensures dropped <= |pending| == |calls|
    ensures ProcessPatches(isa, thunks, pending, known, next).1 == pending[dropped..]
    ensures forall y :: 0 <= y < dropped ==> Reaches(isa, thunks, known, calls[y])
    ensures !ProcessPatches(isa, thunks, pending, known, next).0 && dropped < |pending| ==>
              pending[dropped].target !in known && Wrap(next - pending[dropped].offset) <= MaxPositive(isa)
    decreases |pending|
  {
    hide Drops, Queue, Wrap, KnownBehind, AlignCode, MaxPositive, Reaches, Last;
    dropped := 0;
    QueueTail(isa, thunks, known, offset, pending, calls, 0);
    if pending != [] {
      hide ProcessPatches;
      ProcessUnfolds(isa, thunks, pending, known, next);
      assert pending[0..] == pending;
      if Drops(isa, thunks, known, pending[0]) {
        QueueHead(isa, thunks, known, offset, first, pending, calls);
        QueueTail(isa, thunks, known, offset, pending, calls, 1);
        dropped := ProcessDropsReached(isa, thunks, pending[1..], known, next, offset, first, calls[1..]);
        ReachedOneMore(isa, thunks, known, calls, dropped);
        DropOneMore(pending, dropped);
        dropped := dropped + 1;
      }
    }
  }

  lemma QueueHead(isa: Isa, thunks: seq<nat>, known: map<MethodRef, nat>, offset: nat, first: nat,
                  pending: seq<PendingCall>, calls: seq<PendingCall>)
    requires Queue(isa, thunks, known, offset, pending, calls) && KnownBehind(isa, known, offset)
    requires pending != [] && first <= pending[0].offset && Drops(isa, thunks, known, pending[0])
    requires AlignCode(offset, isa) - first <= MaxPositive(isa) && offset < 0x1_0000_0000
    ensures |pending| == |calls|
    ensures Reaches(isa, thunks, known, calls[0])
    ensures |pending| > 1 ==> first <= pending[1].offset
  {
    hide Reaches, Drops, KnownBehind, AlignCode, MaxPositive, OnBoundary;
    assert Tracks(isa, thunks, known, pending[0], calls[0]);
    if pending[0].offset == calls[0].offset {
      assert pending[0] == calls[0];
      DroppedCallReaches(isa, thunks, known, offset, first, calls[0]);
    }
  }

  lemma QueueTail(isa: Isa, thunks: seq<nat>, known: map<MethodRef, nat>, offset: nat,
                  pending: seq<PendingCall>, calls: seq<PendingCall>, n: nat)
    requires Queue(isa, thunks, known, offset, pending, calls) && n <= |pending|
    ensures |pending| == |calls| && Queue(isa, thunks, known, offset, pending[n..], calls[n..])
  {
  }

  // ---------------------------------------------------------------- one method

  /** What the reach guarantee asks of a method: sorted, aligned call sites, and a size within reach. */
  ghost predicate WithinReach(cfg: Config, m: CompiledMethod)
  {
    && ValidMethod(m)
    && (forall a, b :: 0 <= a <= b < |m.patches| ==> m.patches[a].literalOffset <= m.patches[b].literalOffset)
    && (forall p :: p in m.patches ==> OnBoundary(cfg.isa, p.literalOffset))
    && HEADER_SIZE + |m.code.bytes| + ThunkSpan(cfg) <= MaxPositive(cfg.isa)
    && HEADER_SIZE + |m.code.bytes| + ThunkSpan(cfg) <= MaxNegative(cfg.isa)
  }

  /** Moving the code moves its calls. */
  lemma CallsMove(patches: seq<LinkerPatch>, base: nat, place: nat)
    ensures var queued, calls := RelativeCallsOf(patches, base), RelativeCallsOf(patches, place);
            && |queued| == |calls|
            && forall y :: 0 <= y < |calls| ==>
                 queued[y].target == calls[y].target && queued[y].offset - base == calls[y].offset - place
  {
  }

  /** The calls of a method lie in its code, at instruction boundaries and in order. */
  lemma {:induction false} CallsInside(isa: Isa, patches: seq<LinkerPatch>, place: nat, size: nat)
    requires OnBoundary(isa, place)
    requires forall p :: p in patches ==> OnBoundary(isa, p.literalOffset) && p.literalOffset + 4 <= size
    ensures forall y :: 0 <= y < |RelativeCallsOf(patches, place)| ==>
              var call := RelativeCallsOf(patches, place)[y];
              place <= call.offset && call.offset + 4 <= place + size && OnBoundary(isa, call.offset)
  {
    if patches != [] {
      CallsInside(isa, patches[1..], place, size);
      assert patches[0] in patches;
      BoundarySum(isa, place, patches[0].literalOffset);
      hide OnBoundary;
    }
  }

  lemma Sum2(a: nat, b: nat)
    requires a % 2 == 0 && b % 2 == 0
    ensures (a + b) % 2 == 0
  {
  }

  lemma Sum4(a: nat, b: nat)
    requires a % 4 == 0 && b % 4 == 0
    ensures (a + b) % 4 == 0
  {
  }

  lemma BoundarySum(isa: Isa, a: nat, b: nat)
    requires OnBoundary(isa, a) && OnBoundary(isa, b)
    ensures OnBoundary(isa, a + b)
  {
    if isa.Thumb2? {
      Sum2(a, b);
    } else {
      Sum4(a, b);
    }
  }

  lemma {:induction false} CallsSorted(patches: seq<LinkerPatch>, base: nat)
    requires forall a, b :: 0 <= a <= b < |patches| ==> patches[a].literalOffset <= patches[b].literalOffset
    ensures var queued := RelativeCallsOf(patches, base);
            && (forall y, z :: 0 <= y <= z < |queued| ==> queued[y].offset <= queued[z].offset)
            && (queued != [] ==> patches != [] && base + patches[0].literalOffset <= queued[0].offset)
  {
    if patches != [] {
      CallsSorted(patches[1..], base);
    }
  }

  lemma QueueAppends(isa: Isa, thunks: seq<nat>, known: map<MethodRef, nat>, offset: nat,
                     p1: seq<PendingCall>, c1: seq<PendingCall>, p2: seq<PendingCall>, c2: seq<PendingCall>)
    requires Queue(isa, thunks, known, offset, p1, c1) && Queue(isa, thunks, known, offset, p2, c2)
    requires forall y, z :: 0 <= y < |p1| && 0 <= z < |p2| ==> p1[y].offset <= p2[z].offset
    ensures Queue(isa, thunks, known, offset, p1 + p2, c1 + c2)
  {
    hide Tracks;
  }

  /** A queue stays one while code and known methods are added after it. */
  lemma QueueStays(isa: Isa, thunks: seq<nat>, known: map<MethodRef, nat>, more_known: map<MethodRef, nat>,
                   offset: nat, more: nat, pending: seq<PendingCall>, calls: seq<PendingCall>)
    requires Queue(isa, thunks, known, offset, pending, calls) && offset <= more
    requires forall ref :: ref in known ==> ref in more_known && more_known[ref] == known[ref]
    ensures Queue(isa, thunks, more_known, more, pending, calls)
  {
  }

  /** The calls of the method just placed, as queued; stale ones have the thunk right before them. */
  lemma NewCallsQueue(cfg: Config, thunks: seq<nat>, known: map<MethodRef, nat>, at: nat, slot: nat, m: CompiledMethod)
    requires WithinReach(cfg, m) && OnBoundary(cfg.isa, slot + HEADER_SIZE)
    requires forall k :: 0 <= k < |thunks| ==> thunks[k] <= at
    requires slot == at || (slot == at + ThunkSpan(cfg) && thunks != [] && Last(thunks) == at)
    ensures Queue(cfg.isa, thunks, known, slot + HEADER_SIZE + |m.code.bytes|,
                  RelativeCallsOf(m.patches, at + HEADER_SIZE), RelativeCallsOf(m.patches, slot + HEADER_SIZE))
  {
    hide WithinReach, OnBoundary, Tracks;
    var queued, calls := RelativeCallsOf(m.patches, at + HEADER_SIZE), RelativeCallsOf(m.patches, slot + HEADER_SIZE);
    NewCallsOrdered(cfg, at, slot, m, queued, calls);
    forall y | 0 <= y < |queued|
      ensures Tracks(cfg.isa, thunks, known, queued[y], calls[y])
    {
      NewCallTracks(cfg, thunks, known, at, slot, m, y);
    }
  }

  lemma NewCallsOrdered(cfg: Config, at: nat, slot: nat, m: CompiledMethod, queued: seq<PendingCall>,
      calls: seq<PendingCall>)
    requires WithinReach(cfg, m) && OnBoundary(cfg.isa, slot + HEADER_SIZE)
    requires queued == RelativeCallsOf(m.patches, at + HEADER_SIZE)
    requires calls == RelativeCallsOf(m.patches, slot + HEADER_SIZE)
    ensures |queued| == |calls|
    ensures forall y, z :: 0 <= y <= z < |queued| ==> queued[y].offset <= queued[z].offset
    ensures forall y :: 0 <= y < |queued| ==> at + HEADER_SIZE <= queued[y].offset
    ensures forall y :: 0 <= y < |queued| ==> queued[y].target == calls[y].target
    ensures forall y :: 0 <= y < |queued| ==> calls[y].offset == queued[y].offset + slot - at
    ensures forall y :: 0 <= y < |calls| ==>
              calls[y].offset + 4 <= slot + HEADER_SIZE + |m.code.bytes| && OnBoundary(cfg.isa, calls[y].offset)
  {
    hide MaxNegative, MaxPositive, ThunkSpan, OnBoundary;
    CallsMove(m.patches, at + HEADER_SIZE, slot + HEADER_SIZE);
    CallsInside(cfg.isa, m.patches, slot + HEADER_SIZE, |m.code.bytes|);
    CallsSorted(m.patches, at + HEADER_SIZE);
  }

  lemma NewCallTracks(cfg: Config, thunks: seq<nat>, known: map<MethodRef, nat>, at: nat, slot: nat,
      m: CompiledMethod, y: nat)
    requires WithinReach(cfg, m) && OnBoundary(cfg.isa, slot + HEADER_SIZE)
    requires slot == at || (slot == at + ThunkSpan(cfg) && thunks != [] && Last(thunks) == at)
    requires y < |RelativeCallsOf(m.patches, at + HEADER_SIZE)| == |RelativeCallsOf(m.patches, slot + HEADER_SIZE)|
    ensures Tracks(cfg.isa, thunks, known, RelativeCallsOf(m.patches, at + HEADER_SIZE)[y],
                   RelativeCallsOf(m.patches, slot + HEADER_SIZE)[y])
  {
    hide MaxNegative, MaxPositive, ThunkSpan, Reaches, OnBoundary;
    var queued, calls := RelativeCallsOf(m.patches, at + HEADER_SIZE), RelativeCallsOf(m.patches, slot + HEADER_SIZE);
    var call := calls[y];
    NewCallsOrdered(cfg, at, slot, m, queued, calls);
    if slot != at {
      ReachesBack(cfg.isa, thunks, known, call);
    }
  }

  lemma ReachesBack(isa: Isa, thunks: seq<nat>, known: map<MethodRef, nat>, call: PendingCall)
    requires thunks != [] && Last(thunks) < call.offset && call.offset - Last(thunks) <= MaxNegative(isa)
    ensures Reaches(isa, thunks, known, call)
  {
  }

  /** Calls that are done with: they reach something and lie before `offset`. */
  ghost predicate AllReach(isa: Isa, thunks: seq<nat>, known: map<MethodRef, nat>, offset: nat, calls: seq<PendingCall>)
  {
    forall x :: 0 <= x < |calls| ==> Reaches(isa, thunks, known, calls[x]) && calls[x].offset < offset
  }

  /** Even the oldest queued call can still reach a thunk placed at the next aligned offset. */
  ghost predicate FrontClose(isa: Isa, offset: nat, pending: seq<PendingCall>)
  {
    pending != [] ==> AlignCode(offset, isa) - pending[0].offset <= MaxPositive(isa)
  }

  /** Between methods: `done` and then `queue` are all relative calls so far, at their final places. */
  ghost predicate ReachInv(isa: Isa, r: Reservation, known: map<MethodRef, nat>, done: seq<PendingCall>,
      queue: seq<PendingCall>)
  {
    && AllReach(isa, r.thunks, known, r.offset, done)
    && Queue(isa, r.thunks, known, r.offset, r.pending, queue)
    && FrontClose(isa, r.offset, r.pending)
    && KnownBehind(isa, known, r.offset)
    && (forall k :: 0 <= k < |r.thunks| ==> r.thunks[k] <= r.offset)
  }

  lemma AllReachStays(isa: Isa, thunks: seq<nat>, more: seq<nat>, known: map<MethodRef, nat>,
                      known': map<MethodRef, nat>, offset: nat, offset': nat, calls: seq<PendingCall>)
    requires AllReach(isa, thunks, known, offset, calls) && offset <= offset'
    requires thunks <= more && forall k :: |thunks| <= k < |more| ==> offset <= more[k]
    requires forall ref :: ref in known ==> ref in known' && known'[ref] == known[ref]
    ensures AllReach(isa, more, known', offset', calls)
  {
  }

  lemma AllReachAppends(isa: Isa, thunks: seq<nat>, known: map<MethodRef, nat>, offset: nat, a: seq<PendingCall>,
      b: seq<PendingCall>)
    requires AllReach(isa, thunks, known, offset, a) && AllReach(isa, thunks, known, offset, b)
    ensures AllReach(isa, thunks, known, offset, a + b)
  {
  }

  /** The two outcomes of ReserveSpace for the calls already queued. */
  lemma QueueSettles(cfg: Config, r: Reservation, known: map<MethodRef, nat>, queue: seq<PendingCall>,
                     m: CompiledMethod, at: nat, next: nat, added: seq<PendingCall>)
    returns (dropped: nat, needsThunk: bool)
    requires Queue(cfg.isa, r.thunks, known, r.offset, r.pending, queue) && FrontClose(cfg.isa, r.offset, r.pending)
    requires KnownBehind(cfg.isa, known, r.offset)
    requires at == AlignCode(r.offset, cfg.isa) && next == AlignCode(at + HEADER_SIZE + |m.code.bytes|, cfg.isa)
    requires next < 0x1_0000_0000 && added == RelativeCallsOf(m.patches, at + HEADER_SIZE)
    ensures dropped <= |r.pending| == |queue|
    ensures AllReach(cfg.isa, r.thunks, known, r.offset, queue[..dropped])
    ensures ReserveSpace(cfg, r, known, m) ==
            if needsThunk then Reservation(AlignCode(at + |cfg.thunkCode|, cfg.isa), r.thunks + [at], added)
            else Reservation(r.offset, r.thunks, r.pending[dropped..] + added)
    ensures !needsThunk && dropped < |r.pending| ==> next - r.pending[dropped].offset <= MaxPositive(cfg.isa)
  {
    hide ProcessPatches, Reaches, AlignCode, MaxPositive, MaxNegative, RelativeCallsOf, OnBoundary, KnownBehind;
    dropped, needsThunk := 0, false;
    if r.pending != [] && Wrap(next - r.pending[0].offset) > MaxPositive(cfg.isa) {
      dropped := ProcessDropsReached(cfg.isa, r.thunks, r.pending, known, next, r.offset, r.pending[0].offset, queue);
      needsThunk := ProcessPatches(cfg.isa, r.thunks, r.pending, known, next).0;
    } else {
      assert r.pending[0..] == r.pending;
    }
    if !needsThunk && dropped < |r.pending| {
      QueueBounds(cfg.isa, r.thunks, known, r.offset, r.pending, queue);
      assert next - r.pending[dropped].offset == Wrap(next - r.pending[dropped].offset);
    }
  }

  function KnownAfter(isa: Isa, known: map<MethodRef, nat>, ref: MethodRef, slot: nat): map<MethodRef, nat>
  {
    if ref in known then known else known[ref := slot + HEADER_SIZE + CodeDelta(isa)]
  }

  lemma KnownStaysBehind(isa: Isa, known: map<MethodRef, nat>, ref: MethodRef, offset: nat, slot: nat, end: nat)
    requires KnownBehind(isa, known, offset) && offset <= end && slot + HEADER_SIZE <= end
    requires OnBoundary(isa, slot + HEADER_SIZE)
    ensures KnownBehind(isa, KnownAfter(isa, known, ref, slot), end)
  {
  }

  /** Slots are aligned, and a method's code ends within reach of its start. */
  lemma SlotArithmetic(cfg: Config, offset: nat, m: CompiledMethod)
    requires WithinReach(cfg, m)
    ensures var at := AlignCode(offset, cfg.isa);
            var slot := at + ThunkSpan(cfg);
            && OnBoundary(cfg.isa, at + HEADER_SIZE) && OnBoundary(cfg.isa, slot + HEADER_SIZE)
            && AlignCode(slot + HEADER_SIZE + |m.code.bytes|, cfg.isa) - (at + HEADER_SIZE) <= MaxPositive(cfg.isa)
            && AlignCode(at + HEADER_SIZE + |m.code.bytes|, cfg.isa) - (at + HEADER_SIZE) <= MaxPositive(cfg.isa)
  {
    SlotAligned(cfg, offset);
    hide Aligned, AlignCode, ThunkSpan;
  }

  lemma SlotAligned(cfg: Config, offset: nat)
    ensures var at := AlignCode(offset, cfg.isa);
            OnBoundary(cfg.isa, at + HEADER_SIZE) && OnBoundary(cfg.isa, at + ThunkSpan(cfg) + HEADER_SIZE)
  {
    hide AlignCode;
    var k := AlignedIsMultiple(AlignCode(offset, cfg.isa), cfg.isa);
    var l := AlignedIsMultiple(ThunkSpan(cfg), cfg.isa);
    hide Aligned, ThunkSpan;
    FourTimes(cfg.isa, 2 * k + 7);
    FourTimes(cfg.isa, 2 * k + 2 * l + 7);
    hide OnBoundary;
  }

  lemma FourTimes(isa: Isa, k: nat)
    ensures OnBoundary(isa, 4 * k)
  {
    assert 2 * (2 * k) % 2 == 0;
  }

  lemma AlignedIsMultiple(offset: nat, isa: Isa) returns (k: nat)
    requires Aligned(offset, isa)
    ensures offset == 8 * k
  {
    if isa.Thumb2? {
      k := MultipleOf(offset, 8);
    } else {
      k := MultipleOf(offset, 16);
      k := 2 * k;
    }
  }

  lemma QueueBounds(isa: Isa, thunks: seq<nat>, known: map<MethodRef, nat>, offset: nat,
                    pending: seq<PendingCall>, calls: seq<PendingCall>)
    requires Queue(isa, thunks, known, offset, pending, calls)
    ensures |pending| == |calls| && forall y :: 0 <= y < |pending| ==> pending[y].offset < offset
  {
  }

  /** What is left of the queue, with the new calls behind it. */
  lemma QueueWithoutThunk(cfg: Config, r: Reservation, known: map<MethodRef, nat>, queue: seq<PendingCall>,
                          m: CompiledMethod, dropped: nat, at: nat, known': map<MethodRef, nat>,
                          added: seq<PendingCall>)
    requires added == RelativeCallsOf(m.patches, at + HEADER_SIZE)
    requires Queue(cfg.isa, r.thunks, known, r.offset, r.pending, queue) && dropped <= |r.pending|
    requires WithinReach(cfg, m) && r.offset <= at && OnBoundary(cfg.isa, at + HEADER_SIZE)
    requires forall k :: 0 <= k < |r.thunks| ==> r.thunks[k] <= r.offset
    requires forall ref :: ref in known ==> ref in known' && known'[ref] == known[ref]
    ensures |queue| == |r.pending|
    ensures Queue(cfg.isa, r.thunks, known', at + HEADER_SIZE + |m.code.bytes|, r.pending[dropped..] + added,
                  queue[dropped..] + added)
  {
    hide Queue, WithinReach, OnBoundary;
    var isa := cfg.isa;
    var end := at + HEADER_SIZE + |m.code.bytes|;
    QueueBounds(isa, r.thunks, known, r.offset, r.pending, queue);
    NewCallsOrdered(cfg, at, at, m, added, added);
    NewCallsQueue(cfg, r.thunks, known', at, at, m);
    QueueTail(isa, r.thunks, known, r.offset, r.pending, queue, dropped);
    QueueStays(isa, r.thunks, known, known', r.offset, end, r.pending[dropped..], queue[dropped..]);
    QueueAppends(isa, r.thunks, known', end, r.pending[dropped..], queue[dropped..], added, added);
  }

  /** No thunk was needed: the queue loses what was dropped and gains the new calls. */
  lemma ReachWithoutThunk(cfg: Config, r: Reservation, known: map<MethodRef, nat>, done: seq<PendingCall>,
                          queue: seq<PendingCall>, m: CompiledMethod, dropped: nat, at: nat, end: nat,
                          added: seq<PendingCall>)
    requires ReachInv(cfg.isa, r, known, done, queue) && WithinReach(cfg, m) && dropped <= |r.pending| == |queue|
    requires at == AlignCode(r.offset, cfg.isa) && end == at + HEADER_SIZE + |m.code.bytes|
    requires added == RelativeCallsOf(m.patches, at + HEADER_SIZE)
    requires AllReach(cfg.isa, r.thunks, known, r.offset, queue[..dropped])
    requires dropped < |r.pending| ==> AlignCode(end, cfg.isa) - r.pending[dropped].offset <= MaxPositive(cfg.isa)
    ensures ReachInv(cfg.isa, Reservation(end, r.thunks, r.pending[dropped..] + added),
                     KnownAfter(cfg.isa, known, m.ref, at), done + queue[..dropped], queue[dropped..] + added)
  {
    hide Queue, WithinReach, OnBoundary, KnownBehind, Aligned, AlignCode, MaxPositive, AllReach, FrontClose, ThunkSpan,
      RelativeCallsOf;
    var isa, known' := cfg.isa, KnownAfter(cfg.isa, known, m.ref, at);
    SlotArithmetic(cfg, r.offset, m);
    KnownStaysBehind(isa, known, m.ref, r.offset, at, end);
    QueueWithoutThunk(cfg, r, known, queue, m, dropped, at, known', added);
    AllReachAppends(isa, r.thunks, known, r.offset, done, queue[..dropped]);
    AllReachStays(isa, r.thunks, r.thunks, known, known', r.offset, end, done + queue[..dropped]);
    FrontStaysClose(cfg, r, m, dropped, at, end, added);
  }

  lemma FrontStaysClose(cfg: Config, r: Reservation, m: CompiledMethod, dropped: nat, at: nat, end: nat,
      added: seq<PendingCall>)
    requires WithinReach(cfg, m) && dropped <= |r.pending|
    requires at == AlignCode(r.offset, cfg.isa) && end == at + HEADER_SIZE + |m.code.bytes|
    requires added == RelativeCallsOf(m.patches, at + HEADER_SIZE)
    requires dropped < |r.pending| ==> AlignCode(end, cfg.isa) - r.pending[dropped].offset <= MaxPositive(cfg.isa)
    ensures FrontClose(cfg.isa, end, r.pending[dropped..] + added)
  {
    hide WithinReach, OnBoundary, Aligned, AlignCode, MaxPositive, ThunkSpan, RelativeCallsOf;
    SlotArithmetic(cfg, r.offset, m);
    NewCallsOrdered(cfg, at, at, m, added, added);
    if dropped == |r.pending| && added != [] {
      assert r.pending[dropped..] + added == added;
    }
  }

  /** A thunk was inserted: it serves every queued call, and the new method's calls are stale but reach it. */
  lemma ReachWithThunk(cfg: Config, r: Reservation, known: map<MethodRef, nat>, done: seq<PendingCall>,
                       queue: seq<PendingCall>, m: CompiledMethod, at: nat, slot: nat, end: nat,
                       queued: seq<PendingCall>, added: seq<PendingCall>)
    requires ReachInv(cfg.isa, r, known, done, queue) && WithinReach(cfg, m)
    requires at == AlignCode(r.offset, cfg.isa) && slot == at + ThunkSpan(cfg) &&
             end == slot + HEADER_SIZE + |m.code.bytes|
    requires queued == RelativeCallsOf(m.patches, at + HEADER_SIZE)
    requires added == RelativeCallsOf(m.patches, slot + HEADER_SIZE)
    ensures ReachInv(cfg.isa, Reservation(end, r.thunks + [at], queued),
                     KnownAfter(cfg.isa, known, m.ref, slot), done + queue, added)
  {
    hide Queue, WithinReach, OnBoundary, KnownBehind, Aligned, AlignCode, MaxPositive, AllReach, FrontClose, ThunkSpan,
      RelativeCallsOf;
    var isa, known' := cfg.isa, KnownAfter(cfg.isa, known, m.ref, slot);
    SlotArithmetic(cfg, r.offset, m);
    KnownStaysBehind(isa, known, m.ref, r.offset, slot, end);
    NewCallsQueue(cfg, r.thunks + [at], known', at, slot, m);
    ThunkServes(isa, r, known, queue, at);
    AllReachStays(isa, r.thunks, r.thunks + [at], known, known, r.offset, r.offset, done);
    AllReachAppends(isa, r.thunks + [at], known, r.offset, done, queue);
    AllReachStays(isa, r.thunks + [at], r.thunks + [at], known, known', r.offset, end, done + queue);
    NewFrontClose(cfg, r, m, at, slot, end, queued, added);
  }

  lemma NewFrontClose(cfg: Config, r: Reservation, m: CompiledMethod, at: nat, slot: nat, end: nat,
                      queued: seq<PendingCall>, added: seq<PendingCall>)
    requires WithinReach(cfg, m) && OnBoundary(cfg.isa, slot + HEADER_SIZE)
    requires at == AlignCode(r.offset, cfg.isa) && slot == at + ThunkSpan(cfg) &&
             end == slot + HEADER_SIZE + |m.code.bytes|
    requires queued == RelativeCallsOf(m.patches, at + HEADER_SIZE)
    requires added == RelativeCallsOf(m.patches, slot + HEADER_SIZE)
    ensures FrontClose(cfg.isa, end, queued)
  {
    hide WithinReach, OnBoundary, Aligned, AlignCode, MaxPositive, ThunkSpan, RelativeCallsOf;
    SlotArithmetic(cfg, r.offset, m);
    NewCallsOrdered(cfg, at, slot, m, queued, added);
  }

  /** A thunk at the next aligned offset serves the whole queue. */
  lemma ThunkServes(isa: Isa, r: Reservation, known: map<MethodRef, nat>, queue: seq<PendingCall>, at: nat)
    requires Queue(isa, r.thunks, known, r.offset, r.pending, queue) && FrontClose(isa, r.offset, r.pending)
    requires at == AlignCode(r.offset, isa)
    ensures AllReach(isa, r.thunks + [at], known, r.offset, queue)
  {
    hide AlignCode, OnBoundary, MaxPositive;
    var thunks := r.thunks + [at];
    forall y | 0 <= y < |queue|
      ensures Reaches(isa, thunks, known, queue[y])
    {
      assert Tracks(isa, r.thunks, known, r.pending[y], queue[y]);
      assert NearestAfter(thunks, |r.thunks|, queue[y].offset);
      assert thunks[|r.thunks|] - queue[y].offset <= MaxPositive(isa);
    }
  }

  // ---------------------------------------------------------------- all methods

  /** Relative calls of the first `i` methods, at the places their code was given. */
  function AllCalls(cfg: Config, start: nat, items: seq<Item>, i: nat): seq<PendingCall>
    requires i <= |items|
  {
    if i == 0 then []
    else AllCalls(cfg, start, items, i - 1)
         + RelativeCallsOf(items[i - 1].m.patches, SlotAt(cfg, start, items, i - 1) + HEADER_SIZE)
  }

  predicate NoRelativeCalls(m: CompiledMethod)
  {
    forall p :: p in m.patches ==> !p.kind.CallRelativePatch?
  }

  /** Code is shared only without calls in it, every call's target is compiled in this file, offsets fit 32 bits. */
  ghost predicate ReachInput(cfg: Config, start: nat, items: seq<Item>)
  {
    && (forall i :: 0 <= i < |items| ==> WithinReach(cfg, items[i].m))
    && (forall i :: 0 <= i < |items| && Deduplicated(items, i) ==> NoRelativeCalls(items[i].m))
    && (forall i, p :: 0 <= i < |items| && p in items[i].m.patches && p.kind.CallRelativePatch? ==>
          exists j :: 0 <= j < |items| && items[j].m.ref == p.target)
    && Final(cfg, start, items).reserved.offset + 16 <= OFFSET_LIMIT
  }

  lemma {:induction false} OffsetsGrow(cfg: Config, s: Layout, items: seq<Item>)
    ensures s.reserved.offset <= VisitAll(cfg, s, items).reserved.offset
                              <= EndInit(cfg, VisitAll(cfg, s, items)).reserved.offset
    decreases |items|
  {
    hide VisitMethod, ProcessPatches, AlignCode;
    if items != [] {
      StepPlaces(cfg, s, items[0]);
      OffsetsGrow(cfg, VisitMethod(cfg, s, items[0]), items[1..]);
    }
  }

  lemma ReachedWithinFinal(cfg: Config, start: nat, items: seq<Item>, i: nat)
    requires i <= |items|
    ensures Reached(cfg, start, items, i).reserved.offset <= Final(cfg, start, items).reserved.offset
  {
    hide VisitAll, EndInit;
    StateAtThenRest(cfg, InitialLayout(start), items, i);
    OffsetsGrow(cfg, Reached(cfg, start, items, i), items[i..]);
  }

  /** One visit, as far as the reach argument goes. */
  lemma VisitForReach(cfg: Config, s: Layout, item: Item)
    requires !Shares(s, item.m)
    ensures var s' := VisitMethod(cfg, s, item);
            var slot := SlotOf(cfg, s, item.m);
            && s'.reserved == ReserveSpace(cfg, s.reserved, s.known, item.m).(
                                offset := slot + HEADER_SIZE + |item.m.code.bytes|)
            && s'.known == KnownAfter(cfg.isa, s.known, item.m.ref, slot)
  {
  }

  lemma ReachStep(cfg: Config, s: Layout, done: seq<PendingCall>, queue: seq<PendingCall>, item: Item)
    returns (done': seq<PendingCall>, queue': seq<PendingCall>)
    requires !Shares(s, item.m) && WithinReach(cfg, item.m)
    requires ReachInv(cfg.isa, s.reserved, s.known, done, queue)
    requires VisitMethod(cfg, s, item).reserved.offset + 16 <= OFFSET_LIMIT
    ensures var s' := VisitMethod(cfg, s, item);
            ReachInv(cfg.isa, s'.reserved, s'.known, done', queue')
    ensures done' + queue' == done + queue + RelativeCallsOf(item.m.patches, SlotOf(cfg, s, item.m) + HEADER_SIZE)
  {
    hide Queue, AllReach, FrontClose, KnownBehind, WithinReach, VisitMethod, AlignCode, Aligned, KnownAfter,
      MaxPositive, ReserveSpace, SlotOf, RelativeCallsOf, ThunkSpan;
    var m, r := item.m, s.reserved;
    var at, slot := AlignCode(r.offset, cfg.isa), SlotOf(cfg, s, m);
    var queued, added := RelativeCallsOf(m.patches, at + HEADER_SIZE), RelativeCallsOf(m.patches, slot + HEADER_SIZE);
    StepPlaces(cfg, s, item);
    VisitForReach(cfg, s, item);
    var end := at + HEADER_SIZE + |m.code.bytes|;
    var dropped, needsThunk := QueueSettles(cfg, r, s.known, queue, m, at, AlignCode(end, cfg.isa), queued);
    if needsThunk {
      ReachWithThunk(cfg, r, s.known, done, queue, m, at, slot, slot + HEADER_SIZE + |m.code.bytes|, queued, added);
      done', queue' := done + queue, added;
    } else {
      ReachWithoutThunk(cfg, r, s.known, done, queue, m, dropped, at, end, queued);
      done', queue' := done + queue[..dropped], queue[dropped..] + added;
    }
  }

  /** A recorded code offset lies behind, on an instruction boundary. */
  predicate OffsetBehind(isa: Isa, v: nat, offset: nat)
  {
    CodeDelta(isa) <= v <= offset + CodeDelta(isa) && OnBoundary(isa, v - CodeDelta(isa))
  }

  ghost predicate DedupeBehind(isa: Isa, s: Layout)
  {
    forall key :: key in s.dedupe ==> OffsetBehind(isa, s.dedupe[key], s.reserved.offset)
  }

  lemma DedupeStaysBehind(cfg: Config, s: Layout, item: Item)
    requires DedupeBehind(cfg.isa, s)
    ensures DedupeBehind(cfg.isa, VisitMethod(cfg, s, item))
  {
    hide ReserveSpace, CompleteHeader, SlotOf, AlignCode, Aligned, OnBoundary, KeyOf, ThunkSpan;
    StepPlaces(cfg, s, item);
    SlotAligned(cfg, s.reserved.offset);
    VisitRecords(cfg, s, item);
  }

  lemma {:induction false} ReachedDedupeBehind(cfg: Config, start: nat, items: seq<Item>, i: nat)
    requires i <= |items|
    ensures DedupeBehind(cfg.isa, Reached(cfg, start, items, i))
  {
    hide VisitMethod, OffsetBehind;
    if i == 0 {
      assert items[..0] == [];
    } else {
      ReachedDedupeBehind(cfg, start, items, i - 1);
      ReachedNext(cfg, start, items, i - 1);
      hide Reached;
      DedupeStaysBehind(cfg, Reached(cfg, start, items, i - 1), items[i - 1]);
    }
  }

  lemma {:induction false} NothingToQueue(patches: seq<LinkerPatch>, base: nat)
    requires forall p :: p in patches ==> !p.kind.CallRelativePatch?
    ensures RelativeCallsOf(patches, base) == []
  {
    if patches != [] {
      assert patches[0] in patches;
      NothingToQueue(patches[1..], base);
    }
  }

  /** One visit of a method that shares code, as far as the reach argument goes. */
  lemma VisitSharedForReach(cfg: Config, s: Layout, item: Item)
    requires Shares(s, item.m)
    ensures var s' := VisitMethod(cfg, s, item);
            && s'.reserved == ReserveSpace(cfg, s.reserved, s.known, item.m).(offset := SlotOf(cfg, s, item.m))
            && s'.known == if item.m.ref in s.known then s.known else s.known[item.m.ref := s.dedupe[KeyOf(item.m)]]
  {
  }

  lemma KnownSharedBehind(isa: Isa, known: map<MethodRef, nat>, ref: MethodRef, v: nat, offset: nat, end: nat)
    requires KnownBehind(isa, known, offset) && offset <= end && OffsetBehind(isa, v, offset)
    ensures KnownBehind(isa, if ref in known then known else known[ref := v], end)
  {
  }

  /** Code reserved for but not written moves nothing out of reach. */
  lemma ReachSharedStep(cfg: Config, s: Layout, done: seq<PendingCall>, queue: seq<PendingCall>, item: Item)
    returns (done': seq<PendingCall>, queue': seq<PendingCall>)
    requires Shares(s, item.m) && WithinReach(cfg, item.m) && NoRelativeCalls(item.m) && DedupeBehind(cfg.isa, s)
    requires ReachInv(cfg.isa, s.reserved, s.known, done, queue)
    requires VisitMethod(cfg, s, item).reserved.offset + 16 <= OFFSET_LIMIT
    ensures var s' := VisitMethod(cfg, s, item);
            ReachInv(cfg.isa, s'.reserved, s'.known, done', queue')
    ensures done' + queue' == done + queue
  {
    hide Queue, AllReach, FrontClose, KnownBehind, VisitMethod, AlignCode, Aligned, MaxPositive,
      ReserveSpace, SlotOf, RelativeCallsOf, ThunkSpan, OffsetBehind, OnBoundary;
    var isa, m, r := cfg.isa, item.m, s.reserved;
    var at, slot := AlignCode(r.offset, isa), SlotOf(cfg, s, m);
    StepPlaces(cfg, s, item);
    VisitSharedForReach(cfg, s, item);
    NothingToQueue(m.patches, at + HEADER_SIZE);
    var known' := VisitMethod(cfg, s, item).known;
    KnownSharedBehind(isa, s.known, m.ref, s.dedupe[KeyOf(m)], r.offset, slot);
    PhantomEnd(cfg, m, at);
    var dropped, needsThunk := QueueSettles(cfg, r, s.known, queue, m, at,
                                            AlignCode(at + HEADER_SIZE + |m.code.bytes|, isa), []);
    if needsThunk {
      ThunkServes(isa, r, s.known, queue, at);
      ReachAfterThunk(isa, r, s.known, known', done, queue, at, slot);
      done', queue' := done + queue, [];
    } else {
      ReachWithoutCode(isa, r, s.known, known', done, queue, dropped, at);
      done', queue' := done + queue[..dropped], queue[dropped..];
      assert r.pending[dropped..] + [] == r.pending[dropped..];
    }
  }

  lemma PhantomEnd(cfg: Config, m: CompiledMethod, at: nat)
    requires WithinReach(cfg, m) && at + 16 <= OFFSET_LIMIT
    ensures at <= AlignCode(at + HEADER_SIZE + |m.code.bytes|, cfg.isa) < 0x1_0000_0000
  {
    hide AlignCode, ThunkSpan;
  }

  lemma ReachAfterThunk(isa: Isa, r: Reservation, known: map<MethodRef, nat>, known': map<MethodRef, nat>,
                        done: seq<PendingCall>, queue: seq<PendingCall>, at: nat, slot: nat)
    requires ReachInv(isa, r, known, done, queue) && r.offset <= at <= slot && KnownBehind(isa, known', slot)
    requires AllReach(isa, r.thunks + [at], known, r.offset, queue)
    requires forall ref :: ref in known ==> ref in known' && known'[ref] == known[ref]
    ensures ReachInv(isa, Reservation(slot, r.thunks + [at], []), known', done + queue, [])
  {
    hide KnownBehind, AlignCode, AllReach, OnBoundary, MaxPositive;
    var thunks := r.thunks + [at];
    AllReachStays(isa, r.thunks, thunks, known, known, r.offset, r.offset, done);
    AllReachAppends(isa, thunks, known, r.offset, done, queue);
    AllReachStays(isa, thunks, thunks, known, known', r.offset, slot, done + queue);
  }

  lemma ReachWithoutCode(isa: Isa, r: Reservation, known: map<MethodRef, nat>, known': map<MethodRef, nat>,
                         done: seq<PendingCall>, queue: seq<PendingCall>, dropped: nat, at: nat)
    requires ReachInv(isa, r, known, done, queue) && at == AlignCode(r.offset, isa) && KnownBehind(isa, known', at)
    requires dropped <= |r.pending| == |queue| && AllReach(isa, r.thunks, known, r.offset, queue[..dropped])
    requires dropped < |r.pending| ==> at - r.pending[dropped].offset <= MaxPositive(isa)
    requires forall ref :: ref in known ==> ref in known' && known'[ref] == known[ref]
    ensures ReachInv(isa, Reservation(at, r.thunks, r.pending[dropped..]), known', done + queue[..dropped],
                     queue[dropped..])
  {
    assert AlignCode(at, isa) == at;
    hide Queue, KnownBehind, Aligned, AlignCode, AllReach, OnBoundary, MaxPositive;
    QueueTail(isa, r.thunks, known, r.offset, r.pending, queue, dropped);
    QueueStays(isa, r.thunks, known, known', r.offset, at, r.pending[dropped..], queue[dropped..]);
    AllReachAppends(isa, r.thunks, known, r.offset, done, queue[..dropped]);
    AllReachStays(isa, r.thunks, r.thunks, known, known', r.offset, at, done + queue[..dropped]);
  }

  lemma ReachStarts(cfg: Config, start: nat, items: seq<Item>)
    ensures Reached(cfg, start, items, 0) == InitialLayout(start)
    ensures ReachInv(cfg.isa, InitialLayout(start).reserved, map[], [], [])
  {
  }

  lemma {:induction false} ReachHolds(cfg: Config, start: nat, items: seq<Item>, i: nat)
    returns (done: seq<PendingCall>, queue: seq<PendingCall>)
    requires ReachInput(cfg, start, items) && i <= |items|
    ensures var s := Reached(cfg, start, items, i);
            ReachInv(cfg.isa, s.reserved, s.known, done, queue)
    ensures done + queue == AllCalls(cfg, start, items, i)
  {
    hide VisitMethod, AlignCode, Aligned, Reaches, SlotOf, WithinReach, Final, ReachInv, Reached, Deduplicated,
      RelativeCallsOf, DedupeBehind, Shares;
    if i == 0 {
      ReachStarts(cfg, start, items);
      done, queue := [], [];
    } else {
      done, queue := ReachHolds(cfg, start, items, i - 1);
      ReachedNext(cfg, start, items, i - 1);
      ReachedWithinFinal(cfg, start, items, i);
      SharesExactly(cfg, start, items, i - 1);
      var s := Reached(cfg, start, items, i - 1);
      if Shares(s, items[i - 1].m) {
        ReachedDedupeBehind(cfg, start, items, i - 1);
        NothingToQueue(items[i - 1].m.patches, SlotAt(cfg, start, items, i - 1) + HEADER_SIZE);
        done, queue := ReachSharedStep(cfg, s, done, queue, items[i - 1]);
      } else {
        done, queue := ReachStep(cfg, s, done, queue, items[i - 1]);
      }
    }
  }

  /** A call is queued for every relative patch, and for nothing else. */
  lemma CallsArePatches(patches: seq<LinkerPatch>, base: nat)
    ensures forall call :: call in RelativeCallsOf(patches, base) ==>
              exists p :: p in patches && p.kind.CallRelativePatch? &&
                call == PendingCall(p.target, base + p.literalOffset)
    ensures forall p :: p in patches && p.kind.CallRelativePatch? ==>
              PendingCall(p.target, base + p.literalOffset) in RelativeCallsOf(patches, base)
  {
  }

  ghost predicate TargetsKnown(known: map<MethodRef, nat>, calls: seq<PendingCall>)
  {
    forall x :: 0 <= x < |calls| ==> calls[x].target in known
  }

  /** The final thunk, if one is needed, serves whatever is still queued. */
  lemma ReachEnds(cfg: Config, s: Layout, done: seq<PendingCall>, queue: seq<PendingCall>)
    requires ReachInv(cfg.isa, s.reserved, s.known, done, queue) && TargetsKnown(s.known, queue)
    requires s.reserved.offset < OFFSET_LIMIT
    ensures AllReach(cfg.isa, EndInit(cfg, s).reserved.thunks, s.known, s.reserved.offset, done + queue)
  {
    hide ProcessPatches, AlignCode, KnownBehind, AllReach;
    var isa, r := cfg.isa, s.reserved;
    var at := AlignCode(r.offset, isa);
    var thunks := EndInit(cfg, s).reserved.thunks;
    if ProcessPatches(isa, r.thunks, r.pending, s.known, at).0 {
      ThunkServes(isa, r, s.known, queue, at);
    } else {
      NothingLeft(isa, r, s.known, queue, at);
    }
    AllReachStays(isa, r.thunks, thunks, s.known, s.known, r.offset, r.offset, done);
    AllReachAppends(isa, thunks, s.known, r.offset, done, queue);
  }

  /** With every target known, a queue that needs no thunk is empty afterwards. */
  lemma NothingLeft(isa: Isa, r: Reservation, known: map<MethodRef, nat>, queue: seq<PendingCall>, at: nat)
    requires Queue(isa, r.thunks, known, r.offset, r.pending, queue) && FrontClose(isa, r.offset, r.pending)
    requires KnownBehind(isa, known, r.offset) && TargetsKnown(known, queue)
    requires r.offset < OFFSET_LIMIT && !ProcessPatches(isa, r.thunks, r.pending, known, at).0
    ensures AllReach(isa, r.thunks, known, r.offset, queue)
  {
    hide Reaches, ProcessPatches, AlignCode, KnownBehind, OnBoundary, MaxPositive;
    if r.pending != [] {
      var dropped := ProcessDropsReached(isa, r.thunks, r.pending, known, at, r.offset, r.pending[0].offset, queue);
      forall y | 0 <= y < |r.pending|
        ensures r.pending[y].target in known
      {
        assert Tracks(isa, r.thunks, known, r.pending[y], queue[y]);
        assert queue[y].target in known;
      }
      assert dropped == |r.pending|;
    }
  }

  lemma {:induction false} KnownHasVisited(cfg: Config, start: nat, items: seq<Item>, i: nat)
    requires i <= |items|
    ensures forall j :: 0 <= j < i ==> items[j].m.ref in Reached(cfg, start, items, i).known
  {
    hide ReserveSpace, CompleteHeader, SlotOf, Reached;
    if i > 0 {
      KnownHasVisited(cfg, start, items, i - 1);
      ReachedNext(cfg, start, items, i - 1);
    }
  }

  lemma {:induction false} CallTargetsKnown(cfg: Config, start: nat, items: seq<Item>, i: nat,
                                            known: map<MethodRef, nat>)
    requires i <= |items|
    requires forall j, p :: 0 <= j < |items| && p in items[j].m.patches && p.kind.CallRelativePatch? ==>
             p.target in known
    ensures TargetsKnown(known, AllCalls(cfg, start, items, i))
  {
    hide SlotAt;
    if i > 0 {
      CallTargetsKnown(cfg, start, items, i - 1, known);
      var base := SlotAt(cfg, start, items, i - 1) + HEADER_SIZE;
      CallsArePatches(items[i - 1].m.patches, base);
      var added := RelativeCallsOf(items[i - 1].m.patches, base);
      forall y | 0 <= y < |added|
        ensures added[y].target in known
      {
        assert added[y] in added;
      }
    }
  }

  lemma {:induction false} CallIsListed(cfg: Config, start: nat, items: seq<Item>, i: nat, j: nat, p: LinkerPatch)
    requires j < i <= |items| && p in items[j].m.patches && p.kind.CallRelativePatch?
    ensures PendingCall(p.target, SlotAt(cfg, start, items, j) + HEADER_SIZE + p.literalOffset)
            in AllCalls(cfg, start, items, i)
  {
    hide SlotAt;
    if j < i - 1 {
      CallIsListed(cfg, start, items, i - 1, j, p);
    } else {
      CallsArePatches(items[j].m.patches, SlotAt(cfg, start, items, j) + HEADER_SIZE);
    }
  }

  /**
   Thunk reach: after the last ReserveSpace every relative call, where its code really stands, is in
   range of its target, of the nearest thunk before it or of the nearest thunk after it.
   */
  lemma EveryCallReaches(cfg: Config, start: nat, items: seq<Item>, i: nat, p: LinkerPatch)
    requires ReachInput(cfg, start, items) && i < |items|
    requires p in items[i].m.patches && p.kind.CallRelativePatch?
    ensures var layout := Final(cfg, start, items);
            Reaches(cfg.isa, layout.reserved.thunks, layout.known,
                    PendingCall(p.target, SlotAt(cfg, start, items, i) + HEADER_SIZE + p.literalOffset))
  {
    hide ReachInv, Reaches, SlotAt, AllCalls, WithinReach, Deduplicated, VisitMethod, ReserveFinal;
    var n := |items|;
    var s := Reached(cfg, start, items, n);
    assert items[..n] == items;
    var done, queue := ReachHolds(cfg, start, items, n);
    ReachedWithinFinal(cfg, start, items, n);
    KnownHasVisited(cfg, start, items, n);
    CallTargetsKnown(cfg, start, items, n, s.known);
    assert TargetsKnown(s.known, queue) by {
      assert forall y :: 0 <= y < |queue| ==> queue[y] == (done + queue)[|done| + y];
    }
    ReachEnds(cfg, s, done, queue);
    CallIsListed(cfg, start, items, n, i, p);
  }
}
