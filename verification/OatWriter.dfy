/**
 The oat writer's code passes as they run: a patcher with a queue of calls and a list of thunks, a
 writer whose fields advance method by method, and code patched in place.
 */
module OatWriter {
  import opened Words
  import opened RelativeCalls
  import opened CodeLayout
  import opened CodeWriting
  import opened CodeAgreement
  import opened CodePlacement

  class RelativeCallPatcher {
    const cfg: Config
    var thunkLocations: seq<nat>
    var currentThunkToWrite: nat
    var unprocessedPatches: seq<PendingCall>

    constructor (cfg: Config)
      ensures this.cfg == cfg && thunkLocations == [] && currentThunkToWrite == 0 && unprocessedPatches == []
    {
      this.cfg := cfg;
      thunkLocations, currentThunkToWrite, unprocessedPatches := [], 0, [];
    }

    ghost function Reserved(offset: nat): Reservation
      reads this
    {
      Reservation(offset, thunkLocations, unprocessedPatches)
    }

    /** ReserveSpaceProcessPatches */
    method Process(known: map<MethodRef, nat>, next: nat) returns (needsThunk: bool)
      modifies this`unprocessedPatches
      ensures (needsThunk, unprocessedPatches) ==
              ProcessPatches(cfg.isa, thunkLocations, old(unprocessedPatches), known, next)
    {
      while unprocessedPatches != []
        invariant ProcessPatches(cfg.isa, thunkLocations, unprocessedPatches, known, next) ==
                  ProcessPatches(cfg.isa, thunkLocations, old(unprocessedPatches), known, next)
        decreases |unprocessedPatches|
      {
        var target, patchOffset := unprocessedPatches[0].target, unprocessedPatches[0].offset;
        if target !in known {
          if thunkLocations == [] || Wrap(patchOffset - Last(thunkLocations)) > MaxNegative(cfg.isa) {
            return Wrap(next - patchOffset) > MaxPositive(cfg.isa);
          }
        } else if known[target] < patchOffset {
          var closest :=
            if thunkLocations == [] || known[target] > Last(thunkLocations) then known[target]
            else Last(thunkLocations);
          if Wrap(patchOffset - closest) > MaxNegative(cfg.isa) {
            return true;
          }
        }
        unprocessedPatches := unprocessedPatches[1..];
      }
      return false;
    }

    /** ReserveSpace(offset, nullptr) */
    method ReserveFinalThunk(offset: nat, known: map<MethodRef, nat>) returns (r: nat)
      modifies this`thunkLocations, this`unprocessedPatches
      ensures Reserved(r) == ReserveFinal(cfg, old(Reserved(offset)), known)
    {
      var aligned := AlignCode(offset, cfg.isa);
      var needsThunk := Process(known, aligned);
      if needsThunk {
        thunkLocations := thunkLocations + [aligned];
        return AlignCode(aligned + |cfg.thunkCode|, cfg.isa);
      }
      return offset;
    }

    /** ReserveSpace(offset, compiled_method) */
    method Reserve(offset: nat, m: CompiledMethod, known: map<MethodRef, nat>) returns (r: nat)
      modifies this`thunkLocations, this`unprocessedPatches
      ensures Reserved(r) == ReserveSpace(cfg, old(Reserved(offset)), known, m)
    {
      r := offset;
      var codeStart := AlignCode(offset, cfg.isa) + HEADER_SIZE;
      var next := AlignCode(codeStart + |m.code.bytes|, cfg.isa);
      if unprocessedPatches != [] && Wrap(next - unprocessedPatches[0].offset) > MaxPositive(cfg.isa) {
        var needsThunk := Process(known, next);
        if needsThunk {
          unprocessedPatches := [];
          var location := AlignCode(offset, cfg.isa);
          thunkLocations := thunkLocations + [location];
          r := AlignCode(location + |cfg.thunkCode|, cfg.isa);
        }
      }
      QueueCalls(m.patches, codeStart);
    }

    method QueueCalls(patches: seq<LinkerPatch>, codeStart: nat)
      modifies this`unprocessedPatches
      ensures unprocessedPatches == old(unprocessedPatches) + RelativeCallsOf(patches, codeStart)
    {
      for i := 0 to |patches|
        invariant unprocessedPatches + RelativeCallsOf(patches[i..], codeStart) ==
                  old(unprocessedPatches) + RelativeCallsOf(patches, codeStart)
      {
        assert patches[i..][1..] == patches[i + 1..];
        if patches[i].kind.CallRelativePatch? {
          unprocessedPatches := unprocessedPatches +
            [PendingCall(patches[i].target, codeStart + patches[i].literalOffset)];
        }
      }
    }

    /** WriteThunks */
    method WriteNextThunk(out: seq<byte>, offset: nat) returns (r: nat, out': seq<byte>)
      requires currentThunkToWrite <= |thunkLocations|
      modifies this`currentThunkToWrite
      ensures Output(r, currentThunkToWrite, out') ==
              WriteThunks(cfg, thunkLocations, Output(offset, old(currentThunkToWrite), out))
    {
      if currentThunkToWrite == |thunkLocations| {
        return offset, out;
      }
      var aligned := AlignCode(offset, cfg.isa);
      if aligned != thunkLocations[currentThunkToWrite] {
        return offset, out;
      }
      currentThunkToWrite := currentThunkToWrite + 1;
      var end := aligned + |cfg.thunkCode|;
      r := AlignCode(end, cfg.isa);
      out' := out + Zeros(aligned - offset) + cfg.thunkCode + Zeros(r - end);
    }

    /** Patch of the Thumb2 and Arm64 patchers, on the method's code in place. */
    method Patch(code: array<byte>, link: Link, codeStart: nat, p: LinkerPatch)
      requires p.literalOffset + 4 <= code.Length && currentThunkToWrite <= |thunkLocations|
      requires p.kind.CallRelativePatch? && link.thunks == thunkLocations
      modifies code
      ensures code[..] == ApplyPatch(cfg.isa, link, currentThunkToWrite, codeStart, old(code[..]), p)
    {
      var displacement := CalculateDisplacement(cfg.isa, thunkLocations, currentThunkToWrite,
                                                codeStart + p.literalOffset, ClearLowBit(TargetOffset(link, p)));
      if displacement.Some? {
        Store(code, p.literalOffset, BlBytes(cfg.isa, displacement.value));
      }
    }
  }

  /** Four bytes written over `code` from `at`. */
  method Store(code: array<byte>, at: nat, bytes: seq<byte>)
    requires |bytes| == 4 && at + 4 <= code.Length
    modifies code
    ensures code[..] == Overwrite(old(code[..]), at, bytes)
  {
    ghost var was := code[..];
    for b := 0 to 4
      invariant forall i :: 0 <= i < code.Length ==> code[i] == if at <= i < at + b then bytes[i - at] else was[i]
    {
      code[at + b] := bytes[b];
    }
    assert code[..] == was[..at] + bytes + was[at + 4..];
  }

  class CodeWriter {
    const patcher: RelativeCallPatcher
    var offset: nat
    var dedupeMap: map<CodeKey, nat>
    var methodOffsetMap: map<MethodRef, nat>
    var entries: seq<Entry>
    var absolutePatchLocations: seq<int>
    var out: seq<byte>

    constructor (cfg: Config, start: nat)
      ensures fresh(patcher) && patcher.cfg == cfg && CurrentLayout() == InitialLayout(start)
      ensures patcher.currentThunkToWrite == 0 && out == []
    {
      patcher := new RelativeCallPatcher(cfg);
      offset, dedupeMap, methodOffsetMap, entries, absolutePatchLocations, out := start, map[], map[], [], [], [];
    }

    ghost function CurrentLayout(): Layout
      reads this, patcher
    {
      Layout(patcher.Reserved(offset), dedupeMap, methodOffsetMap, entries, absolutePatchLocations)
    }

    ghost function CurrentOutput(): Output
      reads this, patcher
    {
      Output(offset, patcher.currentThunkToWrite, out)
    }

    /** InitCodeMethodVisitor::VisitMethod */
    method InitMethod(item: Item)
      modifies this, patcher
      ensures CurrentLayout() == VisitMethod(patcher.cfg, old(CurrentLayout()), item)
      ensures out == old(out) && patcher.currentThunkToWrite == old(patcher.currentThunkToWrite)
    {
      hide ReserveSpace, AbsoluteLocations, CompleteHeader;
      var m, isa := item.m, patcher.cfg.isa;
      offset := patcher.Reserve(offset, m, methodOffsetMap);
      offset := AlignCode(offset, isa);
      var codeOffset := offset + HEADER_SIZE + CodeDelta(isa);
      var deduped := KeyOf(m) in dedupeMap;
      if deduped {
        codeOffset := dedupeMap[KeyOf(m)];
      } else {
        dedupeMap := dedupeMap[KeyOf(m) := codeOffset];
      }
      if m.ref !in methodOffsetMap {
        methodOffsetMap := methodOffsetMap[m.ref := codeOffset];
      }
      entries := entries + [Entry(codeOffset, CompleteHeader(item.header, m, codeOffset - CodeDelta(isa)))];
      if !deduped {
        offset := offset + HEADER_SIZE + |m.code.bytes|;
        RecordAbsolute(m.patches, offset - |m.code.bytes| - patcher.cfg.executableOffset);
      }
    }

    method RecordAbsolute(patches: seq<LinkerPatch>, base: int)
      modifies this`absolutePatchLocations
      ensures absolutePatchLocations == old(absolutePatchLocations) + AbsoluteLocations(patches, base)
    {
      for i := 0 to |patches|
        invariant absolutePatchLocations + AbsoluteLocations(patches[i..], base) ==
                  old(absolutePatchLocations) + AbsoluteLocations(patches, base)
      {
        assert patches[i..][1..] == patches[i + 1..];
        if !patches[i].kind.CallRelativePatch? {
          absolutePatchLocations := absolutePatchLocations + [base + patches[i].literalOffset];
        }
      }
    }

    /** The init pass over all methods, ending with the final thunk. */
    method Init(items: seq<Item>)
      modifies this, patcher
      ensures CurrentLayout() == EndInit(patcher.cfg, VisitAll(patcher.cfg, old(CurrentLayout()), items))
      ensures out == old(out) && patcher.currentThunkToWrite == old(patcher.currentThunkToWrite)
    {
      for i := 0 to |items|
        invariant out == old(out) && patcher.currentThunkToWrite == old(patcher.currentThunkToWrite)
        invariant VisitAll(patcher.cfg, CurrentLayout(), items[i..]) ==
                  VisitAll(patcher.cfg, old(CurrentLayout()), items)
      {
        hide VisitMethod;
        assert items[i..][1..] == items[i + 1..];
        InitMethod(items[i]);
      }
      offset := patcher.ReserveFinalThunk(offset, methodOffsetMap);
    }

    /** The method's code, copied and patched in place. */
    method PatchedCode(link: Link, codeStart: nat, m: CompiledMethod) returns (bytes: seq<byte>)
      requires ValidMethod(m) && link.thunks == patcher.thunkLocations
      requires patcher.currentThunkToWrite <= |patcher.thunkLocations|
      ensures bytes == PatchCode(patcher.cfg.isa, link, patcher.currentThunkToWrite, codeStart, m.code.bytes, m.patches)
    {
      var isa, n, patches := patcher.cfg.isa, patcher.currentThunkToWrite, m.patches;
      var code := new byte[|m.code.bytes|](i requires 0 <= i < |m.code.bytes| => m.code.bytes[i]);
      assert code[..] == m.code.bytes;
      for i := 0 to |patches|
        invariant PatchCode(isa, link, n, codeStart, code[..], patches[i..]) ==
                  PatchCode(isa, link, n, codeStart, m.code.bytes, patches)
      {
        hide ApplyPatch;
        assert patches[i..][1..] == patches[i + 1..];
        if patches[i].kind.CallRelativePatch? {
          patcher.Patch(code, link, codeStart, patches[i]);
        } else {
          PatchAddress(code, isa, n, codeStart, link, patches[i]);
        }
      }
      bytes := code[..];
    }

    /** WriteCodeMethodVisitor::VisitMethod */
    method WriteOne(link: Link, m: CompiledMethod, entry: Entry)
      requires ValidMethod(m) && link.thunks == patcher.thunkLocations
      requires patcher.currentThunkToWrite <= |patcher.thunkLocations|
      modifies this`offset, this`out, patcher`currentThunkToWrite
      ensures CurrentOutput() == WriteMethod(patcher.cfg, link, old(CurrentOutput()), m, entry)
    {
      hide WriteThunks, PatchCode, HeaderBytes;
      offset, out := patcher.WriteNextThunk(out, offset);
      var slot := AlignCode(offset, patcher.cfg.isa);
      out := out + Zeros(slot - offset);
      offset := slot;
      if entry.codeOffset >= offset {
        offset := offset + HEADER_SIZE;
        var code := PatchedCode(link, offset, m);
        assert out + HeaderBytes(entry.header) + code == out + (HeaderBytes(entry.header) + code);
        out := out + HeaderBytes(entry.header) + code;
        offset := offset + |code|;
      }
    }

    /** The write pass over all methods, ending with the final thunk. */
    method Write(link: Link, items: seq<Item>)
      requires ValidItems(items) && |items| == |entries| && link.thunks == patcher.thunkLocations
      requires patcher.currentThunkToWrite <= |patcher.thunkLocations|
      modifies this`offset, this`out, patcher`currentThunkToWrite
      ensures CurrentOutput() ==
              WriteThunks(patcher.cfg, link.thunks, WriteAll(patcher.cfg, link, old(CurrentOutput()), items, entries))
    {
      for i := 0 to |items|
        invariant patcher.currentThunkToWrite <= |patcher.thunkLocations|
        invariant WriteAll(patcher.cfg, link, CurrentOutput(), items[i..], entries[i..]) ==
                  WriteAll(patcher.cfg, link, old(CurrentOutput()), items, entries)
      {
        hide WriteMethod, ValidMethod;
        assert items[i..][1..] == items[i + 1..] && entries[i..][1..] == entries[i + 1..];
        WriteOne(link, items[i].m, entries[i]);
      }
      offset, out := patcher.WriteNextThunk(out, offset);
    }
  }

  /** PatchCodeAddress and PatchObjectAddress: an address stored little-endian. */
  method PatchAddress(code: array<byte>, isa: Isa, ghost nextThunk: nat, ghost codeStart: nat, link: Link,
                      p: LinkerPatch)
    requires p.literalOffset + 4 <= code.Length && nextThunk <= |link.thunks| && !p.kind.CallRelativePatch?
    modifies code
    ensures code[..] == ApplyPatch(isa, link, nextThunk, codeStart, old(code[..]), p)
  {
    Store(code, p.literalOffset, LittleEndian(AbsoluteAddress(link, p)));
  }

  /** What the init pass contributes to linking. */
  function Linked(link: Link, layout: Layout): Link
  {
    link.(thunks := layout.reserved.thunks, known := layout.known)
  }

  /**
   Both passes, run one after the other from the same offset: the second one ends where the first
   one did, has written every thunk, and what it wrote is the image the first one planned.
   */
  method WriteCode(cfg: Config, link: Link, start: nat, items: seq<Item>) returns (out: seq<byte>, entries: seq<Entry>)
    requires ValidItems(items)
    ensures entries == InitPass(cfg, start, items).entries
    ensures |out| == InitPass(cfg, start, items).reserved.offset - start
    ensures out == Planned(cfg, Linked(link, InitPass(cfg, start, items)), InitialLayout(start), items)
  {
    hide VisitAll, EndInit, Planned, WriteAll, WriteThunks;
    var writer := new CodeWriter(cfg, start);
    writer.Init(items);
    var linked := link.(thunks := writer.patcher.thunkLocations, known := writer.methodOffsetMap);
    assert linked == Linked(link, InitPass(cfg, start, items));
    WritePassAgrees(cfg, linked, start, items);
    PlannedLength(cfg, linked, InitialLayout(start), items);
    writer.offset := start;
    writer.Write(linked, items);
    return writer.out, writer.entries;
  }
}
