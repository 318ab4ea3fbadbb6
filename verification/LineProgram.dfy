/**
 The line number program the ELF writer emits for the methods of an oat file, proved by running it
 on the DWARF state machine.
 */
module LineProgram {
  import opened Words
  import opened RelativeCalls
  import opened Leb128
  import opened LineMachine

  // ---------------------------------------------------------------- one row

  predicate InLineRange(deltaLine: int)
  {
    LINE_BASE <= deltaLine < LINE_BASE + LINE_RANGE
  }

  /** The special opcode for a step, before it is cut down to 32 bits. */
  function SpecialOpcode(deltaAddr: word, deltaLine: int): int
  {
    deltaLine - LINE_BASE + LINE_RANGE * deltaAddr + OPCODE_BASE
  }

  /** The opcode is too large for a byte, but its lowest 32 bits look like one. */
  predicate OpcodeWraps(deltaAddr: word, deltaLine: int)
  {
    InLineRange(deltaLine) && 255 < SpecialOpcode(deltaAddr, deltaLine) &&
      Wrap(SpecialOpcode(deltaAddr, deltaLine)) <= 255
  }

  function AdvancePcBytes(deltaAddr: word): seq<byte>
  {
    if deltaAddr == 0 then [] else [ADVANCE_PC] + EncodeUnsigned(deltaAddr)
  }

  function AdvanceLineBytes(deltaLine: int32): seq<byte>
  {
    if deltaLine == 0 then [] else [ADVANCE_LINE] + EncodeSigned(deltaLine)
  }

  /** What PutDelta emits. */
  function DeltaBytes(deltaAddr: word, deltaLine: int32): seq<byte>
  {
    if InLineRange(deltaLine) && Wrap(SpecialOpcode(deltaAddr, deltaLine)) <= 255 then
      [Wrap(SpecialOpcode(deltaAddr, deltaLine))]
    else
      AdvancePcBytes(deltaAddr) + AdvanceLineBytes(deltaLine) + [COPY]
  }

  function Stepped(m: Machine, deltaAddr: word, deltaLine: int32): Machine
  {
    m.Advance(deltaAddr, deltaLine).Append(false)
  }

  lemma RunAdvances(m: Machine, deltaAddr: word, deltaLine: int32)
    ensures Run(m, AdvancePcBytes(deltaAddr)) == Some(m.Advance(deltaAddr, 0))
    ensures Run(m, AdvanceLineBytes(deltaLine)) == Some(m.Advance(0, deltaLine))
  {
    hide EncodeUnsigned, EncodeSigned, Step;
    RunAdvancePc(m, deltaAddr);
    RunAdvanceLine(m, deltaLine);
  }

  /** The long form always does what is asked. */
  lemma RunLongForm(m: Machine, deltaAddr: word, deltaLine: int32)
    ensures Run(m, AdvancePcBytes(deltaAddr) + AdvanceLineBytes(deltaLine) + [COPY]) ==
            Some(Stepped(m, deltaAddr, deltaLine))
  {
    hide Run, AdvancePcBytes, AdvanceLineBytes;
    var a, b := AdvancePcBytes(deltaAddr), AdvanceLineBytes(deltaLine);
    RunAdvances(m, deltaAddr, deltaLine);
    var m1 := m.Advance(deltaAddr, 0);
    RunAdvances(m1, deltaAddr, deltaLine);
    RunAppend(m, a, b);
    RunAppend(m, a + b, [COPY]);
    RunCopy(m1.Advance(0, deltaLine));
  }

  lemma RunSpecial(m: Machine, deltaAddr: word, deltaLine: int32)
    requires InLineRange(deltaLine) && SpecialOpcode(deltaAddr, deltaLine) <= 255
    ensures Run(m, [SpecialOpcode(deltaAddr, deltaLine)]) == Some(Stepped(m, deltaAddr, deltaLine))
  {
  }

  /** A wrapped opcode adds no row with the right address, whatever it happens to mean. */
  lemma WrappedOpcodeFails(m: Machine, deltaAddr: word, deltaLine: int32)
    requires OpcodeWraps(deltaAddr, deltaLine)
    ensures Run(m, [Wrap(SpecialOpcode(deltaAddr, deltaLine))]) != Some(Stepped(m, deltaAddr, deltaLine))
  {
  }

  /** PutDelta's bytes add the wanted row exactly when the special opcode does not wrap. */
  lemma DeltaBytesExact(m: Machine, deltaAddr: word, deltaLine: int32)
    ensures Run(m, DeltaBytes(deltaAddr, deltaLine)) == Some(Stepped(m, deltaAddr, deltaLine))
            <==> !OpcodeWraps(deltaAddr, deltaLine)
  {
    hide Run, AdvancePcBytes, AdvanceLineBytes;
    var opcode := SpecialOpcode(deltaAddr, deltaLine);
    if OpcodeWraps(deltaAddr, deltaLine) {
      WrappedOpcodeFails(m, deltaAddr, deltaLine);
    } else if InLineRange(deltaLine) && Wrap(opcode) <= 255 {
      assert Wrap(opcode) == opcode;
      RunSpecial(m, deltaAddr, deltaLine);
    } else {
      RunLongForm(m, deltaAddr, deltaLine);
    }
  }

  /** The shortest address step the generator gets wrong: 2^32 loses its top bit and reads as an extended opcode. */
  lemma ShortestWrongStep()
    ensures OpcodeWraps(306783377, 0)
    ensures forall deltaAddr: word, deltaLine: int32 :: OpcodeWraps(deltaAddr, deltaLine) ==> 306783377 <= deltaAddr
  {
  }

  method AppendAdvancePc(data: seq<byte>, deltaAddr: word) returns (r: seq<byte>)
    ensures r == data + AdvancePcBytes(deltaAddr)
  {
    hide EncodeUnsigned;
    r := data;
    if deltaAddr != 0 {
      r := PushUnsigned(data + [ADVANCE_PC], deltaAddr);
    }
  }

  method AppendAdvanceLine(data: seq<byte>, deltaLine: int32) returns (r: seq<byte>)
    ensures r == data + AdvanceLineBytes(deltaLine)
  {
    hide EncodeSigned;
    r := data;
    if deltaLine != 0 {
      r := PushSigned(data + [ADVANCE_LINE], deltaLine);
    }
  }

  method AppendDelta(data: seq<byte>, deltaAddr: word, deltaLine: int32) returns (r: seq<byte>)
    ensures r == data + DeltaBytes(deltaAddr, deltaLine)
  {
    hide AdvancePcBytes, AdvanceLineBytes;
    if LINE_BASE <= deltaLine < LINE_BASE + LINE_RANGE {
      var specialOpcode := Wrap(deltaLine - LINE_BASE + LINE_RANGE * deltaAddr + OPCODE_BASE);
      if specialOpcode <= 255 {
        return data + [specialOpcode];
      }
    }
    r := AppendAdvancePc(data, deltaAddr);
    r := AppendAdvanceLine(r, deltaLine);
    r := r + [COPY];
  }

  // ---------------------------------------------------------------- the generator

  /** A difference that a 32-bit signed integer can hold. */
  predicate Fits(x: int)
  {
    -0x8000_0000 <= x < 0x8000_0000
  }

  class LineTableGenerator {
    var data: seq<byte>
    var currentAddress: nat
    var currentLine: int
    var currentFileIndex: nat

    /** The machine after what has been emitted so far. */
    ghost function Machine(): Option<Machine>
      reads this
    {
      Run(Start([]), data)
    }

    /** The fields are the machine's registers; the file only once it has been set. */
    ghost predicate Tracks()
      reads this
    {
      && Machine().Some?
      && Machine().value.address == currentAddress
      && Machine().value.line == currentLine
      && Machine().value.file == if currentFileIndex == 0 then 1 else currentFileIndex
    }

    ghost function Rows(): seq<Row>
      requires Tracks()
      reads this
    {
      Machine().value.rows
    }

    constructor ()
      ensures Tracks() && Rows() == [] && currentAddress == 0 && currentLine == 1 && currentFileIndex == 0 && data == []
    {
      data, currentAddress, currentLine, currentFileIndex := [], 0, 1, 0;
    }

    method PutDelta(deltaAddr: word, deltaLine: int32)
      modifies this
      ensures data == old(data) + DeltaBytes(deltaAddr, deltaLine)
      ensures currentAddress == old(currentAddress) + deltaAddr && currentLine == old(currentLine) + deltaLine
      ensures currentFileIndex == old(currentFileIndex)
      ensures old(Tracks()) && !OpcodeWraps(deltaAddr, deltaLine) ==>
                Tracks() && Rows() == old(Rows()) + [Row(currentAddress, currentLine, old(Machine().value.file), false)]
    {
      hide Step, DeltaBytes, OpcodeWraps;
      currentLine, currentAddress := currentLine + deltaLine, currentAddress + deltaAddr;
      if old(Tracks()) {
        RunAppend(Start([]), data, DeltaBytes(deltaAddr, deltaLine));
        DeltaBytesExact(Run(Start([]), data).value, deltaAddr, deltaLine);
      }
      data := AppendDelta(data, deltaAddr, deltaLine);
    }

    method SetAddr(addr: word)
      modifies this
      ensures currentAddress == addr && currentLine == old(currentLine) && currentFileIndex == old(currentFileIndex)
      ensures old(Tracks()) ==> Tracks() && Rows() == old(Rows())
    {
      if currentAddress == addr {
        return;
      }
      currentAddress := addr;
      if old(Tracks()) {
        RunSetAddress(Machine().value, addr);
        RunAppend(Start([]), data, SetAddressBytes(addr));
      }
      data := data + SetAddressBytes(addr);
    }

    method SetLine(line: word)
      modifies this
      ensures currentAddress == old(currentAddress) && currentFileIndex == old(currentFileIndex)
      ensures Fits(line - old(currentLine)) ==> currentLine == line
      ensures old(Tracks()) && Fits(line - old(currentLine)) ==> Tracks() && Rows() == old(Rows())
    {
      hide Step, EncodeSigned;
      var deltaLine := Signed(Wrap(line - currentLine));
      if deltaLine != 0 {
        if old(Tracks()) {
          RunAdvanceLine(Machine().value, deltaLine);
          RunAppend(Start([]), data, [ADVANCE_LINE] + EncodeSigned(deltaLine));
        }
        var pushed := PushSigned(data + [ADVANCE_LINE], deltaLine);
        assert pushed == data + ([ADVANCE_LINE] + EncodeSigned(deltaLine));
        data, currentLine := pushed, line;
      }
    }

    method SetFile(fileIndex: word)
      modifies this
      ensures currentAddress == old(currentAddress) && currentLine == old(currentLine) && currentFileIndex == fileIndex
      ensures old(Tracks()) && fileIndex != 0 ==> Tracks() && Rows() == old(Rows())
    {
      hide Step, EncodeUnsigned;
      if currentFileIndex != fileIndex {
        currentFileIndex := fileIndex;
        if old(Tracks()) {
          RunSetFile(Machine().value, fileIndex);
          RunAppend(Start([]), data, [SET_FILE] + EncodeUnsigned(fileIndex));
        }
        var pushed := PushUnsigned(data + [SET_FILE], fileIndex);
        assert pushed == data + ([SET_FILE] + EncodeUnsigned(fileIndex));
        data := pushed;
      }
    }

    method EndSequence()
      modifies this`data
      ensures old(Tracks()) ==>
                Machine() ==
                Some(Start(old(Rows()) + [Row(currentAddress, currentLine, old(Machine().value.file), true)]))
    {
      if Tracks() {
        RunEndSequence(Machine().value);
        RunAppend(Start([]), data, END_SEQUENCE_BYTES);
      }
      data := data + END_SEQUENCE_BYTES;
    }
  }
}
