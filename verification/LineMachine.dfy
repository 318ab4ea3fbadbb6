/**
 The line number state machine of section 6.2 of DWARF Version 4, for the header the writer emits:
 minimum_instruction_length 1, line_base -5, line_range 14, opcode_base 13, 4-byte addresses.
 Registers that influence neither address, line nor file are not kept.
 */
module LineMachine {
  import opened Words
  import opened RelativeCalls
  import opened Leb128

  datatype Row = Row(address: nat, line: int, file: nat, endSequence: bool)

  datatype Machine = Machine(address: nat, line: int, file: nat, rows: seq<Row>)
  {
    /** The row the registers describe is appended to the matrix. */
    function Append(endSequence: bool): Machine
    {
      this.(rows := rows + [Row(address, line, file, endSequence)])
    }

    function Advance(addressDelta: nat, lineDelta: int): Machine
    {
      this.(address := address + addressDelta, line := line + lineDelta)
    }
  }

  /** The registers at the start of a sequence. */
  function Start(rows: seq<Row>): Machine
  {
    Machine(0, 1, 1, rows)
  }

  const LINE_BASE := -5
  const LINE_RANGE := 14
  const OPCODE_BASE := 13

  const COPY: byte := 1
  const ADVANCE_PC: byte := 2
  const ADVANCE_LINE: byte := 3
  const SET_FILE: byte := 4
  const END_SEQUENCE: byte := 1
  const SET_ADDRESS: byte := 2

  /** An opcode of 13 or more: section 6.2.5.1. */
  function Special(m: Machine, opcode: byte): Machine
    requires OPCODE_BASE <= opcode as int
  {
    var adjusted := opcode as int - OPCODE_BASE;
    m.Advance(adjusted / LINE_RANGE, LINE_BASE + adjusted % LINE_RANGE).Append(false)
  }

  /** An opcode introduced by a zero byte and its length: section 6.2.5.3. */
  function Extended(m: Machine, s: seq<byte>): (r: Option<(Machine, seq<byte>)>)
    ensures r.Some? ==> |r.value.1| < |s|
  {
    match DecodeUnsigned(s)
    case None => None
    case Some((length, t)) =>
      if length == 0 || length > |t| then None
      else if t[0] == END_SEQUENCE then Some((Start(m.Append(true).rows), t[length..]))
      else if t[0] == SET_ADDRESS then
        if length == 5 then Some((m.(address := FromLittleEndian(t[1..5])), t[5..])) else None
      else Some((m, t[length..]))
  }

  /** A standard opcode: section 6.2.5.2. */
  function Standard(m: Machine, opcode: byte, s: seq<byte>): (r: Option<(Machine, seq<byte>)>)
    requires 0 < opcode as int < OPCODE_BASE
    ensures r.Some? ==> |r.value.1| <= |s|
  {
    match opcode
    case 1 => Some((m.Append(false), s))
    case 2 =>
      (match DecodeUnsigned(s)
       case Some((delta, rest)) => Some((m.Advance(delta, 0), rest))
       case None => None)
    case 3 =>
      (match DecodeSigned(s)
       case Some((delta, rest)) => Some((m.Advance(0, delta), rest))
       case None => None)
    case 4 =>
      (match DecodeUnsigned(s)
       case Some((file, rest)) => Some((m.(file := file), rest))
       case None => None)
    case 8 => Some((m.Advance((255 - OPCODE_BASE) / LINE_RANGE, 0), s))
    case 9 => if |s| < 2 then None else Some((m.Advance(s[0] as int + 0x100 * (s[1] as int), 0), s[2..]))
    case _ =>
      // set_column and set_isa take one unsigned argument; the others take none
      if opcode == 5 || opcode == 12 then
        match DecodeUnsigned(s)
        case Some((_, rest)) => Some((m, rest))
        case None => None
      else
        Some((m, s))
  }

  function Step(m: Machine, s: seq<byte>): (r: Option<(Machine, seq<byte>)>)
    requires s != []
    ensures r.Some? ==> |r.value.1| < |s|
  {
    if OPCODE_BASE <= s[0] as int then Some((Special(m, s[0]), s[1..]))
    else if s[0] == 0 then Extended(m, s[1..])
    else Standard(m, s[0], s[1..])
  }

  /** Runs a whole program; there is no result when an instruction is cut short. */
  function Run(m: Machine, s: seq<byte>): Option<Machine>
    decreases |s|
  {
    if s == [] then Some(m)
    else match Step(m, s)
         case Some((m', rest)) => Run(m', rest)
         case None => None
  }

  // ---------------------------------------------------------------- running in parts

  lemma ExtendedAppend(m: Machine, s: seq<byte>, t: seq<byte>)
    requires Extended(m, s).Some?
    ensures Extended(m, s + t) == Some((Extended(m, s).value.0, Extended(m, s).value.1 + t))
  {
    hide DecodeUnsigned, FromLittleEndian;
    DecodeUnsignedAppend(s, t);
    var (length, rest) := DecodeUnsigned(s).value;
    assert (rest + t)[length..] == rest[length..] + t;
    if length == 5 {
      assert (rest + t)[1..5] == rest[1..5];
    }
  }

  lemma StandardAppend(m: Machine, opcode: byte, s: seq<byte>, t: seq<byte>)
    requires 0 < opcode as int < OPCODE_BASE && Standard(m, opcode, s).Some?
    ensures Standard(m, opcode, s + t) == Some((Standard(m, opcode, s).value.0, Standard(m, opcode, s).value.1 + t))
  {
    hide DecodeUnsigned, DecodeSigned;
    if opcode == 3 {
      DecodeSignedAppend(s, t);
    } else if opcode in {2, 4, 5, 12} {
      DecodeUnsignedAppend(s, t);
    } else if opcode == 9 {
      assert (s + t)[2..] == s[2..] + t;
    }
  }

  lemma StepAppend(m: Machine, s: seq<byte>, t: seq<byte>)
    requires s != [] && Step(m, s).Some?
    ensures Step(m, s + t) == Some((Step(m, s).value.0, Step(m, s).value.1 + t))
  {
    hide Extended, Standard, Special;
    assert (s + t)[1..] == s[1..] + t;
    if s[0] == 0 {
      ExtendedAppend(m, s[1..], t);
    } else if s[0] as int < OPCODE_BASE {
      StandardAppend(m, s[0], s[1..], t);
    }
  }

  /** A program is run by running its parts one after the other. */
  lemma {:induction false} RunAppend(m: Machine, s: seq<byte>, t: seq<byte>)
    requires Run(m, s).Some?
    ensures Run(m, s + t) == Run(Run(m, s).value, t)
    decreases |s|
  {
    hide Step;
    if s == [] {
      assert s + t == t;
    } else {
      StepAppend(m, s, t);
      RunAppend(Step(m, s).value.0, Step(m, s).value.1, t);
    }
  }

  // ---------------------------------------------------------------- single instructions

  lemma RunCopy(m: Machine)
    ensures Run(m, [COPY]) == Some(m.Append(false))
  {
  }

  lemma RunAdvancePc(m: Machine, delta: nat)
    ensures Run(m, [ADVANCE_PC] + EncodeUnsigned(delta)) == Some(m.Advance(delta, 0))
  {
    hide DecodeUnsigned, EncodeUnsigned;
    UnsignedRoundTrip(delta, []);
    assert EncodeUnsigned(delta) + [] == EncodeUnsigned(delta);
    assert ([ADVANCE_PC] + EncodeUnsigned(delta))[1..] == EncodeUnsigned(delta);
  }

  lemma RunAdvanceLine(m: Machine, delta: int)
    ensures Run(m, [ADVANCE_LINE] + EncodeSigned(delta)) == Some(m.Advance(0, delta))
  {
    hide DecodeSigned, EncodeSigned;
    SignedRoundTrip(delta, []);
    assert EncodeSigned(delta) + [] == EncodeSigned(delta);
    assert ([ADVANCE_LINE] + EncodeSigned(delta))[1..] == EncodeSigned(delta);
  }

  lemma RunSetFile(m: Machine, file: nat)
    ensures Run(m, [SET_FILE] + EncodeUnsigned(file)) == Some(m.(file := file))
  {
    hide DecodeUnsigned, EncodeUnsigned;
    UnsignedRoundTrip(file, []);
    assert EncodeUnsigned(file) + [] == EncodeUnsigned(file);
    assert ([SET_FILE] + EncodeUnsigned(file))[1..] == EncodeUnsigned(file);
  }

  function SetAddressBytes(address: word): seq<byte>
  {
    [0, 5, SET_ADDRESS] + LittleEndian(address)
  }

  lemma RunSetAddress(m: Machine, address: word)
    ensures Run(m, SetAddressBytes(address)) == Some(m.(address := address))
  {
    hide LittleEndian, FromLittleEndian;
    LittleEndianRoundTrip(address);
    var s := SetAddressBytes(address);
    assert s[1..][1..] == [SET_ADDRESS] + LittleEndian(address);
    assert ([SET_ADDRESS] + LittleEndian(address))[1..5] == LittleEndian(address);
    assert ([SET_ADDRESS] + LittleEndian(address))[5..] == [];
  }

  const END_SEQUENCE_BYTES: seq<byte> := [0, 1, END_SEQUENCE]

  lemma RunEndSequence(m: Machine)
    ensures Run(m, END_SEQUENCE_BYTES) == Some(Start(m.Append(true).rows))
  {
  }
}
