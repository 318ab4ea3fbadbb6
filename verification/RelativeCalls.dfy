/**
 Relative calls (BL) of the ARM back ends: how far they reach, which displacement the patcher
 picks, the bytes it writes, and what a processor branches to when it executes those bytes.
 */
module RelativeCalls {
  import opened Words

  datatype Option<+T> = None | Some(value: T)

  datatype Isa = Thumb2 | Arm64

  /** Offsets stay below this, so that no wrapped difference looks like a short displacement. */
  const OFFSET_LIMIT: int := 0xf000_0000

  /** Largest forward displacement of a BL, measured from the BL itself. */
  function MaxPositive(isa: Isa): int
  {
    if isa.Thumb2? then 0x100_0000 - 2 + 4 else 0x800_0000 - 4
  }

  /** Largest backward displacement of a BL, measured from the BL itself. */
  function MaxNegative(isa: Isa): int
  {
    if isa.Thumb2? then 0x100_0000 - 4 else 0x800_0000
  }

  /** Instructions start at such offsets. */
  predicate OnBoundary(isa: Isa, offset: int)
  {
    if isa.Thumb2? then offset % 2 == 0 else offset % 4 == 0
  }

  /** A BL at `from` can branch straight to `to`. */
  predicate InRange(isa: Isa, from: int, to: int)
  {
    -MaxNegative(isa) <= to - from <= MaxPositive(isa)
  }

  /** The displacement chosen for a call; None where the source reads thunk_locations_[-1]. */
  function CalculateDisplacement(isa: Isa, thunks: seq<nat>, nextThunk: nat, patchOffset: nat, targetOffset: nat)
    : (r: Option<word>)
    requires nextThunk <= |thunks|
  {
    var displacement := Wrap(targetOffset - patchOffset);
    if displacement > MaxPositive(isa) && displacement < Wrap(-MaxNegative(isa)) then
      if nextThunk < |thunks| && Wrap(thunks[nextThunk] - patchOffset) < MaxPositive(isa) then
        Some(Wrap(thunks[nextThunk] - patchOffset))
      else if nextThunk == 0 then
        None
      else
        Some(Wrap(thunks[nextThunk - 1] - patchOffset))
    else
      Some(displacement)
  }

  /** The thunks still to be written lie after the BL, those already written lie before it. */
  ghost predicate ThunksAround(thunks: seq<nat>, nextThunk: nat, at: nat)
  {
    && nextThunk <= |thunks|
    && (forall k :: 0 <= k < nextThunk ==> thunks[k] < at)
    && (forall k :: nextThunk <= k < |thunks| ==> at < thunks[k] < OFFSET_LIMIT)
  }

  /** The call is redirected, if at all, to a thunk, and stays inside the BL's range. */
  ghost predicate Lands(isa: Isa, thunks: seq<nat>, r: Option<word>, at: nat, target: nat)
  {
    && r.Some?
    && var to := at + Signed(r.value);
    && (to == target || to in thunks)
    && InRange(isa, at, to)
  }

  /**
   The displacement is usable exactly when the target is in range, the next thunk is strictly
   closer than the positive limit, or the previous thunk is within the negative limit. A next
   thunk exactly at the positive limit is reachable for the BL but not chosen.
   */
  lemma DisplacementLandsExactlyWhen(isa: Isa, thunks: seq<nat>, nextThunk: nat, at: nat, target: nat)
    requires at < OFFSET_LIMIT && target < OFFSET_LIMIT
    requires ThunksAround(thunks, nextThunk, at)
    ensures Lands(isa, thunks, CalculateDisplacement(isa, thunks, nextThunk, at, target), at, target) <==>
            || InRange(isa, at, target)
            || (nextThunk < |thunks| && thunks[nextThunk] - at < MaxPositive(isa))
            || (0 < nextThunk && at - thunks[nextThunk - 1] <= MaxNegative(isa))
  {
    hide Wrap, Signed;
    DirectExactlyInRange(isa, at, target);
    if nextThunk < |thunks| {
      assert at < thunks[nextThunk] < OFFSET_LIMIT;
      DirectExactlyInRange(isa, at, thunks[nextThunk]);
    }
    if 0 < nextThunk {
      assert thunks[nextThunk - 1] < at;
      DirectExactlyInRange(isa, at, thunks[nextThunk - 1]);
    }
  }

  /**
   Where the call goes: straight to its target whenever that is in range, otherwise to the next
   thunk if that is strictly closer than the positive limit, otherwise to the previous thunk.
   */
  lemma DisplacementGoes(isa: Isa, thunks: seq<nat>, nextThunk: nat, at: nat, target: nat)
    requires at < OFFSET_LIMIT && target < OFFSET_LIMIT
    requires ThunksAround(thunks, nextThunk, at)
    ensures var r := CalculateDisplacement(isa, thunks, nextThunk, at, target);
            var nextServes := nextThunk < |thunks| && thunks[nextThunk] - at < MaxPositive(isa);
            && (InRange(isa, at, target) ==> r.Some? && Signed(r.value) == target - at)
            && (!InRange(isa, at, target) && nextServes ==> r.Some? && Signed(r.value) == thunks[nextThunk] - at)
            && (!InRange(isa, at, target) && !nextServes && 0 < nextThunk ==>
                  r.Some? && (at - thunks[nextThunk - 1] <= MaxNegative(isa) ==>
                                Signed(r.value) == thunks[nextThunk - 1] - at))
            && (!InRange(isa, at, target) && !nextServes && nextThunk == 0 ==> r.None?)
  {
    hide Wrap, Signed;
    DirectExactlyInRange(isa, at, target);
    if nextThunk < |thunks| {
      assert at < thunks[nextThunk] < OFFSET_LIMIT;
      DirectExactlyInRange(isa, at, thunks[nextThunk]);
    }
    if 0 < nextThunk {
      assert thunks[nextThunk - 1] < at;
      DirectExactlyInRange(isa, at, thunks[nextThunk - 1]);
    }
  }

  /** The unsigned range test, written with && rather than ||, agrees with the signed range. */
  lemma DirectExactlyInRange(isa: Isa, at: nat, to: nat)
    requires at < OFFSET_LIMIT && to < OFFSET_LIMIT
    ensures var d := Wrap(to - at);
            && (d > MaxPositive(isa) && d < Wrap(-MaxNegative(isa)) <==> !InRange(isa, at, to))
            && (InRange(isa, at, to) ==> Signed(d) == to - at)
            && (at < to ==> d == to - at)
            && (!InRange(isa, at, to) ==> !InRange(isa, at, at + Signed(d)))
  {
    WrapDifference(to, at);
  }

  lemma WrapDifference(a: nat, b: nat)
    requires a < 0x1_0000_0000 && b < 0x1_0000_0000
    ensures Wrap(a - b) == if a >= b then a - b else a - b + 0x1_0000_0000
  {
  }

  // ---------------------------------------------------------------- instruction bytes

  /** The four bytes Thumb2RelativeCallPatcher::Patch stores. */
  function BlThumb2(displacement: word): (s: seq<byte>)
    ensures |s| == 4
  {
    PackThumb2(displacement / 0x8000_0000, displacement / 0x80_0000 % 2, displacement / 0x40_0000 % 2,
               displacement / 0x1000 % 0x400, displacement / 2 % 0x800)
  }

  /** A T1 BL from its fields; the source or-s them together, they are disjoint and so are added. */
  function PackThumb2(sign: int, i1: int, i2: int, imm10: int, imm11: int): (s: seq<byte>)
    ensures |s| == 4
  {
    var j1 := if i1 == sign then 1 else 0;  // i1 ^ (sign ^ 1)
    var j2 := if i2 == sign then 1 else 0;  // i2 ^ (sign ^ 1)
    var value: int := 0xf000_d000 + sign * 0x400_0000 + imm10 * 0x1_0000 + j1 * 0x2000 + j2 * 0x800 + imm11;
    [value / 0x1_0000 % 0x100, value / 0x100_0000 % 0x100, value % 0x100, value / 0x100 % 0x100]
  }

  /** The four bytes Arm64RelativeCallPatcher::Patch stores. */
  function BlArm64(displacement: word): (s: seq<byte>)
    ensures |s| == 4
  {
    var imm26 := displacement % 0x1000_0000 / 4;
    LittleEndian(Wrap(0x9400_0000 + imm26))
  }

  function BlBytes(isa: Isa, displacement: word): (s: seq<byte>)
    ensures |s| == 4
  {
    match isa
    case Thumb2 => BlThumb2(Wrap(displacement - 4))
    case Arm64 => BlArm64(displacement)
  }

  /**
   Branch target of the four bytes at `address`: encoding T1 of BL in the ARM Architecture
   Reference Manual (S:I1:I2:imm10:imm11:0 from the PC, which is address + 4), None if not a BL.
   */
  function ExecuteThumb2(s: seq<byte>, address: int): Option<int>
    requires |s| == 4
  {
    ExecuteHalfWords(s[0] as int + 0x100 * (s[1] as int), s[2] as int + 0x100 * (s[3] as int), address)
  }

  function ExecuteHalfWords(hw1: int, hw2: int, address: int): Option<int>
  {
    if hw1 / 0x800 != 0x1e || hw2 / 0x4000 != 3 || hw2 / 0x1000 % 2 != 1 then
      None
    else
      var sign, imm10 := hw1 / 0x400 % 2, hw1 % 0x400;
      var j1, j2, imm11 := hw2 / 0x2000 % 2, hw2 / 0x800 % 2, hw2 % 0x800;
      var i1 := if j1 == sign then 1 else 0;  // NOT(J1 EOR S)
      var i2 := if j2 == sign then 1 else 0;  // NOT(J2 EOR S)
      var unsigned := i1 * 0x80_0000 + i2 * 0x40_0000 + imm10 * 0x1000 + imm11 * 2;
      Some(address + 4 + unsigned - sign * 0x100_0000)
  }

  /** Branch target of an A64 BL (imm26 words from the BL), None if the bytes are not a BL. */
  function ExecuteArm64(s: seq<byte>, address: int): Option<int>
    requires |s| == 4
  {
    var value := FromLittleEndian(s);
    if value / 0x400_0000 != 0x25 then
      None
    else
      var imm26 := value % 0x400_0000;
      Some(address + 4 * (if imm26 < 0x200_0000 then imm26 else imm26 - 0x400_0000))
  }

  function Execute(isa: Isa, s: seq<byte>, address: int): Option<int>
    requires |s| == 4
  {
    match isa
    case Thumb2 => ExecuteThumb2(s, address)
    case Arm64 => ExecuteArm64(s, address)
  }

  /** Splitting an even 25-bit magnitude into the fields of the T1 encoding loses nothing. */
  lemma Thumb2Fields(d: word)
    ensures d % 0x100_0000 == d / 0x80_0000 % 2 * 0x80_0000 + d / 0x40_0000 % 2 * 0x40_0000
                              + d / 0x1000 % 0x400 * 0x1000 + d / 2 % 0x800 * 2 + d % 2
  {
    var a := d / 2;
    var b := a / 0x800;
    assert b == d / 0x1000;
    var c := b / 0x400;
    assert c == d / 0x40_0000;
    assert d == 0x40_0000 * c + b % 0x400 * 0x1000 + a % 0x800 * 2 + d % 2;
    var e := c / 2;
    assert e == d / 0x80_0000;
    assert d == 0x80_0000 * e + c % 2 * 0x40_0000 + b % 0x400 * 0x1000 + a % 0x800 * 2 + d % 2;
    assert d == 0x100_0000 * (e / 2) + e % 2 * 0x80_0000 + c % 2 * 0x40_0000
                + b % 0x400 * 0x1000 + a % 0x800 * 2 + d % 2;
  }

  lemma BlThumb2Executes(d: word, address: int)
    requires d % 2 == 0 && -0x100_0000 <= Signed(d) < 0x100_0000
    ensures ExecuteThumb2(BlThumb2(d), address) == Some(address + 4 + Signed(d))
  {
    hide PackThumb2, ExecuteThumb2;
    var sign := d / 0x8000_0000;
    PackedFieldsExecute(address, sign, d / 0x80_0000 % 2, d / 0x40_0000 % 2, d / 0x1000 % 0x400, d / 2 % 0x800);
    Thumb2Fields(d);
    assert Signed(d) == d % 0x100_0000 - sign * 0x100_0000;
  }

  lemma PackedFieldsExecute(address: int, sign: int, i1: int, i2: int, imm10: int, imm11: int)
    requires 0 <= sign <= 1 && 0 <= i1 <= 1 && 0 <= i2 <= 1 && 0 <= imm10 < 0x400 && 0 <= imm11 < 0x800
    ensures ExecuteThumb2(PackThumb2(sign, i1, i2, imm10, imm11), address) ==
            Some(address + 4 + i1 * 0x80_0000 + i2 * 0x40_0000 + imm10 * 0x1000 + imm11 * 2 - sign * 0x100_0000)
  {
    var j1 := if i1 == sign then 1 else 0;
    var j2 := if i2 == sign then 1 else 0;
    hide ExecuteHalfWords;
    HalfWords(0xf000 + sign * 0x400 + imm10, 0xd000 + j1 * 0x2000 + j2 * 0x800 + imm11);
    HalfWordsExecute(address, sign, i1, i2, imm10, imm11);
  }

  lemma HalfWordsExecute(address: int, sign: int, i1: int, i2: int, imm10: int, imm11: int)
    requires 0 <= sign <= 1 && 0 <= i1 <= 1 && 0 <= i2 <= 1 && 0 <= imm10 < 0x400 && 0 <= imm11 < 0x800
    ensures var j1 := if i1 == sign then 1 else 0;
            var j2 := if i2 == sign then 1 else 0;
            ExecuteHalfWords(0xf000 + sign * 0x400 + imm10, 0xd000 + j1 * 0x2000 + j2 * 0x800 + imm11, address) ==
            Some(address + 4 + i1 * 0x80_0000 + i2 * 0x40_0000 + imm10 * 0x1000 + imm11 * 2 - sign * 0x100_0000)
  {
    var j1 := if i1 == sign then 1 else 0;
    var j2 := if i2 == sign then 1 else 0;
    var hw1, hw2 := 0xf000 + sign * 0x400 + imm10, 0xd000 + j1 * 0x2000 + j2 * 0x800 + imm11;
    assert hw1 % 0x400 == imm10 && hw1 / 0x400 == 0x3c + sign;
    assert hw2 % 0x800 == imm11 && hw2 / 0x800 == 0x1a + j1 * 4 + j2;
    assert hw2 / 0x1000 == 0xd + j1 * 2;
  }

  lemma HalfWords(high: int, low: int)
    requires 0 <= high < 0x1_0000 && 0 <= low < 0x1_0000
    ensures var v := high * 0x1_0000 + low;
            && v / 0x1_0000 % 0x100 + 0x100 * (v / 0x100_0000 % 0x100) == high
            && v % 0x100 + 0x100 * (v / 0x100 % 0x100) == low
  {
    var v := high * 0x1_0000 + low;
    assert v / 0x1_0000 == high;
    assert v / 0x100_0000 == high / 0x100;
    assert v / 0x100 == high * 0x100 + low / 0x100;
  }

  lemma Imm26(imm26: nat)
    requires imm26 < 0x400_0000
    ensures (0x9400_0000 + imm26) / 0x400_0000 == 0x25 && (0x9400_0000 + imm26) % 0x400_0000 == imm26
    ensures Wrap(0x9400_0000 + imm26) == 0x9400_0000 + imm26
  {
  }

  lemma SignedImm26(d: word, imm26: nat)
    requires d % 4 == 0 && -0x800_0000 <= Signed(d) < 0x800_0000 && imm26 == d % 0x1000_0000 / 4
    ensures imm26 < 0x400_0000 && 4 * (if imm26 < 0x200_0000 then imm26 else imm26 - 0x400_0000) == Signed(d)
  {
    assert d % 0x1000_0000 == if d < 0x800_0000 then d else d - 0xf000_0000;
    assert d % 0x1000_0000 == 4 * imm26;
  }

  lemma BlArm64Executes(d: word, address: int)
    requires d % 4 == 0 && -0x800_0000 <= Signed(d) < 0x800_0000
    ensures ExecuteArm64(BlArm64(d), address) == Some(address + Signed(d))
  {
    hide LittleEndian, FromLittleEndian;
    var imm26 := d % 0x1000_0000 / 4;
    SignedImm26(d, imm26);
    hide Signed;
    Imm26(imm26);
    LittleEndianRoundTrip(0x9400_0000 + imm26);
  }

  /** The Thumb2 PC is four bytes ahead of the instruction. */
  lemma ThumbDisplacement(displacement: word)
    requires displacement % 2 == 0 && InRange(Thumb2, 0, Signed(displacement))
    ensures Signed(Wrap(displacement - 4)) == Signed(displacement) - 4 && Wrap(displacement - 4) % 2 == 0
  {
  }

  /** No BL branches out of range. */
  lemma BranchesStayInRange(isa: Isa, s: seq<byte>, address: int)
    requires |s| == 4
    ensures Execute(isa, s, address).Some? ==> InRange(isa, address, Execute(isa, s, address).value)
  {
    hide FromLittleEndian;
  }

  /** The limits are those of the instruction: the bytes branch where they should if and only if that is in range. */
  lemma BlExecutesExactlyWhen(isa: Isa, displacement: word, address: int)
    requires OnBoundary(isa, displacement)
    ensures Execute(isa, BlBytes(isa, displacement), address) == Some(address + Signed(displacement)) <==>
            InRange(isa, 0, Signed(displacement))
  {
    hide Wrap, Signed, Execute, BlBytes;
    BranchesStayInRange(isa, BlBytes(isa, displacement), address);
    if InRange(isa, 0, Signed(displacement)) {
      BlExecutes(isa, displacement, address);
    }
  }

  /** Whatever in-range place the patcher aims at, the bytes it writes branch exactly there. */
  lemma BlExecutes(isa: Isa, displacement: word, address: int)
    requires OnBoundary(isa, displacement)
    requires InRange(isa, 0, Signed(displacement))
    ensures Execute(isa, BlBytes(isa, displacement), address) == Some(address + Signed(displacement))
  {
    hide Wrap, Signed, ExecuteThumb2, ExecuteArm64, BlThumb2, BlArm64;
    match isa
    case Thumb2 =>
      ThumbDisplacement(displacement);
      BlThumb2Executes(Wrap(displacement - 4), address);
    case Arm64 =>
      BlArm64Executes(displacement, address);
  }
}
