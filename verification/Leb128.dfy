/**
 LEB128 numbers, as the encoder appends them and as section 7.6 of DWARF Version 4 reads them.
 */
module Leb128 {
  import opened Words
  import opened RelativeCalls

  type int32 = x: int | -0x8000_0000 <= x < 0x8000_0000

  // ---------------------------------------------------------------- reading

  /** The number at the front of `s` and what follows it. */
  function DecodeUnsigned(s: seq<byte>): (r: Option<(nat, seq<byte>)>)
    ensures r.Some? ==> |r.value.1| < |s|
  {
    if s == [] then None
    else if s[0] < 0x80 then Some((s[0], s[1..]))
    else match DecodeUnsigned(s[1..])
         case Some((high, rest)) => Some((s[0] as int - 0x80 + 0x80 * high, rest))
         case None => None
  }

  /** As above, with bit 6 of the last byte the sign. */
  function DecodeSigned(s: seq<byte>): (r: Option<(int, seq<byte>)>)
    ensures r.Some? ==> |r.value.1| < |s|
  {
    if s == [] then None
    else if s[0] < 0x40 then Some((s[0], s[1..]))
    else if s[0] < 0x80 then Some((s[0] as int - 0x80, s[1..]))
    else match DecodeSigned(s[1..])
         case Some((high, rest)) => Some((s[0] as int - 0x80 + 0x80 * high, rest))
         case None => None
  }

  // ---------------------------------------------------------------- writing

  function EncodeUnsigned(v: nat): (s: seq<byte>)
    ensures s != []
  {
    if v < 0x80 then [v] else [v % 0x80 + 0x80] + EncodeUnsigned(v / 0x80)
  }

  function EncodeSigned(v: int): (s: seq<byte>)
    ensures s != []
    decreases if v < 0 then -v else v
  {
    if -0x40 <= v < 0x40 then [v % 0x80] else [v % 0x80 + 0x80] + EncodeSigned(v / 0x80)
  }

  lemma {:induction false} UnsignedRoundTrip(v: nat, rest: seq<byte>)
    ensures DecodeUnsigned(EncodeUnsigned(v) + rest) == Some((v, rest))
  {
    var s := EncodeUnsigned(v) + rest;
    if v < 0x80 {
      assert s[1..] == rest;
    } else {
      assert s[1..] == EncodeUnsigned(v / 0x80) + rest;
      UnsignedRoundTrip(v / 0x80, rest);
    }
  }

  lemma {:induction false} SignedRoundTrip(v: int, rest: seq<byte>)
    ensures DecodeSigned(EncodeSigned(v) + rest) == Some((v, rest))
    decreases if v < 0 then -v else v
  {
    var s := EncodeSigned(v) + rest;
    if -0x40 <= v < 0x40 {
      assert s[1..] == rest;
    } else {
      assert s[1..] == EncodeSigned(v / 0x80) + rest;
      SignedRoundTrip(v / 0x80, rest);
    }
  }

  /** No shorter sequence of bytes reads as the same number. */
  lemma {:induction false} UnsignedIsShortest(v: nat, s: seq<byte>)
    requires DecodeUnsigned(s).Some? && DecodeUnsigned(s).value.0 == v
    ensures |EncodeUnsigned(v)| <= |s| - |DecodeUnsigned(s).value.1|
    decreases |s|
  {
    if 0x80 <= v {
      var high := DecodeUnsigned(s[1..]).value.0;
      assert v == s[0] as int - 0x80 + 0x80 * high;
      assert v / 0x80 == high;
      UnsignedIsShortest(high, s[1..]);
    }
  }

  lemma {:induction false} SignedIsShortest(v: int, s: seq<byte>)
    requires DecodeSigned(s).Some? && DecodeSigned(s).value.0 == v
    ensures |EncodeSigned(v)| <= |s| - |DecodeSigned(s).value.1|
    decreases |s|
  {
    if !(-0x40 <= v < 0x40) {
      var high := DecodeSigned(s[1..]).value.0;
      assert v == s[0] as int - 0x80 + 0x80 * high;
      assert v / 0x80 == high;
      SignedIsShortest(high, s[1..]);
    }
  }

  lemma {:induction false} DecodeUnsignedAppend(s: seq<byte>, rest: seq<byte>)
    requires DecodeUnsigned(s).Some?
    ensures DecodeUnsigned(s + rest) == Some((DecodeUnsigned(s).value.0, DecodeUnsigned(s).value.1 + rest))
  {
    assert (s + rest)[1..] == s[1..] + rest;
    if s[0] >= 0x80 {
      DecodeUnsignedAppend(s[1..], rest);
    }
  }

  lemma {:induction false} DecodeSignedAppend(s: seq<byte>, rest: seq<byte>)
    requires DecodeSigned(s).Some?
    ensures DecodeSigned(s + rest) == Some((DecodeSigned(s).value.0, DecodeSigned(s).value.1 + rest))
  {
    assert (s + rest)[1..] == s[1..] + rest;
    if s[0] >= 0x80 {
      DecodeSignedAppend(s[1..], rest);
    }
  }

  // ---------------------------------------------------------------- the encoder's loops

  /** PushBackUnsigned */
  method PushUnsigned(data: seq<byte>, value: word) returns (r: seq<byte>)
    ensures r == data + EncodeUnsigned(value)
  {
    r := data;
    var out, v: nat := value % 0x80, value / 0x80;
    while v != 0
      invariant 0 <= out < 0x80
      invariant r + EncodeUnsigned(0x80 * v + out) == data + EncodeUnsigned(value)
      decreases v
    {
      r := r + [out + 0x80];
      out, v := v % 0x80, v / 0x80;
    }
    r := r + [out];
  }

  /** v ^ (v >> 31): the bits of `v` that differ from its sign. */
  function Magnitude(v: int): nat
  {
    if v < 0 then -v - 1 else v
  }

  lemma ShiftMagnitude(v: int)
    ensures Magnitude(v) / 0x40 / 0x80 == Magnitude(v / 0x80) / 0x40
    ensures Magnitude(v) / 0x40 == 0 <==> -0x40 <= v < 0x40
  {
  }

  /** PushBackSigned */
  method PushSigned(data: seq<byte>, value: int32) returns (r: seq<byte>)
    ensures r == data + EncodeSigned(value)
  {
    r := data;
    var extraBits, v: int := Magnitude(value) / 0x40, value;
    while extraBits != 0
      invariant extraBits == Magnitude(v) / 0x40
      invariant r + EncodeSigned(v) == data + EncodeSigned(value)
      decreases extraBits
    {
      ShiftMagnitude(v);
      r := r + [v % 0x80 + 0x80];
      extraBits, v := extraBits / 0x80, v / 0x80;
    }
    ShiftMagnitude(v);
    r := r + [v % 0x80];
  }
}
