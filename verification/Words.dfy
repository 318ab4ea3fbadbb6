/**
 Fixed-width words and bytes: 32-bit wrap-around, little-endian storage and rounding.
 */
module Words {

  type byte = b: int | 0 <= b < 0x100

  type word = w: int | 0 <= w < 0x1_0000_0000

  /** Unsigned 32-bit wrap-around. */
  function Wrap(x: int): (w: word)
  {
    x % 0x1_0000_0000
  }

  /** The value of a word read as a two's complement 32-bit integer. */
  function Signed(w: word): (x: int)
    ensures -0x8000_0000 <= x < 0x8000_0000
    ensures Wrap(x) == w
  {
    if w < 0x8000_0000 then w else w - 0x1_0000_0000
  }

  function LittleEndian(w: word): (s: seq<byte>)
    ensures |s| == 4
  {
    [w % 0x100, w / 0x100 % 0x100, w / 0x1_0000 % 0x100, w / 0x100_0000 % 0x100]
  }

  function FromLittleEndian(s: seq<byte>): word
    requires |s| == 4
  {
    s[0] as int + 0x100 * (s[1] as int) + 0x1_0000 * (s[2] as int) + 0x100_0000 * (s[3] as int)
  }

  lemma LittleEndianRoundTrip(w: word)
    ensures FromLittleEndian(LittleEndian(w)) == w
  {
    var h := w / 0x100;
    assert w == 0x100 * h + w % 0x100;
    var g := h / 0x100;
    assert h == 0x100 * g + h % 0x100 && g == w / 0x1_0000;
    var f := g / 0x100;
    assert g == 0x100 * f + g % 0x100 && f == w / 0x100_0000;
  }

  function WordAt(s: seq<byte>, k: nat): word
    requires k + 4 <= |s|
  {
    FromLittleEndian(s[k..k + 4])
  }

  /** `s` with `patch` copied over the bytes starting at `k`. */
  function Overwrite<T>(s: seq<T>, k: nat, patch: seq<T>): (r: seq<T>)
    requires k + |patch| <= |s|
    ensures |r| == |s|
    ensures r[k..k + |patch|] == patch
    ensures forall i :: 0 <= i < |s| && !(k <= i < k + |patch|) ==> r[i] == s[i]
  {
    s[..k] + patch + s[k + |patch|..]
  }

  /** `part` stands in `s` at index `at`. */
  predicate Holds<T(==)>(s: seq<T>, at: int, part: seq<T>)
  {
    0 <= at && at + |part| <= |s| && s[at..at + |part|] == part
  }

  lemma HoldsInSum<T>(left: seq<T>, right: seq<T>, at: int, part: seq<T>)
    ensures Holds(left, at, part) ==> Holds(left + right, at, part)
    ensures Holds(right, at, part) ==> Holds(left + right, |left| + at, part)
  {
  }

  lemma HoldsInside<T>(s: seq<T>, at: int, part: seq<T>, inner: int, sub: seq<T>)
    requires Holds(s, at, part) && Holds(part, inner, sub)
    ensures Holds(s, at + inner, sub)
  {
    forall y | 0 <= y < |sub|
      ensures s[at + inner + y] == sub[y]
    {
      assert s[at..at + |part|][inner + y] == part[inner + y];
      assert part[inner..inner + |sub|][y] == sub[y];
    }
    assert s[at + inner..at + inner + |sub|] == sub;
  }

  /** RoundUp of runtime/utils.h for any positive alignment. */
  function RoundUp(x: nat, n: nat): nat
    requires n > 0
  {
    if x % n == 0 then x else x + (n - x % n)
  }

  /** RoundUp is the least multiple of the alignment that is not below its argument. */
  lemma RoundUpIsLeast(x: nat, n: nat)
    requires n > 0
    ensures x <= RoundUp(x, n) < x + n
    ensures RoundUp(x, n) % n == 0
    ensures forall y: nat :: x <= y && y % n == 0 ==> RoundUp(x, n) <= y
  {
    var q, r := x / n, x % n;
    assert x == q * n + r;
    if r != 0 {
      assert RoundUp(x, n) == (q + 1) * n;
      MultipleMod(q + 1, n);
    }
    forall y: nat | x <= y && y % n == 0
      ensures RoundUp(x, n) <= y
    {
      var k := y / n;
      assert y == k * n;
      if y < RoundUp(x, n) {
        NoMultipleBetween(q, k, n);
        assert false;
      }
    }
  }

  lemma MultipleMod(q: nat, n: nat)
    requires n > 0
    ensures q * n % n == 0
  {
    var x := q * n;
    var k, r := x / n, x % n;
    assert x == k * n + r;
    if r != 0 {
      NoMultipleBetween(k, q, n);
      assert false;
    }
  }

  lemma NoMultipleBetween(q: nat, k: nat, n: nat)
    ensures k * n <= q * n || (q + 1) * n <= k * n
  {
    if k <= q {
      assert q * n == k * n + (q - k) * n;
    } else {
      assert k * n == (q + 1) * n + (k - q - 1) * n;
    }
  }

  // ---------------------------------------------------------------- bits

  /** Bitwise exclusive or. */
  function Xor(a: nat, b: nat): nat
  {
    if a == 0 && b == 0 then 0 else (a + b) % 2 + 2 * Xor(a / 2, b / 2)
  }

  /** Bitwise or. */
  function Or(a: nat, b: nat): nat
  {
    if a == 0 && b == 0 then 0 else (if a % 2 == 1 || b % 2 == 1 then 1 else 0) + 2 * Or(a / 2, b / 2)
  }

  function Pow2(k: nat): (r: nat)
    ensures 0 < r
  {
    if k == 0 then 1 else 2 * Pow2(k - 1)
  }

  lemma {:induction false} OrZero(a: nat)
    ensures Or(a, 0) == a && Or(0, a) == a
  {
    if a != 0 {
      OrZero(a / 2);
    }
  }

  /** Bits that do not overlap are joined by addition. */
  lemma {:induction false} OrDisjoint(a: nat, b: nat, k: nat)
    requires a < Pow2(k)
    ensures Or(a, b * Pow2(k)) == a + b * Pow2(k)
  {
    if k == 0 {
      OrZero(b);
      assert b * Pow2(0) == b;
    } else {
      var half := b * Pow2(k - 1);
      assert b * Pow2(k) == 2 * half;
      OrDisjoint(a / 2, b, k - 1);
    }
  }

  /** The bits of `a` that are not in `b`. */
  function AndNot(a: nat, b: nat): nat
  {
    if a == 0 then 0 else (if a % 2 == 1 && b % 2 == 0 then 1 else 0) + 2 * AndNot(a / 2, b / 2)
  }

  lemma {:induction false} XorSelf(a: nat)
    ensures Xor(a, 0) == a && Xor(a, a) == 0 && AndNot(a, a) == 0
  {
    if a != 0 {
      XorSelf(a / 2);
    }
  }

  /** `a` shifted left by `k` bits. */
  function Shift(a: nat, k: nat): nat
  {
    if k == 0 then a else 2 * Shift(a, k - 1)
  }

  lemma ShiftByFour(a: nat, k: nat)
    ensures Shift(a, k + 4) == 0x10 * Shift(a, k)
  {
    assert Shift(a, k + 2) == 4 * Shift(a, k);
  }

  lemma ShiftBy28(a: nat)
    ensures Shift(a, 28) == 0x1000_0000 * a && Pow2(28) == 0x1000_0000
  {
    hide Shift;
    ShiftNothing(a);
    ShiftByFour(a, 0);
    ShiftByFour(a, 4);
    ShiftByFour(a, 8);
    ShiftByFour(a, 12);
    ShiftByFour(a, 16);
    ShiftByFour(a, 20);
    ShiftByFour(a, 24);
    assert Pow2(10) == 1024;
    assert Pow2(20) == 1048576;
  }

  lemma ShiftNothing(a: nat)
    ensures Shift(a, 0) == a
  {
  }

  lemma XorStep(a: nat, b: nat)
    ensures Xor(a, b) == (a + b) % 2 + 2 * Xor(a / 2, b / 2)
  {
  }

  lemma AndNotStep(a: nat, b: nat)
    ensures AndNot(a, b) == (if a % 2 == 1 && b % 2 == 0 then 1 else 0) + 2 * AndNot(a / 2, b / 2)
  {
  }

  lemma XorDoubles(half: nat, a: nat, b: nat)
    ensures Xor(2 * half + a, b) == (a + b) % 2 + 2 * Xor(half + a / 2, b / 2)
  {
    hide Xor;
    XorStep(2 * half + a, b);
    assert (2 * half + a) / 2 == half + a / 2;
    assert (2 * half + a + b) % 2 == (a + b) % 2;
  }

  /** Exclusive or leaves the bits above its second argument alone. */
  lemma {:induction false} XorLow(high: nat, a: nat, b: nat, k: nat)
    requires a < Pow2(k) && b < Pow2(k)
    ensures Xor(Shift(high, k) + a, b) == Shift(high, k) + Xor(a, b) && Xor(a, b) < Pow2(k)
  {
    if k == 0 {
      XorSelf(high);
    } else {
      hide Xor;
      XorLow(high, a / 2, b / 2, k - 1);
      XorDoubles(Shift(high, k - 1), a, b);
      XorStep(a, b);
    }
  }

  /** Removing the high bits leaves the low ones. */
  lemma {:induction false} HighBitsCancel(high: nat, low: nat, k: nat)
    requires low < Pow2(k)
    ensures Xor(Shift(high, k) + low, Shift(high, k)) == low
    ensures AndNot(Shift(high, k) + low, Shift(high, k)) == low
  {
    if k == 0 {
      XorSelf(high);
    } else {
      hide Xor, AndNot;
      HighBitsCancel(high, low / 2, k - 1);
      CancelDoubles(Shift(high, k - 1), low);
    }
  }

  lemma CancelDoubles(half: nat, low: nat)
    requires Xor(half + low / 2, half) == low / 2 && AndNot(half + low / 2, half) == low / 2
    ensures Xor(2 * half + low, 2 * half) == low && AndNot(2 * half + low, 2 * half) == low
  {
    hide Xor, AndNot;
    XorStep(2 * half + low, 2 * half);
    AndNotStep(2 * half + low, 2 * half);
    assert (2 * half + low) / 2 == half + low / 2 && (2 * half + low) % 2 == low % 2;
    assert (2 * half + low + 2 * half) % 2 == low % 2;
    assert 2 * half / 2 == half && 2 * half % 2 == 0;
  }
}
