/**
 Packing the strings of a boot image into one character array in which a string that is a prefix
 of another one shares its characters.
 */
module StringPacking {

  type chars = seq<nat>

  // ---------------------------------------------------------------- lexicographic order

  /** std::lexicographical_compare */
  predicate Less(a: chars, b: chars)
  {
    b != [] && (a == [] || a[0] < b[0] || (a[0] == b[0] && Less(a[1..], b[1..])))
  }

  lemma {:induction false} LessTotal(a: chars, b: chars)
    ensures a == b || Less(a, b) || Less(b, a)
    ensures !(Less(a, b) && Less(b, a))
  {
    if a != [] && b != [] {
      LessTotal(a[1..], b[1..]);
      assert a == [a[0]] + a[1..] && b == [b[0]] + b[1..];
    }
  }

  lemma {:induction false} LessTransitive(a: chars, b: chars, c: chars)
    requires !Less(b, a) && !Less(c, b)
    ensures !Less(c, a)
  {
    if a != [] && b != [] && c != [] {
      if a[0] == b[0] == c[0] {
        LessTransitive(a[1..], b[1..], c[1..]);
      }
    }
  }

  predicate LexSorted(s: seq<chars>)
  {
    forall i, j :: 0 <= i < j < |s| ==> !Less(s[j], s[i])
  }

  /** What has `x` as a prefix does not come before it. */
  lemma {:induction false} PrefixNotLess(x: chars, y: chars)
    requires x <= y
    ensures !Less(y, x)
    ensures x != y ==> Less(x, y)
  {
    if x != [] {
      assert x[0] == y[0] && x[1..] <= y[1..];
      PrefixNotLess(x[1..], y[1..]);
      assert x == [x[0]] + x[1..] && y == [y[0]] + y[1..];
    }
  }

  /** The strings with a common prefix stand together. */
  lemma {:induction false} PrefixBetween(x: chars, y: chars, z: chars)
    requires x <= z && !Less(y, x) && !Less(z, y)
    ensures x <= y
  {
    if x != [] {
      assert z[0] == x[0] && x[1..] <= z[1..];
      PrefixBetween(x[1..], y[1..], z[1..]);
      assert x == [x[0]] + x[1..] && y == [y[0]] + y[1..];
    }
  }

  // ---------------------------------------------------------------- how many characters

  /** The lengths of the strings that are not a prefix of the next one. */
  function Count(s: seq<chars>): nat
  {
    if s == [] then 0
    else if |s| == 1 then |s[0]|
    else (if s[0] <= s[1] then 0 else |s[0]|) + Count(s[1..])
  }

  /** How many characters `x` shares with the string before it. */
  function Shared(s: seq<chars>, x: chars): (r: nat)
    ensures r <= |x|
    ensures x[..r] == if s != [] && s[|s| - 1] <= x then s[|s| - 1] else []
  {
    if s != [] && s[|s| - 1] <= x then |s[|s| - 1]| else 0
  }

  lemma {:induction false} CountAppend(s: seq<chars>, x: chars)
    ensures Count(s + [x]) == Count(s) + |x| - Shared(s, x)
    decreases |s|
  {
    if |s| > 1 {
      assert (s + [x])[1..] == s[1..] + [x];
      CountAppend(s[1..], x);
    } else if |s| == 1 {
      assert (s + [x])[1..] == [x];
    }
  }

  /** A sum over a set of strings. */
  ghost function Lengths(strings: set<chars>): nat
  {
    if strings == {} then 0
    else
      var x :| x in strings;
      |x| + Lengths(strings - {x})
  }

  lemma {:induction false} LengthsWith(strings: set<chars>, x: chars)
    requires x !in strings
    ensures Lengths(strings + {x}) == Lengths(strings) + |x|
    decreases |strings|
  {
    var all := strings + {x};
    LengthsWithout(all, x);
    assert all - {x} == strings;
  }

  lemma {:induction false} LengthsWithout(all: set<chars>, x: chars)
    requires x in all
    ensures Lengths(all) == |x| + Lengths(all - {x})
    decreases |all|
  {
    var y :| y in all && Lengths(all) == |y| + Lengths(all - {y});
    if y != x {
      LengthsWithout(all - {y}, x);
      LengthsWithout(all - {x}, y);
      assert all - {y} - {x} == all - {x} - {y};
    }
  }

  /** The strings of the list that are not a proper prefix of another one in it. */
  ghost function Maximal(s: seq<chars>): set<chars>
  {
    set x | x in s && (forall y :: y in s ==> !(x < y))
  }

  /** A string in front of a sorted list that is a prefix of the next one adds nothing. */
  lemma PrefixAddsNothing(s: seq<chars>)
    requires 1 < |s| && s[0] <= s[1]
    ensures Maximal(s) == Maximal(s[1..])
  {
    var x, rest := s[0], s[1..];
    assert s == [x] + rest && rest[0] in rest;
    forall t | t in rest && forall y :: y in rest ==> !(t < y)
      ensures t in Maximal(s)
    {
      assert !(t < rest[0]);
    }
    forall t | t in Maximal(s)
      ensures t in Maximal(rest)
    {
      assert rest[0] in s;
      assert !(t < rest[0]);
      if t == x {
        assert x == rest[0];
      }
    }
  }

  /** A string in front of a sorted list that is no prefix of the next one stands alone. */
  lemma FirstIsMaximal(s: seq<chars>)
    requires s != [] && LexSorted(s) && (|s| > 1 ==> !(s[0] <= s[1]))
    ensures s[0] !in Maximal(s[1..]) && Maximal(s) == Maximal(s[1..]) + {s[0]}
  {
    var x, rest := s[0], s[1..];
    assert s == [x] + rest;
    forall y | y in rest
      ensures !(x <= y) && !(y < x)
    {
      var k :| 1 <= k < |s| && s[k] == y;
      if x <= y && 1 < k {
        PrefixBetween(x, s[1], y);
      }
      if y < x {
        PrefixNotLess(y, x);
      }
    }
    assert x in Maximal(s) by {
      assert s[0] in s;
      forall y | y in s ensures !(x < y) { assert y == x || y in rest; }
    }
    forall t | t in Maximal(s) && t != x
      ensures t in Maximal(rest)
    {
      assert t in rest;
      forall y | y in rest ensures !(t < y) { assert y in s; }
    }
    forall t | t in Maximal(rest)
      ensures t in Maximal(s)
    {
      assert t in s;
      forall y | y in s ensures !(t < y) { assert y == x || y in rest; }
    }
  }

  /** The counting pass counts the distinct strings that are not a proper prefix of another one. */
  lemma {:induction false} CountIsOptimal(s: seq<chars>)
    requires LexSorted(s)
    ensures Count(s) == Lengths(Maximal(s))
    decreases |s|
  {
    if s == [] {
      assert Maximal(s) == {};
    } else {
      CountIsOptimal(s[1..]);
      if |s| > 1 && s[0] <= s[1] {
        PrefixAddsNothing(s);
      } else {
        FirstIsMaximal(s);
        LengthsWith(Maximal(s[1..]), s[0]);
      }
    }
  }

  // ---------------------------------------------------------------- the passes

  /** std::sort with the lexicographic comparator. */
  method SortStrings(strings: seq<chars>) returns (s: seq<chars>)
    ensures LexSorted(s) && multiset(s) == multiset(strings)
  {
    s := [];
    for i := 0 to |strings|
      invariant LexSorted(s) && multiset(s) == multiset(strings[..i])
    {
      s := Insert(s, strings[i]);
      assert strings[..i + 1] == strings[..i] + [strings[i]];
    }
    assert strings[..|strings|] == strings;
  }

  lemma InsertSorted(s: seq<chars>, x: chars, k: nat)
    requires LexSorted(s) && k <= |s|
    requires (0 < k ==> !Less(x, s[k - 1])) && forall j :: k <= j < |s| ==> Less(x, s[j])
    ensures LexSorted(s[..k] + [x] + s[k..])
  {
    hide Less;
    forall j | 0 <= j < |s|
      ensures if j < k then !Less(x, s[j]) else !Less(s[j], x)
    {
      LessTotal(x, s[j]);
      if j < k - 1 {
        LessTransitive(s[j], s[k - 1], x);
      }
    }
  }

  method Insert(s: seq<chars>, x: chars) returns (r: seq<chars>)
    requires LexSorted(s)
    ensures LexSorted(r) && multiset(r) == multiset(s) + multiset{x}
  {
    var k := |s|;
    while 0 < k && Less(x, s[k - 1])
      invariant 0 <= k <= |s|
      invariant forall j :: k <= j < |s| ==> Less(x, s[j])
    {
      k := k - 1;
    }
    r := s[..k] + [x] + s[k..];
    assert s == s[..k] + s[k..];
    InsertSorted(s, x, k);
  }

  method CountChars(s: seq<chars>) returns (numChars: nat)
    ensures numChars == Count(s)
  {
    numChars := 0;
    for i := 0 to |s|
      invariant numChars == Count(s[..i])
    {
      assert s[..i + 1] == s[..i] + [s[i]];
      CountAppend(s[..i], s[i]);
      numChars := numChars + |s[i]|;
      if 0 < i && s[i - 1] <= s[i] {
        numChars := numChars - |s[i - 1]|;
      }
    }
    assert s[..|s|] == s;
  }

  /** memcpy of `src` to `data` from `pos`. */
  method Copy(data: array<nat>, pos: nat, src: chars)
    requires pos + |src| <= data.Length
    modifies data
    ensures data[..] == old(data[..pos]) + src + old(data[pos + |src|..])
  {
    ghost var was := data[..];
    for k := 0 to |src|
      invariant forall i :: 0 <= i < data.Length ==> data[i] == if pos <= i < pos + k then src[i - pos] else was[i]
    {
      data[pos + k] := src[k];
    }
    assert data[..] == was[..pos] + src + was[pos + |src|..];
  }

  /** The string's window in the shared array holds its characters. */
  predicate Windowed(data: chars, offset: nat, x: chars)
  {
    offset + |x| <= |data| && data[offset..offset + |x|] == x
  }

  lemma {:induction false} CountGrows(s: seq<chars>, i: nat)
    requires i <= |s|
    ensures Count(s[..i]) <= Count(s)
    decreases |s| - i
  {
    if i < |s| {
      assert s[..i + 1] == s[..i] + [s[i]];
      CountAppend(s[..i], s[i]);
      CountGrows(s, i + 1);
    } else {
      assert s[..i] == s;
    }
  }

  /** The new string's window, once its own characters are in place behind those it shares. */
  lemma WindowMade(before: chars, after: chars, pos: nat, x: chars, shared: nat, last: chars)
    requires shared <= |x| && shared <= pos && pos + |x| - shared <= |before| == |after|
    requires shared == 0 || (shared == |last| && last <= x && Windowed(before, pos - shared, last))
    requires after == before[..pos] + x[shared..] + before[pos + |x| - shared..]
    ensures Windowed(after, pos - shared, x)
  {
  }

  /** One round of the copy loop: what `x` does not share with `last` goes to `pos`. */
  method PackOne(data: array<nat>, pos: nat, x: chars, last: chars, prefixLength: nat)
    requires prefixLength <= |x| && prefixLength <= pos && pos + |x| - prefixLength <= data.Length
    requires prefixLength == 0 || (prefixLength == |last| && last <= x && Windowed(data[..], pos - prefixLength, last))
    modifies data
    ensures Windowed(data[..], pos - prefixLength, x) && data[..pos] == old(data[..pos])
  {
    ghost var before := data[..];
    Copy(data, pos, x[prefixLength..]);
    WindowMade(before, data[..], pos, x, prefixLength, last);
  }

  /** The first strings have their windows below `pos`, the last of them right below it. */
  predicate Packed(data: chars, offsets: seq<nat>, s: seq<chars>, pos: nat)
  {
    && |offsets| <= |s| && pos <= |data|
    && (forall j :: 0 <= j < |offsets| ==> Windowed(data, offsets[j], s[j]) && offsets[j] + |s[j]| <= pos)
    && (offsets != [] ==> offsets[|offsets| - 1] + |s[|offsets| - 1]| == pos)
  }

  lemma WindowStays(before: chars, after: chars, pos: nat, offset: nat, x: chars)
    requires Windowed(before, offset, x) && offset + |x| <= pos <= |before| && |after| == |before|
    requires after[..pos] == before[..pos]
    ensures Windowed(after, offset, x)
  {
    assert after[offset..offset + |x|] == after[..pos][offset..offset + |x|] == before[offset..offset + |x|];
  }

  lemma WindowInside(data: chars, offset: nat, x: chars)
    requires Windowed(data, offset, x)
    ensures offset + |x| <= |data|
  {
  }

  lemma PackedNext(before: chars, after: chars, offsets: seq<nat>, s: seq<chars>, pos: nat, offset: nat)
    requires Packed(before, offsets, s, pos) && |offsets| < |s| && |after| == |before| && after[..pos] == before[..pos]
    requires Windowed(after, offset, s[|offsets|]) && pos <= offset + |s[|offsets|]|
    ensures Packed(after, offsets + [offset], s, offset + |s[|offsets|]|)
  {
    hide Windowed;
    WindowInside(after, offset, s[|offsets|]);
    forall j | 0 <= j < |offsets|
      ensures Windowed(after, offsets[j], s[j])
    {
      WindowStays(before, after, pos, offsets[j], s[j]);
    }
  }

  lemma PackedLast(data: chars, offsets: seq<nat>, s: seq<chars>, pos: nat)
    requires Packed(data, offsets, s, pos) && offsets != []
    ensures var last := s[|offsets| - 1];
            && offsets[|offsets| - 1] + |last| == pos <= |data| && Windowed(data, pos - |last|, last)
            && data[pos - |last|..pos] == last
  {
  }

  lemma PackedAll(data: chars, offsets: seq<nat>, s: seq<chars>, pos: nat)
    requires Packed(data, offsets, s, pos) && |offsets| == |s|
    ensures forall i :: 0 <= i < |s| ==> Windowed(data, offsets[i], s[i])
  {
  }

  lemma NothingPacked(data: chars, s: seq<chars>)
    ensures Packed(data, [], s, 0) && Count([]) == 0
  {
  }

  lemma CountNext(s: seq<chars>, i: nat)
    requires i < |s|
    ensures Count(s[..i + 1]) == Count(s[..i]) + |s[i]| - (if 0 < i && s[i - 1] <= s[i] then |s[i - 1]| else 0) <=
            Count(s)
  {
    hide Count;
    assert s[..i + 1] == s[..i] + [s[i]];
    CountAppend(s[..i], s[i]);
    CountGrows(s, i + 1);
  }

  /** The copy loop. */
  method PackStrings(s: seq<chars>, data: array<nat>) returns (offsets: seq<nat>, pos: nat)
    requires data.Length == Count(s)
    modifies data
    ensures pos == Count(s) && |offsets| == |s|
    ensures forall i :: 0 <= i < |s| ==> Windowed(data[..], offsets[i], s[i])
  {
    hide Count, Windowed, Packed;
    offsets, pos := [], 0;
    assert s[..0] == [];
    NothingPacked(data[..], s);
    for i := 0 to |s|
      invariant |offsets| == i && pos == Count(s[..i]) && Packed(data[..], offsets, s, pos)
    {
      CountNext(s, i);
      var previous, prefixLength := [], 0;
      if i != 0 {
        // the string before has been pointed at the shared array
        PackedLast(data[..], offsets, s, pos);
        previous := data[offsets[i - 1]..offsets[i - 1] + |s[i - 1]|];
        if previous <= s[i] {
          prefixLength := |previous|;
        }
      }
      ghost var before := data[..];
      PackOne(data, pos, s[i], previous, prefixLength);
      PackedNext(before, data[..], offsets, s, pos, pos - prefixLength);
      offsets, pos := offsets + [pos - prefixLength], pos + |s[i]| - prefixLength;
    }
    assert s[..|s|] == s;
    PackedAll(data[..], offsets, s, pos);
  }

  lemma SameMaximal(s: seq<chars>, t: seq<chars>)
    requires multiset(s) == multiset(t)
    ensures Maximal(s) == Maximal(t)
  {
    assert forall x :: x in s <==> x in multiset(s);
    assert forall x :: x in t <==> x in multiset(t);
  }

  /** ProcessStrings */
  method ProcessStrings(strings: seq<chars>) returns (s: seq<chars>, data: array<nat>, offsets: seq<nat>)
    ensures LexSorted(s) && multiset(s) == multiset(strings) && |offsets| == |s|
    ensures forall i :: 0 <= i < |s| ==> Windowed(data[..], offsets[i], s[i])
    ensures data.Length == Lengths(Maximal(strings))
  {
    s := SortStrings(strings);
    assert Maximal(s) == Maximal(strings) by { SameMaximal(s, strings); }
    var numChars := CountChars(s);
    CountIsOptimal(s);
    data := new nat[numChars];
    var pos;
    offsets, pos := PackStrings(s, data);
    assert pos == numChars;
  }
}
