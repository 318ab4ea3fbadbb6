/**
 The dynamic symbol table of an ELF file: names in a string table, and the System V hash table
 through which a loader finds symbols by name.
 */
module ElfSymbols {
  import opened Words
  import opened RelativeCalls

  type name = seq<byte>

  /** Names are C strings: they hold no NUL. */
  predicate NoNul(s: name)
  {
    forall i :: 0 <= i < |s| ==> s[i] != 0
  }

  predicate NoNuls(names: seq<name>)
  {
    forall i :: 0 <= i < |names| ==> NoNul(names[i])
  }

  // ---------------------------------------------------------------- hashing

  /** One round of the hash, on 32-bit words: the top four bits are folded in at bit 4. */
  function HashStep(h: nat, c: byte): nat
  {
    var x := Wrap(0x10 * h + c as int);
    var g := x - x % 0x1000_0000;
    Xor(Xor(x, g), g / 0x100_0000)
  }

  /** One round of the hash function printed in chapter 5 of the System V ABI. */
  function AbiHashStep(h: nat, c: byte): nat
  {
    var x := Wrap(0x10 * h + c as int);
    var g := x - x % 0x1000_0000;
    AndNot(if g != 0 then Xor(x, g / 0x100_0000) else x, g)
  }

  function AbiHash(s: name): nat
  {
    if s == [] then 0 else AbiHashStep(AbiHash(s[..|s| - 1]), s[|s| - 1])
  }

  lemma HashStepIsAbi(h: nat, c: byte)
    ensures HashStep(h, c) == AbiHashStep(h, c) < 0x1000_0000
  {
    hide Xor, AndNot, Pow2, Shift;
    var x := Wrap(0x10 * h + c as int);
    var high, low := x / 0x1000_0000, x % 0x1000_0000;
    var g := high * 0x1000_0000;
    assert x == g + low && high < 0x10;
    assert g / 0x100_0000 == 0x10 * high;
    ShiftBy28(high);
    HighBitsCancel(high, low, 28);
    XorLow(high, low, 0x10 * high, 28);
    HighBitsCancel(high, Xor(low, 0x10 * high), 28);
    if g == 0 {
      XorSelf(low);
    }
  }

  /** The hash the table is built with is the one loaders look symbols up with, and leaves four bits free. */
  lemma {:induction false} ElfHashIsAbi(s: name)
    ensures ElfHash(s) == AbiHash(s) < 0x1000_0000
  {
    hide HashStep, AbiHashStep;
    if s != [] {
      ElfHashIsAbi(s[..|s| - 1]);
      HashStepIsAbi(AbiHash(s[..|s| - 1]), s[|s| - 1]);
    }
  }

  function ElfHash(s: name): nat
  {
    if s == [] then 0 else HashStep(ElfHash(s[..|s| - 1]), s[|s| - 1])
  }

  /** elfhash */
  method ComputeHash(s: name) returns (h: nat)
    ensures h == ElfHash(s)
  {
    hide Xor;
    h := 0;
    for i := 0 to |s|
      invariant h == ElfHash(s[..i])
    {
      assert s[..i + 1][..i] == s[..i];
      h := HashStep(h, s[i]);
    }
    assert s[..|s|] == s;
  }

  function NumBuckets(n: nat): (r: nat)
    ensures 0 < r
  {
    if n < 8 then 2 else if n < 32 then 4 else if n < 256 then 16 else RoundUp(n / 32, 2)
  }

  /** Large tables have about 32 symbols per bucket, smaller ones fewer than 16. */
  lemma SymbolsPerBucket(n: nat)
    ensures n < 256 ==> n < 16 * NumBuckets(n) && 2 <= NumBuckets(n) <= 16
    ensures 256 <= n ==> 32 * (NumBuckets(n) - 1) <= n < 32 * (NumBuckets(n) + 1)
    ensures NumBuckets(n) % 2 == 0
  {
    if 256 <= n {
      RoundUpIsLeast(n / 32, 2);
    }
  }

  function BucketOf(s: name, numBuckets: nat): (r: nat)
    requires 0 < numBuckets
    ensures r < numBuckets
  {
    ElfHash(s) % numBuckets
  }

  // ---------------------------------------------------------------- chains

  /** Chain entries end the chain or point further on. */
  predicate Ascending(chain: seq<nat>)
  {
    forall k :: 0 <= k < |chain| ==> chain[k] == 0 || k < chain[k] < |chain|
  }

  /** The symbols met when following the chain from `at`; 0 ends it. */
  function Walk(chain: seq<nat>, at: nat): (r: seq<nat>)
    requires Ascending(chain) && at < |chain|
    ensures at != 0 ==> r != []
    ensures forall k :: 0 <= k < |r| ==> at <= r[k] < |chain| && r[k] != 0
    ensures forall j, k :: 0 <= j < k < |r| ==> r[j] < r[k]
    decreases |chain| - at
  {
    if at == 0 then [] else if chain[at] == 0 then [at] else [at] + Walk(chain, chain[at])
  }

  /** The symbols of a bucket, counted from 1, in insertion order. */
  function Members(names: seq<name>, numBuckets: nat, b: nat): (r: seq<nat>)
    requires 0 < numBuckets
    ensures forall k :: 0 <= k < |r| ==> 1 <= r[k] <= |names|
  {
    if names == [] then []
    else
      var n := |names| - 1;
      Members(names[..n], numBuckets, b) + (if BucketOf(names[n], numBuckets) == b then [n + 1] else [])
  }

  /** A bucket holds exactly the symbols that hash to it. */
  lemma {:induction false} MembersExact(names: seq<name>, numBuckets: nat, b: nat, i: nat)
    requires 0 < numBuckets && 1 <= i <= |names|
    ensures i in Members(names, numBuckets, b) <==> BucketOf(names[i - 1], numBuckets) == b
  {
    hide BucketOf;
    var n := |names| - 1;
    if i <= n {
      MembersExact(names[..n], numBuckets, b, i);
    }
  }

  lemma {:induction false} WalkAppend(chain: seq<nat>, at: nat, last: nat, index: nat)
    requires Ascending(chain) && 0 < at < |chain| && last < index < |chain|
    requires Walk(chain, at)[|Walk(chain, at)| - 1] == last && chain[last] == 0 && chain[index] == 0
    ensures Ascending(chain[last := index])
    ensures Walk(chain[last := index], at) == Walk(chain, at) + [index]
    decreases |chain| - at
  {
    var after := chain[last := index];
    if chain[at] == 0 {
      assert at == last;
      assert Walk(after, index) == [index];
    } else {
      WalkAppend(chain, chain[at], last, index);
    }
  }

  lemma {:induction false} WalkUntouched(chain: seq<nat>, at: nat, last: nat, index: nat)
    requires Ascending(chain) && at < |chain| && last < index < |chain| && last !in Walk(chain, at)
    ensures Ascending(chain[last := index])
    ensures Walk(chain[last := index], at) == Walk(chain, at)
    decreases |chain| - at
  {
    if at != 0 && chain[at] != 0 {
      assert at != last by { assert Walk(chain, at)[0] == at; }
      forall x | x in Walk(chain, chain[at]) ensures x in Walk(chain, at) {
        assert Walk(chain, at) == [at] + Walk(chain, chain[at]);
      }
      WalkUntouched(chain, chain[at], last, index);
    }
  }

  // ---------------------------------------------------------------- building the table

  /** The buckets and the chain of a hash section: after the two counts. */
  function Buckets(hash: seq<nat>, numBuckets: nat): (r: seq<nat>)
    requires 2 + numBuckets <= |hash|
    ensures |r| == numBuckets
  {
    hash[2..2 + numBuckets]
  }

  function Chain(hash: seq<nat>, numBuckets: nat): (r: seq<nat>)
    requires 2 + numBuckets <= |hash|
    ensures |r| == |hash| - 2 - numBuckets
  {
    hash[2 + numBuckets..]
  }

  /** Following each bucket's chain meets exactly the symbols that hash to it, in insertion order. */
  predicate Linked(buckets: seq<nat>, chain: seq<nat>, names: seq<name>)
    requires buckets != []
  {
    && Ascending(chain)
    && forall b :: 0 <= b < |buckets| ==>
         buckets[b] < |chain| && Walk(chain, buckets[b]) == Members(names, |buckets|, b)
  }

  /** Chain cells not yet reached by any symbol. */
  predicate Unused(chain: seq<nat>, from: nat)
  {
    forall k :: from <= k < |chain| ==> chain[k] == 0
  }

  lemma MembersNext(names: seq<name>, numBuckets: nat, b: nat, i: nat)
    requires 0 < numBuckets && i < |names|
    ensures Members(names[..i + 1], numBuckets, b) ==
            Members(names[..i], numBuckets, b) + (if BucketOf(names[i], numBuckets) == b then [i + 1] else [])
  {
    hide BucketOf;
    assert names[..i + 1][..i] == names[..i];
  }

  lemma LinkFirst(buckets: seq<nat>, chain: seq<nat>, names: seq<name>, i: nat)
    requires buckets != [] && i < |names| && i + 1 < |chain|
    requires Linked(buckets, chain, names[..i]) && Unused(chain, i + 1)
    requires buckets[BucketOf(names[i], |buckets|)] == 0
    ensures Linked(buckets[BucketOf(names[i], |buckets|) := i + 1], chain, names[..i + 1])
  {
    hide BucketOf, Members;
    var bucket := BucketOf(names[i], |buckets|);
    assert Walk(chain, i + 1) == [i + 1];
    assert Members(names[..i], |buckets|, bucket) == [];
    var after := buckets[bucket := i + 1];
    forall b | 0 <= b < |buckets|
      ensures after[b] < |chain| && Walk(chain, after[b]) == Members(names[..i + 1], |buckets|, b)
    {
      MembersNext(names, |buckets|, b, i);
    }
  }

  /** A symbol is in one bucket only. */
  lemma MembersApart(names: seq<name>, numBuckets: nat, b: nat, b': nat, x: nat)
    requires 0 < numBuckets && b != b' && x in Members(names, numBuckets, b)
    ensures x !in Members(names, numBuckets, b')
  {
  }

  lemma LinkLast(buckets: seq<nat>, chain: seq<nat>, names: seq<name>, i: nat, last: nat)
    requires buckets != [] && i < |names| && i + 1 < |chain|
    requires Linked(buckets, chain, names[..i]) && Unused(chain, i + 1)
    requires var at := buckets[BucketOf(names[i], |buckets|)];
             at != 0 && last == Walk(chain, at)[|Walk(chain, at)| - 1] && chain[last] == 0
    ensures last <= i && Linked(buckets, chain[last := i + 1], names[..i + 1])
  {
    hide BucketOf, Members, Walk;
    var bucket := BucketOf(names[i], |buckets|);
    var members := Members(names[..i], |buckets|, bucket);
    assert last == members[|members| - 1];
    WalkAppend(chain, buckets[bucket], last, i + 1);
    forall b | 0 <= b < |buckets|
      ensures Walk(chain[last := i + 1], buckets[b]) == Members(names[..i + 1], |buckets|, b)
    {
      MembersNext(names, |buckets|, b, i);
      if b != bucket {
        MembersApart(names[..i], |buckets|, bucket, b, last);
        WalkUntouched(chain, buckets[b], last, i + 1);
      }
    }
  }

  /** Each symbol index up to `i` occurs in one cell; all other cells are 0. */
  predicate EachOnce(cells: seq<nat>, i: nat)
  {
    && (forall k :: 0 <= k < |cells| ==> cells[k] <= i)
    && (forall k: nat :: 1 <= k <= i ==> multiset(cells)[k] == 1)
    && multiset(cells)[0] == |cells| - i
  }

  lemma EachOnceNext(cells: seq<nat>, i: nat, at: nat)
    requires at < |cells| && cells[at] == 0 && EachOnce(cells, i)
    ensures EachOnce(cells[at := i + 1], i + 1)
  {
  }

  lemma {:induction false} EachOnceInitially(cells: seq<nat>)
    requires forall k :: 0 <= k < |cells| ==> cells[k] == 0
    ensures EachOnce(cells, 0)
  {
    if cells != [] {
      var n := |cells| - 1;
      EachOnceInitially(cells[..n]);
      assert cells == cells[..n] + [cells[n]];
    }
  }

  /** A hash section under construction, with the first `i` symbols entered. */
  predicate Building(hash: seq<nat>, names: seq<name>, i: nat)
    requires i <= |names|
  {
    var numBuckets := NumBuckets(|names|);
    && |hash| == 2 + numBuckets + |names| + 1
    && hash[0] == numBuckets && hash[1] == |names| + 1
    && Linked(Buckets(hash, numBuckets), Chain(hash, numBuckets), names[..i])
    && Unused(Chain(hash, numBuckets), i)
    && EachOnce(hash[2..], i)
  }

  lemma BuildingInitially(hash: seq<nat>, names: seq<name>)
    requires |hash| == 2 + NumBuckets(|names|) + |names| + 1 && hash[0] == NumBuckets(|names|) && hash[1] == |names| + 1
    requires forall k :: 2 <= k < |hash| ==> hash[k] == 0
    ensures Building(hash, names, 0)
  {
    hide NumBuckets;
    EachOnceInitially(hash[2..]);
  }

  /** A symbol is entered in an empty bucket. */
  lemma EnterFirst(hash: seq<nat>, names: seq<name>, i: nat)
    requires i < |names| && Building(hash, names, i)
    requires hash[2 + BucketOf(names[i], NumBuckets(|names|))] == 0
    ensures Building(hash[2 + BucketOf(names[i], NumBuckets(|names|)) := i + 1], names, i + 1)
  {
    hide NumBuckets, BucketOf, Linked, EachOnce;
    var n := NumBuckets(|names|);
    var b := BucketOf(names[i], n);
    var after := hash[2 + b := i + 1];
    assert Buckets(after, n) == Buckets(hash, n)[b := i + 1] && Chain(after, n) == Chain(hash, n);
    LinkFirst(Buckets(hash, n), Chain(hash, n), names, i);
    assert after[2..] == hash[2..][b := i + 1];
    EachOnceNext(hash[2..], i, b);
  }

  /** A symbol is entered at the end of its bucket's chain. */
  lemma EnterLast(hash: seq<nat>, names: seq<name>, i: nat, last: nat)
    requires i < |names| && Building(hash, names, i)
    requires var n := NumBuckets(|names|);
             var at := hash[2 + BucketOf(names[i], n)];
             && at != 0 && at < |names| + 1
             && last == Walk(Chain(hash, n), at)[|Walk(Chain(hash, n), at)| - 1] && Chain(hash, n)[last] == 0
    ensures Building(hash[2 + NumBuckets(|names|) + last := i + 1], names, i + 1)
  {
    hide NumBuckets, BucketOf, Linked, EachOnce, Walk;
    var n := NumBuckets(|names|);
    var after := hash[2 + n + last := i + 1];
    assert Buckets(after, n) == Buckets(hash, n) && Chain(after, n) == Chain(hash, n)[last := i + 1];
    LinkLast(Buckets(hash, n), Chain(hash, n), names, i, last);
    assert after[2..] == hash[2..][n + last := i + 1];
    EachOnceNext(hash[2..], i, n + last);
  }
}
