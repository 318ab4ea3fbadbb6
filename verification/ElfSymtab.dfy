/**
 The symbol table builder as it runs, and the lookup a loader performs on what it built.
 */
module ElfSymtab {
  import opened Words
  import opened RelativeCalls
  import opened ElfSymbols

  // ---------------------------------------------------------------- the string table

  /** The C string at `at`: up to the next NUL. */
  function StringAt(tab: seq<byte>, at: nat): name
    requires at <= |tab|
    decreases |tab| - at
  {
    if at == |tab| || tab[at] == 0 then [] else [tab[at]] + StringAt(tab, at + 1)
  }

  lemma {:induction false} StringHeld(tab: seq<byte>, at: nat, s: name)
    requires NoNul(s) && Holds(tab, at, s + [0])
    ensures StringAt(tab, at) == s
    decreases |s|
  {
    if s == [] {
      assert tab[at] == tab[at..at + 1][0] == 0;
    } else {
      var t := s + [0];
      assert tab[at] == tab[at..at + |t|][0] == s[0];
      assert tab[at + 1..at + |t|] == tab[at..at + |t|][1..] == s[1..] + [0];
      StringHeld(tab, at + 1, s[1..]);
    }
  }

  // ---------------------------------------------------------------- symbols

  /** A symbol to be: its section is known by the offset and index it will have. */
  datatype Symbol = Symbol(
    name: name, address: word, isRelative: bool, size: word, info: byte, other: byte,
    sectionOffset: word, sectionIndex: nat)

  datatype ElfSym = ElfSym(nameIndex: nat, value: word, size: word, info: byte, other: byte, sectionIndex: nat)

  const UNDEFINED := ElfSym(0, 0, 0, 0, 0, 0)

  function NamesOf(symbols: seq<Symbol>): (r: seq<name>)
    ensures |r| == |symbols|
  {
    seq(|symbols|, i requires 0 <= i < |symbols| => symbols[i].name)
  }

  /** The entry describes the symbol, and its name is read from the string table. */
  predicate Describes(sym: ElfSym, tab: seq<byte>, s: Symbol)
  {
    && sym.nameIndex <= |tab| && StringAt(tab, sym.nameIndex) == s.name
    && sym.value == (if s.isRelative then Wrap(s.address + s.sectionOffset) else s.address)
    && sym.size == s.size && sym.info == s.info && sym.other == s.other && sym.sectionIndex == s.sectionIndex
  }

  /** The symbol of this name that was added first. */
  predicate IsFirst(symbols: seq<Symbol>, s: name, i: nat)
  {
    i < |symbols| && symbols[i].name == s && forall j :: 0 <= j < i ==> symbols[j].name != s
  }

  predicate Complete(hash: seq<nat>, names: seq<name>)
  {
    Building(hash, names, |names|)
  }

  // ---------------------------------------------------------------- the hash section in place

  /** The last symbol of the chain that starts at `at`. */
  method FindTail(hash: array<nat>, chainOffset: nat, at: nat) returns (last: nat)
    requires chainOffset <= hash.Length
    requires Ascending(hash[chainOffset..]) && 0 < at < hash.Length - chainOffset
    ensures var walk := Walk(hash[chainOffset..], at); last == walk[|walk| - 1]
    ensures last < hash.Length - chainOffset && hash[chainOffset + last] == 0
  {
    ghost var chain := hash[chainOffset..];
    last := at;
    while hash[chainOffset + last] != 0
      invariant 0 < last < |chain|
      invariant Walk(chain, last)[|Walk(chain, last)| - 1] == Walk(chain, at)[|Walk(chain, at)| - 1]
      decreases |chain| - last
    {
      assert chain[last] == hash[chainOffset + last];
      last := hash[chainOffset + last];
    }
    assert chain[last] == 0;
  }

  /** A symbol just entered ends its chain. */
  lemma NotYetChained(hash: seq<nat>, names: seq<name>, index: nat)
    requires 0 < index <= |names| && Building(hash, names, index)
    ensures hash[2 + NumBuckets(|names|) + index] == 0
  {
    hide NumBuckets, EachOnce, Linked;
    var chain := Chain(hash, NumBuckets(|names|));
    assert chain[index] == hash[2 + NumBuckets(|names|) + index];
  }

  /** Enters one symbol: in its bucket, or behind the last symbol of the bucket's chain. */
  method Enter(hash: array<nat>, names: seq<name>, i: nat)
    requires i < |names| && Building(hash[..], names, i)
    modifies hash
    ensures Building(hash[..], names, i + 1)
  {
    hide Walk, Members, NumBuckets, ElfHash, EachOnce, Unused;
    var numBuckets := NumBuckets(|names|);
    var h := ComputeHash(names[i]);
    var bucket, index: nat := h % numBuckets, i + 1;
    ghost var was := hash[..];
    if hash[2 + bucket] == 0 {
      EnterFirst(was, names, i);
      hash[2 + bucket] := index;
      assert hash[..] == was[2 + bucket := index];
    } else {
      assert Buckets(was, numBuckets)[bucket] == hash[2 + bucket];
      assert Chain(was, numBuckets) == hash[2 + numBuckets..];
      var last := FindTail(hash, 2 + numBuckets, hash[2 + bucket]);
      EnterLast(was, names, i, last);
      hash[2 + numBuckets + last] := index;
      assert hash[..] == was[2 + numBuckets + last := index];
      assert hash[2 + numBuckets + index] == 0 by { NotYetChained(hash[..], names, index); }
    }
  }

  class ElfSymtabBuilder {
    var symbols: seq<Symbol>
    var nameIdx: seq<nat>

    constructor ()
      ensures symbols == [] && nameIdx == []
    {
      symbols, nameIdx := [], [];
    }

    method AddSymbol(s: Symbol)
      modifies this
      ensures symbols == old(symbols) + [s] && nameIdx == old(nameIdx) + [0]
    {
      symbols, nameIdx := symbols + [s], nameIdx + [0];
    }

    method GenerateHashContents() returns (hash: array<nat>)
      ensures Complete(hash[..], NamesOf(symbols))
      ensures forall k: nat :: 1 <= k <= |symbols| ==> multiset(hash[2..])[k] == 1
      ensures multiset(hash[2..])[0] == NumBuckets(|symbols|) + 1
    {
      var names := NamesOf(symbols);
      var numBuckets := NumBuckets(|names|);
      hash := new nat[2 + numBuckets + |names| + 1](_ => 0);
      hash[0], hash[1] := numBuckets, |names| + 1;
      BuildingInitially(hash[..], names);
      for i := 0 to |names|
        invariant fresh(hash) && Building(hash[..], names, i)
      {
        Enter(hash, names, i);
      }
      assert hash[..][2..] == hash[2..];
    }

    /** Every name stands in the table, NUL-terminated, at the index noted for it. */
    ghost predicate Indexed(tab: seq<byte>, n: nat)
      requires n <= |symbols| == |nameIdx|
      reads this
    {
      forall i :: 0 <= i < n ==> Holds(tab, nameIdx[i], symbols[i].name + [0])
    }

    method GenerateStrtab() returns (tab: seq<byte>)
      requires |nameIdx| == |symbols|
      modifies this`nameIdx
      ensures |nameIdx| == |symbols| && Indexed(tab, |symbols|)
      ensures Holds(tab, 0, [0])
    {
      tab := [0];
      for i := 0 to |symbols|
        invariant |nameIdx| == |symbols| && Indexed(tab, i) && Holds(tab, 0, [0])
      {
        hide Holds;
        ghost var was := tab;
        nameIdx := nameIdx[i := |tab|];
        tab := tab + symbols[i].name;
        tab := tab + [0];
        assert tab == was + (symbols[i].name + [0]);
        EntryAppended(was, symbols[i].name + [0], tab);
        forall j | 0 <= j < i
          ensures Holds(tab, nameIdx[j], symbols[j].name + [0])
        {
          HoldsInSum(was, symbols[i].name + [0], nameIdx[j], symbols[j].name + [0]);
        }
        HoldsInSum(was, symbols[i].name + [0], 0, [0]);
      }
    }

    method GenerateSymtab(ghost tab: seq<byte>) returns (symtab: seq<ElfSym>)
      requires |nameIdx| == |symbols|
      ensures |symtab| == |symbols| + 1 && symtab[0] == UNDEFINED
      ensures Indexed(tab, |symbols|) && NoNuls(NamesOf(symbols)) ==>
                forall i :: 0 <= i < |symbols| ==> Describes(symtab[i + 1], tab, symbols[i])
    {
      symtab := [UNDEFINED];
      for i := 0 to |symbols|
        invariant |symtab| == i + 1 && symtab[0] == UNDEFINED
        invariant Indexed(tab, |symbols|) && NoNuls(NamesOf(symbols)) ==>
                    forall j :: 0 <= j < i ==> Describes(symtab[j + 1], tab, symbols[j])
      {
        if Indexed(tab, |symbols|) && NoNuls(NamesOf(symbols)) {
          assert NoNul(NamesOf(symbols)[i]);
          StringHeld(tab, nameIdx[i], symbols[i].name);
        }
        var s := symbols[i];
        var value := if s.isRelative then Wrap(s.address + s.sectionOffset) else s.address;
        symtab := symtab + [ElfSym(nameIdx[i], value, s.size, s.info, s.other, s.sectionIndex)];
      }
    }
  }

  lemma EntryAppended(was: seq<byte>, entry: seq<byte>, tab: seq<byte>)
    requires tab == was + entry
    ensures Holds(tab, |was|, entry)
  {
  }

  // ---------------------------------------------------------------- lookup

  /** A walk that has passed only other names still has the wanted symbol ahead of it. */
  predicate Ahead(chain: seq<nat>, at: nat, symbols: seq<Symbol>, s: name)
    requires Ascending(chain) && at < |chain| && |chain| == |symbols| + 1
  {
    forall i :: 0 <= i < |symbols| && symbols[i].name == s ==> i + 1 in Walk(chain, at)
  }

  lemma AllAhead(hash: seq<nat>, symbols: seq<Symbol>, s: name)
    requires Complete(hash, NamesOf(symbols))
    ensures var n := NumBuckets(|symbols|);
            var at := hash[2 + BucketOf(s, n)];
            Ascending(Chain(hash, n)) && at < |symbols| + 1 && Ahead(Chain(hash, n), at, symbols, s)
  {
    hide Walk, Members, NumBuckets, BucketOf, EachOnce, Unused;
    var names, n := NamesOf(symbols), NumBuckets(|symbols|);
    var b := BucketOf(s, n);
    assert names[..|names|] == names;
    assert Buckets(hash, n)[b] == hash[2 + b];
    forall i | 0 <= i < |symbols| && symbols[i].name == s
      ensures i + 1 in Walk(Chain(hash, n), hash[2 + b])
    {
      MembersExact(names, n, b, i + 1);
    }
  }

  lemma AheadStep(chain: seq<nat>, at: nat, symbols: seq<Symbol>, s: name)
    requires Ascending(chain) && 0 < at < |chain| == |symbols| + 1
    requires Ahead(chain, at, symbols, s) && symbols[at - 1].name != s
    ensures chain[at] == 0 || at < chain[at] < |chain|
    ensures Ahead(chain, chain[at], symbols, s)
  {
  }

  lemma NothingAhead(chain: seq<nat>, symbols: seq<Symbol>, s: name)
    requires Ascending(chain) && |chain| == |symbols| + 1 && Ahead(chain, 0, symbols, s)
    ensures forall i :: 0 <= i < |symbols| ==> symbols[i].name != s
  {
  }

  /** A loader's lookup: follow the bucket's chain and compare names. */
  method GetSym(hash: array<nat>, symtab: seq<ElfSym>, tab: seq<byte>, s: name, ghost symbols: seq<Symbol>)
    returns (r: Option<nat>)
    requires Complete(hash[..], NamesOf(symbols)) && |symtab| == |symbols| + 1
    requires forall i :: 0 <= i < |symbols| ==> Describes(symtab[i + 1], tab, symbols[i])
    ensures r.Some? ==> r.value < |symtab| && r.value != 0 && IsFirst(symbols, s, r.value - 1)
    ensures r.None? <==> forall i :: 0 <= i < |symbols| ==> symbols[i].name != s
  {
    hide Members, NumBuckets, ElfHash, EachOnce, Unused, Describes, Linked, Walk, Ahead, IsFirst, Ascending;
    ghost var table := hash[..];
    var numBuckets := hash[0];
    var h := ComputeHash(s);
    AllAhead(table, symbols, s);
    ghost var chain := Chain(table, numBuckets);
    var at := hash[2 + h % numBuckets];
    while at != 0
      invariant at < |chain| && Ahead(chain, at, symbols, s)
      decreases if at == 0 then 0 else |chain| - at
    {
      NameRead(symtab, tab, symbols, at);
      if StringAt(tab, symtab[at].nameIndex) == s {
        FirstOfWalk(chain, at, symbols, s);
        return Some(at);
      }
      assert chain[at] == hash[2 + numBuckets + at];
      AheadStep(chain, at, symbols, s);
      at := hash[2 + numBuckets + at];
    }
    NothingAhead(chain, symbols, s);
    r := None;
  }

  lemma NameRead(symtab: seq<ElfSym>, tab: seq<byte>, symbols: seq<Symbol>, at: nat)
    requires |symtab| == |symbols| + 1 && 0 < at < |symtab|
    requires forall i :: 0 <= i < |symbols| ==> Describes(symtab[i + 1], tab, symbols[i])
    ensures symtab[at].nameIndex <= |tab| && StringAt(tab, symtab[at].nameIndex) == symbols[at - 1].name
  {
  }

  lemma FirstOfWalk(chain: seq<nat>, at: nat, symbols: seq<Symbol>, s: name)
    requires Ascending(chain) && 0 < at < |chain| == |symbols| + 1 && Ahead(chain, at, symbols, s)
    requires symbols[at - 1].name == s
    ensures IsFirst(symbols, s, at - 1) && exists i :: 0 <= i < |symbols| && symbols[i].name == s
  {
  }

  /** All three tables generated from the same symbols, then a lookup through them. */
  method BuildAndLookUp(builder: ElfSymtabBuilder, s: name)
    returns (symtab: seq<ElfSym>, tab: seq<byte>, r: Option<nat>)
    requires |builder.nameIdx| == |builder.symbols| && NoNuls(NamesOf(builder.symbols))
    modifies builder`nameIdx
    ensures |symtab| == |builder.symbols| + 1
    ensures r.None? <==> forall i :: 0 <= i < |builder.symbols| ==> builder.symbols[i].name != s
    ensures r.Some? ==>
              && 0 < r.value < |symtab| && IsFirst(builder.symbols, s, r.value - 1)
              && Describes(symtab[r.value], tab, builder.symbols[r.value - 1])
  {
    hide Complete, Describes, IsFirst;
    tab := builder.GenerateStrtab();
    var hash := builder.GenerateHashContents();
    symtab := builder.GenerateSymtab(tab);
    r := GetSym(hash, symtab, tab, s, builder.symbols);
    assert r.Some? ==> Describes(symtab[r.value - 1 + 1], tab, builder.symbols[r.value - 1]);
  }
}
