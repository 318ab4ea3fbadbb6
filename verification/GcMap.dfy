/**
 The map from native code offsets to reference bitmaps: an open-addressing hash table in a byte
 vector, as the compiler builds it and as the runtime probes it.
 */
module GcMap {
  import opened Words
  import opened RelativeCalls

  // ---------------------------------------------------------------- numbers of a given width

  function Pow256(width: nat): (r: nat)
    ensures 0 < r
  {
    if width == 0 then 1 else 0x100 * Pow256(width - 1)
  }

  function Bytes(v: nat, width: nat): (s: seq<byte>)
    ensures |s| == width
  {
    if width == 0 then [] else [v % 0x100] + Bytes(v / 0x100, width - 1)
  }

  function FromBytes(s: seq<byte>): nat
  {
    if s == [] then 0 else s[0] as int + 0x100 * FromBytes(s[1..])
  }

  lemma {:induction false} BytesRoundTrip(v: nat, width: nat)
    requires v < Pow256(width)
    ensures FromBytes(Bytes(v, width)) == v
  {
    if 0 < width {
      BytesRoundTrip(v / 0x100, width - 1);
      assert Bytes(v, width)[1..] == Bytes(v / 0x100, width - 1);
    }
  }

  /** CLZ, for a word that is not zero. */
  function LeadingZeros(x: word): (r: nat)
    requires 0 < x
    decreases 0x1_0000_0000 - x
  {
    if 0x8000_0000 <= x then 0 else 1 + LeadingZeros(2 * x)
  }

  /** Eight leading zeros leave three bytes. */
  lemma EightZeros(x: word)
    requires 0 < x && 8 <= LeadingZeros(x)
    ensures x < 0x100_0000 && LeadingZeros(0x100 * x) == LeadingZeros(x) - 8
  {
    assert LeadingZeros(x) == 1 + LeadingZeros(2 * x);
    assert LeadingZeros(2 * x) == 1 + LeadingZeros(4 * x);
    assert LeadingZeros(4 * x) == 1 + LeadingZeros(8 * x);
    assert LeadingZeros(8 * x) == 1 + LeadingZeros(0x10 * x);
    assert LeadingZeros(0x10 * x) == 1 + LeadingZeros(0x20 * x);
    assert LeadingZeros(0x20 * x) == 1 + LeadingZeros(0x40 * x);
    assert LeadingZeros(0x40 * x) == 1 + LeadingZeros(0x80 * x);
    assert LeadingZeros(0x80 * x) == 1 + LeadingZeros(0x100 * x);
  }

  lemma ZeroBytes(x: word)
    requires 0 < x
    ensures 8 <= LeadingZeros(x) ==> x < 0x100_0000
    ensures 16 <= LeadingZeros(x) ==> x < 0x1_0000
    ensures 24 <= LeadingZeros(x) ==> x < 0x100
    ensures LeadingZeros(x) < 32
  {
    hide LeadingZeros;
    if 8 <= LeadingZeros(x) {
      EightZeros(x);
      if 16 <= LeadingZeros(x) {
        EightZeros(0x100 * x);
        if 24 <= LeadingZeros(x) {
          EightZeros(0x1_0000 * x);
          if 32 <= LeadingZeros(x) {
            EightZeros(0x100_0000 * x);
            assert false;
          }
        }
      }
    }
  }

  /** sizeof(max) - CLZ(max) / 8 */
  function OffsetWidth(max: word): (w: nat)
    requires 0 < max
    ensures w <= 4
  {
    ZeroBytes(max);
    4 - LeadingZeros(max) / 8
  }

  lemma Powers()
    ensures Pow256(0) == 1 && Pow256(1) == 0x100 && Pow256(2) == 0x1_0000 && Pow256(3) == 0x100_0000
    ensures Pow256(4) == 0x1_0000_0000
  {
  }

  /** Every offset up to the largest fits the width chosen for the largest. */
  lemma WidthSuffices(max: word, offset: nat)
    requires 0 < max && offset <= max
    ensures offset < Pow256(OffsetWidth(max))
  {
    hide LeadingZeros, Pow256;
    Powers();
    ZeroBytes(max);
  }

  /** What fits three bytes has eight leading zeros. */
  lemma ThreeBytes(x: word)
    requires 0 < x < 0x100_0000
    ensures LeadingZeros(x) == 8 + LeadingZeros(0x100 * x)
  {
    assert LeadingZeros(x) == 1 + LeadingZeros(2 * x);
    assert LeadingZeros(2 * x) == 1 + LeadingZeros(4 * x);
    assert LeadingZeros(4 * x) == 1 + LeadingZeros(8 * x);
    assert LeadingZeros(8 * x) == 1 + LeadingZeros(0x10 * x);
    assert LeadingZeros(0x10 * x) == 1 + LeadingZeros(0x20 * x);
    assert LeadingZeros(0x20 * x) == 1 + LeadingZeros(0x40 * x);
    assert LeadingZeros(0x40 * x) == 1 + LeadingZeros(0x80 * x);
    assert LeadingZeros(0x80 * x) == 1 + LeadingZeros(0x100 * x);
  }

  /** The width is no larger than the largest offset needs. */
  lemma WidthIsLeast(max: word)
    requires 0 < max
    ensures 0 < OffsetWidth(max) && Pow256(OffsetWidth(max) - 1) <= max
  {
    hide LeadingZeros, Pow256;
    Powers();
    ZeroBytes(max);
    if max < 0x100_0000 {
      ThreeBytes(max);
      if max < 0x1_0000 {
        ThreeBytes(0x100 * max);
        if max < 0x100 {
          ThreeBytes(0x1_0000 * max);
        }
      }
    }
  }

  // ---------------------------------------------------------------- probing

  function Hash(nativeOffset: word): nat
  {
    var hash := Xor(nativeOffset, Xor(nativeOffset / 0x10_0000, nativeOffset / 0x1000));
    Xor(hash, Xor(hash / 0x80, hash / 0x10))
  }

  function Home(nativeOffset: word, entries: nat): (r: nat)
    requires 0 < entries
    ensures r < entries
  {
    Hash(nativeOffset) % entries
  }

  /** (i + 1) % entries */
  function Next(i: nat, entries: nat): (r: nat)
    requires i < entries
    ensures r < entries
  {
    if i + 1 == entries then 0 else i + 1
  }

  /** How many steps lead from one slot to another. */
  function Distance(from: nat, to: nat, entries: nat): (r: nat)
    requires from < entries && to < entries
    ensures r < entries
    ensures r == 0 <==> from == to
  {
    if from <= to then to - from else to + entries - from
  }

  /** All slots from `from` up to, but not including, `to` are in use. */
  predicate Busy(used: set<nat>, from: nat, to: nat, entries: nat)
    requires from < entries && to < entries
    decreases Distance(from, to, entries)
  {
    from == to || (from in used && Busy(used, Next(from, entries), to, entries))
  }

  lemma {:induction false} BusyExtends(used: set<nat>, from: nat, to: nat, entries: nat)
    requires from < entries && to < entries && Busy(used, from, to, entries) && to in used
    ensures Busy(used, from, Next(to, entries), entries)
    decreases Distance(from, to, entries)
  {
    var next := Next(to, entries);
    if from != next {
      if from == to {
        assert Busy(used, next, next, entries);
      } else {
        BusyExtends(used, Next(from, entries), to, entries);
      }
    }
  }

  lemma {:induction false} BusyGrows(used: set<nat>, more: set<nat>, from: nat, to: nat, entries: nat)
    requires from < entries && to < entries && Busy(used, from, to, entries) && used <= more
    ensures Busy(more, from, to, entries)
    decreases Distance(from, to, entries)
  {
    if from != to {
      BusyGrows(used, more, Next(from, entries), to, entries);
    }
  }

  // ---------------------------------------------------------------- the table as bytes

  datatype Stored = Stored(offset: word, references: seq<byte>)

  datatype Shape = Shape(entries: nat, offsetWidth: nat, referencesWidth: nat)
  {
    function Width(): nat
    {
      offsetWidth + referencesWidth
    }

    function Size(): nat
    {
      4 + entries * Width()
    }

    /** Where an entry starts, behind the header. */
    function At(slot: nat): nat
    {
      4 + slot * Width()
    }

    /** What the header has room for. */
    predicate Fits()
    {
      entries < 0x1_0000 && offsetWidth <= 4 && referencesWidth < 0x2000
    }

    function Header(): (s: seq<byte>)
      requires Fits()
      ensures |s| == 4
    {
      // the width stands in the low three bits of a byte whose other bits come from the references' width
      [offsetWidth + referencesWidth * 8 % 0x100, referencesWidth / 0x20 % 0x100, entries % 0x100,
       entries / 0x100 % 0x100]
    }
  }

  /** The reader's view of the header. */
  function DecodeHeader(data: seq<byte>): Shape
    requires 4 <= |data|
  {
    Shape(data[2] as int + 0x100 * (data[3] as int), data[0] as int % 8,
          (data[0] as int + 0x100 * (data[1] as int)) / 8)
  }

  /** The packed header decodes to the widths and the count. */
  lemma HeaderRoundTrip(shape: Shape, data: seq<byte>)
    requires shape.Fits() && 4 <= |data| && data[..4] == shape.Header()
    ensures DecodeHeader(data) == shape
  {
    assert data[0] == data[..4][0] && data[1] == data[..4][1] && data[2] == data[..4][2] && data[3] == data[..4][3];
    HeaderArithmetic(shape.offsetWidth, shape.referencesWidth);
    CountArithmetic(shape.entries);
  }

  lemma HeaderArithmetic(w: nat, r: nat)
    requires w <= 4 && r < 0x2000
    ensures (w + r * 8 % 0x100) % 8 == w
    ensures (w + r * 8 % 0x100 + 0x100 * (r / 0x20 % 0x100)) / 8 == r
  {
    var high, low := r / 0x20, r % 0x20;
    assert r == 0x20 * high + low && high < 0x100;
    assert r * 8 % 0x100 == low * 8;
  }

  lemma CountArithmetic(n: nat)
    requires n < 0x1_0000
    ensures n % 0x100 + 0x100 * (n / 0x100 % 0x100) == n
  {
  }

  lemma SlotBounds(shape: Shape, slot: nat)
    requires slot < shape.entries
    ensures 4 <= shape.At(slot) && shape.At(slot) + shape.Width() <= shape.Size()
  {
    assert (slot + 1) * shape.Width() <= shape.entries * shape.Width();
  }

  lemma SlotsApart(shape: Shape, a: nat, b: nat)
    requires a < b
    ensures shape.At(a) + shape.Width() <= shape.At(b)
  {
    assert (a + 1) * shape.Width() <= b * shape.Width();
  }

  function EntryBytes(shape: Shape, e: Stored): (s: seq<byte>)
    requires |e.references| == shape.referencesWidth
    ensures |s| == shape.Width()
  {
    Bytes(e.offset, shape.offsetWidth) + e.references
  }

  /** The slot holds the entry, its offset fits, and it is found by probing from its home slot. */
  ghost predicate EntryRight(data: seq<byte>, shape: Shape, stored: map<nat, Stored>, slot: nat)
    requires slot in stored
  {
    var e := stored[slot];
    && slot < shape.entries && |e.references| == shape.referencesWidth && e.offset < Pow256(shape.offsetWidth)
    && Holds(data, shape.At(slot), EntryBytes(shape, e))
    && Busy(stored.Keys, Home(e.offset, shape.entries), slot, shape.entries)
  }

  /** `data` is a table of this shape that maps the offsets of `stored` to their references. */
  ghost predicate IsTable(data: seq<byte>, shape: Shape, stored: map<nat, Stored>)
  {
    && shape.Fits() && |data| == shape.Size() && data[..4] == shape.Header()
    && (forall slot :: slot in stored ==> EntryRight(data, shape, stored, slot))
    && (forall a, b :: a in stored && b in stored && stored[a].offset == stored[b].offset ==> a == b)
  }

  lemma EntryKept(data: seq<byte>, shape: Shape, stored: map<nat, Stored>, data': seq<byte>, slot: nat, e: Stored,
                  a: nat)
    requires IsTable(data, shape, stored) && a in stored && slot < shape.entries && slot !in stored
    requires |e.references| == shape.referencesWidth && shape.At(slot) + shape.Width() <= |data|
    requires data' == Overwrite(data, shape.At(slot), EntryBytes(shape, e))
    ensures EntryRight(data', shape, stored[slot := e], a)
  {
    hide Busy, Home, Pow256, EntryBytes, Overwrite, Shape.At, Shape.Width, Shape.Header, Shape.Fits;
    assert EntryRight(data, shape, stored, a);
    if a < slot {
      SlotsApart(shape, a, slot);
    } else {
      SlotsApart(shape, slot, a);
    }
    var at, end := shape.At(a), shape.At(a) + shape.Width();
    assert data'[at..end] == data[at..end];
    assert stored[slot := e].Keys == stored.Keys + {slot};
    BusyGrows(stored.Keys, stored.Keys + {slot}, Home(stored[a].offset, shape.entries), a, shape.entries);
  }

  /** Writing a new entry into a free slot that probing from its home slot leads to. */
  lemma EntryAdded(data: seq<byte>, shape: Shape, stored: map<nat, Stored>, data': seq<byte>, slot: nat, e: Stored)
    requires IsTable(data, shape, stored) && slot < shape.entries && slot !in stored
    requires |e.references| == shape.referencesWidth && e.offset < Pow256(shape.offsetWidth)
    requires shape.At(slot) + shape.Width() <= |data|
    requires data' == Overwrite(data, shape.At(slot), EntryBytes(shape, e))
    requires Busy(stored.Keys, Home(e.offset, shape.entries), slot, shape.entries)
    requires forall a :: a in stored ==> stored[a].offset != e.offset
    ensures IsTable(data', shape, stored[slot := e])
  {
    hide Busy, Home, Pow256, EntryBytes, EntryRight, Shape.Width, Shape.Header, Shape.Fits;
    var stored' := stored[slot := e];
    assert stored'.Keys == stored.Keys + {slot};
    BusyGrows(stored.Keys, stored'.Keys, Home(e.offset, shape.entries), slot, shape.entries);
    SlotBounds(shape, slot);
    assert data'[..4] == data[..4];
    NewEntryRight(data', shape, stored', slot);
    forall a | a in stored && a != slot
      ensures EntryRight(data', shape, stored', a)
    {
      EntryKept(data, shape, stored, data', slot, e, a);
    }
  }

  lemma NewEntryRight(data: seq<byte>, shape: Shape, stored: map<nat, Stored>, slot: nat)
    requires slot in stored && slot < shape.entries
    requires |stored[slot].references| == shape.referencesWidth && stored[slot].offset < Pow256(shape.offsetWidth)
    requires shape.At(slot) + shape.Width() <= |data|
    requires data[shape.At(slot)..shape.At(slot) + shape.Width()] == EntryBytes(shape, stored[slot])
    requires Busy(stored.Keys, Home(stored[slot].offset, shape.entries), slot, shape.entries)
    ensures EntryRight(data, shape, stored, slot)
  {
  }

  // ---------------------------------------------------------------- building

  /** Where there is room, some slot is free. */
  lemma {:induction false} SomeSlotFree(used: set<nat>, entries: nat)
    requires |used| < entries
    ensures exists f: nat :: f < entries && f !in used
    decreases entries
  {
    if entries - 1 in used {
      SomeSlotFree(used - {entries - 1}, entries - 1);
      var f: nat :| f < entries - 1 && f !in used - {entries - 1};
      assert f !in used;
    }
  }

  class GcMapBuilder {
    const shape: Shape
    const inUse: array<bool>
    const table: array<byte>
    ghost var stored: map<nat, Stored>

    ghost predicate Valid()
      reads this, inUse, table
    {
      && inUse.Length == shape.entries
      && (forall i :: 0 <= i < inUse.Length ==> (inUse[i] <==> i in stored))
      && IsTable(table[..], shape, stored)
    }

    constructor (entries: nat, maxNativeOffset: word, referencesWidth: nat)
      requires entries < 0x1_0000 && referencesWidth < 0x2000
      ensures Valid() && stored == map[] && fresh(inUse) && fresh(table)
      ensures shape.entries == entries
      ensures 0 < entries ==> shape.referencesWidth == referencesWidth
      ensures 0 < entries ==> maxNativeOffset < Pow256(shape.offsetWidth)
    {
      hide Pow256, OffsetWidth, Shape.Header, Shape.Size;
      var offsetWidth := if entries != 0 && maxNativeOffset != 0 then OffsetWidth(maxNativeOffset) else 0;
      var s := Shape(entries, offsetWidth, if entries != 0 then referencesWidth else 0);
      shape := s;
      inUse := new bool[entries](_ => false);
      var data := new byte[s.Size()](_ => 0);
      HeaderFits(s);
      data[0], data[1], data[2], data[3] := s.Header()[0], s.Header()[1], s.Header()[2], s.Header()[3];
      table := data;
      stored := map[];
      new;
      assert table[..4] == shape.Header();
      assert table[..][..4] == table[..4];
      if 0 < maxNativeOffset {
        WidthSuffices(maxNativeOffset, maxNativeOffset);
      } else {
        Powers();
      }
    }

    /** The first free slot from the offset's home slot on. */
    method Probe(nativeOffset: word) returns (slot: nat)
      requires Valid() && |stored| < shape.entries
      ensures slot < shape.entries && slot !in stored
      ensures Busy(stored.Keys, Home(nativeOffset, shape.entries), slot, shape.entries)
    {
      hide IsTable, Busy, Hash;
      SomeSlotFree(stored.Keys, shape.entries);
      ghost var free: nat :| free < shape.entries && free !in stored;
      slot := Home(nativeOffset, shape.entries);
      NotBusyAtFirst(stored.Keys, slot, shape.entries);
      while inUse[slot]
        invariant slot < shape.entries
        invariant Busy(stored.Keys, Home(nativeOffset, shape.entries), slot, shape.entries)
        decreases Distance(slot, free, shape.entries)
      {
        BusyExtends(stored.Keys, Home(nativeOffset, shape.entries), slot, shape.entries);
        slot := Next(slot, shape.entries);
      }
    }

    /** AddEntry; `slot` is where the entry went. */
    method AddEntry(nativeOffset: word, references: seq<byte>) returns (ghost slot: nat)
      requires Valid() && |stored| < shape.entries
      requires |references| == shape.referencesWidth && nativeOffset < Pow256(shape.offsetWidth)
      requires forall slot :: slot in stored ==> stored[slot].offset != nativeOffset
      modifies this, inUse, table
      ensures Valid() && slot !in old(stored) && stored == old(stored)[slot := Stored(nativeOffset, references)]
    {
      hide IsTable, Busy, Home, Pow256, EntryBytes, Overwrite, Shape.At, Shape.Width, Shape.Size;
      var tableIndex := Probe(nativeOffset);
      slot := tableIndex;
      ghost var was, e := table[..], Stored(nativeOffset, references);
      TableSize(was, shape, stored);
      SlotBounds(shape, slot);
      inUse[tableIndex] := true;
      WriteEntry(tableIndex, nativeOffset, references);
      EntryAdded(was, shape, stored, table[..], slot, e);
      stored := stored[slot := e];
    }

    /** SetCodeOffset and SetReferences. */
    method WriteEntry(slot: nat, nativeOffset: word, references: seq<byte>)
      requires |references| == shape.referencesWidth && shape.At(slot) + shape.Width() <= table.Length
      modifies table
      ensures table[..] == Overwrite(old(table[..]), shape.At(slot),
                                     EntryBytes(shape, Stored(nativeOffset, references)))
    {
      ghost var was := table[..];
      var at, v: nat := shape.At(slot), nativeOffset;
      ghost var bytes := Bytes(nativeOffset, shape.offsetWidth);
      for i := 0 to shape.offsetWidth
        invariant bytes[i..] == Bytes(v, shape.offsetWidth - i)
        invariant forall k :: 0 <= k < table.Length ==> table[k] == if at <= k < at + i then bytes[k - at] else was[k]
      {
        table[at + i] := v % 0x100;
        v := v / 0x100;
      }
      var start := at + shape.offsetWidth;
      for i := 0 to |references|
        invariant forall k :: 0 <= k < table.Length ==>
                    table[k] == if at <= k < start then bytes[k - at]
                                else if start <= k < start + i then references[k - start] else was[k]
      {
        table[start + i] := references[i];
      }
      assert table[..] == was[..at] + (bytes + references) + was[at + shape.Width()..];
    }
  }

  /** The entries of a method fit the table: as many as announced, offsets distinct and not above the largest. */
  predicate Acceptable(list: seq<Stored>, entries: nat, maxNativeOffset: word, referencesWidth: nat)
  {
    && |list| <= entries < 0x1_0000 && referencesWidth < 0x2000
    && (forall i :: 0 <= i < |list| ==> list[i].offset <= maxNativeOffset && |list[i].references| == referencesWidth)
    && (forall i, j :: 0 <= i < j < |list| ==> list[i].offset != list[j].offset)
  }

  ghost predicate StoredIn(stored: map<nat, Stored>, slot: nat, e: Stored)
  {
    slot in stored && stored[slot] == e
  }

  ghost predicate Present(stored: map<nat, Stored>, e: Stored)
  {
    exists slot :: StoredIn(stored, slot, e)
  }

  /** The stored entries are those of the list. */
  ghost predicate AllStored(stored: map<nat, Stored>, list: seq<Stored>)
  {
    && |stored| == |list|
    && (forall i :: 0 <= i < |list| ==> Present(stored, list[i]))
    && (forall slot :: slot in stored ==> stored[slot] in list)
  }

  lemma AllStoredNext(stored: map<nat, Stored>, list: seq<Stored>, e: Stored, slot: nat)
    requires AllStored(stored, list) && slot !in stored
    ensures AllStored(stored[slot := e], list + [e])
  {
    var after, more := stored[slot := e], list + [e];
    assert after.Keys == stored.Keys + {slot};
    assert StoredIn(after, slot, e);
    forall i | 0 <= i < |list|
      ensures Present(after, list[i])
    {
      var x :| StoredIn(stored, x, list[i]);
      assert StoredIn(after, x, list[i]);
    }
    assert more[|list|] == e;
    forall x | x in after
      ensures after[x] in more
    {
      if x != slot {
        assert stored[x] in list;
      }
    }
  }

  /** An entry that is still to come has an offset of its own. */
  lemma OffsetIsNew(stored: map<nat, Stored>, list: seq<Stored>, i: nat)
    requires i < |list| && AllStored(stored, list[..i])
    requires forall a, b :: 0 <= a < b < |list| ==> list[a].offset != list[b].offset
    ensures forall slot :: slot in stored ==> stored[slot].offset != list[i].offset
  {
    forall slot | slot in stored
      ensures stored[slot].offset != list[i].offset
    {
      assert stored[slot] in list[..i];
    }
  }

  /** The bytes are a table of this many slots that stores the entries of the list and no others. */
  ghost predicate TableOf(data: seq<byte>, entries: nat, list: seq<Stored>)
  {
    exists shape: Shape, stored ::
      IsTable(data, shape, stored) && shape.entries == entries && AllStored(stored, list)
  }

  /** What the reader gets from the header of such a table. */
  lemma TableCounts(data: seq<byte>, entries: nat, list: seq<Stored>)
    requires TableOf(data, entries, list)
    ensures 4 <= |data| && DecodeHeader(data).entries == entries
  {
    hide IsTable;
    var shape, stored :| IsTable(data, shape, stored) && shape.entries == entries && AllStored(stored, list);
    HeaderRead(data, shape, stored);
  }

  /** A method's entries, added one by one. */
  method BuildGcMap(list: seq<Stored>, entries: nat, maxNativeOffset: word, referencesWidth: nat)
    returns (data: seq<byte>)
    requires Acceptable(list, entries, maxNativeOffset, referencesWidth)
    ensures TableOf(data, entries, list)
    ensures 4 <= |data| && DecodeHeader(data).entries == entries
  {
    hide IsTable, Pow256, AllStored, DecodeHeader;
    var builder := new GcMapBuilder(entries, maxNativeOffset, referencesWidth);
    NothingStored(builder.stored, list);
    for i := 0 to |list|
      invariant builder.Valid() && fresh(builder) && fresh(builder.inUse) && fresh(builder.table)
      invariant |builder.stored| == i && AllStored(builder.stored, list[..i])
    {
      OffsetIsNew(builder.stored, list, i);
      ghost var before := builder.stored;
      ghost var slot := builder.AddEntry(list[i].offset, list[i].references);
      AllStoredNext(before, list[..i], list[i], slot);
      assert list[..i + 1] == list[..i] + [list[i]];
      StoredCount(builder.stored, list[..i + 1]);
    }
    assert list[..|list|] == list;
    data := builder.table[..];
    assert TableOf(data, entries, list);
    TableCounts(data, entries, list);
  }

  lemma NothingStored(stored: map<nat, Stored>, list: seq<Stored>)
    requires stored == map[]
    ensures AllStored(stored, list[..0])
  {
  }

  lemma StoredCount(stored: map<nat, Stored>, list: seq<Stored>)
    requires AllStored(stored, list)
    ensures |stored| == |list|
  {
  }

  lemma HeaderFits(s: Shape)
    requires s.entries < 0x1_0000 && s.referencesWidth < 0x2000 && s.offsetWidth <= 4
    ensures s.Fits() && 4 <= s.Size()
  {
  }

  lemma NotBusyAtFirst(used: set<nat>, slot: nat, entries: nat)
    requires slot < entries
    ensures Busy(used, slot, slot, entries)
  {
  }

  lemma TableSize(data: seq<byte>, shape: Shape, stored: map<nat, Stored>)
    requires IsTable(data, shape, stored)
    ensures |data| == shape.Size()
  {
  }

  // ---------------------------------------------------------------- reading

  lemma {:induction false} FromBytesAppend(s: seq<byte>, b: byte)
    ensures FromBytes(s + [b]) == FromBytes(s) + Pow256(|s|) * (b as int)
    decreases |s|
  {
    if s == [] {
      assert (s + [b])[1..] == [];
    } else {
      assert (s + [b])[1..] == s[1..] + [b];
      FromBytesAppend(s[1..], b);
      Associate(Pow256(|s| - 1), b as int);
    }
  }

  lemma Associate(p: nat, b: nat)
    ensures 0x100 * (p * b) == 0x100 * p * b
  {
  }

  /** The offset bytes and the references that stand in a slot. */
  function OffsetAt(data: seq<byte>, shape: Shape, slot: nat): nat
    requires shape.At(slot) + shape.Width() <= |data|
  {
    FromBytes(data[shape.At(slot)..shape.At(slot) + shape.offsetWidth])
  }

  function ReferencesAt(data: seq<byte>, shape: Shape, slot: nat): seq<byte>
    requires shape.At(slot) + shape.Width() <= |data|
  {
    data[shape.At(slot) + shape.offsetWidth..shape.At(slot) + shape.Width()]
  }

  /** The size of a pointer in the runtime that reads the table. */
  datatype Runtime = Runtime32 | Runtime64

  /** A 32-bit int converted to an unsigned pointer-sized integer: the sign is extended. */
  function ToPointer(runtime: Runtime, x: int): (r: nat)
    requires -0x8000_0000 <= x < 0x8000_0000
  {
    if 0 <= x then x else x + (if runtime.Runtime32? then 0x1_0000_0000 else 0x1_0000_0000_0000_0000)
  }

  /** What four offset bytes of this value read as. */
  function ReadAs(runtime: Runtime, v: word): nat
  {
    ToPointer(runtime, Signed(v))
  }

  /** The reader sees the offset that was stored exactly when it is below 2^31 or pointers have 32 bits. */
  lemma ReadsExactlyWhen(runtime: Runtime, v: word, wanted: word)
    ensures ReadAs(runtime, v) == wanted <==> v == wanted && (runtime.Runtime32? || wanted < 0x8000_0000)
  {
  }

  /** A byte, promoted to int, shifted to its place and or-ed into what has been read of the bytes before it. */
  lemma ByteReads(runtime: Runtime, low: nat, b: byte, i: nat)
    requires i < 4 && low < Pow256(i)
    ensures Pow256(i) * (b as int) < 0x1_0000_0000 && low + Pow256(i) * (b as int) < 0x1_0000_0000
    ensures Or(ReadAs(runtime, low), ToPointer(runtime, Signed(Pow256(i) * (b as int)))) ==
            ReadAs(runtime, low + Pow256(i) * (b as int))
  {
    Powers();
    hide Or, Pow2;
    SmallPowers();
    match i {
      case 0 => OrDisjoint(low, b, 0);
      case 1 => OrDisjoint(low, b, 8);
      case 2 => OrDisjoint(low, b, 16);
      case 3 =>
        var high: nat := if b < 0x80 then b else b + (if runtime.Runtime32? then 0 else 0xff_ffff_ff00);
        OrDisjoint(low, high, 24);
        assert ToPointer(runtime, Signed(0x100_0000 * (b as int))) == high * 0x100_0000;
    }
  }

  lemma SmallPowers()
    ensures Pow2(0) == 1 && Pow2(8) == 0x100 && Pow2(16) == 0x1_0000 && Pow2(24) == 0x100_0000
  {
    assert Pow2(8) == 0x100;
    assert Pow2(16) == 0x1_0000;
  }

  lemma {:induction false} FromBytesBound(s: seq<byte>)
    ensures FromBytes(s) < Pow256(|s|)
  {
    if s != [] {
      FromBytesBound(s[1..]);
    }
  }

  /** GetNativePcOffset */
  method GetNativePcOffset(runtime: Runtime, data: seq<byte>, shape: Shape, index: nat) returns (r: nat)
    requires shape.At(index) + shape.Width() <= |data| && shape.offsetWidth <= 4
    ensures OffsetAt(data, shape, index) < 0x1_0000_0000
    ensures r == ReadAs(runtime, OffsetAt(data, shape, index))
  {
    hide Shape.At, FromBytes, Pow256, Or, ReadAs, ToPointer, Signed;
    var at := shape.At(index);
    r := 0;
    assert data[at..at + 0] == [];
    NoBytes(runtime);
    for i := 0 to shape.offsetWidth
      invariant FromBytes(data[at..at + i]) < 0x1_0000_0000 && r == ReadAs(runtime, FromBytes(data[at..at + i]))
    {
      var b := data[at + i];
      FromBytesBound(data[at..at + i]);
      FromBytesAppend(data[at..at + i], b);
      assert data[at..at + i + 1] == data[at..at + i] + [b];
      ByteReads(runtime, FromBytes(data[at..at + i]), b, i);
      r := Or(r, ToPointer(runtime, Signed(Pow256(i) * (b as int))));
    }
  }

  lemma NoBytes(runtime: Runtime)
    ensures FromBytes([]) == 0 == ReadAs(runtime, 0)
  {
  }

  /** What an occupied slot reads as. */
  lemma SlotReads(data: seq<byte>, shape: Shape, stored: map<nat, Stored>, slot: nat)
    requires IsTable(data, shape, stored) && slot in stored
    ensures slot < shape.entries && shape.At(slot) + shape.Width() <= |data|
    ensures OffsetAt(data, shape, slot) == stored[slot].offset
    ensures ReferencesAt(data, shape, slot) == stored[slot].references
    ensures Busy(stored.Keys, Home(stored[slot].offset, shape.entries), slot, shape.entries)
  {
    hide Busy, Home, FromBytes, Bytes, Pow256;
    assert EntryRight(data, shape, stored, slot);
    var e, at, w := stored[slot], shape.At(slot), shape.offsetWidth;
    var bytes := data[at..at + shape.Width()];
    assert bytes == Bytes(e.offset, w) + e.references;
    assert data[at..at + w] == bytes[..w] == Bytes(e.offset, w);
    assert data[at + w..at + shape.Width()] == bytes[w..] == e.references;
    BytesRoundTrip(e.offset, w);
  }

  /**
   FindBitMap: the table is probed from the offset's home slot until the offset is met. Coming round
   to where it started, the source fails its check, or goes on for ever without checks: no result.
   */
  method FindBitMap(runtime: Runtime, data: seq<byte>, nativePcOffset: word, ghost e: Stored,
                    ghost entries: nat, ghost list: seq<Stored>)
    returns (references: Option<seq<byte>>)
    requires TableOf(data, entries, list) && e in list && e.offset == nativePcOffset
    ensures references.Some? <==> runtime.Runtime32? || nativePcOffset < 0x8000_0000
    ensures references.Some? ==> references.value == e.references
  {
    hide IsTable, Busy, Home, OffsetAt, ReferencesAt, DecodeHeader, Shape.At, Shape.Width, ReadAs, AllStored;
    ghost var shape, stored, resident := Residence(data, entries, list, e);
    SlotReads(data, shape, stored, resident);
    HeaderRead(data, shape, stored);
    var s := DecodeHeader(data);
    var index: nat := Home(nativePcOffset, s.entries);
    var misses := 0;
    SlotInside(data, shape, stored, index);
    var offset := GetNativePcOffset(runtime, data, s, index);
    ReadsExactlyWhen(runtime, OffsetAt(data, s, index), nativePcOffset);
    while offset != nativePcOffset
      invariant 0 <= misses < s.entries && index < s.entries && s == shape && s.offsetWidth <= 4
      invariant s.At(index) + s.Width() <= |data| && OffsetAt(data, s, index) < 0x1_0000_0000
      invariant offset == ReadAs(runtime, OffsetAt(data, s, index))
      invariant offset == nativePcOffset <==>
                OffsetAt(data, s, index) == nativePcOffset && (runtime.Runtime32? || nativePcOffset < 0x8000_0000)
      invariant runtime.Runtime32? || nativePcOffset < 0x8000_0000 ==>
                  Busy(stored.Keys, index, resident, s.entries) &&
                    misses + Distance(index, resident, s.entries) < s.entries
      decreases s.entries - misses
    {
      if runtime.Runtime32? || nativePcOffset < 0x8000_0000 {
        BusyStep(stored.Keys, index, resident, s.entries);
      }
      index := Next(index, s.entries);
      misses := misses + 1;
      if misses == s.entries {
        return None;
      }
      SlotInside(data, shape, stored, index);
      offset := GetNativePcOffset(runtime, data, s, index);
      ReadsExactlyWhen(runtime, OffsetAt(data, s, index), nativePcOffset);
    }
    FoundResident(data, shape, stored, index, resident);
    SlotReads(data, shape, stored, index);
    references := Some(ReferencesAt(data, s, index));
  }

  /** The slot an entry of the table is in. */
  lemma Residence(data: seq<byte>, entries: nat, list: seq<Stored>, e: Stored)
    returns (shape: Shape, stored: map<nat, Stored>, slot: nat)
    requires TableOf(data, entries, list) && e in list
    ensures IsTable(data, shape, stored) && slot in stored && stored[slot] == e && shape.offsetWidth <= 4
  {
    hide IsTable;
    shape, stored :| IsTable(data, shape, stored) && shape.entries == entries && AllStored(stored, list);
    var i :| 0 <= i < |list| && list[i] == e;
    assert Present(stored, list[i]);
    slot :| StoredIn(stored, slot, e);
    WidthFits(data, shape, stored);
  }

  lemma WidthFits(data: seq<byte>, shape: Shape, stored: map<nat, Stored>)
    requires IsTable(data, shape, stored)
    ensures shape.offsetWidth <= 4
  {
  }

  /** An entry at 2^31: a 64-bit runtime reads another offset in its slot, so the entry cannot be found. */
  lemma FirstUnreadableOffset()
    ensures ReadAs(Runtime32, 0x8000_0000) == 0x8000_0000
    ensures ReadAs(Runtime64, 0x8000_0000) == 0xffff_ffff_8000_0000
    ensures Acceptable([Stored(0x8000_0000, [7])], 1, 0x8000_0000, 1)
  {
  }

  lemma HeaderRead(data: seq<byte>, shape: Shape, stored: map<nat, Stored>)
    requires IsTable(data, shape, stored)
    ensures 4 <= |data| && DecodeHeader(data) == shape
  {
    hide Busy, Home, Shape.At, Shape.Width, EntryBytes, Pow256, DecodeHeader, Shape.Header;
    HeaderRoundTrip(shape, data);
  }

  lemma SlotInside(data: seq<byte>, shape: Shape, stored: map<nat, Stored>, slot: nat)
    requires IsTable(data, shape, stored) && slot < shape.entries
    ensures shape.At(slot) + shape.Width() <= |data|
  {
    SlotBounds(shape, slot);
  }

  lemma BusyStep(used: set<nat>, from: nat, to: nat, entries: nat)
    requires from < entries && to < entries && from != to && Busy(used, from, to, entries)
    ensures Busy(used, Next(from, entries), to, entries)
  {
  }

  /** On the way to the resident slot no other slot reads as its offset. */
  lemma FoundResident(data: seq<byte>, shape: Shape, stored: map<nat, Stored>, index: nat, resident: nat)
    requires IsTable(data, shape, stored) && resident in stored && resident < shape.entries && index < shape.entries
    requires Busy(stored.Keys, index, resident, shape.entries) && shape.At(index) + shape.Width() <= |data|
    requires OffsetAt(data, shape, index) == stored[resident].offset
    ensures index == resident
  {
    hide EntryRight, OffsetAt;
    if index != resident {
      assert index in stored;
      SlotReads(data, shape, stored, index);
    }
  }
}
