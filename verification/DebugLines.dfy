/**
 One line number program for all methods: its rows are the methods' source maps, sorted, trimmed
 and moved to the text section.
 */
module DebugLines {
  import opened Words
  import opened RelativeCalls
  import opened Leb128
  import opened LineMachine
  import opened LineProgram
  import opened SourceMaps

  /** The strings in memory by address, and the address of the literal that stands in for a missing file name. */
  datatype Strings = Strings(text: nat -> string, nullLiteral: nat)

  /** What the oat writer knows about a method: its file name's address, its code's extent, its (pc, line) pairs. */
  datatype DebugInfo = DebugInfo(srcFileName: Option<nat>, lowPc: word, highPc: word, lines: seq<SrcMapElem>)

  function FileOf(d: DebugInfo, strings: Strings): nat
  {
    match d.srcFileName
    case Some(address) => address
    case None => strings.nullLiteral
  }

  // ---------------------------------------------------------------- the file table

  /** The addresses of the methods' file names, in order of first use. */
  function FileAddresses(methods: seq<DebugInfo>, strings: Strings): seq<nat>
  {
    if methods == [] then []
    else
      var n := |methods| - 1;
      var before, file := FileAddresses(methods[..n], strings), FileOf(methods[n], strings);
      if file in before then before else before + [file]
  }

  lemma {:induction false} AddressesExactly(methods: seq<DebugInfo>, strings: Strings)
    ensures forall a :: a in FileAddresses(methods, strings) <==>
                          exists i :: 0 <= i < |methods| && FileOf(methods[i], strings) == a
    ensures forall j, k :: 0 <= j < k < |FileAddresses(methods, strings)| ==>
              FileAddresses(methods, strings)[j] != FileAddresses(methods, strings)[k]
    ensures |FileAddresses(methods, strings)| <= |methods|
  {
    if methods != [] {
      AddressesExactly(methods[..|methods| - 1], strings);
    }
  }

  /** Each address has one number: its place among the addresses, counted from 1. */
  ghost predicate FilesNumbered(files: map<nat, nat>, addresses: seq<nat>)
  {
    && (forall a :: a in files <==> a in addresses)
    && (forall k :: 0 <= k < |addresses| ==> addresses[k] in files && files[addresses[k]] == k + 1)
  }

  /** The number a lookup of the method's file gives; what is not there reads as 0. */
  function FileNumber(d: DebugInfo, strings: Strings, files: map<nat, nat>): nat
  {
    if FileOf(d, strings) in files then files[FileOf(d, strings)] else 0
  }

  function NamesAt(addresses: seq<nat>, strings: Strings): (r: seq<string>)
    ensures |r| == |addresses|
  {
    seq(|addresses|, k requires 0 <= k < |addresses| => strings.text(addresses[k]))
  }

  /** The file entries of the line table header: one for each address, in order of first use. */
  method FileTable(methods: seq<DebugInfo>, strings: Strings) returns (files: map<nat, nat>, table: seq<string>)
    ensures FilesNumbered(files, FileAddresses(methods, strings))
    ensures table == NamesAt(FileAddresses(methods, strings), strings)
  {
    files, table := map[], [];
    for i := 0 to |methods|
      invariant FilesNumbered(files, FileAddresses(methods[..i], strings))
      invariant table == NamesAt(FileAddresses(methods[..i], strings), strings)
    {
      assert methods[..i + 1][..i] == methods[..i];
      var file := FileOf(methods[i], strings);
      if file !in files {
        files, table := files[file := 1 + |table|], table + [strings.text(file)];
      }
    }
    assert methods[..|methods|] == methods;
  }

  /** The entry a method's rows refer to holds the name of the method's file. */
  lemma FileNumberNames(methods: seq<DebugInfo>, strings: Strings, files: map<nat, nat>, i: nat)
    requires i < |methods| && FilesNumbered(files, FileAddresses(methods, strings))
    ensures var n := FileNumber(methods[i], strings, files);
            var table := NamesAt(FileAddresses(methods, strings), strings);
            1 <= n <= |table| <= |methods| && table[n - 1] == strings.text(FileOf(methods[i], strings))
  {
    AddressesExactly(methods, strings);
    var addresses, file := FileAddresses(methods, strings), FileOf(methods[i], strings);
    assert file in addresses;
    var k :| 0 <= k < |addresses| && addresses[k] == file;
  }

  predicate DistinctNames(table: seq<string>)
  {
    forall j, k :: 0 <= j < k < |table| ==> table[j] != table[k]
  }

  /** Equal names of two methods are one string in memory. */
  ghost predicate OneStringPerName(methods: seq<DebugInfo>, strings: Strings)
  {
    forall i, j :: 0 <= i < |methods| && 0 <= j < |methods| ==>
      SameString(FileOf(methods[i], strings), FileOf(methods[j], strings), strings)
  }

  predicate SameString(a: nat, b: nat, strings: Strings)
  {
    strings.text(a) == strings.text(b) ==> a == b
  }

  /** No name is entered twice exactly when equal names are one string in memory. */
  lemma NamesEnteredOnceExactlyWhen(methods: seq<DebugInfo>, strings: Strings)
    ensures DistinctNames(NamesAt(FileAddresses(methods, strings), strings)) <==> OneStringPerName(methods, strings)
  {
    var addresses := FileAddresses(methods, strings);
    var table := NamesAt(addresses, strings);
    AddressesExactly(methods, strings);
    if OneStringPerName(methods, strings) {
      forall j, k | 0 <= j < k < |table|
        ensures table[j] != table[k]
      {
        assert addresses[j] in addresses && addresses[k] in addresses;
        var p :| 0 <= p < |methods| && FileOf(methods[p], strings) == addresses[j];
        var q :| 0 <= q < |methods| && FileOf(methods[q], strings) == addresses[k];
        assert SameString(FileOf(methods[p], strings), FileOf(methods[q], strings), strings);
      }
    }
    if DistinctNames(table) {
      forall i, j | 0 <= i < |methods| && 0 <= j < |methods|
        ensures SameString(FileOf(methods[i], strings), FileOf(methods[j], strings), strings)
      {
        DistinctIndex(addresses, strings, FileOf(methods[i], strings), FileOf(methods[j], strings));
      }
    }
  }

  lemma DistinctIndex(addresses: seq<nat>, strings: Strings, a: nat, b: nat)
    requires DistinctNames(NamesAt(addresses, strings)) && a in addresses && b in addresses
    ensures SameString(a, b, strings)
  {
    var table := NamesAt(addresses, strings);
    var j :| 0 <= j < |addresses| && addresses[j] == a;
    var k :| 0 <= k < |addresses| && addresses[k] == b;
    assert table[j] == strings.text(a) && table[k] == strings.text(b);
  }

  /** Two methods whose files have the same name in two places: the name is entered twice, under two numbers. */
  lemma SameNameTwice(a: DebugInfo, b: DebugInfo, strings: Strings, files: map<nat, nat>)
    requires a.srcFileName == Some(1) && b.srcFileName == Some(2)
    requires strings.text(1) == strings.text(2) == "Utils.java"
    requires FilesNumbered(files, FileAddresses([a, b], strings))
    ensures NamesAt(FileAddresses([a, b], strings), strings) == ["Utils.java", "Utils.java"]
    ensures FileNumber(a, strings, files) == 1 && FileNumber(b, strings, files) == 2
  {
    assert [a, b][..1] == [a] && [a][..0] == [];
    assert FileAddresses([a], strings) == [1];
    assert FileAddresses([a, b], strings) == [1, 2];
    assert [1, 2][0] in files && [1, 2][1] in files;
  }

  // ---------------------------------------------------------------- the rows of a program

  function StartOf(d: DebugInfo): SrcMapElem
  {
    SrcMapElem(d.lowPc, 1)
  }

  /** The rows of a sorted and trimmed map. */
  function MapRows(kept: seq<SrcMapElem>, text: word, file: nat): (r: seq<Row>)
    ensures |r| == |kept|
  {
    seq(|kept|, k requires 0 <= k < |kept| => Row(kept[k].from + text, kept[k].to, file, false))
  }

  function ProgramRows(methods: seq<DebugInfo>, text: word, strings: Strings, files: map<nat, nat>): seq<Row>
  {
    if methods == [] then []
    else
      var n := |methods| - 1;
      var d := methods[n];
      ProgramRows(methods[..n], text, strings, files)
      + MapRows(Trim(d.lines, d.highPc), text, FileNumber(d, strings, files))
  }

  /** The end of the method that ends last, moved by `base`; `base` itself if there are no methods. */
  predicate HighestEnd(methods: seq<DebugInfo>, base: nat, end: nat)
  {
    && (forall i :: 0 <= i < |methods| ==> methods[i].highPc + base <= end)
    && (methods == [] ==> end == base)
    && (methods != [] ==> exists i :: 0 <= i < |methods| && methods[i].highPc + base == end)
  }

  /** The k-th step can be expressed: it does not go back, its line delta fits and its opcode does not wrap. */
  predicate StepFits(start: SrcMapElem, kept: seq<SrcMapElem>, k: nat)
    requires k < |kept|
  {
    var a, b := Before(start, kept, k), kept[k];
    a.from <= b.from && Fits(b.to - a.to) && !OpcodeWraps(b.from - a.from, b.to - a.to)
  }

  /** No 32-bit arithmetic wraps while the method's sorted lines are emitted. */
  predicate MethodFits(d: DebugInfo, text: word)
  {
    var kept := Trim(d.lines, d.highPc);
    && d.lowPc + text < 0x1_0000_0000
    && (forall k :: 0 <= k < |kept| ==> StepFits(StartOf(d), kept, k))
    && (kept != [] ==> Fits(1 - kept[|kept| - 1].to))
  }

  /** The same methods, each with its lines sorted by address. */
  predicate SortedVersion(sorted: seq<DebugInfo>, methods: seq<DebugInfo>)
  {
    && |sorted| == |methods|
    && forall i :: 0 <= i < |sorted| ==> SortedOne(sorted[i], methods[i])
  }

  predicate SortedOne(sorted: DebugInfo, d: DebugInfo)
  {
    sorted == d.(lines := sorted.lines) && SortedByFrom(sorted.lines) && multiset(sorted.lines) == multiset(d.lines)
  }

  // ---------------------------------------------------------------- emitting

  /** A step that fits survives the fields' wrap-around. */
  lemma DeltaExact(start: SrcMapElem, kept: seq<SrcMapElem>, k: nat)
    requires k < |kept| && StepFits(start, kept, k)
    ensures var a, b := Before(start, kept, k), kept[k];
            Deltas(start, kept)[k] == SrcMapElem(b.from - a.from, b.to - a.to)
  {
  }

  lemma StepDoesNotWrap(start: SrcMapElem, kept: seq<SrcMapElem>, k: nat)
    requires k < |kept| && StepFits(start, kept, k)
    ensures !OpcodeWraps(Deltas(start, kept)[k].from, Deltas(start, kept)[k].to)
  {
    hide OpcodeWraps;
    DeltaExact(start, kept, k);
  }

  /** The generator stands before the k-th element of the map: at `start`, or where the element before left it. */
  ghost predicate Stands(gen: LineTableGenerator, start: SrcMapElem, kept: seq<SrcMapElem>, text: word, k: nat)
    requires k <= |kept|
    reads gen
  {
    var a := if k == 0 then start else kept[k - 1];
    gen.currentAddress == a.from + text && gen.currentLine == a.to
  }

  method EmitDeltas(gen: LineTableGenerator, deltas: seq<SrcMapElem>,
                    ghost start: SrcMapElem, ghost text: word, ghost kept: seq<SrcMapElem>)
    requires kept != [] && deltas == Deltas(start, kept)
    modifies gen
    ensures gen.currentFileIndex == old(gen.currentFileIndex)
    ensures old(gen.Tracks() && gen.currentFileIndex != 0 && Stands(gen, start, kept, text, 0))
            && (forall k :: 0 <= k < |kept| ==> StepFits(start, kept, k)) ==>
              && gen.Tracks() && Stands(gen, start, kept, text, |kept|)
              && gen.Rows() == old(gen.Rows()) + MapRows(kept, text, gen.currentFileIndex)
  {
    hide Run, Deltas, StepFits, DeltaBytes, OpcodeWraps;
    ghost var rows := MapRows(kept, text, gen.currentFileIndex);
    ghost var fits := gen.Tracks() && gen.currentFileIndex != 0 && Stands(gen, start, kept, text, 0)
                      && forall k :: 0 <= k < |kept| ==> StepFits(start, kept, k);
    for k := 0 to |deltas|
      invariant gen.currentFileIndex == old(gen.currentFileIndex)
      invariant fits ==> gen.Tracks() && Stands(gen, start, kept, text, k) && gen.Rows() == old(gen.Rows()) + rows[..k]
    {
      if fits {
        DeltaExact(start, kept, k);
        StepDoesNotWrap(start, kept, k);
      }
      gen.PutDelta(deltas[k].from, deltas[k].to);
      assert rows[..k + 1] == rows[..k] + [rows[k]];
    }
    assert rows[..|deltas|] == rows;
  }

  /** One method's share of the program; a method without lines has none. */
  method EmitMethod(gen: LineTableGenerator, d: DebugInfo, text: word, fileIndex: word)
    returns (ghost sorted: DebugInfo)
    modifies gen
    ensures SortedOne(sorted, d)
    ensures old(gen.Tracks() && Fits(1 - gen.currentLine)) && fileIndex != 0 && MethodFits(sorted, text) ==>
              && gen.Tracks() && Fits(1 - gen.currentLine)
              && gen.Rows() == old(gen.Rows()) + MapRows(Trim(sorted.lines, d.highPc), text, fileIndex)
  {
    hide Run, Trim, Deltas, StepFits;
    var pc2java := new SrcMap(d.lines);
    ghost var order := pc2java.DeltaFormat(StartOf(d), d.highPc);
    sorted := d.(lines := order);
    ghost var kept := Trim(order, d.highPc);
    if pc2java.elems != [] {
      gen.SetFile(fileIndex);
      gen.SetAddr(Wrap(d.lowPc + text));
      gen.SetLine(1);
      assert StartOf(d) == StartOf(sorted) && kept == Trim(sorted.lines, sorted.highPc);
      EmitDeltas(gen, pc2java.elems, StartOf(d), text, kept);
    }
  }

  /** The conditions under which every step of the program says what it should. */
  predicate ProgramFits(sorted: seq<DebugInfo>, text: word)
  {
    && (forall i :: 0 <= i < |sorted| ==> MethodFits(sorted[i], text))
    && (forall i :: 0 <= i < |sorted| ==> sorted[i].highPc + text < 0x1_0000_0000)
  }

  /** The machine ran to the end of a sequence: it added `rows`, then a row that only marks the end at `address`. */
  predicate Yields(result: Option<Machine>, rows: seq<Row>, address: nat)
  {
    && result.Some? && |result.value.rows| == |rows| + 1 && result.value == Start(result.value.rows)
    && result.value.rows[..|rows|] == rows
    && result.value.rows[|rows|].address == address && result.value.rows[|rows|].endSequence
  }

  /**
   What a compiled method ordinarily meets: addresses from its start and less than 306783377 bytes on,
   lines not negative.
   */
  predicate Ordinary(d: DebugInfo, text: word)
  {
    && d.lowPc + text < 0x1_0000_0000
    && forall e :: e in d.lines ==> d.lowPc <= e.from < d.lowPc + 306783377 && 0 <= e.to
  }

  /** In whatever order the sort leaves equal addresses, an ordinary method fits. */
  lemma OrdinaryFits(sorted: DebugInfo, d: DebugInfo, text: word)
    requires Ordinary(d, text) && SortedOne(sorted, d)
    ensures MethodFits(sorted, text)
  {
    hide Trim, OpcodeWraps;
    var kept := Trim(sorted.lines, sorted.highPc);
    forall k | 0 <= k < |kept|
      ensures 0 <= kept[k].to && StepFits(StartOf(sorted), kept, k)
    {
      assert sorted.lines[k] in multiset(sorted.lines);
      if 0 < k {
        assert sorted.lines[k - 1] in multiset(sorted.lines);
      }
      ShortestWrongStep();
    }
  }

  /** What the program for `sorted` has to achieve, given that every method fits. */
  ghost predicate Emitted(gen: LineTableGenerator, sorted: seq<DebugInfo>, text: word, strings: Strings,
                          files: map<nat, nat>)
    reads gen
  {
    (forall i :: 0 <= i < |sorted| ==> MethodFits(sorted[i], text)) ==>
      && gen.Tracks() && Fits(1 - gen.currentLine)
      && gen.Rows() == ProgramRows(sorted, text, strings, files)
  }

  /** The methods' shares, one after the other. */
  method EmitMethods(gen: LineTableGenerator, methods: seq<DebugInfo>, text: word, strings: Strings,
                     files: map<nat, nat>)
    returns (highPc: word, ghost sorted: seq<DebugInfo>)
    requires forall i :: 0 <= i < |methods| ==> 0 < FileNumber(methods[i], strings, files) < 0x1_0000_0000
    requires gen.Tracks() && gen.currentLine == 1 && gen.Rows() == []
    modifies gen
    ensures SortedVersion(sorted, methods) && HighestEnd(methods, 0, highPc)
    ensures Emitted(gen, sorted, text, strings, files)
  {
    hide Run, MethodFits, SortedByFrom, Trim, MapRows, HighestEnd, SortedOne, ProgramRows, Fits, FileNumber;
    sorted, highPc := [], 0;
    NoMethods(text, strings, files);
    for i := 0 to |methods|
      invariant SortedVersion(sorted, methods[..i])
      invariant HighestEnd(methods[..i], 0, highPc) && Emitted(gen, sorted, text, strings, files)
    {
      var d := methods[i];
      HighestNext(methods, i, highPc);
      highPc := if highPc < d.highPc then d.highPc else highPc;
      ghost var one := EmitMethod(gen, d, text, FileNumber(d, strings, files));
      RowsNext(sorted, one, d, text, strings, files);
      FitsNext(sorted, one, text);
      sorted := sorted + [one];
    }
    assert methods[..|methods|] == methods;
  }

  lemma NoMethods(text: word, strings: Strings, files: map<nat, nat>)
    ensures HighestEnd([], 0, 0) && ProgramRows([], text, strings, files) == [] && Fits(0)
  {
  }

  lemma RowsNext(before: seq<DebugInfo>, one: DebugInfo, d: DebugInfo, text: word, strings: Strings,
                 files: map<nat, nat>)
    requires SortedOne(one, d)
    ensures ProgramRows(before + [one], text, strings, files) ==
            ProgramRows(before, text, strings, files)
            + MapRows(Trim(one.lines, d.highPc), text, FileNumber(d, strings, files))
  {
    hide SortedByFrom, MapRows, Trim;
    assert (before + [one])[..|before|] == before;
  }

  lemma FitsNext(before: seq<DebugInfo>, one: DebugInfo, text: word)
    ensures (forall i :: 0 <= i < |before + [one]| ==> MethodFits((before + [one])[i], text)) ==>
              (forall i :: 0 <= i < |before| ==> MethodFits(before[i], text)) && MethodFits(one, text)
  {
    hide MethodFits;
    if forall i :: 0 <= i < |before + [one]| ==> MethodFits((before + [one])[i], text) {
      assert MethodFits((before + [one])[|before|], text);
      assert forall i :: 0 <= i < |before| ==> (before + [one])[i] == before[i];
    }
  }

  lemma HighestNext(methods: seq<DebugInfo>, i: nat, highPc: nat)
    requires i < |methods| && HighestEnd(methods[..i], 0, highPc)
    ensures HighestEnd(methods[..i + 1], 0, if highPc < methods[i].highPc then methods[i].highPc else highPc)
  {
    var all := methods[..i + 1];
    assert all[i] == methods[i] && forall j :: 0 <= j < i ==> all[j] == methods[..i][j];
  }

  lemma EndFits(methods: seq<DebugInfo>, sorted: seq<DebugInfo>, text: word, highPc: word)
    requires SortedVersion(sorted, methods) && HighestEnd(methods, 0, highPc)
    ensures HighestEnd(methods, text, highPc + text)
    ensures ProgramFits(sorted, text) ==> highPc + text < 0x1_0000_0000
  {
    hide MethodFits, SortedByFrom;
    if methods != [] {
      var i :| 0 <= i < |methods| && methods[i].highPc == highPc;
      assert SortedOne(sorted[i], methods[i]);
    }
  }

  /** The row is one of a method's lines and, if the line lies inside the method, comes before the end. */
  ghost predicate RowBefore(row: Row, methods: seq<DebugInfo>, text: word, end: nat)
  {
    exists i, e :: 0 <= i < |methods| && e in methods[i].lines && LineRow(row, e, methods[i].highPc, text, end)
  }

  predicate LineRow(row: Row, e: SrcMapElem, highPc: word, text: word, end: nat)
  {
    row.address == e.from + text && row.line == e.to && (e.from < highPc ==> row.address < end)
  }

  lemma TrimmedLine(d: DebugInfo, sorted: DebugInfo, text: word, file: nat, end: nat, k: nat)
    requires SortedOne(sorted, d) && d.highPc + text <= end && k < |Trim(sorted.lines, d.highPc)|
    ensures exists e :: e in d.lines &&
              LineRow(MapRows(Trim(sorted.lines, d.highPc), text, file)[k], e, d.highPc, text, end)
  {
    hide SortedByFrom;
    var e := Trim(sorted.lines, d.highPc)[k];
    assert e in multiset(sorted.lines);
    assert e in d.lines;
    assert LineRow(MapRows(Trim(sorted.lines, d.highPc), text, file)[k], e, d.highPc, text, end);
  }

  lemma {:induction false} RowsBeforeEnd(methods: seq<DebugInfo>, sorted: seq<DebugInfo>, text: word,
                                         strings: Strings, files: map<nat, nat>, end: nat, k: nat)
    requires SortedVersion(sorted, methods) && k < |ProgramRows(sorted, text, strings, files)|
    requires forall i :: 0 <= i < |methods| ==> methods[i].highPc + text <= end
    ensures RowBefore(ProgramRows(sorted, text, strings, files)[k], methods, text, end)
    decreases |methods|
  {
    hide SortedOne, LineRow, Trim, MapRows;
    var n := |methods| - 1;
    var before := ProgramRows(sorted[..n], text, strings, files);
    if k < |before| {
      RowsBeforeEnd(methods[..n], sorted[..n], text, strings, files, end, k);
    } else {
      var d := sorted[n];
      assert SortedOne(d, methods[n]);
      assert d.highPc == methods[n].highPc by { SameHighPc(d, methods[n]); }
      TrimmedLine(methods[n], d, text, FileNumber(d, strings, files), end, k - |before|);
    }
  }

  lemma SameHighPc(sorted: DebugInfo, d: DebugInfo)
    requires SortedOne(sorted, d)
    ensures sorted.highPc == d.highPc
  {
  }

  /**
   The program for all methods. Running it yields, file by file and in address order, exactly the
   lines of the methods, moved by the text section's offset, and ends the sequence where the method
   ends that ends last, behind every row of a line inside its method.
   */
  method WriteLineProgram(methods: seq<DebugInfo>, text: word, strings: Strings)
    returns (data: seq<byte>, files: map<nat, nat>, table: seq<string>, ghost sorted: seq<DebugInfo>, ghost end: nat)
    requires |methods| < 0x1_0000_0000
    ensures FilesNumbered(files, FileAddresses(methods, strings))
    ensures table == NamesAt(FileAddresses(methods, strings), strings)
    ensures SortedVersion(sorted, methods)
    ensures ProgramFits(sorted, text) ==>
              Yields(Run(Start([]), data), ProgramRows(sorted, text, strings, files), end)
    ensures HighestEnd(methods, text, end)
    ensures forall k :: 0 <= k < |ProgramRows(sorted, text, strings, files)| ==>
              RowBefore(ProgramRows(sorted, text, strings, files)[k], methods, text, end)
  {
    hide Run, MethodFits, SortedByFrom, ProgramRows, RowBefore, FilesNumbered, NamesAt, FileAddresses;
    files, table := FileTable(methods, strings);
    forall i | 0 <= i < |methods|
      ensures 0 < FileNumber(methods[i], strings, files) < 0x1_0000_0000
    {
      FileNumberNames(methods, strings, files, i);
    }
    var gen := new LineTableGenerator();
    var highPc;
    highPc, sorted := EmitMethods(gen, methods, text, strings, files);
    end := highPc + text;
    EndFits(methods, sorted, text, highPc);
    gen.SetAddr(Wrap(highPc + text));
    gen.EndSequence();
    data := gen.data;
    forall k | 0 <= k < |ProgramRows(sorted, text, strings, files)|
      ensures RowBefore(ProgramRows(sorted, text, strings, files)[k], methods, text, end)
    {
      RowsBeforeEnd(methods, sorted, text, strings, files, end, k);
    }
  }
}
