/**
 Where the ELF builder puts headers, sections and the section table, and the proof that the pieces
 it writes in its own order never run into each other.
 */
module ElfLayout {
  import opened Words
  import opened RelativeCalls

  const PAGE_SIZE: nat := 4096
  const WORD_SIZE: nat := 4

  /** A registered section: its contents and the alignment it asks for. */
  datatype Section = Section(align: nat, bytes: seq<byte>)

  /** Everything that ends up in the file, as bytes; `debug` is .symtab and .strtab, when included. */
  datatype Parts = Parts(
    ehdr: seq<byte>, phdrs: seq<byte>,
    dynsym: seq<byte>, dynstr: seq<byte>, hash: seq<byte>, rodata: seq<byte>, text: seq<byte>, dynamic: seq<byte>,
    debug: Option<(seq<byte>, seq<byte>)>, raw: seq<Section>, shstrtab: seq<byte>,
    shdrSize: nat, shdrs: seq<seq<byte>>)

  predicate ValidParts(p: Parts)
  {
    && (forall i :: 0 <= i < |p.raw| ==> 0 < p.raw[i].align)
    && (forall i :: 0 <= i < |p.shdrs| ==> |p.shdrs[i]| == p.shdrSize)
  }

  datatype Piece = Piece(offset: nat, bytes: seq<byte>)
  {
    function End(): nat
    {
      offset + |bytes|
    }
  }

  // ---------------------------------------------------------------- writing pieces anywhere

  predicate Stored(file: seq<byte>, piece: Piece)
  {
    piece.bytes == [] || Holds(file, piece.offset, piece.bytes)
  }

  /** A file after a seek to the piece's offset and a write; a gap reads as zeros. */
  function WriteAt(file: seq<byte>, piece: Piece): (r: seq<byte>)
    ensures Stored(r, piece)
    ensures |file| <= |r|
    ensures forall i :: 0 <= i < |file| && !(piece.offset <= i < piece.End()) ==> r[i] == file[i]
  {
    if piece.bytes == [] then
      file
    else
      var padded := if piece.offset <= |file| then file else file + seq(piece.offset - |file|, _ => 0);
      padded[..piece.offset] + piece.bytes + (if piece.End() <= |padded| then padded[piece.End()..] else [])
  }

  function WriteAll(file: seq<byte>, pieces: seq<Piece>): seq<byte>
    decreases |pieces|
  {
    if pieces == [] then file else WriteAll(WriteAt(file, pieces[0]), pieces[1..])
  }

  predicate Apart(a: Piece, b: Piece)
  {
    a.bytes == [] || b.bytes == [] || a.End() <= b.offset || b.End() <= a.offset
  }

  lemma WriteKeeps(file: seq<byte>, a: Piece, b: Piece)
    requires Stored(file, b) && (a == b || Apart(a, b))
    ensures Stored(WriteAt(file, a), b)
  {
  }

  lemma {:induction false} WritesKeep(file: seq<byte>, pieces: seq<Piece>, b: Piece)
    requires Stored(file, b) && forall a :: a in pieces ==> a == b || Apart(a, b)
    ensures Stored(WriteAll(file, pieces), b)
    decreases |pieces|
  {
    hide Stored, WriteAt, Apart;
    if pieces != [] {
      WriteKeeps(file, pieces[0], b);
      WritesKeep(WriteAt(file, pieces[0]), pieces[1..], b);
    }
  }

  /** Pieces that keep apart are all in the file, in whatever order they were written. */
  lemma {:induction false} WritesHold(file: seq<byte>, pieces: seq<Piece>, b: Piece)
    requires b in pieces && forall a :: a in pieces ==> a == b || Apart(a, b)
    ensures Stored(WriteAll(file, pieces), b)
    decreases |pieces|
  {
    hide Stored, Apart;
    if pieces[0] == b {
      WritesKeep(WriteAt(file, b), pieces[1..], b);
    } else {
      WritesHold(WriteAt(file, pieces[0]), pieces[1..], b);
    }
  }

  // ---------------------------------------------------------------- pieces in file order

  /** Each piece starts at or after the end of those before. */
  predicate Follows(from: nat, pieces: seq<Piece>)
  {
    && (forall k :: 0 <= k < |pieces| ==> from <= pieces[k].offset)
    && (forall j, k :: 0 <= j < k < |pieces| ==> pieces[j].End() <= pieces[k].offset)
  }

  function EndOf(from: nat, pieces: seq<Piece>): nat
  {
    if pieces == [] then from else pieces[|pieces| - 1].End()
  }

  lemma FollowsSum(from: nat, a: seq<Piece>, b: seq<Piece>)
    requires Follows(from, a) && Follows(EndOf(from, a), b)
    ensures Follows(from, a + b) && EndOf(from, a + b) == EndOf(EndOf(from, a), b)
  {
    assert forall j :: 0 <= j < |a| ==> a[j].End() <= EndOf(from, a);
  }

  lemma AllApart(from: nat, pieces: seq<Piece>, a: Piece, b: Piece)
    requires Follows(from, pieces) && a in pieces && b in pieces
    ensures a == b || Apart(a, b)
  {
  }

  // ---------------------------------------------------------------- the builder's layout

  /** NextOffset, for a section after something that ends at `end`. */
  function NextOffset(end: nat, align: nat): (r: nat)
    requires 0 < align
    ensures end <= r < end + align && r % align == 0
  {
    RoundUpIsLeast(end, align);
    RoundUp(end, align)
  }

  function RowOffset(offset: nat, size: nat, i: nat): (r: nat)
    ensures offset <= r
  {
    offset + i * size
  }

  /** The section table's entries. */
  function TablePieces(offset: nat, size: nat, shdrs: seq<seq<byte>>): (r: seq<Piece>)
    ensures |r| == |shdrs|
  {
    seq(|shdrs|, i requires 0 <= i < |shdrs| => Piece(RowOffset(offset, size, i), shdrs[i]))
  }

  lemma RowsApart(offset: nat, size: nat, j: nat, k: nat)
    requires j < k
    ensures RowOffset(offset, size, j) + size <= RowOffset(offset, size, k)
  {
    var between := k - j - 1;
    assert k * size == j * size + size + between * size;
  }

  lemma TableFollows(offset: nat, size: nat, shdrs: seq<seq<byte>>)
    requires forall i :: 0 <= i < |shdrs| ==> |shdrs[i]| == size
    ensures Follows(offset, TablePieces(offset, size, shdrs))
  {
    hide RowOffset;
    var r := TablePieces(offset, size, shdrs);
    forall j, k | 0 <= j < k < |r|
      ensures r[j].End() <= r[k].offset
    {
      RowsApart(offset, size, j, k);
    }
  }

  datatype Layout = Layout(
    dynsym: nat, dynstr: nat, hash: nat, rodata: nat, text: nat, dynamic: nat,
    symtab: nat, strtab: nat, raw: seq<nat>, shstrtab: nat, table: nat)

  /** The pieces of the oat file's own sections; the text is written together with the read-only data. */
  function OatPieces(p: Parts, l: Layout): seq<Piece>
  {
    [Piece(l.dynsym, p.dynsym), Piece(l.dynstr, p.dynstr), Piece(l.hash, p.hash),
     Piece(l.rodata, p.rodata + p.text), Piece(l.dynamic, p.dynamic)]
  }

  function DebugPieces(p: Parts, l: Layout): seq<Piece>
  {
    match p.debug
    case Some((symtab, strtab)) => [Piece(l.symtab, symtab), Piece(l.strtab, strtab)]
    case None => []
  }

  function RawPieces(p: Parts, l: Layout): (r: seq<Piece>)
    requires |l.raw| == |p.raw|
    ensures |r| == |p.raw|
  {
    seq(|p.raw|, i requires 0 <= i < |p.raw| => Piece(l.raw[i], p.raw[i].bytes))
  }

  /** All pieces in the order of the file. */
  function FilePieces(p: Parts, l: Layout): seq<Piece>
    requires ValidParts(p) && |l.raw| == |p.raw|
  {
    [Piece(0, p.ehdr), Piece(|p.ehdr|, p.phdrs)] + OatPieces(p, l) + DebugPieces(p, l) + RawPieces(p, l)
    + [Piece(l.shstrtab, p.shstrtab)] + TablePieces(l.table, p.shdrSize, p.shdrs)
  }

  /** Every section offset is a multiple of what the section asks for. */
  predicate AllAligned(p: Parts, l: Layout)
  {
    && l.dynsym % WORD_SIZE == 0 && l.hash % WORD_SIZE == 0
    && l.rodata % PAGE_SIZE == 0 && l.text % PAGE_SIZE == 0 && l.dynamic % PAGE_SIZE == 0
    && (p.debug.Some? ==> l.symtab % WORD_SIZE == 0) && l.table % WORD_SIZE == 0
    && |l.raw| == |p.raw| && forall i :: 0 <= i < |p.raw| && 0 < p.raw[i].align ==> l.raw[i] % p.raw[i].align == 0
  }

  /** Parts of a layout that keep their order. */
  lemma PartsFollow(p: Parts, l: Layout, raw: seq<Piece>, debug: seq<Piece>, table: seq<Piece>)
    requires ValidParts(p) && |l.raw| == |p.raw|
    requires raw == RawPieces(p, l) && debug == DebugPieces(p, l) && table == TablePieces(l.table, p.shdrSize, p.shdrs)
    requires Follows(|p.ehdr| + |p.phdrs|, OatPieces(p, l))
    requires Follows(l.dynamic + |p.dynamic|, debug)
    requires Follows(EndOf(l.dynamic + |p.dynamic|, debug), raw)
    requires EndOf(EndOf(l.dynamic + |p.dynamic|, debug), raw) <= l.shstrtab
    requires l.shstrtab + |p.shstrtab| <= l.table
    ensures Follows(0, FilePieces(p, l))
  {
    hide RawPieces, DebugPieces, OatPieces, Follows, EndOf;
    var headers := [Piece(0, p.ehdr), Piece(|p.ehdr|, p.phdrs)];
    HeadersFollow(p, headers);
    OatEnd(p, l, |p.ehdr| + |p.phdrs|);
    FollowsSum(0, headers, OatPieces(p, l));
    FollowsSum(0, headers + OatPieces(p, l), debug);
    FollowsSum(0, headers + OatPieces(p, l) + debug, raw);
    var names := [Piece(l.shstrtab, p.shstrtab)];
    NamesFollow(EndOf(0, headers + OatPieces(p, l) + debug + raw), names[0]);
    FollowsSum(0, headers + OatPieces(p, l) + debug + raw, names);
    TableFollows(l.table, p.shdrSize, p.shdrs);
    LaterFollows(l.shstrtab + |p.shstrtab|, l.table, table);
    FollowsSum(0, headers + OatPieces(p, l) + debug + raw + names, table);
  }

  lemma HeadersFollow(p: Parts, headers: seq<Piece>)
    requires headers == [Piece(0, p.ehdr), Piece(|p.ehdr|, p.phdrs)]
    ensures Follows(0, headers) && EndOf(0, headers) == |p.ehdr| + |p.phdrs|
  {
  }

  lemma NamesFollow(from: nat, piece: Piece)
    requires from <= piece.offset
    ensures Follows(from, [piece]) && EndOf(from, [piece]) == piece.End()
  {
  }

  lemma LaterFollows(early: nat, from: nat, pieces: seq<Piece>)
    requires early <= from && Follows(from, pieces)
    ensures Follows(early, pieces)
  {
  }

  lemma OatEnd(p: Parts, l: Layout, from: nat)
    ensures EndOf(from, OatPieces(p, l)) == l.dynamic + |p.dynamic|
  {
  }

  // ---------------------------------------------------------------- the builder at work

  /** Where what comes before the k-th registered section ends. */
  function RawEnd(p: Parts, raw: seq<nat>, from: nat, k: nat): nat
    requires k <= |raw| && k <= |p.raw|
  {
    if k == 0 then from else raw[k - 1] + |p.raw[k - 1].bytes|
  }

  /** The first place at or behind `end` with the alignment. */
  predicate FirstPlace(end: nat, align: nat, offset: nat)
  {
    0 < align && end <= offset < end + align && offset % align == 0
  }

  lemma FirstPlaceBehind(end: nat, align: nat, offset: nat)
    requires FirstPlace(end, align, offset)
    ensures end <= offset
  {
  }

  /** Each registered section is at the first place behind what comes before that has its alignment. */
  predicate RawSnug(p: Parts, raw: seq<nat>, from: nat)
  {
    && |raw| <= |p.raw|
    && forall k :: 0 <= k < |raw| ==> FirstPlace(RawEnd(p, raw, from, k), p.raw[k].align, raw[k])
  }

  lemma RawNext(p: Parts, raw: seq<nat>, from: nat, offset: nat)
    requires RawSnug(p, raw, from) && |raw| < |p.raw|
    requires FirstPlace(RawEnd(p, raw, from, |raw|), p.raw[|raw|].align, offset)
    ensures RawSnug(p, raw + [offset], from)
    ensures RawEnd(p, raw + [offset], from, |raw| + 1) == offset + |p.raw[|raw|].bytes|
  {
    hide FirstPlace;
    var after := raw + [offset];
    forall k | 0 <= k < |after|
      ensures FirstPlace(RawEnd(p, after, from, k), p.raw[k].align, after[k])
    {
      assert RawEnd(p, after, from, k) == RawEnd(p, raw, from, k);
    }
  }

  lemma {:induction false} RawGrows(p: Parts, raw: seq<nat>, from: nat, j: nat, k: nat)
    requires RawSnug(p, raw, from) && j < k < |raw|
    ensures raw[j] + |p.raw[j].bytes| <= raw[k]
    decreases k
  {
    hide FirstPlace;
    FirstPlaceBehind(RawEnd(p, raw, from, k), p.raw[k].align, raw[k]);
    if j < k - 1 {
      RawGrows(p, raw, from, j, k - 1);
    }
  }

  lemma {:induction false} RawBehind(p: Parts, raw: seq<nat>, from: nat, k: nat)
    requires RawSnug(p, raw, from) && k < |raw|
    ensures from <= raw[k]
  {
    hide FirstPlace;
    FirstPlaceBehind(RawEnd(p, raw, from, k), p.raw[k].align, raw[k]);
    if 0 < k {
      RawBehind(p, raw, from, k - 1);
    }
  }

  lemma RawFollows(p: Parts, l: Layout, from: nat)
    requires RawSnug(p, l.raw, from) && |l.raw| == |p.raw|
    ensures Follows(from, RawPieces(p, l)) && EndOf(from, RawPieces(p, l)) == RawEnd(p, l.raw, from, |p.raw|)
  {
    hide RawSnug;
    var pieces := RawPieces(p, l);
    forall k | 0 <= k < |pieces|
      ensures from <= pieces[k].offset
    {
      RawBehind(p, l.raw, from, k);
    }
    forall j, k | 0 <= j < k < |pieces|
      ensures pieces[j].End() <= pieces[k].offset
    {
      RawGrows(p, l.raw, from, j, k);
    }
  }

  /** No piece stands further from the one before than its alignment asks for. */
  predicate Snug(p: Parts, l: Layout)
  {
    var debugEnd := match p.debug
                    case Some((_, strtab)) => l.strtab + |strtab|
                    case None => l.dynamic + |p.dynamic|;
    && OatSnug(p, l) && |l.raw| == |p.raw| && RawSnug(p, l.raw, debugEnd)
    && (match p.debug
        case Some((symtab, _)) =>
          l.symtab < l.dynamic + |p.dynamic| + WORD_SIZE && l.strtab == l.symtab + |symtab|
        case None => true)
    && l.shstrtab == RawEnd(p, l.raw, debugEnd, |p.raw|)
    && l.table < l.shstrtab + |p.shstrtab| + WORD_SIZE
  }

  predicate OatSnug(p: Parts, l: Layout)
  {
    && l.dynsym < |p.ehdr| + |p.phdrs| + WORD_SIZE && l.dynstr == l.dynsym + |p.dynsym|
    && l.hash < l.dynstr + |p.dynstr| + WORD_SIZE && l.rodata < l.hash + |p.hash| + PAGE_SIZE
    && l.text < l.rodata + |p.rodata| + PAGE_SIZE && l.dynamic < l.text + |p.text| + PAGE_SIZE
  }

  method LayOutRaw(p: Parts, from: nat) returns (raw: seq<nat>, end: nat)
    requires ValidParts(p)
    ensures |raw| == |p.raw| && RawSnug(p, raw, from) && end == RawEnd(p, raw, from, |p.raw|)
  {
    hide RawSnug;
    raw, end := [], from;
    NoRaw(p, from);
    for i := 0 to |p.raw|
      invariant |raw| == i && RawSnug(p, raw, from) && end == RawEnd(p, raw, from, i)
    {
      var offset := NextOffset(end, p.raw[i].align);
      RawNext(p, raw, from, offset);
      raw, end := raw + [offset], offset + |p.raw[i].bytes|;
    }
  }

  lemma NoRaw(p: Parts, from: nat)
    ensures RawSnug(p, [], from)
  {
  }

  /** The sections of the oat file proper, in order and aligned. */
  predicate OatOrder(p: Parts, l: Layout)
  {
    && |p.ehdr| + |p.phdrs| <= l.dynsym && l.dynsym + |p.dynsym| <= l.dynstr && l.dynstr + |p.dynstr| <= l.hash
    && l.hash + |p.hash| <= l.rodata && l.rodata + |p.rodata| <= l.text && l.text + |p.text| <= l.dynamic
    && l.dynsym % WORD_SIZE == 0 && l.hash % WORD_SIZE == 0
    && l.rodata % PAGE_SIZE == 0 && l.text % PAGE_SIZE == 0 && l.dynamic % PAGE_SIZE == 0
  }

  lemma OatFollows(p: Parts, l: Layout)
    requires OatOrder(p, l)
    ensures Follows(|p.ehdr| + |p.phdrs|, OatPieces(p, l))
  {
    var s := OatPieces(p, l);
    assert s[3].End() == l.rodata + |p.rodata| + |p.text|;
  }

  /** The text starts where the read-only data ends just when the latter fills whole pages. */
  lemma TextFollowsRodata(rodata: nat, size: nat)
    requires rodata % PAGE_SIZE == 0
    ensures NextOffset(rodata + size, PAGE_SIZE) == rodata + size <==> size % PAGE_SIZE == 0
  {
  }

  /** Init: each section's offset from the section before it. */
  method LayOutOat(p: Parts) returns (l: Layout)
    ensures OatOrder(p, l) && OatSnug(p, l)
    ensures l.text == l.rodata + |p.rodata| <==> |p.rodata| % PAGE_SIZE == 0
  {
    hide NextOffset;
    var dynsym := NextOffset(|p.ehdr| + |p.phdrs|, WORD_SIZE);
    var dynstr := NextOffset(dynsym + |p.dynsym|, 1);
    var hash := NextOffset(dynstr + |p.dynstr|, WORD_SIZE);
    var rodata := NextOffset(hash + |p.hash|, PAGE_SIZE);
    var text := NextOffset(rodata + |p.rodata|, PAGE_SIZE);
    TextFollowsRodata(rodata, |p.rodata|);
    var dynamic := NextOffset(text + |p.text|, PAGE_SIZE);
    l := Layout(dynsym, dynstr, hash, rodata, text, dynamic, 0, 0, [], 0, 0);
  }

  method LayOutDebug(p: Parts, from: nat) returns (symtab: nat, strtab: nat, end: nat)
    ensures p.debug.Some? ==> symtab % WORD_SIZE == 0
    ensures match p.debug
            case Some((first, second)) =>
              symtab < from + WORD_SIZE && strtab == symtab + |first| && end == strtab + |second|
            case None => end == from
    ensures forall l: Layout :: l.symtab == symtab && l.strtab == strtab ==>
              Follows(from, DebugPieces(p, l)) && EndOf(from, DebugPieces(p, l)) == end
  {
    symtab, strtab, end := 0, 0, from;
    if p.debug.Some? {
      symtab := NextOffset(end, WORD_SIZE);
      strtab := NextOffset(symtab + |p.debug.value.0|, 1);
      end := strtab + |p.debug.value.1|;
    }
  }

  /** Init and the first half of Write. */
  method LayOut(p: Parts) returns (l: Layout)
    requires ValidParts(p)
    ensures AllAligned(p, l) && Follows(0, FilePieces(p, l)) && Snug(p, l)
    ensures l.text == l.rodata + |p.rodata| <==> |p.rodata| % PAGE_SIZE == 0
  {
    hide NextOffset, Follows, EndOf, RawPieces, DebugPieces, FilePieces, TablePieces;
    l := LayOutOat(p);
    var end := l.dynamic + |p.dynamic|;
    var symtab, strtab, raw;
    symtab, strtab, end := LayOutDebug(p, end);
    ghost var debugEnd := end;
    raw, end := LayOutRaw(p, end);
    var shstrtab := NextOffset(end, 1);
    var table := NextOffset(shstrtab + |p.shstrtab|, WORD_SIZE);
    l := l.(symtab := symtab, strtab := strtab, raw := raw, shstrtab := shstrtab, table := table);
    OatFollows(p, l);
    RawFollows(p, l, debugEnd);
    PartsFollow(p, l, RawPieces(p, l), DebugPieces(p, l), TablePieces(table, p.shdrSize, p.shdrs));
  }

  /** The order in which the pieces are written. */
  function WriteOrder(p: Parts, l: Layout): seq<Piece>
    requires |l.raw| == |p.raw|
  {
    [Piece(0, p.ehdr), Piece(|p.ehdr|, p.phdrs), Piece(l.dynamic, p.dynamic), Piece(l.dynsym, p.dynsym),
     Piece(l.dynstr, p.dynstr), Piece(l.hash, p.hash), Piece(l.rodata, p.rodata + p.text), Piece(l.text, [])]
    + DebugPieces(p, l) + [Piece(l.shstrtab, p.shstrtab)] + TablePieces(l.table, p.shdrSize, p.shdrs) + RawPieces(p, l)
  }

  class File {
    var contents: seq<byte>
    var position: nat

    constructor ()
      ensures contents == [] && position == 0
    {
      contents, position := [], 0;
    }

    method Seek(offset: nat)
      modifies this`position
      ensures position == offset
    {
      position := offset;
    }

    method WriteFully(bytes: seq<byte>)
      modifies this
      ensures contents == WriteAt(old(contents), Piece(old(position), bytes)) && position == old(position) + |bytes|
    {
      if bytes != [] {
        if |contents| < position {
          contents := contents + seq(position - |contents|, _ => 0);
        }
        contents := contents[..position] + bytes
                    + (if position + |bytes| <= |contents| then contents[position + |bytes|..] else []);
      }
      position := position + |bytes|;
    }
  }

  /** WriteOutFile: seek to each piece's offset and write it. */
  method WriteOutFile(pieces: seq<Piece>, file: File)
    modifies file
    ensures file.contents == WriteAll(old(file.contents), pieces)
  {
    for i := 0 to |pieces|
      invariant WriteAll(file.contents, pieces[i..]) == WriteAll(old(file.contents), pieces)
    {
      hide WriteAt;
      assert pieces[i..][1..] == pieces[i + 1..];
      file.Seek(pieces[i].offset);
      file.WriteFully(pieces[i].bytes);
    }
  }

  lemma SamePieces(p: Parts, l: Layout, x: Piece)
    requires ValidParts(p) && |l.raw| == |p.raw|
    ensures x in WriteOrder(p, l) && x.bytes != [] ==> x in FilePieces(p, l)
    ensures x in FilePieces(p, l) ==> x in WriteOrder(p, l)
  {
  }

  /** A finished file: each piece stands, undisturbed, where its header says, on the boundary it asked for. */
  ghost predicate FileComplete(p: Parts, l: Layout, file: seq<byte>)
    requires ValidParts(p) && |l.raw| == |p.raw|
  {
    forall x :: x in FilePieces(p, l) ==> Stored(file, x)
  }

  lemma OrderDoesNotMatter(p: Parts, l: Layout, pieces: seq<Piece>, file: seq<byte>)
    requires ValidParts(p) && |l.raw| == |p.raw| && Follows(0, FilePieces(p, l))
    requires forall x :: x in FilePieces(p, l) ==> x in pieces
    requires forall x :: x in pieces && x.bytes != [] ==> x in FilePieces(p, l)
    ensures FileComplete(p, l, WriteAll(file, pieces))
  {
    hide FilePieces, Follows, WriteAll, Stored;
    forall x | x in FilePieces(p, l)
      ensures Stored(WriteAll(file, pieces), x)
    {
      forall a | a in pieces
        ensures a == x || Apart(a, x)
      {
        if a.bytes != [] {
          AllApart(0, FilePieces(p, l), a, x);
        }
      }
      WritesHold(file, pieces, x);
    }
  }

  /** The whole of Write. */
  method WriteElf(p: Parts) returns (l: Layout, file: File)
    requires ValidParts(p)
    ensures AllAligned(p, l) && Snug(p, l) && FileComplete(p, l, file.contents)
    ensures |p.rodata| % PAGE_SIZE == 0 ==> Stored(file.contents, Piece(l.text, p.text))
  {
    hide FilePieces, Follows, WriteAll, WriteOrder, Snug;
    l := LayOut(p);
    file := new File();
    forall x
      ensures x in WriteOrder(p, l) && x.bytes != [] ==> x in FilePieces(p, l)
      ensures x in FilePieces(p, l) ==> x in WriteOrder(p, l)
    {
      SamePieces(p, l, x);
    }
    OrderDoesNotMatter(p, l, WriteOrder(p, l), []);
    WriteOutFile(WriteOrder(p, l), file);
    TextStored(p, l, file.contents);
  }

  lemma TextStored(p: Parts, l: Layout, file: seq<byte>)
    requires ValidParts(p) && |l.raw| == |p.raw| && FileComplete(p, l, file)
    ensures l.text == l.rodata + |p.rodata| ==> Stored(file, Piece(l.text, p.text))
  {
    var oat := Piece(l.rodata, p.rodata + p.text);
    assert OatPieces(p, l)[3] == oat;
    assert oat in FilePieces(p, l);
    assert Stored(file, oat);
    if l.text == l.rodata + |p.rodata| && p.text != [] {
      assert file[l.text..l.text + |p.text|] == file[l.rodata..oat.End()][|p.rodata|..] == p.text;
    }
  }
}
