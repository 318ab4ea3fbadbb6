/**
 Output streams: one that writes to a byte vector, and one that collects small writes in a buffer
 in front of it.
 */
module Streams {
  import opened Words

  datatype Whence = SeekSet | SeekCurrent | SeekEnd

  // ---------------------------------------------------------------- an unbuffered stream

  /** The bytes written and the position, which a seek may take below zero but not past the end. */
  datatype Sink = Sink(bytes: seq<byte>, offset: int)

  predicate Valid(s: Sink)
  {
    s.offset <= |s.bytes|
  }

  /** A write needs a position inside the vector. */
  predicate Writable(s: Sink)
  {
    0 <= s.offset <= |s.bytes|
  }

  /** Bytes go over what is there, and on past the end. */
  function Write(s: Sink, data: seq<byte>): (r: Sink)
    requires Writable(s)
    ensures Writable(r) && r.offset == s.offset + |data|
    ensures r.bytes[..s.offset] == s.bytes[..s.offset] && r.bytes[s.offset..r.offset] == data
    ensures r.bytes[r.offset..] == if r.offset <= |s.bytes| then s.bytes[r.offset..] else []
  {
    var end := s.offset + |data|;
    Sink(s.bytes[..s.offset] + data + (if end <= |s.bytes| then s.bytes[end..] else []), end)
  }

  /** Where a seek leads. */
  function Target(s: Sink, offset: int, whence: Whence): int
  {
    match whence
    case SeekSet => offset
    case SeekCurrent => s.offset + offset
    case SeekEnd => |s.bytes| + offset
  }

  /** A seek past the end fills up with zeros. */
  function Seek(s: Sink, target: int): (r: Sink)
    ensures Valid(r) && r.offset == target
  {
    if target <= |s.bytes| then s.(offset := target)
    else Sink(s.bytes + seq(target - |s.bytes|, _ => 0), target)
  }

  /** What is written after a seek from the end stands behind all else, with zeros in a gap. */
  lemma WriteBehindEnd(s: Sink, gap: nat, data: seq<byte>)
    ensures var r := Write(Seek(s, Target(s, gap, SeekEnd)), data);
            && |r.bytes| == |s.bytes| + gap + |data|
            && r.bytes[..|s.bytes|] == s.bytes && r.bytes[|s.bytes| + gap..] == data
            && forall k :: |s.bytes| <= k < |s.bytes| + gap ==> r.bytes[k] == 0
  {
  }

  /** Seeking back over what was written and writing it once more changes nothing; an absolute seek does the same. */
  lemma SeekBackAndRewrite(s: Sink, data: seq<byte>)
    requires Writable(s)
    ensures var w := Write(s, data);
            && Write(Seek(w, Target(w, -|data|, SeekCurrent)), data) == w
            && Write(Seek(w, Target(w, s.offset, SeekSet)), data) == w
  {
    var w := Write(s, data);
    var back := Seek(w, s.offset);
    assert w.bytes == w.bytes[..s.offset] + w.bytes[s.offset..w.offset] + w.bytes[w.offset..];
    assert Write(back, data).bytes == w.bytes[..s.offset] + data + w.bytes[w.offset..];
  }

  /** Two writes are one. */
  lemma WriteTwice(s: Sink, a: seq<byte>, b: seq<byte>)
    requires Writable(s)
    ensures Write(Write(s, a), b) == Write(s, a + b)
  {
    var once, twice := Write(s, a + b), Write(Write(s, a), b);
    var middle := Write(s, a);
    assert twice.bytes[..s.offset] == middle.bytes[..middle.offset][..s.offset] == s.bytes[..s.offset];
    assert once.bytes == once.bytes[..s.offset] + once.bytes[s.offset..once.offset] + once.bytes[once.offset..];
  }

  lemma WriteNothing(s: Sink)
    requires Writable(s)
    ensures Write(s, []) == s
  {
  }

  class VectorOutputStream {
    var vector: seq<byte>
    var offset: int

    ghost function State(): Sink
      reads this
    {
      Sink(vector, offset)
    }

    constructor (vector: seq<byte>)
      ensures State() == Sink(vector, |vector|)
    {
      this.vector, offset := vector, |vector|;
    }

    method EnsureCapacity(newOffset: int)
      modifies this`vector
      ensures vector == if newOffset <= |old(vector)| then old(vector)
                        else old(vector) + seq(newOffset - |old(vector)|, _ => 0)
    {
      if newOffset > |vector| {
        vector := vector + seq(newOffset - |vector|, _ => 0);
      }
    }

    method WriteFully(data: seq<byte>)
      requires Writable(State())
      modifies this
      ensures State() == Write(old(State()), data)
    {
      if offset == |vector| {
        vector := vector + data;
        offset := offset + |data|;
      } else {
        var newOffset := offset + |data|;
        EnsureCapacity(newOffset);
        vector := vector[..offset] + data + vector[newOffset..];
        offset := newOffset;
      }
    }

    method SeekTo(position: int, whence: Whence) returns (newOffset: int)
      modifies this
      ensures newOffset == Target(old(State()), position, whence) && State() == Seek(old(State()), newOffset)
    {
      match whence {
        case SeekSet => newOffset := position;
        case SeekCurrent => newOffset := offset + position;
        case SeekEnd => newOffset := |vector| + position;
      }
      EnsureCapacity(newOffset);
      offset := newOffset;
    }
  }

  // ---------------------------------------------------------------- the buffered stream

  const BUFFER_SIZE: nat := 8 * 1024

  class BufferedOutputStream {
    const out: VectorOutputStream
    const buffer: array<byte>
    var used: nat

    ghost predicate Ready()
      reads this, out
    {
      && buffer.Length == BUFFER_SIZE && used <= BUFFER_SIZE && Valid(out.State())
      && (used != 0 ==> Writable(out.State()))
    }

    /** What the stream stands for: the sink with the pending bytes written to it. */
    ghost function View(): Sink
      requires Ready()
      reads this, out, buffer
    {
      if used == 0 then out.State() else Write(out.State(), buffer[..used])
    }

    constructor (out: VectorOutputStream)
      requires Valid(out.State())
      ensures Ready() && View() == out.State() && this.out == out && used == 0 && fresh(buffer)
    {
      this.out := out;
      buffer := new byte[BUFFER_SIZE](_ => 0);
      used := 0;
    }

    method Flush()
      requires Ready()
      modifies this`used, out
      ensures Ready() && used == 0 && View() == old(View()) == out.State()
    {
      if used > 0 {
        out.WriteFully(buffer[..used]);
        used := 0;
      }
    }

    method WriteFully(data: seq<byte>)
      requires Ready() && Writable(View())
      modifies this`used, buffer, out
      ensures Ready() && View() == Write(old(View()), data)
      ensures |data| > BUFFER_SIZE ==> used == 0
    {
      hide Write;
      if |data| > BUFFER_SIZE {
        Flush();
        out.WriteFully(data);
        return;
      }
      if used + |data| > BUFFER_SIZE {
        Flush();
      }
      WriteTwice(out.State(), buffer[..used], data);
      WriteNothing(out.State());
      ghost var pending := buffer[..used];
      CopyIn(data);
      assert buffer[..used + |data|] == pending + data;
      used := used + |data|;
    }

    /** memcpy into the buffer behind the pending bytes. */
    method CopyIn(data: seq<byte>)
      requires buffer.Length == BUFFER_SIZE && used + |data| <= BUFFER_SIZE
      modifies buffer
      ensures buffer[..used] == old(buffer[..used]) && buffer[used..used + |data|] == data
    {
      for i := 0 to |data|
        invariant buffer[..used] == old(buffer[..used]) && buffer[used..used + i] == data[..i]
      {
        buffer[used + i] := data[i];
      }
      assert data[..|data|] == data;
    }

    method SeekTo(position: int, whence: Whence) returns (newOffset: int)
      requires Ready()
      modifies this`used, out
      ensures Ready() && used == 0
      ensures newOffset == Target(old(View()), position, whence) &&
              View() == Seek(old(View()), newOffset) == out.State()
    {
      hide Write, Seek;
      Flush();
      newOffset := out.SeekTo(position, whence);
    }
  }

  // ---------------------------------------------------------------- any sequence of calls

  datatype Call = WriteCall(data: seq<byte>) | SeekCall(position: int, whence: Whence)

  /** A call on the unbuffered stream. */
  function Apply(s: Sink, call: Call): (r: Sink)
    requires Valid(s) && (call.WriteCall? ==> Writable(s))
    ensures Valid(r)
  {
    match call
    case WriteCall(data) => Write(s, data)
    case SeekCall(position, whence) => Seek(s, Target(s, position, whence))
  }

  /** Nothing is written at a negative position; seeks may lead anywhere. */
  predicate Sensible(s: Sink, calls: seq<Call>)
    requires Valid(s)
    decreases |calls|
  {
    calls != [] ==> (calls[0].WriteCall? ==> Writable(s)) && Sensible(Apply(s, calls[0]), calls[1..])
  }

  function ApplyAll(s: Sink, calls: seq<Call>): (r: Sink)
    requires Valid(s) && Sensible(s, calls)
    ensures Valid(r)
    decreases |calls|
  {
    if calls == [] then s else ApplyAll(Apply(s, calls[0]), calls[1..])
  }

  /** Whatever is written and sought through the buffer, the stream stands for what an unbuffered one would hold. */
  method Replay(stream: BufferedOutputStream, calls: seq<Call>)
    requires stream.Ready() && Sensible(stream.View(), calls)
    modifies stream`used, stream.buffer, stream.out
    ensures stream.Ready() && stream.View() == ApplyAll(old(stream.View()), calls)
  {
    hide Write, Seek;
    for i := 0 to |calls|
      invariant stream.Ready() && Sensible(stream.View(), calls[i..])
      invariant ApplyAll(stream.View(), calls[i..]) == ApplyAll(old(stream.View()), calls)
    {
      assert calls[i..][1..] == calls[i + 1..];
      match calls[i] {
        case WriteCall(data) => stream.WriteFully(data);
        case SeekCall(position, whence) => var _ := stream.SeekTo(position, whence);
      }
    }
  }
}
