/** The copy loop of istream (stream_bytes), between an input and an output that
    may both fail. */
module ByteStream {

  import opened Bits
  import opened Common

  const BUFFER_SIZE: nat := 4 * 1024 * 1024
  const ALL_BYTES: int := 0x7FFF_FFFF_FFFF_FFFF

  function Min(a: nat, b: nat): nat {
    if a <= b then a else b
  }

  /** An input stream over `data`. Reading stops at the end of the data, or
      earlier at `faultAt` with an error that is not end of file. */
  class Source {
    const data: seq<byte>
    const faultAt: Option<nat>
    var pos: nat
    var good: bool
    var eof: bool
    var gcount: nat

    ghost predicate Valid()
      reads this
    {
      pos <= Limit() && (eof ==> pos == |data| && !good)
    }

    /** Where reading stops. */
    function Limit(): (n: nat)
      ensures n <= |data|
    {
      if faultAt.Some? then Min(faultAt.value, |data|) else |data|
    }

    constructor (data: seq<byte>, faultAt: Option<nat>)
      ensures Valid() && this.data == data && this.faultAt == faultAt && pos == 0 && good && !eof
    {
      this.data, this.faultAt, pos, good, eof, gcount := data, faultAt, 0, true, false, 0;
    }

    /** istream::read: a short read turns the stream bad, and sets end of file
        when the data has run out. */
    method Read(buf: array<byte>, n: nat)
      requires Valid() && good && n <= buf.Length
      modifies this, buf
      ensures Valid()
      ensures gcount == Min(n, Limit() - old(pos)) && pos == old(pos) + gcount
      ensures buf[..gcount] == data[old(pos)..pos]
      ensures good <==> gcount == n
      ensures eof <==> gcount < n && Limit() == |data|
    {
      gcount := Min(n, Limit() - pos);
      for i := 0 to gcount
        invariant pos == old(pos) && gcount == Min(n, Limit() - pos) && good == old(good) && eof == old(eof)
        invariant forall j | 0 <= j < i :: buf[j] == data[pos + j]
      {
        buf[i] := data[pos + i];
      }
      pos := pos + gcount;
      if gcount < n {
        good := false;
        eof := Limit() == |data|;
      }
    }
  }

  /** An output stream that has room for so many bytes in all, if limited. */
  class Sink {
    const room: Option<nat>
    var written: seq<byte>
    var good: bool

    constructor (room: Option<nat>)
      ensures this.room == room && written == [] && good
    {
      this.room, written, good := room, [], true;
    }

    /** ostream::write: what does not fit is lost and the stream turns bad. */
    method Write(buf: array<byte>, n: nat)
      requires good && n <= buf.Length
      modifies this
      ensures good <==> Fits(old(written), n)
      ensures good ==> written == old(written) + buf[..n]
      ensures !good ==> old(written) <= written <= old(written) + buf[..n]
    {
      if Fits(written, n) {
        written := written + buf[..n];
      } else {
        good := false;
        if |written| <= room.value {
          written := written + buf[..room.value - |written|];
        }
      }
    }

    predicate Fits(written: seq<byte>, n: nat) {
      room.None? || |written| + n <= room.value
    }
  }

  /** What has been copied so far: a run of the source's bytes from `start` on,
      all of those read unless the output has failed. */
  ghost predicate Copied(source: Source, sink: Sink, start: nat, before: seq<byte>)
    reads source, sink
  {
    && source.Valid() && start <= source.pos
    && before <= sink.written <= before + source.data[start..source.pos]
    && (sink.good ==> sink.written == before + source.data[start..source.pos])
  }

  /** One read of at most n bytes, and the write of what was read. */
  method Move(source: Source, sink: Sink, buf: array<byte>, n: nat, ghost start: nat, ghost before: seq<byte>)
    requires source.good && sink.good && n <= buf.Length && Copied(source, sink, start, before)
    modifies source, sink, buf
    ensures Copied(source, sink, start, before)
    ensures source.gcount == Min(n, source.Limit() - old(source.pos)) && source.pos == old(source.pos) + source.gcount
    ensures source.good <==> source.gcount == n
    ensures source.eof <==> source.gcount < n && source.Limit() == |source.data|
    ensures sink.good <==> sink.Fits(old(sink.written), source.gcount)
  {
    source.Read(buf, n);
    sink.Write(buf, source.gcount);
    assert source.data[start..source.pos] == source.data[start..old(source.pos)] + buf[..source.gcount];
  }

  /** Neither stream has failed or will, other than by end of file. */
  ghost predicate Reliable(source: Source, sink: Sink)
    reads source, sink
  {
    source.faultAt.None? && sink.room.None? && source.good && sink.good
  }

  /** The all-bytes mode. */
  method StreamAll(source: Source, sink: Sink, buf: array<byte>) returns (code: int)
    requires source.Valid() && buf.Length == BUFFER_SIZE
    modifies source, sink, buf
    ensures Copied(source, sink, old(source.pos), old(sink.written))
    ensures code == 0 ==> sink.written == old(sink.written) + source.data[old(source.pos)..]
    ensures old(Reliable(source, sink)) ==> code == 0
  {
    ghost var start, before := source.pos, sink.written;
    while source.good && sink.good
      invariant Copied(source, sink, start, before)
      invariant old(Reliable(source, sink)) ==> sink.good && (source.good || source.eof)
      decreases source.Limit() - source.pos, source.good
    {
      Move(source, sink, buf, BUFFER_SIZE, start, before);
    }
    if !source.eof {
      return 1;
    }
    if !sink.good {
      return 1;
    }
    return 0;
  }

  /** Where the counted copy stands after `asked` bytes have been asked for. */
  ghost predicate Progress(source: Source, sink: Sink, start: nat, before: seq<byte>, asked: nat, bytesRead: nat,
                           reliable: bool)
    reads source, sink
  {
    && Copied(source, sink, start, before) && source.pos == start + bytesRead && bytesRead <= asked
    && (source.good && sink.good ==> bytesRead == asked)
    && (reliable ==> source.faultAt.None? && sink.room.None? && sink.good)
    && (reliable ==> source.pos == Min(start + asked, |source.data|))
    && (reliable && !source.good ==> start + asked > |source.data|)
  }

  /** `if (in && out)` around one read and write, adding to the bytes read. */
  method MoveIfGood(source: Source, sink: Sink, buf: array<byte>, n: nat, bytesRead: nat,
                    ghost start: nat, ghost before: seq<byte>, ghost asked: nat, ghost reliable: bool)
    returns (total: nat)
    requires 0 < n <= buf.Length && Progress(source, sink, start, before, asked, bytesRead, reliable)
    modifies source, sink, buf
    ensures Progress(source, sink, start, before, asked + n, total, reliable)
  {
    total := bytesRead;
    if source.good && sink.good {
      Move(source, sink, buf, n, start, before);
      total := total + source.gcount;
    }
  }

  /** The reads and writes of the mode with a count. */
  method CopyCount(source: Source, sink: Sink, buf: array<byte>, count: nat) returns (bytesRead: nat)
    requires source.Valid() && buf.Length == BUFFER_SIZE
    modifies source, sink, buf
    ensures Progress(source, sink, old(source.pos), old(sink.written), count, bytesRead, old(Reliable(source, sink)))
  {
    ghost var start, before, reliable := source.pos, sink.written, Reliable(source, sink);
    bytesRead := 0;
    var nReads := count / BUFFER_SIZE;
    ghost var asked: nat := 0;
    for i := 0 to nReads
      invariant asked == i * BUFFER_SIZE && Progress(source, sink, start, before, asked, bytesRead, reliable)
    {
      bytesRead := MoveIfGood(source, sink, buf, BUFFER_SIZE, bytesRead, start, before, asked, reliable);
      asked := asked + BUFFER_SIZE;
    }
    var remainder := count % BUFFER_SIZE;
    assert asked + remainder == count;
    if remainder > 0 {
      bytesRead := MoveIfGood(source, sink, buf, remainder, bytesRead, start, before, asked, reliable);
    }
  }

  /** The mode with a count, below the one that stands for all bytes. */
  method StreamCount(source: Source, sink: Sink, buf: array<byte>, count: nat) returns (code: int)
    requires source.Valid() && buf.Length == BUFFER_SIZE
    modifies source, sink, buf
    ensures Copied(source, sink, old(source.pos), old(sink.written))
    ensures code == 0 ==>
              && old(source.pos) + count <= |source.data|
              && sink.written == old(sink.written) + source.data[old(source.pos)..old(source.pos) + count]
    ensures old(Reliable(source, sink)) ==>
              && (code == 0 <==> old(source.pos) + count <= |source.data|)
              && source.pos == Min(old(source.pos) + count, |source.data|)
              && sink.written == old(sink.written) + source.data[old(source.pos)..source.pos]
  {
    var bytesRead := CopyCount(source, sink, buf, count);
    if bytesRead != count {
      return 1;
    }
    if !sink.good {
      return 1;
    }
    return 0;
  }

  method StreamBytes(source: Source, sink: Sink, count: int) returns (code: int)
    requires source.Valid() && count <= ALL_BYTES
    modifies source, sink
    ensures Copied(source, sink, old(source.pos), old(sink.written))
    ensures count < 0 ==> code == 1 && source.pos == old(source.pos) && sink.written == old(sink.written)
    ensures code == 0 && count < ALL_BYTES ==>
              && old(source.pos) + count <= |source.data|
              && sink.written == old(sink.written) + source.data[old(source.pos)..old(source.pos) + count]
    ensures code == 0 && count == ALL_BYTES ==> sink.written == old(sink.written) + source.data[old(source.pos)..]
    ensures old(Reliable(source, sink)) && 0 <= count < ALL_BYTES ==>
              && (code == 0 <==> old(source.pos) + count <= |source.data|)
              && sink.written == old(sink.written)
                                 + source.data[old(source.pos)..Min(old(source.pos) + count, |source.data|)]
    ensures old(Reliable(source, sink)) && count == ALL_BYTES ==> code == 0
  {
    if count < 0 {
      return 1;
    }
    var buf := new byte[BUFFER_SIZE];
    if count == ALL_BYTES {
      code := StreamAll(source, sink, buf);
    } else {
      code := StreamCount(source, sink, buf, count);
    }
  }
}
