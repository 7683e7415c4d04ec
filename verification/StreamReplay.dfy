/** The stream recorder of the gateway: bodies report every chunk they deliver, the recorder keeps the
    chunks, and a chunked reader replays them. */
module StreamReplay {
  import opened Model

  newtype Byte = b: int | 0 <= b < 256

  /** All bytes of a list of chunks, in order. */
  function Flat(chunks: seq<seq<Byte>>): seq<Byte> {
    if chunks == [] then [] else Flat(chunks[..|chunks| - 1]) + chunks[|chunks| - 1]
  }

  lemma {:induction false} FlatConcat(a: seq<seq<Byte>>, b: seq<seq<Byte>>)
    ensures Flat(a + b) == Flat(a) + Flat(b)
  {
    if b == [] {
      assert a + b == a;
    } else {
      FlatConcat(a, b[..|b| - 1]);
      assert (a + b)[..|a + b| - 1] == a + b[..|b| - 1];
    }
  }

  /** Chunk `i` starts behind the first `i` chunks. */
  lemma FlatAt(chunks: seq<seq<Byte>>, i: nat)
    requires i < |chunks|
    ensures |Flat(chunks[..i + 1])| == |Flat(chunks[..i])| + |chunks[i]| <= |Flat(chunks)|
    ensures forall o :: 0 <= o < |chunks[i]| ==> Flat(chunks)[|Flat(chunks[..i])| + o] == chunks[i][o]
  {
    var a, c, b := chunks[..i], chunks[i], chunks[i + 1..];
    assert chunks == (a + [c]) + b;
    FlatConcat(a + [c], b);
    assert (a + [c])[..i] == a && chunks[..i + 1] == a + [c];
    assert Flat(chunks) == (Flat(a) + c) + Flat(b);
  }

  // ---------------------------------------------------------------- the flat reader

  datatype Whence = SeekStart | SeekCurrent | SeekEnd | Other

  datatype Op = Read(size: nat) | Seek(offset: int, whence: Whence)

  /** What a caller sees. */
  datatype Seen = Bytes(data: seq<Byte>, eof: bool) | Moved(pos: nat) | Failed

  /** How many bytes a read of `size` at position `pos` delivers. */
  function Available(flat: seq<Byte>, pos: nat, size: nat): nat {
    if pos >= |flat| then 0 else Min(size, |flat| - pos)
  }

  function Window(flat: seq<Byte>, pos: nat, size: nat): (r: seq<Byte>)
    ensures |r| == Available(flat, pos, size)
  {
    if pos >= |flat| then [] else flat[pos..pos + Available(flat, pos, size)]
  }

  function SeekTarget(flat: seq<Byte>, pos: nat, offset: int, whence: Whence): Option<nat> {
    var to := match whence case SeekStart => offset case SeekCurrent => pos + offset case SeekEnd => |flat| + offset case Other => -1;
    if to < 0 then None else Some(to)
  }

  /** One operation on a byte array with a cursor. */
  function FlatStep(flat: seq<Byte>, pos: nat, op: Op): (nat, Seen) {
    match op
    case Read(size) =>
      var data := Window(flat, pos, size);
      (pos + |data|, Bytes(data, size > 0 && data == []))
    case Seek(offset, whence) =>
      match SeekTarget(flat, pos, offset, whence)
      case None => (pos, Failed)
      case Some(to) => (to, Moved(to))
  }

  function FlatRun(flat: seq<Byte>, pos: nat, ops: seq<Op>): (seen: seq<Seen>)
    ensures |seen| == |ops|
    decreases ops
  {
    if ops == [] then []
    else
      var (next, seen) := FlatStep(flat, pos, ops[0]);
      [seen] + FlatRun(flat, next, ops[1..])
  }

  /** The bytes of a transcript. */
  function Delivered(seen: seq<Seen>): seq<Byte> {
    if seen == [] then [] else (if seen[0].Bytes? then seen[0].data else []) + Delivered(seen[1..])
  }

  /** Reading with non-empty buffers until EOF delivers everything from the cursor on, whatever the sizes. */
  lemma {:induction false} ReadAll(flat: seq<Byte>, pos: nat, ops: seq<Op>)
    requires pos <= |flat| && ops != [] && (forall i :: 0 <= i < |ops| ==> ops[i].Read? && ops[i].size > 0)
    requires FlatRun(flat, pos, ops)[|ops| - 1] == Bytes([], true)
    ensures Delivered(FlatRun(flat, pos, ops)) == flat[pos..]
    decreases ops
  {
    var (next, seen) := FlatStep(flat, pos, ops[0]);
    var rest := FlatRun(flat, next, ops[1..]);
    assert FlatRun(flat, pos, ops) == [seen] + rest;
    if |ops| == 1 {
      assert rest == [] && Delivered([seen] + rest) == seen.data + Delivered([]);
    } else {
      ReadAll(flat, next, ops[1..]);
      assert ([seen] + rest)[1..] == rest;
      assert seen.data + flat[next..] == flat[pos..];
    }
  }

  // ---------------------------------------------------------------- the chunked reader

  class StreamReaderSeeker {
    const inner: seq<seq<Byte>>
    var currentChunk: nat
    var chunkOffset: nat
    var totalPos: nat

    /** The chunk coordinates denote the total position; behind the last byte they may lag or be at the end. */
    ghost predicate Valid()
      reads this
    {
      && currentChunk <= |inner|
      && (currentChunk < |inner| ==> chunkOffset <= |inner[currentChunk]| &&
                                     totalPos == |Flat(inner[..currentChunk])| + chunkOffset)
      && (currentChunk == |inner| ==> chunkOffset == 0 && totalPos >= |Flat(inner)|)
    }

    constructor (inner: seq<seq<Byte>>)
      ensures Valid() && this.inner == inner && totalPos == 0
    {
      this.inner := inner;
      currentChunk, chunkOffset, totalPos := 0, 0, 0;
    }

    /** Copies from the current chunk to p[n..], as much as fits. */
    method TakeFromChunk(p: array<Byte>, n: nat) returns (taken: nat)
      requires Valid() && n < p.Length && currentChunk < |inner| && chunkOffset < |inner[currentChunk]|
      modifies this`chunkOffset, this`totalPos, p
      ensures Valid() && 0 < taken <= p.Length - n && totalPos == old(totalPos) + taken <= |Flat(inner)|
      ensures forall i :: n <= i < n + taken ==> p[i] == Flat(inner)[old(totalPos) + (i - n)]
      ensures forall i :: 0 <= i < p.Length && !(n <= i < n + taken) ==> p[i] == old(p[i])
    {
      FlatAt(inner, currentChunk);
      var chunk := inner[currentChunk];
      taken := Min(p.Length - n, |chunk| - chunkOffset);
      CopyInto(p, n, chunk, chunkOffset, taken);
      chunkOffset, totalPos := chunkOffset + taken, totalPos + taken;
    }

    method Read(p: array<Byte>) returns (n: nat, eof: bool)
      requires Valid()
      modifies this, p
      ensures Valid() && n == Available(Flat(inner), old(totalPos), p.Length) && totalPos == old(totalPos) + n
      // A short read happens only at the end.
      ensures n <= p.Length && (n < p.Length ==> totalPos >= |Flat(inner)|) && (n > 0 ==> totalPos <= |Flat(inner)|)
      ensures forall i :: 0 <= i < n ==> p[i] == Flat(inner)[old(totalPos) + i]
      ensures forall i :: n <= i < p.Length ==> p[i] == old(p[i])
      ensures p.Length > 0 ==> (eof <==> n == 0)
      ensures p.Length == 0 ==> (eof <==> old(currentChunk) == |inner|)
    {
      if |inner| == 0 {
        return 0, true;
      }
      n := 0;
      ghost var flat, start := Flat(inner), totalPos;
      while n < p.Length && currentChunk < |inner|
        invariant Valid() && n <= p.Length && totalPos == start + n && (n > 0 ==> totalPos <= |flat|)
        invariant forall i :: 0 <= i < n ==> p[i] == flat[start + i]
        invariant forall i :: n <= i < p.Length ==> p[i] == old(p[i])
        invariant p.Length == 0 ==> currentChunk == old(currentChunk)
        decreases |inner| - currentChunk, p.Length - n
      {
        if chunkOffset >= |inner[currentChunk]| {
          FlatAt(inner, currentChunk);
          currentChunk, chunkOffset := currentChunk + 1, 0;
          assert currentChunk == |inner| ==> inner[..currentChunk] == inner;
          continue;
        }
        var taken := TakeFromChunk(p, n);
        n := n + taken;
      }
      eof := n == 0 && currentChunk >= |inner|;
    }

    method Seek(offset: int, whence: Whence) returns (r: Option<nat>)
      requires Valid()
      modifies this
      ensures Valid() && r == SeekTarget(Flat(inner), old(totalPos), offset, whence)
      ensures r.Some? ==> totalPos == r.value
      ensures whence == SeekStart ==> if offset < 0 then r.None? else totalPos == offset
      ensures whence == SeekCurrent ==> if old(totalPos) + offset < 0 then r.None? else totalPos == old(totalPos) + offset
      ensures whence == SeekEnd ==> if |Flat(inner)| + offset < 0 then r.None? else totalPos == |Flat(inner)| + offset
      ensures r.None? ==> totalPos == old(totalPos) && currentChunk == old(currentChunk) && chunkOffset == old(chunkOffset)
    {
      var newPos: int;
      match whence {
        case SeekStart => newPos := offset;
        case SeekCurrent => newPos := totalPos + offset;
        case SeekEnd =>
          var size := TotalSize();
          newPos := size + offset;
        case Other => return None;
      }
      if newPos < 0 {
        return None;
      }
      var pos := 0;
      for i := 0 to |inner|
        invariant pos == |Flat(inner[..i])| && pos <= newPos && Valid()
        invariant totalPos == old(totalPos) && currentChunk == old(currentChunk) && chunkOffset == old(chunkOffset)
      {
        FlatAt(inner, i);
        if pos + |inner[i]| > newPos {
          currentChunk, chunkOffset, totalPos := i, newPos - pos, newPos;
          return Some(totalPos);
        }
        pos := pos + |inner[i]|;
      }
      assert inner[..|inner|] == inner;
      currentChunk, chunkOffset, totalPos := |inner|, 0, newPos;
      return Some(totalPos);
    }

    method TotalSize() returns (size: nat)
      ensures size == |Flat(inner)|
    {
      size := 0;
      for i := 0 to |inner|
        invariant size == |Flat(inner[..i])|
      {
        FlatAt(inner, i);
        size := size + |inner[i]|;
      }
      assert inner[..|inner|] == inner;
    }

    /** Any sequence of reads and seeks shows what a flat byte array with a cursor would show; only whether
        a read into an empty buffer reports EOF is not determined by the position. */
    method Perform(ops: seq<Op>) returns (seen: seq<Seen>)
      requires Valid()
      modifies this
      ensures Valid() && Transcript(ops, seen, FlatRun(Flat(inner), old(totalPos), ops))
    {
      if ops == [] {
        return [];
      }
      ghost var flat, pos := Flat(inner), totalPos;
      var first: Seen;
      match ops[0] {
        case Read(size) =>
          var p := new Byte[size];
          var n, eof := Read(p);
          first := Bytes(p[..n], eof);
          assert first.data == Window(flat, pos, size);
        case Seek(offset, whence) =>
          var r := Seek(offset, whence);
          first := if r.None? then Failed else Moved(r.value);
      }
      assert totalPos == FlatStep(flat, pos, ops[0]).0 && Matches(ops[0], first, FlatStep(flat, pos, ops[0]).1);
      var rest := Perform(ops[1..]);
      seen := [first] + rest;
      TranscriptCons(ops, first, rest, FlatStep(flat, pos, ops[0]).1, FlatRun(flat, FlatStep(flat, pos, ops[0]).0, ops[1..]));
    }
  }

  predicate Matches(op: Op, a: Seen, b: Seen) {
    a == b || (op == Read(0) && a.Bytes? && b.Bytes? && a.data == b.data)
  }

  ghost predicate Transcript(ops: seq<Op>, a: seq<Seen>, b: seq<Seen>) {
    |a| == |b| == |ops| && forall i :: 0 <= i < |ops| ==> Matches(ops[i], a[i], b[i])
  }

  lemma TranscriptCons(ops: seq<Op>, a: Seen, as': seq<Seen>, b: Seen, bs: seq<Seen>)
    requires ops != [] && Matches(ops[0], a, b) && Transcript(ops[1..], as', bs)
    ensures Transcript(ops, [a] + as', [b] + bs)
  {
  }

  /** The built-in copy, from data[from..from + k] to p[at..]. */
  method CopyInto(p: array<Byte>, at: nat, data: seq<Byte>, from: nat, k: nat)
    requires at + k <= p.Length && from + k <= |data|
    modifies p
    ensures forall i :: at <= i < at + k ==> p[i] == data[from + (i - at)]
    ensures forall i :: 0 <= i < p.Length && !(at <= i < at + k) ==> p[i] == old(p[i])
  {
    for j := 0 to k
      invariant forall i :: at <= i < at + j ==> p[i] == data[from + (i - at)]
      invariant forall i :: 0 <= i < p.Length && !(at <= i < at + j) ==> p[i] == old(p[i])
    {
      p[at + j] := data[from + j];
    }
  }

  // ---------------------------------------------------------------- recording

  const REQUEST := "request"
  const RESPONSE := "response"

  datatype Chunk = Chunk(tag: string, data: seq<Byte>, err: Option<string>)

  /** One read or write that a wrapped body delivered. */
  datatype Traffic = Traffic(tag: string, data: seq<Byte>)

  /** The bytes delivered under a tag, in order. */
  function BytesOf(traffic: seq<Traffic>, tag: string): seq<Byte> {
    if traffic == [] then []
    else
      var t := traffic[|traffic| - 1];
      BytesOf(traffic[..|traffic| - 1], tag) + if t.tag == tag then t.data else []
  }

  function Datas(chunks: seq<Chunk>): (r: seq<seq<Byte>>)
    ensures |r| == |chunks|
  {
    seq(|chunks|, i requires 0 <= i < |chunks| => chunks[i].data)
  }

  lemma FlatAppend(chunks: seq<Chunk>, c: Chunk)
    ensures Flat(Datas(chunks + [c])) == Flat(Datas(chunks)) + c.data
  {
    assert Datas(chunks + [c])[..|chunks|] == Datas(chunks);
  }

  class StreamRecorder {
    var request: seq<Chunk>
    var response: seq<Chunk>
    ghost var traffic: seq<Traffic>

    ghost predicate Valid()
      reads this
    {
      Flat(Datas(request)) == BytesOf(traffic, REQUEST) && Flat(Datas(response)) == BytesOf(traffic, RESPONSE)
    }

    constructor ()
      ensures Valid() && traffic == []
    {
      request, response, traffic := [], [], [];
    }

    /** The callback the recorder registers. */
    method OnChunk(c: Chunk)
      requires Valid()
      modifies this
      ensures Valid() && traffic == old(traffic) + [Traffic(c.tag, c.data)]
    {
      ghost var t := Traffic(c.tag, c.data);
      assert (traffic + [t])[..|traffic|] == traffic;
      FlatAppend(request, c);
      FlatAppend(response, c);
      if c.tag == REQUEST {
        request := request + [c];
      } else if c.tag == RESPONSE {
        response := response + [c];
      }
      traffic := traffic + [t];
    }

    /** readCloserBody.Read (any tag) and readWriteCloserBody.Read (tag "response"): the wrapped reader puts
        `delivered` into the buffer, and a copy of it is reported. */
    method BodyRead(tag: string, p: array<Byte>, delivered: seq<Byte>, err: Option<string>) returns (n: nat)
      requires Valid() && |delivered| <= p.Length
      modifies this, p
      ensures Valid() && n == |delivered| && p[..n] == delivered
      ensures traffic == old(traffic) + [Traffic(tag, delivered)]
    {
      CopyInto(p, 0, delivered, 0, |delivered|);
      n := |delivered|;
      assert p[..n] == delivered;
      OnChunk(Chunk(tag, p[..n], err));
    }

    /** readWriteCloserBody.Write: the first n bytes were accepted. */
    method BodyWrite(p: seq<Byte>, n: nat, err: Option<string>)
      requires Valid() && n <= |p|
      modifies this
      ensures Valid() && traffic == old(traffic) + [Traffic(REQUEST, p[..n])]
    {
      OnChunk(Chunk(REQUEST, p[..n], err));
    }

    method RequestReader() returns (r: StreamReaderSeeker)
      requires Valid()
      ensures fresh(r) && r.Valid() && r.totalPos == 0 && Flat(r.inner) == BytesOf(traffic, REQUEST)
    {
      r := new StreamReaderSeeker(Datas(request));
    }

    method ResponseReader() returns (r: StreamReaderSeeker)
      requires Valid()
      ensures fresh(r) && r.Valid() && r.totalPos == 0 && Flat(r.inner) == BytesOf(traffic, RESPONSE)
    {
      r := new StreamReaderSeeker(Datas(response));
    }

    method Mix() returns (r: StreamReaderSeeker)
      requires Valid()
      ensures fresh(r) && r.Valid() && r.totalPos == 0
      ensures Flat(r.inner) == BytesOf(traffic, REQUEST) + BytesOf(traffic, RESPONSE)
    {
      FlatConcat(Datas(request), Datas(response));
      assert Datas(request + response) == Datas(request) + Datas(response);
      r := new StreamReaderSeeker(Datas(request + response));
    }

    /** Replaying the mix with any buffer sizes until EOF yields the request bytes, then the response bytes,
        exactly as the wrapped bodies delivered them. */
    method ReplayMix(ops: seq<Op>) returns (seen: seq<Seen>)
      requires Valid() && ops != [] && forall i :: 0 <= i < |ops| ==> ops[i].Read? && ops[i].size > 0
      ensures seen == FlatRun(BytesOf(traffic, REQUEST) + BytesOf(traffic, RESPONSE), 0, ops)
      ensures seen[|ops| - 1] == Bytes([], true) ==>
                Delivered(seen) == BytesOf(traffic, REQUEST) + BytesOf(traffic, RESPONSE)
    {
      var r := Mix();
      ghost var flat := Flat(r.inner);
      seen := r.Perform(ops);
      assert seen == FlatRun(flat, 0, ops);
      if seen[|ops| - 1] == Bytes([], true) {
        ReadAll(flat, 0, ops);
      }
    }
  }
}
