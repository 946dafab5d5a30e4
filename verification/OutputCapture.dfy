// Bounded capture of command output and artifacts (sandbox_executor.py, sandbox_limits.py).
module OutputCapture {
  import opened Prelude

  type byte = b: int | 0 <= b < 256

  /** One item of the demultiplexed exec stream: an optional stdout chunk and an optional stderr chunk. */
  datatype Frame = Frame(out: Option<seq<byte>>, err: Option<seq<byte>>)

  /** A byte and the stream it was written to. */
  datatype Tagged = Tagged(stderr: bool, value: byte)

  function Bytes(chunk: Option<seq<byte>>): seq<byte> {
    match chunk case None => [] case Some(b) => b
  }

  function Tag(chunk: seq<byte>, stderr: bool): (t: seq<Tagged>)
    ensures |t| == |chunk|
  {
    if chunk == [] then [] else Tag(chunk[..|chunk| - 1], stderr) + [Tagged(stderr, chunk[|chunk| - 1])]
  }

  function FrameBytes(f: Frame): seq<Tagged> {
    Tag(Bytes(f.out), false) + Tag(Bytes(f.err), true)
  }

  /** What the command wrote, in the order in which the stream delivers it. */
  function Written(frames: seq<Frame>): seq<Tagged> {
    if frames == [] then [] else Written(frames[..|frames| - 1]) + FrameBytes(frames[|frames| - 1])
  }

  /** The bytes of one stream. */
  function Side(t: seq<Tagged>, stderr: bool): seq<byte> {
    if t == [] then []
    else
      var last := t[|t| - 1];
      Side(t[..|t| - 1], stderr) + if last.stderr == stderr then [last.value] else []
  }

  lemma {:induction false} SideAppend(a: seq<Tagged>, b: seq<Tagged>, stderr: bool)
    ensures Side(a + b, stderr) == Side(a, stderr) + Side(b, stderr)
  {
    if b == [] {
      assert a + b == a;
    } else {
      SideAppend(a, b[..|b| - 1], stderr);
      assert (a + b)[..|a + b| - 1] == a + b[..|b| - 1];
    }
  }

  lemma TagLast(chunk: seq<byte>, stderr: bool)
    requires chunk != []
    ensures var n := |chunk| - 1;
            Tag(chunk, stderr)[..n] == Tag(chunk[..n], stderr) && Tag(chunk, stderr)[n] == Tagged(stderr, chunk[n])
  {
  }

  lemma {:induction false} SideOfTag(chunk: seq<byte>, from: bool, stderr: bool)
    ensures Side(Tag(chunk, from), stderr) == if from == stderr then chunk else []
  {
    if chunk != [] {
      var n := |chunk| - 1;
      SideOfTag(chunk[..n], from, stderr);
      TagLast(chunk, from);
      assert chunk == chunk[..n] + [chunk[n]];
    }
  }

  lemma {:induction false} TagPrefix(chunk: seq<byte>, stderr: bool, n: nat)
    requires n <= |chunk|
    ensures Tag(chunk, stderr)[..n] == Tag(chunk[..n], stderr)
  {
    if n == |chunk| {
      assert chunk[..n] == chunk && Tag(chunk, stderr)[..n] == Tag(chunk, stderr);
    } else {
      TagPrefix(chunk[..|chunk| - 1], stderr, n);
      assert chunk[..|chunk| - 1][..n] == chunk[..n];
      assert Tag(chunk, stderr)[..n] == Tag(chunk[..|chunk| - 1], stderr)[..n];
    }
  }

  lemma {:induction false} SideSizes(t: seq<Tagged>)
    ensures |Side(t, false)| + |Side(t, true)| == |t|
  {
    if t != [] { SideSizes(t[..|t| - 1]); }
  }

  lemma SidePrefix(t: seq<Tagged>, n: nat, stderr: bool)
    requires n <= |t|
    ensures Side(t[..n], stderr) <= Side(t, stderr)
  {
    SideAppend(t[..n], t[n..], stderr);
    assert t == t[..n] + t[n..];
  }

  function Smaller(a: nat, b: nat): nat { if a <= b then a else b }

  /** The first `limit` bytes that were written. */
  function Kept(t: seq<Tagged>, limit: nat): seq<Tagged> { t[..Smaller(limit, |t|)] }

  /** What one more chunk adds to each side of what is kept. */
  lemma AppendKeeps(seen: seq<Tagged>, chunk: seq<byte>, toStderr: bool, limit: nat)
    requires |seen| <= limit
    ensures Kept(seen, limit) == seen
    ensures var part := chunk[..Smaller(limit - |seen|, |chunk|)];
            forall stderr :: Side(Kept(seen + Tag(chunk, toStderr), limit), stderr) ==
                             Side(seen, stderr) + if toStderr == stderr then part else []
  {
    var part := chunk[..Smaller(limit - |seen|, |chunk|)];
    TagPrefix(chunk, toStderr, |part|);
    assert Kept(seen + Tag(chunk, toStderr), limit) == seen + Tag(part, toStderr);
    forall stderr
      ensures Side(seen + Tag(part, toStderr), stderr) == Side(seen, stderr) + if toStderr == stderr then part else []
    {
      SideAppend(seen, Tag(part, toStderr), stderr);
      SideOfTag(part, toStderr, stderr);
    }
  }

  class SplitOutputBuffer {
    const byteLimit: nat
    var stdout: seq<byte>
    var stderr: seq<byte>
    var truncated: bool

    /** The buffer has seen exactly `t`. */
    ghost predicate Holds(t: seq<Tagged>)
      reads this
    {
      && stdout == Side(Kept(t, byteLimit), false)
      && stderr == Side(Kept(t, byteLimit), true)
      && (truncated <==> |t| > byteLimit)
    }

    constructor (byteLimit: nat)
      requires byteLimit >= 1
      ensures this.byteLimit == byteLimit && Holds([])
    {
      this.byteLimit := byteLimit;
      stdout, stderr, truncated := [], [], false;
    }

    /** Keeps what fits of the chunk and says whether all of it did. */
    method Append(chunk: seq<byte>, toStderr: bool, ghost seen: seq<Tagged>) returns (kept: bool)
      requires Holds(seen) && !truncated
      modifies this
      ensures Holds(seen + Tag(chunk, toStderr)) && kept == !truncated
    {
      AppendKeeps(seen, chunk, toStderr, byteLimit);
      SideSizes(seen);
      var remaining := byteLimit - |stdout| - |stderr|;
      var part := if |chunk| > remaining then chunk[..remaining] else chunk;
      assert remaining == byteLimit - |seen|;
      assert part == chunk[..Smaller(remaining, |chunk|)];
      if toStderr { stderr := stderr + part; } else { stdout := stdout + part; }
      truncated := |chunk| > remaining;
      return !truncated;
    }
  }

  /** The loop of capture_command_output: whatever the chunking, the buffer ends with the first `limit` bytes. */
  method CaptureOutput(frames: seq<Frame>, limit: nat) returns (stdout: seq<byte>, stderr: seq<byte>, truncated: bool)
    requires limit >= 1
    ensures stdout == Side(Kept(Written(frames), limit), false)
    ensures stderr == Side(Kept(Written(frames), limit), true)
    ensures truncated <==> |Written(frames)| > limit
  {
    var buffer := new SplitOutputBuffer(limit);
    var i := 0;
    ghost var seen: seq<Tagged> := [];
    while i < |frames| && !buffer.truncated
      invariant 0 <= i <= |frames| && buffer.byteLimit == limit && fresh(buffer)
      invariant buffer.Holds(seen) && seen <= Written(frames)
      invariant !buffer.truncated ==> seen == Written(frames[..i])
      decreases |frames| - i
    {
      WrittenStep(frames, i);
      seen := AppendFrame(buffer, frames[i], seen);
      i := i + 1;
    }
    assert frames[..|frames|] == frames;
    assert buffer.truncated ==> Kept(seen, limit) == Kept(Written(frames), limit);
    return buffer.stdout, buffer.stderr, buffer.truncated;
  }

  /** The loop body: stdout first, and stderr only if stdout was kept whole. */
  method AppendFrame(buffer: SplitOutputBuffer, f: Frame, ghost seen: seq<Tagged>) returns (ghost after: seq<Tagged>)
    requires buffer.Holds(seen) && !buffer.truncated
    modifies buffer
    ensures buffer.Holds(after) && seen <= after <= seen + FrameBytes(f)
    ensures !buffer.truncated ==> after == seen + FrameBytes(f)
  {
    ghost var out, err := Tag(Bytes(f.out), false), Tag(Bytes(f.err), true);
    assert seen + FrameBytes(f) == seen + out + err;
    after := seen;
    assert seen + [] == seen && seen + out + [] == seen + out;
    if Bytes(f.out) != [] {
      var kept := buffer.Append(Bytes(f.out), false, seen);
      after := seen + out;
      if !kept { return; }
    }
    if Bytes(f.err) != [] {
      var kept := buffer.Append(Bytes(f.err), true, after);
      after := after + err;
    }
  }

  lemma {:induction false} WrittenPrefix(frames: seq<Frame>, n: nat)
    requires n <= |frames|
    ensures Written(frames[..n]) <= Written(frames)
  {
    if n < |frames| {
      WrittenPrefix(frames[..|frames| - 1], n);
      assert frames[..|frames| - 1][..n] == frames[..n];
    } else {
      assert frames[..n] == frames;
    }
  }

  lemma WrittenStep(frames: seq<Frame>, i: nat)
    requires i < |frames|
    ensures Written(frames[..i + 1]) == Written(frames[..i]) + FrameBytes(frames[i])
    ensures Written(frames[..i + 1]) <= Written(frames)
  {
    assert frames[..i + 1][..i] == frames[..i];
    WrittenPrefix(frames, i + 1);
  }

  /** What was written to one stream. */
  function Stream(frames: seq<Frame>, stderr: bool): seq<byte> {
    if frames == [] then []
    else
      var last := frames[|frames| - 1];
      Stream(frames[..|frames| - 1], stderr) + Bytes(if stderr then last.err else last.out)
  }

  lemma FrameSides(f: Frame, stderr: bool)
    ensures Side(FrameBytes(f), stderr) == Bytes(if stderr then f.err else f.out)
  {
    SideAppend(Tag(Bytes(f.out), false), Tag(Bytes(f.err), true), stderr);
    SideOfTag(Bytes(f.out), false, stderr);
    SideOfTag(Bytes(f.err), true, stderr);
  }

  lemma {:induction false} WrittenSides(frames: seq<Frame>, stderr: bool)
    ensures Side(Written(frames), stderr) == Stream(frames, stderr)
  {
    if frames != [] {
      var last, rest := frames[|frames| - 1], frames[..|frames| - 1];
      WrittenSides(rest, stderr);
      SideAppend(Written(rest), FrameBytes(last), stderr);
      FrameSides(last, stderr);
    }
  }

  /** Both captured streams are prefixes of what was written, together they fill the limit, and nothing is lost silently. */
  lemma CapturedPrefixes(frames: seq<Frame>, limit: nat)
    ensures var t := Written(frames);
            var out, err := Side(Kept(t, limit), false), Side(Kept(t, limit), true);
            && out <= Stream(frames, false) && err <= Stream(frames, true)
            && |out| + |err| == Smaller(limit, |Stream(frames, false)| + |Stream(frames, true)|)
            && (|t| > limit <==> |out| + |err| < |Stream(frames, false)| + |Stream(frames, true)|)
            && (|t| <= limit ==> out == Stream(frames, false) && err == Stream(frames, true))
  {
    WrittenSides(frames, false);
    WrittenSides(frames, true);
    KeptSides(Written(frames), limit, Stream(frames, false), Stream(frames, true));
  }

  /** The two sides of what is kept, against the two sides of everything. */
  lemma KeptSides(t: seq<Tagged>, limit: nat, whole: seq<byte>, wholeErr: seq<byte>)
    requires whole == Side(t, false) && wholeErr == Side(t, true)
    ensures var out, err := Side(Kept(t, limit), false), Side(Kept(t, limit), true);
            && out <= whole && err <= wholeErr
            && |out| + |err| == Smaller(limit, |whole| + |wholeErr|)
            && (|t| > limit <==> |out| + |err| < |whole| + |wholeErr|)
            && (|t| <= limit ==> out == whole && err == wholeErr)
  {
    SideSizes(t);
    SideSizes(Kept(t, limit));
    SidePrefix(t, Smaller(limit, |t|), false);
    SidePrefix(t, Smaller(limit, |t|), true);
  }

  // ----- artifacts

  function Concat(chunks: seq<seq<byte>>): seq<byte> {
    if chunks == [] then [] else Concat(chunks[..|chunks| - 1]) + chunks[|chunks| - 1]
  }

  lemma {:induction false} ConcatPrefix(chunks: seq<seq<byte>>, n: nat)
    requires n <= |chunks|
    ensures Concat(chunks[..n]) <= Concat(chunks)
  {
    if n < |chunks| {
      ConcatPrefix(chunks[..|chunks| - 1], n);
      assert chunks[..|chunks| - 1][..n] == chunks[..n];
    } else {
      assert chunks[..n] == chunks;
    }
  }

  class BoundedByteBuffer {
    const byteLimit: nat
    var data: seq<byte>
    var truncated: bool

    constructor (byteLimit: nat)
      requires byteLimit >= 1
      ensures this.byteLimit == byteLimit && data == [] && !truncated
    {
      this.byteLimit := byteLimit;
      data, truncated := [], false;
    }

    method Append(chunk: seq<byte>) returns (kept: bool)
      requires |data| <= byteLimit
      modifies this
      ensures |data| <= byteLimit
      ensures data == (old(data) + chunk)[..Smaller(byteLimit, |old(data)| + |chunk|)]
      ensures kept <==> |old(data)| + |chunk| <= byteLimit
      ensures truncated == (old(truncated) || !kept)
    {
      var remaining := byteLimit - |data|;
      if |chunk| > remaining {
        data := data + chunk[..remaining];
        truncated := true;
        return false;
      }
      data := data + chunk;
      return true;
    }
  }

  /** One read of the file's stream: a chunk, or an exception. */
  datatype Read = Chunk(data: seq<byte>) | Broken

  function BytesRead(r: Read): seq<byte> { match r case Chunk(data) => data case Broken => [] }

  function Chunks(stream: seq<Read>): seq<seq<byte>> {
    seq(|stream|, i requires 0 <= i < |stream| => BytesRead(stream[i]))
  }

  /** The whole content of the stream, if nothing failed and it is neither empty nor longer than `maxBytes`. */
  predicate FileWithin(payload: Option<seq<byte>>, stream: seq<Read>, maxBytes: int) {
    var content := Concat(Chunks(stream));
    && (payload.Some? <==> Broken !in stream && 0 < |content| <= maxBytes)
    && (payload.Some? ==> payload.value == content)
  }

  /** capture_artifact and capture_display_artifact: the whole file, or nothing if a read raises, or it is empty or over the limit. */
  method CaptureArtifact(stream: seq<Read>, maxBytes: int) returns (payload: Option<seq<byte>>)
    ensures FileWithin(payload, stream, maxBytes)
  {
    if maxBytes <= 0 { return None; }
    var buffer := new BoundedByteBuffer(maxBytes + 1);
    var i := 0;
    while i < |stream|
      invariant 0 <= i <= |stream| && fresh(buffer) && buffer.byteLimit == maxBytes + 1
      invariant Broken !in stream[..i]
      invariant buffer.data == Concat(Chunks(stream)[..i]) && |buffer.data| <= maxBytes + 1
    {
      assert Chunks(stream)[..i + 1][..i] == Chunks(stream)[..i];
      ConcatPrefix(Chunks(stream), i + 1);
      if stream[i].Broken? { return None; }
      if stream[i].data != [] {
        var kept := buffer.Append(stream[i].data);
        if !kept { return None; }
      }
      i := i + 1;
    }
    assert Chunks(stream)[..i] == Chunks(stream);
    if buffer.data == [] || |buffer.data| > maxBytes { return None; }
    return Some(buffer.data);
  }
}
