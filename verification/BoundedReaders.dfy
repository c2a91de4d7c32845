/** Reading a child process within limits, however its bytes arrive in chunks. */
module BoundedReaders {
  import opened Common

  newtype byte = x: int | 0 <= x < 256

  const NEWLINE: byte := 10
  const CARRIAGE_RETURN: byte := 13

  datatype ReadError = MessageTooLarge | ReadFailed

  /** Length of the first line with its newline, or of everything when there is none. */
  function RawLength(s: seq<byte>): (k: nat)
    ensures k <= |s|
  {
    if s == [] then 0
    else if s[0] == NEWLINE then 1
    else RawLength(s[1..]) + 1
  }

  function WithoutLineEnd(line: seq<byte>): seq<byte> {
    if line == [] || line[|line| - 1] !in {NEWLINE, CARRIAGE_RETURN} then line
    else WithoutLineEnd(line[..|line| - 1])
  }

  /** Only line-end bytes are dropped, and none is left at the end. */
  lemma {:induction false} WithoutLineEndExactly(line: seq<byte>)
    ensures WithoutLineEnd(line) <= line
    ensures WithoutLineEnd(line) != [] ==> WithoutLineEnd(line)[|WithoutLineEnd(line)| - 1] !in {NEWLINE, CARRIAGE_RETURN}
    ensures forall i :: |WithoutLineEnd(line)| <= i < |line| ==> line[i] in {NEWLINE, CARRIAGE_RETURN}
  {
    if line != [] && line[|line| - 1] in {NEWLINE, CARRIAGE_RETURN} {
      WithoutLineEndExactly(line[..|line| - 1]);
    }
  }

  /** What a line read from `s` should give. */
  function FirstLine(s: seq<byte>): seq<byte> {
    var raw := s[..RawLength(s)];
    if NEWLINE in s then WithoutLineEnd(raw) else raw
  }

  /** Bytes that hold no newline only move the first line along. */
  lemma {:induction false} RawLengthAfter(head: seq<byte>, s: seq<byte>)
    requires NEWLINE !in head
    ensures RawLength(head + s) == |head| + RawLength(s)
  {
    if head == [] {
      assert head + s == s;
    } else {
      assert (head + s)[1..] == head[1..] + s;
      RawLengthAfter(head[1..], s);
    }
  }

  /** The raw line is what precedes the first newline and the newline. */
  lemma RawLengthExactly(head: seq<byte>, s: seq<byte>)
    requires NEWLINE !in head
    ensures s == [] ==> RawLength(head + s) == |head|
    ensures s != [] && s[0] == NEWLINE ==> RawLength(head + s) == |head| + 1
  {
    RawLengthAfter(head, s);
  }

  /** The line that is read is what precedes the line end, which is a newline after any carriage returns;
      without a newline it is everything. */
  lemma FirstLineExactly(body: seq<byte>, ends: seq<byte>, rest: seq<byte>)
    requires NEWLINE !in body && (body != [] ==> body[|body| - 1] != CARRIAGE_RETURN)
    requires forall i :: 0 <= i < |ends| ==> ends[i] == CARRIAGE_RETURN
    ensures FirstLine(body + ends + [NEWLINE] + rest) == body
    ensures FirstLine(body + ends) == body + ends
  {
    var line := body + ends;
    RawLengthExactly(line, [NEWLINE] + rest);
    RawLengthExactly(line, []);
    assert line + [NEWLINE] + rest == line + ([NEWLINE] + rest) && line + [] == line;
    assert (line + [NEWLINE] + rest)[..|line| + 1] == line + [NEWLINE];
    assert (line + [NEWLINE])[..|line|] == line;
    ReturnsDropped(body, ends);
  }

  lemma {:induction false} ReturnsDropped(body: seq<byte>, ends: seq<byte>)
    requires NEWLINE !in body && (body != [] ==> body[|body| - 1] != CARRIAGE_RETURN)
    requires forall i :: 0 <= i < |ends| ==> ends[i] == CARRIAGE_RETURN
    ensures WithoutLineEnd(body + ends) == body
  {
    if ends == [] {
      assert body + ends == body;
      assert body != [] ==> body[|body| - 1] in body;
    } else {
      var fewer := ends[..|ends| - 1];
      assert (body + ends)[..|body + ends| - 1] == body + fewer;
      ReturnsDropped(body, fewer);
    }
  }

  /** A stream whose unread bytes are handed out in chunks of any size. Reading a stream that is not
      `reliable` may fail at any time. */
  class Stream {
    const reliable: bool
    var unread: seq<byte>

    constructor (bytes: seq<byte>, reliable: bool)
      ensures unread == bytes && this.reliable == reliable
    {
      unread, this.reliable := bytes, reliable;
    }

    method FillBuf() returns (r: Result<seq<byte>, ReadError>)
      ensures r.Ok? ==> r.value <= unread && (r.value == [] <==> unread == [])
      ensures r.Err? ==> r.error == ReadFailed && !reliable
    {
      var fails: bool := *;
      if fails && !reliable {
        return Err(ReadFailed);
      }
      if unread == [] {
        return Ok([]);
      }
      var n :| 1 <= n <= |unread|;
      return Ok(unread[..n]);
    }

    method Consume(count: nat)
      requires count <= |unread|
      modifies this
      ensures unread == old(unread)[count..]
    {
      unread := unread[count..];
    }

    method Read(capacity: nat) returns (r: Result<seq<byte>, ReadError>)
      requires capacity > 0
      modifies this
      ensures r.Ok? ==> |r.value| <= capacity && r.value + unread == old(unread) && (r.value == [] <==> old(unread) == [])
      ensures r.Err? ==> r.error == ReadFailed && !reliable && unread == old(unread)
    {
      var fails: bool := *;
      if fails && !reliable {
        return Err(ReadFailed);
      }
      if unread == [] {
        return Ok([]);
      }
      var n :| 1 <= n <= |unread| && n <= capacity;
      r := Ok(unread[..n]);
      unread := unread[n..];
    }
  }

  method Position(buffer: seq<byte>) returns (index: Option<nat>)
    ensures index.None? <==> NEWLINE !in buffer
    ensures index.Some? ==> index.value < |buffer| && buffer[index.value] == NEWLINE && NEWLINE !in buffer[..index.value]
  {
    for i := 0 to |buffer|
      invariant NEWLINE !in buffer[..i]
    {
      if buffer[i] == NEWLINE {
        return Some(i);
      }
    }
    assert buffer[..|buffer|] == buffer;
    return None;
  }

  lemma Slices(all: seq<byte>, at: nat, buffer: seq<byte>, k: nat)
    requires at <= |all| && buffer <= all[at..] && k <= |buffer|
    ensures at + k <= |all|
    ensures all[..at] + buffer[..k] == all[..at + k]
    ensures all[at..][k..] == all[at + k..]
  {
    assert buffer[..k] == all[at..][..k];
  }

  /** What one more chunk, found at `at`, says about the first line of everything. */
  lemma ChunkWithNewline(all: seq<byte>, at: nat, buffer: seq<byte>, i: nat)
    requires at <= |all| && NEWLINE !in all[..at] && buffer <= all[at..]
    requires i < |buffer| && buffer[i] == NEWLINE && NEWLINE !in buffer[..i]
    ensures at + i + 1 <= |all| && RawLength(all) == at + i + 1 && all[at + i] == NEWLINE
  {
    Slices(all, at, buffer, i);
    var head, rest := all[..at + i], all[at + i..];
    assert NEWLINE !in head;
    assert all == head + rest;
    assert rest[0] == buffer[i];
    RawLengthExactly(head, rest);
  }

  lemma ChunkWithoutNewline(all: seq<byte>, at: nat, buffer: seq<byte>)
    requires at <= |all| && NEWLINE !in all[..at] && buffer <= all[at..] && NEWLINE !in buffer
    ensures at + |buffer| <= |all| && RawLength(all) >= at + |buffer| && NEWLINE !in all[..at + |buffer|]
  {
    Slices(all, at, buffer, |buffer|);
    var head, rest := all[..at + |buffer|], all[at + |buffer|..];
    assert buffer[..|buffer|] == buffer;
    assert NEWLINE !in head;
    assert all == head + rest;
    RawLengthAfter(head, rest);
  }

  /** The loop that pops line-end bytes. */
  method Popped(raw: seq<byte>) returns (line: seq<byte>)
    ensures line == WithoutLineEnd(raw)
    ensures raw != [] && raw[|raw| - 1] == NEWLINE ==> |line| < |raw|
  {
    line := raw;
    while line != [] && line[|line| - 1] in {NEWLINE, CARRIAGE_RETURN}
      invariant |line| <= |raw| && (|line| == |raw| ==> line == raw)
      invariant WithoutLineEnd(line) == WithoutLineEnd(raw)
    {
      line := line[..|line| - 1];
    }
  }

  /** Unless reading fails: errs exactly when the raw line, or the tail at the end of the stream, is
      longer than the limit and one more byte, and otherwise gives the line and consumes exactly its
      raw bytes. */
  method ReadBoundedLine(reader: Stream, limit: nat) returns (r: Result<seq<byte>, ReadError>)
    modifies reader
    ensures r.Ok? ==> RawLength(old(reader.unread)) <= limit + 1
    ensures r == Err(MessageTooLarge) ==> RawLength(old(reader.unread)) > limit + 1
    ensures r == Err(ReadFailed) ==> !reader.reliable
    ensures r.Ok? ==> r.value == FirstLine(old(reader.unread))
                      && reader.unread == old(reader.unread)[RawLength(old(reader.unread))..]
    ensures r.Err? ==> |reader.unread| <= |old(reader.unread)|
                       && var consumed := |old(reader.unread)| - |reader.unread|;
                       consumed <= limit + 1 && (r.error == MessageTooLarge ==> consumed < RawLength(old(reader.unread)))
                       && reader.unread == old(reader.unread)[consumed..]
  {
    ghost var all := reader.unread;
    hide RawLength, WithoutLineEnd;
    var line: seq<byte> := [];
    while true
      invariant |line| <= |all| && line == all[..|line|] && reader.unread == all[|line|..]
      invariant NEWLINE !in line && |line| <= limit + 1
      decreases |reader.unread|
    {
      var filled := reader.FillBuf();
      if filled.Err? {
        return Err(filled.error);
      }
      var buffer := filled.value;
      if buffer == [] {
        assert all == line + [];
        RawLengthExactly(line, []);
        return Ok(line);
      }
      var newline := Position(buffer);
      var count := if newline.Some? then newline.value + 1 else |buffer|;
      if newline.Some? {
        ChunkWithNewline(all, |line|, buffer, newline.value);
      } else {
        ChunkWithoutNewline(all, |line|, buffer);
      }
      if |line| + count > limit + 1 {
        return Err(MessageTooLarge);
      }
      Slices(all, |line|, buffer, count);
      line := line + buffer[..count];
      reader.Consume(count);
      if newline.Some? {
        assert line[|line| - 1] == NEWLINE;
        line := Popped(line);
        if |line| > limit {
          assert false;
          return Err(MessageTooLarge);
        }
        return Ok(line);
      }
    }
  }

  datatype BoundedStderr = BoundedStderr(bytes: seq<byte>, oversized: bool)

  const STDERR_CHUNK: nat := 8 * 1024

  function Min(a: nat, b: nat): nat {
    if a < b then a else b
  }

  function SaturatingSub(a: nat, b: nat): nat {
    if a < b then 0 else a - b
  }

  /** Drains the stream, keeps the first `limit` bytes and says whether there were more. */
  method ReadBoundedStderr(input: Stream, limit: nat) returns (r: Result<BoundedStderr, ReadError>)
    modifies input
    ensures r.Ok? ==> r.value == BoundedStderr(old(input.unread)[..Min(limit, |old(input.unread)|)], |old(input.unread)| > limit)
                      && input.unread == []
    ensures r.Err? ==> r.error == ReadFailed && !input.reliable
  {
    ghost var all := input.unread;
    var bytes: seq<byte>, oversized := [], false;
    ghost var drained := [];
    while true
      invariant all == drained + input.unread
      invariant bytes == drained[..Min(limit + 1, |drained|)]
      invariant oversized <==> |drained| > limit
      decreases |input.unread|
    {
      var chunk := input.Read(STDERR_CHUNK);
      if chunk.Err? {
        return Err(chunk.error);
      }
      var buffer := chunk.value;
      if buffer == [] {
        break;
      }
      var remaining := SaturatingSub(limit + 1, |bytes|);
      drained := drained + buffer;
      bytes := bytes + buffer[..Min(|buffer|, remaining)];
      oversized := oversized || |buffer| > remaining || |bytes| > limit;
    }
    assert drained == all;
    bytes := bytes[..Min(limit, |bytes|)];
    return Ok(BoundedStderr(bytes, oversized));
  }
}
