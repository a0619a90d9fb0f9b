/**
 The length-prefixed frame stream (`WriteFrame` and `readFrameWithLimit` in network/protocol.go): four bytes of
 length, most significant first, then the payload.
 */
module Frames {
  import opened Common

  const MAX_FRAME_SIZE := 10 * 1024 * 1024

  type Payload = seq<byte>

  datatype Cause = Eof | UnexpectedEof

  datatype ReadError = HeaderError(cause: Cause) | PayloadError(cause: Cause) | FrameTooLarge

  datatype WriteError = TooLargeToWrite | BrokenWriter

  // ----- The length prefix -----------------------------------------------------------------

  function PutUint32(n: nat): (header: seq<byte>)
    requires n < 0x1_0000_0000
    ensures |header| == 4
  {
    [(n / 0x100_0000) as byte, (n / 0x1_0000 % 0x100) as byte, (n / 0x100 % 0x100) as byte, (n % 0x100) as byte]
  }

  function Uint32(header: seq<byte>): (n: nat)
    requires |header| == 4
    ensures n < 0x1_0000_0000
  {
    header[0] as nat * 0x100_0000 + header[1] as nat * 0x1_0000 + header[2] as nat * 0x100 + header[3] as nat
  }

  lemma LengthRoundTrip(n: nat)
    requires n < 0x1_0000_0000
    ensures Uint32(PutUint32(n)) == n
  {
    DivideAgain(n, 0x100);
    DivideAgain(n, 0x1_0000);
  }

  lemma DivideAgain(n: nat, d: nat)
    requires d == 0x100 || d == 0x1_0000
    ensures n / (d * 0x100) == n / d / 0x100
  {
    var q := n / d;
    assert n == d * q + n % d;
  }

  lemma Divides(n: nat, d: nat, q: nat, r: nat)
    requires d == 0x100 && n == q * d + r && r < d
    ensures n / d == q && n % d == r
  {
  }

  lemma HeaderRoundTrip(header: seq<byte>)
    requires |header| == 4
    ensures PutUint32(Uint32(header)) == header
  {
    var n := Uint32(header);
    var a, b, c, d := header[0] as nat, header[1] as nat, header[2] as nat, header[3] as nat;
    Divides(n, 0x100, (a * 0x100 + b) * 0x100 + c, d);
    Divides((a * 0x100 + b) * 0x100 + c, 0x100, a * 0x100 + b, c);
    Divides(a * 0x100 + b, 0x100, a, b);
    DivideAgain(n, 0x100);
    DivideAgain(n, 0x1_0000);
  }

  /** The most significant byte comes first: headers are ordered as their lengths are. */
  lemma MostSignificantFirst(m: nat, n: nat) returns (i: nat)
    requires m < n < 0x1_0000_0000
    ensures i < 4 && PutUint32(m)[..i] == PutUint32(n)[..i] && PutUint32(m)[i] < PutUint32(n)[i]
  {
    var s, t := PutUint32(m), PutUint32(n);
    LengthRoundTrip(m);
    LengthRoundTrip(n);
    i := if s[0] != t[0] then 0 else if s[1] != t[1] then 1 else if s[2] != t[2] then 2 else 3;
    assert Uint32(s) == m && Uint32(t) == n;
  }

  // ----- One frame and many ----------------------------------------------------------------

  predicate Writable(payload: Payload) {
    |payload| <= MAX_FRAME_SIZE
  }

  function Frame(payload: Payload): seq<byte>
    requires Writable(payload)
  {
    PutUint32(|payload|) + payload
  }

  function Stream(payloads: seq<Payload>): seq<byte>
    requires forall p :: p in payloads ==> Writable(p)
  {
    if payloads == [] then [] else Frame(payloads[0]) + Stream(payloads[1..])
  }

  /** What one read returns, and how many bytes it takes off the stream. */
  datatype Read = Read(result: Result<Payload, ReadError>, taken: nat)

  function ReadOne(stream: seq<byte>, limit: nat): (r: Read)
    ensures r.taken <= |stream|
  {
    if |stream| < 4 then Read(Err(HeaderError(if stream == [] then Eof else UnexpectedEof)), |stream|)
    else
      var length := Uint32(stream[..4]);
      if length > limit then Read(Err(FrameTooLarge), 4)
      else if |stream| - 4 < length then Read(Err(PayloadError(if |stream| == 4 then Eof else UnexpectedEof)), |stream|)
      else Read(Ok(stream[4..4 + length]), 4 + length)
  }

  /** Reading on until the first error. */
  function ReadAll(stream: seq<byte>, limit: nat): (seq<Payload>, ReadError)
    decreases |stream|
  {
    var r := ReadOne(stream, limit);
    if r.result.Err? then ([], r.result.error)
    else
      var (payloads, error) := ReadAll(stream[r.taken..], limit);
      ([r.result.value] + payloads, error)
  }

  /** A written frame is read back whole, and nothing after it is touched. */
  lemma FrameReadsBack(payload: Payload, rest: seq<byte>, limit: nat)
    requires Writable(payload)
    ensures |payload| <= limit ==> ReadOne(Frame(payload) + rest, limit) == Read(Ok(payload), 4 + |payload|)
    ensures |payload| > limit ==> ReadOne(Frame(payload) + rest, limit) == Read(Err(FrameTooLarge), 4)
    ensures (Frame(payload) + rest)[4 + |payload|..] == rest
  {
    var stream := Frame(payload) + rest;
    assert stream[..4] == PutUint32(|payload|);
    LengthRoundTrip(|payload|);
    assert stream[4..4 + |payload|] == payload;
  }

  /** A frame cut anywhere inside gives an error, never a payload. */
  lemma CutFrameFails(payload: Payload, k: nat, limit: nat)
    requires Writable(payload) && |payload| <= limit && k < |Frame(payload)|
    ensures ReadOne(Frame(payload)[..k], limit) ==
      Read(Err(if k < 4 then HeaderError(if k == 0 then Eof else UnexpectedEof)
               else PayloadError(if k == 4 then Eof else UnexpectedEof)), k)
  {
    var stream := Frame(payload)[..k];
    if k >= 4 {
      assert stream[..4] == PutUint32(|payload|);
      LengthRoundTrip(|payload|);
    }
  }

  /** How many whole frames fit in the first `k` bytes. */
  function WholeFrames(payloads: seq<Payload>, k: nat): (n: nat)
    ensures n <= |payloads|
  {
    if payloads == [] || k < 4 + |payloads[0]| then 0 else 1 + WholeFrames(payloads[1..], k - 4 - |payloads[0]|)
  }

  /** The whole frames end at or before `k`, and the next one, if any, does not. */
  lemma {:induction false} WholeFramesFit(payloads: seq<Payload>, k: nat)
    requires forall p :: p in payloads ==> Writable(p)
    ensures var n := WholeFrames(payloads, k);
      |Stream(payloads[..n])| <= k && (n < |payloads| ==> k < |Stream(payloads[..n + 1])|)
  {
    var n := WholeFrames(payloads, k);
    if n == 0 {
      if payloads != [] {
        assert payloads[..1][1..] == [];
      }
    } else {
      WholeFramesFit(payloads[1..], k - 4 - |payloads[0]|);
      assert payloads[..n][1..] == payloads[1..][..n - 1];
      if n < |payloads| {
        assert payloads[..n + 1][1..] == payloads[1..][..n];
      }
    }
  }

  predicate AllReadable(payloads: seq<Payload>, limit: nat) {
    forall p :: p in payloads ==> Writable(p) && |p| <= limit
  }

  /** What reading the first `k` bytes must give: the whole frames in them, and an error that tells a clean end. */
  predicate CutReads(payloads: seq<Payload>, k: nat, limit: nat)
    requires AllReadable(payloads, limit) && k <= |Stream(payloads)|
  {
    var n := WholeFrames(payloads, k);
    var (read, error) := ReadAll(Stream(payloads)[..k], limit);
    read == payloads[..n] && (error == HeaderError(Eof) <==> k == |Stream(payloads[..n])|) && error != FrameTooLarge
  }

  lemma CutInFirstFrame(payloads: seq<Payload>, k: nat, limit: nat)
    requires AllReadable(payloads, limit) && k <= |Stream(payloads)|
    requires payloads != [] ==> k < 4 + |payloads[0]|
    ensures CutReads(payloads, k, limit)
  {
    if payloads != [] {
      assert Stream(payloads)[..k] == Frame(payloads[0])[..k];
      CutFrameFails(payloads[0], k, limit);
    }
  }

  lemma CutAfterFirstFrame(payloads: seq<Payload>, k: nat, limit: nat)
    requires AllReadable(payloads, limit) && payloads != [] && 4 + |payloads[0]| <= k <= |Stream(payloads)|
    ensures var size := 4 + |payloads[0]|;
      var n, m := WholeFrames(payloads, k), WholeFrames(payloads[1..], k - size);
      && n == m + 1
      && payloads[..n] == [payloads[0]] + payloads[1..][..m]
      && |Stream(payloads[..n])| == size + |Stream(payloads[1..][..m])|
  {
    var n := WholeFrames(payloads, k);
    var first := payloads[..n];
    assert first[0] == payloads[0] && first[1..] == payloads[1..][..n - 1];
    assert Stream(first) == Frame(first[0]) + Stream(first[1..]);
  }

  lemma ReadsAfterFirstFrame(payloads: seq<Payload>, k: nat, limit: nat)
    requires AllReadable(payloads, limit) && payloads != [] && 4 + |payloads[0]| <= k <= |Stream(payloads)|
    ensures var rest := ReadAll(Stream(payloads[1..])[..k - 4 - |payloads[0]|], limit);
      ReadAll(Stream(payloads)[..k], limit) == ([payloads[0]] + rest.0, rest.1)
  {
    var p := payloads[0];
    var cut := Stream(payloads[1..])[..k - 4 - |p|];
    assert Stream(payloads)[..k] == Frame(p) + cut;
    FrameReadsBack(p, cut, limit);
    ReadOnAfter(Stream(payloads)[..k], limit, p, cut);
  }

  lemma CutLater(payloads: seq<Payload>, k: nat, limit: nat)
    requires AllReadable(payloads, limit) && payloads != [] && 4 + |payloads[0]| <= k <= |Stream(payloads)|
    requires CutReads(payloads[1..], k - 4 - |payloads[0]|, limit)
    ensures CutReads(payloads, k, limit)
  {
    CutAfterFirstFrame(payloads, k, limit);
    ReadsAfterFirstFrame(payloads, k, limit);
  }

  /**
   Reading a stream cut after any `k` bytes returns exactly the whole frames in it, in order, and then an error:
   the end-of-stream error of a clean close exactly when the cut falls between two frames.
   */
  lemma {:induction false} CutStreamReadsWholeFrames(payloads: seq<Payload>, k: nat, limit: nat)
    requires AllReadable(payloads, limit) && k <= |Stream(payloads)|
    ensures CutReads(payloads, k, limit)
  {
    if payloads == [] || k < 4 + |payloads[0]| {
      CutInFirstFrame(payloads, k, limit);
    } else {
      CutStreamReadsWholeFrames(payloads[1..], k - 4 - |payloads[0]|, limit);
      CutLater(payloads, k, limit);
    }
  }

  lemma ReadOnAfter(stream: seq<byte>, limit: nat, p: Payload, rest: seq<byte>)
    requires ReadOne(stream, limit) == Read(Ok(p), 4 + |p|) && stream[4 + |p|..] == rest
    ensures ReadAll(stream, limit) == ([p] + ReadAll(rest, limit).0, ReadAll(rest, limit).1)
  {
  }

  /** An unbroken stream gives back every payload, up to the first one the reader's limit refuses. */
  lemma {:induction false} StreamReadsBack(payloads: seq<Payload>, n: nat, limit: nat)
    requires forall p :: p in payloads ==> Writable(p)
    requires n <= |payloads| && (forall p :: p in payloads[..n] ==> |p| <= limit)
    requires n < |payloads| ==> |payloads[n]| > limit
    ensures ReadAll(Stream(payloads), limit) ==
      (payloads[..n], if n < |payloads| then FrameTooLarge else HeaderError(Eof))
  {
    if payloads != [] {
      FrameReadsBack(payloads[0], Stream(payloads[1..]), limit);
      if n > 0 {
        assert payloads[..n] == [payloads[0]] + payloads[1..][..n - 1];
        ReadOnAfter(Stream(payloads), limit, payloads[0], Stream(payloads[1..]));
        StreamReadsBack(payloads[1..], n - 1, limit);
      }
    }
  }

  lemma FirstIsThere(stream: seq<byte>, limit: nat) returns (p: Payload, rest: seq<byte>)
    requires limit <= MAX_FRAME_SIZE && ReadOne(stream, limit).result.Ok?
    ensures |p| <= limit && stream == Frame(p) + rest
    ensures ReadAll(stream, limit) == ([p] + ReadAll(rest, limit).0, ReadAll(rest, limit).1)
  {
    var r := ReadOne(stream, limit);
    p, rest := r.result.value, stream[r.taken..];
    HeaderRoundTrip(stream[..4]);
  }

  /** Whatever is read, its frames are what the stream began with: a reader never makes up a payload. */
  lemma {:induction false} ReadIsThere(stream: seq<byte>, limit: nat)
    requires limit <= MAX_FRAME_SIZE
    ensures var read := ReadAll(stream, limit).0; (forall p :: p in read ==> |p| <= limit) && Stream(read) <= stream
    decreases |stream|
  {
    if ReadOne(stream, limit).result.Ok? {
      var p, rest := FirstIsThere(stream, limit);
      ReadIsThere(rest, limit);
      var read := ReadAll(rest, limit).0;
      assert ([p] + read)[1..] == read;
    }
  }

  /** Two different lists of payloads never look the same on the wire. */
  lemma FramingIsInjective(ps: seq<Payload>, qs: seq<Payload>)
    requires forall p :: p in ps ==> Writable(p)
    requires forall q :: q in qs ==> Writable(q)
    requires Stream(ps) == Stream(qs)
    ensures ps == qs
  {
    assert ps[..|ps|] == ps && qs[..|qs|] == qs;
    StreamReadsBack(ps, |ps|, MAX_FRAME_SIZE);
    StreamReadsBack(qs, |qs|, MAX_FRAME_SIZE);
  }

  // ----- The writer and the reader in place ------------------------------------------------

  /** A writer that takes `room` more bytes and then breaks. */
  class Writer {
    var written: seq<byte>
    var room: nat

    constructor (room: nat)
      ensures written == [] && this.room == room
    {
      written, this.room := [], room;
    }

    method Write(bytes: seq<byte>) returns (ok: bool)
      modifies this
      ensures ok <==> |bytes| <= old(room)
      ensures written == old(written) + bytes[..Min(|bytes|, old(room))]
      ensures room == old(room) - Min(|bytes|, old(room))
    {
      ok := |bytes| <= room;
      var count := Min(|bytes|, room);
      written, room := written + bytes[..count], room - count;
    }

    /** All of the frame is written, or an error says that only a first part of it was. */
    method WriteFrame(payload: Payload) returns (r: Result<nat, WriteError>)
      modifies this
      ensures r == (if !Writable(payload) then Err(TooLargeToWrite)
                    else if |Frame(payload)| <= old(room) then Ok(|Frame(payload)|) else Err(BrokenWriter))
      ensures written ==
        old(written) + if Writable(payload) then Frame(payload)[..Min(|Frame(payload)|, old(room))] else []
    {
      if |payload| > MAX_FRAME_SIZE {
        return Err(TooLargeToWrite);
      }
      var header := PutUint32(|payload|);
      var ok := Write(header);
      if !ok {
        return Err(BrokenWriter);
      }
      if |payload| == 0 {
        return Ok(4);
      }
      ok := Write(payload);
      if !ok {
        return Err(BrokenWriter);
      }
      return Ok(4 + |payload|);
    }
  }

  /** A reader over the bytes that are still to come before the stream ends. */
  class Reader {
    var stream: seq<byte>

    constructor (stream: seq<byte>)
      ensures this.stream == stream
    {
      this.stream := stream;
    }

    /** Some of what was asked for, at least one byte unless the stream is over. */
    method Read(count: nat) returns (bytes: seq<byte>)
      requires count > 0
      modifies this
      ensures old(stream) == bytes + stream && |bytes| <= count
      ensures bytes == [] <==> old(stream) == []
    {
      var most := Min(count, |stream|);
      var some: nat :| some <= most && (some == 0 <==> most == 0);
      bytes := stream[..some];
      stream := stream[some..];
    }

    /** `io.ReadFull`: as many reads as it takes. */
    method ReadFull(count: nat) returns (r: Result<seq<byte>, Cause>)
      modifies this
      ensures count <= |old(stream)| ==> r == Ok(old(stream)[..count]) && stream == old(stream)[count..]
      ensures count > |old(stream)| ==> r == Err(if old(stream) == [] then Eof else UnexpectedEof) && stream == []
    {
      var buffer := [];
      while |buffer| < count
        invariant |buffer| <= count && old(stream) == buffer + stream
      {
        var more := Read(count - |buffer|);
        if more == [] {
          return Err(if buffer == [] then Eof else UnexpectedEof);
        }
        buffer := buffer + more;
      }
      return Ok(buffer);
    }

    method ReadFrameWithLimit(maxSize: nat) returns (r: Result<Payload, ReadError>)
      modifies this
      ensures r == ReadOne(old(stream), maxSize).result
      ensures stream == old(stream)[ReadOne(old(stream), maxSize).taken..]
    {
      var header := ReadFull(4);
      if header.Err? {
        return Err(HeaderError(header.error));
      }
      var length := Uint32(header.value);
      if length > maxSize {
        return Err(FrameTooLarge);
      }
      if length == 0 {
        assert old(stream)[4..4] == [];
        return Ok([]);
      }
      var payload := ReadFull(length);
      if payload.Err? {
        return Err(PayloadError(payload.error));
      }
      assert old(stream)[4..][..length] == old(stream)[4..4 + length];
      return Ok(payload.value);
    }
  }
}
