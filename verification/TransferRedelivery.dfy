/**
 What happens to a transfer that was delivered while its sender did not hear of it: the guarantee of
 TransferSafety ends with the first inbound transfer, and this module shows that it has to.
 */
module TransferRedelivery {
  import opened Common
  import opened Chunks
  import opened TransferState
  import opened TransferProtocol
  import opened TransferRuns
  import opened TransferSafety

  // ----- When a redelivery passes ----------------------------------------------------------

  /** The receiver after chunks i, i + 1, ... have all reached it. */
  function Received(p: Params, r: Receiver, i: nat): Receiver
    requires p.Valid()
    decreases p.Total() - i
  {
    if i >= p.Total() then r else Received(p, OnData(p, r, i, p.ChunkBytes(i), NoFault).state, i + 1)
  }

  /**
   Between two chunks: a row, a record of the file, and a temp file that has the source's bytes from `start` to chunk i.
   */
  ghost predicate Receiving(p: Params, r: Receiver, was: seq<byte>, start: nat, i: nat)
    requires p.Valid()
  {
    && r.inb.Some? && r.inb.value.file == p.Info() && !r.status.Unknown?
    && r.temp.Some? && |r.temp.value| == |p.source| == |was|
    && (forall k :: 0 <= k < |was| ==>
      r.temp.value[k] == if start * p.chunkSize <= k < i * p.chunkSize then p.source[k] else was[k])
  }

  lemma ChunkReceived(p: Params, r: Receiver, was: seq<byte>, start: nat, i: nat)
    requires p.Valid() && Receiving(p, r, was, start, i) && start <= i < p.Total()
    ensures Receiving(p, OnData(p, r, i, p.ChunkBytes(i), NoFault).state, was, start, i + 1)
  {
    ChunkBytesLength(p, i);
    ChunkBounds(i, p.chunkSize, |p.source|);
    MulMonotone(start, i, p.chunkSize);
    assert (i + 1) * p.chunkSize == i * p.chunkSize + p.chunkSize;
    var temp := WriteAt(r.temp.value, i * p.chunkSize, p.ChunkBytes(i));
    var lo, hi := Lo(i, p.chunkSize), Hi(i, p.chunkSize, |p.source|);
    forall k | 0 <= k < |was|
      ensures temp[k] == if start * p.chunkSize <= k < (i + 1) * p.chunkSize then p.source[k] else was[k]
    {
      if lo <= k < hi { assert p.ChunkBytes(i)[k - lo] == p.source[k]; }
    }
  }

  lemma {:induction false} AllReceived(p: Params, r: Receiver, was: seq<byte>, start: nat, i: nat)
    requires p.Valid() && Receiving(p, r, was, start, i) && start <= i <= p.Total()
    ensures Receiving(p, Received(p, r, i), was, start, p.Total())
    decreases p.Total() - i
  {
    if i < p.Total() {
      ChunkReceived(p, r, was, start, i);
      AllReceived(p, OnData(p, r, i, p.ChunkBytes(i), NoFault).state, was, start, i + 1);
    }
  }

  lemma BytesOfAllChunks(p: Params)
    requires p.Valid()
    ensures p.Total() * p.chunkSize >= |p.source|
  {
    ChunkExists(p.Total(), p.chunkSize, |p.source|);
  }

  /**
   A sender that starts again at chunk n requests a file that the receiver no longer has in memory. It is accepted
   over whatever the temp file still holds, and with every chunk from n on received the check passes exactly when the
   temp file already had the source's bytes below chunk n.
   */
  lemma RedeliveryPassesIff(p: Params, s: Sender, r: Receiver, n: nat, known: int)
    requires p.Valid() && s.out.Some? && s.phase.AwaitAccept?
    requires n == s.out.value.next <= p.Total()
    requires r.inb.None? && !r.status.Canceled?
    ensures var answer := OnRequest(p, r, true, known);
      && answer.sends == [Accept(0, known)]
      && OnAccepted(p, s, 0).sends == (if n < p.Total() then [Data(n, p.ChunkBytes(n))] else [SenderClose(true, false)])
      && var closed := OnSenderClose(p, Received(p, answer.state, n), true, false, true);
         var was := Truncate(TempContent(r), |p.source|);
         (closed.state.status.Complete? <==>
          forall k :: 0 <= k < n * p.chunkSize && k < |p.source| ==> was[k] == p.source[k])
  {
    var answer := OnRequest(p, r, true, known).state;
    var was := Truncate(TempContent(r), |p.source|);
    AnswerStartsAnew(p, s, r, n, known);
    AllReceived(p, answer, was, n, n);
    PassesIff(p, Received(p, answer, n), was, n);
  }

  /** The answer to the request, and what the sender does with it. */
  lemma AnswerStartsAnew(p: Params, s: Sender, r: Receiver, n: nat, known: int)
    requires p.Valid() && s.out.Some? && n == s.out.value.next <= p.Total()
    requires r.inb.None? && !r.status.Canceled?
    ensures var answer := OnRequest(p, r, true, known);
      && answer.sends == [Accept(0, known)]
      && Receiving(p, answer.state, Truncate(TempContent(r), |p.source|), n, n)
    ensures OnAccepted(p, s, 0).sends ==
      if n < p.Total() then [Data(n, p.ChunkBytes(n))] else [SenderClose(true, false)]
  {
  }

  /** The check, once every chunk from n on is there. */
  lemma PassesIff(p: Params, end: Receiver, was: seq<byte>, n: nat)
    requires p.Valid() && Receiving(p, end, was, n, p.Total())
    ensures OnSenderClose(p, end, true, false, true).state.status.Complete? <==>
      forall k :: 0 <= k < n * p.chunkSize && k < |p.source| ==> was[k] == p.source[k]
  {
    BytesOfAllChunks(p);
    if forall k :: 0 <= k < n * p.chunkSize && k < |p.source| ==> was[k] == p.source[k] {
      assert end.temp.value == p.source;
    } else {
      var k :| 0 <= k < n * p.chunkSize && k < |p.source| && was[k] != p.source[k];
      assert end.temp.value[k] == was[k];
    }
  }

  /** After a delivery the temp file is gone, so the check passes exactly when those bytes are all zero. */
  lemma RedeliveryPassesOnlyForZeros(p: Params, s: Sender, r: Receiver, n: nat, known: int)
    requires p.Valid() && s.out.Some? && s.phase.AwaitAccept?
    requires n == s.out.value.next <= p.Total()
    requires r.inb.None? && r.temp.None? && !r.status.Canceled?
    ensures var closed := OnSenderClose(p, Received(p, OnRequest(p, r, true, known).state, n), true, false, true);
      closed.state.status.Complete? <==> forall k :: 0 <= k < n * p.chunkSize && k < |p.source| ==> p.source[k] == 0
  {
    RedeliveryPassesIff(p, s, r, n, known);
    var was := Truncate(TempContent(r), |p.source|);
    assert forall k :: 0 <= k < |p.source| ==> was[k] == 0;
  }

  // ----- A run ------------------------------------------------------------------------------

  /** One byte, delivered; the receiver's answer is lost, the sender times out and asks again. */
  const LOST_ANSWER: seq<Label> := [
    BeginRun,
    ToReceiver(FileRequest(0), true, NoFault, true),
    ToSender(Accept(0, 0)),
    ToReceiver(Data(0, [7]), true, NoFault, true),
    ToSender(Ack(0)),
    ToReceiver(SenderClose(true, false), true, NoFault, true),
    TimerFires,
    BeginRun,
    ToReceiver(FileRequest(1), true, NoFault, true),
    ToSender(Accept(0, 1)),
    ToReceiver(SenderClose(true, false), true, NoFault, true),
    ToSender(ReceiverClose(false, false))]

  /** The run up to the acknowledgement. */
  lemma UntilAcknowledged() returns (states: seq<System>, steps: seq<Label>)
    ensures Run(ONE_BYTE, states, steps) && steps == LOST_ANSWER[..5]
    ensures var sys := states[5];
      && sys.s == Sender(Some(Outbound(1, 1, 0, 0, true, false, false, false)), AwaitComplete,
                         Some(Checkpoint(0, 0)), Accepted)
      && sys.r == Receiver(Some(Inbound(ONE_BYTE.Info(), {0}, 1, 1, 0, 0)), Some(Checkpoint(0, 0)),
                           Some(ONE_BYTE.Info()), None, Accepted, Some([7]), None)
      && sys.known == 1 && SenderClose(true, false) in sys.net
  {
    OneByteFacts();
    states, steps := [INITIAL], [];
    states, steps := Begins(ONE_BYTE, states, steps);
    states, steps := Accepts(ONE_BYTE, states, steps, 0);
    states, steps := Resumes(ONE_BYTE, states, steps, 0, 0, 0);
    states, steps := TakesFirstChunk(ONE_BYTE, states, steps, [7]);
    states, steps := Advances(ONE_BYTE, states, steps, 0);
  }

  /** The run up to the request that is made again. */
  lemma UntilAskedAgain() returns (states: seq<System>, steps: seq<Label>)
    ensures Run(ONE_BYTE, states, steps) && steps == LOST_ANSWER[..8]
    ensures var sys := states[8];
      && sys.s == Sender(Some(Outbound(1, 1, 0, 0, true, false, false, false)), AwaitAccept,
                         Some(Checkpoint(0, 0)), Pending)
      && sys.r == Receiver(None, None, Some(ONE_BYTE.Info()), None, Complete, None, Some([7]))
      && sys.known == 1 && FileRequest(1) in sys.net && SenderClose(true, false) in sys.net
  {
    OneByteFacts();
    states, steps := UntilAcknowledged();
    states, steps := Checks(ONE_BYTE, states, steps);
    states, steps := TimesOut(ONE_BYTE, states, steps);
    states, steps := Begins(ONE_BYTE, states, steps);
  }

  /** A run in which both sides end up recording "failed" for a file that is in place with the source's bytes. */
  lemma DeliveredFileMarkedFailed() returns (states: seq<System>)
    ensures Run(ONE_BYTE, states, LOST_ANSWER)
    ensures var sys := states[12];
      sys.s.status.Failed? && sys.r.status.Failed? && sys.r.final == Some(ONE_BYTE.source)
  {
    OneByteFacts();
    var steps;
    states, steps := UntilAskedAgain();
    states, steps := Accepts(ONE_BYTE, states, steps, 1);
    states, steps := Resumes(ONE_BYTE, states, steps, 0, 1, 1);
    states, steps := Checks(ONE_BYTE, states, steps);
    states, steps := HearsOfFailure(ONE_BYTE, states, steps);
    assert steps == LOST_ANSWER;
  }
}
