/**
 The two transfer objects that the managers keep (`outboundFileTransfer` and `inboundFileTransfer` in
 network/file_transfer.go), updated in place. Each method is proved against the step of TransferState
 that it performs, so that what TransferSafety and TransferProgress prove is about these methods.
 */
module TransferNodes {
  import opened Common
  import opened Chunks
  import opened TransferState
  import opened TransferSafety

  // ----- Sender ---------------------------------------------------------------------------

  /** Continue a step that has just been made with the remaining events. */
  function PlayFrom(p: Params, step: SenderStep, events: seq<Event>): SenderStep
    requires p.Valid() && step.state.out.Some?
    decreases |events|, 1
  {
    var rest := Play(p, step.state, events);
    SenderStep(rest.state, step.sends + rest.sends)
  }

  /** A whole run: one event after the other until it ends; a run that gets no further event is stopped. */
  function Play(p: Params, s: Sender, events: seq<Event>): (step: SenderStep)
    requires p.Valid() && s.out.Some?
    ensures step.state.out.Some?
    decreases |events|, 0
  {
    if s.phase.Idle? then SenderStep(s, [])
    else if events == [] then OnEvent(p, s, Stop)
    else PlayFrom(p, OnEvent(p, s, events[0]), events[1..])
  }

  /** Sending `sent` and then making a step. */
  function After(sent: seq<Msg>, step: SenderStep): SenderStep {
    SenderStep(step.state, sent + step.sends)
  }

  /** Sending one message and then being woken by `e`. */
  lemma SendThenWake(p: Params, s: Sender, sent: seq<Msg>, m: Msg, e: Event, events: seq<Event>, rest: seq<Event>)
    requires p.Valid() && s.out.Some?
    requires Play(p, s, events) == PlayFrom(p, OnEvent(p, s, e), rest)
    ensures After(sent, PlayFrom(p, SenderStep(s, [m]), events)) ==
      After(sent + [m], PlayFrom(p, OnEvent(p, s, e), rest))
  {
  }

  /** A run that waits for the acknowledgement of chunk i, woken by `e`. */
  lemma ChunkWoken(p: Params, s: Sender, i: nat, attempt: nat, sentBytes: int, e: Event, rest: seq<Event>)
    requires p.Valid() && s.out.Some? && s.phase == AwaitAck(i, attempt, sentBytes) && Matches(s.phase, e)
    ensures var woken := PlayFrom(p, OnEvent(p, s, e), rest);
      if e.Stop? then woken == SenderStep(EndRun(s), [])
      else if e.Reply? && e.msg.Reject? then woken == SenderStep(OnRejected(s, e.msg.byCancel), [])
      else if e.Reply? && e.msg.Ack? then woken == PlayFrom(p, OnDelivered(p, s, i, sentBytes), rest)
      else if attempt + 1 < p.maxRetries then
        woken == PlayFrom(p, SenderStep(s.(phase := AwaitAck(i, attempt + 1, sentBytes)), [Data(i, p.ChunkBytes(i))]),
                          rest)
      else woken == SenderStep(EndRun(s), [])
  {
  }

  lemma AfterAfter(sent: seq<Msg>, more: seq<Msg>, step: SenderStep)
    ensures After(sent + more, step) == After(sent, After(more, step))
  {
  }

  class OutboundTransfer {
    const p: Params
    var nextChunk: int
    var bytesSent: int
    var checkpointChunk: int
    var checkpointBytes: int
    var running: bool
    var done: bool
    var rejected: bool
    var canceled: bool
    // The rows of this transfer in the store.
    var stored: Option<Checkpoint>
    var status: Status

    ghost function Object(): Outbound
      reads this
    {
      Outbound(nextChunk, bytesSent, checkpointChunk, checkpointBytes, running, done, rejected, canceled)
    }

    ghost function View(phase: Phase): Sender
      reads this
    {
      Sender(Some(Object()), phase, stored, status)
    }

    constructor (p: Params)
      ensures this.p == p && View(Idle) == Sender(Some(FRESH_OUTBOUND), Idle, None, Pending)
    {
      this.p := p;
      nextChunk, bytesSent, checkpointChunk, checkpointBytes := 0, 0, 0, 0;
      running, done, rejected, canceled := false, false, false, false;
      stored, status := None, Pending;
    }

    /** Rebuilds the object from the checkpoint row when the process starts. */
    constructor Restore(p: Params, checkpoint: Checkpoint, status: Status)
      requires !Terminal(status)
      ensures this.p == p
      ensures forall before: Sender | before.ck == Some(checkpoint) && before.status == status ::
        View(Idle) == RestartSender(p, before)
    {
      this.p := p;
      nextChunk := Min(Max(checkpoint.next, 0), p.Total());
      bytesSent := Min(Max(checkpoint.bytes, 0), |p.source|);
      checkpointChunk, checkpointBytes := nextChunk, bytesSent;
      running, done, rejected, canceled := false, false, false, false;
      stored, this.status := Some(checkpoint), status;
    }

    method MaybePersistCheckpoint(force: bool)
      modifies this
      ensures (Object(), stored) == PersistOutbound(old(Object()), old(stored), force)
      ensures status == old(status)
    {
      if !force && nextChunk - checkpointChunk < OUTBOUND_CHUNK_INTERVAL
               && bytesSent - checkpointBytes < OUTBOUND_BYTE_INTERVAL {
        return;
      }
      checkpointChunk, checkpointBytes := nextChunk, bytesSent;
      stored := Some(Checkpoint(nextChunk, bytesSent));
    }

    /** Waits in state `s` for the next event that is not discarded. */
    method Await(ghost s: Sender, phase: Phase, events: seq<Event>, from: nat) returns (e: Event, k: nat)
      requires p.Valid() && s.out.Some? && s.phase == phase && !phase.Idle? && from <= |events|
      ensures from <= k <= |events| && Matches(phase, e)
      ensures Play(p, s, events[from..]) == PlayFrom(p, OnEvent(p, s, e), events[k..])
    {
      k := from;
      while k < |events|
        invariant from <= k <= |events|
        invariant Play(p, s, events[from..]) == Play(p, s, events[k..])
      {
        e, k := events[k], k + 1;
        assert events[k - 1..][1..] == events[k..];
        if Matches(phase, e) {
          return;
        }
      }
      e := Stop;
    }

    method RecordRejection(byCancel: bool)
      modifies this
      ensures forall phase :: EndRun(View(phase)) == OnRejected(old(View(phase)), byCancel)
    {
      rejected := true;
      status := Rejected;
      if byCancel {
        status := Canceled;
        canceled := true;
      }
      stored := None;
    }

    method RecordCompletion(ok: bool, byCancel: bool)
      modifies this
      ensures forall phase :: EndRun(View(phase)) == OnClosed(old(View(phase)), ok, byCancel)
    {
      done := true;
      if ok {
        running := false;
        status := Complete;
      } else {
        status := Failed;
        if byCancel {
          canceled := true;
          status := Canceled;
        }
      }
      stored := None;
    }

    /**
     Sends chunk i until it is acknowledged, the transfer is rejected, the run is stopped or the attempts are used
     up.
     */
    method DeliverChunk(i: nat, sentBytes: int, events: seq<Event>, from: nat)
      returns (sent: seq<Msg>, delivered: bool, k: nat)
      requires p.Valid() && from <= |events|
      modifies this
      ensures from <= k <= |events|
      ensures delivered ==> View(Idle) == old(View(Idle))
      ensures var all := PlayFrom(p, SenderStep(old(View(AwaitAck(i, 0, sentBytes))), [Data(i, p.ChunkBytes(i))]),
                                  events[from..]);
        if delivered then
          all == After(sent, PlayFrom(p, OnDelivered(p, View(AwaitAck(i, 0, sentBytes)), i, sentBytes), events[k..]))
        else
          all == SenderStep(EndRun(View(Idle)), sent)
    {
      ghost var before := View(Idle);
      ghost var all := PlayFrom(p, SenderStep(View(AwaitAck(i, 0, sentBytes)), [Data(i, p.ChunkBytes(i))]),
                                events[from..]);
      sent, delivered, k := [], false, from;
      var attempt := 0;
      while attempt < p.maxRetries
        invariant 0 <= attempt <= p.maxRetries && from <= k <= |events| && !delivered && View(Idle) == before
        invariant all ==
          if attempt < p.maxRetries then
            After(sent, PlayFrom(p, SenderStep(View(AwaitAck(i, attempt, sentBytes)), [Data(i, p.ChunkBytes(i))]),
                                 events[k..]))
          else
            SenderStep(EndRun(View(Idle)), sent)
      {
        ghost var waiting := View(AwaitAck(i, attempt, sentBytes));
        var e, next := Await(waiting, AwaitAck(i, attempt, sentBytes), events, k);
        SendThenWake(p, waiting, sent, Data(i, p.ChunkBytes(i)), e, events[k..], events[next..]);
        ChunkWoken(p, waiting, i, attempt, sentBytes, e, events[next..]);
        sent, k := sent + [Data(i, p.ChunkBytes(i))], next;
        if e.Stop? {
          return;
        }
        if e.Reply? && e.msg.Reject? {
          RecordRejection(e.msg.byCancel);
          return;
        }
        if e.Reply? && e.msg.Ack? {
          delivered := true;
          return;
        }
        attempt := attempt + 1;
      }
    }

    /** Takes the receiver's answer: the run starts at the later of the two resume points. */
    method ResumeFrom(resume: int) returns (startChunk: nat, sentBytes: int)
      requires p.Valid()
      modifies this
      ensures forall phase :: OnAccepted(p, old(View(phase)), resume) == SendFrom(p, View(phase), startChunk, sentBytes)
    {
      status := Accepted;
      var start := resume;
      if start < 0 {
        start := 0;
      }
      if start > p.Total() {
        start := p.Total();
      }
      if nextChunk > start {
        start := nextChunk;
      }
      nextChunk := start;
      sentBytes := bytesSent;
      var minBytes := start * p.chunkSize;
      if minBytes > |p.source| {
        minBytes := |p.source|;
      }
      if sentBytes < minBytes {
        sentBytes := minBytes;
        bytesSent := sentBytes;
      }
      MaybePersistCheckpoint(true);
      startChunk := start;
    }

    /** The bookkeeping of an acknowledged chunk. */
    method CountDelivered(i: nat, sentBytes: int) returns (sentBytes': int)
      requires p.Valid()
      modifies this
      ensures OnDelivered(p, old(View(AwaitAck(i, 0, sentBytes))), i, sentBytes) ==
        SendFrom(p, View(Idle), i + 1, sentBytes')
    {
      sentBytes' := sentBytes + |p.ChunkBytes(i)|;
      nextChunk, bytesSent := i + 1, sentBytes';
      MaybePersistCheckpoint(false);
    }

    /** The chunk loop, from the start chunk to the last one. */
    method SendChunks(startChunk: nat, startBytes: int, events: seq<Event>, from: nat)
      returns (sent: seq<Msg>, finished: bool, k: nat)
      requires p.Valid() && from <= |events|
      modifies this
      ensures from <= k <= |events|
      ensures var all := PlayFrom(p, SendFrom(p, old(View(Idle)), startChunk, startBytes), events[from..]);
        if finished then
          all == After(sent, PlayFrom(p, SenderStep(View(AwaitComplete), [SenderClose(true, false)]), events[k..]))
        else
          all == SenderStep(EndRun(View(Idle)), sent)
    {
      ghost var all := PlayFrom(p, SendFrom(p, View(Idle), startChunk, startBytes), events[from..]);
      var sentBytes := startBytes;
      sent, k := [], from;
      var i := startChunk;
      while i < p.Total()
        invariant 0 <= i && from <= k <= |events|
        invariant all == After(sent, PlayFrom(p, SendFrom(p, View(Idle), i, sentBytes), events[k..]))
      {
        var more, delivered;
        more, delivered, k := DeliverChunk(i, sentBytes, events, k);
        ghost var sentBefore := sent;
        sent := sent + more;
        if !delivered {
          return sent, false, k;
        }
        AfterAfter(sentBefore, more,
                   PlayFrom(p, OnDelivered(p, View(AwaitAck(i, 0, sentBytes)), i, sentBytes), events[k..]));
        sentBytes := CountDelivered(i, sentBytes);
        i := i + 1;
      }
      finished := true;
    }

    /** One run of the transfer over a connection, up to the block that ends it. */
    method RunOutbound(known: int, events: seq<Event>) returns (sent: seq<Msg>)
      requires p.Valid()
      modifies this
      ensures var all := Play(p, old(View(AwaitAccept)), events);
        EndRun(View(Idle)) == all.state && sent == [FileRequest(known)] + all.sends
    {
      sent := [FileRequest(known)];
      assert events[0..] == events;
      var e, k := Await(View(AwaitAccept), AwaitAccept, events, 0);
      if e.Stop? {
        return;
      }
      if e.msg.Reject? {
        RecordRejection(e.msg.byCancel);
        return;
      }
      var startChunk, sentBytes := ResumeFrom(e.msg.resume);
      var more, finished;
      more, finished, k := SendChunks(startChunk, sentBytes, events, k);
      sent := sent + more;
      if !finished {
        return;
      }
      e, k := Await(View(AwaitComplete), AwaitComplete, events, k);
      sent := sent + [SenderClose(true, false)];
      if e.Reply? {
        RecordCompletion(e.msg.ok, e.msg.byCancel);
      }
    }

    /** The block after a run: the run is over, and a transfer that is not done is pending again. */
    method FinishRun()
      modifies this
      ensures View(Idle) == EndRun(old(View(Idle)))
    {
      running := false;
      if !done && !rejected && !canceled {
        status := Pending;
      } else if canceled {
        status := Canceled;
        stored := None;
      }
    }

    /** Starts a run where one can start, and sees it through. */
    method Start(known: int, events: seq<Event>) returns (sent: seq<Msg>)
      requires p.Valid()
      modifies this
      ensures var begun := Begin(old(View(Idle)), known);
        if begun.sends == [] then
          sent == [] && View(Idle) == old(View(Idle))
        else
          var all := Play(p, begun.state, events);
          View(Idle) == all.state && sent == begun.sends + all.sends
    {
      if running || done || rejected || canceled {
        return [];
      }
      running := true;
      sent := RunOutbound(known, events);
      FinishRun();
    }

    /** `CancelTransfer`, with the run, if there is one, waiting in `phase`. */
    method Cancel(ghost phase: Phase) returns (sent: seq<Msg>)
      modifies this
      ensures SenderStep(View(phase), sent) == CancelOutbound(old(View(phase)))
    {
      sent := [];
      if done || rejected || canceled {
        return;
      }
      canceled := true;
      if running {
        return [SenderClose(false, true)];
      }
      done := true;
      status := Canceled;
      stored := None;
    }

    /** `RetryTransfer`; a running transfer is refused. */
    method Retry() returns (accepted: bool)
      modifies this
      ensures accepted == !old(running)
      ensures accepted ==> View(Idle) == TransferState.Retry(old(View(Idle)))
      ensures !accepted ==> View(Idle) == old(View(Idle))
    {
      if running {
        return false;
      }
      done, rejected, canceled := false, false, false;
      nextChunk, bytesSent, checkpointChunk, checkpointBytes := 0, 0, 0, 0;
      stored := None;
      status := Pending;
      return true;
    }

    /** A completion that arrives while no run is waiting for it. */
    method LateClose(ok: bool, byCancel: bool)
      modifies this
      ensures View(Idle) == OnLateClose(p, old(View(Idle)), ok, byCancel)
    {
      if !ok {
        if byCancel {
          status := Canceled;
        }
      } else if bytesSent == |p.source| && !done {
        done, running := true, false;
        status := Complete;
        stored := None;
      }
    }
  }

  // ----- Receiver -------------------------------------------------------------------------

  /** A file's row at the receiver: its status, which is Unknown while there is no row, and what it says of the file. */
  class FileRow {
    var info: Option<FileInfo>
    var status: Status

    ghost predicate Valid()
      reads this
    {
      info.None? <==> status.Unknown?
    }

    constructor ()
      ensures Valid() && info.None?
    {
      info, status := None, Unknown;
    }

    /** `upsertFileMetadata`: inserts, and takes a uniqueness error for success. */
    method UpsertFileMetadata(row: FileInfo, initial: Status)
      requires Valid() && !initial.Unknown?
      modifies this
      ensures Valid() && info == Inserted(old(info), row)
      ensures status == if old(info).Some? then old(status) else initial
    {
      if info.None? {
        info, status := Some(row), initial;
      }
    }

    method UpdateTransferStatus(next: Status) returns (found: bool)
      requires Valid() && !next.Unknown?
      modifies this`status
      ensures Valid() && found == info.Some?
      ensures status == if found then next else old(status)
    {
      found := info.Some?;
      if found {
        status := next;
      }
    }

    /** The row a receiver is left with by a cancel of a transfer it has no record of. */
    method RecordInboundCanceledBeforeApproval()
      requires Valid()
      modifies this
      ensures Valid()
      ensures forall r: Receiver | r.row == old(info) && r.status == old(status) ::
        CancelUnknown(r) == r.(row := info, status := status)
    {
      if info.None? {
        UpsertFileMetadata(CANCELED_BEFORE_APPROVAL, Canceled);
      }
      var _ := UpdateTransferStatus(Canceled);
    }

    /** The row after a refusal, whatever it was before. */
    method RecordRefusal(p: Params)
      requires Valid()
      modifies this
      ensures Valid()
      ensures forall r: Receiver, other, known | r.row == old(info) && r.status == old(status) ::
        Finalize(p, r, false, other, known) == ReceiverStep(r.(row := info, status := status), [Reject(false)])
    {
      UpsertFileMetadata(p.Info(), Rejected);
      var _ := UpdateTransferStatus(Rejected);
    }

    /** The row after an acceptance: an old one keeps what it says of the file. */
    method RecordAcceptance(p: Params)
      requires Valid() && !status.Canceled?
      modifies this
      ensures Valid()
      ensures forall r: Receiver, other, known | r.row == old(info) && r.status == old(status) ::
        var step := Finalize(p, r, true, other, known); step.state.row == info && step.state.status == status
    {
      UpsertFileMetadata(p.Info(), Pending);
      var _ := UpdateTransferStatus(Accepted);
    }
  }

  class InboundTransfer {
    const p: Params
    // What the record says of the file.
    const file: FileInfo
    var receivedChunks: set<int>
    var nextChunk: int
    var bytesReceived: int
    var checkpointChunk: int
    var checkpointBytes: int
    // The temp file, and the rows of this transfer in the store.
    var temp: Option<seq<byte>>
    var stored: Option<Checkpoint>
    var row: Option<FileInfo>
    var status: Status
    var final: Option<seq<byte>>
    // A dialog that is still open for an earlier request.
    var asked: Option<int>

    ghost function Object(): Inbound
      reads this
    {
      Inbound(file, receivedChunks, nextChunk, bytesReceived, checkpointChunk, checkpointBytes)
    }

    ghost function View(): Receiver
      reads this
    {
      Receiver(Some(Object()), stored, row, asked, status, temp, final)
    }

    /** All but the counters and the checkpoint. */
    ghost function RestOfView(): Receiver
      reads this
    {
      Receiver(None, None, row, asked, status, temp, final)
    }

    function TotalChunks(): nat {
      ChunkCount(file.size, p.chunkSize)
    }

    /** All that the advance loop and the sender's arithmetic rely on. */
    ghost predicate Valid()
      reads this
    {
      && p.Valid()
      && 0 <= nextChunk <= TotalChunks()
      && forall i :: i in receivedChunks ==> 0 <= i < TotalChunks()
    }

    /**
     Accepting a request: `before` is what memory, disk and store held. A record in memory is replaced; the temp file,
     or the `other` one of a changed directory, is sized, old bytes and all.
     */
    constructor Accept(p: Params, before: Receiver, other: Option<seq<byte>>)
      requires p.Valid() && !before.status.Canceled?
      ensures Valid() && this.p == p
      ensures forall known :: View() == Finalize(p, before, true, other, known).state
    {
      this.p := p;
      file := FileInfo(|p.source|, Some(p.source));
      receivedChunks := {};
      nextChunk, bytesReceived, checkpointChunk, checkpointBytes := 0, 0, 0, 0;
      temp := Some(Truncate(if other.Some? then other.value else TempContent(before), |p.source|));
      stored := Some(Checkpoint(0, 0));
      row := if before.row.Some? then before.row else Some(FileInfo(|p.source|, Some(p.source)));
      status := Accepted;
      final, asked := before.final, before.asked;
    }

    /** Rebuilds the object from the checkpoint row and the file's row when the process starts. */
    constructor Restore(p: Params, before: Receiver)
      requires p.Valid() && Restores(before)
      ensures Valid() && this.p == p
      ensures View() == RestartReceiver(p, before)
    {
      this.p := p;
      file := before.row.value;
      var total := ChunkCount(before.row.value.size, p.chunkSize);
      var next := before.ck.value.next;
      if next < 0 {
        next := 0;
      }
      if next > total {
        next := total;
      }
      var bytes := Min(Max(before.ck.value.bytes, 0), before.row.value.size);
      var received := {};
      for chunkIndex := 0 to next
        invariant received == FirstChunks(chunkIndex)
      {
        received := received + {chunkIndex};
      }
      receivedChunks := received;
      nextChunk, bytesReceived, checkpointChunk, checkpointBytes := next, bytes, next, bytes;
      temp := Some(Truncate(TempContent(before), before.row.value.size));
      stored, row, status, final, asked := before.ck, before.row, before.status, before.final, None;
    }

    method MaybePersistCheckpoint(force: bool)
      modifies this
      ensures (Object(), stored) == PersistInbound(old(Object()), old(stored), force)
      ensures RestOfView() == old(RestOfView())
    {
      if !force && nextChunk - checkpointChunk < INBOUND_CHUNK_INTERVAL
               && bytesReceived - checkpointBytes < INBOUND_BYTE_INTERVAL {
        return;
      }
      checkpointChunk, checkpointBytes := nextChunk, bytesReceived;
      stored := Some(Checkpoint(nextChunk, bytesReceived));
    }

    /** The bookkeeping of a written chunk. The advance loop has no bound of its own; it stops all the same. */
    method Record(i: int, length: int)
      requires Valid() && 0 <= i < TotalChunks()
      modifies this
      ensures Valid()
      ensures Object() == RecordChunk(p, old(Object()), i, length)
      ensures stored == old(stored) && RestOfView() == old(RestOfView())
    {
      if i !in receivedChunks {
        receivedChunks := receivedChunks + {i};
        bytesReceived := bytesReceived + length;
        while nextChunk in receivedChunks
          invariant 0 <= nextChunk <= TotalChunks()
          invariant Advance(receivedChunks, nextChunk, TotalChunks()) ==
            Advance(receivedChunks, old(nextChunk), TotalChunks())
          invariant receivedChunks == old(receivedChunks) + {i} && bytesReceived == old(bytesReceived) + length
          invariant checkpointChunk == old(checkpointChunk) && checkpointBytes == old(checkpointBytes)
          invariant stored == old(stored) && RestOfView() == old(RestOfView())
          decreases TotalChunks() - nextChunk
        {
          nextChunk := nextChunk + 1;
        }
      }
    }

    /** `handleFileData` for a transfer in memory. */
    method HandleData(i: int, data: seq<byte>, fault: Fault) returns (answer: Msg)
      requires Valid()
      modifies this
      ensures Valid()
      ensures ReceiverStep(View(), [answer]) == OnData(p, old(View()), i, data, fault)
    {
      if i < 0 || i >= TotalChunks() || fault.Unreadable? || temp.None? {
        return Nack(i);
      }
      MulMonotone(0, i, p.chunkSize);
      var offset := i * p.chunkSize;
      if fault.WriteStops? {
        temp := Some(WriteAt(temp.value, offset, data[..Min(fault.at, |data|)]));
        return Nack(i);
      }
      temp := Some(WriteAt(temp.value, offset, data));
      Record(i, |data|);
      MaybePersistCheckpoint(false);
      return TransferState.Ack(i);
    }

    /** The row's status, which cannot change while there is no row. */
    method UpdateStatus(next: Status)
      modifies this`status
      ensures status == Updated(old(status), next)
    {
      if !status.Unknown? {
        status := next;
      }
    }

    /** A request for a transfer that is in memory already. */
    method HandleRequest(known: int) returns (answer: Msg)
      requires Valid()
      modifies this
      ensures Valid()
      ensures forall approved :: ReceiverStep(View(), [answer]) == OnRequest(p, old(View()), approved, known)
    {
      UpdateStatus(Accepted);
      return TransferState.Accept(nextChunk, known);
    }

    /** `handleFileComplete`: checks, renames and answers. The object leaves the manager's map afterwards. */
    method HandleComplete(ok: bool, byCancel: bool, renames: bool) returns (answer: Msg)
      requires Valid()
      modifies this
      ensures ReceiverStep(View().(inb := None), [answer]) == OnSenderClose(p, old(View()), ok, byCancel, renames)
    {
      stored := None;
      if !ok {
        UpdateStatus(if byCancel then Canceled else Failed);
        return ReceiverClose(false, byCancel);
      }
      if temp.None? || temp != file.content || !renames {
        UpdateStatus(Failed);
        return ReceiverClose(false, false);
      }
      temp, final := None, temp;
      UpdateStatus(Complete);
      return ReceiverClose(true, false);
    }
  }

  /** A whole run keeps the sender's counters right, however it ends, and never takes them back. */
  lemma {:induction false} PlayKeepsCounters(p: Params, s: Sender, events: seq<Event>)
    requires p.Valid() && SenderOk(p, s) && s.out.Some?
    ensures var end := Play(p, s, events).state;
      SenderOk(p, end) && end.phase.Idle? && end.out.value.next >= s.out.value.next
    decreases |events|
  {
    if !s.phase.Idle? {
      var e := if events == [] then Stop else events[0];
      OnEventOk(p, s, e);
      if events != [] {
        PlayKeepsCounters(p, OnEvent(p, s, e).state, events[1..]);
      }
    }
  }
}
