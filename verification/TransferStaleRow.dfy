/**
 A run in which the receiver keeps the row of an early cancel, and loses an acknowledged chunk by restarting.
 */
module TransferStaleRow {
  import opened Common
  import opened Chunks
  import opened TransferState
  import opened TransferProtocol
  import opened TransferRuns
  import opened TransferSpoils

  /**
   The sender cancels while the dialog is open, which leaves a row without a file; the dialog is then refused, the
   sender retries and is accepted, one chunk is acknowledged, and the receiver restarts.
   */
  const CANCEL_THEN_RETRY: seq<Label> := [
    BeginRun,
    Asks(0),
    UserCancelsSend,
    RunStops,
    ToReceiver(SenderClose(false, true), true, NoFault, true),
    Decides(false, None),
    UserRetries,
    BeginRun,
    ToReceiver(FileRequest(0), true, NoFault, true),
    ToSender(Accept(0, 0)),
    ToReceiver(Data(0, [7]), true, NoFault, true),
    ToSender(Ack(0)),
    RunStops,
    ReceiverRestarts,
    BeginRun,
    ToReceiver(FileRequest(1), true, NoFault, true),
    ToSender(Accept(0, 1)),
    ToReceiver(SenderClose(true, false), true, NoFault, true),
    ToSender(ReceiverClose(false, false))]

  /** The run up to the retry: the row of the early cancel is there, and no longer says that it was canceled. */
  lemma UntilRetried() returns (states: seq<System>, steps: seq<Label>)
    ensures Run(ONE_BYTE, states, steps) && steps == CANCEL_THEN_RETRY[..7] && EarlyCancel(states, steps, 4)
    ensures var sys := states[7];
      && sys.s == INITIAL_SENDER && sys.known == 0 && !sys.settled && !sys.spoiled
      && sys.r == Receiver(None, None, Some(CANCELED_BEFORE_APPROVAL), None, Rejected, None, None)
  {
    OneByteFacts();
    states, steps := [INITIAL], [];
    states, steps := Begins(ONE_BYTE, states, steps);
    states, steps := OpensDialog(ONE_BYTE, states, steps, 0);
    states, steps := CancelsRun(ONE_BYTE, states, steps);
    states, steps := Stops(ONE_BYTE, states, steps);
    states, steps := HearsOfCancel(ONE_BYTE, states, steps);
    states, steps := RefusesDialog(ONE_BYTE, states, steps);
    states, steps := RetriesSend(ONE_BYTE, states, steps);
  }

  lemma UntilAccepted() returns (states: seq<System>, steps: seq<Label>)
    ensures Run(ONE_BYTE, states, steps) && steps == CANCEL_THEN_RETRY[..9] && EarlyCancel(states, steps, 4)
    ensures var sys := states[9];
      && sys.s == Sender(Some(FRESH_OUTBOUND.(running := true)), AwaitAccept, None, Pending)
      && sys.r == Receiver(Some(Inbound(ONE_BYTE.Info(), {}, 0, 0, 0, 0)), Some(Checkpoint(0, 0)),
                           Some(CANCELED_BEFORE_APPROVAL), None, Accepted, Some([0]), None)
      && sys.known == 0 && !sys.settled && Accept(0, 0) in sys.net
  {
    OneByteFacts();
    states, steps := UntilRetried();
    states, steps := Begins(ONE_BYTE, states, steps);
    states, steps := Accepts(ONE_BYTE, states, steps, 0);
  }

  /** The run up to the acknowledgement: the record is the file's, the row is not. */
  lemma UntilAcknowledged() returns (states: seq<System>, steps: seq<Label>)
    ensures Run(ONE_BYTE, states, steps) && steps == CANCEL_THEN_RETRY[..12] && EarlyCancel(states, steps, 4)
    ensures var sys := states[12];
      && sys.s == Sender(Some(Outbound(1, 1, 0, 0, true, false, false, false)), AwaitComplete,
                         Some(Checkpoint(0, 0)), Accepted)
      && sys.r == Receiver(Some(Inbound(ONE_BYTE.Info(), {0}, 1, 1, 0, 0)), Some(Checkpoint(0, 0)),
                           Some(CANCELED_BEFORE_APPROVAL), None, Accepted, Some([7]), None)
      && sys.known == 1 && !sys.settled && SenderClose(true, false) in sys.net
  {
    OneByteFacts();
    states, steps := UntilAccepted();
    states, steps := Resumes(ONE_BYTE, states, steps, 0, 0, 0);
    states, steps := TakesFirstChunk(ONE_BYTE, states, steps, [7]);
    states, steps := Advances(ONE_BYTE, states, steps, 0);
  }

  /** The cancel came early, the chunk was there, and the restart has lost it although nothing was settled. */
  ghost predicate Lost(states: seq<System>, steps: seq<Label>) {
    && |steps| >= 14 && |states| == |steps| + 1
    && EarlyCancel(states, steps, 4) && steps[11] == ToSender(Ack(0)) && states[12].r.temp == Some([7])
    && Misreads(ONE_BYTE, states[13].r) && steps[13].ReceiverRestarts?
    && !states[14].settled && states[14].r.temp == Some([])
    && states[14].s.out.Some? && states[14].s.out.value.next == 1
  }

  /** The run up to the restart, which takes size and checksum from that row. */
  lemma UntilRestarted() returns (states: seq<System>, steps: seq<Label>)
    ensures Run(ONE_BYTE, states, steps) && steps == CANCEL_THEN_RETRY[..14] && Lost(states, steps)
    ensures var sys := states[14];
      && sys.s == Sender(Some(Outbound(1, 1, 0, 0, false, false, false, false)), Idle, Some(Checkpoint(0, 0)), Pending)
      && sys.r == Receiver(Some(Inbound(CANCELED_BEFORE_APPROVAL, {}, 0, 0, 0, 0)), Some(Checkpoint(0, 0)),
                           Some(CANCELED_BEFORE_APPROVAL), None, Accepted, Some([]), None)
      && sys.known == 1 && SenderClose(true, false) in sys.net
  {
    OneByteFacts();
    states, steps := UntilAcknowledged();
    states, steps := Stops(ONE_BYTE, states, steps);
    states, steps := RestartsFromRow(ONE_BYTE, states, steps);
  }

  /** The run up to the next request. */
  lemma UntilAskedAgain() returns (states: seq<System>, steps: seq<Label>)
    ensures Run(ONE_BYTE, states, steps) && steps == CANCEL_THEN_RETRY[..15] && Lost(states, steps)
    ensures var sys := states[15];
      && sys.s.out == Some(Outbound(1, 1, 0, 0, true, false, false, false)) && sys.s.phase.AwaitAccept?
      && sys.r == Receiver(Some(Inbound(CANCELED_BEFORE_APPROVAL, {}, 0, 0, 0, 0)), Some(Checkpoint(0, 0)),
                           Some(CANCELED_BEFORE_APPROVAL), None, Accepted, Some([]), None)
      && sys.known == 1 && FileRequest(1) in sys.net && SenderClose(true, false) in sys.net
  {
    states, steps := UntilRestarted();
    states, steps := Begins(ONE_BYTE, states, steps);
  }

  /** The run up to the completion, with nothing left for the sender to send. */
  lemma UntilAllIsSent() returns (states: seq<System>, steps: seq<Label>)
    ensures Run(ONE_BYTE, states, steps) && steps == CANCEL_THEN_RETRY[..17] && Lost(states, steps)
    ensures var sys := states[17];
      && sys.s.out == Some(Outbound(1, 1, 1, 1, true, false, false, false)) && sys.s.phase.AwaitComplete?
      && sys.r.inb.Some? && sys.r.inb.value.file.content.None? && sys.r.temp == Some([]) && sys.r.final.None?
      && sys.r.status.Accepted? && sys.known == 1 && SenderClose(true, false) in sys.net
  {
    OneByteFacts();
    states, steps := UntilAskedAgain();
    states, steps := AnswersAgain(ONE_BYTE, states, steps, 1);
    states, steps := Resumes(ONE_BYTE, states, steps, 0, 1, 1);
  }

  /** The acknowledged chunk is gone, and the transfer ends as failed on both sides. */
  lemma AcknowledgedChunkIsLost() returns (states: seq<System>)
    ensures Run(ONE_BYTE, states, CANCEL_THEN_RETRY) && Lost(states, CANCEL_THEN_RETRY)
    ensures states[19].s.status.Failed? && states[19].r.status.Failed? && states[19].r.final.None?
  {
    var steps;
    states, steps := UntilAllIsSent();
    states, steps := Checks(ONE_BYTE, states, steps);
    states, steps := HearsOfFailure(ONE_BYTE, states, steps);
    assert steps == CANCEL_THEN_RETRY;
  }
}
