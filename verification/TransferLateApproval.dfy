/**
 A run in which a dialog is answered late, and an acknowledged chunk is sent again although only the sender restarted.
 */
module TransferLateApproval {
  import opened Common
  import opened Chunks
  import opened TransferState
  import opened TransferProtocol
  import opened TransferRuns
  import opened TransferProgress

  /**
   A dialog stays open while the sender reconnects and is accepted without one; a chunk is acknowledged, the dialog is
   answered yes, and the sender restarts.
   */
  const APPROVED_TWICE: seq<Label> := [
    BeginRun,
    Asks(0),
    RunStops,
    BeginRun,
    ToReceiver(FileRequest(0), true, NoFault, true),
    ToSender(Accept(0, 0)),
    ToReceiver(Data(0, [7]), true, NoFault, true),
    ToSender(Ack(0)),
    Decides(true, None),
    SenderRestarts,
    BeginRun,
    ToReceiver(FileRequest(1), true, NoFault, true),
    ToSender(Accept(0, 1))]

  /** The run up to the acceptance without the dialog. */
  lemma UntilAccepted() returns (states: seq<System>, steps: seq<Label>)
    ensures Run(TWO_BYTES, states, steps) && steps == APPROVED_TWICE[..5]
    ensures var sys := states[5];
      && sys.s == Sender(Some(FRESH_OUTBOUND.(running := true)), AwaitAccept, None, Pending)
      && sys.r == Receiver(Some(Inbound(TWO_BYTES.Info(), {}, 0, 0, 0, 0)), Some(Checkpoint(0, 0)),
                           Some(TWO_BYTES.Info()), Some(0), Accepted, Some([0, 0]), None)
      && sys.known == 0 && FirstLife(sys) && !sys.spoiled && Accept(0, 0) in sys.net
  {
    TwoByteFacts();
    states, steps := [INITIAL], [];
    states, steps := Begins(TWO_BYTES, states, steps);
    states, steps := OpensDialog(TWO_BYTES, states, steps, 0);
    states, steps := Stops(TWO_BYTES, states, steps);
    states, steps := Begins(TWO_BYTES, states, steps);
    states, steps := Accepts(TWO_BYTES, states, steps, 0);
  }

  /** The run up to the acknowledgement, with the dialog still open. */
  lemma UntilAcknowledged() returns (states: seq<System>, steps: seq<Label>)
    ensures Run(TWO_BYTES, states, steps) && steps == APPROVED_TWICE[..8] && AcknowledgedAt(states, steps, 7, 0)
    ensures var sys := states[8];
      && sys.s == Sender(Some(Outbound(1, 1, 0, 0, true, false, false, false)), AwaitAck(1, 0, 1),
                         Some(Checkpoint(0, 0)), Accepted)
      && sys.r.inb.Some? && sys.r.row.Some? && sys.r.asked == Some(0) && sys.r.status.Accepted?
      && sys.r.temp == Some([7, 0])
      && sys.known == 1 && FirstLife(sys) && !sys.spoiled
  {
    TwoByteFacts();
    states, steps := UntilAccepted();
    states, steps := Resumes(TWO_BYTES, states, steps, 0, 0, 0);
    states, steps := TakesFirstChunk(TWO_BYTES, states, steps, [7]);
    states, steps := Advances(TWO_BYTES, states, steps, 0);
  }

  /** The run waits for the acknowledgement of a chunk that was acknowledged before. */
  lemma AcknowledgedChunkIsSentAgain() returns (states: seq<System>)
    ensures Run(TWO_BYTES, states, APPROVED_TWICE) && AcknowledgedAt(states, APPROVED_TWICE, 7, 0)
    ensures var sys := states[13];
      && sys.s.phase.AwaitAck? && sys.s.phase.chunk == 0 && sys.current
      && !sys.restartedR && !sys.settled && !sys.spoiled && sys.replaced
  {
    TwoByteFacts();
    var steps;
    states, steps := UntilAcknowledged();
    states, steps := ApprovesLate(TWO_BYTES, states, steps);
    states, steps := RestartsSender(TWO_BYTES, states, steps);
    states, steps := Begins(TWO_BYTES, states, steps);
    states, steps := AnswersAgain(TWO_BYTES, states, steps, 1);
    states, steps := Resumes(TWO_BYTES, states, steps, 0, 1, 0);
    assert steps == APPROVED_TWICE;
  }
}
