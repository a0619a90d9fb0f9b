/**
 What the concrete runs of a transfer are made of: one more step, and what each kind of step does to the last state.
 */
module TransferRuns {
  import opened Common
  import opened Chunks
  import opened TransferState
  import opened TransferProtocol

  const ONE_BYTE := Params([7], 1, 1)
  const TWO_BYTES := Params([7, 8], 1, 1)

  lemma OneByteFacts()
    ensures ONE_BYTE.Total() == 1 && ONE_BYTE.ChunkBytes(0) == [7] && ONE_BYTE.Info() == FileInfo(1, Some([7]))
    ensures ONE_BYTE.Below(0) == 0 && ONE_BYTE.Below(1) == 1
    ensures Truncate([], 1) == [0] && Truncate([7], 1) == [7] && Truncate([7], 0) == [] && WriteAt([0], 0, [7]) == [7]
    ensures {} + {0} == {0} && Advance({0}, 0, 1) == 1 && FirstChunks(0) == {}
  {
    assert Advance({0}, 1, 1) == 1;
  }

  lemma TwoByteFacts()
    ensures TWO_BYTES.Total() == 2 && TWO_BYTES.ChunkBytes(0) == [7] && TWO_BYTES.ChunkBytes(1) == [8]
    ensures TWO_BYTES.Info() == FileInfo(2, Some([7, 8])) && TWO_BYTES.Below(0) == 0
    ensures Truncate([], 2) == [0, 0] && Truncate([7, 0], 2) == [7, 0] && WriteAt([0, 0], 0, [7]) == [7, 0]
    ensures {} + {0} == {0} && Advance({0}, 0, 2) == 1 && FirstChunks(0) == {}
  {
    assert Advance({0}, 1, 2) == 1;
  }

  /** One step of a run, between two given states. */
  predicate Next(p: Params, sys: System, l: Label, sys': System)
    requires p.Valid()
  {
    Enabled(sys, l) && sys' == Apply(p, sys, l)
  }

  /** A run with one more step, and the state it leads to. */
  ghost predicate Extends(p: Params, states: seq<System>, steps: seq<Label>, l: Label, next: System,
                          states': seq<System>, steps': seq<Label>)
    requires p.Valid()
  {
    Run(p, states', steps') && states' == states + [next] && steps' == steps + [l]
  }

  /** One more step of a run. */
  lemma OneMore(p: Params, states: seq<System>, steps: seq<Label>, l: Label, next: System)
    returns (states': seq<System>, steps': seq<Label>)
    requires p.Valid() && Run(p, states, steps) && Next(p, states[|steps|], l, next)
    ensures Extends(p, states, steps, l, next, states', steps')
  {
    states', steps' := states + [next], steps + [l];
    forall k | 0 <= k < |steps'| ensures Follows(p, states', steps', k) {
      if k < |steps| {
        assert Follows(p, states, steps, k);
        assert states'[k] == states[k] && states'[k + 1] == states[k + 1] && steps'[k] == steps[k];
      }
    }
  }

  lemma Sent(net: set<Msg>, m: Msg)
    ensures net + AsSet([]) == net && net + AsSet([m]) == net + {m}
  {
    assert AsSet([m]) == {m};
  }

  // ----- The sender ------------------------------------------------------------------------

  lemma Begins(p: Params, states: seq<System>, steps: seq<Label>)
    returns (states': seq<System>, steps': seq<Label>)
    requires p.Valid() && Run(p, states, steps)
    requires var sys := states[|steps|];
      && sys.s.out.Some? && !sys.s.out.value.running && sys.s.out.value.Live()
      && sys.s.out.value.next <= sys.known
    ensures var sys := states[|steps|];
      var s := sys.s.(out := Some(sys.s.out.value.(running := true)), phase := AwaitAccept);
      Extends(p, states, steps, BeginRun,
              sys.(s := s, net := sys.net + {FileRequest(sys.known)}),
              states', steps')
  {
    var sys := states[|steps|];
    var s := sys.s.(out := Some(sys.s.out.value.(running := true)), phase := AwaitAccept);
    Sent(sys.net, FileRequest(sys.known));
    states', steps' := OneMore(p, states, steps, BeginRun,
      sys.(s := s, net := sys.net + {FileRequest(sys.known)}));
  }

  lemma Stops(p: Params, states: seq<System>, steps: seq<Label>)
    returns (states': seq<System>, steps': seq<Label>)
    requires p.Valid() && Run(p, states, steps)
    requires var sys := states[|steps|];
      && sys.s.out.Some? && !sys.s.phase.Idle? && sys.s.out.value.next <= sys.known
    ensures var sys := states[|steps|];
      Extends(p, states, steps, RunStops,
              sys.(s := EndRun(sys.s)),
              states', steps')
  {
    var sys := states[|steps|];
    Sent(sys.net, FileRequest(0));
    states', steps' := OneMore(p, states, steps, RunStops,
      sys.(s := EndRun(sys.s)));
  }

  lemma TimesOut(p: Params, states: seq<System>, steps: seq<Label>)
    returns (states': seq<System>, steps': seq<Label>)
    requires p.Valid() && Run(p, states, steps)
    requires var sys := states[|steps|];
      && sys.s.out.Some? && sys.s.phase.AwaitComplete? && sys.s.out.value.next <= sys.known
    ensures var sys := states[|steps|];
      Extends(p, states, steps, TimerFires,
              sys.(s := EndRun(sys.s)),
              states', steps')
  {
    var sys := states[|steps|];
    Sent(sys.net, FileRequest(0));
    states', steps' := OneMore(p, states, steps, TimerFires,
      sys.(s := EndRun(sys.s)));
  }

  lemma OnReply(p: Params, sys: System, m: Msg)
    requires p.Valid() && sys.s.out.Some? && !sys.s.phase.Idle? && (m.Accept? || m.Ack?) && m in sys.net
    ensures Next(p, sys, ToSender(m), WithSender(sys, OnEvent(p, sys.s, Reply(m))).(current := IsCurrent(sys, m)))
  {
  }

  lemma OnAcceptedAtOwn(p: Params, s: Sender, resume: int, n: nat)
    requires p.Valid() && s.out.Some? && 0 <= resume <= n == s.out.value.next <= p.Total()
    requires s.out.value.bytes == p.Below(n)
    ensures var o := s.out.value.(ckNext := n, ckBytes := p.Below(n));
      OnAccepted(p, s, resume) ==
        SendFrom(p, s.(out := Some(o), ck := Some(Checkpoint(n, p.Below(n))), status := Accepted), n, p.Below(n))
  {
  }

  lemma OnDeliveredEarly(p: Params, s: Sender, i: nat)
    requires p.Valid() && s.out.Some? && p.Below(i) + |p.ChunkBytes(i)| == p.Below(i + 1)
    requires i + 1 - s.out.value.ckNext < OUTBOUND_CHUNK_INTERVAL
    requires p.Below(i + 1) - s.out.value.ckBytes < OUTBOUND_BYTE_INTERVAL
    ensures var o := s.out.value.(next := i + 1, bytes := p.Below(i + 1));
      OnDelivered(p, s, i, p.Below(i)) == SendFrom(p, s.(out := Some(o)), i + 1, p.Below(i + 1))
  {
  }

  lemma ResumesAt(p: Params, sys: System, resume: int, known: int, n: nat)
    requires p.Valid()
    requires sys.s.out.Some? && sys.s.phase.AwaitAccept? && Accept(resume, known) in sys.net
    requires 0 <= resume <= n == sys.s.out.value.next <= p.Total()
    requires n <= sys.known && sys.s.out.value.bytes == p.Below(n)
    ensures var o := sys.s.out.value.(ckNext := n, ckBytes := p.Below(n));
      var resumed := sys.s.(out := Some(o), ck := Some(Checkpoint(n, p.Below(n))), status := Accepted);
      var step := SendFrom(p, resumed, n, p.Below(n));
      Next(p, sys, ToSender(Accept(resume, known)),
           sys.(s := step.state, net := sys.net + AsSet(step.sends), current := known == sys.known))
  {
    OnReply(p, sys, Accept(resume, known));
    OnAcceptedAtOwn(p, sys.s, resume, n);
  }

  /** The answer to a request takes the run to its own next chunk, or to its end. */
  lemma Resumes(p: Params, states: seq<System>, steps: seq<Label>, resume: int, known: int, n: nat)
    returns (states': seq<System>, steps': seq<Label>)
    requires p.Valid() && Run(p, states, steps)
    requires var sys := states[|steps|];
      && sys.s.out.Some? && sys.s.phase.AwaitAccept? && Accept(resume, known) in sys.net
      && 0 <= resume <= n == sys.s.out.value.next <= p.Total()
      && n <= sys.known && sys.s.out.value.bytes == p.Below(n)
    ensures var sys := states[|steps|];
      var o := sys.s.out.value.(ckNext := n, ckBytes := p.Below(n));
      var resumed := sys.s.(out := Some(o), ck := Some(Checkpoint(n, p.Below(n))), status := Accepted);
      var step := SendFrom(p, resumed, n, p.Below(n));
      Extends(p, states, steps, ToSender(Accept(resume, known)),
              sys.(s := step.state, net := sys.net + AsSet(step.sends), current := known == sys.known),
              states', steps')
  {
    var sys := states[|steps|];
    var o := sys.s.out.value.(ckNext := n, ckBytes := p.Below(n));
    var resumed := sys.s.(out := Some(o), ck := Some(Checkpoint(n, p.Below(n))), status := Accepted);
    var step := SendFrom(p, resumed, n, p.Below(n));
    ResumesAt(p, sys, resume, known, n);
    states', steps' := OneMore(p, states, steps, ToSender(Accept(resume, known)),
      sys.(s := step.state, net := sys.net + AsSet(step.sends), current := known == sys.known));
  }

  lemma AdvancesAt(p: Params, sys: System, i: nat)
    requires p.Valid()
    requires sys.s.out.Some? && sys.s.phase == AwaitAck(i, 0, p.Below(i)) && Ack(i) in sys.net
    requires i < p.Total() && sys.known == i && p.Below(i) + |p.ChunkBytes(i)| == p.Below(i + 1)
    requires i + 1 - sys.s.out.value.ckNext < OUTBOUND_CHUNK_INTERVAL
    requires p.Below(i + 1) - sys.s.out.value.ckBytes < OUTBOUND_BYTE_INTERVAL
    ensures var o := sys.s.out.value.(next := i + 1, bytes := p.Below(i + 1));
      var step := SendFrom(p, sys.s.(out := Some(o)), i + 1, p.Below(i + 1));
      Next(p, sys, ToSender(Ack(i)),
           sys.(s := step.state, net := sys.net + AsSet(step.sends), known := i + 1))
  {
    OnReply(p, sys, Ack(i));
    OnDeliveredEarly(p, sys.s, i);
  }

  /** The acknowledgement of chunk i, with no checkpoint due. */
  lemma Advances(p: Params, states: seq<System>, steps: seq<Label>, i: nat)
    returns (states': seq<System>, steps': seq<Label>)
    requires p.Valid() && Run(p, states, steps)
    requires var sys := states[|steps|];
      && sys.s.out.Some? && sys.s.phase == AwaitAck(i, 0, p.Below(i)) && Ack(i) in sys.net
      && i < p.Total() && sys.known == i && p.Below(i) + |p.ChunkBytes(i)| == p.Below(i + 1)
      && i + 1 - sys.s.out.value.ckNext < OUTBOUND_CHUNK_INTERVAL
      && p.Below(i + 1) - sys.s.out.value.ckBytes < OUTBOUND_BYTE_INTERVAL
    ensures var sys := states[|steps|];
      var o := sys.s.out.value.(next := i + 1, bytes := p.Below(i + 1));
      var step := SendFrom(p, sys.s.(out := Some(o)), i + 1, p.Below(i + 1));
      Extends(p, states, steps, ToSender(Ack(i)),
              sys.(s := step.state, net := sys.net + AsSet(step.sends), known := i + 1),
              states', steps')
  {
    var sys := states[|steps|];
    var o := sys.s.out.value.(next := i + 1, bytes := p.Below(i + 1));
    var step := SendFrom(p, sys.s.(out := Some(o)), i + 1, p.Below(i + 1));
    AdvancesAt(p, sys, i);
    states', steps' := OneMore(p, states, steps, ToSender(Ack(i)),
      sys.(s := step.state, net := sys.net + AsSet(step.sends), known := i + 1));
  }

  lemma HearsOfFailure(p: Params, states: seq<System>, steps: seq<Label>)
    returns (states': seq<System>, steps': seq<Label>)
    requires p.Valid() && Run(p, states, steps)
    requires var sys := states[|steps|];
      && sys.s.out.Some? && sys.s.phase.AwaitComplete? && ReceiverClose(false, false) in sys.net
      && sys.s.out.value.next <= sys.known && !sys.s.out.value.canceled
    ensures var sys := states[|steps|];
      var s := Sender(Some(sys.s.out.value.(done := true, running := false)), Idle, None, Failed);
      Extends(p, states, steps, ToSender(ReceiverClose(false, false)),
              sys.(s := s),
              states', steps')
  {
    var sys := states[|steps|];
    var s := Sender(Some(sys.s.out.value.(done := true, running := false)), Idle, None, Failed);
    Sent(sys.net, FileRequest(0));
    states', steps' := OneMore(p, states, steps, ToSender(ReceiverClose(false, false)),
      sys.(s := s));
  }

  /** The user cancels while the run waits. */
  lemma CancelsRun(p: Params, states: seq<System>, steps: seq<Label>)
    returns (states': seq<System>, steps': seq<Label>)
    requires p.Valid() && Run(p, states, steps)
    requires var sys := states[|steps|];
      && sys.s.out.Some? && sys.s.out.value.running && sys.s.out.value.Live() && sys.s.out.value.next <= sys.known
    ensures var sys := states[|steps|];
      var s := sys.s.(out := Some(sys.s.out.value.(canceled := true)));
      Extends(p, states, steps, UserCancelsSend,
              sys.(s := s, net := sys.net + {SenderClose(false, true)}),
              states', steps')
  {
    var sys := states[|steps|];
    var s := sys.s.(out := Some(sys.s.out.value.(canceled := true)));
    Sent(sys.net, SenderClose(false, true));
    states', steps' := OneMore(p, states, steps, UserCancelsSend,
      sys.(s := s, net := sys.net + {SenderClose(false, true)}));
  }

  lemma RetriesSend(p: Params, states: seq<System>, steps: seq<Label>)
    returns (states': seq<System>, steps': seq<Label>)
    requires p.Valid() && Run(p, states, steps)
    requires var sys := states[|steps|];
      && sys.s.out.Some? && !sys.s.out.value.running
    ensures var sys := states[|steps|];
      Extends(p, states, steps, UserRetries,
              sys.(s := Sender(Some(FRESH_OUTBOUND), Idle, None, Pending), known := 0),
              states', steps')
  {
    var sys := states[|steps|];
    states', steps' := OneMore(p, states, steps, UserRetries,
      sys.(s := Sender(Some(FRESH_OUTBOUND), Idle, None, Pending), known := 0));
  }

  lemma RestartsSender(p: Params, states: seq<System>, steps: seq<Label>)
    returns (states': seq<System>, steps': seq<Label>)
    requires p.Valid() && Run(p, states, steps)
    requires var sys := states[|steps|];
      && sys.s.ck.Some? && !Terminal(sys.s.status)
    ensures var sys := states[|steps|];
      var s := Sender(Some(RestoreOutbound(p, sys.s.ck.value)), Idle, sys.s.ck, sys.s.status);
      Extends(p, states, steps, SenderRestarts,
              sys.(s := s, restartedS := true),
              states', steps')
  {
    var sys := states[|steps|];
    var s := Sender(Some(RestoreOutbound(p, sys.s.ck.value)), Idle, sys.s.ck, sys.s.status);
    states', steps' := OneMore(p, states, steps, SenderRestarts,
      sys.(s := s, restartedS := true));
  }

  // ----- The receiver ----------------------------------------------------------------------

  /** A request that is accepted at once, with no record in memory. */
  lemma Accepts(p: Params, states: seq<System>, steps: seq<Label>, known: int)
    returns (states': seq<System>, steps': seq<Label>)
    requires p.Valid() && Run(p, states, steps)
    requires var sys := states[|steps|];
      && sys.r.inb.None? && !sys.r.status.Canceled? && FileRequest(known) in sys.net
    ensures var sys := states[|steps|];
      var r := sys.r.(inb := Some(Inbound(p.Info(), {}, 0, 0, 0, 0)), ck := Some(Checkpoint(0, 0)), status := Accepted,
                      row := Inserted(sys.r.row, p.Info()), temp := Some(Truncate(TempContent(sys.r), |p.source|)));
      Extends(p, states, steps, ToReceiver(FileRequest(known), true, NoFault, true),
              sys.(r := r, net := sys.net + {Accept(0, known)}),
              states', steps')
  {
    var sys := states[|steps|];
    var r := sys.r.(inb := Some(Inbound(p.Info(), {}, 0, 0, 0, 0)), ck := Some(Checkpoint(0, 0)), status := Accepted,
                    row := Inserted(sys.r.row, p.Info()), temp := Some(Truncate(TempContent(sys.r), |p.source|)));
    Sent(sys.net, Accept(0, known));
    states', steps' := OneMore(p, states, steps, ToReceiver(FileRequest(known), true, NoFault, true),
      sys.(r := r, net := sys.net + {Accept(0, known)}));
  }

  lemma AnswersAgain(p: Params, states: seq<System>, steps: seq<Label>, known: int)
    returns (states': seq<System>, steps': seq<Label>)
    requires p.Valid() && Run(p, states, steps)
    requires var sys := states[|steps|];
      && sys.r.inb.Some? && sys.r.status.Accepted? && FileRequest(known) in sys.net
    ensures var sys := states[|steps|];
      var m := Accept(sys.r.inb.value.next, known);
      Extends(p, states, steps, ToReceiver(FileRequest(known), true, NoFault, true),
              sys.(net := sys.net + {m}),
              states', steps')
  {
    var sys := states[|steps|];
    var m := Accept(sys.r.inb.value.next, known);
    Sent(sys.net, m);
    states', steps' := OneMore(p, states, steps, ToReceiver(FileRequest(known), true, NoFault, true),
      sys.(net := sys.net + {m}));
  }

  /** The first chunk arrives, with no checkpoint due. */
  lemma TakesFirstChunk(p: Params, states: seq<System>, steps: seq<Label>, data: seq<byte>)
    returns (states': seq<System>, steps': seq<Label>)
    requires p.Valid() && Run(p, states, steps)
    requires var sys := states[|steps|];
      && sys.r.temp.Some? && Data(0, data) in sys.net && |data| < INBOUND_BYTE_INTERVAL
      && sys.r.inb == Some(Inbound(p.Info(), {}, 0, 0, 0, 0)) && p.Total() > 0 && Advance({0}, 0, p.Total()) == 1
    ensures var sys := states[|steps|];
      var b := Inbound(p.Info(), {0}, 1, |data|, 0, 0);
      var r := sys.r.(inb := Some(b), temp := Some(WriteAt(sys.r.temp.value, 0, data)));
      Extends(p, states, steps, ToReceiver(Data(0, data), true, NoFault, true),
              sys.(r := r, net := sys.net + {Ack(0)}),
              states', steps')
  {
    var sys := states[|steps|];
    var b := Inbound(p.Info(), {0}, 1, |data|, 0, 0);
    var r := sys.r.(inb := Some(b), temp := Some(WriteAt(sys.r.temp.value, 0, data)));
    Sent(sys.net, Ack(0));
    assert {} + {0} == {0};
    states', steps' := OneMore(p, states, steps, ToReceiver(Data(0, data), true, NoFault, true),
      sys.(r := r, net := sys.net + {Ack(0)}));
  }

  /** A completion is checked, and the record is dropped. */
  lemma Checks(p: Params, states: seq<System>, steps: seq<Label>)
    returns (states': seq<System>, steps': seq<Label>)
    requires p.Valid() && Run(p, states, steps)
    requires var sys := states[|steps|];
      && sys.r.inb.Some? && sys.r.temp.Some? && !sys.r.status.Unknown? && SenderClose(true, false) in sys.net
    ensures var sys := states[|steps|];
      var passes := sys.r.temp == sys.r.inb.value.file.content;
      var dropped := sys.r.(inb := None, ck := None, status := if passes then Complete else Failed);
      var r := if passes then dropped.(temp := None, final := sys.r.temp) else dropped;
      Extends(p, states, steps, ToReceiver(SenderClose(true, false), true, NoFault, true),
              sys.(r := r, net := sys.net + {ReceiverClose(passes, false)}, settled := true),
              states', steps')
  {
    var sys := states[|steps|];
    var passes := sys.r.temp == sys.r.inb.value.file.content;
    var dropped := sys.r.(inb := None, ck := None, status := if passes then Complete else Failed);
    var r := if passes then dropped.(temp := None, final := sys.r.temp) else dropped;
    Sent(sys.net, ReceiverClose(passes, false));
    states', steps' := OneMore(p, states, steps, ToReceiver(SenderClose(true, false), true, NoFault, true),
      sys.(r := r, net := sys.net + {ReceiverClose(passes, false)}, settled := true));
  }

  lemma OpensDialog(p: Params, states: seq<System>, steps: seq<Label>, known: int)
    returns (states': seq<System>, steps': seq<Label>)
    requires p.Valid() && Run(p, states, steps)
    requires var sys := states[|steps|];
      && sys.r.inb.None? && sys.r.asked.None? && FileRequest(known) in sys.net
    ensures var sys := states[|steps|];
      Extends(p, states, steps, Asks(known),
              sys.(r := sys.r.(asked := Some(known))),
              states', steps')
  {
    var sys := states[|steps|];
    states', steps' := OneMore(p, states, steps, Asks(known),
      sys.(r := sys.r.(asked := Some(known))));
  }

  /** A cancel reaches a receiver that has no row of the file. */
  lemma HearsOfCancel(p: Params, states: seq<System>, steps: seq<Label>)
    returns (states': seq<System>, steps': seq<Label>)
    requires p.Valid() && Run(p, states, steps)
    requires var sys := states[|steps|];
      && sys.r.inb.None? && sys.r.row.None? && SenderClose(false, true) in sys.net
    ensures var sys := states[|steps|];
      var r := sys.r.(row := Some(CANCELED_BEFORE_APPROVAL), status := Canceled);
      Extends(p, states, steps, ToReceiver(SenderClose(false, true), true, NoFault, true),
              sys.(r := r),
              states', steps')
  {
    var sys := states[|steps|];
    var r := sys.r.(row := Some(CANCELED_BEFORE_APPROVAL), status := Canceled);
    Sent(sys.net, FileRequest(0));
    states', steps' := OneMore(p, states, steps, ToReceiver(SenderClose(false, true), true, NoFault, true),
      sys.(r := r));
  }

  lemma RefusesDialog(p: Params, states: seq<System>, steps: seq<Label>)
    returns (states': seq<System>, steps': seq<Label>)
    requires p.Valid() && Run(p, states, steps)
    requires var sys := states[|steps|];
      && sys.r.asked.Some? && sys.r.inb.None?
    ensures var sys := states[|steps|];
      var r := sys.r.(asked := None, row := Inserted(sys.r.row, p.Info()), status := Rejected);
      Extends(p, states, steps, Decides(false, None),
              sys.(r := r, net := sys.net + {Reject(false)}),
              states', steps')
  {
    var sys := states[|steps|];
    var r := sys.r.(asked := None, row := Inserted(sys.r.row, p.Info()), status := Rejected);
    Sent(sys.net, Reject(false));
    states', steps' := OneMore(p, states, steps, Decides(false, None),
      sys.(r := r, net := sys.net + {Reject(false)}));
  }

  /** A dialog is answered yes although there is a record in memory. */
  lemma ApprovesLate(p: Params, states: seq<System>, steps: seq<Label>)
    returns (states': seq<System>, steps': seq<Label>)
    requires p.Valid() && Run(p, states, steps)
    requires var sys := states[|steps|];
      && sys.r.asked.Some? && sys.r.inb.Some? && !sys.r.status.Canceled? && sys.r.row.Some?
    ensures var sys := states[|steps|];
      var r := sys.r.(asked := None, inb := Some(Inbound(p.Info(), {}, 0, 0, 0, 0)), ck := Some(Checkpoint(0, 0)),
                      status := Accepted, temp := Some(Truncate(TempContent(sys.r), |p.source|)));
      Extends(p, states, steps, Decides(true, None),
              sys.(r := r, net := sys.net + {Accept(0, sys.r.asked.value)}, replaced := true),
              states', steps')
  {
    var sys := states[|steps|];
    var r := sys.r.(asked := None, inb := Some(Inbound(p.Info(), {}, 0, 0, 0, 0)), ck := Some(Checkpoint(0, 0)),
                    status := Accepted, temp := Some(Truncate(TempContent(sys.r), |p.source|)));
    Sent(sys.net, Accept(0, sys.r.asked.value));
    states', steps' := OneMore(p, states, steps, Decides(true, None),
      sys.(r := r, net := sys.net + {Accept(0, sys.r.asked.value)}, replaced := true));
  }

  /** A restart brings the record back as the row has it. */
  lemma RestartsFromRow(p: Params, states: seq<System>, steps: seq<Label>)
    returns (states': seq<System>, steps': seq<Label>)
    requires p.Valid() && Run(p, states, steps)
    requires var sys := states[|steps|];
      && Restores(sys.r) && sys.r.inb.Some? && sys.r.ck.value == Checkpoint(0, 0)
    ensures var sys := states[|steps|];
      var file := sys.r.row.value;
      var r := sys.r.(inb := Some(Inbound(file, {}, 0, 0, 0, 0)), asked := None,
                      temp := Some(Truncate(TempContent(sys.r), file.size)));
      Extends(p, states, steps, ReceiverRestarts,
              sys.(r := r, restartedR := true, spoiled := sys.spoiled || file != p.Info()),
              states', steps')
  {
    var sys := states[|steps|];
    var file := sys.r.row.value;
    var r := sys.r.(inb := Some(Inbound(file, {}, 0, 0, 0, 0)), asked := None,
                    temp := Some(Truncate(TempContent(sys.r), file.size)));
    assert FirstChunks(0) == {};
    states', steps' := OneMore(p, states, steps, ReceiverRestarts,
      sys.(r := r, restartedR := true, spoiled := sys.spoiled || file != p.Info()));
  }
}
