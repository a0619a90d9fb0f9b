/**
 No reachable state of a transfer is a dead end: as long as nothing has ended or spoiled it, it can be brought to its
 end, and both sides then know of it.
 */
module TransferFinish {
  import opened Common
  import opened Chunks
  import opened TransferState
  import opened TransferProtocol
  import opened TransferSafety
  import opened TransferOutcomes
  import opened TransferAnswers
  import TransferRuns

  /** A run, and one that continues it. */
  ghost predicate Continues(p: Params, states: seq<System>, steps: seq<Label>, states': seq<System>,
                            steps': seq<Label>)
    requires p.Valid()
  {
    && Run(p, states, steps) && Run(p, states', steps')
    && |steps| <= |steps'| && states'[..|states|] == states && steps'[..|steps|] == steps
  }

  lemma OneMore(p: Params, states: seq<System>, steps: seq<Label>, l: Label)
    returns (states': seq<System>, steps': seq<Label>)
    requires p.Valid() && Run(p, states, steps) && Enabled(states[|steps|], l)
    ensures Continues(p, states, steps, states', steps') && |steps'| == |steps| + 1
    ensures states'[|steps'|] == Apply(p, states[|steps|], l)
  {
    states', steps' := TransferRuns.OneMore(p, states, steps, l, Apply(p, states[|steps|], l));
  }

  lemma Onwards(p: Params, a: seq<System>, x: seq<Label>, b: seq<System>, y: seq<Label>, c: seq<System>, z: seq<Label>)
    requires p.Valid() && Continues(p, a, x, b, y) && Continues(p, b, y, c, z)
    ensures Continues(p, a, x, c, z)
  {
    assert c[..|a|] == c[..|b|][..|a|] && z[..|x|] == z[..|y|][..|x|];
  }

  /** The receiver has its record, and nothing has ended or spoiled it. */
  ghost predicate Receiving(sys: System) {
    !sys.settled && !sys.spoiled && sys.r.inb.Some?
  }

  /** Not running, with the sender still to send. */
  ghost predicate Waiting(sys: System) {
    && !sys.settled && !sys.spoiled && (sys.r.inb.Some? || !sys.r.status.Canceled?)
    && sys.s.out.Some? && sys.s.out.value.Live() && !sys.s.out.value.running && sys.s.phase.Idle?
  }

  /** A run that is on is stopped, which leaves the transfer waiting. */
  lemma StopFirst(p: Params, states: seq<System>, steps: seq<Label>)
    returns (states': seq<System>, steps': seq<Label>)
    requires p.Valid() && Run(p, states, steps)
    requires var sys := states[|steps|];
      && !sys.settled && !sys.spoiled && (sys.r.inb.Some? || !sys.r.status.Canceled?)
      && sys.s.out.Some? && sys.s.out.value.Live()
    ensures Continues(p, states, steps, states', steps') && Waiting(states'[|steps'|])
  {
    Reachable(p, states, steps, |steps|);
    if states[|steps|].s.phase.Idle? {
      return states, steps;
    }
    StopInterrupts(p, states, steps, |steps|, RunStops);
    SenderKeepsReceiver(p, states[|steps|], RunStops);
    states', steps' := OneMore(p, states, steps, RunStops);
  }

  /** It asks, and is answered. */
  lemma AskAndAnswer(p: Params, states: seq<System>, steps: seq<Label>)
    returns (states': seq<System>, steps': seq<Label>, resume: int, known: int)
    requires p.Valid() && Run(p, states, steps) && Waiting(states[|steps|])
    ensures Continues(p, states, steps, states', steps') && Receiving(states'[|steps'|])
    ensures var sys := states'[|steps'|];
      && sys.s.out.Some? && sys.s.phase.AwaitAccept? && !sys.s.out.value.canceled && Accept(resume, known) in sys.net
  {
    known := states[|steps|].known;
    BeginsExactly(p, states, steps, |steps|);
    SenderKeepsReceiver(p, states[|steps|], BeginRun);
    states', steps' := OneMore(p, states, steps, BeginRun);
    resume := if states'[|steps'|].r.inb.Some? then states'[|steps'|].r.inb.value.next else 0;
    states', steps' := Answered(p, states, steps, states', steps', known, resume);
  }

  lemma Answered(p: Params, a: seq<System>, x: seq<Label>, states: seq<System>, steps: seq<Label>, known: int,
                 resume: int)
    returns (states': seq<System>, steps': seq<Label>)
    requires p.Valid() && Continues(p, a, x, states, steps)
    requires var sys := states[|steps|];
      && !sys.settled && !sys.spoiled && (sys.r.inb.Some? || !sys.r.status.Canceled?) && FileRequest(known) in sys.net
      && resume == if sys.r.inb.Some? then sys.r.inb.value.next else 0
    ensures Continues(p, a, x, states', steps') && Receiving(states'[|steps'|])
    ensures states'[|steps'|].s == states[|steps|].s && Accept(resume, known) in states'[|steps'|].net
  {
    var sys, l := states[|steps|], ToReceiver(FileRequest(known), true, NoFault, true);
    if sys.r.inb.Some? {
      KnownRequestIsAnswered(p, states, steps, |steps|, known, true);
    } else {
      NewRequestIsDecided(p, states, steps, |steps|, known, true);
    }
    ReceiverKeepsSender(p, sys, l);
    StillReceiving(p, sys, l);
    states', steps' := OneMore(p, states, steps, l);
    Onwards(p, a, x, states, steps, states', steps');
  }

  /** Nothing ends or spoils a record that is in memory before and after the receiver takes a message. */
  lemma StillReceiving(p: Params, sys: System, l: Label)
    requires p.Valid() && l.ToReceiver? && !sys.settled && !sys.spoiled && Apply(p, sys, l).r.inb.Some?
    ensures Receiving(Apply(p, sys, l))
  {
  }

  /** Chunk by chunk, to the end of the file. */
  lemma AllChunks(p: Params, states: seq<System>, steps: seq<Label>, n: nat)
    returns (states': seq<System>, steps': seq<Label>)
    requires p.Valid() && Run(p, states, steps) && n <= p.Total() && Receiving(states[|steps|])
    requires states[|steps|].s.out.Some? && SendsNext(p, states[|steps|], n) && !states[|steps|].s.out.value.canceled
    ensures Continues(p, states, steps, states', steps') && Receiving(states'[|steps'|])
    ensures var sys := states'[|steps'|];
      && sys.s.out.Some? && sys.s.phase.AwaitComplete? && !sys.s.out.value.canceled
      && SenderClose(true, false) in sys.net
    decreases p.Total() - n
  {
    if n == p.Total() {
      return states, steps;
    }
    states', steps' := ChunkThere(p, states, steps, n);
    var later, further := ChunkAcknowledged(p, states', steps', n);
    Onwards(p, states, steps, states', steps', later, further);
    var end, all := AllChunks(p, later, further, n + 1);
    Onwards(p, states, steps, later, further, end, all);
    return end, all;
  }

  lemma ChunkThere(p: Params, states: seq<System>, steps: seq<Label>, n: nat)
    returns (states': seq<System>, steps': seq<Label>)
    requires p.Valid() && Run(p, states, steps) && n < p.Total() && Receiving(states[|steps|])
    requires states[|steps|].s.out.Some? && SendsNext(p, states[|steps|], n)
    ensures Continues(p, states, steps, states', steps') && Receiving(states'[|steps'|])
    ensures states'[|steps'|].s == states[|steps|].s && Ack(n) in states'[|steps'|].net
  {
    Reachable(p, states, steps, |steps|);
    var sys := states[|steps|];
    var data := p.source[n * p.chunkSize..Min((n + 1) * p.chunkSize, |p.source|)];
    var l := ToReceiver(Data(n, data), true, NoFault, true);
    ChunkIsTaken(p, states, steps, |steps|, n, data);
    ReceiverKeepsSender(p, sys, l);
    StillReceiving(p, sys, l);
    states', steps' := OneMore(p, states, steps, l);
  }

  lemma ChunkAcknowledged(p: Params, states: seq<System>, steps: seq<Label>, n: nat)
    returns (states': seq<System>, steps': seq<Label>)
    requires p.Valid() && Run(p, states, steps) && n < p.Total() && Receiving(states[|steps|])
    requires var sys := states[|steps|];
      && sys.s.out.Some? && !sys.s.out.value.canceled && sys.s.phase.AwaitAck? && sys.s.phase.chunk == n
      && Ack(n) in sys.net
    ensures Continues(p, states, steps, states', steps') && Receiving(states'[|steps'|])
    ensures var sys := states'[|steps'|]; sys.s.out.Some? && !sys.s.out.value.canceled && SendsNext(p, sys, n + 1)
  {
    AckMovesOn(p, states, steps, |steps|);
    SenderKeepsReceiver(p, states[|steps|], ToSender(Ack(n)));
    NotCanceledByReply(p, states[|steps|], Ack(n));
    states', steps' := OneMore(p, states, steps, ToSender(Ack(n)));
  }

  lemma NotCanceledByReply(p: Params, sys: System, m: Msg)
    requires p.Valid() && sys.s.out.Some? && !sys.s.phase.Idle? && !sys.s.out.value.canceled && (m.Ack? || m.Accept?)
    ensures var s' := Apply(p, sys, ToSender(m)).s; s'.out.Some? ==> !s'.out.value.canceled
  {
  }

  /** The completion, and the verdict. */
  lemma Complete(p: Params, states: seq<System>, steps: seq<Label>)
    returns (states': seq<System>, steps': seq<Label>)
    requires p.Valid() && Run(p, states, steps) && Receiving(states[|steps|])
    requires var sys := states[|steps|];
      && sys.s.out.Some? && sys.s.phase.AwaitComplete? && !sys.s.out.value.canceled
      && SenderClose(true, false) in sys.net
    ensures Continues(p, states, steps, states', steps') && Delivered(p, states'[|steps'|])
  {
    var sys, l := states[|steps|], ToReceiver(SenderClose(true, false), true, NoFault, true);
    FirstCompletionDelivers(p, states, steps, |steps|, false);
    Reachable(p, states, steps, |steps|);
    CompletionEndsIt(p, states, steps, |steps|, false, true);
    ReceiverKeepsSender(p, sys, l);
    states', steps' := OneMore(p, states, steps, l);
    var verdict := ToSender(ReceiverClose(true, false));
    VerdictIsRecorded(p, states', steps', |steps'|, true, false);
    SenderKeepsReceiver(p, states'[|steps'|], verdict);
    var end, all := OneMore(p, states', steps', verdict);
    Onwards(p, states, steps, states', steps', end, all);
    return end, all;
  }

  /** The file is in place, and both sides know it. */
  ghost predicate Delivered(p: Params, sys: System) {
    && sys.r.final == Some(p.source) && sys.r.inb.None? && sys.r.ck.None?
    && (sys.r.row.Some? ==> sys.r.status.Complete?)
    && sys.s.out.Some? && sys.s.out.value.done && sys.s.phase.Idle? && sys.s.status.Complete? && sys.s.ck.None?
  }

  /**
   From every reachable state in which the transfer is neither over for the sender nor ended, spoiled or canceled at the
   receiver, whatever has been lost and whoever has restarted, it can still be completed.
   */
  lemma CanAlwaysFinish(p: Params, states: seq<System>, steps: seq<Label>)
    returns (states': seq<System>, steps': seq<Label>)
    requires p.Valid() && Run(p, states, steps)
    requires var sys := states[|steps|];
      && !sys.settled && !sys.spoiled && (sys.r.inb.Some? || !sys.r.status.Canceled?)
      && sys.s.out.Some? && sys.s.out.value.Live()
    ensures Continues(p, states, steps, states', steps') && Delivered(p, states'[|steps'|])
  {
    var resume, known;
    var a, x := StopFirst(p, states, steps);
    var b, y;
    b, y, resume, known := AskAndAnswer(p, a, x);
    Onwards(p, states, steps, a, x, b, y);
    var c, z := Start(p, b, y, resume, known);
    Onwards(p, states, steps, b, y, c, z);
    var d, u := Complete(p, c, z);
    Onwards(p, states, steps, c, z, d, u);
    return d, u;
  }

  /** From the accept to the last acknowledgement. */
  lemma Start(p: Params, states: seq<System>, steps: seq<Label>, resume: int, known: int)
    returns (states': seq<System>, steps': seq<Label>)
    requires p.Valid() && Run(p, states, steps) && Receiving(states[|steps|])
    requires var sys := states[|steps|];
      && sys.s.out.Some? && sys.s.phase.AwaitAccept? && !sys.s.out.value.canceled && Accept(resume, known) in sys.net
    ensures Continues(p, states, steps, states', steps') && Receiving(states'[|steps'|])
    ensures var sys := states'[|steps'|];
      && sys.s.out.Some? && sys.s.phase.AwaitComplete? && !sys.s.out.value.canceled
      && SenderClose(true, false) in sys.net
  {
    var m := Accept(resume, known);
    AcceptStarts(p, states, steps, |steps|, resume, known);
    SenderKeepsReceiver(p, states[|steps|], ToSender(m));
    NotCanceledByReply(p, states[|steps|], m);
    var n := Max(states[|steps|].s.out.value.next, Min(Max(resume, 0), p.Total()));
    states', steps' := OneMore(p, states, steps, ToSender(m));
    var end, all := AllChunks(p, states', steps', n);
    Onwards(p, states, steps, states', steps', end, all);
    return end, all;
  }

  /** So every file, cut into chunks of any size, has a run that delivers it. */
  lemma EveryFileHasARun(p: Params) returns (states: seq<System>, steps: seq<Label>)
    requires p.Valid()
    ensures Run(p, states, steps) && Delivered(p, states[|steps|])
  {
    states, steps := CanAlwaysFinish(p, [INITIAL], []);
  }
}
