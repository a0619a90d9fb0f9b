/**
 What every kind of step does to a transfer in a reachable state, told in the fields of the two records, of the rows
 and of the network.
 */
module TransferOutcomes {
  import opened Common
  import opened Chunks
  import opened TransferState
  import opened TransferProtocol
  import opened TransferSafety
  import TransferRuns

  // ----- The sender's run ------------------------------------------------------------------

  /** A run in progress that a reply reaches. */
  ghost predicate Hears(p: Params, states: seq<System>, steps: seq<Label>, k: nat, m: Msg)
    requires p.Valid()
  {
    && Run(p, states, steps) && k <= |steps|
    && states[k].s.out.Some? && !states[k].s.phase.Idle?
    && m in states[k].net && (m.Accept? || m.Reject? || m.Ack? || m.Nack? || m.ReceiverClose?)
  }

  lemma ReplyStep(p: Params, sys: System, m: Msg)
    requires p.Valid() && sys.s.out.Some? && !sys.s.phase.Idle?
    ensures var step := OnEvent(p, sys.s, Reply(m));
      Apply(p, sys, ToSender(m)).s == step.state && Apply(p, sys, ToSender(m)).net == sys.net + AsSet(step.sends)
  {
  }

  /** The run is over; how far it got is kept. */
  ghost predicate Over(before: Sender, after: Sender) {
    && before.out.Some? && after.out.Some? && after.phase.Idle? && !after.out.value.running
    && after.out.value.next == before.out.value.next && after.out.value.bytes == before.out.value.bytes
  }

  /**
   The receiver's verdict ends the run for good. The row says what the verdict says, unless the user has canceled
   meanwhile.
   */
  lemma VerdictIsRecorded(p: Params, states: seq<System>, steps: seq<Label>, k: nat, ok: bool, byCancel: bool)
    requires p.Valid() && Hears(p, states, steps, k, ReceiverClose(ok, byCancel)) && states[k].s.phase.AwaitComplete?
    ensures var s, s' := states[k].s, Apply(p, states[k], ToSender(ReceiverClose(ok, byCancel))).s;
      && Over(s, s') && s'.ck.None? && s'.out.value.done && s'.out.value.rejected == s.out.value.rejected
      && s'.out.value.canceled == (s.out.value.canceled || (!ok && byCancel))
      && s'.status ==
           if s.out.value.canceled then Canceled else if ok then Complete else if byCancel then Canceled else Failed
  {
    ReplyStep(p, states[k], ReceiverClose(ok, byCancel));
  }

  /** A rejection ends the run for good, before or between the chunks. */
  lemma RejectionIsRecorded(p: Params, states: seq<System>, steps: seq<Label>, k: nat, byCancel: bool)
    requires p.Valid() && Hears(p, states, steps, k, Reject(byCancel)) && !states[k].s.phase.AwaitComplete?
    ensures var s, s' := states[k].s, Apply(p, states[k], ToSender(Reject(byCancel))).s;
      && Over(s, s') && s'.ck.None? && s'.out.value.rejected && s'.out.value.done == s.out.value.done
      && s'.out.value.canceled == (s.out.value.canceled || byCancel)
      && s'.status == if s.out.value.canceled || byCancel then Canceled else Rejected
  {
    ReplyStep(p, states[k], Reject(byCancel));
  }

  /** An accept starts the chunks at the later of the two sides' next chunks, and that is stored at once. */
  lemma AcceptStarts(p: Params, states: seq<System>, steps: seq<Label>, k: nat, resume: int, known: int)
    requires p.Valid() && Hears(p, states, steps, k, Accept(resume, known)) && states[k].s.phase.AwaitAccept?
    ensures var s, sys' := states[k].s, Apply(p, states[k], ToSender(Accept(resume, known)));
      var n := Max(s.out.value.next, Min(Max(resume, 0), p.Total()));
      && 0 <= n <= p.Total() && sys'.s.out.Some? && sys'.s.out.value.running && sys'.s.status.Accepted?
      && sys'.s.out.value.next == n && sys'.s.out.value.bytes == Min(n * p.chunkSize, |p.source|)
      && sys'.s.ck == Some(Checkpoint(n, Min(n * p.chunkSize, |p.source|)))
      && SendsNext(p, sys', n)
  {
    Reachable(p, states, steps, k);
    ReplyStep(p, states[k], Accept(resume, known));
    OnAcceptedOk(p, states[k].s, resume);
    var n := Max(states[k].s.out.value.next, Min(Max(resume, 0), p.Total()));
    if n < p.Total() { ChunkBytesLength(p, n); }
  }

  /** The sender waits for chunk n, on its way with the source's bytes, or after the last one for the verdict. */
  ghost predicate SendsNext(p: Params, sys: System, n: nat)
    requires p.Valid() && n <= p.Total()
  {
    if n < p.Total() then
      && sys.s.phase.AwaitAck? && sys.s.phase.chunk == n && sys.s.phase.attempt == 0
      && 0 <= n * p.chunkSize <= Min((n + 1) * p.chunkSize, |p.source|)
      && Data(n, p.source[n * p.chunkSize..Min((n + 1) * p.chunkSize, |p.source|)]) in sys.net
    else
      sys.s.phase.AwaitComplete? && SenderClose(true, false) in sys.net
  }

  lemma SentFrom(p: Params, sys: System, s: Sender, n: nat, sent: int)
    requires p.Valid() && n <= p.Total()
    requires sys.s == SendFrom(p, s, n, sent).state && forall m :: m in SendFrom(p, s, n, sent).sends ==> m in sys.net
    ensures SendsNext(p, sys, n)
  {
    if n < p.Total() { ChunkBytesLength(p, n); }
  }

  lemma AckedSender(p: Params, s: Sender)
    requires p.Valid() && SenderOk(p, s) && s.out.Some? && s.phase.AwaitAck?
    ensures var n, bytes := s.phase.chunk + 1, Min((s.phase.chunk + 1) * p.chunkSize, |p.source|);
      var step := OnEvent(p, s, Reply(Ack(s.phase.chunk)));
      && n == s.out.value.next + 1 && 0 <= n <= p.Total() && s.ck.Some?
      && step.state.out.value.next == n && step.state.out.value.bytes == bytes && step.state.status == s.status
      && step.state.ck == (if n - s.ck.value.next >= 50 || bytes - s.ck.value.bytes >= 10 * 1024 * 1024
                           then Some(Checkpoint(n, bytes)) else s.ck)
      && step == SendFrom(p, step.state, n, bytes)
  {
    ChunkBytesLength(p, s.phase.chunk);
  }

  /** An ack moves the run on by one chunk; it is stored once 50 chunks or 10 MiB have gone by since the last time. */
  lemma AckMovesOn(p: Params, states: seq<System>, steps: seq<Label>, k: nat)
    requires p.Valid() && Run(p, states, steps) && k <= |steps|
    requires states[k].s.out.Some? && states[k].s.phase.AwaitAck? && Ack(states[k].s.phase.chunk) in states[k].net
    ensures var s, sys' := states[k].s, Apply(p, states[k], ToSender(Ack(states[k].s.phase.chunk)));
      var n, bytes := s.phase.chunk + 1, Min((s.phase.chunk + 1) * p.chunkSize, |p.source|);
      && n == s.out.value.next + 1 && 0 <= n <= p.Total() && sys'.s.out.Some? && sys'.s.status == s.status
      && sys'.s.out.value.next == n && sys'.s.out.value.bytes == bytes
      && s.ck.Some?
      && sys'.s.ck == (if n - s.ck.value.next >= 50 || bytes - s.ck.value.bytes >= 10 * 1024 * 1024
                       then Some(Checkpoint(n, bytes)) else s.ck)
      && SendsNext(p, sys', n)
  {
    Reachable(p, states, steps, k);
    var s := states[k].s;
    ReplyStep(p, states[k], Ack(s.phase.chunk));
    AckedSender(p, s);
    var step := OnEvent(p, s, Reply(Ack(s.phase.chunk)));
    var sys' := Apply(p, states[k], ToSender(Ack(s.phase.chunk)));
    SentFrom(p, sys', step.state, s.phase.chunk + 1, step.state.out.value.bytes);
  }

  /** A timer or a nack sends the same chunk again while attempts are left, and otherwise ends the run. */
  lemma FailedAttemptIsRepeated(p: Params, states: seq<System>, steps: seq<Label>, k: nat, l: Label)
    requires p.Valid() && Run(p, states, steps) && k <= |steps|
    requires states[k].s.out.Some? && states[k].s.phase.AwaitAck?
    requires l.TimerFires? || l == ToSender(Nack(states[k].s.phase.chunk))
    ensures var s, sys' := states[k].s, Apply(p, states[k], l);
      if s.phase.attempt + 1 < p.maxRetries then
        && sys'.s == s.(phase := s.phase.(attempt := s.phase.attempt + 1))
        && 0 <= s.phase.chunk < p.Total()
        && sys'.net == states[k].net + {Data(s.phase.chunk, p.ChunkBytes(s.phase.chunk))}
      else
        Interrupted(s, sys'.s) && sys'.net == states[k].net
  {
    Reachable(p, states, steps, k);
    RunningIsUndecided(p, states, steps, k);
    var s := states[k].s;
    if l.ToSender? { ReplyStep(p, states[k], l.msg); }
    TransferRuns.Sent(states[k].net, Data(s.phase.chunk, p.ChunkBytes(s.phase.chunk)));
  }

  /** The run is over, and nothing is decided: the transfer waits again, unless the user has canceled. */
  ghost predicate Interrupted(before: Sender, after: Sender) {
    && Over(before, after)
    && after.out.value == before.out.value.(running := false)
    && !before.out.value.done && !before.out.value.rejected
    && (if before.out.value.canceled then after.status.Canceled? && after.ck.None?
        else after.status.Pending? && after.ck == before.ck)
  }

  /** Nothing is decided about a transfer that runs, other than that its user wants it canceled. */
  ghost predicate Undecided(s: Sender) {
    s.out.Some? && (s.out.value.running || !s.phase.Idle?) ==>
      s.out.value.running && !s.phase.Idle? && !s.out.value.done && !s.out.value.rejected
  }

  lemma UndecidedEvent(p: Params, s: Sender, e: Event)
    requires p.Valid() && Undecided(s)
    ensures Undecided(SenderEvent(p, s, e).state)
  {
  }

  lemma UndecidedRest(p: Params, s: Sender, known: int)
    requires p.Valid() && Undecided(s)
    ensures Undecided(Begin(s, known).state) && Undecided(CancelOutbound(s).state)
    ensures Undecided(Retry(s)) && Undecided(RestartSender(p, s))
  {
  }

  lemma UndecidedStep(p: Params, sys: System, l: Label)
    requires p.Valid() && Undecided(sys.s)
    ensures Undecided(Apply(p, sys, l).s)
  {
    if AtReceiver(l) {
      ReceiverKeepsSender(p, sys, l);
    } else {
      UndecidedRest(p, sys.s, sys.known);
      match l
      case ToSender(m) => UndecidedEvent(p, sys.s, Reply(m));
      case TimerFires => UndecidedEvent(p, sys.s, Timeout);
      case RunStops => UndecidedEvent(p, sys.s, Stop);
      case _ =>
    }
  }

  lemma {:induction false} RunningIsUndecided(p: Params, states: seq<System>, steps: seq<Label>, k: nat)
    requires p.Valid() && Run(p, states, steps) && k <= |steps|
    ensures Undecided(states[k].s)
  {
    if k > 0 {
      RunningIsUndecided(p, states, steps, k - 1);
      assert Follows(p, states, steps, k - 1);
      UndecidedStep(p, states[k - 1], steps[k - 1]);
    }
  }

  /** A run that is stopped, or waits too long for the verdict, is interrupted. */
  lemma StopInterrupts(p: Params, states: seq<System>, steps: seq<Label>, k: nat, l: Label)
    requires p.Valid() && Run(p, states, steps) && k <= |steps|
    requires states[k].s.out.Some? && !states[k].s.phase.Idle?
    requires l.RunStops? || (l.TimerFires? && states[k].s.phase.AwaitComplete?)
    ensures Interrupted(states[k].s, Apply(p, states[k], l).s) && Apply(p, states[k], l).net == states[k].net
  {
    RunningIsUndecided(p, states, steps, k);
    TransferRuns.Sent(states[k].net, FileRequest(0));
  }

  /** Everything that a run does not wait for is discarded. */
  lemma OtherRepliesAreDiscarded(p: Params, states: seq<System>, steps: seq<Label>, k: nat, m: Msg)
    requires p.Valid() && Hears(p, states, steps, k, m)
    requires match states[k].s.phase
      case AwaitAccept => !m.Accept? && !m.Reject?
      case AwaitAck(i, _, _) => m.Accept? || m.ReceiverClose? || ((m.Ack? || m.Nack?) && m.chunk != i)
      case _ => !m.ReceiverClose?
    ensures Apply(p, states[k], ToSender(m)).s == states[k].s && Apply(p, states[k], ToSender(m)).net == states[k].net
  {
    ReplyStep(p, states[k], m);
    TransferRuns.Sent(states[k].net, m);
  }

  // ----- The sender between runs -----------------------------------------------------------

  /** A run begins exactly for a transfer in memory that is neither running nor over. */
  lemma BeginsExactly(p: Params, states: seq<System>, steps: seq<Label>, k: nat)
    requires p.Valid() && Run(p, states, steps) && k <= |steps|
    ensures var s, sys' := states[k].s, Apply(p, states[k], BeginRun);
      if s.out.Some? && !s.out.value.running && !s.out.value.done && !s.out.value.rejected && !s.out.value.canceled then
        && sys'.s == s.(out := Some(s.out.value.(running := true)), phase := AwaitAccept)
        && sys'.net == states[k].net + {FileRequest(states[k].known)}
      else
        sys'.s == s && sys'.net == states[k].net
  {
    TransferRuns.Sent(states[k].net, FileRequest(states[k].known));
  }

  /** A cancel takes effect at once, or is left to the run and told to the receiver; a late one does nothing. */
  lemma CancelTakesEffect(p: Params, states: seq<System>, steps: seq<Label>, k: nat)
    requires p.Valid() && Run(p, states, steps) && k <= |steps| && states[k].s.out.Some?
    ensures var s, o, sys' := states[k].s, states[k].s.out.value, Apply(p, states[k], UserCancelsSend);
      if o.done || o.rejected || o.canceled then
        sys'.s == s && sys'.net == states[k].net
      else if o.running then
        && sys'.s == s.(out := Some(o.(canceled := true)))
        && sys'.net == states[k].net + {SenderClose(false, true)}
      else
        && sys'.s.out == Some(o.(canceled := true, done := true)) && sys'.s.status.Canceled? && sys'.s.ck.None?
        && sys'.s.phase.Idle? && sys'.net == states[k].net
  {
    Reachable(p, states, steps, k);
    TransferRuns.Sent(states[k].net, SenderClose(false, true));
  }

  /** A retry starts from zero, and is refused only while a run is on. */
  lemma RetryStartsOver(p: Params, states: seq<System>, steps: seq<Label>, k: nat)
    requires p.Valid() && Run(p, states, steps) && k <= |steps|
    ensures var s, s' := states[k].s, Apply(p, states[k], UserRetries).s;
      if s.out.Some? && s.out.value.running then s' == s
      else
        && s'.out == Some(Outbound(0, 0, 0, 0, false, false, false, false)) && s'.phase.Idle? && s'.ck.None?
        && s'.status.Pending?
  {
  }

  /** A verdict that finds no run is believed only if it is good, every byte was sent, and it is the first one. */
  lemma LateVerdict(p: Params, states: seq<System>, steps: seq<Label>, k: nat, ok: bool, byCancel: bool)
    requires p.Valid() && Run(p, states, steps) && k <= |steps|
    requires states[k].s.out.None? || states[k].s.phase.Idle?
    ensures var s, s' := states[k].s, Apply(p, states[k], ToSender(ReceiverClose(ok, byCancel))).s;
      if ok && s.out.Some? && s.out.value.next == p.Total() && !s.out.value.done then
        s'.out == Some(s.out.value.(done := true, running := false)) && s'.status.Complete? && s'.ck.None?
      else if !ok && byCancel then
        s' == s.(status := Canceled)
      else
        s' == s
  {
    Reachable(p, states, steps, k);
    if states[k].s.out.Some? { AllBytesIffAllChunks(states[k].s.out.value.next, p.chunkSize, |p.source|); }
  }

  /** A restart brings a transfer back exactly if it has a checkpoint and its row is not final, and then there. */
  lemma SenderComesBack(p: Params, states: seq<System>, steps: seq<Label>, k: nat)
    requires p.Valid() && Run(p, states, steps) && k <= |steps|
    ensures var s, s' := states[k].s, Apply(p, states[k], SenderRestarts).s;
      && s'.phase.Idle? && s'.status == s.status
      && (if s.ck.Some? && !(s.status.Complete? || s.status.Rejected? || s.status.Failed? || s.status.Canceled?) then
            && s'.ck == s.ck
            && s'.out == Some(Outbound(s.ck.value.next, s.ck.value.bytes, s.ck.value.next, s.ck.value.bytes,
                                       false, false, false, false))
          else s'.out.None? && s'.ck.None?)
  {
    Reachable(p, states, steps, k);
  }
}
