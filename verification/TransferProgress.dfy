/**
 How far each side is, over whole runs: the receiver's prefix until it first restarts, and how much
 a sender may send again after one.
 */
module TransferProgress {
  import opened Common
  import opened Chunks
  import opened TransferState
  import opened TransferProtocol
  import opened TransferSafety

  // ----- The receiver, until it first restarts ---------------------------------------------

  /** The chunks the receiver has, as a count; nothing before it accepts. */
  function Reached(r: Receiver): int {
    if r.inb.Some? then r.inb.value.next else 0
  }

  /** What a message says about the receiver's progress while it never restarts. */
  ghost predicate MsgBehind(r: Receiver, m: Msg) {
    match m
    case Data(i, _) => i <= Reached(r)
    case Accept(resume, known) => known <= resume <= Reached(r)
    case Ack(i) => i < Reached(r)
    case FileRequest(known) => known <= Reached(r)
    case _ => true
  }

  /** The received chunks are exactly those below `next`, and the byte count is theirs. */
  ghost predicate PrefixOnly(p: Params, r: Receiver) {
    r.inb.Some? ==>
      && r.inb.value.received == FirstChunks(r.inb.value.next)
      && r.inb.value.bytes == p.Below(r.inb.value.next)
  }

  /** The receiver has a prefix, and neither the sender nor any message is ahead of it. */
  ghost predicate InStep(p: Params, sys: System)
    requires p.Valid()
  {
    && PrefixOnly(p, sys.r)
    && 0 <= sys.known <= Reached(sys.r)
    && (sys.s.out.Some? ==> sys.s.out.value.next <= sys.known)
    && (sys.s.ck.Some? ==> sys.s.ck.value.next <= sys.known)
    && (sys.r.asked.Some? ==> sys.r.asked.value <= Reached(sys.r))
    && (forall m :: m in sys.net ==> MsgBehind(sys.r, m))
    && (sys.current && (sys.s.phase.AwaitAck? || sys.s.phase.AwaitComplete?) && sys.s.out.Some? ==>
          sys.s.out.value.next == sys.known)
  }

  /** What one event does to the sender's progress: nothing, a resume, or one more chunk. */
  lemma EventProgress(p: Params, s: Sender, e: Event)
    requires p.Valid() && SenderOk(p, s) && s.out.Some?
    requires e.Reply? && e.msg.Ack? ==> e.msg.chunk >= 0
    ensures var step, n := SenderEvent(p, s, e), s.out.value.next;
      && step.state.out.Some?
      && var n' := step.state.out.value.next;
      && (step.state.ck.Some? ==> step.state.ck.value.next <= n')
      && (forall m :: m in step.sends ==> !m.Accept? && !m.Ack? && !m.FileRequest? && (m.Data? ==> m.chunk <= n'))
      && (if s.phase.AwaitAccept? && e.Reply? && e.msg.Accept? then
            n' == Max(n, Min(Max(e.msg.resume, 0), p.Total()))
          else if s.phase.AwaitAck? && e == Reply(Ack(s.phase.chunk)) then
            s.phase.chunk == n && n' == n + 1
          else
            n' == n && (step.state.phase.AwaitAck? || step.state.phase.AwaitComplete? ==>
              s.phase.AwaitAck? || s.phase.AwaitComplete?))
  {
    SenderEventOk(p, s, e);
    if Matches(s.phase, e) && e.Reply? {
      if e.msg.Accept? {
        OnAcceptedOk(p, s, e.msg.resume);
      } else if e.msg.Ack? {
        OnDeliveredOk(p, s);
      }
    }
  }

  lemma SenderEventInStep(p: Params, sys: System, e: Event)
    requires p.Valid() && SenderOk(p, sys.s) && InStep(p, sys) && Reached(sys.r) <= p.Total()
    requires e.Reply? ==> e.msg in sys.net && (e.msg.Ack? ==> e.msg.chunk >= 0)
    ensures var sys' := WithSender(sys, SenderEvent(p, sys.s, e));
      InStep(p, if e.Reply? then sys'.(current := IsCurrent(sys, e.msg)) else sys')
  {
    if sys.s.out.Some? {
      EventProgress(p, sys.s, e);
      if e.Reply? { assert MsgBehind(sys.r, e.msg); }
    }
  }

  lemma ReceiverInStep(p: Params, sys: System, step: ReceiverStep)
    requires p.Valid() && InStep(p, sys)
    requires PrefixOnly(p, step.state) && Reached(sys.r) <= Reached(step.state)
    requires step.state.asked.Some? ==> step.state.asked.value <= Reached(step.state)
    requires forall m :: m in step.sends ==> MsgBehind(step.state, m)
    ensures InStep(p, WithReceiver(sys, step))
  {
    forall m | m in sys.net ensures MsgBehind(step.state, m) {
      assert MsgBehind(sys.r, m);
    }
  }

  /** A chunk is either a repeat, which changes nothing, or the next one. */
  lemma ChunkInStep(p: Params, r: Receiver, i: int, data: seq<byte>, fault: Fault)
    requires p.Valid() && ReceiverOk(p, r) && PrefixOnly(p, r)
    requires r.inb.Some? ==> r.inb.value.file == p.Info() && i <= r.inb.value.next
    requires 0 <= i < p.Total() && data == p.ChunkBytes(i)
    ensures var step := OnData(p, r, i, data, fault);
      && PrefixOnly(p, step.state)
      && Reached(r) <= Reached(step.state)
      && forall m :: m in step.sends ==> MsgBehind(step.state, m)
  {
    if r.inb.Some? {
      var b := r.inb.value;
      if i == b.next {
        ChunkBytesLength(p, i);
        assert i + 1 !in b.received + {i};
        assert Advance(b.received + {i}, i, p.Total()) == i + 1;
        assert b.received + {i} == FirstChunks(i + 1);
      }
    }
  }

  lemma DeliveryInStep(p: Params, sys: System, m: Msg, approved: bool, fault: Fault, renames: bool)
    requires p.Valid() && ReceiverOk(p, sys.r) && InStep(p, sys) && m in sys.net && MsgOk(p, sys.r, m)
    requires sys.r.inb.Some? ==> sys.r.inb.value.file == p.Info()
    requires sys.r.inb.Some? ==> ReceiverEvent(p, sys.r, m, approved, fault, renames).state.inb.Some?
    ensures InStep(p, WithReceiver(sys, ReceiverEvent(p, sys.r, m, approved, fault, renames)))
  {
    assert MsgBehind(sys.r, m);
    ZeroBelow(p);
    if m.Data? { ChunkInStep(p, sys.r, m.chunk, m.bytes, fault); }
    ReceiverInStep(p, sys, ReceiverEvent(p, sys.r, m, approved, fault, renames));
  }

  /** A decision that replaces no record. */
  lemma DecideInStep(p: Params, sys: System, approved: bool, other: Option<seq<byte>>)
    requires p.Valid() && InStep(p, sys) && sys.r.asked.Some? && !Replaces(sys.r, approved)
    ensures InStep(p, WithReceiver(sys, Decide(p, sys.r, approved, other)))
  {
    ZeroBelow(p);
    ReceiverInStep(p, sys, Decide(p, sys.r, approved, other));
  }

  ghost predicate RestartsReceiver(l: Label) {
    l.ReceiverRestarts? || l.ReceiverDiesAfterRename?
  }

  lemma BeginInStep(p: Params, sys: System)
    requires p.Valid() && InStep(p, sys)
    ensures InStep(p, WithSender(sys, Begin(sys.s, sys.known)))
  {
  }

  lemma CancelInStep(p: Params, sys: System)
    requires p.Valid() && InStep(p, sys)
    ensures InStep(p, WithSender(sys, CancelOutbound(sys.s)))
  {
  }

  lemma ResetInStep(p: Params, sys: System, l: Label)
    requires p.Valid() && SenderOk(p, sys.s) && InStep(p, sys) && (l.UserRetries? || l.SenderRestarts?)
    ensures InStep(p, ApplyAtSender(p, sys, l))
  {
    RestartSenderOk(p, sys.s);
  }

  lemma ReplyInStep(p: Params, sys: System, m: Msg)
    requires p.Valid() && Inv(p, sys) && !sys.settled && !sys.spoiled && InStep(p, sys) && m in sys.net
    ensures InStep(p, ApplyAtSender(p, sys, ToSender(m)))
  {
    assert MsgOk(p, sys.r, m);
    SenderEventInStep(p, sys, Reply(m));
  }

  lemma SenderStepInStep(p: Params, sys: System, l: Label)
    requires p.Valid() && Inv(p, sys) && !sys.settled && !sys.spoiled && InStep(p, sys) && Enabled(sys, l)
    requires !AtReceiver(l)
    ensures InStep(p, ApplyAtSender(p, sys, l))
  {
    match l
    case ToSender(m) => ReplyInStep(p, sys, m);
    case TimerFires => SenderEventInStep(p, sys, Timeout);
    case RunStops => SenderEventInStep(p, sys, Stop);
    case BeginRun => BeginInStep(p, sys);
    case UserCancelsSend => CancelInStep(p, sys);
    case UserRetries => ResetInStep(p, sys, l);
    case SenderRestarts => ResetInStep(p, sys, l);
    case RefuseRequest(_) =>
  }

  lemma ReceiverStepInStep(p: Params, sys: System, l: Label)
    requires p.Valid() && Inv(p, sys) && !sys.settled && !sys.spoiled && InStep(p, sys) && Enabled(sys, l)
    requires AtReceiver(l)
    requires !RestartsReceiver(l) && !ApplyAtReceiver(p, sys, l).settled && !ApplyAtReceiver(p, sys, l).replaced
    ensures InStep(p, ApplyAtReceiver(p, sys, l))
  {
    match l
    case ToReceiver(m, approved, fault, renames) =>
      assert MsgOk(p, sys.r, m);
      DeliveryInStep(p, sys, m, approved, fault, renames);
    case Asks(known) => assert MsgBehind(sys.r, FileRequest(known)); MemoInStep(p, sys, Ask(sys.r, known));
    case Decides(approved, other) => DecideInStep(p, sys, approved, other);
    case Dismisses => MemoInStep(p, sys, sys.r.(asked := None));
    case UserCancelsReceive => ReceiverInStep(p, sys, CancelInbound(sys.r));
    case ClearsHistory => MemoInStep(p, sys, DropRow(sys.r));
  }

  lemma MemoInStep(p: Params, sys: System, r: Receiver)
    requires p.Valid() && InStep(p, sys) && r == sys.r.(asked := r.asked, row := r.row, status := r.status)
    requires r.asked.Some? ==> r.asked.value <= Reached(r)
    ensures InStep(p, sys.(r := r))
  {
    forall m | m in sys.net ensures MsgBehind(r, m) {
      assert MsgBehind(sys.r, m);
    }
  }

  lemma StepInStep(p: Params, sys: System, l: Label)
    requires p.Valid() && Inv(p, sys) && !sys.settled && !sys.spoiled && InStep(p, sys) && Enabled(sys, l)
    requires !RestartsReceiver(l) && !Apply(p, sys, l).settled && !Apply(p, sys, l).replaced
    ensures InStep(p, Apply(p, sys, l))
  {
    if AtReceiver(l) { ReceiverStepInStep(p, sys, l); } else { SenderStepInStep(p, sys, l); }
  }

  /** Before the receiver's first restart, and while its first record lasts, without a late approval. */
  ghost predicate FirstLife(sys: System) {
    !sys.settled && !sys.restartedR && !sys.replaced
  }

  lemma FirstLifeBefore(p: Params, sys: System, l: Label)
    requires p.Valid() && Enabled(sys, l) && FirstLife(Apply(p, sys, l))
    ensures FirstLife(sys) && !RestartsReceiver(l) && !Spoils(p, sys, l)
  {
    if !AtReceiver(l) { SenderKeepsReceiver(p, sys, l); }
  }

  /** Nothing can have spoiled the first life. */
  lemma {:induction false} FirstLifeUnspoiled(p: Params, states: seq<System>, steps: seq<Label>, k: nat)
    requires p.Valid() && Run(p, states, steps) && k <= |steps| && FirstLife(states[k])
    ensures !states[k].spoiled
  {
    if k > 0 {
      assert Follows(p, states, steps, k - 1);
      FirstLifeBefore(p, states[k - 1], steps[k - 1]);
      SpoiledBySpoils(p, states[k - 1], steps[k - 1]);
      FirstLifeUnspoiled(p, states, steps, k - 1);
    }
  }

  lemma FirstLifeInStep(p: Params, sys: System, l: Label)
    requires p.Valid() && Inv(p, sys) && Enabled(sys, l) && (FirstLife(sys) ==> InStep(p, sys) && !sys.spoiled)
    ensures FirstLife(Apply(p, sys, l)) ==> FirstLife(sys) && InStep(p, Apply(p, sys, l))
  {
    var sys' := Apply(p, sys, l);
    if FirstLife(sys') {
      FirstLifeBefore(p, sys, l);
      StepInStep(p, sys, l);
    }
  }

  lemma {:induction false} InStepReachable(p: Params, states: seq<System>, steps: seq<Label>, k: nat)
    requires p.Valid() && Run(p, states, steps) && k <= |steps|
    ensures FirstLife(states[k]) ==> InStep(p, states[k])
  {
    if k == 0 {
      ZeroBelow(p);
    } else {
      InStepReachable(p, states, steps, k - 1);
      Reachable(p, states, steps, k - 1);
      if FirstLife(states[k - 1]) { FirstLifeUnspoiled(p, states, steps, k - 1); }
      assert Follows(p, states, steps, k - 1);
      FirstLifeInStep(p, states[k - 1], steps[k - 1]);
    }
  }

  // ----- How much is sent again ------------------------------------------------------------

  /**
   The sender's checkpoint is never far behind what it has known to be delivered. `first` says that the
   sender has not restarted.
   */
  ghost predicate Near(p: Params, s: Sender, known: int, first: bool) {
    && (s.out.Some? ==> s.out.value.next <= known)
    && (s.out.Some? && first ==> s.out.value.next == known)
    && (s.ck.Some? ==>
      && known - s.ck.value.next < OUTBOUND_CHUNK_INTERVAL
      && p.Below(known) - s.ck.value.bytes < OUTBOUND_BYTE_INTERVAL)
    && (s.out.Some? && s.ck.None? && (s.out.value.Live() || s.out.value.running) ==> known == 0)
  }

  ghost predicate NearCheckpoint(p: Params, sys: System) {
    Near(p, sys.s, sys.known, !sys.restartedS)
  }

  lemma OnAcceptedNear(p: Params, s: Sender, known: int, first: bool, resume: int)
    requires p.Valid() && SenderOk(p, s) && Near(p, s, known, first) && s.out.Some? && s.phase.AwaitAccept?
    ensures var s' := OnAccepted(p, s, resume).state; Near(p, s', Knows(known, s'), first)
  {
    OnAcceptedOk(p, s, resume);
    var n, start := s.out.value.next, OnAccepted(p, s, resume).state.out.value.next;
    if s.ck.Some? { BytesBelowMonotone(s.ck.value.next, start, p.chunkSize, |p.source|); }
  }

  lemma OnDeliveredNear(p: Params, s: Sender, known: int, first: bool)
    requires p.Valid() && SenderOk(p, s) && Near(p, s, known, first) && s.out.Some? && s.phase.AwaitAck?
    ensures var s' := OnDelivered(p, s, s.phase.chunk, s.phase.sent).state; Near(p, s', Knows(known, s'), first)
  {
    OnDeliveredOk(p, s);
    BytesBelowMonotone(s.ck.value.next, s.phase.chunk + 1, p.chunkSize, |p.source|);
  }

  /** Every other event leaves the progress alone; it may end the run and drop the checkpoint. */
  lemma OtherEventNear(p: Params, s: Sender, known: int, first: bool, e: Event)
    requires p.Valid() && SenderOk(p, s) && Near(p, s, known, first) && s.out.Some?
    requires !(e.Reply? && (e.msg.Accept? || e.msg.Ack?))
    ensures var s' := OnEvent(p, s, e).state; Near(p, s', Knows(known, s'), first)
  {
  }

  lemma LateCloseNear(p: Params, s: Sender, known: int, first: bool, ok: bool, byCancel: bool)
    requires p.Valid() && SenderOk(p, s) && Near(p, s, known, first) && s.phase.Idle?
    ensures var s' := OnLateClose(p, s, ok, byCancel); Near(p, s', Knows(known, s'), first)
  {
  }

  lemma SenderEventNear(p: Params, s: Sender, known: int, first: bool, e: Event)
    requires p.Valid() && SenderOk(p, s) && Near(p, s, known, first)
    ensures var s' := SenderEvent(p, s, e).state; Near(p, s', Knows(known, s'), first)
  {
    if s.phase.Idle? {
      if e.Reply? && e.msg.ReceiverClose? { LateCloseNear(p, s, known, first, e.msg.ok, e.msg.byCancel); }
    } else if e.Reply? && e.msg.Accept? {
      if s.phase.AwaitAccept? { OnAcceptedNear(p, s, known, first, e.msg.resume); }
    } else if e.Reply? && e.msg.Ack? {
      if Matches(s.phase, e) { OnDeliveredNear(p, s, known, first); }
    } else {
      OtherEventNear(p, s, known, first, e);
    }
  }

  lemma SenderStepNear(p: Params, sys: System, l: Label)
    requires p.Valid() && SenderOk(p, sys.s) && NearCheckpoint(p, sys) && !AtReceiver(l)
    ensures NearCheckpoint(p, ApplyAtSender(p, sys, l))
  {
    match l
    case ToSender(m) => SenderEventNear(p, sys.s, sys.known, !sys.restartedS, Reply(m));
    case TimerFires => SenderEventNear(p, sys.s, sys.known, !sys.restartedS, Timeout);
    case RunStops => SenderEventNear(p, sys.s, sys.known, !sys.restartedS, Stop);
    case SenderRestarts => RestartSenderOk(p, sys.s);
    case _ =>
  }

  lemma StepNear(p: Params, sys: System, l: Label)
    requires p.Valid() && SenderOk(p, sys.s) && NearCheckpoint(p, sys)
    ensures NearCheckpoint(p, Apply(p, sys, l))
  {
    if AtReceiver(l) { ReceiverKeepsSender(p, sys, l); } else { SenderStepNear(p, sys, l); }
  }

  lemma {:induction false} NearReachable(p: Params, states: seq<System>, steps: seq<Label>, k: nat)
    requires p.Valid() && Run(p, states, steps) && k <= |steps|
    ensures NearCheckpoint(p, states[k])
  {
    if k > 0 {
      NearReachable(p, states, steps, k - 1);
      Reachable(p, states, steps, k - 1);
      assert Follows(p, states, steps, k - 1);
      StepNear(p, states[k - 1], steps[k - 1]);
    }
  }

  /** Step j of the run hands chunk c's acknowledgement to the run that was waiting for it. */
  ghost predicate AcknowledgedAt(states: seq<System>, steps: seq<Label>, j: nat, c: int)
    requires j < |steps| && |states| == |steps| + 1
  {
    states[j].s.out.Some? && states[j].s.phase.AwaitAck? && states[j].s.phase.chunk == c && steps[j] == ToSender(Ack(c))
  }

  lemma KnownGrows(p: Params, sys: System, l: Label)
    requires p.Valid() && SenderOk(p, sys.s) && !l.UserRetries?
    ensures Apply(p, sys, l).known >= sys.known
  {
    if AtReceiver(l) { ReceiverKeepsSender(p, sys, l); }
  }

  lemma DeliveryIsKnown(p: Params, sys: System)
    requires p.Valid() && SenderOk(p, sys.s) && sys.s.out.Some? && sys.s.phase.AwaitAck?
    ensures sys.s.phase.chunk < Apply(p, sys, ToSender(Ack(sys.s.phase.chunk))).known
  {
    OnDeliveredOk(p, sys.s);
  }

  lemma FirstKnown(p: Params, states: seq<System>, steps: seq<Label>, j: nat, c: int)
    requires p.Valid() && Run(p, states, steps) && j < |steps| && AcknowledgedAt(states, steps, j, c)
    ensures c < states[j + 1].known
  {
    Reachable(p, states, steps, j);
    assert Follows(p, states, steps, j);
    DeliveryIsKnown(p, states[j]);
  }

  lemma StaysKnown(p: Params, states: seq<System>, steps: seq<Label>, k: nat)
    requires p.Valid() && Run(p, states, steps) && 0 < k <= |steps| && !steps[k - 1].UserRetries?
    ensures states[k - 1].known <= states[k].known
  {
    Reachable(p, states, steps, k - 1);
    assert Follows(p, states, steps, k - 1);
    KnownGrows(p, states[k - 1], steps[k - 1]);
  }

  lemma {:induction false} KnownChain(states: seq<System>, j: nat, k: nat, c: int)
    requires j < k < |states| && c < states[j + 1].known
    requires forall t {:trigger states[t]} :: j < t < k ==> states[t].known <= states[t + 1].known
    ensures c < states[k].known
  {
    if k > j + 1 {
      KnownChain(states, j, k - 1, c);
      assert states[k - 1].known <= states[k].known;
    }
  }

  /** What was acknowledged stays known until the user retries. */
  lemma AcknowledgedIsKnown(p: Params, states: seq<System>, steps: seq<Label>, j: nat, k: nat, c: int)
    requires p.Valid() && Run(p, states, steps) && j < k <= |steps| && AcknowledgedAt(states, steps, j, c)
    requires forall t :: j < t < k ==> !steps[t].UserRetries?
    ensures c < states[k].known
  {
    FirstKnown(p, states, steps, j, c);
    forall t {:trigger states[t]} | j < t < k ensures states[t].known <= states[t + 1].known {
      StaysKnown(p, states, steps, t + 1);
    }
    KnownChain(states, j, k, c);
  }

  // ----- The main results ------------------------------------------------------------------

  /**
   Until the receiver first restarts, its first record holds exactly a prefix of the chunks, and counts exactly its
   bytes.
   */
  lemma ReceivedIsPrefix(p: Params, states: seq<System>, steps: seq<Label>, k: nat)
    requires p.Valid() && Run(p, states, steps) && k <= |steps|
    requires FirstLife(states[k]) && states[k].r.inb.Some?
    ensures var b := states[k].r.inb.value;
      && (forall i :: i in b.received <==> 0 <= i < b.next)
      && b.bytes == Min(b.next * p.chunkSize, |p.source|)
  {
    InStepReachable(p, states, steps, k);
  }

  /** In every reachable state `next` is the least chunk the receiver does not have, restarts or not. */
  lemma NextIsLeastMissing(p: Params, states: seq<System>, steps: seq<Label>, k: nat)
    requires p.Valid() && Run(p, states, steps) && k <= |steps| && states[k].r.inb.Some?
    ensures var b := states[k].r.inb.value;
      && 0 <= b.next <= p.Total()
      && b.next !in b.received
      && (forall i :: 0 <= i < b.next ==> i in b.received)
      && (forall i :: i in b.received ==> 0 <= i < p.Total())
  {
    Reachable(p, states, steps, k);
  }

  lemma RewriteChangesNothing(p: Params, r: Receiver, i: int)
    requires p.Valid() && 0 <= i < p.Total() && OnDisk(p, r, i)
    ensures i * p.chunkSize >= 0 && WriteAt(r.temp.value, i * p.chunkSize, p.ChunkBytes(i)) == r.temp.value
  {
    ChunkBytesLength(p, i);
    var lo, hi := Lo(i, p.chunkSize), Hi(i, p.chunkSize, |p.source|);
    var file := WriteAt(r.temp.value, lo, p.ChunkBytes(i));
    forall k | 0 <= k < |file| ensures file[k] == r.temp.value[k] {
      if lo <= k < hi { assert r.temp.value[lo..hi][k - lo] == p.source[lo..hi][k - lo]; }
    }
  }

  /** A chunk that arrives again is acknowledged again and changes nothing, in memory or on disk. */
  lemma RepeatChangesNothing(p: Params, states: seq<System>, steps: seq<Label>, k: nat, i: int)
    requires p.Valid() && Run(p, states, steps) && k <= |steps| && !states[k].settled && !states[k].spoiled
    requires states[k].r.inb.Some? && i in states[k].r.inb.value.received
    ensures 0 <= i < p.Total()
    ensures OnData(p, states[k].r, i, p.ChunkBytes(i), NoFault) == ReceiverStep(states[k].r, [Ack(i)])
  {
    Reachable(p, states, steps, k);
    RewriteChangesNothing(p, states[k].r, i);
  }

  /**
   After any mix of restarts, the acknowledged chunks that a run still has ahead of it are fewer than
   50 and amount to less than 10 MiB.
   */
  lemma ResendIsBounded(p: Params, states: seq<System>, steps: seq<Label>, j: nat, k: nat, c: int)
    requires p.Valid() && Run(p, states, steps) && j < k <= |steps| && AcknowledgedAt(states, steps, j, c)
    requires forall t :: j < t < k ==> !steps[t].UserRetries?
    requires states[k].s.out.Some? && states[k].s.phase.AwaitAck?
    ensures var i := states[k].s.phase.chunk;
      && c - i + 1 < 50
      && p.Below(c + 1) - p.Below(i) < 10 * 1024 * 1024
  {
    AcknowledgedIsKnown(p, states, steps, j, k, c);
    NearReachable(p, states, steps, k);
    Reachable(p, states, steps, k);
    var i := states[k].s.phase.chunk;
    BytesBelowMonotone(c + 1, states[k].known, p.chunkSize, |p.source|);
    BytesBelowMonotone(states[k].s.ck.value.next, i, p.chunkSize, |p.source|);
  }

  /** If only the receiver ever restarted, no acknowledged chunk is sent again. */
  lemma NoResendWithoutSenderRestart(p: Params, states: seq<System>, steps: seq<Label>, j: nat, k: nat, c: int)
    requires p.Valid() && Run(p, states, steps) && j < k <= |steps| && AcknowledgedAt(states, steps, j, c)
    requires forall t :: j < t < k ==> !steps[t].UserRetries?
    requires states[k].s.out.Some? && states[k].s.phase.AwaitAck? && !states[k].restartedS
    ensures c < states[k].s.phase.chunk
  {
    AcknowledgedIsKnown(p, states, steps, j, k, c);
    NearReachable(p, states, steps, k);
    Reachable(p, states, steps, k);
  }

  /**
   If only the sender ever restarted, no acknowledged chunk is sent again by a run that was started
   by an accept to a request sent after the acknowledgement, as long as no late approval has replaced
   the receiver's record.
   */
  lemma NoResendWithoutReceiverRestart(p: Params, states: seq<System>, steps: seq<Label>, j: nat, k: nat, c: int)
    requires p.Valid() && Run(p, states, steps) && j < k <= |steps| && AcknowledgedAt(states, steps, j, c)
    requires forall t :: j < t < k ==> !steps[t].UserRetries?
    requires states[k].s.out.Some? && states[k].s.phase.AwaitAck?
    requires FirstLife(states[k]) && states[k].current
    ensures c < states[k].s.phase.chunk
  {
    AcknowledgedIsKnown(p, states, steps, j, k, c);
    InStepReachable(p, states, steps, k);
    Reachable(p, states, steps, k);
  }

  lemma WaitingKeepsKnown(p: Params, sys: System, l: Label)
    requires p.Valid() && SenderOk(p, sys.s) && NearCheckpoint(p, sys)
    requires sys.s.phase.AwaitAccept? || l.BeginRun?
    ensures Apply(p, sys, l).s.phase.AwaitAccept? ==> Apply(p, sys, l).known == sys.known
  {
    if AtReceiver(l) { ReceiverKeepsSender(p, sys, l); }
  }

  lemma StepKnowsNoMore(p: Params, states: seq<System>, steps: seq<Label>, k: nat)
    requires p.Valid() && Run(p, states, steps) && k < |steps|
    requires states[k].s.phase.AwaitAccept? || steps[k].BeginRun?
    requires states[k + 1].s.phase.AwaitAccept?
    ensures states[k + 1].known == states[k].known
  {
    Reachable(p, states, steps, k);
    NearReachable(p, states, steps, k);
    assert Follows(p, states, steps, k);
    WaitingKeepsKnown(p, states[k], steps[k]);
  }

  lemma {:induction false} WaitingRunKnowsNoMore(p: Params, states: seq<System>, steps: seq<Label>, j: nat, k: nat)
    requires p.Valid() && Run(p, states, steps) && j < k <= |steps| && steps[j].BeginRun?
    requires forall t :: j < t <= k ==> states[t].s.phase.AwaitAccept?
    ensures states[k].known == states[j].known
  {
    if k > j + 1 { WaitingRunKnowsNoMore(p, states, steps, j, k - 1); }
    StepKnowsNoMore(p, states, steps, k - 1);
  }

  /** The answer to a run's own request makes it current: nothing can become known while the run waits for it. */
  lemma OwnAnswerIsCurrent(p: Params, states: seq<System>, steps: seq<Label>, j: nat, k: nat, resume: int)
    requires p.Valid() && Run(p, states, steps) && j < k <= |steps| && steps[j].BeginRun?
    requires forall t :: j < t <= k ==> states[t].s.phase.AwaitAccept?
    ensures IsCurrent(states[k], Accept(resume, states[j].known))
  {
    WaitingRunKnowsNoMore(p, states, steps, j, k);
  }
}
