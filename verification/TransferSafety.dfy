/**
 What every run of a transfer keeps: the sender's counters, what is on the receiver's disk, and
 what "complete" means at either end.
 */
module TransferSafety {
  import opened Common
  import opened Chunks
  import opened TransferState
  import opened TransferProtocol

  // ----- The sender's counters -------------------------------------------------------------

  ghost predicate CheckpointOk(p: Params, c: Checkpoint) {
    0 <= c.next <= p.Total() && c.bytes == p.Below(c.next)
  }

  /** The counters agree with each other, with the run in progress and with the stored checkpoint. */
  ghost predicate SenderOk(p: Params, s: Sender) {
    && (s.out.None? ==> s.phase.Idle? && s.ck.None?)
    && (s.ck.Some? ==> CheckpointOk(p, s.ck.value))
    && (s.out.Some? ==>
      var o := s.out.value;
      && 0 <= o.ckNext <= o.next <= p.Total()
      && o.bytes == p.Below(o.next)
      && o.ckBytes == p.Below(o.ckNext)
      && (o.running <==> !s.phase.Idle?)
      && (s.ck.Some? ==> s.ck.value == Checkpoint(o.ckNext, o.ckBytes))
      && (match s.phase
          case Idle => true
          case AwaitAccept => true
          case AwaitAck(i, a, sent) => i == o.next < p.Total() && 0 <= a < p.maxRetries && sent == o.bytes && s.ck.Some?
          case AwaitComplete => o.next == p.Total() && s.ck.Some?))
  }

  lemma ZeroBelow(p: Params)
    requires p.Valid()
    ensures p.Below(0) == 0
  {
  }

  lemma ChunkBytesLength(p: Params, i: nat)
    requires p.Valid() && i < p.Total()
    ensures p.Below(i) + |p.ChunkBytes(i)| == p.Below(i + 1)
    ensures 0 <= Lo(i, p.chunkSize) <= Hi(i, p.chunkSize, |p.source|) <= |p.source|
    ensures p.ChunkBytes(i) == p.source[Lo(i, p.chunkSize)..Hi(i, p.chunkSize, |p.source|)]
  {
    ReadChunkIsChunk(p.source, i, p.chunkSize);
    ChunkBounds(i, p.chunkSize, |p.source|);
  }

  lemma ResumeOk(p: Params, o: Outbound, resume: int)
    requires p.Valid() && 0 <= o.next <= p.Total() && o.bytes == p.Below(o.next)
    ensures var o' := ResumeAt(p, o, resume);
      && o'.next == Max(o.next, Min(Max(resume, 0), p.Total()))
      && o'.bytes == p.Below(o'.next)
  {
    BytesBelowMonotone(o.next, ResumeAt(p, o, resume).next, p.chunkSize, |p.source|);
  }

  lemma OnAcceptedOk(p: Params, s: Sender, resume: int)
    requires p.Valid() && SenderOk(p, s) && s.out.Some? && s.phase.AwaitAccept?
    ensures SenderOk(p, OnAccepted(p, s, resume).state)
    ensures OnAccepted(p, s, resume).state.out.Some?
    ensures OnAccepted(p, s, resume).state.out.value.next
         == Max(s.out.value.next, Min(Max(resume, 0), p.Total()))
  {
    ResumeOk(p, s.out.value, resume);
  }

  lemma OnDeliveredOk(p: Params, s: Sender)
    requires p.Valid() && SenderOk(p, s) && s.out.Some? && s.phase.AwaitAck?
    ensures var s' := OnDelivered(p, s, s.phase.chunk, s.phase.sent).state;
      SenderOk(p, s') && s'.out.Some? && s'.out.value.next == s.out.value.next + 1
  {
    ChunkBytesLength(p, s.phase.chunk);
  }

  /** A run keeps the counters right at every event, and they never go back. */
  lemma OnEventOk(p: Params, s: Sender, e: Event)
    requires p.Valid() && SenderOk(p, s) && s.out.Some?
    ensures SenderOk(p, OnEvent(p, s, e).state)
    ensures OnEvent(p, s, e).state.out.Some? && OnEvent(p, s, e).state.out.value.next >= s.out.value.next
  {
    if Matches(s.phase, e) && e.Reply? {
      if e.msg.Accept? {
        OnAcceptedOk(p, s, e.msg.resume);
      } else if e.msg.Ack? {
        OnDeliveredOk(p, s);
      }
    }
  }

  lemma RestartSenderOk(p: Params, s: Sender)
    requires p.Valid() && SenderOk(p, s)
    ensures SenderOk(p, RestartSender(p, s))
    ensures var s' := RestartSender(p, s); s'.out.Some? ==> s'.ck.Some? && s'.out.value.next == s.ck.value.next
  {
    if s.ck.Some? {
      AllBytesIffAllChunks(s.ck.value.next, p.chunkSize, |p.source|);
    }
  }

  lemma SenderEventOk(p: Params, s: Sender, e: Event)
    requires p.Valid() && SenderOk(p, s)
    ensures SenderOk(p, SenderEvent(p, s, e).state)
    ensures s.out.Some? ==> SenderEvent(p, s, e).state.out.Some?
    ensures s.out.Some? ==> SenderEvent(p, s, e).state.out.value.next >= s.out.value.next
  {
    if s.out.Some? && !s.phase.Idle? { OnEventOk(p, s, e); }
  }

  /** Neither side's steps touch the other's state, nor what is noted about it; and settled stays settled. */
  predicate SameSender(sys: System, sys': System) {
    && sys'.s == sys.s && sys'.known == sys.known && sys'.current == sys.current && sys'.restartedS == sys.restartedS
    && (sys.settled ==> sys'.settled)
  }

  lemma WithReceiverKeepsSender(sys: System, step: ReceiverStep)
    ensures SameSender(sys, WithReceiver(sys, step))
  {
  }

  lemma DeliveryKeepsSender(p: Params, sys: System, m: Msg, approved: bool, fault: Fault, renames: bool)
    requires p.Valid()
    ensures SameSender(sys, ApplyAtReceiver(p, sys, ToReceiver(m, approved, fault, renames)))
  {
    WithReceiverKeepsSender(sys, ReceiverEvent(p, sys.r, m, approved, fault, renames));
  }

  lemma DecisionKeepsSender(p: Params, sys: System, approved: bool, other: Option<seq<byte>>)
    requires p.Valid()
    ensures SameSender(sys, ApplyAtReceiver(p, sys, Decides(approved, other)))
  {
    if sys.r.asked.Some? { WithReceiverKeepsSender(sys, Decide(p, sys.r, approved, other)); }
  }

  lemma RestartKeepsSender(p: Params, sys: System, l: Label)
    requires p.Valid() && (l.ReceiverRestarts? || l.ReceiverDiesAfterRename?)
    ensures SameSender(sys, ApplyAtReceiver(p, sys, l))
  {
  }

  lemma UserKeepsSender(p: Params, sys: System, l: Label)
    requires p.Valid() && (l.Asks? || l.Dismisses? || l.ClearsHistory? || l.UserCancelsReceive?)
    ensures SameSender(sys, ApplyAtReceiver(p, sys, l))
  {
    if l.UserCancelsReceive? { WithReceiverKeepsSender(sys, CancelInbound(sys.r)); }
  }

  lemma ReceiverKeepsSender(p: Params, sys: System, l: Label)
    requires p.Valid() && AtReceiver(l)
    ensures SameSender(sys, ApplyAtReceiver(p, sys, l))
  {
    match l
    case ToReceiver(m, approved, fault, renames) => DeliveryKeepsSender(p, sys, m, approved, fault, renames);
    case Decides(approved, other) => DecisionKeepsSender(p, sys, approved, other);
    case ReceiverRestarts => RestartKeepsSender(p, sys, l);
    case ReceiverDiesAfterRename(_) => RestartKeepsSender(p, sys, l);
    case _ => UserKeepsSender(p, sys, l);
  }

  lemma SenderKeepsReceiver(p: Params, sys: System, l: Label)
    requires p.Valid() && !AtReceiver(l)
    ensures var sys' := ApplyAtSender(p, sys, l);
      && sys'.r == sys.r && sys'.settled == sys.settled && sys'.spoiled == sys.spoiled
      && sys'.replaced == sys.replaced && sys'.restartedR == sys.restartedR
  {
    match l
    case ToSender(m) => WithSenderKeepsReceiver(sys, SenderEvent(p, sys.s, Reply(m)));
    case TimerFires => WithSenderKeepsReceiver(sys, SenderEvent(p, sys.s, Timeout));
    case RunStops => WithSenderKeepsReceiver(sys, SenderEvent(p, sys.s, Stop));
    case BeginRun => WithSenderKeepsReceiver(sys, Begin(sys.s, sys.known));
    case UserCancelsSend => WithSenderKeepsReceiver(sys, CancelOutbound(sys.s));
    case _ =>
  }

  lemma WithSenderKeepsReceiver(sys: System, step: SenderStep)
    ensures var sys' := WithSender(sys, step);
      && sys'.r == sys.r && sys'.settled == sys.settled && sys'.spoiled == sys.spoiled
      && sys'.replaced == sys.replaced && sys'.restartedR == sys.restartedR
  {
  }

  lemma SenderStepOk(p: Params, sys: System, l: Label)
    requires p.Valid() && SenderOk(p, sys.s) && !AtReceiver(l)
    ensures SenderOk(p, ApplyAtSender(p, sys, l).s)
  {
    match l
    case ToSender(m) => SenderEventOk(p, sys.s, Reply(m));
    case TimerFires => SenderEventOk(p, sys.s, Timeout);
    case RunStops => SenderEventOk(p, sys.s, Stop);
    case SenderRestarts => RestartSenderOk(p, sys.s);
    case UserRetries => ZeroBelow(p);
    case _ =>
  }

  lemma SenderKeepsOk(p: Params, sys: System, l: Label)
    requires p.Valid() && SenderOk(p, sys.s)
    ensures SenderOk(p, Apply(p, sys, l).s)
  {
    if AtReceiver(l) { ReceiverKeepsSender(p, sys, l); } else { SenderStepOk(p, sys, l); }
  }

  // ----- The receiver's bookkeeping --------------------------------------------------------

  /** A row, or a record restored from one, is the file's or that of a file canceled before approval. */
  predicate FileOk(p: Params, file: FileInfo) {
    file == p.Info() || file == CANCELED_BEFORE_APPROVAL
  }

  /** What holds of a record between two steps, whatever its checkpoint is. */
  ghost predicate RecordOk(p: Params, b: Inbound) {
    && FileOk(p, b.file)
    && 0 <= b.next <= b.Total(p)
    && (forall i :: i in b.received ==> 0 <= i < b.Total(p))
    && (forall i :: 0 <= i < b.next ==> i in b.received)
    && b.next !in b.received
  }

  /** In memory: `next` is the least chunk not received, and no checkpoint is due. */
  ghost predicate ReceiverOk(p: Params, r: Receiver) {
    && (r.row.None? <==> r.status.Unknown?)
    && (r.row.Some? ==> FileOk(p, r.row.value))
    && (r.inb.Some? ==>
      var b := r.inb.value;
      && RecordOk(p, b)
      && b.next - b.ckNext < INBOUND_CHUNK_INTERVAL
      && b.bytes - b.ckBytes < INBOUND_BYTE_INTERVAL)
    && (r.ck.Some? ==> 0 <= r.ck.value.next <= p.Total())
  }

  /** The advance loop, which has no bound in the source, stops where the bounded one does. */
  lemma AdvanceIsLeastMissing(received: set<int>, next: int, total: int)
    requires 0 <= next <= total
    requires forall i :: i in received ==> 0 <= i < total
    requires forall i :: 0 <= i < next ==> i in received
    ensures var n := Advance(received, next, total);
      && next <= n <= total && n !in received && (forall i :: 0 <= i < n ==> i in received)
  {
  }

  lemma RecordChunkOk(p: Params, b: Inbound, i: int, length: int)
    requires RecordOk(p, b) && 0 <= i < b.Total(p)
    ensures RecordOk(p, RecordChunk(p, b, i, length))
  {
    AdvanceIsLeastMissing(b.received + {i}, b.next, b.Total(p));
  }

  lemma OnDataOk(p: Params, r: Receiver, i: int, data: seq<byte>, fault: Fault)
    requires p.Valid() && ReceiverOk(p, r)
    ensures ReceiverOk(p, OnData(p, r, i, data, fault).state)
  {
    if r.inb.Some? && 0 <= i < r.inb.value.Total(p) {
      RecordChunkOk(p, r.inb.value, i, |data|);
    }
  }

  lemma ReceiverEventOk(p: Params, r: Receiver, m: Msg, approved: bool, fault: Fault, renames: bool)
    requires p.Valid() && ReceiverOk(p, r)
    ensures ReceiverOk(p, ReceiverEvent(p, r, m, approved, fault, renames).state)
  {
    if m.Data? { OnDataOk(p, r, m.chunk, m.bytes, fault); }
  }

  lemma DecideOk(p: Params, r: Receiver, approved: bool, other: Option<seq<byte>>)
    requires p.Valid() && ReceiverOk(p, r) && r.asked.Some?
    ensures ReceiverOk(p, Decide(p, r, approved, other).state)
  {
  }

  lemma RestartReceiverOk(p: Params, r: Receiver)
    requires p.Valid() && ReceiverOk(p, r)
    ensures ReceiverOk(p, RestartReceiver(p, r)) && ReceiverOk(p, DieAfterRename(p, r))
  {
  }

  lemma ReceiverStepOk(p: Params, sys: System, l: Label)
    requires p.Valid() && ReceiverOk(p, sys.r) && AtReceiver(l)
    ensures ReceiverOk(p, ApplyAtReceiver(p, sys, l).r)
  {
    match l
    case ToReceiver(m, approved, fault, renames) => ReceiverEventOk(p, sys.r, m, approved, fault, renames);
    case Decides(approved, other) => if sys.r.asked.Some? { DecideOk(p, sys.r, approved, other); }
    case ReceiverRestarts => RestartReceiverOk(p, sys.r);
    case ReceiverDiesAfterRename(_) => RestartReceiverOk(p, sys.r);
    case _ =>
  }

  lemma ReceiverKeepsOk(p: Params, sys: System, l: Label)
    requires p.Valid() && ReceiverOk(p, sys.r)
    ensures ReceiverOk(p, Apply(p, sys, l).r)
  {
    if AtReceiver(l) { ReceiverStepOk(p, sys, l); } else { SenderKeepsReceiver(p, sys, l); }
  }

  // ----- The receiver's disk ---------------------------------------------------------------

  ghost predicate OnDisk(p: Params, r: Receiver, i: int) {
    r.temp.Some? && Holds(r.temp.value, p.source, p.chunkSize, i)
  }

  ghost predicate PrefixOnDisk(p: Params, r: Receiver, n: int) {
    forall i :: 0 <= i < n ==> OnDisk(p, r, i)
  }

  /** What a message says about the disk while the first inbound transfer lasts. */
  ghost predicate MsgOk(p: Params, r: Receiver, m: Msg)
    requires p.Valid()
  {
    match m
    case Data(i, data) => 0 <= i < p.Total() && data == p.ChunkBytes(i)
    case Accept(resume, _) => 0 <= resume <= p.Total() && r.temp.Some? && PrefixOnDisk(p, r, resume)
    case Ack(i) => 0 <= i < p.Total() && OnDisk(p, r, i)
    case SenderClose(ok, _) => ok ==> r.temp.Some? && PrefixOnDisk(p, r, p.Total())
    case _ => true
  }

  /**
   While the first inbound transfer lasts: it is in memory exactly when its checkpoint and its
   temp file exist, and everything either side believes received is on disk.
   */
  ghost predicate DiskOk(p: Params, s: Sender, r: Receiver, net: set<Msg>)
    requires p.Valid()
  {
    && (r.inb.Some? <==> r.temp.Some?)
    && (r.inb.Some? <==> r.ck.Some?)
    && (r.inb.Some? ==>
      && r.inb.value.file == p.Info()
      && |r.temp.value| == |p.source|
      && (forall i :: i in r.inb.value.received ==> OnDisk(p, r, i))
      && PrefixOnDisk(p, r, r.ck.value.next))
    && (s.out.Some? ==> PrefixOnDisk(p, r, s.out.value.next))
    && (s.ck.Some? ==> PrefixOnDisk(p, r, s.ck.value.next))
    && (s.phase.AwaitAck? || s.phase.AwaitComplete? ==> r.temp.Some?)
    && (forall m :: m in net ==> MsgOk(p, r, m))
  }

  // ----- Sender steps keep it --------------------------------------------------------------

  lemma SendFromKeepsDisk(p: Params, s: Sender, r: Receiver, net: set<Msg>, i: nat, sent: int)
    requires p.Valid() && DiskOk(p, s, r, net) && r.temp.Some?
    requires s.out.Some? && i == s.out.value.next <= p.Total()
    ensures var step := SendFrom(p, s, i, sent); DiskOk(p, step.state, r, net + AsSet(step.sends))
  {
  }

  lemma OnAcceptedKeepsDisk(p: Params, s: Sender, r: Receiver, net: set<Msg>, m: Msg)
    requires p.Valid() && SenderOk(p, s) && DiskOk(p, s, r, net)
    requires s.out.Some? && s.phase.AwaitAccept? && m.Accept? && m in net
    ensures var step := OnAccepted(p, s, m.resume); DiskOk(p, step.state, r, net + AsSet(step.sends))
  {
    assert MsgOk(p, r, m);
    var (o, ck) := PersistOutbound(ResumeAt(p, s.out.value, m.resume), s.ck, true);
    ResumeOk(p, s.out.value, m.resume);
    SendFromKeepsDisk(p, s.(out := Some(o), ck := ck, status := Accepted), r, net, o.next, o.bytes);
  }

  lemma OnDeliveredKeepsDisk(p: Params, s: Sender, r: Receiver, net: set<Msg>)
    requires p.Valid() && SenderOk(p, s) && DiskOk(p, s, r, net)
    requires s.out.Some? && s.phase.AwaitAck? && Ack(s.phase.chunk) in net
    ensures var step := OnDelivered(p, s, s.phase.chunk, s.phase.sent);
      DiskOk(p, step.state, r, net + AsSet(step.sends))
  {
    var i := s.phase.chunk;
    assert MsgOk(p, r, Ack(i));
    assert PrefixOnDisk(p, r, i + 1);
    var sent := s.phase.sent + |p.ChunkBytes(i)|;
    var (o, ck) := PersistOutbound(s.out.value.(next := i + 1, bytes := sent), s.ck, false);
    SendFromKeepsDisk(p, s.(out := Some(o), ck := ck), r, net, i + 1, sent);
  }

  lemma SenderEventKeepsDisk(p: Params, s: Sender, r: Receiver, net: set<Msg>, e: Event)
    requires p.Valid() && SenderOk(p, s) && DiskOk(p, s, r, net)
    requires e.Reply? ==> e.msg in net
    ensures var step := SenderEvent(p, s, e); DiskOk(p, step.state, r, net + AsSet(step.sends))
  {
    if s.out.Some? && !s.phase.Idle? && Matches(s.phase, e) && e.Reply? {
      if e.msg.Accept? {
        OnAcceptedKeepsDisk(p, s, r, net, e.msg);
      } else if e.msg.Ack? {
        OnDeliveredKeepsDisk(p, s, r, net);
      }
    }
  }

  // ----- Receiver steps keep it ------------------------------------------------------------

  /** The receiver may gain chunks on disk but loses none. */
  ghost predicate Grows(p: Params, r: Receiver, r': Receiver) {
    && (r.temp.Some? ==> r'.temp.Some?)
    && forall i :: OnDisk(p, r, i) ==> OnDisk(p, r', i)
  }

  lemma GrowthKeepsDisk(p: Params, s: Sender, r: Receiver, r': Receiver, net: set<Msg>, sends: seq<Msg>)
    requires p.Valid() && DiskOk(p, s, r, net) && Grows(p, r, r')
    requires r'.inb.Some? <==> r'.temp.Some?
    requires r'.inb.Some? <==> r'.ck.Some?
    requires r'.inb.Some? ==>
      && r'.inb.value.file == p.Info()
      && |r'.temp.value| == |p.source|
      && (forall i :: i in r'.inb.value.received ==> OnDisk(p, r', i))
      && PrefixOnDisk(p, r', r'.ck.value.next)
    requires forall m :: m in sends ==> MsgOk(p, r', m)
    ensures DiskOk(p, s, r', net + AsSet(sends))
  {
    forall m | m in net ensures MsgOk(p, r', m) {
      assert MsgOk(p, r, m);
    }
  }

  lemma OnRequestKeepsDisk(p: Params, s: Sender, r: Receiver, net: set<Msg>, approved: bool, known: int)
    requires p.Valid() && ReceiverOk(p, r) && DiskOk(p, s, r, net)
    ensures var step := OnRequest(p, r, approved, known); DiskOk(p, s, step.state, net + AsSet(step.sends))
  {
    var step := OnRequest(p, r, approved, known);
    GrowthKeepsDisk(p, s, r, step.state, net, step.sends);
  }

  /**
   A dialog that is answered, late or not, over the same temp file; another one matters only to a record in memory.
   */
  lemma DecideKeepsDisk(p: Params, s: Sender, r: Receiver, net: set<Msg>, approved: bool, other: Option<seq<byte>>)
    requires p.Valid() && ReceiverOk(p, r) && DiskOk(p, s, r, net) && r.asked.Some?
    requires !(Replaces(r, approved) && other.Some?)
    ensures var step := Decide(p, r, approved, other); DiskOk(p, s, step.state, net + AsSet(step.sends))
  {
    var step := Decide(p, r, approved, other);
    if r.inb.Some? && Replaces(r, approved) { assert step.state.temp.value == r.temp.value; }
    GrowthKeepsDisk(p, s, r, step.state, net, step.sends);
  }

  lemma WriteGrows(p: Params, r: Receiver, i: int, n: nat)
    requires p.Valid() && 0 <= i < p.Total() && r.temp.Some? && |r.temp.value| == |p.source|
    requires n <= |p.ChunkBytes(i)|
    ensures i * p.chunkSize >= 0
    ensures var file := WriteAt(r.temp.value, i * p.chunkSize, p.ChunkBytes(i)[..n]);
      var r' := r.(temp := Some(file));
      && |file| == |p.source|
      && Grows(p, r, r')
      && (n == |p.ChunkBytes(i)| ==> OnDisk(p, r', i))
  {
    ChunkBytesLength(p, i);
    ChunkBounds(i, p.chunkSize, |p.source|);
    var lo := Lo(i, p.chunkSize);
    assert p.ChunkBytes(i)[..n] == p.source[lo..lo + n];
    var r' := r.(temp := Some(WriteAt(r.temp.value, i * p.chunkSize, p.ChunkBytes(i)[..n])));
    forall j | OnDisk(p, r, j) || (j == i && n == |p.ChunkBytes(i)|) ensures OnDisk(p, r', j) {
      WriteKeepsChunks(r.temp.value, p.source, p.chunkSize, i, n, j);
    }
  }

  /** A whole chunk that has been written, and what the bookkeeping makes of it. */
  lemma WrittenKeepsDisk(p: Params, s: Sender, r: Receiver, net: set<Msg>, i: int)
    requires p.Valid() && ReceiverOk(p, r) && DiskOk(p, s, r, net) && r.inb.Some? && 0 <= i < p.Total()
    ensures var step := OnData(p, r, i, p.ChunkBytes(i), NoFault);
      DiskOk(p, s, step.state, net + AsSet(step.sends))
  {
    var data := p.ChunkBytes(i);
    var step := OnData(p, r, i, data, NoFault);
    assert data[..|data|] == data;
    WriteGrows(p, r, i, |data|);
    var b' := RecordChunk(p, r.inb.value, i, |data|);
    RecordChunkOk(p, r.inb.value, i, |data|);
    var written := r.(temp := step.state.temp);
    assert forall j :: j in b'.received ==> OnDisk(p, written, j);
    assert forall j :: OnDisk(p, written, j) <==> OnDisk(p, step.state, j);
    GrowthKeepsDisk(p, s, r, step.state, net, step.sends);
  }

  /** A first part of a chunk that has been written. */
  lemma PartKeepsDisk(p: Params, s: Sender, r: Receiver, net: set<Msg>, i: int, at: nat)
    requires p.Valid() && ReceiverOk(p, r) && DiskOk(p, s, r, net) && r.inb.Some? && 0 <= i < p.Total()
    ensures var step := OnData(p, r, i, p.ChunkBytes(i), WriteStops(at));
      DiskOk(p, s, step.state, net + AsSet(step.sends))
  {
    var data := p.ChunkBytes(i);
    var step := OnData(p, r, i, data, WriteStops(at));
    WriteGrows(p, r, i, Min(at, |data|));
    GrowthKeepsDisk(p, s, r, step.state, net, step.sends);
  }

  lemma OnDataKeepsDisk(p: Params, s: Sender, r: Receiver, net: set<Msg>, i: int, data: seq<byte>, fault: Fault)
    requires p.Valid() && ReceiverOk(p, r) && DiskOk(p, s, r, net) && Data(i, data) in net
    ensures var step := OnData(p, r, i, data, fault); DiskOk(p, s, step.state, net + AsSet(step.sends))
  {
    assert MsgOk(p, r, Data(i, data));
    if r.inb.None? || fault.Unreadable? {
      GrowthKeepsDisk(p, s, r, r, net, [Nack(i)]);
    } else if fault.NoFault? {
      WrittenKeepsDisk(p, s, r, net, i);
    } else {
      PartKeepsDisk(p, s, r, net, i, fault.at);
    }
  }

  lemma RestartReceiverKeepsDisk(p: Params, s: Sender, r: Receiver, net: set<Msg>)
    requires p.Valid() && ReceiverOk(p, r) && DiskOk(p, s, r, net) && !Misreads(p, r)
    ensures (r.inb.Some? ==> RestartReceiver(p, r).inb.Some?) ==> DiskOk(p, s, RestartReceiver(p, r), net)
  {
    var r' := RestartReceiver(p, r);
    if r.inb.None? || Restores(r) {
      if r.inb.Some? { assert r'.temp.value == r.temp.value; }
      assert net + AsSet([]) == net;
      GrowthKeepsDisk(p, s, r, r', net, []);
    }
  }

  /** With every chunk delivered, the completion check compares the source with itself. */
  lemma CompleteFindsSource(p: Params, s: Sender, r: Receiver, net: set<Msg>, m: Msg)
    requires p.Valid() && DiskOk(p, s, r, net) && r.inb.Some?
    requires m in net && m.SenderClose? && m.ok
    ensures r.temp == Some(p.source)
  {
    assert MsgOk(p, r, m);
    forall i | 0 <= i < p.Total() ensures Holds(r.temp.value, p.source, p.chunkSize, i) {
      assert OnDisk(p, r, i);
    }
    AllChunksHeld(r.temp.value, p.source, p.chunkSize);
  }

  // ----- Completion ------------------------------------------------------------------------

  /** "Complete", recorded or on the wire, means the source's bytes are at the final path. */
  ghost predicate Agreed(p: Params, s: Sender, r: Receiver, net: set<Msg>) {
    && (r.final.Some? ==> r.final.value == p.source)
    && (r.status.Complete? || s.status.Complete? ==> r.final.Some?)
    && (forall m :: m in net && m.ReceiverClose? && m.ok ==> r.final.Some?)
  }

  lemma SenderEventAgrees(p: Params, s: Sender, r: Receiver, net: set<Msg>, e: Event)
    requires p.Valid() && Agreed(p, s, r, net) && (e.Reply? ==> e.msg in net)
    ensures var step := SenderEvent(p, s, e); Agreed(p, step.state, r, net + AsSet(step.sends))
  {
  }

  lemma ReceiverEventAgrees(p: Params, s: Sender, r: Receiver, net: set<Msg>, m: Msg, approved: bool, fault: Fault,
                            renames: bool)
    requires p.Valid() && ReceiverOk(p, r) && Agreed(p, s, r, net)
    ensures var step := ReceiverEvent(p, r, m, approved, fault, renames);
      Agreed(p, s, step.state, net + AsSet(step.sends))
  {
  }

  lemma SenderStepAgrees(p: Params, sys: System, l: Label)
    requires p.Valid() && Agreed(p, sys.s, sys.r, sys.net) && Enabled(sys, l) && !AtReceiver(l)
    ensures var sys' := ApplyAtSender(p, sys, l); Agreed(p, sys'.s, sys'.r, sys'.net)
  {
    match l
    case ToSender(m) => SenderEventAgrees(p, sys.s, sys.r, sys.net, Reply(m));
    case TimerFires => SenderEventAgrees(p, sys.s, sys.r, sys.net, Timeout);
    case RunStops => SenderEventAgrees(p, sys.s, sys.r, sys.net, Stop);
    case _ =>
  }

  lemma ReceiverStepAgrees(p: Params, sys: System, l: Label)
    requires p.Valid() && ReceiverOk(p, sys.r) && Agreed(p, sys.s, sys.r, sys.net) && Enabled(sys, l) && AtReceiver(l)
    ensures var sys' := ApplyAtReceiver(p, sys, l); Agreed(p, sys'.s, sys'.r, sys'.net)
  {
    match l
    case ToReceiver(m, approved, fault, renames) =>
      ReceiverEventAgrees(p, sys.s, sys.r, sys.net, m, approved, fault, renames);
    case ReceiverRestarts => RestartAgrees(p, sys, l);
    case ReceiverDiesAfterRename(_) => RestartAgrees(p, sys, l);
    case _ =>
  }

  lemma RestartAgrees(p: Params, sys: System, l: Label)
    requires p.Valid() && ReceiverOk(p, sys.r) && Agreed(p, sys.s, sys.r, sys.net)
    requires l.ReceiverRestarts? || l.ReceiverDiesAfterRename?
    ensures var sys' := ApplyAtReceiver(p, sys, l); Agreed(p, sys'.s, sys'.r, sys'.net)
  {
  }

  lemma StepAgrees(p: Params, sys: System, l: Label)
    requires p.Valid() && ReceiverOk(p, sys.r) && Agreed(p, sys.s, sys.r, sys.net) && Enabled(sys, l)
    ensures var sys' := Apply(p, sys, l); Agreed(p, sys'.s, sys'.r, sys'.net)
  {
    if AtReceiver(l) { ReceiverStepAgrees(p, sys, l); } else { SenderStepAgrees(p, sys, l); }
  }

  // ----- All of it, in every state of every run --------------------------------------------

  ghost predicate Inv(p: Params, sys: System)
    requires p.Valid()
  {
    && SenderOk(p, sys.s)
    && ReceiverOk(p, sys.r)
    && Agreed(p, sys.s, sys.r, sys.net)
    && (!sys.settled && !sys.spoiled ==> DiskOk(p, sys.s, sys.r, sys.net))
  }

  lemma BeginKeepsDisk(p: Params, s: Sender, r: Receiver, net: set<Msg>, known: int)
    requires p.Valid() && DiskOk(p, s, r, net)
    ensures var step := Begin(s, known); DiskOk(p, step.state, r, net + AsSet(step.sends))
  {
  }

  lemma CancelOutboundKeepsDisk(p: Params, s: Sender, r: Receiver, net: set<Msg>)
    requires p.Valid() && DiskOk(p, s, r, net)
    ensures var step := CancelOutbound(s); DiskOk(p, step.state, r, net + AsSet(step.sends))
  {
  }

  lemma ResetKeepsDisk(p: Params, s: Sender, r: Receiver, net: set<Msg>)
    requires p.Valid() && SenderOk(p, s) && DiskOk(p, s, r, net)
    ensures DiskOk(p, Retry(s), r, net) && DiskOk(p, RestartSender(p, s), r, net)
  {
    RestartSenderOk(p, s);
  }

  lemma RefusalKeepsDisk(p: Params, s: Sender, r: Receiver, net: set<Msg>)
    requires p.Valid() && DiskOk(p, s, r, net)
    ensures DiskOk(p, s, r, net + {Reject(false)})
  {
  }

  lemma SenderStepKeepsDisk(p: Params, sys: System, l: Label)
    requires p.Valid() && SenderOk(p, sys.s) && DiskOk(p, sys.s, sys.r, sys.net) && Enabled(sys, l)
    requires !AtReceiver(l)
    ensures var sys' := ApplyAtSender(p, sys, l); DiskOk(p, sys'.s, sys'.r, sys'.net)
  {
    match l
    case BeginRun => BeginKeepsDisk(p, sys.s, sys.r, sys.net, sys.known);
    case UserCancelsSend => CancelOutboundKeepsDisk(p, sys.s, sys.r, sys.net);
    case UserRetries => ResetKeepsDisk(p, sys.s, sys.r, sys.net);
    case RefuseRequest(_) => RefusalKeepsDisk(p, sys.s, sys.r, sys.net);
    case ToSender(m) => SenderEventKeepsDisk(p, sys.s, sys.r, sys.net, Reply(m));
    case TimerFires => SenderEventKeepsDisk(p, sys.s, sys.r, sys.net, Timeout);
    case RunStops => SenderEventKeepsDisk(p, sys.s, sys.r, sys.net, Stop);
    case SenderRestarts => ResetKeepsDisk(p, sys.s, sys.r, sys.net);
  }

  lemma DeliveryKeepsDisk(p: Params, sys: System, m: Msg, approved: bool, fault: Fault, renames: bool)
    requires p.Valid() && ReceiverOk(p, sys.r) && DiskOk(p, sys.s, sys.r, sys.net) && m in sys.net
    ensures var step := ReceiverEvent(p, sys.r, m, approved, fault, renames);
      (sys.r.inb.Some? ==> step.state.inb.Some?) ==> DiskOk(p, sys.s, step.state, sys.net + AsSet(step.sends))
  {
    match m
    case Data(i, data) => OnDataKeepsDisk(p, sys.s, sys.r, sys.net, i, data, fault);
    case FileRequest(known) => OnRequestKeepsDisk(p, sys.s, sys.r, sys.net, approved, known);
    case SenderClose(ok, byCancel) =>
      if sys.r.inb.None? {
        var step := OnSenderClose(p, sys.r, ok, byCancel, renames);
        GrowthKeepsDisk(p, sys.s, sys.r, step.state, sys.net, step.sends);
      }
    case _ =>
  }

  lemma CancelKeepsDisk(p: Params, s: Sender, r: Receiver, net: set<Msg>)
    requires p.Valid() && DiskOk(p, s, r, net) && r.inb.None?
    ensures var step := CancelInbound(r); DiskOk(p, s, step.state, net + AsSet(step.sends))
  {
    GrowthKeepsDisk(p, s, r, CancelInbound(r).state, net, CancelInbound(r).sends);
  }

  lemma DecisionStepKeepsDisk(p: Params, sys: System, approved: bool, other: Option<seq<byte>>)
    requires p.Valid() && ReceiverOk(p, sys.r) && DiskOk(p, sys.s, sys.r, sys.net) && sys.r.asked.Some?
    requires !(Replaces(sys.r, approved) && other.Some?)
    ensures var sys' := ApplyAtReceiver(p, sys, Decides(approved, other)); DiskOk(p, sys'.s, sys'.r, sys'.net)
  {
    DecideKeepsDisk(p, sys.s, sys.r, sys.net, approved, other);
  }

  lemma UserCancelKeepsDisk(p: Params, sys: System)
    requires p.Valid() && DiskOk(p, sys.s, sys.r, sys.net)
    ensures var sys' := ApplyAtReceiver(p, sys, UserCancelsReceive);
      !sys'.settled ==> DiskOk(p, sys'.s, sys'.r, sys'.net)
  {
    if sys.r.inb.None? { CancelKeepsDisk(p, sys.s, sys.r, sys.net); }
  }

  lemma ReceiverStepKeepsDisk(p: Params, sys: System, l: Label)
    requires p.Valid() && ReceiverOk(p, sys.r) && !sys.settled && DiskOk(p, sys.s, sys.r, sys.net) && Enabled(sys, l)
    requires AtReceiver(l) && !Spoils(p, sys, l)
    ensures var sys' := ApplyAtReceiver(p, sys, l); !sys'.settled ==> DiskOk(p, sys'.s, sys'.r, sys'.net)
  {
    match l
    case ToReceiver(m, approved, fault, renames) => DeliveryKeepsDisk(p, sys, m, approved, fault, renames);
    case Asks(known) => MemoKeepsDisk(p, sys.s, sys.r, Ask(sys.r, known), sys.net);
    case ClearsHistory => MemoKeepsDisk(p, sys.s, sys.r, DropRow(sys.r), sys.net);
    case Decides(approved, other) => DecisionStepKeepsDisk(p, sys, approved, other);
    case Dismisses => MemoKeepsDisk(p, sys.s, sys.r, sys.r.(asked := None), sys.net);
    case UserCancelsReceive => UserCancelKeepsDisk(p, sys);
    case _ => RestartStepKeepsDisk(p, sys, l);
  }

  lemma RestartStepKeepsDisk(p: Params, sys: System, l: Label)
    requires p.Valid() && ReceiverOk(p, sys.r) && !sys.settled && DiskOk(p, sys.s, sys.r, sys.net) && Enabled(sys, l)
    requires (l.ReceiverRestarts? || l.ReceiverDiesAfterRename?) && !Spoils(p, sys, l)
    ensures var sys' := ApplyAtReceiver(p, sys, l); !sys'.settled ==> DiskOk(p, sys'.s, sys'.r, sys'.net)
  {
    match l
    case ReceiverRestarts => RestartReceiverKeepsDisk(p, sys.s, sys.r, sys.net);
    case ReceiverDiesAfterRename(m) => CompleteFindsSource(p, sys.s, sys.r, sys.net, m);
  }

  /** The disk does not depend on the dialog and the row. */
  lemma MemoKeepsDisk(p: Params, s: Sender, r: Receiver, r': Receiver, net: set<Msg>)
    requires p.Valid() && DiskOk(p, s, r, net) && r' == r.(asked := r'.asked, row := r'.row, status := r'.status)
    ensures DiskOk(p, s, r', net)
  {
    assert net + AsSet([]) == net;
    GrowthKeepsDisk(p, s, r, r', net, []);
  }

  /** The notes change only as the steps say. */
  lemma SpoiledBySpoils(p: Params, sys: System, l: Label)
    requires p.Valid() && Enabled(sys, l)
    ensures Apply(p, sys, l).spoiled <==> sys.spoiled || Spoils(p, sys, l)
  {
    if AtReceiver(l) {} else { SenderKeepsReceiver(p, sys, l); }
  }

  lemma StepKeepsInv(p: Params, sys: System, l: Label)
    requires p.Valid() && Inv(p, sys) && Enabled(sys, l)
    ensures Inv(p, Apply(p, sys, l))
  {
    SenderKeepsOk(p, sys, l);
    ReceiverKeepsOk(p, sys, l);
    StepAgrees(p, sys, l);
    SpoiledBySpoils(p, sys, l);
    if !sys.spoiled && !Spoils(p, sys, l) { StepKeepsDisk(p, sys, l); }
  }

  lemma StepKeepsDisk(p: Params, sys: System, l: Label)
    requires p.Valid() && SenderOk(p, sys.s) && ReceiverOk(p, sys.r) && Enabled(sys, l) && !Spoils(p, sys, l)
    requires !sys.settled ==> DiskOk(p, sys.s, sys.r, sys.net)
    ensures var sys' := Apply(p, sys, l); !sys'.settled ==> DiskOk(p, sys'.s, sys'.r, sys'.net)
  {
    if AtReceiver(l) {
      if sys.settled { ReceiverKeepsSender(p, sys, l); } else { ReceiverStepKeepsDisk(p, sys, l); }
    } else {
      SenderKeepsReceiver(p, sys, l);
      if !sys.settled { SenderStepKeepsDisk(p, sys, l); }
    }
  }

  lemma {:induction false} Reachable(p: Params, states: seq<System>, steps: seq<Label>, k: nat)
    requires p.Valid() && Run(p, states, steps) && k <= |steps|
    ensures Inv(p, states[k])
  {
    if k == 0 {
      ZeroBelow(p);
    } else {
      Reachable(p, states, steps, k - 1);
      assert Follows(p, states, steps, k - 1);
      StepKeepsInv(p, states[k - 1], steps[k - 1]);
    }
  }

  // ----- The main results ------------------------------------------------------------------

  /** Something in the system relies on chunk i having reached the receiver. */
  ghost predicate BelievedDelivered(sys: System, i: int) {
    || (sys.s.out.Some? && i < sys.s.out.value.next)
    || (sys.s.ck.Some? && i < sys.s.ck.value.next)
    || (sys.r.inb.Some? && (i in sys.r.inb.value.received || i < sys.r.inb.value.next))
    || (sys.r.ck.Some? && i < sys.r.ck.value.next)
    || Ack(i) in sys.net
  }

  /**
   In every reachable state before the first inbound transfer ends, whatever was lost, duplicated or
   reordered and whichever side restarted, unless a step has spoiled it: every chunk below either side's
   next chunk or stored checkpoint, every chunk the receiver counts as received, and every acknowledged
   chunk is in the temp file with the source's bytes.
   */
  lemma ChunksAreOnDisk(p: Params, states: seq<System>, steps: seq<Label>, k: nat, i: int)
    requires p.Valid() && Run(p, states, steps) && k <= |steps| && !states[k].settled && !states[k].spoiled
    requires 0 <= i < p.Total() && BelievedDelivered(states[k], i)
    ensures var sys := states[k];
      && sys.r.temp.Some?
      && |sys.r.temp.value| == |p.source|
      && var lo, hi := i * p.chunkSize, Min((i + 1) * p.chunkSize, |p.source|);
         0 <= lo < hi <= |p.source| && sys.r.temp.value[lo..hi] == p.source[lo..hi]
  {
    Reachable(p, states, steps, k);
    var sys := states[k];
    if Ack(i) in sys.net { assert MsgOk(p, sys.r, Ack(i)); }
    assert OnDisk(p, sys.r, i);
    ChunkBounds(i, p.chunkSize, |p.source|);
  }

  /**
   Under the same condition, the first completion that reaches the receiver after it accepted passes its check: the
   source's bytes are renamed into place, the row, unless it has been cleared, becomes complete and the sender is
   told so.
   */
  lemma FirstCompletionDelivers(p: Params, states: seq<System>, steps: seq<Label>, k: nat, byCancel: bool)
    requires p.Valid() && Run(p, states, steps) && k <= |steps|
    requires !states[k].settled && !states[k].spoiled
    requires states[k].r.inb.Some? && SenderClose(true, byCancel) in states[k].net
    ensures states[k].r.temp == Some(p.source)
    ensures var step := OnSenderClose(p, states[k].r, true, byCancel, true);
      && step.state.final == Some(p.source)
      && (states[k].r.row.Some? ==> step.state.status.Complete?)
      && step.sends == [ReceiverClose(true, false)]
  {
    Reachable(p, states, steps, k);
    CompleteFindsSource(p, states[k].s, states[k].r, states[k].net, SenderClose(true, byCancel));
  }

  /** Neither side ever records "complete", in a run or late, unless the source's bytes are in place. */
  lemma CompleteMeansDelivered(p: Params, states: seq<System>, steps: seq<Label>, k: nat)
    requires p.Valid() && Run(p, states, steps) && k <= |steps|
    requires states[k].s.status.Complete? || states[k].r.status.Complete?
    ensures states[k].r.final == Some(p.source)
  {
    Reachable(p, states, steps, k);
  }

  /**
   The sender's counters in every reachable state, across resumes and restores; the all-sent test of
   the late completion is the same as having sent every chunk.
   */
  lemma CountersAgree(p: Params, states: seq<System>, steps: seq<Label>, k: nat)
    requires p.Valid() && Run(p, states, steps) && k <= |steps| && states[k].s.out.Some?
    ensures var o := states[k].s.out.value;
      && 0 <= o.next <= p.Total()
      && o.bytes == Min(o.next * p.chunkSize, |p.source|)
      && (o.bytes == |p.source| <==> o.next == p.Total())
  {
    Reachable(p, states, steps, k);
    AllBytesIffAllChunks(states[k].s.out.value.next, p.chunkSize, |p.source|);
  }
}
