/**
 One file transfer as values (network/file_transfer.go): the records that the sender and the
 receiver keep in memory, what each persists, and what each of their steps does to both.
 The classes in TransferNodes run these steps in place; TransferProtocol composes them over a network.
 */
module TransferState {
  import opened Common
  import opened Chunks

  const OUTBOUND_CHUNK_INTERVAL := 50
  const OUTBOUND_BYTE_INTERVAL := 10 * 1024 * 1024
  const INBOUND_CHUNK_INTERVAL := 10
  const INBOUND_BYTE_INTERVAL := 2 * 1024 * 1024

  /**
   What a row of the files table, or a record in memory, says of a file. A checksum is known by the
   content it is of; the text that stands for one in a row without a file is of no content.
   */
  datatype FileInfo = FileInfo(size: nat, content: Option<seq<byte>>)

  /** The row of a file that its sender canceled before anything else was known of it. */
  const CANCELED_BEFORE_APPROVAL := FileInfo(0, None)

  /** The source file, and the two options both sides are configured with. */
  datatype Params = Params(source: seq<byte>, chunkSize: int, maxRetries: int) {
    predicate Valid() {
      chunkSize > 0 && maxRetries > 0
    }

    function Total(): nat {
      ChunkCount(|source|, chunkSize)
    }

    /** What the sender's request says of the file. */
    function Info(): FileInfo {
      FileInfo(|source|, Some(source))
    }

    function Below(next: int): int {
      BytesBelow(next, chunkSize, |source|)
    }

    /** The bytes the sender reads for chunk i. */
    function ChunkBytes(i: nat): seq<byte>
      requires Valid()
    {
      MulMonotone(0, i, chunkSize);
      match ReadChunk(source, i * chunkSize, chunkSize)
      case Ok(data) => data
      case Err(_) => []
    }
  }

  datatype Status = Unknown | Pending | Accepted | Rejected | Failed | Canceled | Complete

  predicate Terminal(status: Status) {
    status.Complete? || status.Rejected? || status.Failed? || status.Canceled?
  }

  /** A row of the transfer_checkpoints table. */
  datatype Checkpoint = Checkpoint(next: int, bytes: int)

  /**
   What travels between the two sides. `known` is auxiliary: it is the number of chunks the sender
   knew to be delivered when it sent the request, and an accept repeats it; no step depends on it.
   */
  datatype Msg =
    | FileRequest(known: int)
    | Accept(resume: int, known: int)
    | Reject(byCancel: bool)
    | Data(chunk: int, bytes: seq<byte>)
    | Ack(chunk: int)
    | Nack(chunk: int)
    | SenderClose(ok: bool, byCancel: bool)
    | ReceiverClose(ok: bool, byCancel: bool)

  // ----- Sender ---------------------------------------------------------------------------

  datatype Outbound = Outbound(
    next: int, bytes: int, ckNext: int, ckBytes: int,
    running: bool, done: bool, rejected: bool, canceled: bool)
  {
    predicate Live() {
      !done && !rejected && !canceled
    }
  }

  const FRESH_OUTBOUND := Outbound(0, 0, 0, 0, false, false, false, false)

  /** Where a run is waiting. `sent` is the run's own byte counter. */
  datatype Phase =
    | Idle
    | AwaitAccept
    | AwaitAck(chunk: int, attempt: int, sent: int)
    | AwaitComplete

  datatype Sender = Sender(out: Option<Outbound>, phase: Phase, ck: Option<Checkpoint>, status: Status)

  /** What a waiting run can be woken by: a message, its timer, or the end of its context or connection. */
  datatype Event = Reply(msg: Msg) | Timeout | Stop

  /** A step's new state and the messages it sends, in order. */
  datatype SenderStep = SenderStep(state: Sender, sends: seq<Msg>)

  function PersistOutbound(o: Outbound, ck: Option<Checkpoint>, force: bool): (Outbound, Option<Checkpoint>) {
    if !force && o.next - o.ckNext < OUTBOUND_CHUNK_INTERVAL && o.bytes - o.ckBytes < OUTBOUND_BYTE_INTERVAL then
      (o, ck)
    else
      (o.(ckNext := o.next, ckBytes := o.bytes), Some(Checkpoint(o.next, o.bytes)))
  }

  /** The start chunk is the later of the receiver's resume point, clamped, and the sender's own. */
  function ResumeAt(p: Params, o: Outbound, resume: int): Outbound {
    var start := Max(o.next, Min(Max(resume, 0), p.Total()));
    o.(next := start, bytes := Max(o.bytes, p.Below(start)))
  }

  /** The head of the chunk loop: send chunk i, or the completion after the last one. */
  function SendFrom(p: Params, s: Sender, i: nat, sent: int): SenderStep
    requires p.Valid()
  {
    if i < p.Total() then
      SenderStep(s.(phase := AwaitAck(i, 0, sent)), [Data(i, p.ChunkBytes(i))])
    else
      SenderStep(s.(phase := AwaitComplete), [SenderClose(true, false)])
  }

  /** The block that runs when a run returns. */
  function EndRun(s: Sender): Sender
    requires s.out.Some?
  {
    var o := s.out.value.(running := false);
    if o.Live() then
      s.(out := Some(o), phase := Idle, status := Pending)
    else if o.canceled then
      s.(out := Some(o), phase := Idle, status := Canceled, ck := None)
    else
      s.(out := Some(o), phase := Idle)
  }

  function OnRejected(s: Sender, byCancel: bool): Sender
    requires s.out.Some?
  {
    var o := s.out.value;
    EndRun(s.(out := Some(o.(rejected := true, canceled := o.canceled || byCancel)),
              status := if byCancel then Canceled else Rejected, ck := None))
  }

  function OnClosed(s: Sender, ok: bool, byCancel: bool): Sender
    requires s.out.Some?
  {
    var o := s.out.value;
    if ok then
      EndRun(s.(out := Some(o.(done := true)), status := Complete, ck := None))
    else
      EndRun(s.(out := Some(o.(done := true, canceled := o.canceled || byCancel)),
                status := if byCancel then Canceled else Failed, ck := None))
  }

  /** The events a run waiting in `phase` does not discard. */
  predicate Matches(phase: Phase, e: Event) {
    match phase
    case Idle => false
    case AwaitAccept => e.Stop? || (e.Reply? && (e.msg.Accept? || e.msg.Reject?))
    case AwaitAck(i, _, _) =>
      || !e.Reply?
      || e.msg.Reject?
      || ((e.msg.Ack? || e.msg.Nack?) && e.msg.chunk == i)
    case AwaitComplete => !e.Reply? || e.msg.ReceiverClose?
  }

  function OnAccepted(p: Params, s: Sender, resume: int): SenderStep
    requires p.Valid() && s.out.Some?
  {
    var o := ResumeAt(p, s.out.value, resume);
    var (o', ck) := PersistOutbound(o, s.ck, true);
    SendFrom(p, s.(out := Some(o'), ck := ck, status := Accepted), Max(o'.next, 0), o'.bytes)
  }

  function OnDelivered(p: Params, s: Sender, i: nat, sent: int): SenderStep
    requires p.Valid() && s.out.Some?
  {
    var sent' := sent + |p.ChunkBytes(i)|;
    var (o, ck) := PersistOutbound(s.out.value.(next := i + 1, bytes := sent'), s.ck, false);
    SendFrom(p, s.(out := Some(o), ck := ck), i + 1, sent')
  }

  /** An attempt that was answered by a nack, or not at all. */
  function OnFailedAttempt(p: Params, s: Sender, i: nat, attempt: int, sent: int): SenderStep
    requires p.Valid() && s.out.Some?
  {
    if attempt + 1 < p.maxRetries then
      SenderStep(s.(phase := AwaitAck(i, attempt + 1, sent)), [Data(i, p.ChunkBytes(i))])
    else
      SenderStep(EndRun(s), [])
  }

  /** One event at a run in progress. */
  function OnEvent(p: Params, s: Sender, e: Event): (step: SenderStep)
    requires p.Valid() && s.out.Some?
    ensures step.state.out.Some?
  {
    if !Matches(s.phase, e) then
      SenderStep(s, [])
    else if e.Stop? then
      SenderStep(EndRun(s), [])
    else match s.phase
      case AwaitAccept =>
        if e.msg.Accept? then OnAccepted(p, s, e.msg.resume) else SenderStep(OnRejected(s, e.msg.byCancel), [])
      case AwaitAck(i, attempt, sent) =>
        if e.Reply? && e.msg.Reject? then SenderStep(OnRejected(s, e.msg.byCancel), [])
        else if e.Reply? && e.msg.Ack? then OnDelivered(p, s, Max(i, 0), sent)
        else OnFailedAttempt(p, s, Max(i, 0), attempt, sent)
      case AwaitComplete =>
        if e.Timeout? then SenderStep(EndRun(s), [])
        else SenderStep(OnClosed(s, e.msg.ok, e.msg.byCancel), [])
  }

  /** Starting a run, where one can start. */
  function Begin(s: Sender, known: int): SenderStep {
    if s.out.None? || s.out.value.running || !s.out.value.Live() then
      SenderStep(s, [])
    else
      SenderStep(s.(out := Some(s.out.value.(running := true)), phase := AwaitAccept), [FileRequest(known)])
  }

  function CancelOutbound(s: Sender): SenderStep {
    if s.out.None? then
      SenderStep(s.(status := Canceled), [])
    else if !s.out.value.Live() then
      SenderStep(s, [])
    else if s.out.value.running then
      SenderStep(s.(out := Some(s.out.value.(canceled := true))), [SenderClose(false, true)])
    else
      SenderStep(s.(out := Some(s.out.value.(canceled := true, done := true)), status := Canceled, ck := None), [])
  }

  function Retry(s: Sender): Sender {
    if s.out.Some? && s.out.value.running then s else Sender(Some(FRESH_OUTBOUND), Idle, None, Pending)
  }

  /** A completion that reaches the sender while no run of the transfer is waiting. */
  function OnLateClose(p: Params, s: Sender, ok: bool, byCancel: bool): Sender {
    if !ok then
      if byCancel then s.(status := Canceled) else s
    else if s.out.Some? && s.out.value.bytes == |p.source| && !s.out.value.done then
      s.(out := Some(s.out.value.(done := true, running := false)), status := Complete, ck := None)
    else
      s
  }

  function RestoreOutbound(p: Params, c: Checkpoint): Outbound {
    var next := Min(Max(c.next, 0), p.Total());
    var bytes := Min(Max(c.bytes, 0), |p.source|);
    Outbound(next, bytes, next, bytes, false, false, false, false)
  }

  /** The process dies and starts again: memory is rebuilt from the stored rows. */
  function RestartSender(p: Params, s: Sender): Sender {
    if s.ck.None? || Terminal(s.status) then
      Sender(None, Idle, None, s.status)
    else
      Sender(Some(RestoreOutbound(p, s.ck.value)), Idle, s.ck, s.status)
  }

  // ----- Receiver -------------------------------------------------------------------------

  datatype Inbound = Inbound(file: FileInfo, received: set<int>, next: int, bytes: int, ckNext: int, ckBytes: int) {
    function Total(p: Params): nat {
      ChunkCount(file.size, p.chunkSize)
    }
  }

  /**
   `row` and `status` are the file's row, which is Unknown while there is none. `asked` is a dialog that is
   open for a request. `temp` is the temp file of the record in memory or of the last one.
   */
  datatype Receiver = Receiver(
    inb: Option<Inbound>, ck: Option<Checkpoint>, row: Option<FileInfo>, asked: Option<int>, status: Status,
    temp: Option<seq<byte>>, final: Option<seq<byte>>)

  datatype ReceiverStep = ReceiverStep(state: Receiver, sends: seq<Msg>)

  /** A plain INSERT whose uniqueness error is swallowed: the first row stays. */
  function Inserted(row: Option<FileInfo>, info: FileInfo): Option<FileInfo> {
    if row.Some? then row else Some(info)
  }

  /** An UPDATE of the row's status, which changes nothing where there is no row. */
  function Updated(status: Status, next: Status): Status {
    if status.Unknown? then Unknown else next
  }

  /** The receiver's user clears the conversation: the row goes, and nothing else. */
  function DropRow(r: Receiver): Receiver {
    r.(row := None, status := Unknown)
  }

  /** How handling a chunk can go wrong before it is acknowledged. */
  datatype Fault = NoFault | Unreadable | WriteStops(at: nat)

  function PersistInbound(b: Inbound, ck: Option<Checkpoint>, force: bool): (Inbound, Option<Checkpoint>) {
    if !force && b.next - b.ckNext < INBOUND_CHUNK_INTERVAL && b.bytes - b.ckBytes < INBOUND_BYTE_INTERVAL then
      (b, ck)
    else
      (b.(ckNext := b.next, ckBytes := b.bytes), Some(Checkpoint(b.next, b.bytes)))
  }

  /** The least index from `next` on that is not in `received`; `received` has nothing at or above `total`. */
  function Advance(received: set<int>, next: int, total: int): (n: int)
    ensures n >= next
    ensures forall i :: next <= i < n ==> i in received
    ensures n < total ==> n !in received
    ensures next <= total ==> n <= total
    decreases total - next
  {
    if next < total && next in received then Advance(received, next + 1, total) else next
  }

  function TempContent(r: Receiver): seq<byte> {
    if r.temp.Some? then r.temp.value else []
  }

  /**
   The decision about a request, taken at once or in a dialog. It does not look for a record in memory.
   `other` is what the temp file holds if it is not the one of before, as when the directory has changed.
   */
  function Finalize(p: Params, r: Receiver, approved: bool, other: Option<seq<byte>>, known: int): ReceiverStep {
    if !approved then
      ReceiverStep(r.(row := Inserted(r.row, p.Info()), status := Rejected), [Reject(false)])
    else if r.status.Canceled? then
      ReceiverStep(r, [Reject(true)])
    else
      var (b, ck) := PersistInbound(Inbound(p.Info(), {}, 0, 0, 0, 0), r.ck, true);
      var temp := Truncate(if other.Some? then other.value else TempContent(r), |p.source|);
      ReceiverStep(r.(inb := Some(b), ck := ck, row := Inserted(r.row, p.Info()), status := Accepted,
                      temp := Some(temp)),
                   [Accept(b.next, known)])
  }

  /** A request that is answered at once. */
  function OnRequest(p: Params, r: Receiver, approved: bool, known: int): ReceiverStep {
    if r.inb.Some? then
      ReceiverStep(r.(status := Updated(r.status, Accepted)), [Accept(r.inb.value.next, known)])
    else
      Finalize(p, r, approved, None, known)
  }

  /** A request that opens a dialog, unless one is open already. */
  function Ask(r: Receiver, known: int): Receiver {
    if r.asked.Some? then r else r.(asked := Some(known))
  }

  /** The answer to the dialog, however late. */
  function Decide(p: Params, r: Receiver, approved: bool, other: Option<seq<byte>>): ReceiverStep
    requires r.asked.Some?
  {
    Finalize(p, r.(asked := None), approved, other, r.asked.value)
  }

  /** The bookkeeping of a chunk that has been written. */
  function RecordChunk(p: Params, b: Inbound, i: int, length: int): Inbound {
    if i in b.received then
      b
    else
      b.(received := b.received + {i}, bytes := b.bytes + length,
         next := Advance(b.received + {i}, b.next, b.Total(p)))
  }

  function OnData(p: Params, r: Receiver, i: int, data: seq<byte>, fault: Fault): ReceiverStep
    requires p.Valid()
  {
    if r.inb.None? || i < 0 || i >= r.inb.value.Total(p) || fault.Unreadable? || r.temp.None? then
      ReceiverStep(r, [Nack(i)])
    else
      MulMonotone(0, i, p.chunkSize);
      var offset := i * p.chunkSize;
      if fault.WriteStops? then
        var written := data[..Min(fault.at, |data|)];
        ReceiverStep(r.(temp := Some(WriteAt(r.temp.value, offset, written))), [Nack(i)])
      else
        var (b, ck) := PersistInbound(RecordChunk(p, r.inb.value, i, |data|), r.ck, false);
        ReceiverStep(r.(inb := Some(b), ck := ck, temp := Some(WriteAt(r.temp.value, offset, data))), [Ack(i)])
  }

  function DropInbound(r: Receiver, status: Status): Receiver {
    r.(inb := None, ck := None, status := Updated(r.status, status))
  }

  /** `recordInboundCanceledBeforeApproval`. */
  function CancelUnknown(r: Receiver): Receiver {
    r.(row := Inserted(r.row, CANCELED_BEFORE_APPROVAL), status := Canceled)
  }

  /** `file_complete` from the sender. Equal digests mean equal contents. */
  function OnSenderClose(p: Params, r: Receiver, ok: bool, byCancel: bool, renames: bool): ReceiverStep {
    if r.inb.None? then
      ReceiverStep(if !ok && byCancel then CancelUnknown(r) else r, [])
    else if !ok then
      ReceiverStep(DropInbound(r, if byCancel then Canceled else Failed), [ReceiverClose(false, byCancel)])
    else if r.temp.None? || r.temp != r.inb.value.file.content || !renames then
      ReceiverStep(DropInbound(r, Failed), [ReceiverClose(false, false)])
    else
      ReceiverStep(DropInbound(r, Complete).(temp := None, final := r.temp), [ReceiverClose(true, false)])
  }

  function CancelInbound(r: Receiver): ReceiverStep {
    if r.inb.None? then
      ReceiverStep(r.(status := Updated(r.status, Canceled)), [])
    else
      ReceiverStep(DropInbound(r, Canceled).(temp := None), [ReceiverClose(false, true)])
  }

  /** The indices below n. */
  function FirstChunks(n: int): (s: set<int>)
    ensures forall i :: i in s <==> 0 <= i < n
  {
    if n <= 0 then {} else FirstChunks(n - 1) + {n - 1}
  }

  function RestoreInbound(p: Params, file: FileInfo, c: Checkpoint): Inbound {
    var next := Min(Max(c.next, 0), ChunkCount(file.size, p.chunkSize));
    var bytes := Min(Max(c.bytes, 0), file.size);
    Inbound(file, FirstChunks(next), next, bytes, next, bytes)
  }

  /** Whether a restart brings the record back. */
  predicate Restores(r: Receiver) {
    r.ck.Some? && r.row.Some? && !Terminal(r.status)
  }

  /** What the record says of the file then comes from the row. */
  function RestartReceiver(p: Params, r: Receiver): Receiver {
    if !Restores(r) then
      r.(inb := None, ck := None, asked := None)
    else
      r.(inb := Some(RestoreInbound(p, r.row.value, r.ck.value)), asked := None,
         temp := Some(Truncate(TempContent(r), r.row.value.size)))
  }
}
