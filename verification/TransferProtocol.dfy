/**
 The two nodes of one file transfer and the network between them.
 The network remembers every message ever sent and may deliver any of them at any time, any number of
 times or never; either node may die and start again between any two steps.
 */
module TransferProtocol {
  import opened Common
  import opened TransferState

  /**
   `settled` to `current` are auxiliary; no step depends on them.
   settled: the receiver has dropped its first inbound transfer: delivered, failed or canceled, or not brought back
   by a restart because its row was marked refused by then, or had been cleared.
   spoiled: a restart has restored the record from a row that is not the file's, or a late approval has
   moved the record to another temp file.
   replaced: a late approval has replaced the record in memory by a new one.
   known: how many chunks the sender has ever known to be delivered since the send or the last retry.
   current: the accept that started the current run answers a request sent since `known` last changed.
   */
  datatype System = System(
    s: Sender, r: Receiver, net: set<Msg>,
    settled: bool, spoiled: bool, replaced: bool, restartedR: bool, restartedS: bool, known: int, current: bool)

  /** After `SendFile`: the transfer is stored as pending and queued; the receiver knows nothing. */
  const INITIAL_SENDER := Sender(Some(FRESH_OUTBOUND), Idle, None, Pending)
  const INITIAL_RECEIVER := Receiver(None, None, None, None, Unknown, None, None)
  const INITIAL := System(INITIAL_SENDER, INITIAL_RECEIVER, {}, false, false, false, false, false, 0, false)

  datatype Label =
    // sender
    | BeginRun
    | ToSender(msg: Msg)
    | TimerFires
    | RunStops
    | UserCancelsSend
    | UserRetries
    | SenderRestarts
    // receiver
    | ToReceiver(msg: Msg, approved: bool, fault: Fault, renames: bool)
    | RefuseRequest(msg: Msg)
    | Asks(known: int)
    | Decides(approved: bool, other: Option<seq<byte>>)
    | Dismisses
    | UserCancelsReceive
    | ClearsHistory
    | ReceiverRestarts
    | ReceiverDiesAfterRename(msg: Msg)

  predicate Enabled(sys: System, l: Label) {
    match l
    case ToSender(m) => m in sys.net && (m.Accept? || m.Reject? || m.Ack? || m.Nack? || m.ReceiverClose?)
    case ToReceiver(m, _, _, _) => m in sys.net && (m.FileRequest? || m.Data? || m.SenderClose?)
    case TimerFires => !sys.s.phase.Idle?
    case RunStops => !sys.s.phase.Idle?
    case RefuseRequest(m) => m in sys.net && m.FileRequest?
    case Asks(known) => FileRequest(known) in sys.net && sys.r.inb.None?
    case Decides(_, _) => sys.r.asked.Some?
    case ReceiverDiesAfterRename(m) =>
      m in sys.net && m.SenderClose? && m.ok && sys.r.inb.Some? && sys.r.temp.Some?
    case _ => true
  }

  function AsSet(ms: seq<Msg>): (s: set<Msg>)
    ensures forall m :: m in s <==> m in ms
  {
    set m | m in ms
  }

  function Knows(known: int, s: Sender): int {
    if s.out.Some? then Max(known, s.out.value.next) else known
  }

  /** One event at the sender: at a run in progress, or with no run waiting. */
  function SenderEvent(p: Params, s: Sender, e: Event): SenderStep
    requires p.Valid()
  {
    if s.out.Some? && !s.phase.Idle? then
      OnEvent(p, s, e)
    else if e.Reply? && e.msg.ReceiverClose? then
      SenderStep(OnLateClose(p, s, e.msg.ok, e.msg.byCancel), [])
    else
      SenderStep(s, [])
  }

  function WithSender(sys: System, step: SenderStep): System {
    sys.(s := step.state, net := sys.net + AsSet(step.sends), known := Knows(sys.known, step.state))
  }

  function WithReceiver(sys: System, step: ReceiverStep): System {
    sys.(r := step.state, net := sys.net + AsSet(step.sends),
         settled := sys.settled || (sys.r.inb.Some? && step.state.inb.None?))
  }

  function ReceiverEvent(p: Params, r: Receiver, m: Msg, approved: bool, fault: Fault, renames: bool): ReceiverStep
    requires p.Valid()
  {
    match m
    case FileRequest(known) => OnRequest(p, r, approved, known)
    case Data(i, data) => OnData(p, r, i, data, fault)
    case SenderClose(ok, byCancel) => OnSenderClose(p, r, ok, byCancel, renames)
    case _ => ReceiverStep(r, [])
  }

  /** The completion check passes. */
  predicate Renamed(r: Receiver) {
    r.inb.Some? && r.temp.Some? && r.temp == r.inb.value.file.content
  }

  /** The rename has happened, but neither the status nor the checkpoint has been updated when the process dies. */
  function DieAfterRename(p: Params, r: Receiver): Receiver {
    if Renamed(r) then
      RestartReceiver(p, r.(temp := None, final := r.temp))
    else
      RestartReceiver(p, r)
  }

  /** The row that a restart would restore the record from is not the file's. */
  predicate Misreads(p: Params, r: Receiver) {
    Restores(r) && r.row.value != p.Info()
  }

  /** An approval that finds a record in memory, which it replaces. */
  predicate Replaces(r: Receiver, approved: bool) {
    r.inb.Some? && approved && !r.status.Canceled?
  }

  /** What can spoil the guarantees, told from the state before the step. */
  predicate Spoils(p: Params, sys: System, l: Label) {
    match l
    case Decides(approved, other) => Replaces(sys.r, approved) && other.Some?
    case ReceiverRestarts => Misreads(p, sys.r)
    case ReceiverDiesAfterRename(_) => Misreads(p, sys.r)
    case _ => false
  }

  /** Only an accept can make a run current, and only the next one changes that. */
  function IsCurrent(sys: System, m: Msg): bool {
    if sys.s.phase.AwaitAccept? && m.Accept? then m.known == sys.known else sys.current
  }

  function WithRestart(p: Params, sys: System, r: Receiver): System {
    sys.(r := r, restartedR := true, settled := sys.settled || (sys.r.inb.Some? && r.inb.None?),
         spoiled := sys.spoiled || Misreads(p, sys.r))
  }

  function WithDecision(p: Params, sys: System, approved: bool, other: Option<seq<byte>>): System {
    if sys.r.asked.None? then sys
    else
      WithReceiver(sys, Decide(p, sys.r, approved, other)).(
        spoiled := sys.spoiled || (Replaces(sys.r, approved) && other.Some?),
        replaced := sys.replaced || Replaces(sys.r, approved))
  }

  /** The steps that the receiver takes. */
  predicate AtReceiver(l: Label) {
    || l.ToReceiver? || l.Asks? || l.Decides? || l.Dismisses? || l.UserCancelsReceive?
    || l.ClearsHistory? || l.ReceiverRestarts? || l.ReceiverDiesAfterRename?
  }

  function ApplyAtSender(p: Params, sys: System, l: Label): System
    requires p.Valid() && !AtReceiver(l)
  {
    match l
    case BeginRun => WithSender(sys, Begin(sys.s, sys.known))
    case ToSender(m) => WithSender(sys, SenderEvent(p, sys.s, Reply(m))).(current := IsCurrent(sys, m))
    case TimerFires => WithSender(sys, SenderEvent(p, sys.s, Timeout))
    case RunStops => WithSender(sys, SenderEvent(p, sys.s, Stop))
    case UserCancelsSend => WithSender(sys, CancelOutbound(sys.s))
    case UserRetries =>
      if sys.s.out.Some? && sys.s.out.value.running then sys else sys.(s := Retry(sys.s), known := 0)
    case SenderRestarts => sys.(s := RestartSender(p, sys.s), restartedS := true)
    case RefuseRequest(_) => sys.(net := sys.net + {Reject(false)})
  }

  function ApplyAtReceiver(p: Params, sys: System, l: Label): System
    requires p.Valid() && AtReceiver(l)
  {
    match l
    case ToReceiver(m, approved, fault, renames) =>
      WithReceiver(sys, ReceiverEvent(p, sys.r, m, approved, fault, renames))
    case Asks(known) => sys.(r := Ask(sys.r, known))
    case Decides(approved, other) => WithDecision(p, sys, approved, other)
    case Dismisses => sys.(r := sys.r.(asked := None))
    case UserCancelsReceive => WithReceiver(sys, CancelInbound(sys.r))
    case ClearsHistory => sys.(r := DropRow(sys.r))
    case ReceiverRestarts => WithRestart(p, sys, RestartReceiver(p, sys.r))
    case ReceiverDiesAfterRename(m) =>
      var r := DieAfterRename(p, sys.r);
      WithRestart(p, sys, r).(settled := sys.settled || Renamed(sys.r) || r.inb.None?)
  }

  function Apply(p: Params, sys: System, l: Label): System
    requires p.Valid()
  {
    if AtReceiver(l) then ApplyAtReceiver(p, sys, l) else ApplyAtSender(p, sys, l)
  }

  ghost predicate Follows(p: Params, states: seq<System>, steps: seq<Label>, k: nat)
    requires p.Valid() && k < |steps| && |states| == |steps| + 1
  {
    Enabled(states[k], steps[k]) && states[k + 1] == Apply(p, states[k], steps[k])
  }

  /** A run of the system: its states and the steps between them. */
  ghost predicate Run(p: Params, states: seq<System>, steps: seq<Label>)
    requires p.Valid()
  {
    && |states| == |steps| + 1
    && states[0] == INITIAL
    && forall k :: 0 <= k < |steps| ==> Follows(p, states, steps, k)
  }
}
