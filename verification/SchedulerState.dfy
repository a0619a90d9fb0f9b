/**
 The per-peer outbound transfer queue (network/file_transfer.go) as values: every manager method, and the
 block that ends a run, as one function from state to state.
 */
module SchedulerState {
  import opened Common

  type PeerId = Id
  type FileId = Id

  /** `size` and `sent` count bytes. */
  datatype Transfer = Transfer(peer: PeerId, size: nat, sent: nat, running: bool, done: bool, rejected: bool,
                               canceled: bool) {
    predicate Live() {
      !done && !rejected && !canceled
    }
  }

  /**
   `tickets` and `next` are auxiliary: a transfer draws a ticket whenever it joins the back of its queue;
   no step depends on them.
   */
  datatype State = State(
    transfers: map<FileId, Transfer>, queues: map<PeerId, seq<FileId>>, active: map<PeerId, FileId>,
    connected: set<PeerId>, tickets: map<FileId, nat>, next: nat)
  {
    function Queue(p: PeerId): seq<FileId> {
      if p in queues then queues[p] else []
    }

    function WithQueue(p: PeerId, q: seq<FileId>): State {
      this.(queues := if q == [] then queues - {p} else queues[p := q])
    }

    function WithTransfer(id: FileId, t: Transfer): State {
      this.(transfers := transfers[id := t])
    }
  }

  const EMPTY := State(map[], map[], map[], {}, map[], 0)

  function Fresh(p: PeerId, size: nat): Transfer {
    Transfer(p, size, 0, false, false, false, false)
  }

  function Enqueue(s: State, p: PeerId, id: FileId, front: bool): State {
    if p.Blank() || id.Blank() || id in s.Queue(p) then s
    else if front then s.WithQueue(p, [id] + s.Queue(p))
    else s.WithQueue(p, s.Queue(p) + [id]).(tickets := s.tickets[id := s.next], next := s.next + 1)
  }

  function Without(q: seq<FileId>, id: FileId): (r: seq<FileId>)
    ensures id !in r
    ensures forall x :: x in r <==> x in q && x != id
  {
    if q == [] then []
    else if q[|q| - 1] == id then Without(q[..|q| - 1], id)
    else Without(q[..|q| - 1], id) + [q[|q| - 1]]
  }

  function RemoveQueued(s: State, p: PeerId, id: FileId): State {
    if p.Blank() || id.Blank() || s.Queue(p) == [] then s else s.WithQueue(p, Without(s.Queue(p), id))
  }

  function Finish(s: State, p: PeerId, id: FileId): State {
    if p in s.active && s.active[p] == id then s.(active := s.active - {p}) else s
  }

  function Begin(s: State, id: FileId): State
    requires id in s.transfers
  {
    var t := s.transfers[id];
    if t.running || !t.Live() then s else s.WithTransfer(id, t.(running := true))
  }

  /** The pop loop: transfers that are gone or over are skipped, the first live one is begun. */
  function PopLoop(s: State, p: PeerId): State
    decreases |s.Queue(p)|
  {
    if p in s.active then s
    else if s.Queue(p) == [] then s.(queues := s.queues - {p})
    else
      var id := s.Queue(p)[0];
      var popped := s.WithQueue(p, s.Queue(p)[1..]).(active := s.active[p := id]);
      if id !in s.transfers || !s.transfers[id].Live() then PopLoop(Finish(popped, p, id), p)
      else Begin(popped, id)
  }

  function StartNext(s: State, p: PeerId): State {
    if p.Blank() || p !in s.connected then s else PopLoop(s, p)
  }

  function Send(s: State, p: PeerId, id: FileId, size: nat): State {
    StartNext(Enqueue(s.WithTransfer(id, Fresh(p, size)), p, id, false), p)
  }

  /** How a run returns. */
  datatype Outcome = Interrupted | Completed | Failed(byCancel: bool) | Rejected(byCancel: bool)

  function Record(t: Transfer, outcome: Outcome): Transfer {
    match outcome
    case Interrupted => t
    case Completed => t.(done := true)
    case Failed(byCancel) => t.(done := true, canceled := t.canceled || byCancel)
    case Rejected(byCancel) => t.(rejected := true, canceled := t.canceled || byCancel)
  }

  /** The block after a run that has taken the bytes sent to `sent`. */
  function EndRun(s: State, id: FileId, outcome: Outcome, sent: nat): State
    requires id in s.transfers
  {
    var t := Record(s.transfers[id], outcome).(running := false, sent := sent);
    var s1 := s.WithTransfer(id, t);
    var s2 := if t.Live() then Enqueue(s1, t.peer, id, true) else s1;
    StartNext(Finish(s2, t.peer, id), t.peer)
  }

  function Cancel(s: State, id: FileId): State {
    if id !in s.transfers || !s.transfers[id].Live() then s
    else
      var t := s.transfers[id];
      if t.running then
        RemoveQueued(s.WithTransfer(id, t.(canceled := true)), t.peer, id)
      else
        var s1 := RemoveQueued(s.WithTransfer(id, t.(canceled := true, done := true)), t.peer, id);
        StartNext(Finish(s1, t.peer, id), t.peer)
  }

  /** A transfer that is not in memory is rebuilt from its row, which names the peer. */
  function Retry(s: State, id: FileId, stored: PeerId, size: nat): State {
    var t := if id in s.transfers then s.transfers[id] else Fresh(stored, size);
    if t.running then s
    else StartNext(Enqueue(s.WithTransfer(id, Fresh(t.peer, t.size)), t.peer, id, false), t.peer)
  }

  /** A completion that finds no run is believed of a transfer that has sent every byte. */
  function LateComplete(s: State, id: FileId): State {
    if id !in s.transfers || s.transfers[id].done || s.transfers[id].sent != s.transfers[id].size then s
    else s.WithTransfer(id, s.transfers[id].(done := true, running := false))
  }

  function Connect(s: State, p: PeerId): State {
    StartNext(s.(connected := s.connected + {p}), p)
  }

  function Disconnect(s: State, p: PeerId): State {
    s.(connected := s.connected - {p})
  }

  /** Start-up: a checkpoint brings a transfer back; nothing is connected yet. */
  function Restore(s: State, id: FileId, p: PeerId, size: nat, sent: nat): State {
    Enqueue(if id in s.transfers then s else s.WithTransfer(id, Fresh(p, size).(sent := sent)), p, id, false)
  }

  datatype Label =
    | Sends(peer: PeerId, id: FileId, size: nat)
    | RunEnds(id: FileId, outcome: Outcome, sent: nat)
    | Cancels(id: FileId)
    | Retries(id: FileId, peer: PeerId, size: nat)
    | CompletesLate(id: FileId)
    | Connects(peer: PeerId)
    | Disconnects(peer: PeerId)
    | Restores(id: FileId, peer: PeerId, size: nat, sent: nat)

  /**
   File ids are new and not blank; a run ends once and never unsends; a late completion finds no run; restoring comes
   before connecting.
   */
  predicate Enabled(s: State, l: Label) {
    match l
    case Sends(_, id, _) => id !in s.transfers && !id.Blank()
    case RunEnds(id, _, sent) =>
      id in s.transfers && s.transfers[id].running && s.transfers[id].sent <= sent <= s.transfers[id].size
    case Retries(id, _, _) => !id.Blank()
    case CompletesLate(id) => id in s.transfers ==> !s.transfers[id].running
    case Restores(id, _, size, sent) => sent <= size && s.connected == {} && !id.Blank() && id !in s.transfers
    case _ => true
  }

  function Apply(s: State, l: Label): State
    requires Enabled(s, l)
  {
    match l
    case Sends(p, id, size) => Send(s, p, id, size)
    case RunEnds(id, outcome, sent) => EndRun(s, id, outcome, sent)
    case Cancels(id) => Cancel(s, id)
    case Retries(id, p, size) => Retry(s, id, p, size)
    case CompletesLate(id) => LateComplete(s, id)
    case Connects(p) => Connect(s, p)
    case Disconnects(p) => Disconnect(s, p)
    case Restores(id, p, size, sent) => Restore(s, id, p, size, sent)
  }

  ghost predicate Run(states: seq<State>, steps: seq<Label>) {
    && |states| == |steps| + 1
    && states[0] == EMPTY
    && forall k :: 0 <= k < |steps| ==> Enabled(states[k], steps[k]) && states[k + 1] == Apply(states[k], steps[k])
  }
}
