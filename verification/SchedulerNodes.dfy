/**
 The scheduler as the manager keeps it: a map of queues, a map of active slots and the transfers, updated in
 place by the methods of network/file_transfer.go. Each is proved against its function in SchedulerState.
 */
module SchedulerNodes {
  import opened Common
  import opened SchedulerState

  class TransferScheduler {
    var transfers: map<FileId, Transfer>
    var queues: map<PeerId, seq<FileId>>
    var active: map<PeerId, FileId>
    var connected: set<PeerId>
    ghost var tickets: map<FileId, nat>
    ghost var next: nat

    ghost function View(): State
      reads this
    {
      State(transfers, queues, active, connected, tickets, next)
    }

    constructor ()
      ensures View() == EMPTY
    {
      transfers, queues, active, connected := map[], map[], map[], {};
      tickets, next := map[], 0;
    }

    method Enqueue(p: PeerId, id: FileId, front: bool)
      modifies this
      ensures View() == SchedulerState.Enqueue(old(View()), p, id, front)
    {
      if p.Blank() || id.Blank() {
        return;
      }
      var queue := if p in queues then queues[p] else [];
      var alreadyQueued := false;
      for i := 0 to |queue|
        invariant alreadyQueued <==> id in queue[..i]
      {
        if queue[i] == id {
          alreadyQueued := true;
          break;
        }
      }
      if !alreadyQueued {
        if front {
          queue := [id] + queue;
        } else {
          queue := queue + [id];
          tickets, next := tickets[id := next], next + 1;
        }
        queues := queues[p := queue];
      }
    }

    method RemoveQueued(p: PeerId, id: FileId) returns (removed: bool)
      modifies this
      ensures View() == SchedulerState.RemoveQueued(old(View()), p, id)
      ensures removed <==> !p.Blank() && !id.Blank() && id in old(View()).Queue(p)
    {
      if p.Blank() || id.Blank() {
        return false;
      }
      var queue := if p in queues then queues[p] else [];
      if |queue| == 0 {
        return false;
      }
      var filtered := [];
      removed := false;
      for i := 0 to |queue|
        invariant filtered == Without(queue[..i], id)
        invariant removed <==> id in queue[..i]
        invariant View() == old(View())
      {
        assert queue[..i + 1] == queue[..i] + [queue[i]];
        if queue[i] == id {
          removed := true;
        } else {
          filtered := filtered + [queue[i]];
        }
      }
      assert queue[..|queue|] == queue;
      if |filtered| == 0 {
        queues := queues - {p};
      } else {
        queues := queues[p := filtered];
      }
    }

    method Finish(p: PeerId, id: FileId)
      modifies this`active
      ensures View() == SchedulerState.Finish(old(View()), p, id)
    {
      if p in active && active[p] == id {
        active := active - {p};
      }
    }

    method Begin(id: FileId)
      requires id in transfers
      modifies this`transfers
      ensures View() == SchedulerState.Begin(old(View()), id)
    {
      var t := transfers[id];
      if t.running || t.done || t.rejected || t.canceled {
        return;
      }
      transfers := transfers[id := t.(running := true)];
    }

    /** Pops until a live transfer has been begun, the slot is taken or the queue is empty. */
    method StartNext(p: PeerId)
      modifies this
      ensures View() == SchedulerState.StartNext(old(View()), p)
    {
      if p.Blank() || p !in connected {
        return;
      }
      while true
        invariant PopLoop(View(), p) == PopLoop(old(View()), p)
        decreases |View().Queue(p)|
      {
        if p in active {
          return;
        }
        var queue := if p in queues then queues[p] else [];
        if |queue| == 0 {
          queues := queues - {p};
          return;
        }
        var nextId := queue[0];
        var remaining := queue[1..];
        if |remaining| == 0 {
          queues := queues - {p};
        } else {
          queues := queues[p := remaining];
        }
        active := active[p := nextId];
        if nextId !in transfers || !transfers[nextId].Live() {
          Finish(p, nextId);
        } else {
          Begin(nextId);
          return;
        }
      }
    }

    method SendFile(p: PeerId, id: FileId, size: nat)
      modifies this
      ensures View() == Send(old(View()), p, id, size)
    {
      transfers := transfers[id := Fresh(p, size)];
      Enqueue(p, id, false);
      StartNext(p);
    }

    /** The block after a run, with what the run has recorded and sent. */
    method EndRun(id: FileId, outcome: Outcome, sent: nat)
      requires id in transfers
      modifies this
      ensures View() == SchedulerState.EndRun(old(View()), id, outcome, sent)
    {
      var t := Record(transfers[id], outcome).(running := false, sent := sent);
      transfers := transfers[id := t];
      if t.Live() {
        Enqueue(t.peer, id, true);
      }
      Finish(t.peer, id);
      StartNext(t.peer);
    }

    method CancelTransfer(id: FileId)
      modifies this
      ensures View() == Cancel(old(View()), id)
    {
      if id !in transfers || !transfers[id].Live() {
        return;
      }
      var t := transfers[id].(canceled := true);
      if !t.running {
        t := t.(done := true);
      }
      transfers := transfers[id := t];
      var _ := RemoveQueued(t.peer, id);
      if t.running {
        return;
      }
      Finish(t.peer, id);
      StartNext(t.peer);
    }

    method RetryTransfer(id: FileId, stored: PeerId, size: nat) returns (accepted: bool)
      modifies this
      ensures accepted <==> !(id in old(transfers) && old(transfers)[id].running)
      ensures View() == Retry(old(View()), id, stored, size)
    {
      var t := if id in transfers then transfers[id] else Fresh(stored, size);
      if t.running {
        return false;
      }
      transfers := transfers[id := t.(sent := 0, done := false, rejected := false, canceled := false)];
      Enqueue(t.peer, id, false);
      StartNext(t.peer);
      return true;
    }

    method CompleteLate(id: FileId)
      modifies this`transfers
      ensures View() == LateComplete(old(View()), id)
    {
      if id in transfers && transfers[id].sent == transfers[id].size && !transfers[id].done {
        transfers := transfers[id := transfers[id].(done := true, running := false)];
      }
    }

    method PeerConnected(p: PeerId)
      modifies this
      ensures View() == Connect(old(View()), p)
    {
      connected := connected + {p};
      StartNext(p);
    }
  }
}
