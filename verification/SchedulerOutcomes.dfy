/**
 What every manager method does in a reachable state, told in the queues, the slots and the transfers themselves.
 */
module SchedulerOutcomes {
  import opened Common
  import opened SchedulerState
  import opened SchedulerSafety

  // ----- The next turn ---------------------------------------------------------------------

  /**
   A connected peer with a free slot gets the first live transfer of its queue, the j-th: those before it are dropped,
   and it leaves the queue and runs. If none is live the queue is emptied. Nothing else changes.
   */
  ghost predicate TakesTurn(s: State, s': State, p: PeerId, j: nat) {
    var q := s.Queue(p);
    && s'.connected == s.connected && s'.tickets == s.tickets && s'.next == s.next
    && (forall r :: r != p ==> s'.Queue(r) == s.Queue(r))
    && if p.Blank() || p !in s.connected || p in s.active then
         s'.Queue(p) == q && s'.active == s.active && s'.transfers == s.transfers
       else
         && j <= |q| && (forall i :: 0 <= i < j ==> q[i] !in s.transfers || !s.transfers[q[i]].Live())
         && if j == |q| then
              s'.Queue(p) == [] && s'.active == s.active && s'.transfers == s.transfers
            else
              && q[j] in s.transfers && s.transfers[q[j]].Live()
              && s'.Queue(p) == q[j + 1..] && s'.active == s.active[p := q[j]]
              && s'.transfers == s.transfers[q[j] := s.transfers[q[j]].(running := true)]
  }

  lemma {:induction false} PopLoopTakesTurn(s: State, p: PeerId) returns (j: nat)
    requires !p.Blank() && p in s.connected
    ensures TakesTurn(s, PopLoop(s, p), p, j)
    decreases |s.Queue(p)|
  {
    j := 0;
    if p !in s.active && s.Queue(p) != [] {
      var id := s.Queue(p)[0];
      if id !in s.transfers || !s.transfers[id].Live() {
        var rest := DeadFirst(s, p);
        var i := PopLoopTakesTurn(rest, p);
        j := i + 1;
        TurnAfterDead(s, rest, PopLoop(rest, p), p, i);
      } else {
        LiveFirst(s, p);
      }
    }
  }

  lemma DeadFirst(s: State, p: PeerId) returns (rest: State)
    requires p !in s.active && s.Queue(p) != []
    requires s.Queue(p)[0] !in s.transfers || !s.transfers[s.Queue(p)[0]].Live()
    ensures rest == s.(queues := rest.queues) && rest.Queue(p) == s.Queue(p)[1..] && PopLoop(s, p) == PopLoop(rest, p)
    ensures forall r :: r != p ==> rest.Queue(r) == s.Queue(r)
  {
    var id := s.Queue(p)[0];
    rest := Finish(s.WithQueue(p, s.Queue(p)[1..]).(active := s.active[p := id]), p, id);
    assert rest.active == s.active;
  }

  lemma LiveFirst(s: State, p: PeerId)
    requires !p.Blank() && p in s.connected && p !in s.active && s.Queue(p) != []
    requires s.Queue(p)[0] in s.transfers && s.transfers[s.Queue(p)[0]].Live()
    ensures TakesTurn(s, PopLoop(s, p), p, 0)
  {
    var id := s.Queue(p)[0];
    assert s.transfers[id].running ==> s.transfers == s.transfers[id := s.transfers[id].(running := true)];
  }

  lemma TurnAfterDead(s: State, rest: State, s': State, p: PeerId, i: nat)
    requires !p.Blank() && p in s.connected && p !in s.active && s.Queue(p) != []
    requires s.Queue(p)[0] !in s.transfers || !s.transfers[s.Queue(p)[0]].Live()
    requires rest == s.(queues := rest.queues) && rest.Queue(p) == s.Queue(p)[1..]
    requires (forall r :: r != p ==> rest.Queue(r) == s.Queue(r)) && TakesTurn(rest, s', p, i)
    ensures TakesTurn(s, s', p, i + 1)
  {
    var q, q' := s.Queue(p), rest.Queue(p);
    forall k | 0 <= k < i + 1 ensures q[k] !in s.transfers || !s.transfers[q[k]].Live() {
      if k > 0 { assert q[k] == q'[k - 1]; }
    }
    if i < |q'| { assert q'[i + 1..] == q[i + 2..] && q'[i] == q[i + 1]; }
  }

  lemma StartNextTakesTurn(s: State, p: PeerId) returns (j: nat)
    ensures TakesTurn(s, StartNext(s, p), p, j)
  {
    j := 0;
    if !p.Blank() && p in s.connected { j := PopLoopTakesTurn(s, p); }
  }

  // ----- Sending, retrying and restoring ---------------------------------------------------

  /** Only this transfer, this peer's queue and this peer's slot may differ. */
  ghost predicate OnlyOf(s: State, s': State, p: PeerId, id: FileId) {
    && s'.connected == s.connected
    && (forall r :: r != p ==> s'.Queue(r) == s.Queue(r))
    && (forall r :: r != p ==> (r in s'.active <==> r in s.active) && (r in s.active ==> s'.active[r] == s.active[r]))
    && (forall x :: x != id ==>
      && (x in s'.transfers <==> x in s.transfers)
      && (x in s.transfers ==> s'.transfers[x] == s.transfers[x]))
  }

  /**
   A transfer that is new or starts over: it runs at once if the peer is connected and its slot is free, and waits at
   the back otherwise, or where it stood if it was waiting already. A blank peer has no queue.
   */
  ghost predicate Joins(s: State, s': State, p: PeerId, id: FileId, t: Transfer) {
    && OnlyOf(s, s', p, id) && id in s'.transfers
    && if p.Blank() then
         s'.transfers[id] == t && s'.Queue(p) == s.Queue(p) && p !in s'.active
       else if p in s.connected && p !in s.active then
         && s'.transfers[id] == t.(running := true) && p in s'.active && s'.active[p] == id
         && id !in s'.Queue(p) && |s'.Queue(p)| <= |s.Queue(p)|
         && s'.Queue(p) == s.Queue(p)[|s.Queue(p)| - |s'.Queue(p)|..] && (id !in s.Queue(p) ==> s'.Queue(p) == [])
       else
         && s'.transfers[id] == t && s'.Queue(p) == s.Queue(p) + (if id in s.Queue(p) then [] else [id])
         && s'.active == s.active
  }

  lemma JoiningMeans(s: State, p: PeerId, id: FileId, t: Transfer)
    requires Inv(s) && !id.Blank() && (id in s.transfers ==> s.transfers[id].peer == p && !s.transfers[id].running)
    requires t.peer == p && t.Live() && !t.running
    ensures Joins(s, StartNext(Enqueue(s.WithTransfer(id, t), p, id, false), p), p, id, t)
  {
    assert LineOk(s, p) && Served(s, p);
    var s1 := Enqueue(s.WithTransfer(id, t), p, id, false);
    BackOfQueue(s, p, id, t);
    var j := StartNextTakesTurn(s1, p);
    if !p.Blank() && p in s.connected && p !in s.active {
      OnlyLiveOne(s, s1, StartNext(s1, p), p, id, t, j);
      TailOfQueue(s, s1, p, id, j);
      JoinsAtOnce(s, s1, StartNext(s1, p), p, id, t, j);
    } else {
      JoinsWaiting(s, s1, StartNext(s1, p), p, id, t, j);
    }
  }

  lemma JoinsAtOnce(s: State, s1: State, s': State, p: PeerId, id: FileId, t: Transfer, j: nat)
    requires BackedUp(s, s1, p, id, t) && TakesTurn(s1, s', p, j) && t.Live()
    requires !p.Blank() && p in s.connected && p !in s.active
    requires j < |s1.Queue(p)| && s1.Queue(p)[j] == id
    requires var rest := s1.Queue(p)[j + 1..];
      && id !in rest && |rest| <= |s.Queue(p)| && rest == s.Queue(p)[|s.Queue(p)| - |rest|..]
      && (id !in s.Queue(p) ==> rest == [])
    ensures Joins(s, s', p, id, t)
  {
  }

  lemma JoinsWaiting(s: State, s1: State, s': State, p: PeerId, id: FileId, t: Transfer, j: nat)
    requires BackedUp(s, s1, p, id, t) && TakesTurn(s1, s', p, j)
    requires p.Blank() || p !in s.connected || p in s.active
    requires p.Blank() ==> p !in s.active
    ensures Joins(s, s', p, id, t)
  {
  }

  /** The transfer is stored and, with a peer that has a queue, stands in it. */
  ghost predicate BackedUp(s: State, s1: State, p: PeerId, id: FileId, t: Transfer) {
    && s1.transfers == s.transfers[id := t] && s1.active == s.active && s1.connected == s.connected
    && s1.Queue(p) == s.Queue(p) + (if p.Blank() || id in s.Queue(p) then [] else [id])
    && forall r :: r != p ==> s1.Queue(r) == s.Queue(r)
  }

  lemma BackOfQueue(s: State, p: PeerId, id: FileId, t: Transfer)
    requires !id.Blank()
    ensures BackedUp(s, Enqueue(s.WithTransfer(id, t), p, id, false), p, id, t)
  {
  }

  lemma TailOfQueue(s: State, s1: State, p: PeerId, id: FileId, j: nat)
    requires LineOk(s, p) && s1.Queue(p) == s.Queue(p) + if id in s.Queue(p) then [] else [id]
    requires j < |s1.Queue(p)| && s1.Queue(p)[j] == id
    ensures var rest := s1.Queue(p)[j + 1..];
      && id !in rest && |rest| <= |s.Queue(p)| && rest == s.Queue(p)[|s.Queue(p)| - |rest|..]
      && (id !in s.Queue(p) ==> rest == [])
  {
    var q, rest := s1.Queue(p), s1.Queue(p)[j + 1..];
    if id in s.Queue(p) {
      assert q == s.Queue(p);
      QueueIsDistinct(s, p, j);
    } else {
      assert forall i :: 0 <= i < |s.Queue(p)| ==> q[i] == s.Queue(p)[i] && q[i] in s.Queue(p);
      assert j == |s.Queue(p)|;
    }
  }

  /** Whoever waits for a connected peer with a free slot is over, so the transfer that joins is the one that runs. */
  lemma OnlyLiveOne(s: State, s1: State, s': State, p: PeerId, id: FileId, t: Transfer, j: nat)
    requires BackedUp(s, s1, p, id, t) && t.Live() && TakesTurn(s1, s', p, j)
    requires !p.Blank() && p in s.connected && p !in s.active
    requires forall x :: x in s.Queue(p) ==> x !in s.transfers || !s.transfers[x].Live()
    ensures j < |s1.Queue(p)| && s1.Queue(p)[j] == id
  {
    var q := s1.Queue(p);
    assert id in q;
    var i :| 0 <= i < |q| && q[i] == id;
    assert i >= j;
    assert q[j] in s.Queue(p) || q[j] == id;
  }

  /** A file that is sent gets its turn, or joins the back of the queue. */
  lemma SendingMeans(states: seq<State>, steps: seq<Label>, k: nat, p: PeerId, id: FileId, size: nat)
    requires Run(states, steps) && k <= |steps| && Enabled(states[k], Sends(p, id, size))
    ensures Joins(states[k], Apply(states[k], Sends(p, id, size)), p, id,
                  Transfer(p, size, 0, false, false, false, false))
  {
    Reachable(states, steps, k);
    JoiningMeans(states[k], p, id, Fresh(p, size));
  }

  /** A retry is refused while the transfer runs; otherwise it starts over as if it had just been sent. */
  lemma RetryingMeans(states: seq<State>, steps: seq<Label>, k: nat, id: FileId, stored: PeerId, size: nat)
    requires Run(states, steps) && k <= |steps| && !id.Blank()
    ensures var s, s' := states[k], Apply(states[k], Retries(id, stored, size));
      if id in s.transfers && s.transfers[id].running then s' == s
      else
        var p, total := if id in s.transfers then s.transfers[id].peer else stored,
                        if id in s.transfers then s.transfers[id].size else size;
        Joins(s, s', p, id, Transfer(p, total, 0, false, false, false, false))
  {
    Reachable(states, steps, k);
    var s := states[k];
    if id !in s.transfers {
      JoiningMeans(s, stored, id, Fresh(stored, size));
    } else if !s.transfers[id].running {
      JoiningMeans(s, s.transfers[id].peer, id, Fresh(s.transfers[id].peer, s.transfers[id].size));
    }
  }

  /** A checkpoint brings a transfer back, at the back of its peer's queue, with the bytes it had sent. */
  lemma RestoringMeans(states: seq<State>, steps: seq<Label>, k: nat, id: FileId, p: PeerId, size: nat, sent: nat)
    requires Run(states, steps) && k <= |steps| && Enabled(states[k], Restores(id, p, size, sent))
    ensures var s, s' := states[k], Apply(states[k], Restores(id, p, size, sent));
      && OnlyOf(s, s', p, id) && id in s'.transfers
      && s'.transfers[id] == Transfer(p, size, sent, false, false, false, false)
      && s'.active == s.active
      && s'.Queue(p) == s.Queue(p) + (if p.Blank() || id in s.Queue(p) then [] else [id])
  {
  }

  // ----- Cancelling ------------------------------------------------------------------------

  lemma {:induction false} WithoutSplits(pre: seq<FileId>, id: FileId, post: seq<FileId>)
    requires id !in pre && id !in post
    ensures Without(pre + [id] + post, id) == pre + post
  {
    var q := pre + [id] + post;
    if post == [] {
      assert q[..|q| - 1] == pre && pre + post == pre;
      WithoutAbsent(pre, id);
    } else {
      var last := post[|post| - 1];
      assert q[..|q| - 1] == pre + [id] + post[..|post| - 1] && q[|q| - 1] == last;
      WithoutSplits(pre, id, post[..|post| - 1]);
      assert pre + post == pre + post[..|post| - 1] + [last];
    }
  }

  /** A live transfer that waits stands once in its peer's queue, and the peer is away or busy. */
  lemma WaitingPlace(s: State, id: FileId) returns (pre: seq<FileId>, post: seq<FileId>)
    requires Inv(s) && id in s.transfers && s.transfers[id].Live() && !s.transfers[id].running
    requires !s.transfers[id].peer.Blank()
    ensures var p := s.transfers[id].peer;
      && s.Queue(p) == pre + [id] + post && id !in pre && id !in post
      && (p in s.connected ==> p in s.active) && (p in s.active ==> s.active[p] != id)
  {
    var p := s.transfers[id].peer;
    assert LineOk(s, p) && Served(s, p);
    var q := s.Queue(p);
    assert id in q;
    var i :| 0 <= i < |q| && q[i] == id;
    pre, post := q[..i], q[i + 1..];
    assert q == pre + [id] + post;
    QueueIsDistinct(s, p, i);
  }

  lemma QueueIsDistinct(s: State, p: PeerId, i: nat)
    requires LineOk(s, p) && i < |s.Queue(p)|
    ensures forall j :: 0 <= j < |s.Queue(p)| && j != i ==> s.Queue(p)[j] != s.Queue(p)[i]
  {
    var q, line := s.Queue(p), Line(s, p);
    var d := |line| - |q|;
    forall j | 0 <= j < |q| && j != i ensures q[j] != q[i] {
      assert q[j] == line[d + j] && q[i] == line[d + i];
    }
  }

  /** Only a transfer's own peer has it in its queue. */
  lemma QueuedOnlyAtItsPeer(s: State, id: FileId, r: PeerId)
    requires Inv(s) && id in s.transfers && r != s.transfers[id].peer
    ensures id !in s.Queue(r)
  {
    assert LineOk(s, r);
  }

  /**
   A cancel of a live transfer takes it out of the queue for good. One that does not run is over at once; one that runs
   keeps the slot until its run ends. The order of the others, and everything else, stays as it is.
   */
  lemma CancellingMeans(states: seq<State>, steps: seq<Label>, k: nat, id: FileId)
      returns (pre: seq<FileId>, post: seq<FileId>)
    requires Run(states, steps) && k <= |steps| && id in states[k].transfers && states[k].transfers[id].Live()
    ensures var s, s' := states[k], Apply(states[k], Cancels(id));
      var t, p := s.transfers[id], s.transfers[id].peer;
      && OnlyOf(s, s', p, id) && s'.active == s.active && id in s'.transfers
      && s'.transfers[id] == t.(canceled := true, done := !t.running)
      && (forall r :: id !in s'.Queue(r))
      && s'.Queue(p) == pre + post && s.Queue(p) == pre + (if t.running || p.Blank() then [] else [id]) + post
      && (t.running <==> p in s'.active && s'.active[p] == id)
  {
    Reachable(states, steps, k);
    var s := states[k];
    var t := s.transfers[id];
    var p := t.peer;
    assert LineOk(s, p) && !id.Blank();
    forall r | r != p ensures id !in s.Queue(r) { QueuedOnlyAtItsPeer(s, id, r); }
    if t.running || p.Blank() {
      pre, post := s.Queue(p), [];
      assert pre + [] + post == s.Queue(p) && pre + post == s.Queue(p);
      if id in s.Queue(p) { assert false; }
      WithoutAbsent(s.Queue(p), id);
    } else {
      pre, post := WaitingPlace(s, id);
      WithoutSplits(pre, id, post);
    }
    CancelResult(s, id, pre + post);
  }

  lemma CancelResult(s: State, id: FileId, rest: seq<FileId>)
    requires Inv(s) && id in s.transfers && s.transfers[id].Live() && Without(s.Queue(s.transfers[id].peer), id) == rest
    requires !s.transfers[id].running && !s.transfers[id].peer.Blank() ==>
      var p := s.transfers[id].peer; (p in s.connected ==> p in s.active) && (p in s.active ==> s.active[p] != id)
    ensures var s', t, p := Cancel(s, id), s.transfers[id], s.transfers[id].peer;
      && s'.Queue(p) == rest && s'.active == s.active && s'.connected == s.connected
      && s'.transfers == s.transfers[id := t.(canceled := true, done := !t.running)]
      && forall r :: r != p ==> s'.Queue(r) == s.Queue(r)
  {
    var p := s.transfers[id].peer;
    assert LineOk(s, p) && !id.Blank();
  }

  /** A cancel of a transfer that is over, or not there, does nothing. */
  lemma LateCancelDoesNothing(states: seq<State>, steps: seq<Label>, k: nat, id: FileId)
    requires Run(states, steps) && k <= |steps|
    requires id !in states[k].transfers || states[k].transfers[id].done || states[k].transfers[id].rejected
      || states[k].transfers[id].canceled
    ensures Apply(states[k], Cancels(id)) == states[k]
  {
  }

  // ----- The end of a run ------------------------------------------------------------------

  /** What a run that returns like this makes of its transfer. */
  ghost predicate Ended(t: Transfer, t': Transfer, outcome: Outcome, sent: nat) {
    && !t'.running && t'.sent == sent && t'.peer == t.peer && t'.size == t.size
    && t'.done == (t.done || outcome.Completed? || outcome.Failed?)
    && t'.rejected == (t.rejected || outcome.Rejected?)
    && t'.canceled == (t.canceled || ((outcome.Failed? || outcome.Rejected?) && outcome.byCancel))
  }

  lemma RunningPlace(s: State, id: FileId)
    requires Inv(s) && id in s.transfers && s.transfers[id].running
    ensures var p := s.transfers[id].peer;
      !p.Blank() && !id.Blank() && p in s.active && s.active[p] == id && forall r :: id !in s.Queue(r)
  {
    var p := s.transfers[id].peer;
    assert LineOk(s, p);
    forall r ensures id !in s.Queue(r) {
      if r != p { QueuedOnlyAtItsPeer(s, id, r); }
    }
  }

  /** A run that leaves its transfer over frees the slot for the first live one that waits; it is not queued again. */
  lemma RunEndingMeans(states: seq<State>, steps: seq<Label>, k: nat, id: FileId, outcome: Outcome, sent: nat)
      returns (mid: State, j: nat)
    requires Run(states, steps) && k <= |steps| && Enabled(states[k], RunEnds(id, outcome, sent))
    requires !outcome.Interrupted? || !states[k].transfers[id].Live()
    ensures var s, s' := states[k], Apply(states[k], RunEnds(id, outcome, sent));
      var p := s.transfers[id].peer;
      && OnlyOf(s, mid, p, id) && id in mid.transfers && Ended(s.transfers[id], mid.transfers[id], outcome, sent)
      && mid.Queue(p) == s.Queue(p) && p !in mid.active && TakesTurn(mid, s', p, j)
      && id in s'.transfers && s'.transfers[id] == mid.transfers[id] && forall r :: id !in s'.Queue(r)
  {
    Reachable(states, steps, k);
    var s := states[k];
    RunningPlace(s, id);
    mid := OverMeans(s, id, outcome, sent);
    j := StartNextTakesTurn(mid, s.transfers[id].peer);
    NotBegun(mid, Apply(s, RunEnds(id, outcome, sent)), s.transfers[id].peer, id, j);
  }

  lemma OverMeans(s: State, id: FileId, outcome: Outcome, sent: nat) returns (mid: State)
    requires id in s.transfers && (!outcome.Interrupted? || !s.transfers[id].Live())
    requires var p := s.transfers[id].peer; p in s.active && s.active[p] == id
    ensures var p := s.transfers[id].peer;
      && OnlyOf(s, mid, p, id) && id in mid.transfers && Ended(s.transfers[id], mid.transfers[id], outcome, sent)
      && !mid.transfers[id].Live() && p !in mid.active && (forall r :: mid.Queue(r) == s.Queue(r))
      && EndRun(s, id, outcome, sent) == StartNext(mid, p)
  {
    var t := Record(s.transfers[id], outcome).(running := false, sent := sent);
    mid := Finish(s.WithTransfer(id, t), t.peer, id);
  }

  /** The turn is never given to a transfer that is over. */
  lemma NotBegun(s: State, s': State, p: PeerId, id: FileId, j: nat)
    requires TakesTurn(s, s', p, j) && id in s.transfers && !s.transfers[id].Live() && forall r :: id !in s.Queue(r)
    ensures id in s'.transfers && s'.transfers[id] == s.transfers[id] && forall r :: id !in s'.Queue(r)
  {
    assert forall x :: x in s'.Queue(p) ==> x in s.Queue(p);
  }

  /** An interrupted run leaves its transfer first in line; connected, it runs again at once. */
  lemma InterruptionMeans(states: seq<State>, steps: seq<Label>, k: nat, id: FileId, sent: nat)
    requires Run(states, steps) && k <= |steps| && Enabled(states[k], RunEnds(id, Interrupted, sent))
    requires states[k].transfers[id].Live()
    ensures var s, s' := states[k], Apply(states[k], RunEnds(id, Interrupted, sent));
      var p := s.transfers[id].peer;
      && OnlyOf(s, s', p, id) && id in s'.transfers
      && s'.transfers[id] == s.transfers[id].(sent := sent, running := p in s.connected)
      && (if p in s.connected then s'.Queue(p) == s.Queue(p) && p in s'.active && s'.active[p] == id
          else s'.Queue(p) == [id] + s.Queue(p) && p !in s'.active)
  {
    Reachable(states, steps, k);
    var s := states[k];
    var p := s.transfers[id].peer;
    RunningPlace(s, id);
    var mid := FrontMeans(s, id, sent);
    var j := StartNextTakesTurn(mid, p);
    assert mid.Queue(p)[0] == id && mid.Queue(p)[1..] == s.Queue(p);
  }

  lemma FrontMeans(s: State, id: FileId, sent: nat) returns (mid: State)
    requires id in s.transfers && s.transfers[id].Live() && !id.Blank()
    requires var p := s.transfers[id].peer; !p.Blank() && id !in s.Queue(p) && p in s.active && s.active[p] == id
    ensures var t, p := s.transfers[id], s.transfers[id].peer;
      && mid.transfers == s.transfers[id := t.(running := false, sent := sent)] && mid.connected == s.connected
      && mid.active == s.active - {p} && mid.Queue(p) == [id] + s.Queue(p)
      && (forall r :: r != p ==> mid.Queue(r) == s.Queue(r))
      && EndRun(s, id, Interrupted, sent) == StartNext(mid, p)
  {
    var t := s.transfers[id].(running := false, sent := sent);
    mid := Finish(Enqueue(s.WithTransfer(id, t), t.peer, id, true), t.peer, id);
  }

  // ----- The rest --------------------------------------------------------------------------

  /** A late completion is believed exactly of a transfer that has sent every byte and is not done. */
  lemma LateCompletionMeans(states: seq<State>, steps: seq<Label>, k: nat, id: FileId)
    requires Run(states, steps) && k <= |steps| && Enabled(states[k], CompletesLate(id))
    ensures var s, s' := states[k], Apply(states[k], CompletesLate(id));
      && s' == s.(transfers := s'.transfers) && s'.transfers.Keys == s.transfers.Keys
      && forall x :: x in s.transfers ==>
        s'.transfers[x] == if x == id && s.transfers[x].sent == s.transfers[x].size
                           then s.transfers[x].(done := true) else s.transfers[x]
  {
  }

  /** A connection gives the peer's first live transfer its turn; a lost one leaves all as it is. */
  lemma ConnectingMeans(states: seq<State>, steps: seq<Label>, k: nat, p: PeerId) returns (j: nat)
    requires Run(states, steps) && k <= |steps|
    ensures var s := states[k];
      && TakesTurn(s.(connected := s.connected + {p}), Apply(s, Connects(p)), p, j)
      && Apply(s, Disconnects(p)) == s.(connected := s.connected - {p})
  {
    j := StartNextTakesTurn(states[k].(connected := states[k].connected + {p}), p);
  }
}
