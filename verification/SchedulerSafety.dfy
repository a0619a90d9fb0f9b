/**
 What every run of the scheduler keeps: at most one transfer runs per peer, no live transfer is ever
 forgotten or left waiting behind an empty slot, and each peer's transfers go in ticket order.
 */
module SchedulerSafety {
  import opened Common
  import opened SchedulerState

  /** A peer's transfers in the order they go: the active one, then the queue. */
  function Line(s: State, p: PeerId): seq<FileId> {
    (if p in s.active then [s.active[p]] else []) + s.Queue(p)
  }

  ghost predicate Rising(tickets: map<FileId, nat>, line: seq<FileId>) {
    && (forall x :: x in line ==> x in tickets)
    && (forall i, j :: 0 <= i < j < |line| ==> tickets[line[i]] < tickets[line[j]])
  }

  ghost predicate BelongsTo(s: State, p: PeerId, x: FileId) {
    && x in s.transfers && s.transfers[x].peer == p && !x.Blank()
    && x in s.tickets && s.tickets[x] < s.next
  }

  ghost predicate QueueOk(s: State, p: PeerId) {
    && (p in s.queues ==> s.queues[p] != [])
    && (p.Blank() ==> p !in s.active && p !in s.queues)
    && (forall x :: x in s.Queue(p) ==> BelongsTo(s, p, x) && !s.transfers[x].running)
  }

  /** The active transfer is running, and no other transfer of the peer is. */
  ghost predicate SlotOk(s: State, p: PeerId) {
    && (p in s.active ==> BelongsTo(s, p, s.active[p]) && s.transfers[s.active[p]].running)
    && (forall x :: x in s.transfers && s.transfers[x].peer == p && s.transfers[x].running ==>
         p in s.active && s.active[p] == x)
  }

  /** Every live transfer that is not running is queued, except possibly `but`. */
  ghost predicate Accounted(s: State, p: PeerId, but: Option<FileId>) {
    forall x :: x in s.transfers && s.transfers[x].peer == p && s.transfers[x].Live() && !s.transfers[x].running ==>
      p.Blank() || x in s.Queue(p) || but == Some(x)
  }

  /** The state of peer p is right, except that transfer `but` may be live without being queued or active. */
  ghost predicate LineOkBut(s: State, p: PeerId, but: Option<FileId>) {
    QueueOk(s, p) && SlotOk(s, p) && Accounted(s, p, but) && Rising(s.tickets, Line(s, p))
  }

  ghost predicate LineOk(s: State, p: PeerId) {
    LineOkBut(s, p, None)
  }

  /** A connected peer's slot is empty only when nothing live waits for it. */
  ghost predicate Served(s: State, p: PeerId) {
    p in s.connected && p !in s.active ==> forall x :: x in s.Queue(p) && x in s.transfers ==> !s.transfers[x].Live()
  }

  ghost predicate Inv(s: State) {
    && (forall x :: x in s.transfers ==> !x.Blank())
    && (forall p :: LineOk(s, p) && Served(s, p))
  }

  /** Only peer p is touched. */
  ghost predicate Touches(s: State, s': State, p: PeerId) {
    && s.next <= s'.next
    && (forall q :: q != p ==>
      && (q in s.queues <==> q in s'.queues) && s.Queue(q) == s'.Queue(q)
      && (q in s.active <==> q in s'.active) && (q in s.active ==> s.active[q] == s'.active[q])
      && (q in s.connected <==> q in s'.connected))
    && (forall x :: x in s.transfers && s.transfers[x].peer != p ==>
      x in s'.transfers && s'.transfers[x] == s.transfers[x]
        && (x in s.tickets ==> x in s'.tickets && s'.tickets[x] == s.tickets[x]))
    && (forall x :: x in s'.transfers && s'.transfers[x].peer != p ==> x in s.transfers && s.transfers[x].peer != p)
  }

  lemma OthersKeep(s: State, s': State, p: PeerId, q: PeerId)
    requires Touches(s, s', p) && q != p && LineOk(s, q) && Served(s, q)
    ensures LineOk(s', q) && Served(s', q)
  {
    assert Line(s', q) == Line(s, q);
    forall x | x in Line(s, q) ensures BelongsTo(s, q, x) && x in s'.tickets && s'.tickets[x] == s.tickets[x] {
      assert x in s.Queue(q) || (q in s.active && x == s.active[q]);
    }
  }

  lemma StepKeepsInv(s: State, s': State, p: PeerId)
    requires Inv(s) && Touches(s, s', p) && LineOk(s', p) && Served(s', p)
    requires forall x :: x in s'.transfers ==> !x.Blank()
    ensures Inv(s')
  {
    forall q ensures LineOk(s', q) && Served(s', q) {
      if q != p { OthersKeep(s, s', p, q); }
    }
  }

  // ----- The building blocks ---------------------------------------------------------------

  lemma DropFirst(tickets: map<FileId, nat>, q: seq<FileId>)
    requires Rising(tickets, q) && q != []
    ensures Rising(tickets, q[1..]) && q[0] !in q[1..]
  {
  }

  ghost predicate FirstIsDead(s: State, p: PeerId) {
    && LineOk(s, p) && p !in s.active && s.Queue(p) != []
    && s.Queue(p)[0] in s.transfers && !s.transfers[s.Queue(p)[0]].Live()
  }

  lemma SkippedLine(s: State, p: PeerId)
    requires FirstIsDead(s, p)
    ensures var q, s' := s.Queue(p), s.WithQueue(p, s.Queue(p)[1..]);
      && s'.Queue(p) == q[1..] && Line(s', p) == q[1..] && Line(s, p) == q
      && Rising(s'.tickets, Line(s', p))
      && (forall x :: x in q ==> x == q[0] || x in q[1..])
  {
    assert Line(s, p) == s.Queue(p);
    DropFirst(s.tickets, s.Queue(p));
  }

  lemma SkippedQueueOk(s: State, p: PeerId)
    requires FirstIsDead(s, p)
    ensures QueueOk(s.WithQueue(p, s.Queue(p)[1..]), p)
  {
    var q := s.Queue(p);
    SkippedLine(s, p);
    assert forall x :: x in q[1..] ==> x in q;
  }

  lemma SkipDead(s: State, p: PeerId)
    requires FirstIsDead(s, p)
    ensures LineOk(s.WithQueue(p, s.Queue(p)[1..]), p)
  {
    SkippedLine(s, p);
    SkippedQueueOk(s, p);
  }

  /** The first queued transfer taken off the queue and begun. */
  function FirstBegun(s: State, p: PeerId): State
    requires s.Queue(p) != [] && s.Queue(p)[0] in s.transfers
  {
    var q := s.Queue(p);
    Begin(s.WithQueue(p, q[1..]).(active := s.active[p := q[0]]), q[0])
  }

  lemma FirstBegunLine(s: State, p: PeerId)
    requires p !in s.active && s.Queue(p) != [] && s.Queue(p)[0] in s.transfers && s.transfers[s.Queue(p)[0]].Live()
    ensures var s' := FirstBegun(s, p);
      s'.Queue(p) == s.Queue(p)[1..] && Line(s', p) == Line(s, p) && s'.tickets == s.tickets
  {
    var q, s' := s.Queue(p), FirstBegun(s, p);
    assert s'.Queue(p) == q[1..];
    assert Line(s, p) == q && Line(s', p) == [q[0]] + q[1..] == q;
  }

  ghost predicate FirstIsLive(s: State, p: PeerId) {
    && LineOk(s, p) && p !in s.active && s.Queue(p) != [] && !p.Blank()
    && s.Queue(p)[0] in s.transfers && s.transfers[s.Queue(p)[0]].Live()
  }

  lemma FirstBegunQueue(s: State, p: PeerId)
    requires FirstIsLive(s, p)
    ensures QueueOk(FirstBegun(s, p), p)
  {
    var q := s.Queue(p);
    FirstBegunLine(s, p);
    assert Line(s, p) == q;
    DropFirst(s.tickets, q);
    assert forall x :: x in q[1..] ==> x in q;
  }

  lemma FirstBegunSlot(s: State, p: PeerId)
    requires FirstIsLive(s, p)
    ensures SlotOk(FirstBegun(s, p), p) && Accounted(FirstBegun(s, p), p, None)
  {
    var q := s.Queue(p);
    FirstBegunLine(s, p);
    assert forall x :: x in q ==> x == q[0] || x in q[1..];
  }

  lemma BeginFirst(s: State, p: PeerId)
    requires FirstIsLive(s, p)
    ensures LineOk(FirstBegun(s, p), p)
  {
    FirstBegunLine(s, p);
    FirstBegunQueue(s, p);
    FirstBegunSlot(s, p);
  }

  lemma TouchesTwice(s: State, s1: State, s2: State, p: PeerId)
    requires Touches(s, s1, p) && Touches(s1, s2, p)
    ensures Touches(s, s2, p)
  {
  }

  lemma PopTouches(s: State, p: PeerId)
    requires LineOk(s, p) && p !in s.active && s.Queue(p) != []
    ensures var q := s.Queue(p);
      var popped := s.WithQueue(p, q[1..]).(active := s.active[p := q[0]]);
      && q[0] in s.transfers
      && Touches(s, s.WithQueue(p, q[1..]), p)
      && Touches(s, Begin(popped, q[0]), p)
      && Finish(popped, p, q[0]) == s.WithQueue(p, q[1..])
  {
    var q := s.Queue(p);
    assert q[0] in q;
    var popped := s.WithQueue(p, q[1..]).(active := s.active[p := q[0]]);
    assert Finish(popped, p, q[0]).active == s.active;
  }

  /** The pop loop ends with the slot filled or the queue empty, and touches no other peer. */
  lemma {:induction false} PopLoopOk(s: State, p: PeerId)
    requires LineOk(s, p) && !p.Blank()
    ensures var s' := PopLoop(s, p);
      && LineOk(s', p) && Touches(s, s', p) && s'.connected == s.connected
      && (p in s'.active || s'.Queue(p) == [])
      && s'.transfers.Keys == s.transfers.Keys
    decreases |s.Queue(p)|
  {
    if p !in s.active && s.Queue(p) != [] {
      var q := s.Queue(p);
      PopTouches(s, p);
      if s.transfers[q[0]].Live() {
        BeginFirst(s, p);
      } else {
        SkipDead(s, p);
        PopLoopOk(s.WithQueue(p, q[1..]), p);
        TouchesTwice(s, s.WithQueue(p, q[1..]), PopLoop(s, p), p);
      }
    }
  }

  lemma StartNextOk(s: State, p: PeerId)
    requires LineOk(s, p)
    ensures var s' := StartNext(s, p);
      && LineOk(s', p) && Served(s', p) && Touches(s, s', p)
      && s'.transfers.Keys == s.transfers.Keys
  {
    if !p.Blank() && p in s.connected { PopLoopOk(s, p); }
  }

  lemma AppendRising(tickets: map<FileId, nat>, line: seq<FileId>, id: FileId, next: nat)
    requires Rising(tickets, line) && forall x :: x in line ==> x != id && tickets[x] < next
    ensures Rising(tickets[id := next], line + [id])
  {
    var t, l := tickets[id := next], line + [id];
    forall i, j | 0 <= i < j < |l| ensures t[l[i]] < t[l[j]] {
      assert l[i] == line[i] && line[i] in line;
      if j < |line| { assert l[j] == line[j] && line[j] in line; }
    }
  }

  lemma JoinBackRises(s: State, p: PeerId, id: FileId)
    requires LineOkBut(s, p, Some(id)) && !id.Blank() && !p.Blank() && id !in s.Queue(p)
    requires id in s.transfers && !s.transfers[id].running
    ensures var s' := Enqueue(s, p, id, false);
      s'.Queue(p) == s.Queue(p) + [id] && Rising(s'.tickets, Line(s', p))
  {
    var s' := Enqueue(s, p, id, false);
    assert s'.Queue(p) == s.Queue(p) + [id];
    assert Line(s', p) == Line(s, p) + [id];
    forall x | x in Line(s, p) ensures x != id && BelongsTo(s, p, x) {
      assert x in s.Queue(p) || (p in s.active && x == s.active[p]);
    }
    AppendRising(s.tickets, Line(s, p), id, s.next);
  }

  lemma JoinBack(s: State, p: PeerId, id: FileId)
    requires LineOkBut(s, p, Some(id)) && !id.Blank() && !p.Blank() && id !in s.Queue(p)
    requires id in s.transfers && s.transfers[id].peer == p && !s.transfers[id].running
    ensures LineOk(Enqueue(s, p, id, false), p)
  {
    JoinBackRises(s, p, id);
  }

  lemma EnqueueBackOk(s: State, p: PeerId, id: FileId)
    requires LineOkBut(s, p, Some(id)) && !id.Blank()
    requires id in s.transfers && s.transfers[id].peer == p && !s.transfers[id].running
    ensures LineOk(Enqueue(s, p, id, false), p) && Touches(s, Enqueue(s, p, id, false), p)
    ensures Enqueue(s, p, id, false).transfers == s.transfers
  {
    if !p.Blank() && id !in s.Queue(p) { JoinBack(s, p, id); }
  }

  /** Putting a transfer at the back and starting what is next, once everything before that is in place. */
  lemma JoinAndStart(s: State, s1: State, p: PeerId, id: FileId)
    requires Inv(s) && Touches(s, s1, p) && LineOkBut(s1, p, Some(id)) && !id.Blank()
    requires id in s1.transfers && s1.transfers[id].peer == p && !s1.transfers[id].running
    requires forall x :: x in s1.transfers ==> !x.Blank()
    ensures Inv(StartNext(Enqueue(s1, p, id, false), p))
  {
    var s2 := Enqueue(s1, p, id, false);
    EnqueueBackOk(s1, p, id);
    StartNextOk(s2, p);
    TouchesTwice(s, s1, s2, p);
    TouchesTwice(s, s2, StartNext(s2, p), p);
    StepKeepsInv(s, StartNext(s2, p), p);
  }

  lemma JustStart(s: State, s1: State, p: PeerId)
    requires Inv(s) && Touches(s, s1, p) && LineOk(s1, p)
    requires forall x :: x in s1.transfers ==> !x.Blank()
    ensures Inv(StartNext(s1, p))
  {
    StartNextOk(s1, p);
    TouchesTwice(s, s1, StartNext(s1, p), p);
    StepKeepsInv(s, StartNext(s1, p), p);
  }

  /** A transfer that is not running is replaced by another such one of the same peer. */
  lemma IdleChange(s: State, p: PeerId, id: FileId, t: Transfer)
    requires LineOk(s, p) && (id in s.transfers ==> s.transfers[id].peer == p && !s.transfers[id].running)
    requires t.peer == p && !t.running
    ensures LineOkBut(s.WithTransfer(id, t), p, Some(id))
  {
    var s1 := s.WithTransfer(id, t);
    assert s1.Queue(p) == s.Queue(p) && Line(s1, p) == Line(s, p);
  }

  lemma IdleChangeTouches(s: State, p: PeerId, id: FileId, t: Transfer)
    requires (id in s.transfers ==> s.transfers[id].peer == p) && t.peer == p
    ensures Touches(s, s.WithTransfer(id, t), p)
  {
  }

  /** A transfer that starts over, or for the first time, is the only one that may now be unaccounted for. */
  lemma Reset(s: State, p: PeerId, id: FileId, t: Transfer)
    requires Inv(s) && !id.Blank()
    requires id in s.transfers ==> s.transfers[id].peer == p && !s.transfers[id].running
    requires t == Fresh(p, t.size).(sent := t.sent)
    ensures var s1 := s.WithTransfer(id, t);
      && Touches(s, s1, p) && LineOkBut(s1, p, Some(id)) && (forall x :: x in s1.transfers ==> !x.Blank())
  {
    assert LineOk(s, p);
    IdleChange(s, p, id, t);
    IdleChangeTouches(s, p, id, t);
  }

  lemma SendOk(s: State, p: PeerId, id: FileId, size: nat)
    requires Inv(s) && id !in s.transfers && !id.Blank()
    ensures Inv(Send(s, p, id, size))
  {
    Reset(s, p, id, Fresh(p, size));
    JoinAndStart(s, s.WithTransfer(id, Fresh(p, size)), p, id);
  }

  lemma RetryOk(s: State, id: FileId, stored: PeerId, size: nat)
    requires Inv(s) && !id.Blank()
    ensures Inv(Retry(s, id, stored, size))
  {
    var t := if id in s.transfers then s.transfers[id] else Fresh(stored, size);
    if !t.running {
      Reset(s, t.peer, id, Fresh(t.peer, t.size));
      JoinAndStart(s, s.WithTransfer(id, Fresh(t.peer, t.size)), t.peer, id);
    }
  }

  lemma RestoreOk(s: State, id: FileId, p: PeerId, size: nat, sent: nat)
    requires Inv(s) && id !in s.transfers && !id.Blank() && s.connected == {}
    ensures Inv(Restore(s, id, p, size, sent))
  {
    var s1 := s.WithTransfer(id, Fresh(p, size).(sent := sent));
    Reset(s, p, id, Fresh(p, size).(sent := sent));
    EnqueueBackOk(s1, p, id);
    TouchesTwice(s, s1, Enqueue(s1, p, id, false), p);
    StepKeepsInv(s, Enqueue(s1, p, id, false), p);
  }

  /** A run that is over hands its slot back; the queue stays. */
  lemma GiveUpSlot(s: State, id: FileId, t: Transfer)
    requires Inv(s) && id in s.transfers && s.transfers[id].running
    requires t.peer == s.transfers[id].peer && !t.running && !t.Live()
    ensures LineOk(Finish(s.WithTransfer(id, t), t.peer, id), t.peer)
  {
    var p := t.peer;
    assert LineOk(s, p) && s.active[p] == id;
    var s1 := Finish(s.WithTransfer(id, t), p, id);
    assert Line(s, p) == [id] + s.Queue(p);
    DropFirst(s.tickets, Line(s, p));
    assert s1.Queue(p) == s.Queue(p) && Line(s1, p) == s.Queue(p);
    assert QueueOk(s1, p);
    assert SlotOk(s1, p);
    assert Accounted(s1, p, None);
  }

  lemma GiveUpTouches(s: State, id: FileId, t: Transfer)
    requires Inv(s) && id in s.transfers && s.transfers[id].running && t.peer == s.transfers[id].peer
    ensures Touches(s, Finish(s.WithTransfer(id, t), t.peer, id), t.peer)
  {
  }

  lemma FrontState(s: State, id: FileId, t: Transfer)
    requires Inv(s) && id in s.transfers && s.transfers[id].running
    requires t.peer == s.transfers[id].peer && !t.running
    ensures var p := t.peer;
      && p in s.active && s.active[p] == id && id !in s.Queue(p) && !p.Blank()
      && Line(s, p) == [id] + s.Queue(p)
      && Finish(Enqueue(s.WithTransfer(id, t), p, id, true), p, id)
           == s.WithTransfer(id, t).WithQueue(p, [id] + s.Queue(p)).(active := s.active - {p})
  {
    assert LineOk(s, t.peer);
  }

  /** An interrupted run hands its slot back and becomes the head of the queue: the line is what it was. */
  lemma Interrupt(s: State, id: FileId, t: Transfer)
    requires Inv(s) && id in s.transfers && s.transfers[id].running
    requires t.peer == s.transfers[id].peer && !t.running && t.Live()
    ensures var s1 := Finish(Enqueue(s.WithTransfer(id, t), t.peer, id, true), t.peer, id);
      LineOk(s1, t.peer) && Line(s1, t.peer) == Line(s, t.peer)
  {
    var p := t.peer;
    FrontState(s, id, t);
    var q := s.Queue(p);
    var s1 := s.WithTransfer(id, t).WithQueue(p, [id] + q).(active := s.active - {p});
    assert LineOk(s, p);
    assert s1.Queue(p) == [id] + q && Line(s1, p) == Line(s, p);
    assert QueueOk(s1, p);
    assert SlotOk(s1, p);
    assert Accounted(s1, p, None);
  }

  lemma InterruptTouches(s: State, id: FileId, t: Transfer)
    requires Inv(s) && id in s.transfers && s.transfers[id].running
    requires t.peer == s.transfers[id].peer && !t.running
    ensures Touches(s, Finish(Enqueue(s.WithTransfer(id, t), t.peer, id, true), t.peer, id), t.peer)
  {
    FrontState(s, id, t);
  }

  lemma EndRunOk(s: State, id: FileId, outcome: Outcome, sent: nat)
    requires Inv(s) && id in s.transfers && s.transfers[id].running
    ensures Inv(EndRun(s, id, outcome, sent))
  {
    var t := Record(s.transfers[id], outcome).(running := false, sent := sent);
    if t.Live() {
      Interrupt(s, id, t);
      InterruptTouches(s, id, t);
    } else {
      GiveUpSlot(s, id, t);
      GiveUpTouches(s, id, t);
    }
    var s0 := s.WithTransfer(id, t);
    var s1 := Finish(if t.Live() then Enqueue(s0, t.peer, id, true) else s0, t.peer, id);
    JustStart(s, s1, t.peer);
  }

  lemma RisingWithoutLast(tickets: map<FileId, nat>, line: seq<FileId>, rest: seq<FileId>, last: FileId)
    requires Rising(tickets, line) && line == rest + [last]
    ensures Rising(tickets, rest) && last in tickets
    ensures forall x :: x in rest ==> x in tickets && tickets[x] < tickets[last]
  {
    assert last in line && line[|rest|] == last;
    forall i | 0 <= i < |rest| ensures rest[i] == line[i] && rest[i] in line {
    }
  }

  lemma RisingWithLast(tickets: map<FileId, nat>, rest: seq<FileId>, last: FileId)
    requires Rising(tickets, rest) && last in tickets && forall x :: x in rest ==> tickets[x] < tickets[last]
    ensures Rising(tickets, rest + [last])
  {
  }

  lemma {:induction false} WithoutRising(tickets: map<FileId, nat>, pre: seq<FileId>, q: seq<FileId>, id: FileId)
    requires Rising(tickets, pre + q)
    ensures Rising(tickets, pre + Without(q, id))
  {
    if q != [] {
      var q', last := q[..|q| - 1], q[|q| - 1];
      assert q == q' + [last] && pre + q == (pre + q') + [last];
      RisingWithoutLast(tickets, pre + q, pre + q', last);
      WithoutRising(tickets, pre, q', id);
      if last != id {
        RisingWithLast(tickets, pre + Without(q', id), last);
        assert pre + Without(q, id) == pre + Without(q', id) + [last];
      }
    }
  }

  lemma {:induction false} WithoutAbsent(q: seq<FileId>, id: FileId)
    requires id !in q
    ensures Without(q, id) == q
  {
    if q != [] { WithoutAbsent(q[..|q| - 1], id); }
  }

  /** Removing a transfer that is over from its queue. */
  lemma RemoveOk(s: State, p: PeerId, id: FileId)
    requires LineOk(s, p) && id in s.transfers && s.transfers[id].peer == p && !s.transfers[id].running
    requires !s.transfers[id].Live()
    ensures var s1 := Finish(RemoveQueued(s, p, id), p, id);
      && LineOk(s1, p) && Touches(s, s1, p) && s1.transfers == s.transfers
  {
    var pre, q := if p in s.active then [s.active[p]] else [], s.Queue(p);
    WithoutRising(s.tickets, pre, q, id);
    var s1 := RemoveQueued(s, p, id);
    if !p.Blank() && !id.Blank() && q != [] {
      assert s1.Queue(p) == Without(q, id);
    }
    assert QueueOk(s1, p);
    assert Finish(s1, p, id) == s1;
  }

  lemma CancelRunningOk(s: State, id: FileId)
    requires Inv(s) && id in s.transfers && s.transfers[id].running
    ensures Inv(Cancel(s, id))
  {
    var t := s.transfers[id];
    var p := t.peer;
    assert LineOk(s, p) && Served(s, p);
    var s1 := s.WithTransfer(id, t.(canceled := true));
    WithoutAbsent(s.Queue(p), id);
    assert s1.Queue(p) == s.Queue(p) && Line(s1, p) == Line(s, p);
    assert s1.queues == RemoveQueued(s1, p, id).queues;
    StepKeepsInv(s, s1, p);
  }

  lemma MarkCanceled(s: State, id: FileId)
    requires Inv(s) && id in s.transfers && !s.transfers[id].running
    ensures var t := s.transfers[id];
      var s1 := s.WithTransfer(id, t.(canceled := true, done := true));
      LineOk(s1, t.peer) && Touches(s, s1, t.peer)
  {
    var t := s.transfers[id];
    assert LineOk(s, t.peer);
    IdleChange(s, t.peer, id, t.(canceled := true, done := true));
    IdleChangeTouches(s, t.peer, id, t.(canceled := true, done := true));
  }

  lemma CancelOk(s: State, id: FileId)
    requires Inv(s)
    ensures Inv(Cancel(s, id))
  {
    if id in s.transfers && s.transfers[id].Live() {
      var t := s.transfers[id];
      if t.running {
        CancelRunningOk(s, id);
      } else {
        var s1 := s.WithTransfer(id, t.(canceled := true, done := true));
        MarkCanceled(s, id);
        RemoveOk(s1, t.peer, id);
        TouchesTwice(s, s1, Finish(RemoveQueued(s1, t.peer, id), t.peer, id), t.peer);
        JustStart(s, Finish(RemoveQueued(s1, t.peer, id), t.peer, id), t.peer);
      }
    }
  }

  lemma LateCompleteOk(s: State, id: FileId)
    requires Inv(s) && (id in s.transfers ==> !s.transfers[id].running)
    ensures Inv(LateComplete(s, id))
  {
    var s' := LateComplete(s, id);
    if s' != s {
      var t := s.transfers[id].(done := true, running := false);
      assert LineOk(s, t.peer) && Served(s, t.peer);
      IdleChange(s, t.peer, id, t);
      IdleChangeTouches(s, t.peer, id, t);
      StepKeepsInv(s, s', t.peer);
    }
  }

  lemma ConnectOk(s: State, p: PeerId)
    requires Inv(s)
    ensures Inv(Connect(s, p))
  {
    var s1 := s.(connected := s.connected + {p});
    assert LineOk(s, p) && Line(s1, p) == Line(s, p);
    JustStart(s, s1, p);
  }

  lemma DisconnectOk(s: State, p: PeerId)
    requires Inv(s)
    ensures Inv(Disconnect(s, p))
  {
    var s1 := Disconnect(s, p);
    assert LineOk(s, p) && Line(s1, p) == Line(s, p);
    StepKeepsInv(s, s1, p);
  }

  lemma ApplyKeepsInv(s: State, l: Label)
    requires Inv(s) && Enabled(s, l)
    ensures Inv(Apply(s, l))
  {
    match l
    case Sends(p, id, size) => SendOk(s, p, id, size);
    case RunEnds(id, outcome, sent) => EndRunOk(s, id, outcome, sent);
    case Cancels(id) => CancelOk(s, id);
    case Retries(id, p, size) => RetryOk(s, id, p, size);
    case CompletesLate(id) => LateCompleteOk(s, id);
    case Connects(p) => ConnectOk(s, p);
    case Disconnects(p) => DisconnectOk(s, p);
    case Restores(id, p, size, sent) => RestoreOk(s, id, p, size, sent);
  }

  lemma {:induction false} Reachable(states: seq<State>, steps: seq<Label>, k: nat)
    requires Run(states, steps) && k <= |steps|
    ensures Inv(states[k])
  {
    if k > 0 {
      Reachable(states, steps, k - 1);
      ApplyKeepsInv(states[k - 1], steps[k - 1]);
    }
  }

  // ----- The main results ------------------------------------------------------------------

  /** In every reachable state a running transfer is its peer's active one, and the active one is running. */
  lemma RunningIsActive(states: seq<State>, steps: seq<Label>, k: nat, id: FileId)
    requires Run(states, steps) && k <= |steps| && id in states[k].transfers
    ensures var s := states[k]; var p := s.transfers[id].peer;
      s.transfers[id].running <==> p in s.active && s.active[p] == id
  {
    Reachable(states, steps, k);
    assert LineOk(states[k], states[k].transfers[id].peer);
  }

  /** So no two transfers of one peer run at once. */
  lemma OneRunPerPeer(states: seq<State>, steps: seq<Label>, k: nat, a: FileId, b: FileId)
    requires Run(states, steps) && k <= |steps| && a in states[k].transfers && b in states[k].transfers
    requires states[k].transfers[a].peer == states[k].transfers[b].peer
    requires states[k].transfers[a].running && states[k].transfers[b].running
    ensures a == b
  {
    RunningIsActive(states, steps, k, a);
    RunningIsActive(states, steps, k, b);
  }

  /** A transfer that is not done, rejected or canceled is queued or active: none is forgotten. */
  lemma LiveIsQueuedOrActive(states: seq<State>, steps: seq<Label>, k: nat, id: FileId)
    requires Run(states, steps) && k <= |steps| && id in states[k].transfers
    requires states[k].transfers[id].Live() && !states[k].transfers[id].peer.Blank()
    ensures var s := states[k]; var p := s.transfers[id].peer;
      id in s.Queue(p) || (p in s.active && s.active[p] == id)
  {
    Reachable(states, steps, k);
    assert LineOk(states[k], states[k].transfers[id].peer);
  }

  /** Whenever a peer is connected and a live transfer waits for it, its slot is filled. */
  lemma ConnectedPeerIsServed(states: seq<State>, steps: seq<Label>, k: nat, p: PeerId, id: FileId)
    requires Run(states, steps) && k <= |steps| && p in states[k].connected
    requires id in states[k].Queue(p)
    ensures id in states[k].transfers
    ensures states[k].transfers[id].Live() ==> p in states[k].active
  {
    Reachable(states, steps, k);
    assert LineOk(states[k], p) && Served(states[k], p);
  }

  /** A peer's active transfer and its queue are in ticket order, so no transfer is in the line twice. */
  lemma LineIsInTicketOrder(states: seq<State>, steps: seq<Label>, k: nat, p: PeerId, i: nat, j: nat)
    requires Run(states, steps) && k <= |steps| && i < j < |Line(states[k], p)|
    ensures var s, line := states[k], Line(states[k], p);
      && line[i] in s.tickets && line[j] in s.tickets
      && s.tickets[line[i]] < s.tickets[line[j]]
      && line[i] != line[j]
  {
    Reachable(states, steps, k);
    assert LineOk(states[k], p);
  }

  /** An interrupted transfer keeps its place in front of everything behind it; connected, it runs again at once. */
  lemma InterruptedGoesFirst(states: seq<State>, steps: seq<Label>, k: nat, id: FileId, sent: nat)
    requires Run(states, steps) && k <= |steps|
    requires id in states[k].transfers && states[k].transfers[id].running && states[k].transfers[id].Live()
    ensures var s, s' := states[k], EndRun(states[k], id, Interrupted, sent); var p := s.transfers[id].peer;
      && Line(s', p) == Line(s, p)
      && (p in s.connected ==> p in s'.active && s'.active[p] == id)
      && (p !in s.connected ==> p !in s'.active && s'.Queue(p) == [id] + s.Queue(p))
  {
    Reachable(states, steps, k);
    var s := states[k];
    var t := s.transfers[id].(running := false, sent := sent);
    var p := t.peer;
    FrontState(s, id, t);
    Interrupt(s, id, t);
    var s1 := Finish(Enqueue(s.WithTransfer(id, t), p, id, true), p, id);
    assert s1.Queue(p) == [id] + s.Queue(p);
    assert s1.Queue(p)[1..] == s.Queue(p);
  }

  /**
   Where a retry puts a transfer: at the back, behind every ticket drawn so far, exactly when it is not queued
   already.
   */
  lemma RetryGoesToBackUnlessQueued(states: seq<State>, steps: seq<Label>, k: nat, id: FileId)
    requires Run(states, steps) && k <= |steps| && id in states[k].transfers && !states[k].transfers[id].running
    requires !id.Blank() && !states[k].transfers[id].peer.Blank()
    ensures var s, p, size := states[k], states[k].transfers[id].peer, states[k].transfers[id].size;
      var s' := Enqueue(s.WithTransfer(id, Fresh(p, size)), p, id, false);
      && Retry(s, id, p, size) == StartNext(s', p)
      && Line(s', p) == Line(s, p) + (if id in s.Queue(p) then [] else [id])
      && (forall x :: x in Line(s, p) ==> x in s'.tickets && s'.tickets[x] < s.next)
      && (id !in s.Queue(p) <==> s'.tickets[id] == s.next)
  {
    Reachable(states, steps, k);
    var s := states[k];
    var p := s.transfers[id].peer;
    assert LineOk(s, p);
    var s1 := s.WithTransfer(id, Fresh(p, s.transfers[id].size));
    assert s1.Queue(p) == s.Queue(p);
    forall x | x in Line(s, p) ensures BelongsTo(s, p, x) {
      assert x in s.Queue(p) || (p in s.active && x == s.active[p]);
    }
  }

  /** Two files are sent while the peer is away, and the first is retried. */
  const RETRY_WHILE_QUEUED: seq<Label> := [
    Sends(Id("p"), Id("a"), 1), Sends(Id("p"), Id("b"), 1), Retries(Id("a"), Id("p"), 1)]

  lemma TwoWait() returns (s1: State, s2: State)
    ensures Enabled(EMPTY, RETRY_WHILE_QUEUED[0]) && s1 == Apply(EMPTY, RETRY_WHILE_QUEUED[0])
    ensures Enabled(s1, RETRY_WHILE_QUEUED[1]) && s2 == Apply(s1, RETRY_WHILE_QUEUED[1])
    ensures s2.Queue(Id("p")) == [Id("a"), Id("b")] && s2.active == map[] && s2.connected == {}
    ensures Id("a") in s2.transfers && s2.transfers[Id("a")] == Fresh(Id("p"), 1)
  {
    var p, a, b := Id("p"), Id("a"), Id("b");
    assert 'p' in p.text && 'a' in a.text && 'b' in b.text;
    assert !p.Blank() && !a.Blank() && !b.Blank() && a != b;
    s1 := Apply(EMPTY, RETRY_WHILE_QUEUED[0]);
    assert s1.Queue(p) == [a] && s1.active == map[] && s1.connected == {};
    s2 := Apply(s1, RETRY_WHILE_QUEUED[1]);
  }

  /** The retry does not put it at the back: it is still ahead of the one queued after it. */
  lemma RetryCanKeepOldPlace() returns (states: seq<State>)
    ensures Run(states, RETRY_WHILE_QUEUED)
    ensures Line(states[3], Id("p")) == [Id("a"), Id("b")]
  {
    var s1, s2 := TwoWait();
    assert 'a' in Id("a").text && !Id("a").Blank();
    var s3 := Apply(s2, RETRY_WHILE_QUEUED[2]);
    assert s3.Queue(Id("p")) == [Id("a"), Id("b")];
    states := [EMPTY, s1, s2, s3];
  }
}
