/**
 Delivery of incoming chat messages (`handleIncomingEncryptedMessage`, `withinTimestampSkew` and the seen-id part
 of `runMaintenanceCleanup` in network/peer_manager.go, with storage/seen_ids.go). A message is accepted near its
 own timestamp and its id is remembered for 14 days. The clock is in nanoseconds, timestamps in milliseconds.
 */
module MessageDelivery {
  import opened Common
  import PendingQueue

  const MILLISECOND := 1_000_000
  const MAX_TIMESTAMP_SKEW := 5 * 60 * 1_000_000_000
  const SEEN_ID_RETENTION := 14 * 24 * 60 * 60 * 1_000_000_000
  const MIN_INT64 := -0x8000_0000_0000_0000
  const MAX_INT64 := 0x7FFF_FFFF_FFFF_FFFF

  type int64 = x: int | MIN_INT64 <= x <= MAX_INT64

  /** What the peer signed, and what the later checks would find in it. */
  datatype Incoming = Incoming(id: Id, fromPeer: Id, toPeer: Id, timestamp: int64, sequence: nat,
                               decodes: bool, signed: bool, opens: bool, text: string, kindKnown: bool)

  // ----- The skew test ---------------------------------------------------------------------

  function Millis(now: int): int {
    now / MILLISECOND
  }

  /** `time.Since(time.UnixMilli(timestamp))`: a difference that a Duration cannot hold is clamped. */
  function Since(timestamp: int64, now: int): int64 {
    var exact := now - timestamp * MILLISECOND;
    if exact < MIN_INT64 then MIN_INT64 else if exact > MAX_INT64 then MAX_INT64 else exact
  }

  /** Negation of a Duration; the least one is its own negative. */
  function Negated(d: int64): int64 {
    if d == MIN_INT64 then MIN_INT64 else -d
  }

  predicate WithinSkew(timestamp: int64, now: int) {
    timestamp != 0 &&
    var delta := Since(timestamp, now);
    (if delta < 0 then Negated(delta) else delta) <= MAX_TIMESTAMP_SKEW
  }

  /** The timestamp is less than 2^63 nanoseconds, about 292 years, ahead of the clock. */
  predicate Plausible(timestamp: int64, now: int) {
    timestamp * MILLISECOND - now < -MIN_INT64
  }

  /** The test passes within five minutes of the clock, and also for every timestamp that is not plausible. */
  lemma SkewExactly(timestamp: int64, now: int)
    ensures WithinSkew(timestamp, now) <==>
      && timestamp != 0
      && (-MAX_TIMESTAMP_SKEW <= now - timestamp * MILLISECOND <= MAX_TIMESTAMP_SKEW || !Plausible(timestamp, now))
  {
  }

  // ----- The inbox and its steps -----------------------------------------------------------

  /** One call of `OnMessageReceived`: the skew test read the clock at `at`, the row says `receivedAt`. */
  datatype Delivery = Delivery(id: Id, timestamp: int64, at: int, receivedAt: int)

  datatype Inbox = Inbox(lastSeen: map<Id, nat>, rows: set<Id>, seen: map<Id, int>, delivered: seq<Delivery>,
                         clock: int)

  function Empty(clock: int): Inbox {
    Inbox(map[], {}, map[], [], clock)
  }

  function LastSeen(lastSeen: map<Id, nat>, peer: Id): nat {
    if peer in lastSeen then lastSeen[peer] else 0
  }

  predicate Addressed(self: Id, peer: Id, m: Incoming) {
    m.id.text != "" && m.fromPeer.text != "" && m.toPeer.text != "" && m.fromPeer == peer && m.toPeer == self
  }

  predicate Sound(m: Incoming) {
    m.decodes && m.signed && m.opens && m.text != "" && m.kindKnown
  }

  function Receive(box: Inbox, self: Id, peer: Id, m: Incoming, now: int, later: int): Inbox {
    if !Addressed(self, peer, m) || !WithinSkew(m.timestamp, now) || m.sequence <= LastSeen(box.lastSeen, peer) then
      box.(clock := later)
    else
      var counted := box.(lastSeen := box.lastSeen[peer := m.sequence], clock := later);
      if m.id in box.seen || m.id in box.rows || !Sound(m) then counted
      else counted.(rows := box.rows + {m.id}, seen := box.seen[m.id := Millis(later)],
                    delivered := box.delivered + [Delivery(m.id, m.timestamp, now, Millis(later))])
  }

  function Kept(seen: map<Id, int>, cutoff: int): map<Id, int> {
    if cutoff <= 0 then seen else map id | id in seen && seen[id] >= cutoff :: seen[id]
  }

  datatype Event =
    | Connect(peer: Id)
    | Arrive(peer: Id, m: Incoming, now: int, later: int)
    | Prune(now: int)
    | Delete(ids: set<Id>)

  predicate Enabled(box: Inbox, event: Event) {
    match event
    case Arrive(_, _, now, later) => box.clock <= now <= later
    case Prune(now) => box.clock <= now
    case _ => true
  }

  function Apply(box: Inbox, self: Id, event: Event): Inbox {
    match event
    case Connect(peer) => box.(lastSeen := box.lastSeen[peer := 0])
    case Arrive(peer, m, now, later) => Receive(box, self, peer, m, now, later)
    case Prune(now) => box.(seen := Kept(box.seen, Millis(now - SEEN_ID_RETENTION)), clock := now)
    case Delete(ids) => box.(rows := box.rows - ids)
  }

  /** The inbox that never forgets an id. */
  function ApplyKeeping(box: Inbox, self: Id, event: Event): Inbox {
    if event.Prune? then box.(clock := event.now) else Apply(box, self, event)
  }

  /** A run of a new inbox whose clock, from `start` on, never goes back. */
  ghost predicate Legal(self: Id, start: int, events: seq<Event>) {
    events == [] ||
    (Legal(self, start, events[..|events| - 1])
     && Enabled(Run(self, start, events[..|events| - 1]), events[|events| - 1]))
  }

  function Run(self: Id, start: int, events: seq<Event>): Inbox {
    if events == [] then Empty(start)
    else Apply(Run(self, start, events[..|events| - 1]), self, events[|events| - 1])
  }

  function RunKeeping(self: Id, start: int, events: seq<Event>): Inbox {
    if events == [] then Empty(start)
    else ApplyKeeping(RunKeeping(self, start, events[..|events| - 1]), self, events[|events| - 1])
  }

  // ----- At most once ----------------------------------------------------------------------

  /** A delivered id is remembered until two weeks after it passed the skew test. */
  ghost predicate Remembered(box: Inbox, d: Delivery) {
    && WithinSkew(d.timestamp, d.at)
    && d.at <= box.clock
    && if d.id in box.seen then Millis(d.at) <= box.seen[d.id] else d.at + SEEN_ID_RETENTION < box.clock
  }

  ghost predicate AllRemembered(box: Inbox) {
    forall d :: d in box.delivered ==> Remembered(box, d)
  }

  lemma MillisMonotone(a: int, b: int)
    requires a <= b
    ensures Millis(a) <= Millis(b)
  {
  }

  lemma {:induction false} RunRemembers(self: Id, start: int, events: seq<Event>)
    requires Legal(self, start, events)
    ensures AllRemembered(Run(self, start, events)) && start <= Run(self, start, events).clock
    ensures forall d :: d in Run(self, start, events).delivered ==> start <= d.at
  {
    if events != [] {
      var before, event := events[..|events| - 1], events[|events| - 1];
      RunRemembers(self, start, before);
      var box := Run(self, start, before);
      match event
      case Arrive(peer, m, now, later) => MillisMonotone(now, later);
      case Prune(now) =>
        forall d | d in box.delivered ensures Remembered(Apply(box, self, event), d) {
          assert Remembered(box, d);
        }
      case _ =>
    }
  }

  /** A plausible timestamp passes the skew test again only while its id is still remembered. */
  lemma StillRemembered(box: Inbox, d: Delivery, timestamp: int64, now: int)
    requires Remembered(box, d) && d.timestamp == timestamp && Plausible(timestamp, d.at)
    requires box.clock <= now && WithinSkew(timestamp, now)
    ensures d.id in box.seen
  {
    SkewExactly(timestamp, d.at);
    SkewExactly(timestamp, now);
  }

  predicate Of(d: Delivery, id: Id, timestamp: int64) {
    d.id == id && d.timestamp == timestamp
  }

  /** Each signed message with a plausible timestamp reaches the user at most once. */
  lemma {:induction false} AtMostOnce(self: Id, start: int, events: seq<Event>, id: Id, timestamp: int64, i: nat,
                                      j: nat)
    requires Legal(self, start, events) && Plausible(timestamp, start)
    requires i < j < |Run(self, start, events).delivered|
    ensures !(Of(Run(self, start, events).delivered[i], id, timestamp)
              && Of(Run(self, start, events).delivered[j], id, timestamp))
  {
    var before, event := events[..|events| - 1], events[|events| - 1];
    var box := Run(self, start, before);
    RunRemembers(self, start, before);
    if j < |box.delivered| {
      AtMostOnce(self, start, before, id, timestamp, i, j);
    } else if Of(box.delivered[i], id, timestamp) && event.m.timestamp == timestamp {
      assert box.delivered[i] in box.delivered;
      StillRemembered(box, box.delivered[i], timestamp, event.now);
    }
  }

  /** And only those: any other timestamp has a run that delivers its message twice. */
  lemma TwiceWhenNotPlausible(self: Id, peer: Id, m: Incoming, start: int) returns (events: seq<Event>)
    requires 0 <= start && !Plausible(m.timestamp, start)
    requires Addressed(self, peer, m) && Sound(m) && m.sequence > 0
    ensures Legal(self, start, events)
    ensures var twice := Run(self, start, events).delivered;
      |twice| == 2 && Of(twice[0], m.id, m.timestamp) && Of(twice[1], m.id, m.timestamp)
  {
    var fortnightLater := start + SEEN_ID_RETENTION + MILLISECOND;
    var again := if Plausible(m.timestamp, fortnightLater) then m.timestamp * MILLISECOND else fortnightLater;
    ReplayAfterForgetting(Empty(start), self, peer, m, start, again);
    events := [];
    events := OneMore(self, start, events, Arrive(peer, m, start, start));
    events := OneMore(self, start, events, Delete({m.id}));
    events := OneMore(self, start, events, Prune(again));
    events := OneMore(self, start, events, Connect(peer));
    events := OneMore(self, start, events, Arrive(peer, m, again, again));
  }

  lemma OneMore(self: Id, start: int, events: seq<Event>, e: Event) returns (more: seq<Event>)
    requires Legal(self, start, events) && Enabled(Run(self, start, events), e)
    ensures Legal(self, start, more) && Run(self, start, more) == Apply(Run(self, start, events), self, e)
    ensures RunKeeping(self, start, more) == ApplyKeeping(RunKeeping(self, start, events), self, e)
  {
    more := events + [e];
    assert more[..|events|] == events;
  }

  lemma ReplayAfterForgetting(box: Inbox, self: Id, peer: Id, m: Incoming, now: int, again: int)
    requires box == Empty(now) && 0 <= now && Addressed(self, peer, m) && Sound(m) && m.sequence > 0
    requires WithinSkew(m.timestamp, now) && WithinSkew(m.timestamp, again)
    requires again >= now + SEEN_ID_RETENTION + MILLISECOND
    ensures var first := Apply(box, self, Arrive(peer, m, now, now));
      var forgot := Apply(Apply(first, self, Delete({m.id})), self, Prune(again));
      var last := Apply(Apply(forgot, self, Connect(peer)), self, Arrive(peer, m, again, again));
      && first.clock == now && forgot.clock == again
      && last.delivered ==
        [Delivery(m.id, m.timestamp, now, Millis(now)), Delivery(m.id, m.timestamp, again, Millis(again))]
  {
    MillisMonotone(now + MILLISECOND, again - SEEN_ID_RETENTION);
    assert Millis(now) + 1 == Millis(now + MILLISECOND);
  }

  // ----- Forgetting changes nothing --------------------------------------------------------

  /** Every message id comes with one timestamp, plausible from the start on. */
  ghost predicate Stamped(events: seq<Event>, stamp: Id -> int64, start: int) {
    forall e :: e in events && e.Arrive? ==> e.m.timestamp == stamp(e.m.id) && Plausible(e.m.timestamp, start)
  }

  ghost predicate SameButForgotten(box: Inbox, full: Inbox) {
    && full == box.(seen := full.seen)
    && box.seen.Keys <= full.seen.Keys
    && forall id :: id in full.seen ==> exists d :: d in box.delivered && d.id == id
  }

  lemma ArrivalAsFull(box: Inbox, full: Inbox, self: Id, e: Event)
    requires SameButForgotten(box, full) && AllRemembered(box) && e.Arrive? && Enabled(box, e)
    requires forall d :: d in box.delivered && d.id == e.m.id ==>
      d.timestamp == e.m.timestamp && Plausible(d.timestamp, d.at)
    ensures SameButForgotten(Apply(box, self, e), Apply(full, self, e))
  {
    if WithinSkew(e.m.timestamp, e.now) && e.m.id in full.seen {
      var d :| d in box.delivered && d.id == e.m.id;
      StillRemembered(box, d, e.m.timestamp, e.now);
    }
    var box' := Apply(box, self, e);
    forall id | id in Apply(full, self, e).seen ensures exists d :: d in box'.delivered && d.id == id {
      if id in full.seen {
        var d :| d in box.delivered && d.id == id;
        assert d in box'.delivered;
      } else {
        assert box'.delivered[|box.delivered|].id == id;
      }
    }
  }

  /** The seen ids forgotten after two weeks never change what is delivered, stored or counted. */
  lemma {:induction false} PrunedDecidesAsFull(self: Id, start: int, events: seq<Event>, stamp: Id -> int64)
    requires Legal(self, start, events) && Stamped(events, stamp, start)
    ensures SameButForgotten(Run(self, start, events), RunKeeping(self, start, events))
    ensures forall d :: d in Run(self, start, events).delivered ==>
      d.timestamp == stamp(d.id) && Plausible(d.timestamp, start)
  {
    if events != [] {
      var before, e := events[..|events| - 1], events[|events| - 1];
      assert e in events;
      PrunedDecidesAsFull(self, start, before, stamp);
      RunRemembers(self, start, before);
      if e.Arrive? {
        ArrivalAsFull(Run(self, start, before), RunKeeping(self, start, before), self, e);
      }
    }
  }

  /** A message is delivered, its row is deleted, and two weeks later its id is forgotten. */
  lemma UntilForgotten(self: Id, peer: Id, m: Incoming, start: int) returns (events: seq<Event>)
    requires 0 <= start == m.timestamp * MILLISECOND && m.timestamp != 0 && m.timestamp < MAX_INT64 / 2
    requires Addressed(self, peer, m) && Sound(m) && m.sequence > 0
    ensures Legal(self, start, events)
    ensures var again, full := start + SEEN_ID_RETENTION + MILLISECOND, RunKeeping(self, start, events);
      && Run(self, start, events) ==
        Inbox(map[peer := m.sequence], {}, map[], [Delivery(m.id, m.timestamp, start, Millis(start))], again)
      && m.id in full.seen && |full.delivered| == 1
  {
    var again := start + SEEN_ID_RETENTION + MILLISECOND;
    MillisMonotone(start + MILLISECOND, again - SEEN_ID_RETENTION);
    events := [];
    events := OneMore(self, start, events, Arrive(peer, m, start, start));
    events := OneMore(self, start, events, Delete({m.id}));
    events := OneMore(self, start, events, Prune(again));
  }

  /** It would change for a peer that signs a second message under an old id: only the full memory refuses that one. */
  lemma ReusedIdIsTakenAgain(self: Id, peer: Id, m: Incoming, start: int) returns (events: seq<Event>)
    requires 0 <= start == m.timestamp * MILLISECOND && m.timestamp != 0 && m.timestamp < MAX_INT64 / 2
    requires Addressed(self, peer, m) && Sound(m) && m.sequence > 0
    ensures Legal(self, start, events)
    ensures |Run(self, start, events).delivered| == 2 && |RunKeeping(self, start, events).delivered| == 1
  {
    var again := start + SEEN_ID_RETENTION + MILLISECOND;
    var m' := m.(timestamp := m.timestamp + SEEN_ID_RETENTION / MILLISECOND + 1);
    events := UntilForgotten(self, peer, m, start);
    events := OneMore(self, start, events, Connect(peer));
    events := OneMore(self, start, events, Arrive(peer, m', again, again));
  }

  // ----- Messages that waited --------------------------------------------------------------

  /**
   A message that waited in the sender's queue and comes through arrives exactly within five minutes of its writing.
   */
  lemma WaitedMessageArrives(box: Inbox, self: Id, peer: Id, m: Incoming, now: int, later: int)
    requires Addressed(self, peer, m) && Sound(m) && m.sequence > LastSeen(box.lastSeen, peer)
    requires m.id !in box.seen && m.id !in box.rows && m.timestamp != 0 && m.timestamp * MILLISECOND <= now
    ensures |Receive(box, self, peer, m, now, later).delivered| == |box.delivered| + 1
      <==> now - m.timestamp * MILLISECOND <= MAX_TIMESTAMP_SKEW
  {
    SkewExactly(m.timestamp, now);
  }

  /** So a message can wait for a week, but after five minutes of waiting no receiver takes it. */
  lemma KeptButRefused(q: PendingQueue.Message, box: Inbox, self: Id, peer: Id, m: Incoming, now: int, later: int)
    requires m.timestamp == q.sentAt && q.bytes <= PendingQueue.MAX_QUEUED_BYTES_PER_PEER
    requires MAX_TIMESTAMP_SKEW < now - q.sentAt * MILLISECOND <= PendingQueue.MAX_QUEUE_AGE * MILLISECOND
    ensures PendingQueue.Acceptable([q], Millis(now))
    ensures Receive(box, self, peer, m, now, later) == box.(clock := later)
  {
    SkewExactly(m.timestamp, now);
    assert [q][1..] == [];
  }

  // ----- The handler in place --------------------------------------------------------------

  class Receiver {
    const deviceID: Id
    var lastSeenSeq: map<Id, nat>
    var messages: set<Id>
    var seenMessageIDs: map<Id, int>
    var received: seq<Delivery>
    ghost var clock: int

    ghost function View(): Inbox
      reads this
    {
      Inbox(lastSeenSeq, messages, seenMessageIDs, received, clock)
    }

    constructor (deviceID: Id, ghost start: int)
      ensures View() == Empty(start) && this.deviceID == deviceID
    {
      this.deviceID := deviceID;
      lastSeenSeq, messages, seenMessageIDs, received, clock := map[], {}, map[], [], start;
    }

    method Connect(peer: Id)
      modifies this
      ensures View() == Apply(old(View()), deviceID, Event.Connect(peer))
    {
      lastSeenSeq := lastSeenSeq[peer := 0];
    }

    method ValidateSequence(peer: Id, sequence: nat) returns (ok: bool)
      modifies `lastSeenSeq
      ensures ok <==> sequence > LastSeen(old(lastSeenSeq), peer)
      ensures lastSeenSeq == if ok then old(lastSeenSeq)[peer := sequence] else old(lastSeenSeq)
    {
      if sequence <= LastSeen(lastSeenSeq, peer) {
        return false;
      }
      lastSeenSeq := lastSeenSeq[peer := sequence];
      return true;
    }

    method HandleIncomingEncryptedMessage(peer: Id, m: Incoming, now: int, later: int)
      requires clock <= now <= later
      modifies this
      ensures View() == Apply(old(View()), deviceID, Arrive(peer, m, now, later))
    {
      clock := later;
      if m.id.text == "" || m.fromPeer.text == "" || m.toPeer.text == "" {
        return;
      }
      if m.fromPeer != peer {
        return;
      }
      if m.toPeer != deviceID {
        return;
      }
      if !WithinSkew(m.timestamp, now) {
        return;
      }
      var inOrder := ValidateSequence(peer, m.sequence);
      if !inOrder {
        return;
      }
      if m.id in seenMessageIDs {
        return;
      }
      if !m.decodes || !m.signed || !m.opens {
        return;
      }
      if m.text == "" || !m.kindKnown || m.id in messages {
        return;
      }
      messages := messages + {m.id};
      seenMessageIDs := seenMessageIDs[m.id := Millis(later)];
      received := received + [Delivery(m.id, m.timestamp, now, Millis(later))];
    }

    /** The seen-id part of a maintenance pass. */
    method PruneSeenIDs(now: int)
      requires clock <= now
      modifies this
      ensures View() == Apply(old(View()), deviceID, Prune(now))
    {
      clock := now;
      var cutoff := Millis(now - SEEN_ID_RETENTION);
      if cutoff <= 0 {
        return;
      }
      var ids := seenMessageIDs.Keys;
      while ids != {}
        invariant ids <= old(seenMessageIDs).Keys
        invariant forall id :: id in seenMessageIDs <==>
            id in old(seenMessageIDs) && (id in ids || old(seenMessageIDs)[id] >= cutoff)
        invariant forall id :: id in seenMessageIDs ==> seenMessageIDs[id] == old(seenMessageIDs)[id]
        invariant lastSeenSeq == old(lastSeenSeq) && messages == old(messages) && received == old(received)
          && clock == now
        decreases |ids|
      {
        var id :| id in ids;
        ids := ids - {id};
        if seenMessageIDs[id] < cutoff {
          seenMessageIDs := seenMessageIDs - {id};
        }
      }
    }

    method DeleteMessages(ids: set<Id>)
      modifies this
      ensures View() == Apply(old(View()), deviceID, Delete(ids))
    {
      messages := messages - ids;
    }
  }
}
