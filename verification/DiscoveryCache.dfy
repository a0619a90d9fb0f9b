/**
 The discovery cache and its event stream (`applySnapshot`, `emitEvent` and `peersEqual` in
 discovery/peer_scanner.go), with the consumer that rebuilds the cache from the events (ui/main_window.go).
 */
module DiscoveryCache {
  import opened Common

  const EVENT_CAPACITY := 128

  /** All that is compared of a discovered peer besides its id. */
  datatype Endpoint = Endpoint(deviceName: string, discoveryToken: string, version: int, hostName: string, port: int,
                               addresses: seq<string>)

  datatype Peer = Peer(deviceID: Id, endpoint: Endpoint, lastSeen: Option<int>)

  datatype Event = Upserted(peer: Peer) | Removed(peer: Peer)

  /** Peers by device id. */
  type Peers = peers: map<Id, Peer> | forall id :: id in peers ==> peers[id].deviceID == id

  function With(peers: Peers, peer: Peer): Peers {
    peers[peer.deviceID := peer]
  }

  function Less(peers: Peers, id: Id): Peers {
    peers - {id}
  }

  predicate Same(a: Peer, b: Peer) {
    a.deviceID == b.deviceID && a.endpoint == b.endpoint
  }

  /** Equal up to when each peer was last seen. */
  ghost predicate Agree(a: Peers, b: Peers) {
    a.Keys == b.Keys && forall id :: id in a ==> Same(a[id], b[id])
  }

  // ----- What one scan does ----------------------------------------------------------------

  /** One finished scan: what it found, and when it was applied. */
  datatype Scan = Scan(next: Peers, now: int)

  predicate Changed(peers: Peers, scan: Scan, id: Id) {
    id in scan.next && (id !in peers || !Same(peers[id], scan.next[id]))
  }

  predicate Stale(peers: Peers, scan: Scan, staleAfter: int, id: Id) {
    && id in peers && id !in scan.next
    && (peers[id].lastSeen.None? || scan.now - peers[id].lastSeen.value >= staleAfter)
  }

  function Merged(peers: Peers, scan: Scan, staleAfter: int): Peers {
    map id | id in peers.Keys + scan.next.Keys && !Stale(peers, scan, staleAfter, id) ::
      if id in scan.next then scan.next[id] else peers[id]
  }

  function ChangedIds(peers: Peers, scan: Scan): set<Id> {
    set id | id in scan.next && Changed(peers, scan, id)
  }

  function StaleIds(peers: Peers, scan: Scan, staleAfter: int): set<Id> {
    set id | id in peers && Stale(peers, scan, staleAfter, id)
  }

  ghost predicate Announced(e: Event, peers: Peers, scan: Scan, changed: set<Id>, stale: set<Id>) {
    match e
    case Upserted(peer) => peer.deviceID in changed && peer.deviceID in scan.next && peer == scan.next[peer.deviceID]
    case Removed(peer) => peer.deviceID in stale && peer.deviceID in peers && peer == peers[peer.deviceID]
  }

  /** The events name each of these peers once and nothing else: what was found, and what the cache last held. */
  ghost predicate Announce(events: seq<Event>, peers: Peers, scan: Scan, changed: set<Id>, stale: set<Id>) {
    && changed <= scan.next.Keys && stale <= peers.Keys
    && |events| == |changed| + |stale|
    && (forall e :: e in events ==> Announced(e, peers, scan, changed, stale))
    && (forall id {:trigger Upserted(scan.next[id])} :: id in changed ==> Upserted(scan.next[id]) in events)
    && (forall id {:trigger Removed(peers[id])} :: id in stale ==> Removed(peers[id]) in events)
  }

  function AfterScans(peers: Peers, scans: seq<Scan>, staleAfter: int): Peers {
    if scans == [] then peers
    else Merged(AfterScans(peers, scans[..|scans| - 1], staleAfter), scans[|scans| - 1], staleAfter)
  }

  /** A peer stays listed through every scan that comes less than the stale time after it was last seen. */
  lemma {:induction false} SeenPeerStays(peers: Peers, scans: seq<Scan>, staleAfter: int, id: Id, seenAt: int)
    requires id in peers && peers[id].lastSeen.Some? && peers[id].lastSeen.value >= seenAt
    requires forall s :: s in scans ==> s.now < seenAt + staleAfter
    requires forall s :: s in scans && id in s.next ==> s.next[id].lastSeen.Some? && s.next[id].lastSeen.value >= seenAt
    ensures var after := AfterScans(peers, scans, staleAfter);
      id in after && after[id].lastSeen.Some? && after[id].lastSeen.value >= seenAt
  {
    if scans != [] {
      SeenPeerStays(peers, scans[..|scans| - 1], staleAfter, id, seenAt);
      assert scans[|scans| - 1] in scans;
    }
  }

  /**
   A peer that every later scan finds unchanged is never announced again: if the event that announced it was
   dropped, no later one makes up for it.
   */
  lemma {:induction false} SteadyPeerIsNotAnnounced(peers: Peers, scans: seq<Scan>, staleAfter: int, id: Id, k: nat)
    requires id in peers && k < |scans|
    requires forall s :: s in scans ==> id in s.next && Same(peers[id], s.next[id])
    ensures var before := AfterScans(peers, scans[..k], staleAfter);
      && id in before && Same(before[id], peers[id])
      && id !in ChangedIds(before, scans[k]) && id !in StaleIds(before, scans[k], staleAfter)
  {
    assert scans[k] in scans;
    if k > 0 {
      SteadyPeerIsNotAnnounced(peers, scans, staleAfter, id, k - 1);
      assert scans[k - 1] in scans;
      assert scans[..k][..k - 1] == scans[..k - 1];
    }
  }

  /** The comparison leaves out nothing but when each was last seen. */
  lemma SameExactly(a: Peer, b: Peer)
    ensures Same(a, b) <==> a.(lastSeen := None) == b.(lastSeen := None)
  {
  }

  /** One scan lists what it found, and keeps what it did not find exactly while that is not stale. */
  lemma MergedExactly(peers: Peers, scan: Scan, staleAfter: int, id: Id)
    ensures var merged := Merged(peers, scan, staleAfter);
      && (id in merged <==>
            || id in scan.next
            || (id in peers && peers[id].lastSeen.Some? && scan.now - peers[id].lastSeen.value < staleAfter))
      && (id in merged ==> merged[id] == if id in scan.next then scan.next[id] else peers[id])
  {
  }

  /** A peer that no scan finds is still listed exactly if none of them came the stale time after it was last seen. */
  lemma {:induction false} UnseenPeerGoes(peers: Peers, scans: seq<Scan>, staleAfter: int, id: Id)
    requires scans != [] && forall s :: s in scans ==> id !in s.next
    ensures var after := AfterScans(peers, scans, staleAfter);
      && (id in after <==>
            && id in peers && peers[id].lastSeen.Some?
            && forall s :: s in scans ==> s.now < peers[id].lastSeen.value + staleAfter)
      && (id in after ==> after[id] == peers[id])
  {
    var before, last := scans[..|scans| - 1], scans[|scans| - 1];
    assert scans == before + [last];
    MergedExactly(AfterScans(peers, before, staleAfter), last, staleAfter, id);
    if before != [] { UnseenPeerGoes(peers, before, staleAfter, id); }
  }

  // ----- Replay ----------------------------------------------------------------------------

  function Handled(discovered: Peers, e: Event): Peers {
    match e
    case Upserted(peer) => discovered[peer.deviceID := peer]
    case Removed(peer) => discovered - {peer.deviceID}
  }

  function Replay(events: seq<Event>): Peers {
    if events == [] then map[] else Handled(Replay(events[..|events| - 1]), events[|events| - 1])
  }

  lemma ReplayOneMore(events: seq<Event>, e: Event)
    ensures Replay(events + [e]) == Handled(Replay(events), e)
  {
    assert (events + [e])[..|events|] == events;
  }

  /** The last event for a peer, if there is one. */
  function LastFor(events: seq<Event>, id: Id): Option<Event> {
    if events == [] then None
    else if events[|events| - 1].peer.deviceID == id then Some(events[|events| - 1])
    else LastFor(events[..|events| - 1], id)
  }

  /** A replay holds what the last event for each peer says. */
  lemma {:induction false} ReplayIsLast(events: seq<Event>, id: Id)
    ensures id in Replay(events) <==> LastFor(events, id).Some? && LastFor(events, id).value.Upserted?
    ensures id in Replay(events) ==> Replay(events)[id] == LastFor(events, id).value.peer
    ensures LastFor(events, id).Some? ==> LastFor(events, id).value in events
  {
    if events != [] {
      ReplayIsLast(events[..|events| - 1], id);
    }
  }

  /** Two events, or the lack of one, tell the same of a peer up to when it was seen. */
  predicate SaysSame(a: Option<Event>, b: Option<Event>) {
    var present, present' := a.Some? && a.value.Upserted?, b.Some? && b.value.Upserted?;
    present == present' && (present ==> Same(a.value.peer, b.value.peer))
  }

  /** Two lists agree on one peer. */
  predicate AgreeOn(a: Peers, b: Peers, id: Id) {
    (id in a <==> id in b) && (id in a && id in b ==> Same(a[id], b[id]))
  }

  /**
   A consumer of `sent` agrees on a peer exactly when the last event sent for it says the same as the last
   attempted.
   */
  lemma AgreesExactly(sent: seq<Event>, attempted: seq<Event>, peers: Peers, id: Id)
    requires Agree(Replay(attempted), peers)
    ensures AgreeOn(Replay(sent), peers, id) <==> SaysSame(LastFor(sent, id), LastFor(attempted, id))
  {
    ReplayIsLast(sent, id);
    ReplayIsLast(attempted, id);
  }

  lemma AgreesEverywhereExactly(sent: seq<Event>, attempted: seq<Event>, peers: Peers)
    requires Agree(Replay(attempted), peers)
    ensures forall id :: (AgreeOn(Replay(sent), peers, id) <==> SaysSame(LastFor(sent, id), LastFor(attempted, id)))
  {
    forall id ensures AgreeOn(Replay(sent), peers, id) <==> SaysSame(LastFor(sent, id), LastFor(attempted, id)) {
      AgreesExactly(sent, attempted, peers, id);
    }
  }

  /** Every event so far, those that found room in the channel, and how many of these still wait in it. */
  datatype Channel = Channel(attempted: seq<Event>, sent: seq<Event>, waiting: nat)

  /** What becomes of a channel when these events are announced and nothing is received meanwhile. */
  ghost predicate Told(before: Channel, announced: seq<Event>, after: Channel) {
    && before.waiting <= EVENT_CAPACITY
    && after.attempted == before.attempted + announced
    && after.sent == before.sent + announced[..Min(|announced|, EVENT_CAPACITY - before.waiting)]
    && after.waiting == Min(before.waiting + |announced|, EVENT_CAPACITY)
  }

  lemma ToldTwice(a: Channel, x: seq<Event>, b: Channel, y: seq<Event>, c: Channel)
    requires Told(a, x, b) && Told(b, y, c)
    ensures Told(a, x + y, c)
  {
    var n, m := Min(|x|, EVENT_CAPACITY - a.waiting), Min(|y|, EVENT_CAPACITY - b.waiting);
    assert (x + y)[..Min(|x + y|, EVENT_CAPACITY - a.waiting)] == x[..n] + y[..m];
    assert a.sent + x[..n] + y[..m] == a.sent + (x[..n] + y[..m]);
    assert a.attempted + x + y == a.attempted + (x + y);
  }

  /** While there is room nothing is dropped; from then on everything is. */
  lemma SentWhileThereIsRoom(before: Channel, announced: seq<Event>, after: Channel, k: nat)
    requires Told(before, announced, after) && k < |announced|
    ensures before.waiting + |announced| <= 128 ==> after.sent == before.sent + announced
    ensures before.waiting + k < 128 <==>
      |before.sent| + k < |after.sent| && after.sent[..|before.sent| + k + 1] == before.sent + announced[..k + 1]
  {
    assert announced[..|announced|] == announced;
    if before.waiting + k < 128 {
      assert announced[..|after.sent| - |before.sent|][..k + 1] == announced[..k + 1];
    }
  }

  lemma ToldNothing(a: Channel)
    requires a.waiting <= EVENT_CAPACITY
    ensures Told(a, [], a)
  {
    assert a.sent + [] == a.sent && a.attempted + [] == a.attempted;
  }

  lemma AnnounceChange(events: seq<Event>, peers: Peers, scan: Scan, changed: set<Id>, stale: set<Id>, id: Id)
    requires Announce(events, peers, scan, changed, stale) && id in scan.next && id !in changed
    ensures Announce(events + [Upserted(scan.next[id])], peers, scan, changed + {id}, stale)
  {
  }

  lemma AnnounceRemoval(events: seq<Event>, peers: Peers, scan: Scan, changed: set<Id>, stale: set<Id>, id: Id)
    requires Announce(events, peers, scan, changed, stale) && id in peers && id !in stale
    ensures Announce(events + [Removed(peers[id])], peers, scan, changed, stale + {id})
  {
  }

  /** The copy of the cache once `found` of the found peers are in it and `gone` of the stale ones are out of it. */
  function PartlyMerged(peers: Peers, scan: Scan, found: set<Id>, gone: set<Id>): Peers
    requires found <= scan.next.Keys
  {
    map id | id in peers.Keys + found && id !in gone :: if id in found then scan.next[id] else peers[id]
  }

  /** Between two turns of the first loop, with the ids in `ids` still to come. */
  ghost predicate Finding(peers: Peers, scan: Scan, ids: set<Id>, merged: Peers, announced: seq<Event>) {
    && ids <= scan.next.Keys
    && merged == PartlyMerged(peers, scan, scan.next.Keys - ids, {})
    && Announce(announced, peers, scan, ChangedIds(peers, scan) - ids, {})
  }

  function ChangeEvents(peers: Peers, scan: Scan, id: Id): seq<Event>
    requires id in scan.next
  {
    if Changed(peers, scan, id) then [Upserted(scan.next[id])] else []
  }

  lemma FindingStart(peers: Peers, scan: Scan)
    ensures Finding(peers, scan, scan.next.Keys, peers, [])
  {
    assert ChangedIds(peers, scan) - scan.next.Keys == {} && scan.next.Keys - scan.next.Keys == {};
    assert PartlyMerged(peers, scan, {}, {}) == peers;
  }

  lemma MergeOne(peers: Peers, scan: Scan, found: set<Id>, id: Id)
    requires found <= scan.next.Keys && id in scan.next
    ensures PartlyMerged(peers, scan, found + {id}, {}) == PartlyMerged(peers, scan, found, {})[id := scan.next[id]]
  {
  }

  lemma FindingStep(peers: Peers, scan: Scan, ids: set<Id>, merged: Peers, announced: seq<Event>, id: Id)
    requires Finding(peers, scan, ids, merged, announced) && id in ids
    ensures Finding(peers, scan, ids - {id}, merged[id := scan.next[id]], announced + ChangeEvents(peers, scan, id))
    ensures (id in merged <==> id in peers) && (id in peers ==> merged[id] == peers[id])
  {
    assert scan.next.Keys - (ids - {id}) == scan.next.Keys - ids + {id};
    MergeOne(peers, scan, scan.next.Keys - ids, id);
    ChangeStep(peers, scan, ids, announced, id);
  }

  lemma ChangeStep(peers: Peers, scan: Scan, ids: set<Id>, announced: seq<Event>, id: Id)
    requires ids <= scan.next.Keys && id in ids && Announce(announced, peers, scan, ChangedIds(peers, scan) - ids, {})
    ensures Announce(announced + ChangeEvents(peers, scan, id), peers, scan, ChangedIds(peers, scan) - (ids - {id}), {})
  {
    var changed := ChangedIds(peers, scan);
    if id in changed {
      AnnounceChange(announced, peers, scan, changed - ids, {}, id);
      assert changed - (ids - {id}) == changed - ids + {id};
    } else {
      assert changed - (ids - {id}) == changed - ids;
      assert announced + [] == announced;
    }
  }

  lemma FindingDone(peers: Peers, scan: Scan, merged: Peers, announced: seq<Event>)
    requires Finding(peers, scan, {}, merged, announced)
    ensures merged == PartlyMerged(peers, scan, scan.next.Keys, {})
    ensures Announce(announced, peers, scan, ChangedIds(peers, scan), {})
  {
    assert ChangedIds(peers, scan) - {} == ChangedIds(peers, scan);
    assert scan.next.Keys - {} == scan.next.Keys;
  }

  /** Between two turns of the second loop, with the ids in `ids` still to come. */
  ghost predicate Removing(peers: Peers, scan: Scan, staleAfter: int, ids: set<Id>, merged: Peers,
                           announced: seq<Event>) {
    var stale := StaleIds(peers, scan, staleAfter);
    && ids <= peers.Keys + scan.next.Keys
    && merged == PartlyMerged(peers, scan, scan.next.Keys, stale - ids)
    && Announce(announced, peers, scan, ChangedIds(peers, scan), stale - ids)
  }

  lemma RemovingStart(peers: Peers, scan: Scan, staleAfter: int, whole: Peers, announced: seq<Event>)
    requires whole == PartlyMerged(peers, scan, scan.next.Keys, {})
    requires Announce(announced, peers, scan, ChangedIds(peers, scan), {})
    ensures Removing(peers, scan, staleAfter, whole.Keys, whole, announced)
  {
    assert StaleIds(peers, scan, staleAfter) - whole.Keys == {};
  }

  lemma RemovingDone(peers: Peers, scan: Scan, staleAfter: int, merged: Peers, announced: seq<Event>)
    requires Removing(peers, scan, staleAfter, {}, merged, announced)
    ensures merged == Merged(peers, scan, staleAfter)
    ensures Announce(announced, peers, scan, ChangedIds(peers, scan), StaleIds(peers, scan, staleAfter))
  {
    assert StaleIds(peers, scan, staleAfter) - {} == StaleIds(peers, scan, staleAfter);
  }

  function RemovalEvents(peers: Peers, scan: Scan, staleAfter: int, id: Id): seq<Event> {
    if Stale(peers, scan, staleAfter, id) then [Removed(peers[id])] else []
  }

  function Without(merged: Peers, peers: Peers, scan: Scan, staleAfter: int, id: Id): Peers {
    if Stale(peers, scan, staleAfter, id) then merged - {id} else merged
  }

  lemma RemovingStep(peers: Peers, scan: Scan, staleAfter: int, ids: set<Id>, merged: Peers, announced: seq<Event>,
                     id: Id)
    requires Removing(peers, scan, staleAfter, ids, merged, announced) && id in ids
    ensures Removing(peers, scan, staleAfter, ids - {id}, Without(merged, peers, scan, staleAfter, id),
                     announced + RemovalEvents(peers, scan, staleAfter, id))
    ensures id in merged && (id !in scan.next ==> id in peers && merged[id] == peers[id])
  {
    RemovalStep(peers, scan, staleAfter, ids, announced, id);
    RemoveMapStep(peers, scan, staleAfter, ids, id);
  }

  lemma RemoveMapStep(peers: Peers, scan: Scan, staleAfter: int, ids: set<Id>, id: Id)
    requires ids <= peers.Keys + scan.next.Keys && id in ids
    ensures var stale := StaleIds(peers, scan, staleAfter);
      var merged := PartlyMerged(peers, scan, scan.next.Keys, stale - ids);
      && id in merged && (id !in scan.next ==> id in peers && merged[id] == peers[id])
      && PartlyMerged(peers, scan, scan.next.Keys, stale - (ids - {id})) == Without(merged, peers, scan, staleAfter, id)
  {
  }

  lemma RemovalStep(peers: Peers, scan: Scan, staleAfter: int, ids: set<Id>, announced: seq<Event>, id: Id)
    requires id in ids
    requires Announce(announced, peers, scan, ChangedIds(peers, scan), StaleIds(peers, scan, staleAfter) - ids)
    ensures Announce(announced + RemovalEvents(peers, scan, staleAfter, id), peers, scan, ChangedIds(peers, scan),
                     StaleIds(peers, scan, staleAfter) - (ids - {id}))
  {
    var changed, stale := ChangedIds(peers, scan), StaleIds(peers, scan, staleAfter);
    if id in stale {
      LateRemoval(announced, peers, scan, changed, stale, ids, id);
    } else {
      assert stale - (ids - {id}) == stale - ids;
      assert announced + [] == announced;
    }
  }

  lemma LateRemoval(events: seq<Event>, peers: Peers, scan: Scan, changed: set<Id>, stale: set<Id>, ids: set<Id>,
                    id: Id)
    requires Announce(events, peers, scan, changed, stale - ids) && id in ids && id in stale && id in peers
    ensures Announce(events + [Removed(peers[id])], peers, scan, changed, stale - (ids - {id}))
  {
    AnnounceRemoval(events, peers, scan, changed, stale - ids, id);
    assert stale - (ids - {id}) == stale - ids + {id};
  }

  /** Replaying one more of what was sent is handling the first that waits. */
  lemma ReplayNext(sent: seq<Event>, waiting: seq<Event>)
    requires 0 < |waiting| <= |sent| && sent[|sent| - |waiting|..] == waiting
    ensures Replay(sent[..|sent| - (|waiting| - 1)]) == Handled(Replay(sent[..|sent| - |waiting|]), waiting[0])
  {
    var k := |sent| - |waiting|;
    assert sent[k] == waiting[0];
    assert sent[..k + 1] == sent[..k] + [waiting[0]];
    ReplayOneMore(sent[..k], waiting[0]);
  }

  lemma UpsertAgrees(a: Peers, b: Peers, peer: Peer)
    requires Agree(a, b)
    ensures Agree(Handled(a, Upserted(peer)), b[peer.deviceID := peer])
  {
  }

  lemma SeenAgainAgrees(a: Peers, b: Peers, peer: Peer)
    requires Agree(a, b) && peer.deviceID in b && Same(b[peer.deviceID], peer)
    ensures Agree(a, b[peer.deviceID := peer])
  {
  }

  lemma RemovedAgrees(a: Peers, b: Peers, peer: Peer)
    requires Agree(a, b)
    ensures Agree(Handled(a, Removed(peer)), b - {peer.deviceID})
  {
  }

  // ----- The scanner in place --------------------------------------------------------------

  class PeerScanner {
    const peerStaleAfter: int
    var peers: Peers
    // The channel: what was sent and not yet received.
    var events: seq<Event>
    // Every event so far, and those that found room in the channel.
    ghost var attempted: seq<Event>
    ghost var sent: seq<Event>

    ghost predicate Buffered()
      reads this
    {
      |sent| <= |attempted| && |events| <= EVENT_CAPACITY && |events| <= |sent| && sent[|sent| - |events|..] == events
    }

    ghost function Log(): Channel
      reads this
    {
      Channel(attempted, sent, |events|)
    }

    /** Replaying every event, those that were dropped too, gives these peers. */
    ghost predicate InStep(with: Peers)
      reads this
    {
      Buffered() && Agree(Replay(attempted), with)
    }

    ghost predicate Valid()
      reads this
    {
      InStep(peers)
    }

    constructor (peerStaleAfter: int)
      ensures Valid() && this.peerStaleAfter == peerStaleAfter
      ensures peers == map[] && events == [] && sent == [] && attempted == []
    {
      this.peerStaleAfter := peerStaleAfter;
      peers, events, attempted, sent := map[], [], [], [];
    }

    /** Sends without waiting: an event that finds the channel full is dropped. */
    method EmitEvent(e: Event)
      requires Buffered()
      modifies `events, `attempted, `sent
      ensures Buffered() && Told(old(Log()), [e], Log())
      ensures Replay(attempted) == Handled(Replay(old(attempted)), e)
    {
      attempted := attempted + [e];
      ReplayOneMore(old(attempted), e);
      if |events| < EVENT_CAPACITY {
        events := events + [e];
        sent := sent + [e];
      }
    }

    static method PeersEqual(a: Peer, b: Peer) returns (equal: bool)
      ensures equal <==> Same(a, b)
    {
      if a.deviceID != b.deviceID {
        return false;
      }
      var x, y := a.endpoint, b.endpoint;
      if x.deviceName != y.deviceName || x.discoveryToken != y.discoveryToken || x.version != y.version
         || x.hostName != y.hostName || x.port != y.port || |x.addresses| != |y.addresses| {
        return false;
      }
      for i := 0 to |x.addresses|
        invariant x.addresses[..i] == y.addresses[..i]
      {
        if x.addresses[i] != y.addresses[i] {
          return false;
        }
      }
      assert x.addresses == x.addresses[..|x.addresses|] && y.addresses == y.addresses[..|x.addresses|];
      return true;
    }

    /** One turn of the first loop: the found peer replaces the copy's, announced if it is new or changed. */
    method UpsertOne(scan: Scan, id: Id, merged: Peers) returns (merged': Peers)
      requires InStep(merged) && id in scan.next
      requires (id in merged <==> id in peers) && (id in peers ==> merged[id] == peers[id])
      modifies `events, `attempted, `sent
      ensures merged' == merged[id := scan.next[id]] && InStep(merged')
      ensures Told(old(Log()), ChangeEvents(peers, scan, id), Log())
    {
      var peer := scan.next[id];
      var equal := false;
      if id in peers {
        equal := PeersEqual(peers[id], peer);
      }
      if !equal {
        UpsertAgrees(Replay(attempted), merged, peer);
        EmitEvent(Upserted(peer));
      } else {
        SeenAgainAgrees(Replay(attempted), merged, peer);
        ToldNothing(Log());
      }
      merged' := With(merged, peer);
    }

    /** The same, with what it means for the rest of the loop. */
    method UpsertTurn(scan: Scan, id: Id, ghost ids: set<Id>, merged: Peers, ghost before: Channel,
                      ghost announced: seq<Event>)
      returns (merged': Peers, ghost announced': seq<Event>)
      requires Finding(peers, scan, ids, merged, announced) && InStep(merged) && id in ids
      requires Told(before, announced, Log())
      modifies `events, `attempted, `sent
      ensures Finding(peers, scan, ids - {id}, merged', announced') && InStep(merged')
      ensures Told(before, announced', Log())
    {
      FindingStep(peers, scan, ids, merged, announced, id);
      merged' := UpsertOne(scan, id, merged);
      announced' := announced + ChangeEvents(peers, scan, id);
      ToldTwice(before, announced, old(Log()), ChangeEvents(peers, scan, id), Log());
    }

    /** The next key of an iteration over a map, which can be any. */
    static method NextKey(ids: set<Id>) returns (id: Id)
      requires ids != {}
      ensures id in ids
    {
      id :| id in ids;
    }

    /** The first loop, over what the scan found in any order. */
    method UpsertFound(scan: Scan) returns (merged: Peers, ghost announced: seq<Event>)
      requires Valid()
      modifies `events, `attempted, `sent
      ensures merged == PartlyMerged(peers, scan, scan.next.Keys, {}) && InStep(merged)
      ensures Told(old(Log()), announced, Log()) && Announce(announced, peers, scan, ChangedIds(peers, scan), {})
    {
      merged := peers;
      var ids := scan.next.Keys;
      announced := [];
      FindingStart(peers, scan);
      ToldNothing(Log());
      while ids != {}
        invariant Finding(peers, scan, ids, merged, announced) && InStep(merged)
        invariant Told(old(Log()), announced, Log())
        decreases |ids|
      {
        var id := NextKey(ids);
        merged, announced := UpsertTurn(scan, id, ids, merged, old(Log()), announced);
        ids := ids - {id};
      }
      FindingDone(peers, scan, merged, announced);
    }

    /** One turn of the second loop: a stale peer goes, and that is announced. */
    method RemoveOne(scan: Scan, id: Id, merged: Peers) returns (merged': Peers)
      requires InStep(merged) && id in merged && (id !in scan.next ==> id in peers && merged[id] == peers[id])
      modifies `events, `attempted, `sent
      ensures merged' == Without(merged, peers, scan, peerStaleAfter, id) && InStep(merged')
      ensures Told(old(Log()), RemovalEvents(peers, scan, peerStaleAfter, id), Log())
    {
      var peer := merged[id];
      var stays := id in scan.next;
      if !stays {
        stays := peer.lastSeen.Some? && scan.now - peer.lastSeen.value < peerStaleAfter;
      }
      if stays {
        ToldNothing(Log());
        return merged;
      }
      RemovedAgrees(Replay(attempted), merged, peer);
      merged' := Less(merged, id);
      EmitEvent(Removed(peer));
    }

    /** The same, with what it means for the rest of the loop. */
    method RemovalTurn(scan: Scan, id: Id, ghost ids: set<Id>, merged: Peers, ghost before: Channel,
                       ghost announced: seq<Event>)
      returns (merged': Peers, ghost announced': seq<Event>)
      requires Removing(peers, scan, peerStaleAfter, ids, merged, announced) && InStep(merged) && id in ids
      requires Told(before, announced, Log())
      modifies `events, `attempted, `sent
      ensures Removing(peers, scan, peerStaleAfter, ids - {id}, merged', announced') && InStep(merged')
      ensures Told(before, announced', Log())
    {
      RemovingStep(peers, scan, peerStaleAfter, ids, merged, announced, id);
      merged' := RemoveOne(scan, id, merged);
      announced' := announced + RemovalEvents(peers, scan, peerStaleAfter, id);
      ToldTwice(before, announced, old(Log()), RemovalEvents(peers, scan, peerStaleAfter, id), Log());
    }

    /** The second loop: what the scan did not find goes once it is stale. */
    method RemoveStale(scan: Scan, whole: Peers, ghost before: Channel, ghost found: seq<Event>)
      returns (merged: Peers, ghost announced: seq<Event>)
      requires Removing(peers, scan, peerStaleAfter, whole.Keys, whole, found) && InStep(whole)
      requires Told(before, found, Log())
      modifies `events, `attempted, `sent
      ensures Removing(peers, scan, peerStaleAfter, {}, merged, announced) && InStep(merged)
      ensures Told(before, announced, Log())
    {
      merged := whole;
      var ids := whole.Keys;
      announced := found;
      while ids != {}
        invariant Removing(peers, scan, peerStaleAfter, ids, merged, announced) && InStep(merged)
        invariant Told(before, announced, Log())
        decreases |ids|
      {
        var id := NextKey(ids);
        merged, announced := RemovalTurn(scan, id, ids, merged, before, announced);
        ids := ids - {id};
      }
    }

    /** Both loops, over a copy of the cache. */
    method MergeScan(scan: Scan) returns (merged: Peers, ghost announced: seq<Event>)
      requires Valid()
      modifies `events, `attempted, `sent
      ensures Removing(peers, scan, peerStaleAfter, {}, merged, announced) && InStep(merged)
      ensures Told(old(Log()), announced, Log())
    {
      ghost var found;
      merged, found := UpsertFound(scan);
      RemovingStart(peers, scan, peerStaleAfter, merged, found);
      merged, announced := RemoveStale(scan, merged, old(Log()), found);
    }

    /** Takes in one finished scan, and announces exactly what it changed. */
    method ApplySnapshot(next: Peers, now: int) returns (ghost announced: seq<Event>)
      requires Valid()
      modifies this
      ensures Valid()
      ensures peers == Merged(old(peers), Scan(next, now), peerStaleAfter)
      ensures Told(old(Log()), announced, Log())
      ensures Announce(announced, old(peers), Scan(next, now), ChangedIds(old(peers), Scan(next, now)),
                       StaleIds(old(peers), Scan(next, now), peerStaleAfter))
    {
      var merged;
      merged, announced := MergeScan(Scan(next, now));
      RemovingDone(peers, Scan(next, now), peerStaleAfter, merged, announced);
      peers := merged;
    }

    /** The consumer's end of the channel. */
    method Receive() returns (e: Option<Event>)
      requires Valid()
      modifies `events
      ensures Valid() && e == if old(events) == [] then None else Some(old(events)[0])
      ensures events == if old(events) == [] then [] else old(events)[1..]
    {
      if events == [] {
        return None;
      }
      e := Some(events[0]);
      events := events[1..];
    }
  }

  /** The window's own list of peers, rebuilt from the events. */
  class Controller {
    var discovered: Peers

    ghost predicate UpToDate(scanner: PeerScanner)
      reads this, scanner
    {
      scanner.Valid() && discovered == Replay(scanner.sent[..|scanner.sent| - |scanner.events|])
    }

    constructor (scanner: PeerScanner)
      requires scanner.Valid() && scanner.sent == [] && scanner.events == []
      ensures UpToDate(scanner)
    {
      discovered := map[];
    }

    /** One turn of the event loop. */
    method HandleEvent(e: Event)
      modifies this
      ensures discovered == Handled(old(discovered), e)
    {
      match e {
        case Upserted(peer) => discovered := discovered[peer.deviceID := peer];
        case Removed(peer) => discovered := discovered - {peer.deviceID};
      }
    }

    method HandleNext(scanner: PeerScanner)
      requires UpToDate(scanner) && scanner.events != []
      modifies this, scanner`events
      ensures UpToDate(scanner) && |scanner.events| == |old(scanner.events)| - 1
    {
      ReplayNext(scanner.sent, scanner.events);
      var e := scanner.Receive();
      HandleEvent(e.value);
    }

    /** Takes every waiting event. */
    method ReceiveAll(scanner: PeerScanner)
      requires UpToDate(scanner)
      modifies this, scanner`events
      ensures UpToDate(scanner) && scanner.events == []
    {
      while scanner.events != []
        invariant UpToDate(scanner)
        decreases |scanner.events|
      {
        HandleNext(scanner);
      }
    }

    /**
     Once every waiting event is taken, the list agrees with the scanner on a peer exactly when the last event sent for
     it says the same as the last one attempted; so it agrees on all of them if none was ever dropped.
     */
    method DrainEvents(scanner: PeerScanner)
      requires UpToDate(scanner)
      modifies this, scanner`events
      ensures UpToDate(scanner) && scanner.events == [] && discovered == Replay(scanner.sent)
      ensures forall id ::
        (AgreeOn(discovered, scanner.peers, id) <==>
         SaysSame(LastFor(scanner.sent, id), LastFor(scanner.attempted, id)))
      ensures scanner.sent == scanner.attempted ==> Agree(discovered, scanner.peers)
    {
      ReceiveAll(scanner);
      assert scanner.sent[..|scanner.sent|] == scanner.sent;
      AgreesEverywhereExactly(scanner.sent, scanner.attempted, scanner.peers);
    }
  }
}
