/**
 One snapshot with more new peers than the event channel holds: a peer is missing from the rebuilt list for good.
 */
module DiscoveryOverflow {
  import opened Common
  import opened DiscoveryCache

  /** The n-th peer; its id is n characters long. */
  function Name(n: nat): (id: Id)
    ensures |id.text| == n
  {
    Id(seq(n, _ => 'x'))
  }

  function NewPeer(n: nat): Peer {
    Peer(Name(n), Endpoint("", "", 0, "", 0, []), None)
  }

  /** The first n peers. */
  function NewPeers(n: nat): (peers: Peers)
    ensures |peers| == n
    ensures forall id :: id in peers ==> |id.text| < n
  {
    if n == 0 then map[] else NewPeers(n - 1)[Name(n - 1) := NewPeer(n - 1)]
  }

  /** The ids of the peers that these events are about. */
  function IdsOf(events: seq<Event>): (ids: set<Id>)
    ensures |ids| <= |events|
    ensures forall e :: e in events ==> e.peer.deviceID in ids
  {
    if events == [] then {} else IdsOf(events[..|events| - 1]) + {events[|events| - 1].peer.deviceID}
  }

  lemma {:induction false} ReplayedIsNamed(events: seq<Event>, id: Id)
    requires id in Replay(events)
    ensures id in IdsOf(events)
  {
    ReplayIsLast(events, id);
  }

  lemma FirstScan(scan: Scan, staleAfter: int)
    ensures ChangedIds(map[], scan) == scan.next.Keys && StaleIds(map[], scan, staleAfter) == {}
    ensures Merged(map[], scan, staleAfter) == scan.next
  {
  }

  /** With one event for each of more peers than there is room for, some peer has none among those that fit. */
  lemma SomeoneIsMissing(scan: Scan, staleAfter: int, announced: seq<Event>) returns (id: Id)
    requires |scan.next| > EVENT_CAPACITY
    requires Announce(announced, map[], scan, ChangedIds(map[], scan), StaleIds(map[], scan, staleAfter))
    ensures |announced| == |scan.next| && Merged(map[], scan, staleAfter) == scan.next
    ensures id in scan.next && id !in Replay(announced[..EVENT_CAPACITY])
  {
    FirstScan(scan, staleAfter);
    var named := IdsOf(announced[..EVENT_CAPACITY]);
    if scan.next.Keys <= named {
      Fewer(scan.next.Keys, named);
    }
    id :| id in scan.next.Keys && id !in named;
    if id in Replay(announced[..EVENT_CAPACITY]) {
      ReplayedIsNamed(announced[..EVENT_CAPACITY], id);
    }
  }

  lemma Fewer(a: set<Id>, b: set<Id>)
    requires a <= b
    ensures |a| <= |b|
  {
    assert b == a + (b - a);
  }

  /** A scan that finds the same again announces nothing. */
  lemma NothingNew(peers: Peers, now: int, staleAfter: int, announced: seq<Event>)
    requires Announce(announced, peers, Scan(peers, now), ChangedIds(peers, Scan(peers, now)),
                      StaleIds(peers, Scan(peers, now), staleAfter))
    ensures announced == [] && Merged(peers, Scan(peers, now), staleAfter) == peers
  {
    assert ChangedIds(peers, Scan(peers, now)) == {} && StaleIds(peers, Scan(peers, now), staleAfter) == {};
  }

  /** More new peers in one snapshot than the channel holds: one of them is missing from the window's list. */
  method Overflow(scanner: PeerScanner, window: Controller, found: Peers) returns (ghost id: Id)
    requires window.UpToDate(scanner) && scanner.peers == map[] && scanner.events == [] && scanner.sent == []
    requires |found| > EVENT_CAPACITY
    modifies scanner, window
    ensures window.UpToDate(scanner) && scanner.events == [] && window.discovered == Replay(scanner.sent)
    ensures scanner.peers == found && id in scanner.peers && id !in window.discovered
  {
    ghost var announced := scanner.ApplySnapshot(found, 0);
    id := SomeoneIsMissing(Scan(found, 0), scanner.peerStaleAfter, announced);
    assert scanner.sent == announced[..EVENT_CAPACITY];
    assert scanner.sent[..|scanner.sent| - |scanner.events|] == [];
    window.DrainEvents(scanner);
  }

  /** A scan that finds the same peers again leaves the window's list as it is. */
  method ScanAgain(scanner: PeerScanner, window: Controller, now: int)
    requires window.UpToDate(scanner) && scanner.events == [] && window.discovered == Replay(scanner.sent)
    modifies scanner, window
    ensures window.UpToDate(scanner) && scanner.events == [] && window.discovered == Replay(scanner.sent)
    ensures scanner.peers == old(scanner.peers) && window.discovered == old(window.discovered)
  {
    ghost var more := scanner.ApplySnapshot(scanner.peers, now);
    NothingNew(old(scanner.peers), now, scanner.peerStaleAfter, more);
    assert scanner.sent == old(scanner.sent);
    assert scanner.sent[..|scanner.sent| - |scanner.events|] == scanner.sent;
    window.DrainEvents(scanner);
  }

  /** It is still missing after any number of later scans that find the same peers. */
  method MissedForGood(found: Peers, staleAfter: int, rounds: nat)
    returns (scanner: PeerScanner, window: Controller, ghost id: Id)
    requires |found| > EVENT_CAPACITY
    ensures scanner.peers == found && id in scanner.peers && id !in window.discovered
    ensures window.UpToDate(scanner) && scanner.events == []
  {
    scanner := new PeerScanner(staleAfter);
    window := new Controller(scanner);
    id := Overflow(scanner, window, found);
    for round := 0 to rounds
      invariant fresh(scanner) && fresh(window)
      invariant scanner.peers == found && id !in window.discovered
      invariant window.UpToDate(scanner) && scanner.events == [] && window.discovered == Replay(scanner.sent)
    {
      ScanAgain(scanner, window, round);
    }
  }

  /** There are as many peers as that to be found. */
  lemma ManyPeers() returns (found: Peers)
    ensures |found| == EVENT_CAPACITY + 1
  {
    found := NewPeers(EVENT_CAPACITY + 1);
  }
}
