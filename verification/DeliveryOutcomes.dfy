/**
 What becomes of one incoming message, check by check (network/peer_manager.go, 1055-1151); and that nothing is
 delivered in any run but a message that passed them all.
 */
module DeliveryOutcomes {
  import opened Common
  import opened MessageDelivery

  const FIVE_MINUTES := 300_000_000_000
  const TWO_WEEKS := 1_209_600_000_000_000

  /** The sequence number of a message is used up exactly by these checks, whatever the later ones find. */
  lemma CountedExactly(box: Inbox, self: Id, peer: Id, m: Incoming, now: int, later: int)
    ensures var box', ahead := Apply(box, self, Arrive(peer, m, now, later)), m.timestamp * 1_000_000 - now;
      box'.lastSeen ==
        if && m.id.text != "" && peer.text != "" && self.text != ""
           && m.fromPeer == peer && m.toPeer == self
           && m.timestamp != 0
           && (-FIVE_MINUTES <= ahead <= FIVE_MINUTES || ahead >= 0x8000_0000_0000_0000)
           && m.sequence > 0
           && (peer in box.lastSeen ==> m.sequence > box.lastSeen[peer])
        then box.lastSeen[peer := m.sequence]
        else box.lastSeen
  {
    SkewExactly(m.timestamp, now);
  }

  /**
   A message is delivered, stored and remembered exactly if it passes every check; otherwise none of the three
   happens.
   */
  lemma DeliveredExactly(box: Inbox, self: Id, peer: Id, m: Incoming, now: int, later: int)
    ensures var box', ahead := Apply(box, self, Arrive(peer, m, now, later)), m.timestamp * 1_000_000 - now;
      if && m.id.text != "" && peer.text != "" && self.text != ""
         && m.fromPeer == peer && m.toPeer == self
         && m.timestamp != 0
         && (-FIVE_MINUTES <= ahead <= FIVE_MINUTES || ahead >= 0x8000_0000_0000_0000)
         && m.sequence > 0
         && (peer in box.lastSeen ==> m.sequence > box.lastSeen[peer])
         && m.id !in box.seen && m.id !in box.rows
         && m.decodes && m.signed && m.opens
         && m.text != "" && m.kindKnown
      then
        && box'.delivered == box.delivered + [Delivery(m.id, m.timestamp, now, later / 1_000_000)]
        && box'.rows == box.rows + {m.id}
        && box'.seen == box.seen[m.id := later / 1_000_000]
      else
        box'.delivered == box.delivered && box'.rows == box.rows && box'.seen == box.seen
  {
    SkewExactly(m.timestamp, now);
  }

  /** Every delivery of a run stems from an arrival whose message passed every check on its content. */
  lemma {:induction false} DeliveredStems(self: Id, start: int, events: seq<Event>, i: nat) returns (k: nat)
    requires i < |Run(self, start, events).delivered|
    ensures k < |events| && events[k].Arrive?
    ensures var m, peer := events[k].m, events[k].peer;
      && m.signed && m.decodes && m.opens && m.kindKnown && m.text != ""
      && m.id.text != "" && peer.text != "" && self.text != "" && m.fromPeer == peer && m.toPeer == self
    ensures var e := events[k];
      Run(self, start, events).delivered[i] == Delivery(e.m.id, e.m.timestamp, e.now, e.later / 1_000_000)
  {
    var before, e := events[..|events| - 1], events[|events| - 1];
    var box := Run(self, start, before);
    if i < |box.delivered| {
      k := DeliveredStems(self, start, before, i);
      assert before[k] == events[k];
      if e.Arrive? { DeliveredExactly(box, self, e.peer, e.m, e.now, e.later); }
    } else {
      k := |events| - 1;
      DeliveredExactly(box, self, e.peer, e.m, e.now, e.later);
    }
  }

  /** What was delivered once stays delivered, and in its place. */
  lemma {:induction false} DeliveredStays(self: Id, start: int, events: seq<Event>, k: nat)
    requires k <= |events|
    ensures Run(self, start, events[..k]).delivered <= Run(self, start, events).delivered
  {
    if k == |events| {
      assert events[..k] == events;
    } else {
      var before, e := events[..|events| - 1], events[|events| - 1];
      assert before[..k] == events[..k];
      DeliveredStays(self, start, before, k);
      if e.Arrive? { DeliveredExactly(Run(self, start, before), self, e.peer, e.m, e.now, e.later); }
    }
  }

  /** Maintenance forgets exactly the ids older than two weeks, on a clock more than two weeks past 1970. */
  lemma PrunedExactly(box: Inbox, self: Id, now: int, id: Id)
    ensures var box', cutoff := Apply(box, self, Prune(now)), (now - TWO_WEEKS) / 1_000_000;
      && (id in box'.seen <==> id in box.seen && (cutoff > 0 ==> box.seen[id] >= cutoff))
      && (id in box'.seen ==> box'.seen[id] == box.seen[id])
      && box'.rows == box.rows && box'.delivered == box.delivered && box'.lastSeen == box.lastSeen
  {
  }

  /** A deleted row is gone but still remembered: the same message arriving again is not delivered. */
  lemma DeletedIsRemembered(box: Inbox, self: Id, ids: set<Id>, peer: Id, m: Incoming, now: int, later: int)
    requires m.id in box.seen
    ensures var cleared := Apply(box, self, Delete(ids));
      && (forall id :: id in cleared.rows <==> id in box.rows && id !in ids)
      && Apply(cleared, self, Arrive(peer, m, now, later)).delivered == box.delivered
  {
    DeliveredExactly(Apply(box, self, Delete(ids)), self, peer, m, now, later);
  }

  /** On a new connection a peer counts from one again; the sequences of other peers go on. */
  lemma ConnectedCountsAnew(box: Inbox, self: Id, peer: Id, other: Id)
    ensures var box' := Apply(box, self, Connect(peer));
      && peer in box'.lastSeen && box'.lastSeen[peer] == 0
      && (other != peer ==> (other in box'.lastSeen <==> other in box.lastSeen))
      && (other != peer && other in box.lastSeen ==> box'.lastSeen[other] == box.lastSeen[other])
      && box'.rows == box.rows && box'.delivered == box.delivered && box'.seen == box.seen
  {
  }
}
