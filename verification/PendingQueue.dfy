/**
 The queue of messages waiting for a peer that is not connected (`enforceQueueLimits` in
 network/peer_manager.go over the messages table of storage/messages.go). Times are milliseconds.
 */
module PendingQueue {
  import opened Common

  const MAX_QUEUE_AGE := 7 * 24 * 60 * 60 * 1000
  const MAX_QUEUED_MESSAGES := 500
  const MAX_QUEUED_BYTES_PER_PEER := 50 * 1024 * 1024

  datatype Status = Pending | Sent | Delivered | Failed

  datatype Message = Message(id: Id, toPeer: Id, status: Status, sentAt: int, bytes: nat)

  datatype StoreError = MissingID | NotFound

  /** The messages table, by message id; an empty id is never saved. */
  type Table = table: map<Id, Message> | forall id :: id in table ==> table[id].id == id && id.text != ""

  function Waiting(table: Table, peer: Id): set<Id> {
    set id | id in table && table[id].status.Pending? && table[id].toPeer == peer
  }

  /** `DELIVERY_STATUS = failed` for every pending row older than the cutoff, for any peer. */
  function Expired(table: Table, cutoff: int): Table {
    map id | id in table ::
      if table[id].status.Pending? && table[id].sentAt < cutoff then table[id].(status := Failed) else table[id]
  }

  function Ids(s: seq<Message>): set<Id> {
    set i | 0 <= i < |s| :: s[i].id
  }

  function FailAll(table: Table, ids: set<Id>): Table {
    map id | id in table :: if id in ids then table[id].(status := Failed) else table[id]
  }

  function Bytes(s: seq<Message>): nat {
    if s == [] then 0 else s[0].bytes + Bytes(s[1..])
  }

  // ----- An ordered select -----------------------------------------------------------------

  ghost predicate Sorted(s: seq<Message>) {
    forall i, j :: 0 <= i < j < |s| ==> s[i].sentAt <= s[j].sentAt
  }

  ghost predicate Distinct(s: seq<Message>) {
    forall i, j :: 0 <= i < j < |s| ==> s[i].id != s[j].id
  }

  /** `s` is the rows with these ids, oldest first; rows of one time stand in any order. */
  ghost predicate Lists(s: seq<Message>, table: Table, ids: set<Id>) {
    && Sorted(s) && Distinct(s)
    && (forall m :: m in s ==> m.id in ids && m.id in table && table[m.id] == m)
    && (forall id :: id in ids ==> id in table && table[id] in s)
  }

  function Insert(s: seq<Message>, m: Message): seq<Message> {
    if s == [] || s[|s| - 1].sentAt <= m.sentAt then s + [m]
    else Insert(s[..|s| - 1], m) + [s[|s| - 1]]
  }

  lemma {:induction false} InsertKeepsElements(s: seq<Message>, m: Message)
    ensures |Insert(s, m)| == |s| + 1
    ensures forall x :: x in Insert(s, m) <==> x == m || x in s
  {
    if s == [] || s[|s| - 1].sentAt <= m.sentAt {
    } else {
      InsertKeepsElements(s[..|s| - 1], m);
      assert s == s[..|s| - 1] + [s[|s| - 1]];
    }
  }

  lemma {:induction false} InsertSorts(s: seq<Message>, m: Message)
    requires Sorted(s) && Distinct(s) && forall x :: x in s ==> x.id != m.id
    ensures Sorted(Insert(s, m)) && Distinct(Insert(s, m))
  {
    if s == [] || s[|s| - 1].sentAt <= m.sentAt {
    } else {
      var rest, last := s[..|s| - 1], s[|s| - 1];
      assert s == rest + [last];
      InsertSorts(rest, m);
      InsertKeepsElements(rest, m);
      forall i | 0 <= i < |Insert(rest, m)|
        ensures Insert(rest, m)[i].sentAt <= last.sentAt && Insert(rest, m)[i].id != last.id
      {
        assert Insert(rest, m)[i] in Insert(rest, m);
      }
    }
  }

  lemma InsertLists(s: seq<Message>, table: Table, ids: set<Id>, id: Id)
    requires Lists(s, table, ids) && id in table && id !in ids
    ensures Lists(Insert(s, table[id]), table, ids + {id})
  {
    InsertKeepsElements(s, table[id]);
    InsertSorts(s, table[id]);
  }

  lemma {:induction false} ListingExists(table: Table, ids: set<Id>) returns (s: seq<Message>)
    requires ids <= table.Keys
    ensures Lists(s, table, ids)
    decreases |ids|
  {
    if ids == {} {
      s := [];
    } else {
      var id :| id in ids;
      var rest := ListingExists(table, ids - {id});
      InsertLists(rest, table, ids - {id}, id);
      assert ids - {id} + {id} == ids;
      s := Insert(rest, table[id]);
    }
  }

  /** Two listings of the same rows hold the same bytes, whatever order ties stand in. */
  lemma {:induction false} SameRowsSameBytes(s: seq<Message>, t: seq<Message>)
    requires Distinct(s) && Distinct(t)
    requires forall m :: m in s <==> m in t
    ensures |s| == |t| && Bytes(s) == Bytes(t)
  {
    assert |t| > 0 ==> |s| > 0 by {
      if |t| > 0 { assert t[0] in t; }
    }
    if s == [] {
    } else {
      assert s[0] in t;
      var k :| 0 <= k < |t| && t[k] == s[0];
      BytesWithout(t, k);
      SameRowsLess(s, t, k);
      SameRowsSameBytes(s[1..], t[..k] + t[k + 1..]);
    }
  }

  lemma SameRowsLess(s: seq<Message>, t: seq<Message>, k: nat)
    requires Distinct(s) && Distinct(t)
    requires forall m :: m in s <==> m in t
    requires |s| > 0 && k < |t| && t[k] == s[0]
    ensures Distinct(s[1..]) && Distinct(t[..k] + t[k + 1..])
    ensures forall m: Message :: m in s[1..] <==> m in t[..k] + t[k + 1..]
  {
    DistinctWithout(t, k);
    assert s[..0] + s[1..] == s[1..];
    forall m: Message ensures m in s[1..] <==> m in t[..k] + t[k + 1..] {
      ElementWithout(s, 0, m);
      ElementWithout(t, k, m);
    }
  }

  lemma DistinctWithout(s: seq<Message>, k: nat)
    requires k < |s| && Distinct(s)
    ensures Distinct(s[..k] + s[k + 1..])
  {
  }

  lemma ElementWithout(s: seq<Message>, k: nat, m: Message)
    requires k < |s| && Distinct(s)
    ensures m in s[..k] + s[k + 1..] <==> m in s && m != s[k]
  {
    var fewer := s[..k] + s[k + 1..];
    assert s == s[..k] + [s[k]] + s[k + 1..];
    if m in fewer {
      var i :| 0 <= i < |fewer| && fewer[i] == m;
      assert m == s[if i < k then i else i + 1];
    }
  }

  lemma {:induction false} BytesWithout(s: seq<Message>, k: nat)
    requires k < |s|
    ensures Bytes(s) == Bytes(s[..k] + s[k + 1..]) + s[k].bytes
  {
    if k == 0 {
      assert s[..0] + s[1..] == s[1..];
    } else {
      BytesWithout(s[1..], k - 1);
      assert (s[..k] + s[k + 1..])[1..] == s[1..][..k - 1] + s[1..][k..];
    }
  }

  // ----- What a trim leaves ----------------------------------------------------------------

  predicate Fits(s: seq<Message>) {
    |s| <= MAX_QUEUED_MESSAGES && Bytes(s) <= MAX_QUEUED_BYTES_PER_PEER
  }

  /** `k` is the fewest of the oldest messages to drop so that the rest fits. */
  ghost predicate Fewest(s: seq<Message>, k: nat) {
    k <= |s| && Fits(s[k..]) && NoneFits(s, k)
  }

  ghost predicate NoneFits(s: seq<Message>, k: nat)
    requires k <= |s|
  {
    forall j :: 0 <= j < k ==> !Fits(s[j..])
  }

  /** One call at time `now` for one peer: the table it leaves, and how many it dropped. */
  ghost predicate Enforced(before: Table, peer: Id, now: int, after: Table, dropped: nat) {
    exists s: seq<Message> :: EnforcedOver(s, before, peer, now, after, dropped)
  }

  ghost predicate EnforcedOver(s: seq<Message>, before: Table, peer: Id, now: int, after: Table, dropped: nat) {
    var kept := Expired(before, now - MAX_QUEUE_AGE);
    Lists(s, kept, Waiting(kept, peer)) && Fewest(s, dropped) && after == FailAll(kept, Ids(s[..dropped]))
  }

  ghost predicate Acceptable(s: seq<Message>, now: int) {
    Fits(s) && forall m :: m in s ==> m.sentAt >= now - MAX_QUEUE_AGE
  }

  /** What still waits is listed by the suffix that was not dropped. */
  lemma SuffixStillWaits(s: seq<Message>, before: Table, peer: Id, now: int, after: Table, dropped: nat)
    requires EnforcedOver(s, before, peer, now, after, dropped)
    ensures Lists(s[dropped..], after, Waiting(after, peer))
  {
    var kept := Expired(before, now - MAX_QUEUE_AGE);
    DropFromListing(s, kept, Waiting(kept, peer), dropped);
    FailedDoNotWait(kept, Ids(s[..dropped]), peer);
    ListsInEither(s[dropped..], kept, after, Waiting(after, peer));
  }

  lemma SuffixElement(s: seq<Message>, k: nat, m: Message)
    requires Distinct(s) && k <= |s|
    ensures m in s[k..] <==> m in s && m.id !in Ids(s[..k])
  {
    var gone, left := s[..k], s[k..];
    assert s == gone + left;
    if m in left {
      var j :| 0 <= j < |left| && left[j] == m;
      assert s[k + j] == m;
    } else if m in s {
      var i :| 0 <= i < k && gone[i] == m;
      assert gone[i].id in Ids(gone);
    }
  }

  lemma DropFromListing(s: seq<Message>, table: Table, ids: set<Id>, k: nat)
    requires Lists(s, table, ids) && k <= |s|
    ensures Lists(s[k..], table, ids - Ids(s[..k]))
  {
    forall m: Message ensures m in s[k..] <==> m in s && m.id !in Ids(s[..k]) {
      SuffixElement(s, k, m);
    }
  }

  lemma FailedDoNotWait(table: Table, ids: set<Id>, peer: Id)
    ensures Waiting(FailAll(table, ids), peer) == Waiting(table, peer) - ids
    ensures forall id :: id in Waiting(FailAll(table, ids), peer) ==> FailAll(table, ids)[id] == table[id]
  {
  }

  lemma ListsInEither(s: seq<Message>, table: Table, table': Table, ids: set<Id>)
    requires Lists(s, table, ids)
    requires forall id :: id in ids ==> id in table' && table'[id] == table[id]
    ensures Lists(s, table', ids)
  {
  }

  /**
   Of all the messages that waited for the peer, oldest first, exactly the longest suffix waits on
   that has none older than 7 days, at most 500 messages and at most 50 MiB. What `dropped` counts are the ones that
   went although they were not too old.
   */
  lemma KeepsLongestSuffix(before: Table, peer: Id, now: int, after: Table, dropped: nat)
      returns (q: seq<Message>, k: nat)
    requires Enforced(before, peer, now, after, dropped)
    ensures Lists(q, before, set id | id in before && before[id].status.Pending? && before[id].toPeer == peer)
    ensures k <= |q|
    ensures Lists(q[k..], after, set id | id in after && after[id].status.Pending? && after[id].toPeer == peer)
    ensures dropped <= k && forall j :: 0 <= j < |q| ==> (j < k - dropped <==> q[j].sentAt < now - MAX_QUEUE_AGE)
    ensures Acceptable(q[k..], now) && forall j :: 0 <= j < k ==> !Acceptable(q[j..], now)
  {
    var cutoff := now - MAX_QUEUE_AGE;
    var s: seq<Message> :| EnforcedOver(s, before, peer, now, after, dropped);
    var stale := set id | id in Waiting(before, peer) && before[id].sentAt < cutoff;
    var e := ListingExists(before, stale);
    q, k := e + s, |e| + dropped;
    OldThenFresh(before, peer, cutoff, e, s);
    SuffixStillWaits(s, before, peer, now, after, dropped);
    assert q[k..] == s[dropped..];
    forall j | 0 <= j < |q| ensures j < k - dropped <==> q[j].sentAt < cutoff {
      assert if j < |e| then q[j] in e else q[j] in s;
    }
    forall j | 0 <= j < k ensures !Acceptable(q[j..], now) {
      LongerIsNotAcceptable(e, s, now, dropped, j);
    }
  }

  lemma LongerIsNotAcceptable(e: seq<Message>, s: seq<Message>, now: int, dropped: nat, j: nat)
    requires (forall m :: m in e ==> m.sentAt < now - MAX_QUEUE_AGE) && Fewest(s, dropped)
    requires j < |e| + dropped
    ensures !Acceptable((e + s)[j..], now)
  {
    if j < |e| {
      assert (e + s)[j..][0] == e[j] && e[j] in e;
    } else {
      assert (e + s)[j..] == s[j - |e|..];
    }
  }

  lemma OldThenFresh(before: Table, peer: Id, cutoff: int, e: seq<Message>, s: seq<Message>)
    requires Lists(e, before, set id | id in Waiting(before, peer) && before[id].sentAt < cutoff)
    requires Lists(s, Expired(before, cutoff), Waiting(Expired(before, cutoff), peer))
    ensures Lists(e + s, before, Waiting(before, peer))
    ensures forall m :: m in s ==> m.sentAt >= cutoff
    ensures forall m :: m in e ==> m.sentAt < cutoff
  {
    var kept := Expired(before, cutoff);
    forall m | m in s
      ensures m.sentAt >= cutoff && m.id in before && before[m.id] == m && m.id in Waiting(before, peer)
    {
      assert m.id in Waiting(kept, peer);
    }
    forall i, j | 0 <= i < |e| && 0 <= j < |s| ensures e[i].sentAt <= s[j].sentAt && e[i].id != s[j].id {
      assert e[i] in e && s[j] in s;
    }
  }

  lemma ExpiredOnce(before: Table, cutoff: int, ids: set<Id>)
    ensures var mid := FailAll(Expired(before, cutoff), ids); Expired(mid, cutoff) == mid && FailAll(mid, {}) == mid
  {
  }

  /** A second call at the same time finds nothing to drop. */
  lemma SecondCallDropsNothing(before: Table, peer: Id, now: int, mid: Table, dropped: nat, after: Table, again: nat)
    requires Enforced(before, peer, now, mid, dropped) && Enforced(mid, peer, now, after, again)
    ensures again == 0 && after == mid
  {
    var s: seq<Message> :| EnforcedOver(s, before, peer, now, mid, dropped);
    var t: seq<Message> :| EnforcedOver(t, mid, peer, now, after, again);
    ExpiredOnce(before, now - MAX_QUEUE_AGE, Ids(s[..dropped]));
    SuffixStillWaits(s, before, peer, now, mid, dropped);
    SameRowsSameBytes(s[dropped..], t);
    assert t[0..] == t;
    assert Ids(t[..0]) == {};
  }

  /** A call only ever turns waiting messages to failed, and other peers' only when they are too old. */
  lemma OnlyWaitingFails(before: Table, peer: Id, now: int, after: Table, dropped: nat, id: Id)
    requires Enforced(before, peer, now, after, dropped) && id in before
    ensures after.Keys == before.Keys
    ensures after[id] == before[id] || (before[id].status.Pending? && after[id] == before[id].(status := Failed))
    ensures before[id].toPeer != peer && after[id] != before[id] ==> before[id].sentAt < now - MAX_QUEUE_AGE
  {
    var s: seq<Message> :| EnforcedOver(s, before, peer, now, after, dropped);
    var kept := Expired(before, now - MAX_QUEUE_AGE);
    if id in Ids(s[..dropped]) {
      var i :| 0 <= i < dropped && s[i].id == id;
      assert s[i] in s;
    }
  }

  /** Whatever waited for more than 7 days fails, for any peer, and nothing that waited less for another peer does. */
  lemma EveryExpiredFails(before: Table, peer: Id, now: int, after: Table, dropped: nat, id: Id)
    requires Enforced(before, peer, now, after, dropped) && id in before && before[id].status.Pending?
    requires before[id].toPeer != peer || before[id].sentAt < now - 7 * 24 * 60 * 60 * 1000
    ensures id in after && after[id] ==
      if before[id].sentAt < now - 7 * 24 * 60 * 60 * 1000 then before[id].(status := Failed) else before[id]
  {
    OnlyWaitingFails(before, peer, now, after, dropped, id);
  }

  lemma FailOneMore(table: Table, s: seq<Message>, k: nat)
    requires k < |s|
    ensures var some, more := FailAll(table, Ids(s[..k])), FailAll(table, Ids(s[..k + 1]));
      more == if s[k].id in some then some[s[k].id := some[s[k].id].(status := Failed)] else some
  {
    assert Ids(s[..k + 1]) == Ids(s[..k]) + {s[k].id} by {
      forall i | 0 <= i <= k ensures s[i].id in Ids(s[..k + 1]) {
        assert s[..k + 1][i].id in Ids(s[..k + 1]);
      }
    }
  }

  /** One turn of the drop loop: the oldest message left becomes failed, and its bytes are taken off the total. */
  lemma DropStep(table: Table, s: seq<Message>, k: nat)
    requires k < |s| && NoneFits(s, k) && !Fits(s[k..])
    ensures NoneFits(s, k + 1) && Bytes(s[k..]) == s[k].bytes + Bytes(s[k + 1..])
    ensures var some, more := FailAll(table, Ids(s[..k])), FailAll(table, Ids(s[..k + 1]));
      more == if s[k].id in some then some[s[k].id := some[s[k].id].(status := Failed)] else some
  {
    assert s[k..][1..] == s[k + 1..];
    FailOneMore(table, s, k);
  }

  lemma NothingDropped(table: Table, s: seq<Message>)
    ensures FailAll(table, Ids(s[..0])) == table && s[0..] == s
  {
    assert Ids(s[..0]) == {};
  }

  // ----- The store and the loop ------------------------------------------------------------

  class Store {
    var messages: Table

    constructor ()
      ensures messages == map[]
    {
      messages := map[];
    }

    method PruneExpiredQueue(cutoff: int) returns (r: Result<nat, string>)
      modifies this
      ensures r.Ok? <==> cutoff > 0
      ensures messages == if cutoff > 0 then Expired(old(messages), cutoff) else old(messages)
      ensures r.Ok? ==>
        var stale := set id |
          id in old(messages) && old(messages)[id].status.Pending? && old(messages)[id].sentAt < cutoff;
        r.value == |stale|
    {
      if cutoff <= 0 {
        return Err("cutoff timestamp must be > 0");
      }
      var stale := set id | id in messages && messages[id].status.Pending? && messages[id].sentAt < cutoff;
      messages := Expired(messages, cutoff);
      return Ok(|stale|);
    }

    method GetPendingMessages(peer: Id) returns (r: Result<seq<Message>, string>)
      ensures r.Ok? <==> peer.text != ""
      ensures r.Ok? ==>
        Lists(r.value, messages, set id | id in messages && messages[id].status.Pending? && messages[id].toPeer == peer)
    {
      if peer.text == "" {
        return Err("peer_id is required");
      }
      var pending := [];
      var ids := messages.Keys;
      ghost var done: set<Id> := {};
      while ids != {}
        invariant ids <= messages.Keys && done == Waiting(messages, peer) - ids
        invariant Lists(pending, messages, done)
        decreases |ids|
      {
        var id :| id in ids;
        ids := ids - {id};
        if messages[id].status.Pending? && messages[id].toPeer == peer {
          InsertLists(pending, messages, done, id);
          pending := Insert(pending, messages[id]);
          done := done + {id};
        }
      }
      assert done == Waiting(messages, peer);
      return Ok(pending);
    }

    /** Trims what waits for one peer, and says how many messages it dropped for lack of room. */
    method EnforceQueueLimits(peer: Id, now: int) returns (r: Result<nat, string>)
      modifies this
      ensures peer.text == "" ==> r == Ok(0) && messages == old(messages)
      ensures peer.text != "" && now <= MAX_QUEUE_AGE ==> r.Err? && messages == old(messages)
      ensures peer.text != "" && now > MAX_QUEUE_AGE ==> r.Ok? && Enforced(old(messages), peer, now, messages, r.value)
    {
      if peer.text == "" {
        return Ok(0);
      }
      var pruned := PruneExpiredQueue(now - MAX_QUEUE_AGE);
      if pruned.Err? {
        return Err(pruned.error);
      }
      var listed := GetPendingMessages(peer);
      var pending := listed.value;
      ghost var kept := messages;
      var total := 0;
      for i := 0 to |pending|
        invariant total + Bytes(pending[i..]) == Bytes(pending)
      {
        assert pending[i..][1..] == pending[i + 1..];
        total := total + pending[i].bytes;
      }
      r := DropOldest(pending, total);
      assert EnforcedOver(pending, old(messages), peer, now, messages, r.value);
    }

    /** The drop loop: it stops before it would index past the end, as its total is always what is left. */
    method DropOldest(pending: seq<Message>, bytes: nat) returns (r: Result<nat, string>)
      requires bytes == Bytes(pending)
      requires forall m :: m in pending ==> m.id.text != ""
      modifies this
      ensures r.Ok? && Fewest(pending, r.value)
      ensures messages == FailAll(old(messages), Ids(pending[..r.value]))
    {
      var total, dropped := bytes, 0;
      NothingDropped(old(messages), pending);
      while |pending| - dropped > MAX_QUEUED_MESSAGES || total > MAX_QUEUED_BYTES_PER_PEER
        invariant dropped <= |pending| && total == Bytes(pending[dropped..])
        invariant NoneFits(pending, dropped)
        invariant messages == FailAll(old(messages), Ids(pending[..dropped]))
        decreases |pending| - dropped
      {
        var oldest := pending[dropped];
        DropStep(old(messages), pending, dropped);
        var updated := UpdateDeliveryStatus(oldest.id, Failed);
        if updated.Err? && updated.error != NotFound {
          return Err("message_id is required");
        }
        total := total - oldest.bytes;
        dropped := dropped + 1;
      }
      return Ok(dropped);
    }

    method UpdateDeliveryStatus(id: Id, status: Status) returns (r: Result<(), StoreError>)
      modifies this
      ensures r == (if id.text == "" then Err(MissingID) else if id in old(messages) then Ok(()) else Err(NotFound))
      ensures messages ==
        if id in old(messages) then old(messages)[id := old(messages)[id].(status := status)] else old(messages)
    {
      if id.text == "" {
        return Err(MissingID);
      }
      if id !in messages {
        return Err(NotFound);
      }
      messages := messages[id := messages[id].(status := status)];
      return Ok(());
    }
  }
}
