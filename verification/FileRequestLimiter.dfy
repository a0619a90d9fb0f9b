/**
 The per-peer limit on file requests (`allowFileRequest` in network/peer_manager.go): a sliding window that
 compacts its history and prunes the ids it has seen on every call, against a rule over the full log.
 */
module FileRequestLimiter {
  import opened Common

  // ----- The rule over everything that ever happened ---------------------------------------

  datatype Verdict = Admitted | Repeated | Refused

  /** One call for one peer: when, for which trimmed file id, and what was decided. */
  datatype Entry = Entry(time: int, id: Id, verdict: Verdict)

  /** The times after `cutoff`, in order. */
  function After(times: seq<int>, cutoff: int): seq<int> {
    if times == [] then []
    else After(times[..|times| - 1], cutoff) + if times[|times| - 1] > cutoff then [times[|times| - 1]] else []
  }

  /** When requests took a slot. */
  function SlotTimes(log: seq<Entry>): seq<int> {
    if log == [] then []
    else SlotTimes(log[..|log| - 1]) + if log[|log| - 1].verdict.Admitted? then [log[|log| - 1].time] else []
  }

  /** The id was let through, as a new request or a repeat, after `cutoff`. */
  predicate SeenSince(log: seq<Entry>, id: Id, cutoff: int) {
    exists e :: e in log && e.id == id && !e.verdict.Refused? && e.time > cutoff
  }

  function Decide(limit: int, window: int, log: seq<Entry>, id: Id, now: int): Verdict {
    if id.text != "" && SeenSince(log, id, now - window) then Repeated
    else if |After(SlotTimes(log), now - window)| >= limit then Refused
    else Admitted
  }

  /** A log that the rule made, with a clock that never goes back. */
  ghost predicate ByTheRule(limit: int, window: int, log: seq<Entry>) {
    log == [] ||
    var before, e := log[..|log| - 1], log[|log| - 1];
    && ByTheRule(limit, window, before)
    && (forall d :: d in before ==> d.time <= e.time)
    && e.verdict == Decide(limit, window, before, e.id, e.time)
  }

  // ----- What the manager keeps ------------------------------------------------------------

  /** What one peer's compacted history and pruned ids still have to say about the full log. */
  ghost predicate Remembers(history: seq<int>, seen: map<Id, int>, log: seq<Entry>, cutoff: int) {
    && (forall c :: c >= cutoff ==> After(history, c) == After(SlotTimes(log), c))
    && (forall id: Id, c :: c >= cutoff && id.text != "" ==> ((id in seen && seen[id] > c) <==> SeenSince(log, id, c)))
  }

  lemma {:induction false} AfterTwice(times: seq<int>, c: int, d: int)
    requires c <= d
    ensures After(After(times, c), d) == After(times, d)
  {
    if times != [] {
      var rest, t := times[..|times| - 1], times[|times| - 1];
      AfterTwice(rest, c, d);
      if t > c {
        AfterAppend(After(rest, c), t, d);
      } else {
        assert After(times, c) == After(rest, c) && After(times, d) == After(rest, d);
      }
    }
  }

  lemma AfterAppend(times: seq<int>, t: int, c: int)
    ensures After(times + [t], c) == After(times, c) + if t > c then [t] else []
  {
    assert (times + [t])[..|times|] == times;
  }

  lemma LogAppend(log: seq<Entry>, e: Entry)
    ensures SlotTimes(log + [e]) == SlotTimes(log) + if e.verdict.Admitted? then [e.time] else []
    ensures forall id, c ::
      (SeenSince(log + [e], id, c) <==> SeenSince(log, id, c) || (e.id == id && !e.verdict.Refused? && e.time > c))
  {
    assert (log + [e])[..|log|] == log;
    forall id, c | SeenSince(log, id, c) || (e.id == id && !e.verdict.Refused? && e.time > c)
      ensures SeenSince(log + [e], id, c)
    {
      if SeenSince(log, id, c) {
        var d :| d in log && d.id == id && !d.verdict.Refused? && d.time > c;
        assert d in log + [e];
      } else {
        assert e in log + [e];
      }
    }
  }

  /** The ids seen after `cutoff`. */
  function Pruned(seen: map<Id, int>, cutoff: int): map<Id, int> {
    map id | id in seen && seen[id] > cutoff :: seen[id]
  }

  /** The manager's own decision, from what it keeps. */
  function DecideKept(limit: int, window: int, history: seq<int>, seen: map<Id, int>, id: Id, now: int): Verdict {
    if id.text != "" && id in seen && seen[id] > now - window then Repeated
    else if |After(history, now - window)| >= limit then Refused
    else Admitted
  }

  /** It is the rule's. */
  lemma DecidesAsRule(limit: int, window: int, history: seq<int>, seen: map<Id, int>, log: seq<Entry>, last: int,
                      id: Id, now: int)
    requires Remembers(history, seen, log, last - window) && last <= now
    ensures Decide(limit, window, log, id, now) == DecideKept(limit, window, history, seen, id, now)
  {
  }

  /** What is kept of the history after a decision. */
  function HistoryAfter(history: seq<int>, e: Entry, window: int): seq<int> {
    After(history, e.time - window) + if e.verdict.Admitted? then [e.time] else []
  }

  /** What is kept of the ids after a decision. */
  function SeenAfter(seen: map<Id, int>, e: Entry, window: int): map<Id, int> {
    if e.id.text == "" then seen
    else if e.verdict.Refused? then Pruned(seen, e.time - window)
    else Pruned(seen, e.time - window)[e.id := e.time]
  }

  lemma HistoryRemembers(window: int, history: seq<int>, log: seq<Entry>, e: Entry, c: int)
    requires After(history, c) == After(SlotTimes(log), c)
    requires c >= e.time - window
    ensures After(HistoryAfter(history, e, window), c) == After(SlotTimes(log + [e]), c)
  {
    var kept := After(history, e.time - window);
    LogAppend(log, e);
    AfterTwice(history, e.time - window, c);
    if e.verdict.Admitted? {
      AfterAppend(kept, e.time, c);
      AfterAppend(SlotTimes(log), e.time, c);
    } else {
      assert kept + [] == kept && SlotTimes(log) + [] == SlotTimes(log);
    }
  }

  lemma SeenRemembers(window: int, seen: map<Id, int>, log: seq<Entry>, e: Entry, id: Id, c: int)
    requires (id in seen && seen[id] > c) <==> SeenSince(log, id, c)
    requires forall d :: d in log ==> d.time <= e.time
    requires c >= e.time - window && id.text != ""
    ensures (id in SeenAfter(seen, e, window) && SeenAfter(seen, e, window)[id] > c) <==> SeenSince(log + [e], id, c)
  {
    LogAppend(log, e);
  }

  /** What is kept after a decision remembers the log with that decision in it. */
  lemma KeepsRemembering(window: int, history: seq<int>, seen: map<Id, int>, log: seq<Entry>, last: int, e: Entry)
    requires Remembers(history, seen, log, last - window) && last <= e.time
    requires forall d :: d in log ==> d.time <= e.time
    ensures Remembers(HistoryAfter(history, e, window), SeenAfter(seen, e, window), log + [e], e.time - window)
  {
    var cutoff := e.time - window;
    forall c | c >= cutoff ensures After(HistoryAfter(history, e, window), c) == After(SlotTimes(log + [e]), c) {
      HistoryRemembers(window, history, log, e, c);
    }
    var seen' := SeenAfter(seen, e, window);
    forall id: Id, c | c >= cutoff && id.text != ""
      ensures (id in seen' && seen'[id] > c) <==> SeenSince(log + [e], id, c)
    {
      SeenRemembers(window, seen, log, e, id, c);
    }
  }

  // ----- What the rule guarantees ----------------------------------------------------------

  /** How many requests took a slot in the interval (lo, hi]. */
  function SlotsIn(log: seq<Entry>, lo: int, hi: int): nat {
    if log == [] then 0
    else
      var e := log[|log| - 1];
      SlotsIn(log[..|log| - 1], lo, hi) + if e.verdict.Admitted? && lo < e.time <= hi then 1 else 0
  }

  lemma {:induction false} SlotsInIsAfter(log: seq<Entry>, lo: int, hi: int)
    requires forall e :: e in log ==> e.time <= hi
    ensures SlotsIn(log, lo, hi) == |After(SlotTimes(log), lo)|
  {
    if log != [] {
      var before, e := log[..|log| - 1], log[|log| - 1];
      SlotsInIsAfter(before, lo, hi);
      if e.verdict.Admitted? {
        AfterAppend(SlotTimes(before), e.time, lo);
      } else {
        assert SlotTimes(log) == SlotTimes(before);
      }
    }
  }

  lemma {:induction false} SlotsInNarrows(log: seq<Entry>, lo: int, lo': int, hi: int, hi': int)
    requires lo <= lo' && hi' <= hi
    ensures SlotsIn(log, lo', hi') <= SlotsIn(log, lo, hi)
  {
    if log != [] { SlotsInNarrows(log[..|log| - 1], lo, lo', hi, hi'); }
  }

  /** No interval of one window's length holds more than `limit` requests that took a slot. */
  lemma {:induction false} WindowHoldsLimit(limit: int, window: int, log: seq<Entry>, t: int)
    requires limit >= 0 && ByTheRule(limit, window, log)
    ensures SlotsIn(log, t - window, t) <= limit
  {
    if log != [] {
      var before, e := log[..|log| - 1], log[|log| - 1];
      WindowHoldsLimit(limit, window, before, t);
      if e.verdict.Admitted? && t - window < e.time <= t {
        SlotsInIsAfter(before, e.time - window, e.time);
        SlotsInNarrows(before, e.time - window, t - window, e.time, e.time);
        SlotsInSame(before, t - window, e.time, t);
      }
    }
  }

  lemma {:induction false} SlotsInSame(log: seq<Entry>, lo: int, hi: int, hi': int)
    requires hi <= hi' && forall e :: e in log ==> e.time <= hi
    ensures SlotsIn(log, lo, hi) == SlotsIn(log, lo, hi')
  {
    if log != [] {
      assert log[|log| - 1] in log;
      SlotsInSame(log[..|log| - 1], lo, hi, hi');
    }
  }

  lemma {:induction false} RulePrefix(limit: int, window: int, log: seq<Entry>, k: nat)
    requires ByTheRule(limit, window, log) && k <= |log|
    ensures ByTheRule(limit, window, log[..k])
  {
    if k == |log| {
      assert log[..k] == log;
    } else {
      assert log[..|log| - 1][..k] == log[..k];
      RulePrefix(limit, window, log[..|log| - 1], k);
    }
  }

  /** A request that took no slot repeats an id that was let through within the last window. */
  lemma RepeatHasOriginal(limit: int, window: int, log: seq<Entry>, k: nat) returns (j: nat)
    requires ByTheRule(limit, window, log) && k < |log| && log[k].verdict.Repeated?
    ensures j < k && log[j].id == log[k].id && !log[j].verdict.Refused?
    ensures log[k].time - window < log[j].time <= log[k].time
  {
    RulePrefix(limit, window, log, k + 1);
    assert log[..k + 1][..k] == log[..k];
    var e :| e in log[..k] && e.id == log[k].id && !e.verdict.Refused? && e.time > log[k].time - window;
    j :| 0 <= j < k && log[j] == e;
  }

  /** One more entry, with the verdict of the rule. */
  lemma RuleGoesOn(limit: int, window: int, log: seq<Entry>, e: Entry)
    requires ByTheRule(limit, window, log) && forall d :: d in log ==> d.time <= e.time
    requires e.verdict == Decide(limit, window, log, e.id, e.time)
    ensures ByTheRule(limit, window, log + [e])
  {
    assert (log + [e])[..|log|] == log;
  }

  /**
   A call is a repeat exactly if its id was let through in the last window, and is refused exactly if it is not one
   and `limit` requests took a slot in that window.
   */
  lemma JudgedExactly(limit: int, window: int, log: seq<Entry>, id: Id, now: int)
    requires forall e :: e in log ==> e.time <= now
    ensures var verdict := Decide(limit, window, log, id, now);
      var repeats := id.text != "" && exists k :: 0 <= k < |log| && log[k].id == id && !log[k].verdict.Refused?
                                                  && log[k].time > now - window;
      && (verdict.Repeated? <==> repeats)
      && (verdict.Refused? <==> !repeats && SlotsIn(log, now - window, now) >= limit)
  {
    SlotsInIsAfter(log, now - window, now);
    if SeenSince(log, id, now - window) {
      var e :| e in log && e.id == id && !e.verdict.Refused? && e.time > now - window;
      var k :| 0 <= k < |log| && log[k] == e;
    }
  }

  /** While there is room, a request without an id takes a slot. */
  lemma OneMoreSlot(limit: int, window: int, log: seq<Entry>, t: int) returns (log': seq<Entry>)
    requires ByTheRule(limit, window, log) && window > 0 && SlotsIn(log, t - window, t) < limit
    requires forall e :: e in log ==> e.time <= t
    ensures ByTheRule(limit, window, log') && log' == log + [Entry(t, Id(""), Admitted)]
    ensures SlotsIn(log', t - window, t) == SlotsIn(log, t - window, t) + 1
  {
    JudgedExactly(limit, window, log, Id(""), t);
    log' := log + [Entry(t, Id(""), Admitted)];
    RuleGoesOn(limit, window, log, log'[|log|]);
    assert log'[..|log|] == log;
  }

  /** The bound is reached: for every limit some run by the rule fills a window to the last slot. */
  lemma {:induction false} LimitIsReached(limit: int, window: int, n: nat, t: int) returns (log: seq<Entry>)
    requires n <= limit && window > 0
    ensures ByTheRule(limit, window, log) && |log| == n && SlotsIn(log, t - window, t) == n
    ensures forall e :: e in log ==> e.time == t && e.verdict.Admitted?
  {
    if n == 0 {
      log := [];
    } else {
      log := LimitIsReached(limit, window, n - 1, t);
      log := OneMoreSlot(limit, window, log, t);
    }
  }

  // ----- The limiter in place --------------------------------------------------------------

  /** What holds of one peer between calls; `clock` is the time of the last call for any peer. */
  ghost predicate PeerOk(limit: int, window: int, history: seq<int>, seen: map<Id, int>, log: seq<Entry>, clock: int) {
    && Remembers(history, seen, log, clock - window)
    && ByTheRule(limit, window, log)
    && (forall e :: e in log ==> e.time <= clock)
  }

  lemma PeerOkAges(limit: int, window: int, history: seq<int>, seen: map<Id, int>, log: seq<Entry>, clock: int,
                   later: int)
    requires PeerOk(limit, window, history, seen, log, clock) && clock <= later
    ensures PeerOk(limit, window, history, seen, log, later)
  {
  }

  /** One decision, and what is kept after it. */
  lemma PeerOkStep(limit: int, window: int, history: seq<int>, seen: map<Id, int>, log: seq<Entry>, clock: int,
                   e: Entry)
    requires PeerOk(limit, window, history, seen, log, clock) && clock <= e.time
    requires e.verdict == DecideKept(limit, window, history, seen, e.id, e.time)
    ensures e.verdict == Decide(limit, window, log, e.id, e.time)
    ensures PeerOk(limit, window, HistoryAfter(history, e, window), SeenAfter(seen, e, window), log + [e], e.time)
  {
    assert (log + [e])[..|log|] == log;
    DecidesAsRule(limit, window, history, seen, log, clock, e.id, e.time);
    KeepsRemembering(window, history, seen, log, clock, e);
  }

  function HistoryOf(histories: map<Id, seq<int>>, peer: Id): seq<int> {
    if peer in histories then histories[peer] else []
  }

  function SeenOf(ids: map<Id, map<Id, int>>, peer: Id): map<Id, int> {
    if peer in ids then ids[peer] else map[]
  }

  function LogOf(logs: map<Id, seq<Entry>>, peer: Id): seq<Entry> {
    if peer in logs then logs[peer] else []
  }

  ghost predicate AllOk(limit: int, window: int, histories: map<Id, seq<int>>, ids: map<Id, map<Id, int>>,
                        logs: map<Id, seq<Entry>>, clock: int) {
    forall peer: Id {:trigger HistoryOf(histories, peer)} ::
      PeerOk(limit, window, HistoryOf(histories, peer), SeenOf(ids, peer), LogOf(logs, peer), clock)
  }

  lemma OthersStay(histories: map<Id, seq<int>>, ids: map<Id, map<Id, int>>, logs: map<Id, seq<Entry>>, peer: Id,
                   history: seq<int>, seen: map<Id, int>, log: seq<Entry>, ids': map<Id, map<Id, int>>, other: Id)
    requires ids' == if |seen| == 0 then ids - {peer} else ids[peer := seen]
    ensures other != peer ==>
      && HistoryOf(histories[peer := history], other) == HistoryOf(histories, other)
      && SeenOf(ids', other) == SeenOf(ids, other) && LogOf(logs[peer := log], other) == LogOf(logs, other)
    ensures SeenOf(ids', peer) == seen
  {
  }

  /** Storing one peer's state keeps every peer's: the others only see the clock move on. */
  lemma StoreKeepsAll(limit: int, window: int, histories: map<Id, seq<int>>, ids: map<Id, map<Id, int>>,
                      logs: map<Id, seq<Entry>>, clock: int, peer: Id, history: seq<int>, seen: map<Id, int>,
                      log: seq<Entry>, later: int, ids': map<Id, map<Id, int>>)
    requires AllOk(limit, window, histories, ids, logs, clock) && clock <= later
    requires PeerOk(limit, window, history, seen, log, later)
    requires ids' == if |seen| == 0 then ids - {peer} else ids[peer := seen]
    ensures AllOk(limit, window, histories[peer := history], ids', logs[peer := log], later)
  {
    var histories', logs' := histories[peer := history], logs[peer := log];
    forall other: Id
      ensures PeerOk(limit, window, HistoryOf(histories', other), SeenOf(ids', other), LogOf(logs', other), later)
    {
      OthersStay(histories, ids, logs, peer, history, seen, log, ids', other);
      if other != peer {
        PeerOkAges(limit, window, HistoryOf(histories, other), SeenOf(ids, other), LogOf(logs, other), clock, later);
      }
    }
  }

  class Limiter {
    const limit: int
    const window: int
    var fileRequestHistory: map<Id, seq<int>>
    var fileRequestSeenIDs: map<Id, map<Id, int>>
    // Everything that ever happened, per peer, and the time of the last call.
    ghost var logs: map<Id, seq<Entry>>
    ghost var clock: int

    ghost predicate Valid()
      reads this
    {
      AllOk(limit, window, fileRequestHistory, fileRequestSeenIDs, logs, clock)
    }

    constructor (limit: int, window: int)
      ensures Valid() && this.limit == limit && this.window == window
      ensures logs == map[]
    {
      this.limit, this.window := limit, window;
      fileRequestHistory, fileRequestSeenIDs := map[], map[];
      logs, clock := map[], 0;
    }

    /** Compaction inside the history's own buffer: what is kept is written over what was read. */
    static method Compact(history: seq<int>, cutoff: int) returns (filtered: seq<int>)
      ensures filtered == After(history, cutoff)
    {
      var buffer, kept := history, 0;
      for i := 0 to |history|
        invariant kept <= i && |buffer| == |history|
        invariant buffer[..kept] == After(history[..i], cutoff)
        invariant buffer[i..] == history[i..]
      {
        assert history[..i + 1][..i] == history[..i];
        assert buffer[i] == buffer[i..][0] == history[i];
        if buffer[i] > cutoff {
          ghost var before := buffer;
          buffer := buffer[kept := buffer[i]];
          kept := kept + 1;
          assert buffer[..kept] == before[..kept - 1] + [history[i]];
        }
      }
      assert history[..|history|] == history;
      return buffer[..kept];
    }

    static method Prune(seen: map<Id, int>, cutoff: int) returns (kept: map<Id, int>)
      ensures kept == map id | id in seen && seen[id] > cutoff :: seen[id]
    {
      kept := seen;
      var keys := seen.Keys;
      while keys != {}
        invariant keys <= seen.Keys
        invariant forall id :: id in kept <==> id in seen && (id in keys || seen[id] > cutoff)
        invariant forall id :: id in kept ==> kept[id] == seen[id]
        decreases |keys|
      {
        var id :| id in keys;
        keys := keys - {id};
        if !(seen[id] > cutoff) {
          kept := kept - {id};
        }
      }
    }

    /** The decision for one peer, and what is kept of it afterwards. */
    static method Judge(limit: int, window: int, history: seq<int>, seen: map<Id, int>, id: Id, now: int,
                        ghost log: seq<Entry>, ghost clock: int)
      returns (verdict: Verdict, filtered: seq<int>, kept: map<Id, int>)
      requires PeerOk(limit, window, history, seen, log, clock) && clock <= now
      ensures verdict == Decide(limit, window, log, id, now)
      ensures PeerOk(limit, window, filtered, kept, log + [Entry(now, id, verdict)], now)
    {
      var cutoff := now - window;
      filtered := Compact(history, cutoff);
      kept := seen;
      if id.text != "" {
        kept := Prune(seen, cutoff);
      }
      if id.text != "" && id in kept && kept[id] > cutoff {
        kept := kept[id := now];
        verdict := Repeated;
      } else if |filtered| >= limit {
        verdict := Refused;
      } else {
        filtered := filtered + [now];
        if id.text != "" {
          kept := kept[id := now];
        }
        verdict := Admitted;
      }
      ghost var e := Entry(now, id, verdict);
      assert filtered == HistoryAfter(history, e, window) && kept == SeenAfter(seen, e, window);
      PeerOkStep(limit, window, history, seen, log, clock, e);
    }

    /** Decides one request, exactly as the rule over the full log does. */
    method Allow(peer: Id, fileID: Id, now: int) returns (allowed: bool)
      requires Valid() && now >= clock
      modifies this
      ensures Valid()
      ensures peer.text == "" ==> !allowed
      ensures peer.text != "" && (limit <= 0 || window <= 0) ==> allowed
      ensures peer.text == "" || limit <= 0 || window <= 0 ==> logs == old(logs) && clock == old(clock)
      ensures peer.text != "" && limit > 0 && window > 0 ==>
        var verdict := Decide(limit, window, LogOf(old(logs), peer), fileID.Trimmed(), now);
        && allowed == !verdict.Refused?
        && logs == old(logs)[peer := LogOf(old(logs), peer) + [Entry(now, fileID.Trimmed(), verdict)]]
        && clock == now
    {
      if peer.text == "" {
        return false;
      }
      if limit <= 0 || window <= 0 {
        return true;
      }
      var id := fileID.Trimmed();
      ghost var log := LogOf(logs, peer);
      var verdict, filtered, kept := Judge(limit, window, HistoryOf(fileRequestHistory, peer),
                                           SeenOf(fileRequestSeenIDs, peer), id, now, log, clock);
      log := log + [Entry(now, id, verdict)];
      var ids := if |kept| == 0 then fileRequestSeenIDs - {peer} else fileRequestSeenIDs[peer := kept];
      StoreKeepsAll(limit, window, fileRequestHistory, fileRequestSeenIDs, logs, clock, peer, filtered, kept, log, now,
                    ids);
      fileRequestHistory := fileRequestHistory[peer := filtered];
      fileRequestSeenIDs := ids;
      logs, clock := logs[peer := log], now;
      return !verdict.Refused?;
    }
  }
}
