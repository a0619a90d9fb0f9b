/**
 The inbound connection limit per address (`allowInboundConnection` and `pruneConnectionRateEntries` in
 network/server.go): a fixed window that restarts at the first call after it ran out, over a table that forgets
 addresses idle for more than four windows. Times are nanoseconds.
 */
module ConnectionLimiter {
  import opened Common

  const SECOND := 1_000_000_000

  /** One address: when its window started, the admissions counted in it, and its last call. */
  datatype Rate = Rate(windowStart: int, count: int, lastSeen: int)

  type Table = map<Id, Rate>

  /** The window a call at `now` falls into. */
  function Renewed(entry: Option<Rate>, window: int, now: int): Rate {
    if entry.None? || now - entry.value.windowStart >= window then Rate(now, 0, now)
    else entry.value.(lastSeen := now)
  }

  function Counted(rate: Rate, limit: int): Rate {
    if rate.count >= limit then rate else rate.(count := rate.count + 1)
  }

  function Lookup(table: Table, ip: Id): Option<Rate> {
    if ip in table then Some(table[ip]) else None
  }

  // ----- The limiter that never forgets ----------------------------------------------------

  /** One counted call: when, from where, and whether it was let in. */
  datatype Call = Call(time: int, ip: Id, admitted: bool)

  /** The table after the calls, had nothing ever been dropped from it. */
  function FullTable(limit: int, window: int, calls: seq<Call>): Table {
    if calls == [] then map[]
    else
      var before, call := FullTable(limit, window, calls[..|calls| - 1]), calls[|calls| - 1];
      before[call.ip := Counted(Renewed(Lookup(before, call.ip), window, call.time), limit)]
  }

  predicate Admits(limit: int, window: int, table: Table, ip: Id, now: int) {
    Renewed(Lookup(table, ip), window, now).count < limit
  }

  /** Calls with a clock that never goes back, decided by the limiter that never forgets. */
  ghost predicate ByTheRule(limit: int, window: int, calls: seq<Call>) {
    calls == [] ||
    var before, call := calls[..|calls| - 1], calls[|calls| - 1];
    && ByTheRule(limit, window, before)
    && (before != [] ==> before[|before| - 1].time <= call.time)
    && call.admitted == Admits(limit, window, FullTable(limit, window, before), call.ip, call.time)
  }

  // ----- The pruned table decides the same -------------------------------------------------

  function Pruned(table: Table, now: int, maxAge: int): Table {
    map ip | ip in table && now - table[ip].lastSeen <= maxAge :: table[ip]
  }

  /** Each address is kept as the full table has it, or was idle for at least a window at time `now`. */
  ghost predicate Stands(window: int, table: Table, full: Table, now: int) {
    && (forall ip :: ip in table ==> ip in full && table[ip] == full[ip])
    && (forall ip :: ip in full && ip !in table ==> full[ip].windowStart <= now - window)
  }

  ghost predicate InOrder(full: Table, now: int) {
    forall ip :: ip in full ==> full[ip].windowStart <= full[ip].lastSeen <= now
  }

  lemma DecidesAsFull(window: int, table: Table, full: Table, ip: Id, now: int)
    requires window > 0 && Stands(window, table, full, now)
    ensures Renewed(Lookup(table, ip), window, now) == Renewed(Lookup(full, ip), window, now)
  {
  }

  lemma StandsAges(window: int, table: Table, full: Table, now: int, later: int)
    requires Stands(window, table, full, now) && InOrder(full, now) && now <= later
    ensures Stands(window, table, full, later) && InOrder(full, later)
  {
  }

  lemma PruningStands(window: int, table: Table, full: Table, now: int, pruned: Table)
    requires window > 0 && Stands(window, table, full, now) && InOrder(full, now)
    requires pruned == table || pruned == Pruned(table, now, window * 4)
    ensures Stands(window, pruned, full, now)
  {
  }

  /** One more call, counted in both tables. */
  lemma CallStands(limit: int, window: int, table: Table, full: Table, calls: seq<Call>, call: Call)
    requires window > 0 && full == FullTable(limit, window, calls)
    requires Stands(window, table, full, call.time) && InOrder(full, call.time)
    ensures var entry := Counted(Renewed(Lookup(table, call.ip), window, call.time), limit);
      var full' := FullTable(limit, window, calls + [call]);
      && Stands(window, table[call.ip := entry], full', call.time)
      && InOrder(full', call.time)
      && Admits(limit, window, table, call.ip, call.time) == Admits(limit, window, full, call.ip, call.time)
  {
    assert (calls + [call])[..|calls|] == calls;
    DecidesAsFull(window, table, full, call.ip, call.time);
  }

  /** What holds of the pruned table between calls; `clock` is the time of the last one. */
  ghost predicate Kept(limit: int, window: int, table: Table, calls: seq<Call>, clock: int) {
    && Stands(window, table, FullTable(limit, window, calls), clock)
    && InOrder(FullTable(limit, window, calls), clock)
    && ByTheRule(limit, window, calls)
    && (calls != [] ==> calls[|calls| - 1].time <= clock)
  }

  /** Pruning and one more call. */
  lemma CallKept(limit: int, window: int, table: Table, calls: seq<Call>, clock: int, pruned: Table, call: Call)
    requires window > 0 && Kept(limit, window, table, calls, clock) && clock <= call.time
    requires pruned == table || pruned == Pruned(table, call.time, window * 4)
    requires call.admitted == Admits(limit, window, pruned, call.ip, call.time)
    ensures call.admitted == Admits(limit, window, FullTable(limit, window, calls), call.ip, call.time)
    ensures var entry := Counted(Renewed(Lookup(pruned, call.ip), window, call.time), limit);
      Kept(limit, window, pruned[call.ip := entry], calls + [call], call.time)
  {
    var full := FullTable(limit, window, calls);
    StandsAges(window, table, full, clock, call.time);
    PruningStands(window, table, full, call.time, pruned);
    CallStands(limit, window, pruned, full, calls, call);
    assert (calls + [call])[..|calls|] == calls;
  }

  // ----- How many get in -------------------------------------------------------------------

  /** Admissions from one address in the interval (lo, hi]. */
  function AdmittedIn(calls: seq<Call>, ip: Id, lo: int, hi: int): nat {
    if calls == [] then 0
    else
      var call := calls[|calls| - 1];
      var counts := call.admitted && call.ip == ip && lo < call.time <= hi;
      AdmittedIn(calls[..|calls| - 1], ip, lo, hi) + if counts then 1 else 0
  }

  lemma {:induction false} TimesInOrder(limit: int, window: int, calls: seq<Call>, hi: int)
    requires ByTheRule(limit, window, calls)
    requires calls != [] ==> calls[|calls| - 1].time <= hi
    ensures forall call :: call in calls ==> call.time <= hi
  {
    if calls != [] {
      var before := calls[..|calls| - 1];
      TimesInOrder(limit, window, before, calls[|calls| - 1].time);
      assert calls == before + [calls[|calls| - 1]];
    }
  }

  lemma {:induction false} NothingAfter(calls: seq<Call>, ip: Id, lo: int, hi: int)
    requires forall call :: call in calls ==> call.time <= lo
    ensures AdmittedIn(calls, ip, lo, hi) == 0
  {
    if calls != [] {
      assert calls[|calls| - 1] in calls;
      NothingAfter(calls[..|calls| - 1], ip, lo, hi);
    }
  }

  /** What the current window says about the admissions after `lo`, for any `lo` less than a window before it. */
  ghost predicate WindowTells(limit: int, window: int, calls: seq<Call>, ip: Id, lo: int, now: int) {
    match Lookup(FullTable(limit, window, calls), ip)
    case None => AdmittedIn(calls, ip, lo, now) == 0
    case Some(rate) =>
      && 1 <= rate.count <= limit
      && rate.windowStart <= rate.lastSeen <= now && rate.lastSeen - rate.windowStart < window
      && (rate.lastSeen <= lo ==> AdmittedIn(calls, ip, lo, now) == 0)
      && (rate.windowStart - 1 <= lo ==> AdmittedIn(calls, ip, lo, now) <= rate.count)
      && (rate.windowStart - window - 1 <= lo ==> AdmittedIn(calls, ip, lo, now) <= limit + rate.count)
      && (rate.windowStart <= lo ==> AdmittedIn(calls, ip, lo, now) <= rate.count - 1)
      && (rate.windowStart - window <= lo ==> AdmittedIn(calls, ip, lo, now) <= limit - 1 + rate.count)
  }

  lemma {:induction false} CurrentWindow(limit: int, window: int, calls: seq<Call>, ip: Id, lo: int, now: int)
    requires limit > 0 && window > 0 && ByTheRule(limit, window, calls)
    requires calls != [] ==> calls[|calls| - 1].time <= now
    ensures WindowTells(limit, window, calls, ip, lo, now)
  {
    if calls != [] {
      var before, call := calls[..|calls| - 1], calls[|calls| - 1];
      CurrentWindow(limit, window, before, ip, lo, now);
      CurrentWindow(limit, window, before, ip, lo, call.time);
      TimesInOrder(limit, window, before, call.time);
      if call.ip == ip && call.time <= lo {
        NothingAfter(before, ip, lo, now);
      }
    }
  }

  /** Whatever the current window has counted was let in since it started. */
  lemma {:induction false} CountedWereAdmitted(limit: int, window: int, calls: seq<Call>, ip: Id, now: int)
    requires ByTheRule(limit, window, calls) && ip in FullTable(limit, window, calls)
    requires calls != [] && calls[|calls| - 1].time <= now
    ensures var rate := FullTable(limit, window, calls)[ip];
      rate.windowStart <= now && AdmittedIn(calls, ip, rate.windowStart - 1, now) >= rate.count
  {
    var before, call := calls[..|calls| - 1], calls[|calls| - 1];
    if ip in FullTable(limit, window, before) {
      CountedWereAdmitted(limit, window, before, ip, call.time);
      CountedWereAdmitted(limit, window, before, ip, now);
    }
  }

  /** A refused call comes less than a window after a moment since which `limit` connections were let in. */
  lemma RefusedMeansFull(limit: int, window: int, calls: seq<Call>, ip: Id, now: int) returns (start: int)
    requires limit > 0 && ByTheRule(limit, window, calls)
    requires calls != [] ==> calls[|calls| - 1].time <= now
    requires !Admits(limit, window, FullTable(limit, window, calls), ip, now)
    ensures now - window < start <= now && AdmittedIn(calls, ip, start - 1, now) >= limit
  {
    start := FullTable(limit, window, calls)[ip].windowStart;
    CountedWereAdmitted(limit, window, calls, ip, now);
  }

  /** No half-open interval (t - window, t] holds more than 2 * limit - 1 admissions from one address. */
  lemma {:induction false} WindowHoldsTwiceLimitLessOne(limit: int, window: int, calls: seq<Call>, ip: Id, t: int)
    requires limit > 0 && window > 0 && ByTheRule(limit, window, calls)
    ensures AdmittedIn(calls, ip, t - window, t) <= 2 * limit - 1
  {
    if calls != [] {
      var before, call := calls[..|calls| - 1], calls[|calls| - 1];
      WindowHoldsTwiceLimitLessOne(limit, window, before, ip, t);
      if call.ip == ip && call.time <= t {
        CurrentWindow(limit, window, calls, ip, t - window, t);
        CurrentWindow(limit, window, calls, ip, t - window, call.time);
      }
    }
  }

  /** No closed interval [t - window, t] holds more than 2 * limit. */
  lemma {:induction false} ClosedWindowHoldsTwiceLimit(limit: int, window: int, calls: seq<Call>, ip: Id, t: int)
    requires limit > 0 && window > 0 && ByTheRule(limit, window, calls)
    ensures AdmittedIn(calls, ip, t - window - 1, t) <= 2 * limit
  {
    if calls != [] {
      var before, call := calls[..|calls| - 1], calls[|calls| - 1];
      ClosedWindowHoldsTwiceLimit(limit, window, before, ip, t);
      if call.ip == ip && call.time <= t {
        CurrentWindow(limit, window, calls, ip, t - window - 1, t);
      }
    }
  }

  /** Further calls at time `t`, all let in, while the window lasts and has room. */
  lemma {:induction false} Burst(limit: int, window: int, calls: seq<Call>, ip: Id, t: int, k: nat, lo: int)
    returns (more: seq<Call>)
    requires limit > 0 && window > 0 && ByTheRule(limit, window, calls)
    requires calls != [] && calls[|calls| - 1].time <= t && lo < t
    requires ip in FullTable(limit, window, calls)
    requires var rate := FullTable(limit, window, calls)[ip]; t - rate.windowStart < window && rate.count + k <= limit
    ensures ByTheRule(limit, window, more) && more != [] && more[|more| - 1].time <= t
    ensures ip in FullTable(limit, window, more)
    ensures var rate, rate' := FullTable(limit, window, calls)[ip], FullTable(limit, window, more)[ip];
      rate'.windowStart == rate.windowStart && rate'.count == rate.count + k
    ensures forall hi :: hi >= t ==> AdmittedIn(more, ip, lo, hi) == AdmittedIn(calls, ip, lo, hi) + k
  {
    if k == 0 {
      more := calls;
    } else {
      var fewer := Burst(limit, window, calls, ip, t, k - 1, lo);
      more := fewer + [Call(t, ip, true)];
      assert more[..|fewer|] == fewer;
    }
  }

  /** For every limit, some run lets that many in within a half-open interval of one window's length. */
  lemma TwiceLimitLessOneIsReached(limit: int, window: int, ip: Id) returns (calls: seq<Call>)
    requires limit > 0 && window > 1
    ensures ByTheRule(limit, window, calls)
    ensures AdmittedIn(calls, ip, 0, window) == 2 * limit - 1
  {
    var first := [Call(0, ip, true)];
    assert first[..|first| - 1] == [] && ByTheRule(limit, window, first[..|first| - 1]);
    assert AdmittedIn(first, ip, 0, window) == 0;
    var full := Burst(limit, window, first, ip, window - 1, limit - 1, 0);
    var renewed := full + [Call(window, ip, true)];
    assert renewed[..|full|] == full;
    assert AdmittedIn(renewed, ip, 0, window) == limit;
    calls := Burst(limit, window, renewed, ip, window, limit - 1, 0);
  }

  /** And some run lets twice the limit in within a closed one: a full burst at either end. */
  lemma TwiceLimitIsReached(limit: int, window: int, ip: Id) returns (calls: seq<Call>)
    requires limit > 0 && window > 0
    ensures ByTheRule(limit, window, calls)
    ensures AdmittedIn(calls, ip, -1, window) == 2 * limit
  {
    var first := [Call(0, ip, true)];
    assert first[..|first| - 1] == [] && ByTheRule(limit, window, first[..|first| - 1]);
    assert AdmittedIn(first, ip, -1, window) == 1;
    var full := Burst(limit, window, first, ip, 0, limit - 1, -1);
    var renewed := full + [Call(window, ip, true)];
    assert renewed[..|full|] == full;
    assert AdmittedIn(renewed, ip, -1, window) == limit + 1;
    calls := Burst(limit, window, renewed, ip, window, limit - 1, -1);
  }

  // ----- The limiter in place --------------------------------------------------------------

  class Server {
    const limit: int
    const window: int
    var connectionRates: Table
    var lastRateLimiterPrune: Option<int>
    // The calls that were counted, and the time of the last one.
    ghost var calls: seq<Call>
    ghost var clock: int

    ghost predicate Valid()
      reads this
    {
      Kept(limit, window, connectionRates, calls, clock)
    }

    constructor (limit: int, window: int)
      ensures Valid() && this.limit == limit && this.window == window && calls == []
    {
      this.limit, this.window := limit, window;
      connectionRates, lastRateLimiterPrune := map[], None;
      calls, clock := [], 0;
    }

    method PruneConnectionRateEntries(now: int, maxAge: int)
      modifies `connectionRates, `lastRateLimiterPrune
      ensures if old(|connectionRates|) == 0 || maxAge <= 0
          || (old(lastRateLimiterPrune).Some? && now - old(lastRateLimiterPrune).value < SECOND)
        then connectionRates == old(connectionRates) && lastRateLimiterPrune == old(lastRateLimiterPrune)
        else
          var was := old(connectionRates);
          && connectionRates == (map ip | ip in was && now - was[ip].lastSeen <= maxAge :: was[ip])
          && lastRateLimiterPrune == Some(now)
    {
      if |connectionRates| == 0 || maxAge <= 0 {
        return;
      }
      if lastRateLimiterPrune.Some? && now - lastRateLimiterPrune.value < SECOND {
        return;
      }
      var ips := connectionRates.Keys;
      while ips != {}
        invariant ips <= old(connectionRates).Keys
        invariant forall ip :: ip in connectionRates <==>
            ip in old(connectionRates) && (ip in ips || now - old(connectionRates)[ip].lastSeen <= maxAge)
        invariant forall ip :: ip in connectionRates ==> connectionRates[ip] == old(connectionRates)[ip]
        invariant lastRateLimiterPrune == old(lastRateLimiterPrune)
        decreases |ips|
      {
        var ip :| ip in ips;
        ips := ips - {ip};
        if now - connectionRates[ip].lastSeen > maxAge {
          connectionRates := connectionRates - {ip};
        }
      }
      lastRateLimiterPrune := Some(now);
    }

    /** The address's entry with one more connection in it, if there is room. */
    static method CountConnection(limit: int, window: int, table: Table, ip: Id, now: int)
      returns (entry: Rate, allowed: bool)
      ensures entry == Counted(Renewed(Lookup(table, ip), window, now), limit)
      ensures allowed == Admits(limit, window, table, ip, now)
    {
      entry := Rate(now, 0, now);
      if ip in table && now - table[ip].windowStart < window {
        entry := table[ip];
      }
      entry := entry.(lastSeen := now);
      allowed := entry.count < limit;
      if allowed {
        entry := entry.(count := entry.count + 1);
      }
    }

    /** Decides as the limiter that never forgets an address. */
    method AllowInboundConnection(ip: Id, now: int) returns (allowed: bool)
      requires Valid() && now >= clock
      modifies this
      ensures Valid()
      ensures limit <= 0 || window <= 0 || ip.text == "" ==> allowed && calls == old(calls)
      ensures limit > 0 && window > 0 && ip.text != "" ==>
        && allowed == Admits(limit, window, FullTable(limit, window, old(calls)), ip, now)
        && calls == old(calls) + [Call(now, ip, allowed)]
    {
      if limit <= 0 || window <= 0 {
        return true;
      }
      if ip.text == "" {
        return true;
      }
      PruneConnectionRateEntries(now, window * 4);
      ghost var pruned := connectionRates;

      var entry;
      entry, allowed := CountConnection(limit, window, connectionRates, ip, now);
      connectionRates := connectionRates[ip := entry];
      CallKept(limit, window, old(connectionRates), calls, clock, pruned, Call(now, ip, allowed));
      calls, clock := calls + [Call(now, ip, allowed)], now;
    }
  }
}
