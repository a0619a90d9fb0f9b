/**
 What every run of RekeyProtocol keeps: the two epochs stay within one of each other, one previous key is
 enough for every frame in flight, and both ends give an epoch the same key.
 */
module RekeySafety {
  import opened Common
  import opened KeyDerivation
  import opened SecureSession
  import opened RekeyProtocol

  predicate Control(q: Payload) {
    q.RekeyRequest? || q.RekeyResponse?
  }

  function One(q: Payload): nat {
    if Control(q) then 1 else 0
  }

  /** The number of rekey messages in a channel, and in an inbox. */
  function InChannel(ch: seq<Frame>): nat {
    if ch == [] then 0 else One(ch[0].payload) + InChannel(ch[1..])
  }

  function InInbox(qs: seq<Payload>): nat {
    if qs == [] then 0 else One(qs[0]) + InInbox(qs[1..])
  }

  lemma {:induction false} ChannelAppend(ch: seq<Frame>, f: Frame)
    ensures InChannel(ch + [f]) == InChannel(ch) + One(f.payload)
  {
    if ch == [] {
      assert ch + [f] == [f];
    } else {
      assert (ch + [f])[1..] == ch[1..] + [f];
      ChannelAppend(ch[1..], f);
    }
  }

  lemma {:induction false} InboxAppend(qs: seq<Payload>, q: Payload)
    ensures InInbox(qs + [q]) == InInbox(qs) + One(q)
  {
    if qs == [] {
      assert qs + [q] == [q];
    } else {
      assert (qs + [q])[1..] == qs[1..] + [q];
      InboxAppend(qs[1..], q);
    }
  }

  lemma {:induction false} NoneInChannel(ch: seq<Frame>)
    requires InChannel(ch) == 0
    ensures forall f :: f in ch ==> !Control(f.payload)
  {
    if ch != [] { NoneInChannel(ch[1..]); }
  }

  lemma {:induction false} NoneInInbox(qs: seq<Payload>)
    requires InInbox(qs) == 0
    ensures forall q :: q in qs ==> !Control(q)
  {
    if qs != [] { NoneInInbox(qs[1..]); }
  }

  // ----- The invariant ---------------------------------------------------------------------

  /**
   Where a round stands: the two epochs, the wait and the owed rotation, and how many rekey messages are
   in each channel and how many each side has read.
   */
  datatype Round = Round(
    a: Bytes, b: Bytes, keys: seq<Key>, l: nat, h: nat, highKey: Key,
    waiter: Option<Waiter>, due: Option<Rotation>,
    toLow: nat, toHigh: nat, lowRead: nat, highRead: nat)

  function RoundOf(sys: System): Round {
    Round(sys.low.id, sys.high.id, sys.keys, sys.low.session.epoch, sys.high.session.epoch, sys.high.session.key,
          sys.low.waiter, sys.high.due,
          InChannel(sys.toLow), InChannel(sys.toHigh),
          InInbox(sys.low.inbox) + (if sys.low.answer.Some? then 1 else 0), InInbox(sys.high.inbox))
  }

  /** At most one rekey message is anywhere, and only while the initiator waits; the epochs differ by at most one. */
  ghost predicate RoundOk(r: Round) {
    && r.toLow + r.toHigh + r.lowRead + r.highRead <= (if r.waiter.Some? then 1 else 0)
    && |r.keys| == Max(r.l, r.h) + 1
    && r.l <= r.h + 1 && r.h <= r.l + 1
    && (r.waiter.Some? ==> r.waiter.value.epoch == r.l + 1)
    && (r.l == r.h + 1 ==> r.due.Some?)
    && (r.h == r.l + 1 ==> r.due.None? && r.waiter.Some?)
    && (r.highRead > 0 ==> r.l == r.h && r.due.None?)
    && (r.lowRead > 0 ==> r.h >= r.l)
    && (r.due.Some? ==>
      && r.due.value.epoch == r.h + 1
      && (if r.l == r.h + 1 then r.due.value.key == r.keys[r.l] else r.waiter.Some?))
  }

  /** The key that a round for `epoch` with these two ephemeral keys gives to both ends. */
  function RoundKey(r: Round, epoch: nat, x: Ephemeral, y: Ephemeral): Key {
    Key({x, y}, SessionInfo(r.a, r.b, RekeyContext(epoch)))
  }

  /** The request the initiator is waiting on has not been answered. */
  ghost predicate Asked(r: Round, q: Payload) {
    q.RekeyRequest? && r.waiter == Some(Waiter(q.epoch, q.public))
  }

  /** The responder has answered the initiator's request with `q`: it owes that rotation, or has made it. */
  ghost predicate Answered(r: Round, q: Payload) {
    && q.RekeyResponse? && r.waiter.Some? && q.epoch == r.waiter.value.epoch
    && var key := RoundKey(r, q.epoch, r.waiter.value.own, q.public);
       || (r.due == Some(Rotation(key, q.epoch)) && r.h + 1 == q.epoch)
       || (r.due.None? && r.h == q.epoch && r.highKey == key)
  }

  /** A frame on its way to the responder. */
  ghost predicate ToHighOk(r: Round, f: Frame) {
    && f.epoch < |r.keys| && f.key == r.keys[f.epoch]
    && f.epoch <= r.l
    && f.epoch >= (if r.due.Some? || r.highRead > 0 then r.h else r.h - 1)
    && (Control(f.payload) ==> Asked(r, f.payload) && f.epoch == r.l && r.l == if r.due.Some? then r.h + 1 else r.h)
  }

  /** A frame on its way to the initiator. */
  ghost predicate ToLowOk(r: Round, f: Frame) {
    && f.epoch < |r.keys| && f.key == r.keys[f.epoch]
    && f.epoch <= r.h
    && f.epoch >= (if r.lowRead > 0 then r.l else r.l - 1)
    && (Control(f.payload) ==> Answered(r, f.payload) && f.epoch == r.l)
  }

  ghost predicate HighReadOk(r: Round, q: Payload) {
    Control(q) ==> Asked(r, q) && r.l == r.h && r.due.None?
  }

  ghost predicate LowReadOk(r: Round, q: Payload) {
    Control(q) ==> Answered(r, q)
  }

  ghost predicate AllToHigh(r: Round, ch: seq<Frame>) {
    forall f :: f in ch ==> ToHighOk(r, f)
  }

  ghost predicate AllToLow(r: Round, ch: seq<Frame>) {
    forall f :: f in ch ==> ToLowOk(r, f)
  }

  ghost predicate AllHighRead(r: Round, qs: seq<Payload>) {
    forall q :: q in qs ==> HighReadOk(r, q)
  }

  ghost predicate AllLowRead(r: Round, qs: seq<Payload>) {
    forall q :: q in qs ==> LowReadOk(r, q)
  }

  ghost predicate Sorted(ch: seq<Frame>) {
    forall i, j :: 0 <= i < j < |ch| ==> ch[i].epoch <= ch[j].epoch
  }

  ghost predicate SessionOk(s: Session, keys: seq<Key>) {
    && s.epoch < |keys|
    && s.key == keys[s.epoch]
    && (s.epoch > 0 <==> s.previousKey.Some?)
    && (s.previousKey.Some? ==> s.previousEpoch + 1 == s.epoch && s.previousKey.value == keys[s.previousEpoch])
  }

  /** Only the side with the lower id asks, and only the other one answers. */
  ghost predicate Roles(sys: System) {
    && Less(sys.low.id, sys.high.id) && !Blank(sys.low.id) && !Blank(sys.high.id)
    && sys.low.peer == sys.high.id && sys.high.peer == sys.low.id
    && sys.low.due.None? && sys.high.waiter.None? && sys.high.answer.None?
    && SessionOk(sys.low.session, sys.keys)
    && SessionOk(sys.high.session, sys.keys)
  }

  /** Everything between the two sides fits where the round stands. */
  ghost predicate InFlightOk(sys: System, r: Round) {
    && AllToHigh(r, sys.toHigh)
    && AllToLow(r, sys.toLow)
    && AllHighRead(r, sys.high.inbox)
    && AllLowRead(r, sys.low.inbox)
    && (sys.low.answer.Some? ==> Answered(r, sys.low.answer.value))
    && Sorted(sys.toHigh)
    && Sorted(sys.toLow)
  }

  ghost predicate Inv(sys: System) {
    && Roles(sys)
    && RoundOk(RoundOf(sys))
    && InFlightOk(sys, RoundOf(sys))
  }

  // ----- Each step keeps it ----------------------------------------------------------------

  lemma Extend(ch: seq<Frame>, f: Frame)
    requires Sorted(ch) && forall g :: g in ch ==> g.epoch <= f.epoch
    ensures Sorted(ch + [f])
  {
    forall i, j | 0 <= i < j < |ch + [f]| ensures (ch + [f])[i].epoch <= (ch + [f])[j].epoch {
      assert (ch + [f])[i] == ch[i] && ch[i] in ch;
    }
  }

  lemma LowSends(sys: System, f: Frame)
    requires Inv(sys) && f == Seal(sys.low.session, f.payload) && !Control(f.payload)
    ensures Inv(sys.(toHigh := sys.toHigh + [f]))
  {
    ChannelAppend(sys.toHigh, f);
    Extend(sys.toHigh, f);
    assert RoundOf(sys.(toHigh := sys.toHigh + [f])) == RoundOf(sys);
  }

  lemma HighSends(sys: System, f: Frame)
    requires Inv(sys) && f == Seal(sys.high.session, f.payload) && !Control(f.payload)
    ensures Inv(sys.(toLow := sys.toLow + [f]))
  {
    ChannelAppend(sys.toLow, f);
    Extend(sys.toLow, f);
    assert RoundOf(sys.(toLow := sys.toLow + [f])) == RoundOf(sys);
  }

  /** With no rekey message anywhere, what is in flight does not depend on the wait. */
  lemma QuietRound(sys: System, r: Round, r': Round)
    requires InFlightOk(sys, r) && r.toLow + r.toHigh + r.lowRead + r.highRead == 0
    requires r == RoundOf(sys)
    requires r' == r.(waiter := r'.waiter, toHigh := r'.toHigh)
    ensures AllToHigh(r', sys.toHigh) && AllToLow(r', sys.toLow) && AllHighRead(r', sys.high.inbox)
      && AllLowRead(r', sys.low.inbox)
  {
    NoneInChannel(sys.toLow);
    NoneInChannel(sys.toHigh);
    NoneInInbox(sys.low.inbox);
    NoneInInbox(sys.high.inbox);
  }

  /** A new round starts only when the last one is over, up to the rotation the responder may still owe. */
  lemma LowAsks(sys: System, own: Ephemeral, f: Frame)
    requires Inv(sys) && sys.low.waiter.None?
    requires f == Seal(sys.low.session, RekeyRequest(sys.low.session.epoch + 1, own))
    ensures Inv(sys.(low := sys.low.(waiter := Some(Waiter(sys.low.session.epoch + 1, own)), answer := None),
                     toHigh := sys.toHigh + [f]))
  {
    var sys' := sys.(low := sys.low.(waiter := Some(Waiter(sys.low.session.epoch + 1, own)), answer := None),
                     toHigh := sys.toHigh + [f]);
    ChannelAppend(sys.toHigh, f);
    Extend(sys.toHigh, f);
    QuietRound(sys, RoundOf(sys), RoundOf(sys'));
  }

  /** A frame is shown, under the key that sealed it, unless it is ahead of its reader. */
  lemma OpensUnlessAhead(s: Session, keys: seq<Key>, f: Frame)
    requires SessionOk(s, keys) && f.epoch < |keys| && f.key == keys[f.epoch] && f.epoch + 1 >= s.epoch
    ensures KeyFor(s, f.epoch) == if f.epoch <= s.epoch then Some(f.key) else None
    ensures SecureSession.Open(s, f) == if f.epoch <= s.epoch then Some(f.payload) else None
  {
  }

  lemma AfterFirst(ch: seq<Frame>)
    requires Sorted(ch) && ch != []
    ensures Sorted(ch[1..])
    ensures forall f :: f in ch[1..] ==> f in ch && f.epoch >= ch[0].epoch
  {
    forall f | f in ch[1..] ensures f in ch && f.epoch >= ch[0].epoch {
      var j :| 0 <= j < |ch[1..]| && ch[1..][j] == f;
      assert ch[j + 1] == f;
    }
  }

  /** What is in flight does not depend on how much of it is still in the channels. */
  lemma CountsDoNotMatter(sys: System, r: Round, r': Round)
    requires InFlightOk(sys, r) && r' == r.(toLow := r'.toLow, toHigh := r'.toHigh)
    ensures InFlightOk(sys, r')
  {
  }

  /** High takes a frame off its channel; whatever becomes of it, the rest is as before. */
  lemma HighTakes(sys: System, malformed: nat)
    requires Inv(sys) && sys.toHigh != []
    ensures Inv(sys.(high := sys.high.(malformed := malformed), toHigh := sys.toHigh[1..]))
  {
    AfterFirst(sys.toHigh);
    var sys' := sys.(high := sys.high.(malformed := malformed), toHigh := sys.toHigh[1..]);
    CountsDoNotMatter(sys, RoundOf(sys), RoundOf(sys'));
  }

  lemma HighHandsOnText(sys: System, q: Payload)
    requires Inv(sys) && !Control(q)
    ensures Inv(sys.(high := sys.high.(inbox := sys.high.inbox + [q])))
  {
    InboxAppend(sys.high.inbox, q);
    assert RoundOf(sys.(high := sys.high.(inbox := sys.high.inbox + [q]))) == RoundOf(sys);
  }

  /** Low takes a frame off its channel; whatever becomes of it, the rest is as before. */
  lemma LowTakes(sys: System, malformed: nat)
    requires Inv(sys) && sys.toLow != []
    ensures Inv(sys.(low := sys.low.(malformed := malformed), toLow := sys.toLow[1..]))
  {
    AfterFirst(sys.toLow);
    var sys' := sys.(low := sys.low.(malformed := malformed), toLow := sys.toLow[1..]);
    CountsDoNotMatter(sys, RoundOf(sys), RoundOf(sys'));
  }

  lemma LowHandsOnText(sys: System, q: Payload)
    requires Inv(sys) && !Control(q)
    ensures Inv(sys.(low := sys.low.(inbox := sys.low.inbox + [q])))
  {
    InboxAppend(sys.low.inbox, q);
    assert RoundOf(sys.(low := sys.low.(inbox := sys.low.inbox + [q]))) == RoundOf(sys);
  }

  lemma NoTokens(sys: System)
    requires InChannel(sys.toLow) + InChannel(sys.toHigh) + InInbox(sys.low.inbox) + InInbox(sys.high.inbox) == 0
    ensures forall f :: f in sys.toLow || f in sys.toHigh ==> !Control(f.payload)
    ensures forall q :: q in sys.low.inbox || q in sys.high.inbox ==> !Control(q)
  {
    NoneInChannel(sys.toLow);
    NoneInChannel(sys.toHigh);
    NoneInInbox(sys.low.inbox);
    NoneInInbox(sys.high.inbox);
  }

  /** Once the request is read, nothing older than the current epoch can still come. */
  lemma HighHandsOnRequest(sys: System, q: Payload)
    requires Inv(sys) && Asked(RoundOf(sys), q)
    requires var r := RoundOf(sys); r.toLow + r.toHigh + r.lowRead + r.highRead == 0 && r.l == r.h && r.due.None?
    requires forall g :: g in sys.toHigh ==> g.epoch >= sys.high.session.epoch
    ensures Inv(sys.(high := sys.high.(inbox := sys.high.inbox + [q])))
  {
    InboxAppend(sys.high.inbox, q);
    NoTokens(sys);
  }

  lemma LowHandsOnResponse(sys: System, q: Payload)
    requires Inv(sys) && Answered(RoundOf(sys), q)
    requires var r := RoundOf(sys); r.toLow + r.toHigh + r.lowRead + r.highRead == 0
    requires forall g :: g in sys.toLow ==> g.epoch >= sys.low.session.epoch
    ensures Inv(sys.(low := sys.low.(inbox := sys.low.inbox + [q])))
  {
    InboxAppend(sys.low.inbox, q);
    NoTokens(sys);
  }

  lemma HighReadsText(sys: System, malformed: nat)
    requires Inv(sys) && sys.toHigh != [] && !Control(sys.toHigh[0].payload)
    ensures Inv(sys.(high := sys.high.(malformed := malformed, inbox := sys.high.inbox + [sys.toHigh[0].payload]),
                     toHigh := sys.toHigh[1..]))
  {
    HighTakes(sys, malformed);
    HighHandsOnText(sys.(high := sys.high.(malformed := malformed), toHigh := sys.toHigh[1..]), sys.toHigh[0].payload);
  }

  lemma HighReadsRequest(sys: System, malformed: nat)
    requires Inv(sys) && sys.toHigh != [] && Control(sys.toHigh[0].payload)
    requires sys.toHigh[0].epoch <= sys.high.session.epoch
    ensures Inv(sys.(high := sys.high.(malformed := malformed, inbox := sys.high.inbox + [sys.toHigh[0].payload]),
                     toHigh := sys.toHigh[1..]))
  {
    HighTakes(sys, malformed);
    AfterFirst(sys.toHigh);
    assert ToHighOk(RoundOf(sys), sys.toHigh[0]);
    HighHandsOnRequest(sys.(high := sys.high.(malformed := malformed), toHigh := sys.toHigh[1..]),
                       sys.toHigh[0].payload);
  }

  lemma HighReadResult(sys: System)
    requires Enabled(sys, Reads(High)) && SessionOk(sys.high.session, sys.keys) && SessionOk(sys.low.session, sys.keys)
    requires ToHighOk(RoundOf(sys), sys.toHigh[0])
    ensures var f, n, sys' := sys.toHigh[0], Read(sys.high, sys.toHigh[0]).node, Apply(sys, Reads(High));
      sys'.(closed := false) ==
        if f.epoch <= sys.high.session.epoch && HandedOn(f.payload) then
          sys.(high := sys.high.(malformed := n.malformed, inbox := sys.high.inbox + [f.payload]),
               toHigh := sys.toHigh[1..])
        else
          sys.(high := sys.high.(malformed := n.malformed), toHigh := sys.toHigh[1..])
  {
    OpensUnlessAhead(sys.high.session, sys.keys, sys.toHigh[0]);
    assert sys.toLow + [] == sys.toLow && sys.high.inbox + [] == sys.high.inbox;
  }

  lemma HighReads(sys: System)
    requires Inv(sys) && Enabled(sys, Reads(High))
    ensures Inv(Apply(sys, Reads(High)).(closed := false))
  {
    var f, malformed := sys.toHigh[0], Read(sys.high, sys.toHigh[0]).node.malformed;
    assert ToHighOk(RoundOf(sys), f);
    HighReadResult(sys);
    if f.epoch > sys.high.session.epoch || !HandedOn(f.payload) {
      HighTakes(sys, malformed);
    } else if Control(f.payload) {
      HighReadsRequest(sys, malformed);
    } else {
      HighReadsText(sys, malformed);
    }
  }

  lemma LowReadsText(sys: System, malformed: nat)
    requires Inv(sys) && sys.toLow != [] && !Control(sys.toLow[0].payload)
    ensures Inv(sys.(low := sys.low.(malformed := malformed, inbox := sys.low.inbox + [sys.toLow[0].payload]),
                     toLow := sys.toLow[1..]))
  {
    LowTakes(sys, malformed);
    LowHandsOnText(sys.(low := sys.low.(malformed := malformed), toLow := sys.toLow[1..]), sys.toLow[0].payload);
  }

  lemma LowReadsResponse(sys: System, malformed: nat)
    requires Inv(sys) && sys.toLow != [] && Control(sys.toLow[0].payload) && sys.toLow[0].epoch <= sys.low.session.epoch
    ensures Inv(sys.(low := sys.low.(malformed := malformed, inbox := sys.low.inbox + [sys.toLow[0].payload]),
                     toLow := sys.toLow[1..]))
  {
    LowTakes(sys, malformed);
    AfterFirst(sys.toLow);
    assert ToLowOk(RoundOf(sys), sys.toLow[0]);
    LowHandsOnResponse(sys.(low := sys.low.(malformed := malformed), toLow := sys.toLow[1..]), sys.toLow[0].payload);
  }

  lemma LowReadResult(sys: System)
    requires Enabled(sys, Reads(Low)) && SessionOk(sys.low.session, sys.keys) && SessionOk(sys.high.session, sys.keys)
    requires ToLowOk(RoundOf(sys), sys.toLow[0])
    ensures var f, n, sys' := sys.toLow[0], Read(sys.low, sys.toLow[0]).node, Apply(sys, Reads(Low));
      sys'.(closed := false) ==
        if f.epoch <= sys.low.session.epoch && HandedOn(f.payload) then
          sys.(low := sys.low.(malformed := n.malformed, inbox := sys.low.inbox + [f.payload]), toLow := sys.toLow[1..])
        else
          sys.(low := sys.low.(malformed := n.malformed), toLow := sys.toLow[1..])
  {
    OpensUnlessAhead(sys.low.session, sys.keys, sys.toLow[0]);
    assert sys.toHigh + [] == sys.toHigh && sys.low.inbox + [] == sys.low.inbox;
  }

  lemma LowReads(sys: System)
    requires Inv(sys) && Enabled(sys, Reads(Low))
    ensures Inv(Apply(sys, Reads(Low)).(closed := false))
  {
    var f, malformed := sys.toLow[0], Read(sys.low, sys.toLow[0]).node.malformed;
    assert ToLowOk(RoundOf(sys), f);
    LowReadResult(sys);
    if f.epoch > sys.low.session.epoch || !HandedOn(f.payload) {
      LowTakes(sys, malformed);
    } else if Control(f.payload) {
      LowReadsResponse(sys, malformed);
    } else {
      LowReadsText(sys, malformed);
    }
  }

  lemma HighTakesText(sys: System, shown: seq<nat>)
    requires Inv(sys) && sys.high.inbox != [] && !Control(sys.high.inbox[0])
    ensures Inv(sys.(high := sys.high.(inbox := sys.high.inbox[1..], shown := shown)))
  {
    assert RoundOf(sys.(high := sys.high.(inbox := sys.high.inbox[1..], shown := shown))) == RoundOf(sys);
  }

  lemma LowTakesText(sys: System, shown: seq<nat>)
    requires Inv(sys) && sys.low.inbox != [] && !Control(sys.low.inbox[0])
    ensures Inv(sys.(low := sys.low.(inbox := sys.low.inbox[1..], shown := shown)))
  {
    assert RoundOf(sys.(low := sys.low.(inbox := sys.low.inbox[1..], shown := shown))) == RoundOf(sys);
  }

  /** The key the responder derives from a request is the round's key. */
  lemma ResponderDerivesRoundKey(r: Round, own: Ephemeral, epoch: nat, public: Ephemeral)
    requires !Blank(r.a) && !Blank(r.b)
    ensures DeriveRekeySessionKey(own, public, r.b, r.a, epoch) == Ok(RoundKey(r, epoch, public, own))
    ensures DeriveRekeySessionKey(public, own, r.a, r.b, epoch) == Ok(RoundKey(r, epoch, public, own))
  {
    BothEndsDeriveTheSame(own, public, r.b, r.a, [], epoch);
  }

  /** With every rekey message gone but one new answer, what is in flight fits the answered round. */
  lemma HighAnswers(sys: System, key: Key, f: Frame, q: Payload)
    requires Inv(sys) && sys.high.inbox != [] && sys.high.inbox[0] == q && Control(q)
    requires f == Seal(sys.high.session, f.payload) && f.payload.RekeyResponse? && f.payload.epoch == q.epoch
    requires q.RekeyRequest? && key == RoundKey(RoundOf(sys), q.epoch, q.public, f.payload.public)
    ensures Inv(sys.(high := sys.high.(inbox := sys.high.inbox[1..], due := Some(Rotation(key, q.epoch))),
                     toLow := sys.toLow + [f]))
  {
    assert HighReadOk(RoundOf(sys), q);
    var popped := sys.high.inbox[1..];
    var sys' := sys.(high := sys.high.(inbox := popped, due := Some(Rotation(key, q.epoch))), toLow := sys.toLow + [f]);
    ChannelAppend(sys.toLow, f);
    Extend(sys.toLow, f);
    NoTokens(sys.(high := sys.high.(inbox := popped)));
    var r, r' := RoundOf(sys), RoundOf(sys');
    assert r' == r.(due := Some(Rotation(key, q.epoch)), highRead := 0, toLow := 1);
    assert Answered(r', f.payload);
    assert AllHighRead(r', popped);
    assert AllToHigh(r', sys.toHigh);
    assert AllToLow(r', sys.toLow);
  }

  lemma LowStoresAnswer(sys: System)
    requires Inv(sys) && sys.low.inbox != [] && Control(sys.low.inbox[0])
    ensures sys.low.answer.None? && Answered(RoundOf(sys), sys.low.inbox[0])
    ensures Inv(sys.(low := sys.low.(inbox := sys.low.inbox[1..], answer := Some(sys.low.inbox[0]))))
  {
    assert LowReadOk(RoundOf(sys), sys.low.inbox[0]);
    assert RoundOf(sys.(low := sys.low.(inbox := sys.low.inbox[1..], answer := Some(sys.low.inbox[0])))) ==
      RoundOf(sys);
  }

  /** A text leaves the inbox, shown or not. */
  lemma HandleTextResult(sys: System, side: Side, own: Ephemeral)
    requires Enabled(sys, Handles(side, own)) && !Control(At(sys, side).inbox[0])
    requires SessionOk(At(sys, side).session, sys.keys)
    ensures var n, shown := At(sys, side), Handle(At(sys, side), own).node.shown;
      var n' := n.(inbox := n.inbox[1..], shown := shown);
      Apply(sys, Handles(side, own)) == if side.Low? then sys.(low := n') else sys.(high := n')
  {
    assert sys.toLow + [] == sys.toLow && sys.toHigh + [] == sys.toHigh;
  }

  lemma HandlesTextKeeps(sys: System, side: Side, own: Ephemeral)
    requires Inv(sys) && Enabled(sys, Handles(side, own)) && !Control(At(sys, side).inbox[0])
    ensures Inv(Apply(sys, Handles(side, own)))
  {
    HandleTextResult(sys, side, own);
    if side.Low? {
      LowTakesText(sys, Handle(sys.low, own).node.shown);
    } else {
      HighTakesText(sys, Handle(sys.high, own).node.shown);
    }
  }

  lemma HandleRequestResult(sys: System, own: Ephemeral)
    requires Enabled(sys, Handles(High, own)) && sys.high.inbox[0].RekeyRequest? && sys.high.inbox[0].epoch > 0
    requires SessionOk(sys.high.session, sys.keys) && sys.high.peer == sys.low.id
    requires !Blank(sys.low.id) && !Blank(sys.high.id)
    ensures var q := sys.high.inbox[0];
      var due := Rotation(RoundKey(RoundOf(sys), q.epoch, q.public, own), q.epoch);
      Apply(sys, Handles(High, own)) ==
        sys.(high := sys.high.(inbox := sys.high.inbox[1..], due := Some(due)),
             toLow := sys.toLow + [Seal(sys.high.session, RekeyResponse(q.epoch, own))])
  {
    var q := sys.high.inbox[0];
    ResponderDerivesRoundKey(RoundOf(sys), own, q.epoch, q.public);
  }

  lemma HandlesRequestKeeps(sys: System, own: Ephemeral)
    requires Inv(sys) && Enabled(sys, Handles(High, own)) && Control(sys.high.inbox[0])
    ensures Inv(Apply(sys, Handles(High, own)))
  {
    var q := sys.high.inbox[0];
    assert HighReadOk(RoundOf(sys), q);
    HandleRequestResult(sys, own);
    HighAnswers(sys, RoundKey(RoundOf(sys), q.epoch, q.public, own),
                Seal(sys.high.session, RekeyResponse(q.epoch, own)), q);
  }

  lemma HandleAnswerResult(sys: System, own: Ephemeral)
    requires Enabled(sys, Handles(Low, own)) && sys.low.inbox[0].RekeyResponse? && sys.low.inbox[0].epoch > 0
    requires SessionOk(sys.low.session, sys.keys) && sys.low.waiter.Some? && sys.low.answer.None?
    ensures Apply(sys, Handles(Low, own)) ==
      sys.(low := sys.low.(inbox := sys.low.inbox[1..], answer := Some(sys.low.inbox[0])))
  {
    assert sys.toHigh + [] == sys.toHigh;
  }

  lemma HandlesAnswerKeeps(sys: System, own: Ephemeral)
    requires Inv(sys) && Enabled(sys, Handles(Low, own)) && Control(sys.low.inbox[0])
    ensures Inv(Apply(sys, Handles(Low, own)))
  {
    LowStoresAnswer(sys);
    HandleAnswerResult(sys, own);
  }

  /** The round after the responder has rotated. */
  function Rotated(r: Round): Round
    requires r.due.Some? && r.l < |r.keys|
  {
    r.(h := r.h + 1, highKey := r.due.value.key, due := None,
       keys := if r.h + 1 == |r.keys| then r.keys + [r.due.value.key] else r.keys)
  }

  lemma RotatedOk(r: Round)
    requires RoundOk(r) && r.due.Some?
    ensures RoundOk(Rotated(r))
    ensures forall f :: ToHighOk(r, f) ==> ToHighOk(Rotated(r), f)
    ensures forall f :: ToLowOk(r, f) ==> ToLowOk(Rotated(r), f)
    ensures forall q :: HighReadOk(r, q) ==> HighReadOk(Rotated(r), q)
    ensures forall q :: Answered(r, q) ==> Answered(Rotated(r), q)
  {
  }

  lemma HighRotateResult(sys: System)
    requires Roles(sys) && RoundOk(RoundOf(sys)) && Enabled(sys, Rotates(High))
    ensures var due, sys' := sys.high.due.value, Apply(sys, Rotates(High));
      && sys' == sys.(high := sys.high.(due := None,
                                        session := Session(due.key, due.epoch, Some(sys.high.session.key),
                                                           sys.high.session.epoch)),
                      keys := RoundOf(sys').keys)
      && RoundOf(sys') == Rotated(RoundOf(sys))
  {
    assert sys.toLow + [] == sys.toLow;
  }

  /**
   The responder's rotation: the round's key becomes the new epoch's, for the first time or as the initiator had it.
   */
  lemma HighRotates(sys: System)
    requires Inv(sys) && Enabled(sys, Rotates(High))
    ensures Inv(Apply(sys, Rotates(High)))
  {
    HighRotateResult(sys);
    RotatedOk(RoundOf(sys));
  }

  /** The round after the initiator has rotated. */
  function Finished(r: Round, key: Key): Round {
    r.(l := r.l + 1, waiter := None, lowRead := 0, keys := if r.l + 1 == |r.keys| then r.keys + [key] else r.keys)
  }

  lemma FinishedOk(r: Round, q: Payload)
    requires RoundOk(r) && Answered(r, q) && r.lowRead > 0
    ensures var key := RoundKey(r, r.l + 1, r.waiter.value.own, q.public);
      && RoundOk(Finished(r, key))
      && (r.h == r.l + 1 ==> r.highKey == key)
      && (forall f :: ToHighOk(r, f) && !Control(f.payload) ==> ToHighOk(Finished(r, key), f))
      && (forall f :: ToLowOk(r, f) && !Control(f.payload) ==> ToLowOk(Finished(r, key), f))
  {
  }

  lemma LowFinishResult(sys: System)
    requires Roles(sys) && RoundOk(RoundOf(sys)) && Enabled(sys, Finishes(Low))
    requires Answered(RoundOf(sys), sys.low.answer.value)
    ensures var r, sys', w := RoundOf(sys), Apply(sys, Finishes(Low)), sys.low.waiter.value;
      var key := RoundKey(r, w.epoch, w.own, sys.low.answer.value.public);
      && sys' == sys.(low := sys.low.(waiter := None, answer := None,
                                      session := Session(key, w.epoch, Some(sys.low.session.key),
                                                         sys.low.session.epoch)),
                      keys := RoundOf(sys').keys)
      && RoundOf(sys') == Finished(r, key)
  {
    var w, q := sys.low.waiter.value, sys.low.answer.value;
    ResponderDerivesRoundKey(RoundOf(sys), q.public, w.epoch, w.own);
    assert sys.toHigh + [] == sys.toHigh;
  }

  /** The initiator's rotation, with the answer: both ends now agree on the epoch's key. */
  lemma LowFinishes(sys: System)
    requires Inv(sys) && Enabled(sys, Finishes(Low))
    ensures Inv(Apply(sys, Finishes(Low)))
  {
    LowFinishResult(sys);
    FinishedOk(RoundOf(sys), sys.low.answer.value);
    NoTokens(sys);
  }

  lemma DraftsDoNotMatter(sys: System, atLow: set<Draft>, atHigh: set<Draft>)
    requires Inv(sys)
    ensures Inv(sys.(low := sys.low.(drafts := atLow), high := sys.high.(drafts := atHigh)))
  {
    assert RoundOf(sys.(low := sys.low.(drafts := atLow), high := sys.high.(drafts := atHigh))) == RoundOf(sys);
  }

  lemma SendResult(sys: System, side: Side, d: Draft)
    requires Enabled(sys, Sends(side, d)) && SessionOk(At(sys, side).session, sys.keys)
    ensures var n, f := At(sys, side), Seal(At(sys, side).session, Text(d.id, d.inner));
      var n' := n.(drafts := n.drafts - {d});
      Apply(sys, Sends(side, d)) ==
        if side.Low? then sys.(low := n', toHigh := sys.toHigh + [f]) else sys.(high := n', toLow := sys.toLow + [f])
  {
  }

  lemma SendsKeeps(sys: System, side: Side, d: Draft)
    requires Inv(sys) && Enabled(sys, Sends(side, d))
    ensures Inv(Apply(sys, Sends(side, d)))
  {
    SendResult(sys, side, d);
    if side.Low? {
      DraftsDoNotMatter(sys, sys.low.drafts - {d}, sys.high.drafts);
      LowSends(sys.(low := sys.low.(drafts := sys.low.drafts - {d})), Seal(sys.low.session, Text(d.id, d.inner)));
    } else {
      DraftsDoNotMatter(sys, sys.low.drafts, sys.high.drafts - {d});
      HighSends(sys.(high := sys.high.(drafts := sys.high.drafts - {d})), Seal(sys.high.session, Text(d.id, d.inner)));
    }
  }

  lemma ComposeResult(sys: System, side: Side, text: nat)
    requires Enabled(sys, Composes(side, text)) && SessionOk(At(sys, side).session, sys.keys)
    ensures var n := At(sys, side);
      var n' := n.(drafts := n.drafts + {Draft(text, n.session.key)});
      Apply(sys, Composes(side, text)) == if side.Low? then sys.(low := n') else sys.(high := n')
  {
    assert sys.toLow + [] == sys.toLow && sys.toHigh + [] == sys.toHigh;
  }

  lemma ComposesKeeps(sys: System, side: Side, text: nat)
    requires Inv(sys) && Enabled(sys, Composes(side, text))
    ensures Inv(Apply(sys, Composes(side, text)))
  {
    ComposeResult(sys, side, text);
    if side.Low? {
      DraftsDoNotMatter(sys, sys.low.drafts + {Draft(text, sys.low.session.key)}, sys.high.drafts);
    } else {
      DraftsDoNotMatter(sys, sys.low.drafts, sys.high.drafts + {Draft(text, sys.high.session.key)});
    }
  }

  lemma AsksKeeps(sys: System, l: Label)
    requires Inv(sys) && Enabled(sys, l) && l.Asks?
    ensures Inv(Apply(sys, l))
  {
    LessIsStrictOrder(sys.low.id, sys.high.id);
    assert sys.toLow + [] == sys.toLow && sys.toHigh + [] == sys.toHigh;
    if l.side.Low? && sys.low.waiter.None? {
      LowAsks(sys, l.own, Seal(sys.low.session, RekeyRequest(sys.low.session.epoch + 1, l.own)));
    }
  }

  lemma ClosedDoesNotMatter(sys: System, closed: bool)
    requires Inv(sys)
    ensures Inv(sys.(closed := closed))
  {
    assert RoundOf(sys.(closed := closed)) == RoundOf(sys);
  }

  lemma ReadsKeeps(sys: System, side: Side)
    requires Inv(sys) && Enabled(sys, Reads(side))
    ensures Inv(Apply(sys, Reads(side)))
  {
    if side.Low? { LowReads(sys); } else { HighReads(sys); }
    var sys' := Apply(sys, Reads(side));
    ClosedDoesNotMatter(sys'.(closed := false), sys'.closed);
    assert sys'.(closed := false).(closed := sys'.closed) == sys';
  }

  lemma HandlesKeeps(sys: System, side: Side, own: Ephemeral)
    requires Inv(sys) && Enabled(sys, Handles(side, own))
    ensures Inv(Apply(sys, Handles(side, own)))
  {
    if !Control(At(sys, side).inbox[0]) {
      HandlesTextKeeps(sys, side, own);
    } else if side.Low? {
      HandlesAnswerKeeps(sys, own);
    } else {
      HandlesRequestKeeps(sys, own);
    }
  }

  lemma StepKeepsInv(sys: System, l: Label)
    requires Inv(sys) && Enabled(sys, l)
    ensures Inv(Apply(sys, l))
  {
    match l
    case Composes(side, text) => ComposesKeeps(sys, side, text);
    case Sends(side, d) => SendsKeeps(sys, side, d);
    case Reads(side) => ReadsKeeps(sys, side);
    case Asks(_, _) => AsksKeeps(sys, l);
    case Handles(side, own) => HandlesKeeps(sys, side, own);
    case Rotates(_) => HighRotates(sys);
    case Finishes(_) => LowFinishes(sys);
    case Closes => ClosedDoesNotMatter(sys, true);
  }

  lemma {:induction false} Reachable(a: Bytes, b: Bytes, key: Key, states: seq<System>, steps: seq<Label>, k: nat)
    requires Run(a, b, key, states, steps) && k <= |steps|
    ensures Inv(states[k])
  {
    if k > 0 {
      Reachable(a, b, key, states, steps, k - 1);
      StepKeepsInv(states[k - 1], steps[k - 1]);
    }
  }

  // ----- The main results ------------------------------------------------------------------

  /**
   In every reachable state the epochs differ by at most one, no frame in flight is two or more epochs
   behind its reader, and none is more than one ahead.
   */
  lemma OnePreviousKeySuffices(a: Bytes, b: Bytes, key: Key, states: seq<System>, steps: seq<Label>, k: nat,
                               side: Side, f: Frame)
    requires Run(a, b, key, states, steps) && k <= |steps| && f in ChannelTo(states[k], side)
    ensures var sys := states[k];
      && sys.low.session.epoch - 1 <= sys.high.session.epoch <= sys.low.session.epoch + 1
      && At(sys, side).session.epoch - 1 <= f.epoch <= At(sys, side).session.epoch + 1
  {
    Reachable(a, b, key, states, steps, k);
    var r := RoundOf(states[k]);
    if side.Low? { assert ToLowOk(r, f); } else { assert ToHighOk(r, f); }
  }

  /** A frame one epoch ahead of its reader exists only while the reader has not finished its round. */
  lemma AheadOnlyDuringRound(a: Bytes, b: Bytes, key: Key, states: seq<System>, steps: seq<Label>, k: nat, side: Side,
                             f: Frame)
    requires Run(a, b, key, states, steps) && k <= |steps| && f in ChannelTo(states[k], side)
    requires f.epoch > At(states[k], side).session.epoch
    ensures if side.Low? then states[k].low.waiter.Some? else states[k].high.due.Some?
  {
    Reachable(a, b, key, states, steps, k);
    var r := RoundOf(states[k]);
    if side.Low? { assert ToLowOk(r, f); } else { assert ToHighOk(r, f); }
  }

  /** An epoch for which both ends hold a key has the same key at both. */
  lemma BothEndsAgree(a: Bytes, b: Bytes, key: Key, states: seq<System>, steps: seq<Label>, k: nat, epoch: nat)
    requires Run(a, b, key, states, steps) && k <= |steps|
    requires KeyFor(states[k].low.session, epoch).Some? && KeyFor(states[k].high.session, epoch).Some?
    ensures KeyFor(states[k].low.session, epoch) == KeyFor(states[k].high.session, epoch)
  {
    Reachable(a, b, key, states, steps, k);
  }

  /** Whenever a frame in flight selects a key its reader holds, it is the key that sealed it. */
  lemma SelectedKeyOpens(a: Bytes, b: Bytes, key: Key, states: seq<System>, steps: seq<Label>, k: nat, side: Side,
                         f: Frame)
    requires Run(a, b, key, states, steps) && k <= |steps| && f in ChannelTo(states[k], side)
    requires KeyFor(At(states[k], side).session, f.epoch).Some?
    ensures KeyFor(At(states[k], side).session, f.epoch) == Some(f.key)
  {
    Reachable(a, b, key, states, steps, k);
    var r := RoundOf(states[k]);
    if side.Low? { assert ToLowOk(r, f); } else { assert ToHighOk(r, f); }
  }

  /**
   The next frame is handed on exactly when it is not ahead of its reader; one that is ahead is lost and counts as
   malformed.
   */
  lemma LostExactlyWhenAhead(a: Bytes, b: Bytes, key: Key, states: seq<System>, steps: seq<Label>, k: nat, side: Side)
    requires Run(a, b, key, states, steps) && k <= |steps| && ChannelTo(states[k], side) != []
    requires HandedOn(ChannelTo(states[k], side)[0].payload)
    ensures var n, f := At(states[k], side), ChannelTo(states[k], side)[0];
      var step := Read(n, f);
      if f.epoch <= n.session.epoch then
        step.node.inbox == n.inbox + [f.payload] && step.node.malformed == 0 && !step.closes
      else
        step.node.inbox == n.inbox && step.node.malformed == n.malformed + 1
  {
    Reachable(a, b, key, states, steps, k);
    var r, f := RoundOf(states[k]), ChannelTo(states[k], side)[0];
    if side.Low? { assert ToLowOk(r, f); } else { assert ToHighOk(r, f); }
    OpensUnlessAhead(At(states[k], side).session, states[k].keys, f);
  }

  /** With no round under way both ends are at the same epoch under the same key, and nothing in flight is lost. */
  lemma QuietMeansEqual(a: Bytes, b: Bytes, key: Key, states: seq<System>, steps: seq<Label>, k: nat)
    requires Run(a, b, key, states, steps) && k <= |steps|
    requires states[k].low.waiter.None? && states[k].high.due.None?
    ensures var sys := states[k];
      && sys.low.session.epoch == sys.high.session.epoch && sys.low.session.key == sys.high.session.key
      && (forall f :: f in sys.toLow ==> SecureSession.Open(sys.low.session, f) == Some(f.payload))
      && (forall f :: f in sys.toHigh ==> SecureSession.Open(sys.high.session, f) == Some(f.payload))
  {
    Reachable(a, b, key, states, steps, k);
    var sys := states[k];
    var r := RoundOf(sys);
    forall f | f in sys.toLow ensures SecureSession.Open(sys.low.session, f) == Some(f.payload) {
      assert ToLowOk(r, f);
      OpensUnlessAhead(sys.low.session, sys.keys, f);
    }
    forall f | f in sys.toHigh ensures SecureSession.Open(sys.high.session, f) == Some(f.payload) {
      assert ToHighOk(r, f);
      OpensUnlessAhead(sys.high.session, sys.keys, f);
    }
  }
}
