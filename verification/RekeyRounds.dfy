/**
 What asks for a new key and what refuses one; and that a round, at any epoch, takes both ends to the next epoch under
 the same new key.
 */
module RekeyRounds {
  import opened Common
  import opened KeyDerivation
  import opened SecureSession
  import opened RekeyProtocol
  import opened RekeySafety

  // ----- Asking ----------------------------------------------------------------------------

  lemma AskResult(sys: System, own: Ephemeral)
    requires !sys.closed && !Less(sys.low.peer, sys.low.id) && SessionOk(sys.low.session, sys.keys)
    ensures Enabled(sys, Asks(Low, own))
    ensures Apply(sys, Asks(Low, own)) == if sys.low.waiter.Some? then sys else Asking(sys, own)
  {
    assert sys.toHigh + [] == sys.toHigh;
  }

  /** The request is on its way, and the initiator waits. */
  function Asking(sys: System, own: Ephemeral): System {
    var epoch := sys.low.session.epoch;
    sys.(low := sys.low.(waiter := Some(Waiter(epoch + 1, own)), answer := None),
         toHigh := sys.toHigh + [Frame(epoch, sys.low.session.key, RekeyRequest(epoch + 1, own))])
  }

  /** The initiator asks for the epoch after its own, whatever that is, unless it waits for an answer already. */
  lemma LowerSideAsks(a: Bytes, b: Bytes, key: Key, states: seq<System>, steps: seq<Label>, k: nat, own: Ephemeral)
    requires Run(a, b, key, states, steps) && k <= |steps| && !states[k].closed
    ensures var sys, sys' := states[k], Apply(states[k], Asks(Low, own));
      var epoch := sys.low.session.epoch;
      sys' == if sys.low.waiter.Some? then sys
              else sys.(low := sys.low.(waiter := Some(Waiter(epoch + 1, own)), answer := None),
                        toHigh := sys.toHigh + [Frame(epoch, sys.low.session.key, RekeyRequest(epoch + 1, own))])
  {
    Reachable(a, b, key, states, steps, k);
    LessIsStrictOrder(states[k].low.id, states[k].high.id);
    AskResult(states[k], own);
  }

  /** The other side leaves it to the initiator. */
  lemma HigherSideDoesNotAsk(a: Bytes, b: Bytes, key: Key, states: seq<System>, steps: seq<Label>, k: nat,
                             own: Ephemeral)
    requires Run(a, b, key, states, steps) && k <= |steps| && !states[k].closed
    ensures Apply(states[k], Asks(High, own)) == states[k]
  {
    Reachable(a, b, key, states, steps, k);
    var sys := states[k];
    assert sys.toLow + [] == sys.toLow && sys.toHigh + [] == sys.toHigh;
  }

  // ----- A whole round ---------------------------------------------------------------------

  /** Open, with no round under way and nothing on its way. */
  ghost predicate Quiet(sys: System) {
    && !sys.closed && sys.low.waiter.None? && sys.high.due.None? && sys.low.answer.None?
    && sys.toLow == [] && sys.toHigh == [] && sys.low.inbox == [] && sys.high.inbox == []
  }

  /** What a round can start from: both ends at the same epoch under the same key. */
  ghost predicate Even(sys: System) {
    && Quiet(sys) && Less(sys.low.id, sys.high.id) && !Less(sys.high.id, sys.low.id)
    && !Blank(sys.low.id) && !Blank(sys.high.id)
    && sys.low.peer == sys.high.id && sys.high.peer == sys.low.id && sys.low.due.None?
    && sys.low.session.epoch == sys.high.session.epoch && sys.low.session.key == sys.high.session.key
    && SessionOk(sys.low.session, sys.keys) && |sys.keys| == sys.low.session.epoch + 1
  }

  lemma QuietIsEven(a: Bytes, b: Bytes, key: Key, states: seq<System>, steps: seq<Label>, k: nat)
    requires Run(a, b, key, states, steps) && k <= |steps| && Quiet(states[k])
    ensures Even(states[k])
  {
    Reachable(a, b, key, states, steps, k);
    QuietMeansEqual(a, b, key, states, steps, k);
    LessIsStrictOrder(states[k].low.id, states[k].high.id);
  }

  // The states of a round, from an even one `sys` at which the initiator has `own` and the responder `theirs`.

  /** The key of the round. */
  function NextKey(sys: System, own: Ephemeral, theirs: Ephemeral): Key {
    Key({own, theirs}, SessionInfo(sys.low.id, sys.high.id, RekeyContext(sys.low.session.epoch + 1)))
  }

  function Request(sys: System, own: Ephemeral): Payload {
    RekeyRequest(sys.low.session.epoch + 1, own)
  }

  function Response(sys: System, theirs: Ephemeral): Payload {
    RekeyResponse(sys.low.session.epoch + 1, theirs)
  }

  function NextSession(sys: System, own: Ephemeral, theirs: Ephemeral): Session {
    var s := sys.low.session;
    Session(NextKey(sys, own, theirs), s.epoch + 1, Some(s.key), s.epoch)
  }

  /** The responder has read the request. */
  function RequestRead(sys: System, own: Ephemeral): System {
    Asking(sys, own).(toHigh := [], high := sys.high.(inbox := [Request(sys, own)], malformed := 0))
  }

  /** It has answered. */
  function Answering(sys: System, own: Ephemeral, theirs: Ephemeral): System {
    var s := sys.low.session;
    Asking(sys, own).(toHigh := [], toLow := [Frame(s.epoch, s.key, Response(sys, theirs))],
                      high := sys.high.(malformed := 0, due := Some(Rotation(NextKey(sys, own, theirs), s.epoch + 1))))
  }

  /** It has rotated. */
  function HighDone(sys: System, own: Ephemeral, theirs: Ephemeral): System {
    Answering(sys, own, theirs).(high := sys.high.(malformed := 0, session := NextSession(sys, own, theirs)),
                                 keys := sys.keys + [NextKey(sys, own, theirs)])
  }

  /** The initiator has read the answer. */
  function AnswerRead(sys: System, own: Ephemeral, theirs: Ephemeral): System {
    HighDone(sys, own, theirs).(toLow := [],
                                low := Asking(sys, own).low.(inbox := [Response(sys, theirs)], malformed := 0))
  }

  /** It has it in its slot. */
  function AnswerTaken(sys: System, own: Ephemeral, theirs: Ephemeral): System {
    AnswerRead(sys, own, theirs).(low := Asking(sys, own).low.(answer := Some(Response(sys, theirs)), malformed := 0))
  }

  /** Both have rotated: all is as before but for the keys, the epoch and the counts of malformed frames. */
  function AfterRound(sys: System, own: Ephemeral, theirs: Ephemeral): System {
    sys.(low := sys.low.(malformed := 0, session := NextSession(sys, own, theirs)),
         high := sys.high.(malformed := 0, session := NextSession(sys, own, theirs)),
         keys := sys.keys + [NextKey(sys, own, theirs)])
  }

  lemma ReadsRequest(sys: System, own: Ephemeral)
    requires Even(sys)
    ensures var asking := Asking(sys, own);
      Enabled(asking, Reads(High)) && Apply(asking, Reads(High)) == RequestRead(sys, own)
  {
    assert [] + [Request(sys, own)] == [Request(sys, own)];
  }

  lemma HandlesRequest(sys: System, own: Ephemeral, theirs: Ephemeral)
    requires Even(sys)
    ensures var read := RequestRead(sys, own);
      Enabled(read, Handles(High, theirs)) && Apply(read, Handles(High, theirs)) == Answering(sys, own, theirs)
  {
    BothEndsDeriveTheSame(own, theirs, sys.low.id, sys.high.id, [], sys.low.session.epoch + 1);
  }

  lemma RotatesHigh(sys: System, own: Ephemeral, theirs: Ephemeral)
    requires Even(sys)
    ensures var owing := Answering(sys, own, theirs);
      Enabled(owing, Rotates(High)) && Apply(owing, Rotates(High)) == HighDone(sys, own, theirs)
  {
  }

  lemma ReadsResponse(sys: System, own: Ephemeral, theirs: Ephemeral)
    requires Even(sys)
    ensures var rotated := HighDone(sys, own, theirs);
      Enabled(rotated, Reads(Low)) && Apply(rotated, Reads(Low)) == AnswerRead(sys, own, theirs)
  {
    assert [] + [Response(sys, theirs)] == [Response(sys, theirs)];
  }

  lemma TakesResponse(sys: System, own: Ephemeral, theirs: Ephemeral)
    requires Even(sys)
    ensures var read := AnswerRead(sys, own, theirs);
      Enabled(read, Handles(Low, 0)) && Apply(read, Handles(Low, 0)) == AnswerTaken(sys, own, theirs)
  {
  }

  lemma FinishesLow(sys: System, own: Ephemeral, theirs: Ephemeral)
    requires Even(sys)
    ensures var taken := AnswerTaken(sys, own, theirs);
      Enabled(taken, Finishes(Low)) && Apply(taken, Finishes(Low)) == AfterRound(sys, own, theirs)
  {
    BothEndsDeriveTheSame(own, theirs, sys.low.id, sys.high.id, [], sys.low.session.epoch + 1);
  }

  // ----- Runs ------------------------------------------------------------------------------

  /** One more step of a run. */
  lemma OneStepMore(a: Bytes, b: Bytes, key: Key, states: seq<System>, steps: seq<Label>, l: Label)
    returns (states': seq<System>, steps': seq<Label>)
    requires Run(a, b, key, states, steps) && Enabled(states[|steps|], l)
    ensures Run(a, b, key, states', steps') && steps' == steps + [l]
    ensures states' == states + [Apply(states[|steps|], l)]
  {
    states', steps' := states + [Apply(states[|steps|], l)], steps + [l];
    forall k | 0 <= k < |steps'|
      ensures Enabled(states'[k], steps'[k]) && states'[k + 1] == Apply(states'[k], steps'[k])
    {
      if k < |steps| {
        assert states'[k] == states[k] && states'[k + 1] == states[k + 1] && steps'[k] == steps[k];
      }
    }
  }

  /** The steps of a round. */
  function RoundSteps(own: Ephemeral, theirs: Ephemeral): seq<Label> {
    [Asks(Low, own), Reads(High), Handles(High, theirs), Rotates(High), Reads(Low), Handles(Low, 0), Finishes(Low)]
  }

  lemma UntilRequestRead(a: Bytes, b: Bytes, key: Key, states: seq<System>, steps: seq<Label>, own: Ephemeral)
    returns (states': seq<System>, steps': seq<Label>)
    requires Run(a, b, key, states, steps) && Even(states[|steps|])
    ensures Run(a, b, key, states', steps') && steps' == steps + [Asks(Low, own), Reads(High)]
    ensures states'[|steps'|] == RequestRead(states[|steps|], own)
  {
    var sys := states[|steps|];
    AskResult(sys, own);
    states', steps' := OneStepMore(a, b, key, states, steps, Asks(Low, own));
    ReadsRequest(sys, own);
    states', steps' := OneStepMore(a, b, key, states', steps', Reads(High));
  }

  lemma UntilHighDone(a: Bytes, b: Bytes, key: Key, states: seq<System>, steps: seq<Label>, sys: System,
                      own: Ephemeral, theirs: Ephemeral)
    returns (states': seq<System>, steps': seq<Label>)
    requires Run(a, b, key, states, steps) && Even(sys) && states[|steps|] == RequestRead(sys, own)
    ensures Run(a, b, key, states', steps') && steps' == steps + [Handles(High, theirs), Rotates(High)]
    ensures states'[|steps'|] == HighDone(sys, own, theirs)
  {
    HandlesRequest(sys, own, theirs);
    states', steps' := OneStepMore(a, b, key, states, steps, Handles(High, theirs));
    RotatesHigh(sys, own, theirs);
    states', steps' := OneStepMore(a, b, key, states', steps', Rotates(High));
  }

  lemma UntilAfterRound(a: Bytes, b: Bytes, key: Key, states: seq<System>, steps: seq<Label>, sys: System,
                        own: Ephemeral, theirs: Ephemeral)
    returns (states': seq<System>, steps': seq<Label>)
    requires Run(a, b, key, states, steps) && Even(sys) && states[|steps|] == HighDone(sys, own, theirs)
    ensures Run(a, b, key, states', steps') && steps' == steps + [Reads(Low), Handles(Low, 0), Finishes(Low)]
    ensures states'[|steps'|] == AfterRound(sys, own, theirs)
  {
    ReadsResponse(sys, own, theirs);
    states', steps' := OneStepMore(a, b, key, states, steps, Reads(Low));
    TakesResponse(sys, own, theirs);
    states', steps' := OneStepMore(a, b, key, states', steps', Handles(Low, 0));
    FinishesLow(sys, own, theirs);
    states', steps' := OneStepMore(a, b, key, states', steps', Finishes(Low));
  }

  /**
   From every reachable quiet state, at whatever epoch, a round of seven steps takes both ends to the next epoch under
   the key of their two ephemeral keys, with the old key kept for what is still to come, and all is quiet again.
   */
  lemma RoundSucceeds(a: Bytes, b: Bytes, key: Key, states: seq<System>, steps: seq<Label>, own: Ephemeral,
                      theirs: Ephemeral)
    returns (states': seq<System>, steps': seq<Label>)
    requires Run(a, b, key, states, steps) && Quiet(states[|steps|])
    ensures Run(a, b, key, states', steps') && steps' == steps + RoundSteps(own, theirs) && Quiet(states'[|steps'|])
    ensures var was, sys' := states[|steps|].low.session, states'[|steps'|];
      && sys'.low.session == Session(sys'.low.session.key, was.epoch + 1, Some(was.key), was.epoch)
      && sys'.high.session == sys'.low.session
      && sys'.low.session.key == Key({own, theirs}, SessionInfo(a, b, RekeyContext(was.epoch + 1)))
  {
    QuietIsEven(a, b, key, states, steps, |steps|);
    IdsOfRun(a, b, key, states, steps, |steps|);
    var sys := states[|steps|];
    states', steps' := UntilRequestRead(a, b, key, states, steps, own);
    states', steps' := UntilHighDone(a, b, key, states', steps', sys, own, theirs);
    states', steps' := UntilAfterRound(a, b, key, states', steps', sys, own, theirs);
    assert steps' == steps + RoundSteps(own, theirs);
  }

  lemma {:induction false} IdsOfRun(a: Bytes, b: Bytes, key: Key, states: seq<System>, steps: seq<Label>, k: nat)
    requires Run(a, b, key, states, steps) && k <= |steps|
    ensures states[k].low.id == a && states[k].high.id == b
  {
    if k > 0 { IdsOfRun(a, b, key, states, steps, k - 1); }
  }

  /** So every epoch is reached, by both ends together. */
  lemma {:induction false} EveryEpochIsReached(a: Bytes, b: Bytes, key: Key, n: nat)
    returns (states: seq<System>, steps: seq<Label>)
    requires Less(a, b) && !Blank(a) && !Blank(b)
    ensures Run(a, b, key, states, steps) && Quiet(states[|steps|])
    ensures states[|steps|].low.session.epoch == n && states[|steps|].high.session.epoch == n
  {
    if n == 0 {
      states, steps := [Fresh(a, b, key)], [];
    } else {
      states, steps := EveryEpochIsReached(a, b, key, n - 1);
      states, steps := RoundSucceeds(a, b, key, states, steps, 2 * n, 2 * n + 1);
    }
  }

  // ----- What closes a connection ----------------------------------------------------------

  /** A handler closes the connection exactly at epoch 0, or at a request whose two ids cannot give a key. */
  lemma HandlerClosesExactly(n: Node, own: Ephemeral)
    requires n.inbox != []
    ensures Handle(n, own).closes <==>
      || (n.inbox[0].RekeyRequest? && (n.inbox[0].epoch == 0 || Blank(n.id) || Blank(n.peer)))
      || (n.inbox[0].RekeyResponse? && n.inbox[0].epoch == 0)
  {
  }

  /** An answer is kept exactly for an initiator that waits and has none; the first one stays. */
  lemma AnswerIsKeptExactly(n: Node, own: Ephemeral)
    requires n.inbox != [] && n.inbox[0].RekeyResponse? && n.inbox[0].epoch > 0
    ensures var n' := Handle(n, own).node;
      && n' == n.(inbox := n.inbox[1..], answer := n'.answer)
      && n'.answer == if n.waiter.Some? && n.answer.None? then Some(n.inbox[0]) else n.answer
  {
  }

  /** An owed rotation closes the connection exactly if it is not to the next epoch, and otherwise is made. */
  lemma RotationClosesExactly(n: Node)
    requires n.due.Some?
    ensures var step, s := RotateDue(n), n.session;
      && (step.closes <==> n.due.value.epoch != s.epoch + 1)
      && step.node == n.(due := None, session := step.node.session)
      && step.node.session == if step.closes then s else Session(n.due.value.key, s.epoch + 1, Some(s.key), s.epoch)
  {
  }

  /** The initiator closes exactly if the answer is for another epoch, that is not the next, or no key can be had. */
  lemma FinishClosesExactly(n: Node)
    requires n.waiter.Some? && n.answer.Some? && n.answer.value.RekeyResponse?
    ensures FinishRekey(n).closes <==>
      || n.answer.value.epoch != n.waiter.value.epoch || n.waiter.value.epoch != n.session.epoch + 1
      || Blank(n.id) || Blank(n.peer)
  {
  }
}
