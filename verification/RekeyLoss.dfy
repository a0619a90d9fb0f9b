/**
 Runs in which a rekey loses what the responder sends after its rotation, because the initiator's read loop takes it
 before the initiator has rotated.
 */
module RekeyLoss {
  import opened Common
  import opened KeyDerivation
  import opened SecureSession
  import opened RekeyProtocol
  import opened RekeyRounds

  const A: Bytes := [65]
  const B: Bytes := [66]

  /** The two ephemeral keys of the round, and the key both ends derive from them. */
  const ASKER: Ephemeral := 1
  const ANSWERER: Ephemeral := 2

  function NewKey(): Key {
    Key({ASKER, ANSWERER}, SessionInfo(A, B, RekeyContext(1)))
  }

  lemma Names()
    ensures Less(A, B) && !Less(B, A) && !Blank(A) && !Blank(B)
    ensures DeriveRekeySessionKey(ASKER, ANSWERER, A, B, 1) == Ok(NewKey())
    ensures DeriveRekeySessionKey(ANSWERER, ASKER, B, A, 1) == Ok(NewKey())
  {
    assert A[0] in A && B[0] in B;
    BothEndsDeriveTheSame(ASKER, ANSWERER, A, B, [], 1);
  }

  /** The initiator, waiting for the answer. */
  function Waiting(key: Key): Node {
    Node(A, B, NewSession(key), 0, [], Some(Waiter(1, ASKER)), None, None, {}, [])
  }

  /** The responder, once it has rotated. */
  function Rotated(key: Key): Node {
    Node(B, A, Session(NewKey(), 1, Some(key), 0), 0, [], None, None, None, {}, [])
  }

  function Answer(key: Key): Frame {
    Frame(0, key, RekeyResponse(1, ANSWERER))
  }

  /** After the rotation: the answer is on its way under the old key, and the new one is in use already. */
  function Ahead(key: Key): System {
    System(Waiting(key), Rotated(key), [Answer(key)], [], false, [key, NewKey()])
  }

  lemma Asks1(key: Key)
    ensures var sys, l := Fresh(A, B, key), Asks(Low, ASKER);
      Enabled(sys, l) && Apply(sys, l) ==
        sys.(low := Waiting(key), toHigh := [Frame(0, key, RekeyRequest(1, ASKER))])
  {
  }

  lemma Reads2(key: Key)
    ensures var f := Frame(0, key, RekeyRequest(1, ASKER));
      var sys, l := Fresh(A, B, key).(low := Waiting(key), toHigh := [f]), Reads(High);
      Enabled(sys, l) && Apply(sys, l) == sys.(toHigh := [], high := sys.high.(inbox := [f.payload]))
  {
  }

  lemma Handles3(key: Key)
    ensures var sys := Fresh(A, B, key).(low := Waiting(key));
      var asked := sys.(high := sys.high.(inbox := [RekeyRequest(1, ASKER)]));
      var l := Handles(High, ANSWERER);
      Enabled(asked, l) && Apply(asked, l) ==
        sys.(high := sys.high.(due := Some(Rotation(NewKey(), 1))), toLow := [Answer(key)])
  {
    Names();
  }

  lemma Rotates4(key: Key)
    ensures var sys := Fresh(A, B, key).(low := Waiting(key));
      var answered := sys.(high := sys.high.(due := Some(Rotation(NewKey(), 1))), toLow := [Answer(key)]);
      Enabled(answered, Rotates(High)) && Apply(answered, Rotates(High)) == Ahead(key)
  {
  }

  /** The run up to the responder's rotation. */
  lemma RunToRotation(key: Key) returns (states: seq<System>, steps: seq<Label>)
    ensures Run(A, B, key, states, steps) && |steps| == 4 && states[4] == Ahead(key)
  {
    Names();
    states, steps := [Fresh(A, B, key)], [];
    Asks1(key);
    states, steps := OneStepMore(A, B, key, states, steps, Asks(Low, ASKER));
    Reads2(key);
    states, steps := OneStepMore(A, B, key, states, steps, Reads(High));
    Handles3(key);
    states, steps := OneStepMore(A, B, key, states, steps, Handles(High, ANSWERER));
    Rotates4(key);
    states, steps := OneStepMore(A, B, key, states, steps, Rotates(High));
  }

  /** A text that the responder writes and sends then, sealed under the new key, inside and out. */
  function NewText(text: nat): Frame {
    Frame(1, NewKey(), Text(text, NewKey()))
  }

  lemma ComposesNew(key: Key, ch: seq<Frame>, text: nat)
    ensures var sys, l := Ahead(key).(toLow := ch), Composes(High, text);
      Enabled(sys, l) && Apply(sys, l) == sys.(high := sys.high.(drafts := {Draft(text, NewKey())}))
  {
    assert ch + [] == ch;
    assert {} + {Draft(text, NewKey())} == {Draft(text, NewKey())};
  }

  lemma SendsNew(key: Key, ch: seq<Frame>, text: nat)
    ensures var sys, l := Ahead(key).(toLow := ch), Sends(High, Draft(text, NewKey()));
      var written := sys.(high := sys.high.(drafts := {Draft(text, NewKey())}));
      Enabled(written, l) && Apply(written, l) == sys.(toLow := ch + [NewText(text)])
  {
    assert {Draft(text, NewKey())} - {Draft(text, NewKey())} == {};
  }

  /** Both steps, in a run that stands where the responder has rotated. */
  lemma SaysNew(key: Key, states: seq<System>, steps: seq<Label>, ch: seq<Frame>, text: nat)
    returns (states': seq<System>, steps': seq<Label>)
    requires Run(A, B, key, states, steps) && states[|steps|] == Ahead(key).(toLow := ch)
    ensures Run(A, B, key, states', steps')
    ensures steps' == steps + [Composes(High, text), Sends(High, Draft(text, NewKey()))]
    ensures |states'| == |states| + 2 && states'[..|states|] == states
    ensures states'[|steps'|] == Ahead(key).(toLow := ch + [NewText(text)])
  {
    ComposesNew(key, ch, text);
    states', steps' := OneStepMore(A, B, key, states, steps, Composes(High, text));
    SendsNew(key, ch, text);
    states', steps' := OneStepMore(A, B, key, states', steps', Sends(High, Draft(text, NewKey())));
  }

  /** The initiator with the answer opened but not handled. */
  function Reached(key: Key, malformed: nat): Node {
    Waiting(key).(inbox := [RekeyResponse(1, ANSWERER)], malformed := malformed)
  }

  lemma ReadsAnswer(key: Key, rest: seq<Frame>)
    ensures var sys := Ahead(key).(toLow := [Answer(key)] + rest);
      Enabled(sys, Reads(Low)) && Apply(sys, Reads(Low)) == sys.(low := Reached(key, 0), toLow := rest)
  {
    assert ([Answer(key)] + rest)[1..] == rest;
  }

  /** A text under the new key is not handed on to an initiator that has not rotated; the third in a row closes. */
  lemma ReadsTooEarly(key: Key, malformed: nat, text: nat, rest: seq<Frame>)
    ensures var sys := Ahead(key).(low := Reached(key, malformed), toLow := [NewText(text)] + rest);
      && Enabled(sys, Reads(Low))
      && Apply(sys, Reads(Low)) ==
           sys.(low := Reached(key, malformed + 1), toLow := rest, closed := malformed + 1 >= MAX_MALFORMED_FRAMES)
  {
    assert ([NewText(text)] + rest)[1..] == rest;
    assert Reached(key, malformed).inbox + [] == Reached(key, malformed).inbox;
  }

  /** The initiator once it has the answer, and once it has rotated. */
  function Ready(key: Key, malformed: nat): Node {
    Waiting(key).(answer := Some(RekeyResponse(1, ANSWERER)), malformed := malformed)
  }

  function Done(key: Key, malformed: nat): Node {
    Node(A, B, Session(NewKey(), 1, Some(key), 0), malformed, [], None, None, None, {}, [])
  }

  lemma HandlesAnswer(key: Key, malformed: nat)
    ensures var sys, l := Ahead(key).(low := Reached(key, malformed), toLow := []), Handles(Low, 0);
      Enabled(sys, l) && Apply(sys, l) == sys.(low := Ready(key, malformed))
  {
  }

  lemma FinishesRound(key: Key, malformed: nat)
    ensures var sys := Ahead(key).(low := Ready(key, malformed), toLow := []);
      Enabled(sys, Finishes(Low)) && Apply(sys, Finishes(Low)) == sys.(low := Done(key, malformed))
  {
    Names();
  }

  lemma UntilReadTooEarly(key: Key, text: nat) returns (states: seq<System>, steps: seq<Label>)
    ensures Run(A, B, key, states, steps) && |steps| == 8 && steps[5] == Sends(High, Draft(text, NewKey()))
    ensures states[7] == Ahead(key).(low := Reached(key, 0), toLow := [NewText(text)])
    ensures states[8] == Ahead(key).(low := Reached(key, 1), toLow := [])
  {
    states, steps := RunToRotation(key);
    states, steps := SaysNew(key, states, steps, [Answer(key)], text);
    ReadsAnswer(key, [NewText(text)]);
    states, steps := OneStepMore(A, B, key, states, steps, Reads(Low));
    ReadsTooEarly(key, 0, text, []);
    assert [NewText(text)] + [] == [NewText(text)];
    states, steps := OneStepMore(A, B, key, states, steps, Reads(Low));
  }

  /**
   The responder answers, rotates and sends; the initiator reads both before it rotates. The round then ends as it
   should, and the text has gone from the channel without ever being handed on.
   */
  lemma TextIsLost(key: Key, text: nat) returns (states: seq<System>, steps: seq<Label>)
    ensures Run(A, B, key, states, steps) && |steps| == 10 && steps[5] == Sends(High, Draft(text, NewKey()))
    ensures states[7].toLow == [NewText(text)] && states[8].toLow == []
    ensures states[8].low == states[7].low.(malformed := 1)
    ensures var last := states[10];
      && last.low.session == last.high.session && last.low.waiter.None? && !last.closed
      && last.toLow == [] && last.low.inbox == [] && last.low.shown == []
  {
    states, steps := UntilReadTooEarly(key, text);
    HandlesAnswer(key, 1);
    states, steps := OneStepMore(A, B, key, states, steps, Handles(Low, 0));
    FinishesRound(key, 1);
    states, steps := OneStepMore(A, B, key, states, steps, Finishes(Low));
  }

  lemma SendsThree(key: Key) returns (states: seq<System>, steps: seq<Label>)
    ensures Run(A, B, key, states, steps) && |steps| == 10
    ensures states[10] == Ahead(key).(toLow := [Answer(key)] + [NewText(1), NewText(2), NewText(3)])
  {
    states, steps := RunToRotation(key);
    states, steps := SaysNew(key, states, steps, [Answer(key)], 1);
    states, steps := SaysNew(key, states, steps, [Answer(key), NewText(1)], 2);
    states, steps := SaysNew(key, states, steps, [Answer(key), NewText(1), NewText(2)], 3);
  }

  lemma UntilOneLeft(key: Key) returns (states: seq<System>, steps: seq<Label>)
    ensures Run(A, B, key, states, steps) && |steps| == 13
    ensures states[13] == Ahead(key).(low := Reached(key, 2), toLow := [NewText(3)])
  {
    states, steps := SendsThree(key);
    ReadsAnswer(key, [NewText(1), NewText(2), NewText(3)]);
    states, steps := OneStepMore(A, B, key, states, steps, Reads(Low));
    ReadsTooEarly(key, 0, 1, [NewText(2), NewText(3)]);
    assert [NewText(1)] + [NewText(2), NewText(3)] == [NewText(1), NewText(2), NewText(3)];
    states, steps := OneStepMore(A, B, key, states, steps, Reads(Low));
    ReadsTooEarly(key, 1, 2, [NewText(3)]);
    assert [NewText(2)] + [NewText(3)] == [NewText(2), NewText(3)];
    states, steps := OneStepMore(A, B, key, states, steps, Reads(Low));
  }

  /** Three texts sent then close the connection, with no frame that anybody tampered with. */
  lemma ThreeTextsClose(key: Key) returns (states: seq<System>, steps: seq<Label>)
    ensures Run(A, B, key, states, steps) && |steps| == 14 && !states[13].closed && states[14].closed
  {
    states, steps := UntilOneLeft(key);
    ReadsTooEarly(key, 2, 3, []);
    assert [NewText(3)] + [] == [NewText(3)];
    states, steps := OneStepMore(A, B, key, states, steps, Reads(Low));
  }

  // ----- A text that is handed on and then refused -----------------------------------------

  /** A text that the initiator writes and sends while it still waits, sealed under the old key, inside and out. */
  function OldText(key: Key, text: nat): Frame {
    Frame(0, key, Text(text, key))
  }

  lemma ComposesOld(key: Key, text: nat)
    ensures var sys, l := Ahead(key), Composes(Low, text);
      Enabled(sys, l) && Apply(sys, l) == sys.(low := sys.low.(drafts := {Draft(text, key)}))
  {
    assert {} + {Draft(text, key)} == {Draft(text, key)};
  }

  lemma SendsOld(key: Key, text: nat)
    ensures var sys, l := Ahead(key), Sends(Low, Draft(text, key));
      var written := sys.(low := sys.low.(drafts := {Draft(text, key)}));
      Enabled(written, l) && Apply(written, l) == sys.(toHigh := [OldText(key, text)])
  {
    assert {Draft(text, key)} - {Draft(text, key)} == {};
    assert [] + [OldText(key, text)] == [OldText(key, text)];
  }

  /** The responder has rotated, but its previous key still opens the frame. */
  lemma ReadsOld(key: Key, text: nat)
    ensures var sys := Ahead(key).(toHigh := [OldText(key, text)]);
      Enabled(sys, Reads(High)) && Apply(sys, Reads(High)) ==
        sys.(high := sys.high.(inbox := [Text(text, key)]), toHigh := [])
  {
  }

  /** It does not open what is inside. */
  lemma HandlesOld(key: Key, text: nat)
    requires key != NewKey()
    ensures var sys, l := Ahead(key).(high := Rotated(key).(inbox := [Text(text, key)])), Handles(High, 0);
      Enabled(sys, l) && Apply(sys, l) == Ahead(key)
  {
  }

  /**
   The initiator writes and sends before it has rotated, and the responder reads after it has: the text is handed on,
   refused, and never shown, with no frame that counts as malformed.
   */
  lemma TextIsRefused(key: Key, text: nat) returns (states: seq<System>, steps: seq<Label>)
    requires key != NewKey()
    ensures Run(A, B, key, states, steps) && |steps| == 8 && steps[5] == Sends(Low, Draft(text, key))
    ensures states[7].high.inbox == [Text(text, key)] && states[7].high.malformed == 0
    ensures states[8].high.inbox == [] && states[8].high.shown == [] && states[8].toHigh == []
  {
    states, steps := RunToRotation(key);
    ComposesOld(key, text);
    states, steps := OneStepMore(A, B, key, states, steps, Composes(Low, text));
    SendsOld(key, text);
    states, steps := OneStepMore(A, B, key, states, steps, Sends(Low, Draft(text, key)));
    ReadsOld(key, text);
    states, steps := OneStepMore(A, B, key, states, steps, Reads(High));
    HandlesOld(key, text);
    states, steps := OneStepMore(A, B, key, states, steps, Handles(High, 0));
  }
}
