/**
 The keyed half of one peer connection (network/connection.go): which key seals, which key opens, what a
 rotation keeps, and the counters next to them. Sealing is abstract: a frame opens only under the key
 that sealed it.
 */
module SecureSession {
  import opened Common
  import opened KeyDerivation

  const MAX_MALFORMED_FRAMES := 3

  /**
   What a good frame can hold. A text is sealed once more inside, under the session key `inner` of the moment it was
   written, without an epoch. Oversized is any payload but file data above the control limit, typed or not;
   Untyped is a smaller one without a message type.
   */
  datatype Payload =
    | Text(id: nat, inner: Key)
    | RekeyRequest(epoch: nat, public: Ephemeral)
    | RekeyResponse(epoch: nat, public: Ephemeral)
    | Nothing
    | Untyped
    | Oversized
    | Ping
    | Pong
    | PeerDisconnect

  /** The payloads the read loop hands on to the manager. */
  predicate HandedOn(payload: Payload) {
    payload.Text? || payload.RekeyRequest? || payload.RekeyResponse?
  }

  /** A secure frame: the epoch it names, the key that sealed it, and what is inside. */
  datatype Frame = Frame(epoch: nat, key: Key, payload: Payload)

  /** What the framed stream can hand to the read loop. */
  datatype Wire = EmptyFrame | NotSecure | Secure(frame: Frame)

  datatype Session = Session(key: Key, epoch: nat, previousKey: Option<Key>, previousEpoch: nat)

  function NewSession(key: Key): Session {
    Session(key, 0, None, 0)
  }

  function Seal(s: Session, payload: Payload): Frame {
    Frame(s.epoch, s.key, payload)
  }

  /** The key that `decryptPayload` selects for a frame's epoch, if any. */
  function KeyFor(s: Session, epoch: nat): Option<Key> {
    if epoch == s.epoch then Some(s.key)
    else if s.previousKey.Some? && epoch == s.previousEpoch then s.previousKey
    else None
  }

  function Open(s: Session, f: Frame): Option<Payload> {
    if KeyFor(s, f.epoch) == Some(f.key) then Some(f.payload) else None
  }

  function Rotate(s: Session, newKey: Option<Key>, epoch: nat): Result<Session, string> {
    if newKey.None? then Err("rekey: new session key is required")
    else if epoch <= s.epoch then Err("rekey: stale epoch")
    else if epoch != s.epoch + 1 then Err("rekey: unexpected epoch")
    else Ok(Session(newKey.value, epoch, Some(s.key), s.epoch))
  }

  /** What one frame does to a read loop: the payload it hands on, the new malformed count, and whether it closes. */
  datatype ReadStep = ReadStep(delivered: Option<Payload>, malformed: nat, closes: bool)

  function Malformed(malformed: nat): ReadStep {
    ReadStep(None, malformed + 1, malformed + 1 >= MAX_MALFORMED_FRAMES)
  }

  function ReadPayload(malformed: nat, payload: Payload): ReadStep {
    match payload
    case Nothing => ReadStep(None, malformed, false)
    case Untyped => Malformed(malformed)
    case Oversized => ReadStep(None, malformed, true)
    case Ping => ReadStep(None, 0, false)
    case Pong => ReadStep(None, 0, false)
    case PeerDisconnect => ReadStep(None, 0, true)
    case _ => ReadStep(Some(payload), 0, false)
  }

  function ReadFrame(s: Session, malformed: nat, w: Wire): ReadStep {
    match w
    case EmptyFrame => ReadStep(None, malformed, false)
    case NotSecure => Malformed(malformed)
    case Secure(f) =>
      match Open(s, f)
      case None => Malformed(malformed)
      case Some(payload) => ReadPayload(malformed, payload)
  }

  /** After a rotation exactly the new epoch and the one before it can be opened. */
  lemma RotationKeepsTwoEpochs(s: Session, newKey: Key, epoch: nat)
    requires Rotate(s, Some(newKey), epoch).Ok?
    ensures var s' := Rotate(s, Some(newKey), epoch).value;
      && KeyFor(s', epoch) == Some(newKey)
      && KeyFor(s', epoch - 1) == Some(s.key)
      && forall e: nat :: KeyFor(s', e).Some? <==> e == epoch || e == epoch - 1
  {
  }

  class PeerConnection {
    var sessionKey: Key
    var sessionEpoch: nat
    var previousSessionKey: Option<Key>
    var previousSessionEpoch: nat
    var sendSequence: nat
    var lastSeenSeq: nat
    var inbound: seq<Payload>
    var outbound: seq<Frame>
    var closed: bool
    const autoRespondPing: bool

    ghost function View(): Session
      reads this
    {
      Session(sessionKey, sessionEpoch, previousSessionKey, previousSessionEpoch)
    }

    constructor (key: Key, autoRespondPing: bool)
      ensures View() == NewSession(key) && this.autoRespondPing == autoRespondPing
      ensures sendSequence == 0 && lastSeenSeq == 0 && inbound == [] && outbound == [] && !closed
    {
      this.autoRespondPing, outbound := autoRespondPing, [];
      sessionKey, sessionEpoch, previousSessionKey, previousSessionEpoch := key, 0, None, 0;
      sendSequence, lastSeenSeq, inbound, closed := 0, 0, [], false;
    }

    method RotateSessionKey(newKey: Option<Key>, epoch: nat) returns (r: Result<(), string>)
      modifies this`sessionKey, this`sessionEpoch, this`previousSessionKey, this`previousSessionEpoch
      ensures match Rotate(old(View()), newKey, epoch)
        case Ok(s) => r == Ok(()) && View() == s
        case Err(e) => r == Err(e) && View() == old(View())
    {
      if newKey.None? {
        return Err("rekey: new session key is required");
      }
      var currentEpoch := sessionEpoch;
      if epoch <= currentEpoch {
        return Err("rekey: stale epoch");
      }
      if epoch != currentEpoch + 1 {
        return Err("rekey: unexpected epoch");
      }
      previousSessionKey, previousSessionEpoch := Some(sessionKey), currentEpoch;
      sessionKey, sessionEpoch := newKey.value, epoch;
      return Ok(());
    }

    method EncryptPayload(payload: Payload) returns (f: Frame)
      ensures f == Seal(View(), payload)
      ensures Open(View(), f) == Some(payload)
    {
      f := Frame(sessionEpoch, sessionKey, payload);
    }

    method DecryptPayload(f: Frame) returns (payload: Option<Payload>)
      ensures payload == Open(View(), f)
    {
      var key := sessionKey;
      if f.epoch == sessionEpoch {
      } else if previousSessionKey.Some? && f.epoch == previousSessionEpoch {
        key := previousSessionKey.value;
      } else {
        return None;
      }
      payload := if key == f.key then Some(f.payload) else None;
    }

    method NextSendSequence() returns (sequence: nat)
      modifies this`sendSequence
      ensures sendSequence == old(sendSequence) + 1 && sequence == sendSequence
    {
      sendSequence := sendSequence + 1;
      return sendSequence;
    }

    method ValidateSequence(sequence: nat) returns (accepted: bool)
      modifies this`lastSeenSeq
      ensures accepted <==> sequence > old(lastSeenSeq)
      ensures lastSeenSeq == if accepted then sequence else old(lastSeenSeq)
    {
      if sequence <= lastSeenSeq {
        return false;
      }
      lastSeenSeq := sequence;
      return true;
    }

    /** One turn of the read loop, with its malformed count. */
    method HandleFrame(w: Wire, malformed: nat) returns (consecutiveMalformedFrames: nat)
      requires !closed
      modifies this`inbound, this`outbound, this`closed
      ensures var step := ReadFrame(View(), malformed, w);
        && consecutiveMalformedFrames == step.malformed && closed == step.closes
        && inbound == old(inbound) + if step.delivered.Some? then [step.delivered.value] else []
      ensures outbound == old(outbound) + if autoRespondPing then PongFor(View(), w) else []
    {
      consecutiveMalformedFrames := malformed;
      if w.EmptyFrame? {
        return;
      }
      var payload := None;
      if w.Secure? {
        payload := DecryptPayload(w.frame);
      }
      if payload == Some(Nothing) {
        return;
      }
      if payload == Some(Oversized) {
        closed := true;
        return;
      }
      if payload.None? || payload.value.Untyped? {
        consecutiveMalformedFrames := consecutiveMalformedFrames + 1;
        closed := consecutiveMalformedFrames >= MAX_MALFORMED_FRAMES;
        return;
      }
      consecutiveMalformedFrames := 0;
      if payload.value.Ping? {
        if autoRespondPing {
          var pong := EncryptPayload(Pong);
          outbound := outbound + [pong];
        }
      } else if payload.value.PeerDisconnect? {
        closed := true;
      } else if !payload.value.Pong? {
        inbound := inbound + [payload.value];
      }
    }

    /** The read loop over the frames that arrive while the session stays as it is. */
    method ReadLoop(frames: seq<Wire>) returns (used: nat)
      requires !closed
      modifies this`inbound, this`outbound, this`closed
      ensures used <= |frames|
      ensures inbound == old(inbound) + Delivered(View(), frames[..used])
      ensures outbound == old(outbound) + if autoRespondPing then Pongs(View(), frames[..used]) else []
      ensures !closed ==> used == |frames|
      ensures closed <==> Closing(View(), frames[..used])
      ensures forall k :: 0 <= k < used ==> !Closing(View(), frames[..k])
    {
      var consecutiveMalformedFrames := 0;
      used := 0;
      while used < |frames| && !closed
        invariant ReadSoFar(View(), frames, used, consecutiveMalformedFrames, closed)
        invariant inbound == old(inbound) + Delivered(View(), frames[..used])
        invariant outbound == old(outbound) + if autoRespondPing then Pongs(View(), frames[..used]) else []
      {
        ReadOneMore(View(), frames, used, consecutiveMalformedFrames, old(inbound), old(outbound));
        consecutiveMalformedFrames := HandleFrame(frames[used], consecutiveMalformedFrames);
        used := used + 1;
      }
    }
  }

  /** What one more frame adds to a stretch. */
  lemma OneMore(s: Session, frames: seq<Wire>, k: nat)
    requires k < |frames|
    ensures var before, after := frames[..k], frames[..k + 1];
      var step := ReadFrame(s, Trailing(s, before), frames[k]);
      && Trailing(s, after) == step.malformed
      && (Closing(s, after) <==> step.closes)
      && Delivered(s, after) == Delivered(s, before) + (if step.delivered.Some? then [step.delivered.value] else [])
      && Pongs(s, after) == Pongs(s, before) + PongFor(s, frames[k])
  {
    assert frames[..k + 1][..k] == frames[..k];
  }

  lemma Regroup<T>(a: seq<T>, b: seq<T>, c: seq<T>)
    ensures a + b + c == a + (b + c)
  {
  }

  /** Where the loop stands after `used` frames: how many malformed ones end the row, and that none closed it before. */
  ghost predicate ReadSoFar(s: Session, frames: seq<Wire>, used: nat, malformed: nat, closed: bool) {
    && used <= |frames|
    && malformed == Trailing(s, frames[..used])
    && (closed <==> Closing(s, frames[..used]))
    && forall k :: 0 <= k < used ==> !Closing(s, frames[..k])
  }

  lemma ReadOneMore(s: Session, frames: seq<Wire>, used: nat, malformed: nat, inbound: seq<Payload>,
                    outbound: seq<Frame>)
    requires used < |frames| && ReadSoFar(s, frames, used, malformed, false)
    ensures var step := ReadFrame(s, malformed, frames[used]);
      && ReadSoFar(s, frames, used + 1, step.malformed, step.closes)
      && inbound + Delivered(s, frames[..used + 1]) ==
           inbound + Delivered(s, frames[..used]) + (if step.delivered.Some? then [step.delivered.value] else [])
      && outbound + Pongs(s, frames[..used + 1]) == outbound + Pongs(s, frames[..used]) + PongFor(s, frames[used])
  {
    var step := ReadFrame(s, malformed, frames[used]);
    OneMore(s, frames, used);
    Regroup(inbound, Delivered(s, frames[..used]), if step.delivered.Some? then [step.delivered.value] else []);
    Regroup(outbound, Pongs(s, frames[..used]), PongFor(s, frames[used]));
  }

  function PongFor(s: Session, w: Wire): seq<Frame> {
    if w.Secure? && Open(s, w.frame) == Some(Ping) then [Seal(s, Pong)] else []
  }

  /** The pongs that answer the pings in a stretch of the stream. */
  function Pongs(s: Session, frames: seq<Wire>): seq<Frame> {
    if frames == [] then []
    else Pongs(s, frames[..|frames| - 1]) + PongFor(s, frames[|frames| - 1])
  }

  /** The last frame of a stretch closes the connection. */
  predicate Closing(s: Session, frames: seq<Wire>) {
    frames != [] && ReadFrame(s, Trailing(s, frames[..|frames| - 1]), frames[|frames| - 1]).closes
  }

  /** Neither an empty frame nor one that opens to something with a message type. */
  predicate Bad(s: Session, w: Wire) {
    w.NotSecure? || (w.Secure? && (Open(s, w.frame) == None || Open(s, w.frame) == Some(Untyped)))
  }

  /** It ends a row of malformed frames. */
  predicate Good(s: Session, w: Wire) {
    w.Secure? && Open(s, w.frame).Some?
    && match Open(s, w.frame).value
       case Nothing => false
       case Untyped => false
       case Oversized => false
       case _ => true
  }

  /** Frame `i` is malformed, and no good one follows it. */
  predicate OpenRow(s: Session, frames: seq<Wire>, i: nat) {
    i < |frames| && Bad(s, frames[i]) && forall m :: i < m < |frames| ==> !Good(s, frames[m])
  }

  lemma OpenRowBefore(s: Session, frames: seq<Wire>, i: nat)
    requires frames != []
    ensures var before, last := frames[..|frames| - 1], |frames| - 1;
      OpenRow(s, frames, i) <==>
        (i == last && Bad(s, frames[last])) || (i < last && OpenRow(s, before, i) && !Good(s, frames[last]))
  {
    var before := frames[..|frames| - 1];
    assert forall m :: 0 <= m < |before| ==> before[m] == frames[m];
  }

  /** The malformed frames that end a stretch: the last one, and the last before it. */
  lemma {:induction false} TrailingHas(s: Session, frames: seq<Wire>) returns (i: nat, j: nat)
    ensures Trailing(s, frames) >= 1 ==> OpenRow(s, frames, j)
    ensures Trailing(s, frames) >= 2 ==> i < j && OpenRow(s, frames, i)
  {
    if frames == [] {
      return 0, 0;
    }
    var before, last := frames[..|frames| - 1], |frames| - 1;
    i, j := TrailingHas(s, before);
    OpenRowBefore(s, frames, i);
    OpenRowBefore(s, frames, j);
    if Bad(s, frames[last]) {
      OpenRowBefore(s, frames, last);
      i, j := j, last;
    }
  }

  lemma {:induction false} TrailingCounts(s: Session, frames: seq<Wire>, i: nat, j: nat)
    requires i <= j && OpenRow(s, frames, i) && OpenRow(s, frames, j)
    ensures Trailing(s, frames) >= if i < j then 2 else 1
  {
    var last := |frames| - 1;
    OpenRowBefore(s, frames, i);
    OpenRowBefore(s, frames, j);
    if i < last {
      TrailingCounts(s, frames[..last], i, if j < last then j else i);
    }
  }

  /** Two malformed frames come before the last frame of a stretch, with no good one after the first of them. */
  ghost predicate TwoBefore(s: Session, frames: seq<Wire>) {
    exists i, j :: 0 <= i < j < |frames| - 1 && Bad(s, frames[i]) && Bad(s, frames[j])
                   && forall m :: i < m < |frames| - 1 ==> !Good(s, frames[m])
  }

  lemma TwoBeforeIsTrailing(s: Session, frames: seq<Wire>)
    requires frames != []
    ensures TwoBefore(s, frames) <==> Trailing(s, frames[..|frames| - 1]) >= 2
  {
    var before := frames[..|frames| - 1];
    assert forall m :: 0 <= m < |before| ==> before[m] == frames[m];
    if Trailing(s, before) >= 2 {
      var i, j := TrailingHas(s, before);
      assert Bad(s, frames[i]) && Bad(s, frames[j]);
    } else if TwoBefore(s, frames) {
      var i, j :| 0 <= i < j < |frames| - 1 && Bad(s, frames[i]) && Bad(s, frames[j])
        && forall m :: i < m < |frames| - 1 ==> !Good(s, frames[m]);
      TrailingCounts(s, before, i, j);
    }
  }

  /** It is a disconnect notice, an oversized payload, or a malformed frame after two with no good one between. */
  lemma ClosingExactly(s: Session, frames: seq<Wire>)
    requires frames != []
    ensures var w := frames[|frames| - 1];
      Closing(s, frames) <==>
        || (w.Secure? && (Open(s, w.frame) == Some(PeerDisconnect) || Open(s, w.frame) == Some(Oversized)))
        || (Bad(s, w) && TwoBefore(s, frames))
  {
    TwoBeforeIsTrailing(s, frames);
  }

  /** A frame opens exactly under the key of its epoch, which must be the session's or the one before. */
  lemma OpensExactly(s: Session, f: Frame)
    ensures var current := f.epoch == s.epoch && f.key == s.key;
      var previous := s.previousKey.Some? && f.epoch == s.previousEpoch != s.epoch && f.key == s.previousKey.value;
      Open(s, f) == if current || previous then Some(f.payload) else None
  {
  }

  /** One more frame hands on a text or a rekey message that opens, answers a ping, and does nothing else of the two. */
  lemma HandedOnExactly(s: Session, frames: seq<Wire>, w: Wire)
    ensures var payload := if w.Secure? then Open(s, w.frame) else None;
      && Delivered(s, frames + [w]) ==
           Delivered(s, frames) + (if payload.Some? && HandedOn(payload.value) then [payload.value] else [])
      && Pongs(s, frames + [w]) ==
           Pongs(s, frames) + (if payload == Some(Ping) then [Frame(s.epoch, s.key, Pong)] else [])
  {
    assert (frames + [w])[..|frames|] == frames;
  }

  /** A rotation is made exactly to the next epoch and with a key, and keeps the old key as the previous one. */
  lemma RotatesExactly(s: Session, newKey: Option<Key>, epoch: nat)
    ensures var r := Rotate(s, newKey, epoch);
      if newKey.Some? && epoch == s.epoch + 1 then r == Ok(Session(newKey.value, s.epoch + 1, Some(s.key), s.epoch))
      else r.Err?
  {
  }

  /** The payloads that a session hands on from a stretch of the stream. */
  function Delivered(s: Session, frames: seq<Wire>): seq<Payload> {
    if frames == [] then []
    else
      var last := ReadFrame(s, 0, frames[|frames| - 1]).delivered;
      Delivered(s, frames[..|frames| - 1]) + if last.Some? then [last.value] else []
  }

  /** How many malformed frames end a stretch, with no good frame after them; empty ones do not count either way. */
  function Trailing(s: Session, frames: seq<Wire>): nat {
    if frames == [] then 0
    else ReadFrame(s, Trailing(s, frames[..|frames| - 1]), frames[|frames| - 1]).malformed
  }

  /** The sequence numbers that `ValidateSequence` lets through, starting from the last one seen. */
  function Accepted(last: nat, sequences: seq<nat>): seq<nat>
    decreases |sequences|
  {
    if sequences == [] then []
    else if sequences[0] > last then [sequences[0]] + Accepted(sequences[0], sequences[1..])
    else Accepted(last, sequences[1..])
  }

  /** Whatever arrives, the accepted numbers are strictly increasing, so none is accepted twice. */
  lemma {:induction false} AcceptedIncreases(last: nat, sequences: seq<nat>, i: nat)
    requires i < |Accepted(last, sequences)|
    ensures Accepted(last, sequences)[i] > if i == 0 then last else Accepted(last, sequences)[i - 1]
    decreases |sequences|
  {
    if sequences[0] > last {
      if i > 0 { AcceptedIncreases(sequences[0], sequences[1..], i - 1); }
    } else {
      AcceptedIncreases(last, sequences[1..], i);
    }
  }

  predicate Increasing(last: nat, sequences: seq<nat>)
    decreases |sequences|
  {
    sequences == [] || (sequences[0] > last && Increasing(sequences[0], sequences[1..]))
  }

  /** The numbers that `NextSendSequence` returns in n calls, from a counter that stands at `last`. */
  function SentNumbers(last: nat, n: nat): seq<nat>
    decreases n
  {
    if n == 0 then [] else [last + 1] + SentNumbers(last + 1, n - 1)
  }

  /** They make an increasing stream, which a receiver that has seen nothing later accepts whole. */
  lemma {:induction false} SentNumbersAreAccepted(last: nat, n: nat, seen: nat)
    requires seen <= last
    ensures Increasing(seen, SentNumbers(last, n)) && Accepted(seen, SentNumbers(last, n)) == SentNumbers(last, n)
    decreases n
  {
    if n > 0 {
      SentNumbersAreAccepted(last + 1, n - 1, last + 1);
    }
  }

  /** A stream is accepted whole exactly when it increases. */
  lemma {:induction false} AcceptedWholeIffIncreasing(last: nat, sequences: seq<nat>)
    ensures |Accepted(last, sequences)| <= |sequences|
    ensures Accepted(last, sequences) == sequences <==> Increasing(last, sequences)
    decreases |sequences|
  {
    if sequences != [] {
      assert sequences == [sequences[0]] + sequences[1..];
      AcceptedWholeIffIncreasing(if sequences[0] > last then sequences[0] else last, sequences[1..]);
      if sequences[0] > last {
        assert Accepted(last, sequences)[1..] == Accepted(sequences[0], sequences[1..]);
      }
    }
  }
}
