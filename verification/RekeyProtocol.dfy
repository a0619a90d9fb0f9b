/**
 One connection between two devices that rekey it (network/peer_manager.go, network/connection.go).
 Each side seals into a FIFO channel; its read loop opens frames ahead of the handler that acts on them;
 the responder answers a rekey request before it rotates, and the initiator rotates some time after the
 answer has reached it.
 */
module RekeyProtocol {
  import opened Common
  import opened KeyDerivation
  import opened SecureSession

  /** The initiator's wait for an answer: the epoch it asked for and its own ephemeral key. */
  datatype Waiter = Waiter(epoch: nat, own: Ephemeral)

  datatype Rotation = Rotation(key: Key, epoch: nat)

  /** A text with its inner encryption, not yet in a frame. */
  datatype Draft = Draft(id: nat, inner: Key)

  /**
   One side. `inbox` holds opened frames the handler has not taken yet, `answer` is the waiter's
   one-slot channel, and `due` is the rotation the handler still owes after it has answered. `drafts` are
   texts on their way into a frame, and `shown` are those of the other side that came through.
   */
  datatype Node = Node(
    id: Bytes, peer: Bytes, session: Session, malformed: nat, inbox: seq<Payload>,
    waiter: Option<Waiter>, answer: Option<Payload>, due: Option<Rotation>,
    drafts: set<Draft>, shown: seq<nat>)

  datatype NodeStep = NodeStep(node: Node, sends: seq<Frame>, closes: bool)

  /** `buildEncryptedMessage`: the inner encryption, under the session key of now. */
  function ComposeText(n: Node, id: nat): NodeStep {
    NodeStep(n.(drafts := n.drafts + {Draft(id, n.session.key)}), [], false)
  }

  /** The frame, sealed under the session key of now, which need not be that of the draft. */
  function SendText(n: Node, d: Draft): NodeStep {
    NodeStep(n.(drafts := n.drafts - {d}), [Seal(n.session, Text(d.id, d.inner))], false)
  }

  /** The inner encryption is opened with the reader's session key of now, and with no other. */
  function OnText(n: Node, id: nat, inner: Key): NodeStep {
    NodeStep(if inner == n.session.key then n.(shown := n.shown + [id]) else n, [], false)
  }

  /** The read loop takes the next frame of the channel. */
  function Read(n: Node, f: Frame): NodeStep {
    var step := ReadFrame(n.session, n.malformed, Secure(f));
    var handedOn := if step.delivered.Some? then [step.delivered.value] else [];
    NodeStep(n.(malformed := step.malformed, inbox := n.inbox + handedOn), [], step.closes)
  }

  /** `onConnectionRekeyNeeded` and the start of `initiateRekey`: only the lower id asks, and only once at a time. */
  function StartRekey(n: Node, own: Ephemeral): NodeStep {
    if Less(n.peer, n.id) || n.waiter.Some? then
      NodeStep(n, [], false)
    else
      var epoch := n.session.epoch + 1;
      NodeStep(n.(waiter := Some(Waiter(epoch, own)), answer := None), [Seal(n.session, RekeyRequest(epoch, own))],
               false)
  }

  function OnRekeyRequest(n: Node, epoch: nat, public: Ephemeral, own: Ephemeral): NodeStep {
    if epoch == 0 then NodeStep(n, [], true)
    else match DeriveRekeySessionKey(own, public, n.id, n.peer, epoch)
      case Err(_) => NodeStep(n, [], true)
      case Ok(key) => NodeStep(n.(due := Some(Rotation(key, epoch))), [Seal(n.session, RekeyResponse(epoch, own))],
                               false)
  }

  function OnRekeyResponse(n: Node, epoch: nat, public: Ephemeral): NodeStep {
    if epoch == 0 then NodeStep(n, [], true)
    else if n.waiter.None? || n.answer.Some? then NodeStep(n, [], false)
    else NodeStep(n.(answer := Some(RekeyResponse(epoch, public))), [], false)
  }

  /** The handler takes the next opened payload; it does not while it still owes a rotation. */
  function Handle(n: Node, own: Ephemeral): NodeStep
    requires n.inbox != []
  {
    var n' := n.(inbox := n.inbox[1..]);
    match n.inbox[0]
    case RekeyRequest(epoch, public) => OnRekeyRequest(n', epoch, public, own)
    case RekeyResponse(epoch, public) => OnRekeyResponse(n', epoch, public)
    case Text(id, inner) => OnText(n', id, inner)
    case _ => NodeStep(n', [], false)
  }

  function RotateDue(n: Node): NodeStep
    requires n.due.Some?
  {
    match Rotate(n.session, Some(n.due.value.key), n.due.value.epoch)
    case Err(_) => NodeStep(n.(due := None), [], true)
    case Ok(session) => NodeStep(n.(due := None, session := session), [], false)
  }

  /** The end of `initiateRekey`: the answer is there. */
  function FinishRekey(n: Node): NodeStep
    requires n.waiter.Some? && n.answer.Some? && n.answer.value.RekeyResponse?
  {
    var n' := n.(waiter := None, answer := None);
    var w, r := n.waiter.value, n.answer.value;
    if r.epoch != w.epoch then NodeStep(n', [], true)
    else match DeriveRekeySessionKey(w.own, r.public, n.id, n.peer, w.epoch)
      case Err(_) => NodeStep(n', [], true)
      case Ok(key) =>
        match Rotate(n.session, Some(key), w.epoch)
        case Err(_) => NodeStep(n', [], true)
        case Ok(session) => NodeStep(n'.(session := session), [], false)
  }

  // ----- The connection --------------------------------------------------------------------

  /** `low` has the lower id. `keys` is auxiliary: the key each epoch was first given, by either side. */
  datatype System = System(low: Node, high: Node, toLow: seq<Frame>, toHigh: seq<Frame>, closed: bool, keys: seq<Key>)

  datatype Side = Low | High

  datatype Label =
    | Composes(side: Side, text: nat)
    | Sends(side: Side, draft: Draft)
    | Reads(side: Side)
    | Asks(side: Side, own: Ephemeral)
    | Handles(side: Side, own: Ephemeral)
    | Rotates(side: Side)
    | Finishes(side: Side)
    | Closes

  function At(sys: System, side: Side): Node {
    if side.Low? then sys.low else sys.high
  }

  function ChannelTo(sys: System, side: Side): seq<Frame> {
    if side.Low? then sys.toLow else sys.toHigh
  }

  predicate Enabled(sys: System, l: Label) {
    && !sys.closed
    && match l
       case Sends(side, d) => d in At(sys, side).drafts
       case Reads(side) => ChannelTo(sys, side) != []
       case Handles(side, _) => At(sys, side).inbox != [] && At(sys, side).due.None?
       case Rotates(side) => At(sys, side).due.Some?
       case Finishes(side) => At(sys, side).waiter.Some? && At(sys, side).answer.Some?
         && At(sys, side).answer.value.RekeyResponse?
       case _ => true
  }

  function LocalStep(sys: System, l: Label): NodeStep
    requires Enabled(sys, l) && !l.Closes?
  {
    var n := At(sys, l.side);
    match l
    case Composes(_, text) => ComposeText(n, text)
    case Sends(_, d) => SendText(n, d)
    case Reads(side) => Read(n, ChannelTo(sys, side)[0])
    case Asks(_, own) => StartRekey(n, own)
    case Handles(_, own) => Handle(n, own)
    case Rotates(_) => RotateDue(n)
    case Finishes(_) => FinishRekey(n)
  }

  function NoteKey(keys: seq<Key>, s: Session): seq<Key> {
    if s.epoch == |keys| then keys + [s.key] else keys
  }

  function Apply(sys: System, l: Label): System
    requires Enabled(sys, l)
  {
    if l.Closes? then
      sys.(closed := true)
    else
      var step := LocalStep(sys, l);
      var keys := NoteKey(sys.keys, step.node.session);
      if l.side.Low? then
        System(step.node, sys.high, if l.Reads? then sys.toLow[1..] else sys.toLow, sys.toHigh + step.sends,
               step.closes, keys)
      else
        System(sys.low, step.node, sys.toLow + step.sends, if l.Reads? then sys.toHigh[1..] else sys.toHigh,
               step.closes, keys)
  }

  /** After the handshake: both sides hold its key, as epoch 0. */
  function Fresh(a: Bytes, b: Bytes, key: Key): System {
    var node := (id, peer) => Node(id, peer, NewSession(key), 0, [], None, None, None, {}, []);
    System(node(a, b), node(b, a), [], [], false, [key])
  }

  ghost predicate Run(a: Bytes, b: Bytes, key: Key, states: seq<System>, steps: seq<Label>) {
    && Less(a, b) && !Blank(a) && !Blank(b)
    && |states| == |steps| + 1
    && states[0] == Fresh(a, b, key)
    && forall k :: 0 <= k < |steps| ==> Enabled(states[k], steps[k]) && states[k + 1] == Apply(states[k], steps[k])
  }
}
