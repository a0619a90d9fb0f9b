/**
 What becomes of a text that is sealed twice: its frame names an epoch, its inner encryption does not, and is opened
 with the session key its reader has when it handles it.
 */
module RekeyTexts {
  import opened Common
  import opened KeyDerivation
  import opened SecureSession
  import opened RekeyProtocol
  import opened RekeySafety

  const EPOCHS := 0x1_0000_0000_0000_0000

  /** The info string of this connection's key for an epoch. */
  function InfoOf(sys: System, epoch: nat): Bytes {
    SessionInfo(sys.low.id, sys.high.id, RekeyContext(epoch))
  }

  /** Epoch 0 has the handshake's key, and every later one a key for just that epoch. */
  ghost predicate KeysOk(key: Key, sys: System) {
    && |sys.keys| > 0 && sys.keys[0] == key
    && (forall e :: 0 < e < |sys.keys| ==> sys.keys[e].info == InfoOf(sys, e))
    && (sys.high.due.Some? ==> sys.high.due.value.key.info == InfoOf(sys, sys.high.due.value.epoch))
  }

  lemma ResponderKeyInfo(sys: System, own: Ephemeral, public: Ephemeral, epoch: nat)
    requires DeriveRekeySessionKey(own, public, sys.high.id, sys.low.id, epoch).Ok?
    ensures DeriveRekeySessionKey(own, public, sys.high.id, sys.low.id, epoch).value.info == InfoOf(sys, epoch)
  {
    SessionInfoIsSymmetric(sys.low.id, sys.high.id, RekeyContext(epoch));
  }

  /** Only rotations change a session, and only a handler comes to owe one. */
  lemma SessionStays(sys: System, l: Label)
    requires Enabled(sys, l) && !l.Closes? && !l.Rotates? && !l.Finishes?
    ensures LocalStep(sys, l).node.session == At(sys, l.side).session
    ensures !l.Handles? ==> LocalStep(sys, l).node.due == At(sys, l.side).due
  {
  }

  /** What a step does to all that KeysOk speaks of. */
  lemma AppliedKeys(sys: System, l: Label)
    requires Enabled(sys, l)
    ensures var sys' := Apply(sys, l);
      && sys'.low.id == sys.low.id && sys'.high.id == sys.high.id
      && (l.Closes? ==> sys'.keys == sys.keys && sys'.high == sys.high)
      && (!l.Closes? ==>
        && sys'.keys == NoteKey(sys.keys, LocalStep(sys, l).node.session)
        && sys'.high == if l.side.High? then LocalStep(sys, l).node else sys.high)
  {
  }

  lemma KeysStay(s: Session, keys: seq<Key>)
    requires SessionOk(s, keys)
    ensures NoteKey(keys, s) == keys
  {
  }

  /** A step that rotates nothing and owes no new rotation. */
  lemma OtherStepKeepsKeys(key: Key, sys: System, l: Label)
    requires Roles(sys) && KeysOk(key, sys) && Enabled(sys, l)
    requires !l.Rotates? && !l.Finishes? && !(l.Handles? && l.side.High?)
    ensures KeysOk(key, Apply(sys, l))
  {
    AppliedKeys(sys, l);
    if !l.Closes? {
      SessionStays(sys, l);
      KeysStay(At(sys, l.side).session, sys.keys);
    }
  }

  /** A handler comes to owe nothing but a key for the epoch it was asked for. */
  lemma DueInfo(sys: System, own: Ephemeral)
    requires sys.high.inbox != [] && sys.high.peer == sys.low.id
    ensures var due := Handle(sys.high, own).node.due;
      due == sys.high.due || (due.Some? && due.value.key.info == InfoOf(sys, due.value.epoch))
  {
    var q := sys.high.inbox[0];
    if q.RekeyRequest? && DeriveRekeySessionKey(own, q.public, sys.high.id, sys.low.id, q.epoch).Ok? {
      ResponderKeyInfo(sys, own, q.public, q.epoch);
    }
  }

  lemma HandlesKeepsKeys(key: Key, sys: System, own: Ephemeral)
    requires Roles(sys) && KeysOk(key, sys) && Enabled(sys, Handles(High, own))
    ensures KeysOk(key, Apply(sys, Handles(High, own)))
  {
    AppliedKeys(sys, Handles(High, own));
    SessionStays(sys, Handles(High, own));
    KeysStay(sys.high.session, sys.keys);
    DueInfo(sys, own);
  }

  lemma RotationKeepsKeys(key: Key, sys: System)
    requires Roles(sys) && RoundOk(RoundOf(sys)) && KeysOk(key, sys) && Enabled(sys, Rotates(High))
    ensures KeysOk(key, Apply(sys, Rotates(High)))
  {
    HighRotateResult(sys);
  }

  lemma FinishKeepsKeys(key: Key, sys: System)
    requires Roles(sys) && RoundOk(RoundOf(sys)) && KeysOk(key, sys) && Enabled(sys, Finishes(Low))
    requires Answered(RoundOf(sys), sys.low.answer.value)
    ensures KeysOk(key, Apply(sys, Finishes(Low)))
  {
    LowFinishResult(sys);
  }

  lemma StepKeepsKeys(key: Key, sys: System, l: Label)
    requires Inv(sys) && KeysOk(key, sys) && Enabled(sys, l)
    ensures KeysOk(key, Apply(sys, l))
  {
    match l
    case Handles(High, own) => HandlesKeepsKeys(key, sys, own);
    case Rotates(_) => RotationKeepsKeys(key, sys);
    case Finishes(_) => FinishKeepsKeys(key, sys);
    case _ => OtherStepKeepsKeys(key, sys, l);
  }

  // ----- Every inner key is the key of an epoch --------------------------------------------

  predicate InnerIn(keys: seq<Key>, q: Payload) {
    q.Text? ==> q.inner in keys
  }

  ghost predicate FramesIn(keys: seq<Key>, ch: seq<Frame>) {
    forall f :: f in ch ==> InnerIn(keys, f.payload)
  }

  ghost predicate NodeIn(keys: seq<Key>, n: Node) {
    && (forall d :: d in n.drafts ==> d.inner in keys)
    && (forall q :: q in n.inbox ==> InnerIn(keys, q))
  }

  ghost predicate TextsOk(sys: System) {
    && NodeIn(sys.keys, sys.low) && NodeIn(sys.keys, sys.high)
    && FramesIn(sys.keys, sys.toLow) && FramesIn(sys.keys, sys.toHigh)
  }

  ghost predicate StepIn(keys: seq<Key>, step: NodeStep) {
    NodeIn(keys, step.node) && FramesIn(keys, step.sends)
  }

  lemma ReadIn(keys: seq<Key>, n: Node, f: Frame)
    requires NodeIn(keys, n) && InnerIn(keys, f.payload)
    ensures StepIn(keys, Read(n, f))
  {
  }

  lemma HandleIn(keys: seq<Key>, n: Node, own: Ephemeral)
    requires NodeIn(keys, n) && n.inbox != []
    ensures StepIn(keys, Handle(n, own))
  {
  }

  lemma WriteIn(keys: seq<Key>, n: Node, text: nat, d: Draft)
    requires NodeIn(keys, n) && n.session.key in keys
    ensures StepIn(keys, ComposeText(n, text))
    ensures d in n.drafts ==> StepIn(keys, SendText(n, d))
  {
  }

  lemma LocalStepIn(sys: System, l: Label)
    requires TextsOk(sys) && Enabled(sys, l) && !l.Closes? && At(sys, l.side).session.key in sys.keys
    ensures StepIn(sys.keys, LocalStep(sys, l))
  {
    var n := At(sys, l.side);
    match l
    case Composes(_, text) => WriteIn(sys.keys, n, text, Draft(text, n.session.key));
    case Sends(_, d) => WriteIn(sys.keys, n, d.id, d);
    case Reads(side) => ReadIn(sys.keys, n, ChannelTo(sys, side)[0]);
    case Handles(_, own) => HandleIn(sys.keys, n, own);
    case _ =>
  }

  lemma AppliedIn(sys: System, l: Label)
    requires TextsOk(sys) && Enabled(sys, l) && !l.Closes? && StepIn(sys.keys, LocalStep(sys, l))
    ensures TextsOk(Apply(sys, l))
  {
  }

  lemma StepKeepsTexts(sys: System, l: Label)
    requires Inv(sys) && TextsOk(sys) && Enabled(sys, l)
    ensures TextsOk(Apply(sys, l))
  {
    if !l.Closes? {
      LocalStepIn(sys, l);
      AppliedIn(sys, l);
    }
  }

  ghost predicate AllOk(a: Bytes, b: Bytes, key: Key, sys: System) {
    KeysOk(key, sys) && TextsOk(sys) && sys.low.id == a && sys.high.id == b
  }

  lemma StepKeepsAll(a: Bytes, b: Bytes, key: Key, sys: System, l: Label)
    requires Inv(sys) && AllOk(a, b, key, sys) && Enabled(sys, l)
    ensures AllOk(a, b, key, Apply(sys, l))
  {
    AppliedKeys(sys, l);
    StepKeepsKeys(key, sys, l);
    StepKeepsTexts(sys, l);
  }

  lemma {:induction false} TextsReachable(a: Bytes, b: Bytes, key: Key, states: seq<System>, steps: seq<Label>, k: nat)
    requires Run(a, b, key, states, steps) && k <= |steps|
    ensures AllOk(a, b, key, states[k])
  {
    if k > 0 {
      TextsReachable(a, b, key, states, steps, k - 1);
      Reachable(a, b, key, states, steps, k - 1);
      StepKeepsAll(a, b, key, states[k - 1], steps[k - 1]);
    }
  }

  // ----- The main results ------------------------------------------------------------------

  /** The key comes from a handshake between the two. */
  ghost predicate FromHandshake(a: Bytes, b: Bytes, key: Key) {
    exists nonce :: |nonce| == NONCE_BYTES && key.info == SessionInfo(a, b, nonce)
  }

  lemma InfosDiffer(sys: System, key: Key, nonce: Bytes, d: nat, e: nat)
    requires KeysOk(key, sys) && |nonce| == NONCE_BYTES && key.info == SessionInfo(sys.low.id, sys.high.id, nonce)
    requires d < e < |sys.keys| <= EPOCHS
    ensures sys.keys[d].info != sys.keys[e].info
  {
    RekeyContextsAreSeparate(sys.low.id, sys.high.id, nonce, e, d);
  }

  /** No two epochs of a connection have the same key. */
  lemma EpochsHaveTheirOwnKeys(a: Bytes, b: Bytes, key: Key, states: seq<System>, steps: seq<Label>, k: nat, d: nat,
                               e: nat)
    requires Run(a, b, key, states, steps) && k <= |steps| && FromHandshake(a, b, key) && |states[k].keys| <= EPOCHS
    requires d < e < |states[k].keys|
    ensures states[k].keys[d] != states[k].keys[e]
  {
    TextsReachable(a, b, key, states, steps, k);
    var nonce :| |nonce| == NONCE_BYTES && key.info == SessionInfo(a, b, nonce);
    InfosDiffer(states[k], key, nonce, d, e);
  }

  lemma EpochOf(keys: seq<Key>, n: Node) returns (e: nat)
    requires NodeIn(keys, n) && n.inbox != [] && n.inbox[0].Text?
    ensures e < |keys| && keys[e] == n.inbox[0].inner
  {
    assert InnerIn(keys, n.inbox[0]);
    e :| 0 <= e < |keys| && keys[e] == n.inbox[0].inner;
  }

  /**
   A text that the handler takes was written under the key of one epoch, and it is opened exactly when that is the
   epoch its reader is at by then.
   */
  lemma OpenedExactly(a: Bytes, b: Bytes, key: Key, states: seq<System>, steps: seq<Label>, k: nat, side: Side,
                      own: Ephemeral) returns (e: nat)
    requires Run(a, b, key, states, steps) && k <= |steps| && FromHandshake(a, b, key) && |states[k].keys| <= EPOCHS
    requires Enabled(states[k], Handles(side, own)) && At(states[k], side).inbox[0].Text?
    ensures var sys, n := states[k], At(states[k], side);
      && e < |sys.keys| && sys.keys[e] == n.inbox[0].inner
      && Handle(n, own).node.shown == n.shown + if e == n.session.epoch then [n.inbox[0].id] else []
  {
    TextsReachable(a, b, key, states, steps, k);
    Reachable(a, b, key, states, steps, k);
    var sys, n := states[k], At(states[k], side);
    e := EpochOf(sys.keys, n);
    if e != n.session.epoch {
      EpochsHaveTheirOwnKeys(a, b, key, states, steps, k, Min(e, n.session.epoch), Max(e, n.session.epoch));
    }
  }

  /**
   A text written and sealed under one key that is read now and handled before its reader rotates: lost if it is ahead,
   refused if it is behind, and opened exactly if it is of its reader's epoch.
   */
  lemma ThreeFates(a: Bytes, b: Bytes, key: Key, states: seq<System>, steps: seq<Label>, k: nat, side: Side)
    requires Run(a, b, key, states, steps) && k <= |steps| && FromHandshake(a, b, key) && |states[k].keys| <= EPOCHS
    requires ChannelTo(states[k], side) != [] && ChannelTo(states[k], side)[0].payload.Text?
    requires ChannelTo(states[k], side)[0].payload.inner == ChannelTo(states[k], side)[0].key
    ensures var n, f := At(states[k], side), ChannelTo(states[k], side)[0];
      var read := Read(n, f).node;
      && read.session == n.session
      && (read.inbox == n.inbox + [f.payload] <==> f.epoch <= n.session.epoch)
      && (OnText(read, f.payload.id, f.payload.inner).node.shown == n.shown + [f.payload.id] <==>
          f.epoch == n.session.epoch)
  {
    Reachable(a, b, key, states, steps, k);
    LostExactlyWhenAhead(a, b, key, states, steps, k, side);
    var r, n, f := RoundOf(states[k]), At(states[k], side), ChannelTo(states[k], side)[0];
    if side.Low? { assert ToLowOk(r, f); } else { assert ToHighOk(r, f); }
    if f.epoch < n.session.epoch {
      EpochsHaveTheirOwnKeys(a, b, key, states, steps, k, f.epoch, n.session.epoch);
    } else if f.epoch > n.session.epoch {
      EpochsHaveTheirOwnKeys(a, b, key, states, steps, k, n.session.epoch, f.epoch);
    }
    assert |n.inbox + [f.payload]| == |n.inbox| + 1 && |n.shown + [f.payload.id]| == |n.shown| + 1;
  }
}
