/**
 Exactly when the guarantees of TransferSafety and TransferProgress end before the first inbound transfer does:
 a restart from a row that is not the file's, and a dialog that is answered after the transfer was accepted.
 */
module TransferSpoils {
  import opened Common
  import opened Chunks
  import opened TransferState
  import opened TransferProtocol
  import opened TransferSafety
  import opened TransferProgress

  // ----- What the notes stand for ----------------------------------------------------------

  /** A state is spoiled exactly when an earlier step met one of the two guards. */
  lemma {:induction false} SpoiledExactly(p: Params, states: seq<System>, steps: seq<Label>, k: nat)
    requires p.Valid() && Run(p, states, steps) && k <= |steps|
    ensures states[k].spoiled <==> exists j :: 0 <= j < k && Spoils(p, states[j], steps[j])
  {
    if k > 0 {
      SpoiledExactly(p, states, steps, k - 1);
      assert Follows(p, states, steps, k - 1);
      SpoiledBySpoils(p, states[k - 1], steps[k - 1]);
    }
  }

  /** The sender's cancel reaches a receiver that has no row of the file yet. */
  ghost predicate EarlyCancel(states: seq<System>, steps: seq<Label>, j: nat)
    requires j < |steps| && |states| == |steps| + 1
  {
    EarlyCancelAt(states[j].r, steps[j])
  }

  predicate EarlyCancelAt(r: Receiver, l: Label) {
    r.row.None? && r.inb.None? && l.ToReceiver? && l.msg == SenderClose(false, true)
  }

  /** What one step does to the row: once there is one it stays until the history is cleared. */
  ghost predicate RowStep(p: Params, r: Receiver, l: Label, r': Receiver) {
    if l.ClearsHistory? then r'.row.None?
    else if r.row.Some? then r'.row == r.row
    else if EarlyCancelAt(r, l) then r'.row == Some(CANCELED_BEFORE_APPROVAL)
    else r'.row.None? || r'.row == Some(p.Info())
  }

  lemma EventRowStep(p: Params, r: Receiver, m: Msg, approved: bool, fault: Fault, renames: bool)
    requires p.Valid()
    ensures RowStep(p, r, ToReceiver(m, approved, fault, renames),
                    ReceiverEvent(p, r, m, approved, fault, renames).state)
  {
  }

  lemma DecisionRowStep(p: Params, r: Receiver, approved: bool, other: Option<seq<byte>>)
    requires r.asked.Some?
    ensures RowStep(p, r, Decides(approved, other), Decide(p, r, approved, other).state)
  {
  }

  lemma EveryRowStep(p: Params, sys: System, l: Label)
    requires p.Valid() && Enabled(sys, l)
    ensures RowStep(p, sys.r, l, Apply(p, sys, l).r)
  {
    if !AtReceiver(l) {
      SenderKeepsReceiver(p, sys, l);
    } else {
      match l
      case ToReceiver(m, approved, fault, renames) => EventRowStep(p, sys.r, m, approved, fault, renames);
      case Decides(approved, other) => DecisionRowStep(p, sys.r, approved, other);
      case _ =>
    }
  }

  /** Step j was an early cancel, and the history has not been cleared between it and state k. */
  ghost predicate StaleSince(states: seq<System>, steps: seq<Label>, j: nat, k: nat)
    requires j < k <= |steps| && |states| == |steps| + 1
  {
    EarlyCancel(states, steps, j) && forall t :: j < t < k ==> !steps[t].ClearsHistory?
  }

  /** The first row stays: it is not the file's exactly when a cancel came first, since the history was last cleared. */
  lemma {:induction false} RowIsStaleExactly(p: Params, states: seq<System>, steps: seq<Label>, k: nat)
    requires p.Valid() && Run(p, states, steps) && k <= |steps|
    ensures states[k].r.row.Some? ==> FileOk(p, states[k].r.row.value)
    ensures states[k].r.row == Some(CANCELED_BEFORE_APPROVAL) <==>
      exists j :: 0 <= j < k && StaleSince(states, steps, j, k)
  {
    if k > 0 {
      RowIsStaleExactly(p, states, steps, k - 1);
      assert Follows(p, states, steps, k - 1);
      EveryRowStep(p, states[k - 1], steps[k - 1]);
      if states[k].r.row == Some(CANCELED_BEFORE_APPROVAL) {
        if states[k - 1].r.row.None? {
          assert StaleSince(states, steps, k - 1, k);
        } else {
          var j :| 0 <= j < k - 1 && StaleSince(states, steps, j, k - 1);
          assert StaleSince(states, steps, j, k);
        }
      } else {
        forall j | 0 <= j < k ensures !StaleSince(states, steps, j, k) {
          if StaleSince(states, steps, j, k) && j < k - 1 { assert StaleSince(states, steps, j, k - 1); }
        }
      }
    }
  }

  /** So nothing is spoiled while no cancel comes early and no late approval changes the temp file. */
  lemma UnspoiledWithout(p: Params, states: seq<System>, steps: seq<Label>, k: nat)
    requires p.Valid() && Run(p, states, steps) && k <= |steps|
    requires forall j :: 0 <= j < k ==> !EarlyCancel(states, steps, j)
    requires forall j :: 0 <= j < k && steps[j].Decides? ==> steps[j].other.None?
    ensures !states[k].spoiled
  {
    SpoiledExactly(p, states, steps, k);
    forall j | 0 <= j < k ensures !Spoils(p, states[j], steps[j]) {
      RowIsStaleExactly(p, states, steps, j);
    }
  }

  // ----- The disk --------------------------------------------------------------------------

  /** What is believed of chunk i outside the receiver's memory. */
  ghost predicate SenderBelieves(sys: System, i: int) {
    || (sys.s.out.Some? && i < sys.s.out.value.next)
    || (sys.s.ck.Some? && i < sys.s.ck.value.next)
    || Ack(i) in sys.net
  }

  /** A receiver in state `r` has on disk all that is believed in this system. */
  ghost predicate BelievedIsOnDisk(p: Params, sys: System, r: Receiver) {
    forall i :: 0 <= i < p.Total() && SenderBelieves(sys, i) ==> OnDisk(p, r, i)
  }

  /**
   A restart that brings the record back keeps every chunk that is believed delivered exactly when the row is the
   file's, or nothing is believed delivered.
   */
  lemma RestartKeepsDiskIff(p: Params, states: seq<System>, steps: seq<Label>, k: nat)
    requires p.Valid() && Run(p, states, steps) && k <= |steps| && !states[k].settled && !states[k].spoiled
    requires Restores(states[k].r)
    ensures BelievedIsOnDisk(p, states[k], RestartReceiver(p, states[k].r)) <==>
      (states[k].r.row.value == p.Info() || forall i :: 0 <= i < p.Total() ==> !SenderBelieves(states[k], i))
  {
    Reachable(p, states, steps, k);
    var sys := states[k];
    var r' := RestartReceiver(p, sys.r);
    if sys.r.row.value == p.Info() {
      assert r'.temp.value == sys.r.temp.value;
      forall i | 0 <= i < p.Total() && SenderBelieves(sys, i) ensures OnDisk(p, r', i) {
        assert BelievedDelivered(sys, i);
        if Ack(i) in sys.net { assert MsgOk(p, sys.r, Ack(i)); }
        assert OnDisk(p, sys.r, i);
      }
    } else {
      assert |r'.temp.value| == 0;
      forall i | 0 <= i < p.Total() ensures !OnDisk(p, r', i) {
        ChunkExists(i, p.chunkSize, |p.source|);
      }
    }
  }

  /**
   A late approval keeps them exactly when it stays with the temp file, or the other temp file has those chunks too.
   */
  lemma LateApprovalKeepsDiskIff(p: Params, states: seq<System>, steps: seq<Label>, k: nat, other: Option<seq<byte>>)
    requires p.Valid() && Run(p, states, steps) && k <= |steps| && !states[k].settled && !states[k].spoiled
    requires states[k].r.asked.Some? && Replaces(states[k].r, true)
    ensures BelievedIsOnDisk(p, states[k], Decide(p, states[k].r, true, other).state) <==>
      (other.None? || forall i :: 0 <= i < p.Total() && SenderBelieves(states[k], i) ==>
              Holds(Truncate(other.value, |p.source|), p.source, p.chunkSize, i))
  {
    Reachable(p, states, steps, k);
    var sys := states[k];
    if other.None? {
      var r' := Decide(p, sys.r, true, other).state;
      assert r'.temp.value == sys.r.temp.value;
      forall i | 0 <= i < p.Total() && SenderBelieves(sys, i) ensures OnDisk(p, r', i) {
        if Ack(i) in sys.net { assert MsgOk(p, sys.r, Ack(i)); }
        assert OnDisk(p, sys.r, i);
      }
    }
  }

  // ----- The completion --------------------------------------------------------------------

  /**
   In every reachable state a completion passes exactly when the record is the file's and the temp file is the
   source.
   */
  lemma CompletionPassesIff(p: Params, states: seq<System>, steps: seq<Label>, k: nat, byCancel: bool)
    requires p.Valid() && Run(p, states, steps) && k <= |steps| && states[k].r.inb.Some?
    ensures var r := states[k].r;
      OnSenderClose(p, r, true, byCancel, true).sends == [ReceiverClose(true, false)]
      <==> r.inb.value.file == p.Info() && r.temp == Some(p.source)
  {
    Reachable(p, states, steps, k);
  }

  // ----- What is sent again ----------------------------------------------------------------

  /** Where the sender starts when it restarts and is answered by a receiver that stands at `resume`. */
  function StartAfterRestart(p: Params, s: Sender, known: int, resume: int): int
    requires p.Valid() && s.ck.Some? && !Terminal(s.status)
  {
    var begun := Begin(RestartSender(p, s), known).state;
    OnAccepted(p, begun, resume).state.out.value.next
  }

  /** An accept makes the sender send an acknowledged chunk again exactly when both sides' counters are behind it. */
  lemma ResendsExactlyWhenBothBehind(p: Params, states: seq<System>, steps: seq<Label>, k: nat, resume: int)
    requires p.Valid() && Run(p, states, steps) && k <= |steps|
    requires states[k].s.out.Some? && states[k].s.phase.AwaitAccept?
    ensures var s, known := states[k].s, states[k].known;
      OnAccepted(p, s, resume).state.out.value.next < known <==> s.out.value.next < known && resume < known
  {
    Reachable(p, states, steps, k);
    KnownIsBounded(p, states, steps, k);
    OnAcceptedOk(p, states[k].s, resume);
  }

  lemma {:induction false} KnownIsBounded(p: Params, states: seq<System>, steps: seq<Label>, k: nat)
    requires p.Valid() && Run(p, states, steps) && k <= |steps|
    ensures 0 <= states[k].known <= p.Total()
  {
    if k > 0 {
      KnownIsBounded(p, states, steps, k - 1);
      Reachable(p, states, steps, k - 1);
      Reachable(p, states, steps, k);
      assert Follows(p, states, steps, k - 1);
      KnownStep(p, states[k - 1], steps[k - 1]);
    }
  }

  lemma KnownStep(p: Params, sys: System, l: Label)
    requires p.Valid() && Enabled(sys, l)
    ensures var sys' := Apply(p, sys, l);
      sys'.known == sys.known || sys'.known == 0 || (sys'.s.out.Some? && sys'.known == sys'.s.out.value.next)
  {
    if AtReceiver(l) { ReceiverKeepsSender(p, sys, l); }
  }

  /**
   In the receiver's first life a sender that restarts starts at or after everything it knew to be delivered. After a
   late approval it still does so exactly when its checkpoint is not behind what it knew.
   */
  lemma LateApprovalResendsIff(p: Params, states: seq<System>, steps: seq<Label>, k: nat, other: Option<seq<byte>>)
    requires p.Valid() && Run(p, states, steps) && k <= |steps| && FirstLife(states[k])
    requires states[k].s.ck.Some? && !Terminal(states[k].s.status)
    requires states[k].r.asked.Some? && Replaces(states[k].r, true)
    ensures StartAfterRestart(p, states[k].s, states[k].known, Reached(states[k].r)) >= states[k].known
    ensures var sys := states[k];
      var start := StartAfterRestart(p, sys.s, sys.known, Reached(Decide(p, sys.r, true, other).state));
      start >= sys.known <==> sys.s.ck.value.next >= sys.known
  {
    Reachable(p, states, steps, k);
    InStepReachable(p, states, steps, k);
    FirstLifeUnspoiled(p, states, steps, k);
    RestartSenderOk(p, states[k].s);
  }
}
