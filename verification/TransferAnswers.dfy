/**
 What every kind of step does to the receiver of a transfer, told in the fields of its record, its row and its files.
 */
module TransferAnswers {
  import opened Common
  import opened Chunks
  import opened TransferState
  import opened TransferProtocol
  import opened TransferSafety
  import TransferRuns

  lemma ReceiverAnswers(p: Params, sys: System, m: Msg, approved: bool, fault: Fault, renames: bool)
    requires p.Valid()
    ensures var step := ReceiverEvent(p, sys.r, m, approved, fault, renames);
      var sys' := Apply(p, sys, ToReceiver(m, approved, fault, renames));
      sys'.r == step.state && sys'.net == sys.net + AsSet(step.sends)
  {
  }

  /** A chunk that is not of a file in memory, or cannot be read, is refused and changes nothing. */
  lemma UnknownChunkIsRefused(p: Params, states: seq<System>, steps: seq<Label>, k: nat, i: int, data: seq<byte>,
                              fault: Fault)
    requires p.Valid() && Run(p, states, steps) && k <= |steps|
    requires states[k].r.inb.None? || i < 0 || i >= ChunkCount(states[k].r.inb.value.file.size, p.chunkSize)
      || fault.Unreadable? || states[k].r.temp.None?
    ensures var sys' := Apply(p, states[k], ToReceiver(Data(i, data), true, fault, true));
      sys'.r == states[k].r && sys'.net == states[k].net + {Nack(i)}
  {
    ReceiverAnswers(p, states[k], Data(i, data), true, fault, true);
    TransferRuns.Sent(states[k].net, Nack(i));
  }

  /** A write that stops leaves its first part on disk, is refused, and changes nothing else. */
  lemma StoppedWriteIsRefused(p: Params, states: seq<System>, steps: seq<Label>, k: nat, i: nat, data: seq<byte>,
                              at: nat)
    requires p.Valid() && Run(p, states, steps) && k <= |steps| && states[k].r.inb.Some? && states[k].r.temp.Some?
    requires i < ChunkCount(states[k].r.inb.value.file.size, p.chunkSize)
    ensures var r, sys' := states[k].r, Apply(p, states[k], ToReceiver(Data(i, data), true, WriteStops(at), true));
      && 0 <= i * p.chunkSize
      && sys'.r == r.(temp := Some(WriteAt(r.temp.value, i * p.chunkSize, data[..Min(at, |data|)])))
      && sys'.net == states[k].net + {Nack(i)}
  {
    ReceiverAnswers(p, states[k], Data(i, data), true, WriteStops(at), true);
    TransferRuns.Sent(states[k].net, Nack(i));
    MulMonotone(0, i, p.chunkSize);
  }

  /**
   Any other chunk is written at its place and acknowledged. A new one is counted, and stored once 10 chunks or 2 MiB
   have gone by since the last time; one that was there already changes nothing but the file.
   */
  lemma ChunkIsTaken(p: Params, states: seq<System>, steps: seq<Label>, k: nat, i: nat, data: seq<byte>)
    requires p.Valid() && Run(p, states, steps) && k <= |steps| && states[k].r.inb.Some? && states[k].r.temp.Some?
    requires i < ChunkCount(states[k].r.inb.value.file.size, p.chunkSize)
    ensures var r, b := states[k].r, states[k].r.inb.value;
      var sys' := Apply(p, states[k], ToReceiver(Data(i, data), true, NoFault, true));
      && 0 <= i * p.chunkSize
      && sys'.net == states[k].net + {Ack(i)}
      && sys'.r.temp == Some(WriteAt(r.temp.value, i * p.chunkSize, data)) && sys'.r.inb.Some?
      && sys'.r.row == r.row && sys'.r.status == r.status && sys'.r.final == r.final && sys'.r.asked == r.asked
      && var b' := sys'.r.inb.value;
      && b'.received == b.received + {i} && b'.file == b.file
      && b'.next !in b'.received && (forall j :: 0 <= j < b'.next ==> j in b'.received)
      && b'.bytes == b.bytes + (if i in b.received then 0 else |data|)
      && (if b'.next - b.ckNext >= 10 || b'.bytes - b.ckBytes >= 2 * 1024 * 1024 then
            sys'.r.ck == Some(Checkpoint(b'.next, b'.bytes)) && b'.ckNext == b'.next && b'.ckBytes == b'.bytes
          else
            sys'.r.ck == r.ck && b'.ckNext == b.ckNext && b'.ckBytes == b.ckBytes)
  {
    Reachable(p, states, steps, k);
    ReceiverAnswers(p, states[k], Data(i, data), true, NoFault, true);
    TransferRuns.Sent(states[k].net, Ack(i));
    MulMonotone(0, i, p.chunkSize);
    var b := states[k].r.inb.value;
    if i in b.received { assert b.received + {i} == b.received; }
    AdvanceIsLeastMissing(b.received + {i}, b.next, b.Total(p));
  }

  // ----- Requests --------------------------------------------------------------------------

  /** A request for a transfer in memory is answered with its next chunk, whatever the user would say. */
  lemma KnownRequestIsAnswered(p: Params, states: seq<System>, steps: seq<Label>, k: nat, known: int, approved: bool)
    requires p.Valid() && Run(p, states, steps) && k <= |steps| && states[k].r.inb.Some?
    ensures var r, sys' := states[k].r, Apply(p, states[k], ToReceiver(FileRequest(known), approved, NoFault, true));
      && sys'.r == r.(status := if r.row.Some? then Accepted else Unknown)
      && sys'.net == states[k].net + {Accept(r.inb.value.next, known)}
  {
    Reachable(p, states, steps, k);
    ReceiverAnswers(p, states[k], FileRequest(known), approved, NoFault, true);
    TransferRuns.Sent(states[k].net, Accept(states[k].r.inb.value.next, known));
  }

  /** What a decision about a request leaves: `before` is the state without the dialog, `other` a changed temp file. */
  ghost predicate Decided(p: Params, before: Receiver, after: Receiver, net: set<Msg>, net': set<Msg>, approved: bool,
                          other: Option<seq<byte>>, known: int) {
    if !approved then
      && after == before.(row := after.row, status := Rejected)
      && after.row == (if before.row.Some? then before.row else Some(FileInfo(|p.source|, Some(p.source))))
      && net' == net + {Reject(false)}
    else if before.status.Canceled? then
      after == before && net' == net + {Reject(true)}
    else
      && after.inb == Some(Inbound(FileInfo(|p.source|, Some(p.source)), {}, 0, 0, 0, 0))
      && after.ck == Some(Checkpoint(0, 0)) && after.status.Accepted?
      && after.row == (if before.row.Some? then before.row else Some(FileInfo(|p.source|, Some(p.source))))
      && after.asked == before.asked && after.final == before.final
      && net' == net + {Accept(0, known)}
      && after.temp.Some? && |after.temp.value| == |p.source|
      && var was := if other.Some? then other.value else if before.temp.Some? then before.temp.value else [];
         forall i :: 0 <= i < |p.source| ==> after.temp.value[i] == if i < |was| then was[i] else 0
  }

  /** A request that is decided at once, with no record in memory. */
  lemma NewRequestIsDecided(p: Params, states: seq<System>, steps: seq<Label>, k: nat, known: int, approved: bool)
    requires p.Valid() && Run(p, states, steps) && k <= |steps| && states[k].r.inb.None?
    ensures var sys' := Apply(p, states[k], ToReceiver(FileRequest(known), approved, NoFault, true));
      Decided(p, states[k].r, sys'.r, states[k].net, sys'.net, approved, None, known)
  {
    ReceiverAnswers(p, states[k], FileRequest(known), approved, NoFault, true);
    TransferRuns.Sent(states[k].net, Accept(0, known));
    TransferRuns.Sent(states[k].net, Reject(false));
    TransferRuns.Sent(states[k].net, Reject(true));
  }

  /** A dialog keeps the first request it was opened for, and its answer is a decision even with a record in memory. */
  lemma DialogIsDecided(p: Params, states: seq<System>, steps: seq<Label>, k: nat, known: int, approved: bool,
                        other: Option<seq<byte>>)
    requires p.Valid() && Run(p, states, steps) && k <= |steps|
    ensures var r, asked := states[k].r, Apply(p, states[k], Asks(known));
      asked.r == r.(asked := if r.asked.Some? then r.asked else Some(known)) && asked.net == states[k].net
    ensures Apply(p, states[k], Dismisses).r == states[k].r.(asked := None)
    ensures states[k].r.asked.Some? ==>
      var r, sys' := states[k].r, Apply(p, states[k], Decides(approved, other));
      Decided(p, r.(asked := None), sys'.r, states[k].net, sys'.net, approved, other, r.asked.value)
  {
    TransferRuns.Sent(states[k].net, Reject(false));
    TransferRuns.Sent(states[k].net, Reject(true));
    if states[k].r.asked.Some? { TransferRuns.Sent(states[k].net, Accept(0, states[k].r.asked.value)); }
  }

  // ----- The end of a transfer -------------------------------------------------------------

  /** The record is dropped with its checkpoint, and the row, if there still is one, gets this status. */
  ghost predicate Dropped(before: Receiver, after: Receiver, status: Status) {
    && after.inb.None? && after.ck.None? && after.row == before.row && after.asked == before.asked
    && after.status == if before.row.Some? then status else Unknown
  }

  /** A completion drops the record. If the temp file is what the record says, it becomes the file. */
  lemma CompletionEndsIt(p: Params, states: seq<System>, steps: seq<Label>, k: nat, byCancel: bool, renames: bool)
    requires p.Valid() && Run(p, states, steps) && k <= |steps| && states[k].r.inb.Some?
    ensures var r, sys' := states[k].r, Apply(p, states[k], ToReceiver(SenderClose(true, byCancel), true, NoFault,
                                                                      renames));
      if renames && r.temp.Some? && r.temp == r.inb.value.file.content then
        && Dropped(r, sys'.r, Complete) && sys'.r.temp.None? && sys'.r.final == r.temp
        && sys'.net == states[k].net + {ReceiverClose(true, false)}
      else
        && Dropped(r, sys'.r, Failed) && sys'.r.temp == r.temp && sys'.r.final == r.final
        && sys'.net == states[k].net + {ReceiverClose(false, false)}
  {
    Reachable(p, states, steps, k);
    ReceiverAnswers(p, states[k], SenderClose(true, byCancel), true, NoFault, renames);
    TransferRuns.Sent(states[k].net, ReceiverClose(true, false));
    TransferRuns.Sent(states[k].net, ReceiverClose(false, false));
  }

  /** The sender's failure or cancel drops the record and is confirmed; the temp file stays. */
  lemma FailureEndsIt(p: Params, states: seq<System>, steps: seq<Label>, k: nat, byCancel: bool)
    requires p.Valid() && Run(p, states, steps) && k <= |steps| && states[k].r.inb.Some?
    ensures var r, sys' := states[k].r, Apply(p, states[k], ToReceiver(SenderClose(false, byCancel), true, NoFault,
                                                                      true));
      && Dropped(r, sys'.r, if byCancel then Canceled else Failed)
      && sys'.r.temp == r.temp && sys'.r.final == r.final
      && sys'.net == states[k].net + {ReceiverClose(false, byCancel)}
  {
    Reachable(p, states, steps, k);
    ReceiverAnswers(p, states[k], SenderClose(false, byCancel), true, NoFault, true);
    TransferRuns.Sent(states[k].net, ReceiverClose(false, byCancel));
  }

  /** With no record in memory only the sender's cancel changes anything: it marks the row, and makes one if need be. */
  lemma UnknownEndIsNoted(p: Params, states: seq<System>, steps: seq<Label>, k: nat, ok: bool, byCancel: bool)
    requires p.Valid() && Run(p, states, steps) && k <= |steps| && states[k].r.inb.None?
    ensures var r, sys' := states[k].r, Apply(p, states[k], ToReceiver(SenderClose(ok, byCancel), true, NoFault,
                                                                      true));
      && sys'.net == states[k].net
      && sys'.r == if ok || !byCancel then r
                   else r.(row := if r.row.Some? then r.row else Some(FileInfo(0, None)), status := Canceled)
  {
    ReceiverAnswers(p, states[k], SenderClose(ok, byCancel), true, NoFault, true);
    TransferRuns.Sent(states[k].net, Reject(false));
  }

  /** The receiver's user cancels: the record and the temp file go and the sender is told, or only the row is marked. */
  lemma UserEndsIt(p: Params, states: seq<System>, steps: seq<Label>, k: nat)
    requires p.Valid() && Run(p, states, steps) && k <= |steps|
    ensures var r, sys' := states[k].r, Apply(p, states[k], UserCancelsReceive);
      if r.inb.Some? then
        && Dropped(r, sys'.r, Canceled) && sys'.r.temp.None? && sys'.r.final == r.final
        && sys'.net == states[k].net + {ReceiverClose(false, true)}
      else
        && sys'.r == r.(status := if r.row.Some? then Canceled else Unknown) && sys'.net == states[k].net
  {
    Reachable(p, states, steps, k);
    TransferRuns.Sent(states[k].net, ReceiverClose(false, true));
  }

  // ----- Clearing and restarting -----------------------------------------------------------

  /** Clearing the conversation takes the row away and nothing else. */
  lemma ClearingTakesTheRow(p: Params, states: seq<System>, steps: seq<Label>, k: nat)
    requires p.Valid() && Run(p, states, steps) && k <= |steps|
    ensures var r, sys' := states[k].r, Apply(p, states[k], ClearsHistory);
      sys'.r == r.(row := None, status := Unknown) && sys'.net == states[k].net
  {
  }

  /**
   A restart brings a record back exactly if it has a checkpoint and a row that is not final; it then has the row's size
   and checksum, exactly the chunks below the checkpoint that such a file has, and a temp file of that size.
   */
  lemma RecordComesBack(p: Params, states: seq<System>, steps: seq<Label>, k: nat)
    requires p.Valid() && Run(p, states, steps) && k <= |steps|
    ensures var r, r' := states[k].r, Apply(p, states[k], ReceiverRestarts).r;
      && r'.asked.None? && r'.row == r.row && r'.status == r.status && r'.final == r.final
      && (if r.ck.Some? && r.row.Some? && (r.status.Pending? || r.status.Accepted?) then
            && r'.ck == r.ck && r'.inb.Some? && r'.inb.value.file == r.row.value
            && var b := r'.inb.value;
            && b.next == Min(r.ck.value.next, ChunkCount(r.row.value.size, p.chunkSize))
            && b.bytes == Min(Max(r.ck.value.bytes, 0), r.row.value.size)
            && b.ckNext == b.next && b.ckBytes == b.bytes
            && (forall i :: i in b.received <==> 0 <= i < b.next)
            && r'.temp.Some? && |r'.temp.value| == r.row.value.size
            && var was := if r.temp.Some? then r.temp.value else [];
               (forall i :: 0 <= i < |r'.temp.value| ==> r'.temp.value[i] == if i < |was| then was[i] else 0)
          else
            r'.inb.None? && r'.ck.None? && r'.temp == r.temp)
  {
    Reachable(p, states, steps, k);
  }

  /** A process that dies after the rename comes back with the file in place, and without the temp file. */
  lemma RenameSurvives(p: Params, states: seq<System>, steps: seq<Label>, k: nat, m: Msg)
    requires p.Valid() && Run(p, states, steps) && k <= |steps| && states[k].r.inb.Some? && states[k].r.temp.Some?
    ensures var r, r' := states[k].r, Apply(p, states[k], ReceiverDiesAfterRename(m)).r;
      var passes := r.temp == r.inb.value.file.content;
      && r'.final == (if passes then r.temp else r.final)
      && (passes && r'.temp.Some? ==> forall i :: 0 <= i < |r'.temp.value| ==> r'.temp.value[i] == 0)
      && (passes && r'.inb.None? ==> r'.temp.None?)
      && (!passes ==> r' == Apply(p, states[k], ReceiverRestarts).r)
      && (r'.inb.Some? <==> Apply(p, states[k], ReceiverRestarts).r.inb.Some?)
  {
  }

  /** A refusal that does not come from a decision, as when there are too many requests, is only sent. */
  lemma RefusalIsOnlySent(p: Params, states: seq<System>, steps: seq<Label>, k: nat, m: Msg)
    requires p.Valid() && Run(p, states, steps) && k <= |steps|
    ensures Apply(p, states[k], RefuseRequest(m)) == states[k].(net := states[k].net + {Reject(false)})
  {
  }
}
