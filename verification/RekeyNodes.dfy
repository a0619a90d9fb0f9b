/**
 One end of a rekeyed connection, updated in place: the rekey handlers of network/peer_manager.go over the
 session of network/connection.go. Each method is proved against the step of RekeyProtocol it performs.
 */
module RekeyNodes {
  import opened Common
  import opened KeyDerivation
  import opened SecureSession
  import opened RekeyProtocol

  class RekeyEndpoint {
    const id: Bytes
    const peer: Bytes
    const conn: PeerConnection
    var waiter: Option<Waiter>
    // The one-slot channel of the waiter.
    var answer: Option<Payload>
    // The rotation a handler still has to make after it has sent its answer.
    var due: Option<Rotation>
    // Texts with their inner encryption, not yet in a frame.
    var drafts: set<Draft>
    // The peer's texts that came through.
    var shown: seq<nat>

    ghost function View(malformed: nat): Node
      reads this, conn
    {
      Node(id, peer, conn.View(), malformed, conn.inbound, waiter, answer, due, drafts, shown)
    }

    constructor (id: Bytes, peer: Bytes, conn: PeerConnection)
      ensures this.id == id && this.peer == peer && this.conn == conn
      ensures waiter.None? && answer.None? && due.None? && drafts == {} && shown == []
    {
      this.id, this.peer, this.conn := id, peer, conn;
      waiter, answer, due, drafts, shown := None, None, None, {}, [];
    }

    /** `buildEncryptedMessage`. */
    method BuildEncryptedMessage(text: nat) returns (d: Draft)
      modifies this`drafts
      ensures d == Draft(text, conn.sessionKey)
      ensures forall malformed :: NodeStep(View(malformed), [], false) == ComposeText(old(View(malformed)), text)
    {
      d := Draft(text, conn.sessionKey);
      drafts := drafts + {d};
    }

    /** The message goes out, under whatever the session key is by then. */
    method SendMessage(d: Draft) returns (sent: seq<Frame>)
      requires d in drafts
      modifies this`drafts
      ensures forall malformed :: NodeStep(View(malformed), sent, false) == SendText(old(View(malformed)), d)
    {
      drafts := drafts - {d};
      var f := conn.EncryptPayload(Text(d.id, d.inner));
      return [f];
    }

    /** A threshold is reached. The side with the higher id leaves it to the other one. */
    method OnRekeyNeeded(own: Ephemeral) returns (sent: seq<Frame>)
      modifies this
      ensures forall malformed :: NodeStep(View(malformed), sent, false) == StartRekey(old(View(malformed)), own)
    {
      sent := [];
      if Less(peer, id) || waiter.Some? {
        return;
      }
      var targetEpoch := conn.sessionEpoch + 1;
      waiter, answer := Some(Waiter(targetEpoch, own)), None;
      var f := conn.EncryptPayload(RekeyRequest(targetEpoch, own));
      return [f];
    }

    /** The connection loop takes the next payload. */
    method HandleNext(own: Ephemeral) returns (sent: seq<Frame>, closes: bool)
      requires conn.inbound != []
      modifies this, conn`inbound
      ensures forall malformed :: NodeStep(View(malformed), sent, closes) == Handle(old(View(malformed)), own)
    {
      var payload := conn.inbound[0];
      conn.inbound := conn.inbound[1..];
      sent, closes := [], false;
      match payload {
        case RekeyRequest(epoch, public) =>
          if epoch == 0 {
            return [], true;
          }
          var newKey := DeriveRekeySessionKey(own, public, id, peer, epoch);
          if newKey.Err? {
            return [], true;
          }
          var f := conn.EncryptPayload(RekeyResponse(epoch, own));
          due := Some(Rotation(newKey.value, epoch));
          return [f], false;
        case RekeyResponse(epoch, public) =>
          if epoch == 0 {
            return [], true;
          }
          if waiter.Some? && answer.None? {
            answer := Some(payload);
          }
        case Text(text, inner) =>
          if inner == conn.sessionKey {
            shown := shown + [text];
          }
        case _ =>
      }
    }

    /** The handler that has answered a request rotates. */
    method RotateNow() returns (closes: bool)
      requires due.Some?
      modifies this, conn
      ensures forall malformed :: NodeStep(View(malformed), [], closes) == RotateDue(old(View(malformed)))
    {
      var r := conn.RotateSessionKey(Some(due.value.key), due.value.epoch);
      due := None;
      return r.Err?;
    }

    /** The initiator has its answer. */
    method Finish() returns (closes: bool)
      requires waiter.Some? && answer.Some? && answer.value.RekeyResponse?
      modifies this, conn
      ensures forall malformed :: NodeStep(View(malformed), [], closes) == FinishRekey(old(View(malformed)))
    {
      var w, response := waiter.value, answer.value;
      waiter, answer := None, None;
      if response.epoch != w.epoch {
        return true;
      }
      var newKey := DeriveRekeySessionKey(w.own, response.public, id, peer, w.epoch);
      if newKey.Err? {
        return true;
      }
      var r := conn.RotateSessionKey(Some(newKey.value), w.epoch);
      return r.Err?;
    }
  }
}
