/**
`AyameSignaling` as an object: the handlers of `src/ayame_signaling.cpp` that read messages
and negotiate, each proved to do the step `SignalingSpec` gives for it.
*/
module AyameSignaling {
  import opened Wrappers
  import opened SignalingSpec

  class AyameSignaling {
    var connection: Option<Connection>
    var ready: bool
    /** The texts handed to `boost::asio::post`, and the calls made on the listener. */
    var posted: seq<Text>
    var calls: seq<Call>
    /** The environment's side: reads under way, whether a close was begun, and the histories. */
    ghost var loop: Loop
    ghost var applied: nat
    ghost var faults: Faults

    ghost function Value(): Peer
      reads this
    {
      Peer(loop, Latch(ready, applied, calls), connection, posted, faults)
    }

    constructor ()
      ensures Value() == NewPeer()
    {
      connection, ready, posted, calls := None, false, [], [];
      loop, applied, faults := Loop(false, 0, false, []), 0, Faults(false, false, false);
    }

    method DoRead()
      modifies this`loop
      ensures Value() == SignalingSpec.DoRead(old(Value()))
    {
      loop := loop.(outstanding := loop.outstanding + 1);
    }

    method SendText(text: Text)
      modifies this`posted
      ensures Value() == SignalingSpec.SendText(old(Value()), text)
    {
      posted := posted + [text];
    }

    method OnHandshake(ok: bool)
      requires !loop.started
      modifies this
      ensures Value() == if ok then Handshake(old(Value())) else old(Value())
    {
      if !ok {
        return;
      }
      loop := loop.(started := true);
      DoRead();
      SendText(Register);
      calls := calls + [OnConnect];
    }

    /** A read completed with an error. */
    method OnReadError(aborted: bool)
      requires loop.outstanding > 0
      modifies this`loop
      ensures Value() == ReadFails(old(Value()), aborted)
    {
      loop := loop.(outstanding := loop.outstanding - 1);
      if aborted {
        return;
      }
      Close();
    }

    method Close()
      modifies this`loop
      ensures loop == old(loop).(closing := true)
    {
      loop := loop.(closing := true);
    }

    /** `SetLocalDescription` and `SetRemoteDescription` of the peer connection. */
    method SetDescription(local: bool, t: SdpType)
      requires connection.Some?
      modifies this`connection, this`faults
      ensures Value() == Describe(old(Value()), old(connection.value), local, t)
    {
      var c := connection.value;
      var state := Applied(c.state, local, t);
      match state {
        case None =>
          faults := faults.(illegal := true);
        case Some(s) =>
          connection := Some(Took(c, s, local, t));
      }
    }

    /** A read completed with a message: lines 300-422. Using a null connection ends the
        program; here it is recorded and the handler stops. */
    method OnRead(m: Message)
      requires loop.outstanding > 0
      modifies this
      ensures Value() == Handle(old(Value()), m)
    {
      loop := loop.(outstanding := loop.outstanding - 1, handled := loop.handled + [m]);
      match m {
        case Accept(isExistUser) =>
          connection := Some(Connection(Stable, false, false, 0, 0, 0));
          if isExistUser {
            connection := Some(connection.value.(offersDue := 1));
          }
          DoRead();
        case OfferMessage(parses) => OnDescription(parses, Offer);
        case AnswerMessage(parses) => OnDescription(parses, Answer);
        case CandidateMessage(parses, usable) => OnCandidate(parses, usable);
        case Ping =>
          SendText(Pong);
          DoRead();
        case Bye =>
          connection := None;
          Close();
        case Unknown =>
      }
    }

    /** Lines 337-370 and 372-388. */
    method OnDescription(parses: bool, t: SdpType)
      modifies this
      ensures Value() == RemoteDescription(old(Value()), parses, t)
    {
      if !parses {
        return;
      }
      if connection.None? {
        faults := faults.(nullUse := true);
        return;
      }
      SetDescription(false, t);
      DoRead();
    }

    /** Lines 390-415. */
    method OnCandidate(parses: bool, usable: bool)
      modifies this
      ensures Value() == RemoteCandidate(old(Value()), parses, usable)
    {
      if !parses {
        return;
      }
      if connection.None? {
        faults := faults.(nullUse := true);
        return;
      }
      var added := AddIceCandidate(usable);
      if !added {
        return;
      }
      if !ready {
        ready := true;
        calls := calls + [OnReady];
      }
      DoRead();
    }

    /** The peer connection takes a candidate only after the remote description. */
    method AddIceCandidate(usable: bool) returns (added: bool)
      requires connection.Some?
      modifies this`applied, this`faults
      ensures added == (connection.value.hasRemote && usable)
      ensures applied == old(applied) + if added then 1 else 0
      ensures faults == old(faults).(early := old(faults).early || !connection.value.hasRemote)
    {
      if !connection.value.hasRemote {
        faults := faults.(early := true);
      }
      added := connection.value.hasRemote && usable;
      if added {
        applied := applied + 1;
      }
    }

    /** The result of `CreateOffer` arrives. */
    method OnCreateOffer()
      requires connection.Some? && connection.value.offersDue > 0
      modifies this
      ensures Value() == OfferCreated(old(Value()))
    {
      connection := Some(connection.value.(offersDue := connection.value.offersDue - 1));
      SetDescription(true, Offer);
      SendText(OfferText);
    }

    /** The remote offer was applied: ask for an answer. */
    method OnSetOffer()
      requires connection.Some? && connection.value.remoteOffersDue > 0
      modifies this`connection
      ensures Value() == RemoteOfferSet(old(Value()))
    {
      var c := connection.value;
      connection := Some(c.(remoteOffersDue := c.remoteOffersDue - 1, answersDue := c.answersDue + 1));
    }

    /** The result of `CreateAnswer` arrives. */
    method OnCreateAnswer()
      requires connection.Some? && connection.value.answersDue > 0
      modifies this
      ensures Value() == AnswerCreated(old(Value()))
    {
      connection := Some(connection.value.(answersDue := connection.value.answersDue - 1));
      SetDescription(true, Answer);
      SendText(AnswerText);
    }

    /** A candidate was gathered; one that cannot be written as text is dropped. */
    method OnIceCandidate(serialises: bool)
      requires connection.Some? && connection.value.hasLocal
      modifies this`posted
      ensures Value() == if serialises then CandidateGathered(old(Value())) else old(Value())
    {
      if !serialises {
        return;
      }
      SendText(LocalCandidate);
    }

    /** Whether a channel can be had; the code dereferences `connection_` once ready. */
    method CreateDataChannel() returns (created: bool)
      requires CanCreate(Value())
      ensures created == ready
      ensures created ==> connection.Some?
    {
      if !ready {
        return false;
      }
      return true;
    }
  }
}
