/** pubsub/ably.go: the participants of a pubsub session, the status messages it sends to
    the session, and the capabilities in a client's token.
 */
module Pubsub {
  import opened GoStrings

  datatype Participant = Participant(clientId: string, canWhisper: bool, canListen: bool, attached: bool)

  datatype ClientStatus = ClientStatus(clientId: string, isOnline: bool)

  /** `statuses` is the first-in first-out channel to the session. */
  datatype Side = Side(participants: map<string, Participant>, statuses: seq<ClientStatus>)

  datatype PresenceAction = Enter | Present | Leave | Absent | Update | Unknown

  /** A client known already keeps its attachment; a new one is attached if the presence
      channel says so. */
  function Added(s: Side, clientId: string, whisperer: bool, present: bool): Side {
    var p := if clientId in s.participants then s.participants[clientId]
             else Participant(clientId, false, false, present);
    s.(participants := s.participants[clientId := p.(canWhisper := p.canWhisper || whisperer, canListen := true)])
  }

  function Removed(s: Side, clientId: string): Side {
    s.(participants := s.participants - {clientId})
  }

  /** Only a change of status is passed on. */
  function PresenceReceived(s: Side, clientId: string, action: PresenceAction): Side {
    if clientId !in s.participants then s
    else
      var p := s.participants[clientId];
      var attached :=
        if action == Enter || action == Present then true
        else if action == Leave || action == Absent then false
        else p.attached;
      if attached == p.attached then s
      else
        Side(s.participants[clientId := p.(attached := attached)], s.statuses + [ClientStatus(clientId, attached)])
  }

  /** Rights are granted and never taken back by an addition, which touches no one else; a client
      that was known stays as attached as it was, and a removal takes all rights away. */
  lemma RightsGrow(s: Side, clientId: string, whisperer: bool, present: bool)
    ensures var t := Added(s, clientId, whisperer, present);
            && t.participants.Keys == s.participants.Keys + {clientId} && t.statuses == s.statuses
            && (forall id :: id in s.participants && id != clientId ==> t.participants[id] == s.participants[id])
            && t.participants[clientId].canListen
            && (whisperer ==> t.participants[clientId].canWhisper)
            && (clientId in s.participants ==>
                  && (t.participants[clientId].canWhisper <==> whisperer || s.participants[clientId].canWhisper)
                  && t.participants[clientId].attached == s.participants[clientId].attached)
            && (clientId !in s.participants ==>
                  && (t.participants[clientId].canWhisper <==> whisperer)
                  && t.participants[clientId].attached == present
                  && Removed(t, clientId) == s)
  {
    var t := Added(s, clientId, whisperer, present);
    assert clientId !in s.participants ==> t.participants - {clientId} == s.participants;
  }

  /** A status is sent exactly when a known client comes or goes; being present again, being
      gone already, and any other action change nothing. */
  lemma StatusOnChange(s: Side, clientId: string, action: PresenceAction)
    ensures var t := PresenceReceived(s, clientId, action);
            var comes, goes := action == Enter || action == Present, action == Leave || action == Absent;
            if clientId in s.participants && ((comes && !s.participants[clientId].attached)
                                              || (goes && s.participants[clientId].attached)) then
              && t.statuses == s.statuses + [ClientStatus(clientId, comes)]
              && t.participants == s.participants[clientId := s.participants[clientId].(attached := comes)]
            else t == s
  {
  }

  datatype Channel = PresenceChannel | ControlChannel | ContentChannel

  datatype Capability = AnyPresence | Subscribe | Publish

  /** None stands for the nil token of a client that is not a participant. */
  function TokenCapabilities(s: Side, clientId: string): Option<map<Channel, set<Capability>>> {
    if clientId !in s.participants then None
    else
      var p := s.participants[clientId];
      var everyone := map[PresenceChannel := {AnyPresence}, ControlChannel := {Subscribe}];
      Some(if p.canWhisper then everyone[ContentChannel := {Publish, Subscribe}]
           else if p.canListen then everyone[ContentChannel := {Subscribe}]
           else everyone)
  }

  class PubsubSession {
    var participants: map<string, Participant>
    var sr: seq<ClientStatus>

    constructor ()
      ensures State() == Side(map[], [])
    {
      participants, sr := map[], [];
    }

    function State(): Side
      reads this
    {
      Side(participants, sr)
    }

    method AddWhisperer(clientId: string, present: bool) returns (attached: bool)
      modifies this
      ensures State() == Added(old(State()), clientId, true, present)
      ensures clientId in participants && attached == participants[clientId].attached
    {
      if clientId in participants {
        var p := participants[clientId];
        participants := participants[clientId := p.(canWhisper := true, canListen := true)];
        return p.attached;
      }
      participants := participants[clientId := Participant(clientId, true, true, present)];
      return present;
    }

    method AddListener(clientId: string, present: bool) returns (attached: bool)
      modifies this
      ensures State() == Added(old(State()), clientId, false, present)
      ensures clientId in participants && attached == participants[clientId].attached
    {
      if clientId in participants {
        var p := participants[clientId];
        participants := participants[clientId := p.(canListen := true)];
        return p.attached;
      }
      participants := participants[clientId := Participant(clientId, false, true, present)];
      return present;
    }

    method RemoveClient(clientId: string)
      modifies this
      ensures State() == Removed(old(State()), clientId)
    {
      if clientId !in participants {
        assert participants - {clientId} == participants;
        return;
      }
      participants := participants - {clientId};
    }

    method ReceivePresence(clientId: string, action: PresenceAction)
      modifies this
      ensures State() == PresenceReceived(old(State()), clientId, action)
    {
      if clientId !in participants {
        return;
      }
      var p := participants[clientId];
      var attached := p.attached;
      match action {
        case Enter => attached := true;
        case Present => attached := true;
        case Leave => attached := false;
        case Absent => attached := false;
        case _ =>
      }
      if attached != p.attached {
        participants := participants[clientId := p.(attached := attached)];
        sr := sr + [ClientStatus(clientId, attached)];
      }
    }
  }
}
