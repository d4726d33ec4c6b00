/** lifecycle/session.go: the participants and the waitlist of a session, kept in step with
    its pubsub session through calls in one direction and status messages in the other.
 */
module Membership {
  import Pubsub

  datatype Participant = Participant(
    clientId: string, profileId: string, name: string, isWhisperer: bool, isOnline: bool, joinedAt: int)

  datatype World = World(waitlist: seq<Participant>, participants: map<string, Participant>, pubsub: Pubsub.Side)

  datatype Result = Ok | AlreadyPresent | NotPresent

  predicate Waiting(waitlist: seq<Participant>, clientId: string) {
    exists k :: 0 <= k < |waitlist| && waitlist[k].clientId == clientId
  }

  /** The waitlist without a client, in the same order. */
  function Without(waitlist: seq<Participant>, clientId: string): (r: seq<Participant>)
    ensures |r| <= |waitlist|
  {
    if |waitlist| == 0 then []
    else (if waitlist[0].clientId == clientId then [] else [waitlist[0]]) + Without(waitlist[1..], clientId)
  }

  /** One atomic step: the pubsub session is told, and its answer is the online status. */
  function NewParticipant(w: World, p: Participant, present: bool): World {
    if p.clientId in w.participants then w
    else
      var side := Pubsub.Added(w.pubsub, p.clientId, p.isWhisperer, present);
      w.(participants := w.participants[p.clientId := p.(isOnline := side.participants[p.clientId].attached)],
         pubsub := side)
  }

  function Admitted(w: World, p: Participant, present: bool): World {
    NewParticipant(w.(waitlist := Without(w.waitlist, p.clientId)), p, present)
  }

  function Requested(w: World, p: Participant): World {
    if Waiting(w.waitlist, p.clientId) then w else w.(waitlist := w.waitlist + [p])
  }

  function ClientRemoved(w: World, clientId: string): World {
    if clientId in w.participants then
      w.(participants := w.participants - {clientId}, pubsub := Pubsub.Removed(w.pubsub, clientId))
    else w.(waitlist := Without(w.waitlist, clientId))
  }

  /** The session takes the oldest status message; one about an unknown client is dropped. */
  function StatusTaken(w: World): World {
    if |w.pubsub.statuses| == 0 then w
    else
      var status := w.pubsub.statuses[0];
      var v := w.(pubsub := w.pubsub.(statuses := w.pubsub.statuses[1..]));
      if status.clientId !in w.participants then v
      else
        var p := w.participants[status.clientId];
        v.(participants := w.participants[status.clientId := p.(isOnline := status.isOnline)])
  }

  datatype Op =
    | AddWhisperer(clientId: string, profileId: string, name: string, present: bool, now: int)
    | AddListener(clientId: string, profileId: string, name: string, present: bool, now: int)
    | AddListenerRequest(clientId: string, profileId: string, name: string, now: int)
    | RemoveClient(clientId: string)
    | Presence(clientId: string, action: Pubsub.PresenceAction)
    | TakeStatus

  function Apply(w: World, op: Op): World {
    match op
    case AddWhisperer(clientId, profileId, name, present, now) =>
      NewParticipant(w, Participant(clientId, profileId, name, true, false, now), present)
    case AddListener(clientId, profileId, name, present, now) =>
      Admitted(w, Participant(clientId, profileId, name, false, false, now), present)
    case AddListenerRequest(clientId, profileId, name, now) =>
      Requested(w, Participant(clientId, profileId, name, false, false, now))
    case RemoveClient(clientId) => ClientRemoved(w, clientId)
    case Presence(clientId, action) => w.(pubsub := Pubsub.PresenceReceived(w.pubsub, clientId, action))
    case TakeStatus => StatusTaken(w)
  }

  // ----- the session object -----

  /** A Go slice of participants: an array and how much of it is in use. */
  class Slice {
    var buffer: array<Participant>
    var len: nat

    ghost predicate Valid()
      reads this
    {
      len <= buffer.Length
    }

    function Contents(): (s: seq<Participant>)
      requires Valid()
      reads this, buffer
      ensures |s| == len
    {
      buffer[..len]
    }

    constructor ()
      ensures Valid() && fresh(buffer) && Contents() == []
    {
      buffer := new Participant[0];
      len := 0;
    }

    /** append: in place if there is room, and otherwise in a new array. */
    method Append(p: Participant)
      requires Valid()
      modifies this, buffer
      ensures Valid() && (buffer == old(buffer) || fresh(buffer))
      ensures Contents() == old(Contents()) + [p]
    {
      if len == buffer.Length {
        var longer := new Participant[2 * len + 1](_ => p);
        for i := 0 to len
          invariant len == old(len) && buffer == old(buffer) && buffer[..] == old(buffer[..])
          invariant longer[..i] == buffer[..i]
        {
          longer[i] := buffer[i];
        }
        buffer := longer;
      }
      buffer[len] := p;
      len := len + 1;
      assert buffer[..len] == buffer[..len - 1] + [p];
    }

    /** append(s[:i], s[i+1:]...): the rest is shifted left in place. */
    method RemoveAt(i: nat)
      requires Valid() && i < len
      modifies this, buffer
      ensures Valid() && buffer == old(buffer)
      ensures Contents() == old(Contents())[..i] + old(Contents())[i + 1..]
    {
      ghost var was := buffer[..];
      var k := i + 1;
      while k < len
        invariant i < k <= len && len == old(len) && buffer == old(buffer)
        invariant buffer[..] == Shifted(was, i, k)
      {
        ShiftedStep(was, i, k);
        buffer[k - 1] := buffer[k];
        k := k + 1;
      }
      len := len - 1;
      assert buffer[..len] == Shifted(was, i, k)[..len];
    }
  }

  /** The array while its elements from `i` on are shifted left, up to `k`. */
  function Shifted(was: seq<Participant>, i: nat, k: nat): seq<Participant>
    requires i < k <= |was|
  {
    was[..i] + was[i + 1..k] + was[k - 1..]
  }

  lemma ShiftedStep(was: seq<Participant>, i: nat, k: nat)
    requires i < k < |was|
    ensures |Shifted(was, i, k)| == |was|
    ensures Shifted(was, i, k + 1) == Shifted(was, i, k)[k - 1 := Shifted(was, i, k)[k]]
  {
    var now := Shifted(was, i, k);
    assert now[k - 1..] == was[k - 1..] && now[k] == was[k];
    assert was[i + 1..k + 1] == was[i + 1..k] + [was[k]];
    assert now[k - 1 := now[k]] == was[..i] + was[i + 1..k] + [was[k]] + was[k..];
  }

  class Session {
    const waitlist: Slice
    var participants: map<string, Participant>
    const pubsub: Pubsub.PubsubSession

    constructor (waitlist: Slice, participants: map<string, Participant>, pubsub: Pubsub.PubsubSession)
      requires waitlist.Valid()
      ensures this.pubsub == pubsub && this.waitlist == waitlist
      ensures State() == World(waitlist.Contents(), participants, pubsub.State())
    {
      this.waitlist, this.participants, this.pubsub := waitlist, participants, pubsub;
    }

    function State(): World
      requires waitlist.Valid()
      reads this, waitlist, waitlist.buffer, pubsub
    {
      World(waitlist.Contents(), participants, pubsub.State())
    }

    /** The place of a client in the waitlist, or its length. */
    method FindWaiting(clientId: string) returns (i: nat)
      requires waitlist.Valid()
      ensures i <= waitlist.len
      ensures i < waitlist.len ==> waitlist.Contents()[i].clientId == clientId
      ensures i == waitlist.len <==> !Waiting(waitlist.Contents(), clientId)
      ensures !Waiting(waitlist.Contents()[..i], clientId)
    {
      i := 0;
      while i < waitlist.len
        invariant i <= waitlist.len
        invariant forall k :: 0 <= k < i ==> waitlist.Contents()[k].clientId != clientId
      {
        if waitlist.buffer[i].clientId == clientId {
          return;
        }
        i := i + 1;
      }
    }

    /** Takes the first entry of a client out of the waitlist. */
    method RemoveWaiting(clientId: string) returns (found: bool)
      requires waitlist.Valid() && DistinctClients(waitlist.Contents())
      modifies waitlist, waitlist.buffer
      ensures waitlist.Valid() && waitlist.buffer == old(waitlist.buffer)
      ensures found == Waiting(old(waitlist.Contents()), clientId)
      ensures waitlist.Contents() == Without(old(waitlist.Contents()), clientId)
    {
      var i := FindWaiting(clientId);
      found := i < waitlist.len;
      ghost var before := waitlist.Contents();
      if found {
        WithoutIs(before[..i], before[i], before[i + 1..]);
        assert before == before[..i] + [before[i]] + before[i + 1..];
        waitlist.RemoveAt(i);
      } else {
        WithoutAbsent(before, clientId);
      }
    }

    method AddNewParticipant(clientId: string, profileId: string, name: string, isWhisperer: bool, present: bool,
                             now: int)
      returns (r: Result)
      requires waitlist.Valid()
      modifies `participants, pubsub
      ensures r == if clientId in old(participants) then AlreadyPresent else Ok
      ensures var p := Participant(clientId, profileId, name, isWhisperer, false, now);
              State() == NewParticipant(old(State()), p, present)
    {
      if clientId in participants {
        return AlreadyPresent;
      }
      var p := Participant(clientId, profileId, name, isWhisperer, false, now);
      participants := participants[clientId := p];
      var attached;
      if isWhisperer {
        attached := pubsub.AddWhisperer(clientId, present);
      } else {
        attached := pubsub.AddListener(clientId, present);
      }
      participants := participants[clientId := p.(isOnline := attached)];
      r := Ok;
    }

    method AddWhisperer(clientId: string, profileId: string, name: string, present: bool, now: int) returns (r: Result)
      requires waitlist.Valid()
      modifies `participants, pubsub
      ensures r == if clientId in old(participants) then AlreadyPresent else Ok
      ensures State() == Apply(old(State()), Op.AddWhisperer(clientId, profileId, name, present, now))
    {
      r := AddNewParticipant(clientId, profileId, name, true, present, now);
    }

    /** A waiting client is approved, even if it turns out to be a participant already. */
    method AddListener(clientId: string, profileId: string, name: string, present: bool, now: int) returns (r: Result)
      requires waitlist.Valid() && DistinctClients(waitlist.Contents())
      modifies `participants, pubsub, waitlist, waitlist.buffer
      ensures waitlist.Valid()
      ensures r == if clientId in old(participants) then AlreadyPresent else Ok
      ensures State() == Apply(old(State()), Op.AddListener(clientId, profileId, name, present, now))
    {
      var _ := RemoveWaiting(clientId);
      r := AddNewParticipant(clientId, profileId, name, false, present, now);
    }

    method AddListenerRequest(clientId: string, profileId: string, name: string, now: int) returns (r: Result)
      requires waitlist.Valid()
      modifies waitlist, waitlist.buffer
      ensures waitlist.Valid() && (waitlist.buffer == old(waitlist.buffer) || fresh(waitlist.buffer))
      ensures r == if Waiting(old(waitlist.Contents()), clientId) then AlreadyPresent else Ok
      ensures State() == Apply(old(State()), Op.AddListenerRequest(clientId, profileId, name, now))
    {
      var i := FindWaiting(clientId);
      if i < waitlist.len {
        return AlreadyPresent;
      }
      waitlist.Append(Participant(clientId, profileId, name, false, false, now));
      r := Ok;
    }

    method RemoveClient(clientId: string) returns (r: Result)
      requires waitlist.Valid() && DistinctClients(waitlist.Contents())
      modifies `participants, pubsub, waitlist, waitlist.buffer
      ensures waitlist.Valid()
      ensures r == if clientId in old(participants) || Waiting(old(waitlist.Contents()), clientId) then Ok
                   else NotPresent
      ensures State() == Apply(old(State()), Op.RemoveClient(clientId))
    {
      if clientId !in participants {
        var found := RemoveWaiting(clientId);
        return if found then Ok else NotPresent;
      }
      pubsub.RemoveClient(clientId);
      participants := participants - {clientId};
      r := Ok;
    }

    /** One turn of the loop that monitors participants. */
    method MonitorOne()
      requires waitlist.Valid() && |pubsub.sr| > 0
      modifies `participants, pubsub
      ensures State() == Apply(old(State()), TakeStatus)
    {
      var status := pubsub.sr[0];
      pubsub.sr := pubsub.sr[1..];
      if status.clientId !in participants {
        return;
      }
      participants := participants[status.clientId := participants[status.clientId].(isOnline := status.isOnline)];
    }

    /** Starting a session on a fresh pubsub session: every saved participant is added to it,
        in any order, and its online status is the answer. */
    method Start(present: set<string>)
      requires pubsub.State() == Pubsub.Side(map[], [])
      requires waitlist.Valid() && DistinctClients(waitlist.Contents()) && KeyedById(participants)
      modifies `participants, pubsub
      ensures Consistent(State())
      ensures waitlist.Contents() == old(waitlist.Contents()) && participants.Keys == old(participants.Keys)
      ensures forall id :: id in participants ==>
                participants[id] == old(participants)[id].(isOnline := id in present)
    {
      hide HalfStarted;
      ghost var saved := participants;
      var todo := participants.Keys;
      HalfStartedInit(saved, present);
      while todo != {}
        invariant pubsub.sr == []
        invariant HalfStarted(saved, participants, pubsub.participants, todo, present)
        decreases |todo|
      {
        var id :| id in todo;
        HalfStartedStep(saved, participants, pubsub.participants, todo, present, id);
        var p, attached := participants[id], false;
        if p.isWhisperer {
          attached := pubsub.AddWhisperer(id, id in present);
        } else {
          attached := pubsub.AddListener(id, id in present);
        }
        participants := participants[id := p.(isOnline := attached)];
        todo := todo - {id};
      }
      HalfStartedDone(saved, State(), present);
    }
  }

  /** The saved participants except those in `todo` are known to the pubsub session and have
      their online status. */
  predicate HalfStarted(saved: map<string, Participant>, participants: map<string, Participant>,
                        known: map<string, Pubsub.Participant>, todo: set<string>, present: set<string>)
  {
    && todo <= participants.Keys == saved.Keys
    && known.Keys == participants.Keys - todo
    && (forall id :: id in todo ==> participants[id] == saved[id])
    && (forall id :: id in participants && id !in todo ==>
          && participants[id] == saved[id].(isOnline := id in present)
          && known[id] == Pubsub.Participant(id, saved[id].isWhisperer, true, id in present))
  }

  lemma HalfStartedInit(saved: map<string, Participant>, present: set<string>)
    ensures HalfStarted(saved, saved, map[], saved.Keys, present)
  {
  }

  lemma HalfStartedStep(saved: map<string, Participant>, participants: map<string, Participant>,
                        known: map<string, Pubsub.Participant>, todo: set<string>, present: set<string>, id: string)
    requires HalfStarted(saved, participants, known, todo, present) && id in todo
    ensures id in participants && id !in known
    ensures var p := participants[id];
            HalfStarted(saved, participants[id := p.(isOnline := id in present)],
                        known[id := Pubsub.Participant(id, p.isWhisperer, true, id in present)], todo - {id}, present)
  {
  }

  lemma HalfStartedDone(saved: map<string, Participant>, w: World, present: set<string>)
    requires HalfStarted(saved, w.participants, w.pubsub.participants, {}, present)
    requires KeyedById(saved) && DistinctClients(w.waitlist) && w.pubsub.statuses == []
    ensures Consistent(w) && w.participants.Keys == saved.Keys
    ensures forall id :: id in w.participants ==> w.participants[id] == saved[id].(isOnline := id in present)
  {
    assert forall id :: id in w.participants ==> Pending(w.pubsub.statuses, id) == [];
  }

  // ----- the waitlist -----

  predicate DistinctClients(waitlist: seq<Participant>) {
    forall j, k :: 0 <= j < k < |waitlist| ==> waitlist[j].clientId != waitlist[k].clientId
  }

  lemma {:induction false} WithoutAbsent(waitlist: seq<Participant>, clientId: string)
    requires !Waiting(waitlist, clientId)
    ensures Without(waitlist, clientId) == waitlist
  {
    if |waitlist| > 0 {
      assert waitlist[0].clientId != clientId;
      assert forall k :: 0 <= k < |waitlist[1..]| ==> waitlist[1..][k] == waitlist[k + 1];
      WithoutAbsent(waitlist[1..], clientId);
      assert waitlist == [waitlist[0]] + waitlist[1..];
    }
  }

  /** Taking out one client leaves everyone else in the same order. */
  lemma {:induction false} WithoutIs(before: seq<Participant>, p: Participant, after: seq<Participant>)
    requires DistinctClients(before + [p] + after)
    ensures Without(before + [p] + after, p.clientId) == before + after
    decreases |before|
  {
    var all := before + [p] + after;
    if |before| == 0 {
      assert all[0] == p && all[1..] == after;
      assert forall k :: 0 <= k < |after| ==> after[k] == all[k + 1];
      WithoutAbsent(after, p.clientId);
      assert [] + after == before + after;
    } else {
      assert all[0] == before[0] && all[|before|] == p;
      assert all[1..] == before[1..] + [p] + after;
      assert forall k :: 0 <= k < |all[1..]| ==> all[1..][k] == all[k + 1];
      WithoutIs(before[1..], p, after);
      assert [before[0]] + (before[1..] + after) == before + after;
    }
  }

  lemma {:induction false} WithoutKeepsDistinct(waitlist: seq<Participant>, clientId: string)
    requires DistinctClients(waitlist)
    ensures DistinctClients(Without(waitlist, clientId))
    ensures forall id :: Waiting(Without(waitlist, clientId), id) <==> Waiting(waitlist, id) && id != clientId
  {
    if |waitlist| > 0 {
      var rest, kept := waitlist[1..], Without(waitlist[1..], clientId);
      assert forall k :: 0 <= k < |rest| ==> rest[k] == waitlist[k + 1];
      WithoutKeepsDistinct(rest, clientId);
      WaitingCons(waitlist[0], rest);
      WaitingCons(waitlist[0], kept);
      assert waitlist == [waitlist[0]] + rest;
      assert !Waiting(rest, waitlist[0].clientId);
      DistinctCons(waitlist[0], kept);
      assert [] + kept == kept;
    }
  }

  lemma WaitingCons(p: Participant, rest: seq<Participant>)
    ensures forall id :: Waiting([p] + rest, id) <==> p.clientId == id || Waiting(rest, id)
  {
    forall id ensures Waiting([p] + rest, id) <==> p.clientId == id || Waiting(rest, id) {
      assert ([p] + rest)[0] == p;
      assert forall k :: 0 <= k < |rest| ==> ([p] + rest)[k + 1] == rest[k];
      assert forall k :: 1 <= k < |[p] + rest| ==> ([p] + rest)[k] == rest[k - 1];
    }
  }

  lemma DistinctCons(p: Participant, rest: seq<Participant>)
    requires DistinctClients(rest) && !Waiting(rest, p.clientId)
    ensures DistinctClients([p] + rest)
  {
    assert forall k :: 1 <= k < |[p] + rest| ==> ([p] + rest)[k] == rest[k - 1];
  }

  // ----- status messages in flight -----

  /** The statuses of one client that the session has not taken yet, oldest first. */
  function Pending(statuses: seq<Pubsub.ClientStatus>, clientId: string): seq<bool> {
    if |statuses| == 0 then []
    else (if statuses[0].clientId == clientId then [statuses[0].isOnline] else []) + Pending(statuses[1..], clientId)
  }

  lemma {:induction false} PendingSnoc(statuses: seq<Pubsub.ClientStatus>, s: Pubsub.ClientStatus, clientId: string)
    ensures Pending(statuses + [s], clientId) ==
            Pending(statuses, clientId) + if s.clientId == clientId then [s.isOnline] else []
  {
    if |statuses| == 0 {
      assert statuses + [s] == [s] && [s][1..] == [];
    } else {
      var head := if statuses[0].clientId == clientId then [statuses[0].isOnline] else [];
      var last := if s.clientId == clientId then [s.isOnline] else [];
      assert (statuses + [s])[0] == statuses[0] && (statuses + [s])[1..] == statuses[1..] + [s];
      PendingSnoc(statuses[1..], s, clientId);
      assert head + (Pending(statuses[1..], clientId) + last) == head + Pending(statuses[1..], clientId) + last;
    }
  }

  /** The online status once all pending statuses are taken. */
  function Settled(online: bool, pending: seq<bool>): bool {
    if |pending| == 0 then online else pending[|pending| - 1]
  }

  /** Each pending status is the opposite of the one before it, and the first the opposite of
      what the session believes. */
  predicate Alternates(online: bool, pending: seq<bool>) {
    && (|pending| > 0 ==> pending[0] != online)
    && forall k :: 0 <= k < |pending| - 1 ==> pending[k + 1] != pending[k]
  }

  // ----- the invariant -----

  predicate KeyedById(participants: map<string, Participant>) {
    forall id :: id in participants ==> participants[id].clientId == id
  }

  /** The pubsub session has just the session's participants, with the rights of their role. */
  predicate SameMembers(w: World) {
    && KeyedById(w.participants)
    && w.pubsub.participants.Keys == w.participants.Keys
    && forall id :: id in w.participants ==>
         var q := w.pubsub.participants[id];
         q.clientId == id && q.canWhisper == w.participants[id].isWhisperer && q.canListen
  }

  /** What the session believes and what is in flight add up to what pubsub knows. */
  predicate PresenceAgrees(w: World, id: string)
    requires id in w.participants && id in w.pubsub.participants
  {
    var pending := Pending(w.pubsub.statuses, id);
    && Alternates(w.participants[id].isOnline, pending)
    && Settled(w.participants[id].isOnline, pending) == w.pubsub.participants[id].attached
  }

  predicate MembersMatch(w: World) {
    DistinctClients(w.waitlist) && SameMembers(w)
  }

  predicate Consistent(w: World) {
    && MembersMatch(w)
    && forall id :: id in w.participants ==> PresenceAgrees(w, id)
  }

  /** The statuses about an earlier membership do not disturb a new one: they go back and forth
      from what pubsub says now, and end there. */
  predicate Undisturbed(w: World, clientId: string, present: bool) {
    clientId !in w.participants ==>
      var stale := Pending(w.pubsub.statuses, clientId);
      Alternates(present, stale) && Settled(present, stale) == present
  }

  lemma NewParticipantExactly(w: World, p: Participant, present: bool)
    requires Consistent(w)
    ensures Consistent(NewParticipant(w, p, present)) <==> Undisturbed(w, p.clientId, present)
  {
    hide Alternates, Settled, Pending, DistinctClients;
    var v := NewParticipant(w, p, present);
    NewParticipantKeepsMembers(w, p, present);
    if p.clientId !in w.participants {
      hide MembersMatch;
      assert PresenceAgrees(v, p.clientId) <==> Undisturbed(w, p.clientId, present);
      forall id | id in w.participants ensures PresenceAgrees(v, id) {
        assert PresenceAgrees(w, id);
      }
      assert v.participants.Keys == w.participants.Keys + {p.clientId};
    }
  }

  /** A removed client is on neither side any more, or no longer waits if it was not a
      participant; everyone else is as before. */
  lemma RemovalKeeps(w: World, clientId: string)
    requires Consistent(w)
    ensures var v := ClientRemoved(w, clientId);
            && Consistent(v)
            && clientId !in v.participants && clientId !in v.pubsub.participants
            && v.participants == w.participants - {clientId}
            && v.pubsub.statuses == w.pubsub.statuses
            && (clientId in w.participants ==> v.waitlist == w.waitlist)
            && (clientId !in w.participants ==>
                  forall id :: Waiting(v.waitlist, id) <==> Waiting(w.waitlist, id) && id != clientId)
  {
    hide Pending;
    var v := ClientRemoved(w, clientId);
    WithoutKeepsDistinct(w.waitlist, clientId);
    forall id | id in v.participants ensures PresenceAgrees(v, id) {
      assert PresenceAgrees(w, id);
    }
  }

  lemma AlternatesSnoc(online: bool, pending: seq<bool>, status: bool)
    requires Alternates(online, pending) && status != Settled(online, pending)
    ensures Alternates(online, pending + [status]) && Settled(online, pending + [status]) == status
  {
  }

  lemma PresenceKeeps(w: World, clientId: string, action: Pubsub.PresenceAction)
    requires Consistent(w)
    ensures Consistent(w.(pubsub := Pubsub.PresenceReceived(w.pubsub, clientId, action)))
  {
    hide Pending, Alternates, Settled;
    var side := Pubsub.PresenceReceived(w.pubsub, clientId, action);
    var v := w.(pubsub := side);
    if side != w.pubsub {
      var attached := side.participants[clientId].attached;
      forall id | id in v.participants ensures PresenceAgrees(v, id) {
        assert PresenceAgrees(w, id);
        PendingSnoc(w.pubsub.statuses, Pubsub.ClientStatus(clientId, attached), id);
        if id == clientId {
          AlternatesSnoc(w.participants[id].isOnline, Pending(w.pubsub.statuses, id), attached);
        } else {
          assert Pending(w.pubsub.statuses, id) + [] == Pending(w.pubsub.statuses, id);
        }
      }
    }
  }

  lemma AlternatesTail(online: bool, pending: seq<bool>)
    requires Alternates(online, pending) && |pending| > 0
    ensures Alternates(pending[0], pending[1..]) && Settled(pending[0], pending[1..]) == Settled(online, pending)
  {
  }

  lemma StatusKeeps(w: World)
    requires Consistent(w)
    ensures Consistent(StatusTaken(w))
  {
    hide Alternates, Settled;
    var v := StatusTaken(w);
    if |w.pubsub.statuses| > 0 {
      forall id | id in v.participants ensures PresenceAgrees(v, id) {
        assert PresenceAgrees(w, id);
        var pending := Pending(w.pubsub.statuses, id);
        if w.pubsub.statuses[0].clientId == id {
          assert pending[0] == w.pubsub.statuses[0].isOnline;
          assert pending[1..] == Pending(v.pubsub.statuses, id);
          AlternatesTail(w.participants[id].isOnline, pending);
        } else {
          assert [] + Pending(v.pubsub.statuses, id) == Pending(v.pubsub.statuses, id);
        }
      }
    }
  }

  /** Clients that come back come back undisturbed. */
  predicate UndisturbedOp(w: World, op: Op) {
    op.AddWhisperer? || op.AddListener? ==> Undisturbed(w, op.clientId, op.present)
  }

  lemma ApplyConsistentExactly(w: World, op: Op)
    requires Consistent(w)
    ensures Consistent(Apply(w, op)) <==> UndisturbedOp(w, op)
  {
    hide Consistent, NewParticipant, ClientRemoved, StatusTaken, Pubsub.PresenceReceived, Pending;
    match op
    case AddWhisperer(clientId, profileId, name, present, now) =>
      NewParticipantExactly(w, Participant(clientId, profileId, name, true, false, now), present);
    case AddListener(clientId, profileId, name, present, now) =>
      WaitlistKeeps(w, clientId);
      NewParticipantExactly(w.(waitlist := Without(w.waitlist, clientId)),
                            Participant(clientId, profileId, name, false, false, now), present);
    case AddListenerRequest(clientId, profileId, name, now) =>
      RequestKeeps(w, Participant(clientId, profileId, name, false, false, now));
    case RemoveClient(clientId) => RemovalKeeps(w, clientId);
    case Presence(clientId, action) => PresenceKeeps(w, clientId, action);
    case TakeStatus => StatusKeeps(w);
  }

  lemma WaitlistKeeps(w: World, clientId: string)
    requires Consistent(w)
    ensures Consistent(w.(waitlist := Without(w.waitlist, clientId)))
  {
    WithoutKeepsDistinct(w.waitlist, clientId);
    forall id | id in w.participants ensures PresenceAgrees(w.(waitlist := Without(w.waitlist, clientId)), id) {
      assert PresenceAgrees(w, id);
    }
  }

  /** A client that asks to be admitted waits, behind everyone who waits already. */
  lemma RequestKeeps(w: World, p: Participant)
    requires Consistent(w)
    ensures var v := Requested(w, p);
            && Consistent(v)
            && Waiting(v.waitlist, p.clientId)
            && w.waitlist <= v.waitlist && |v.waitlist| <= |w.waitlist| + 1
            && v.participants == w.participants && v.pubsub == w.pubsub
  {
    var v := Requested(w, p);
    assert v != w ==> v.waitlist[|w.waitlist|] == p;
    forall id | id in w.participants ensures PresenceAgrees(Requested(w, p), id) {
      assert PresenceAgrees(w, id);
    }
  }

  function Run(w: World, ops: seq<Op>): World
    decreases |ops|
  {
    if |ops| == 0 then w else Run(Apply(w, ops[0]), ops[1..])
  }

  predicate AlwaysConsistent(w: World, ops: seq<Op>)
    decreases |ops|
  {
    Consistent(w) && (|ops| > 0 ==> AlwaysConsistent(Apply(w, ops[0]), ops[1..]))
  }

  predicate UndisturbedRun(w: World, ops: seq<Op>)
    decreases |ops|
  {
    |ops| > 0 ==> UndisturbedOp(w, ops[0]) && UndisturbedRun(Apply(w, ops[0]), ops[1..])
  }

  /** Over every run the two sides are consistent at every moment exactly if every client that
      comes back comes back undisturbed. */
  lemma {:induction false} RunConsistentExactly(w: World, ops: seq<Op>)
    requires Consistent(w)
    ensures AlwaysConsistent(w, ops) <==> UndisturbedRun(w, ops)
    decreases |ops|
  {
    hide Consistent, Apply, UndisturbedOp;
    if |ops| > 0 {
      ApplyConsistentExactly(w, ops[0]);
      if UndisturbedOp(w, ops[0]) {
        RunConsistentExactly(Apply(w, ops[0]), ops[1..]);
      }
    }
  }

  // ----- what the session settles on -----

  /** Whatever happened before, the session will show the participant as pubsub has it. */
  predicate WillShow(w: World, id: string)
    requires id in w.participants && id in w.pubsub.participants
  {
    Settled(w.participants[id].isOnline, Pending(w.pubsub.statuses, id)) == w.pubsub.participants[id].attached
  }

  predicate WillShowAll(w: World) {
    MembersMatch(w) && forall id :: id in w.participants ==> WillShow(w, id)
  }

  lemma ConsistentWillShow(w: World)
    requires Consistent(w)
    ensures WillShowAll(w)
  {
    forall id | id in w.participants ensures WillShow(w, id) {
      assert PresenceAgrees(w, id);
    }
  }

  /** No status about an earlier membership is in flight, or the last one says what is so. */
  predicate EndsRight(w: World, op: Op) {
    (op.AddWhisperer? || op.AddListener?) && op.clientId !in w.participants ==>
      var stale := Pending(w.pubsub.statuses, op.clientId);
      stale == [] || stale[|stale| - 1] == op.present
  }

  lemma PresenceWillShow(w: World, clientId: string, action: Pubsub.PresenceAction)
    requires WillShowAll(w)
    ensures WillShowAll(Apply(w, Presence(clientId, action)))
  {
    hide Pending, Alternates;
    var side := Pubsub.PresenceReceived(w.pubsub, clientId, action);
    var v := w.(pubsub := side);
    if side != w.pubsub {
      var attached := side.participants[clientId].attached;
      forall id | id in v.participants ensures WillShow(v, id) {
        assert WillShow(w, id);
        PendingSnoc(w.pubsub.statuses, Pubsub.ClientStatus(clientId, attached), id);
        if id != clientId {
          assert Pending(w.pubsub.statuses, id) + [] == Pending(w.pubsub.statuses, id);
        }
      }
    }
  }

  lemma StatusWillShow(w: World)
    requires WillShowAll(w)
    ensures WillShowAll(StatusTaken(w))
  {
    var v := StatusTaken(w);
    StatusKeepsMembers(w);
    if |w.pubsub.statuses| > 0 {
      forall id | id in v.participants ensures WillShow(v, id) {
        assert WillShow(w, id);
        var status, rest := w.pubsub.statuses[0], Pending(v.pubsub.statuses, id);
        assert Pending(w.pubsub.statuses, id) == (if status.clientId == id then [status.isOnline] else []) + rest;
        assert [] + rest == rest;
      }
    }
  }

  lemma NewWillShowExactly(w: World, p: Participant, present: bool)
    requires WillShowAll(w)
    ensures var stale := Pending(w.pubsub.statuses, p.clientId);
            WillShowAll(NewParticipant(w, p, present))
            <==> p.clientId in w.participants || stale == [] || stale[|stale| - 1] == present
  {
    hide Pending;
    var v := NewParticipant(w, p, present);
    NewParticipantKeepsMembers(w, p, present);
    forall id | id in v.participants && id != p.clientId ensures WillShow(v, id) {
      assert WillShow(w, id);
    }
    if p.clientId !in w.participants {
      assert WillShow(v, p.clientId) <==>
             Settled(present, Pending(w.pubsub.statuses, p.clientId)) == present;
    }
  }

  /** The operations that leave the participants and their messages alone, or take one away. */
  lemma OthersWillShow(w: World, v: World)
    requires WillShowAll(w) && MembersMatch(v) && v.pubsub.statuses == w.pubsub.statuses
    requires forall id :: id in v.participants ==>
               id in w.participants && v.participants[id] == w.participants[id]
               && v.pubsub.participants[id] == w.pubsub.participants[id]
    ensures WillShowAll(v)
  {
    hide Pending, Settled;
    forall id | id in v.participants ensures WillShow(v, id) {
      assert WillShow(w, id);
    }
  }

  lemma ApplyWillShowExactly(w: World, op: Op)
    requires WillShowAll(w)
    ensures WillShowAll(Apply(w, op)) <==> EndsRight(w, op)
  {
    hide WillShowAll, NewParticipant, StatusTaken, Pending;
    assert MembersMatch(w) by { WillShowMatches(w); }
    ApplyKeepsMembers(w, op);
    match op
    case AddWhisperer(clientId, profileId, name, present, now) =>
      NewWillShowExactly(w, Participant(clientId, profileId, name, true, false, now), present);
    case AddListener(clientId, profileId, name, present, now) =>
      var u := w.(waitlist := Without(w.waitlist, clientId));
      WithoutKeepsDistinct(w.waitlist, clientId);
      OthersWillShow(w, u);
      NewWillShowExactly(u, Participant(clientId, profileId, name, false, false, now), present);
    case Presence(clientId, action) => PresenceWillShow(w, clientId, action);
    case TakeStatus => StatusWillShow(w);
    case _ => OthersWillShow(w, Apply(w, op));
  }

  lemma WillShowMatches(w: World)
    requires WillShowAll(w)
    ensures MembersMatch(w)
  {
  }

  predicate AlwaysWillShow(w: World, ops: seq<Op>)
    decreases |ops|
  {
    WillShowAll(w) && (|ops| > 0 ==> AlwaysWillShow(Apply(w, ops[0]), ops[1..]))
  }

  predicate AllEndRight(w: World, ops: seq<Op>)
    decreases |ops|
  {
    |ops| > 0 ==> EndsRight(w, ops[0]) && AllEndRight(Apply(w, ops[0]), ops[1..])
  }

  /** Over every run the session would, at every moment, settle on the right status of every
      participant exactly if, whenever a client comes back, no status about it is in flight
      or the last one says what is so. */
  lemma {:induction false} RunSettlesExactly(w: World, ops: seq<Op>)
    requires WillShowAll(w)
    ensures AlwaysWillShow(w, ops) <==> AllEndRight(w, ops)
    decreases |ops|
  {
    hide WillShowAll, Apply, EndsRight;
    if |ops| > 0 {
      ApplyWillShowExactly(w, ops[0]);
      if EndsRight(w, ops[0]) {
        RunSettlesExactly(Apply(w, ops[0]), ops[1..]);
      }
    }
  }

  /** In a consistent state, once the session has taken all statuses it knows who is online. */
  lemma QuietMeansKnown(w: World, id: string)
    requires Consistent(w) && id in w.participants && w.pubsub.statuses == []
    ensures w.participants[id].isOnline == w.pubsub.participants[id].attached
  {
    assert PresenceAgrees(w, id);
  }

  function TakeAll(w: World): World
    decreases |w.pubsub.statuses|
  {
    if |w.pubsub.statuses| == 0 then w else TakeAll(StatusTaken(w))
  }

  lemma StatusTakenRest(w: World)
    requires |w.pubsub.statuses| > 0
    ensures var v := StatusTaken(w);
            && v.pubsub == w.pubsub.(statuses := w.pubsub.statuses[1..])
            && v.participants.Keys == w.participants.Keys
  {
  }

  /** Once the session has taken all statuses in flight, it shows every participant the way
      the pubsub session has it. */
  lemma {:induction false} TakingAllSettles(w: World)
    requires Consistent(w)
    ensures var v := TakeAll(w);
            && Consistent(v) && v.pubsub.statuses == []
            && v.pubsub.participants == w.pubsub.participants && v.participants.Keys == w.participants.Keys
            && forall id :: id in v.participants ==> v.participants[id].isOnline == w.pubsub.participants[id].attached
    decreases |w.pubsub.statuses|
  {
    hide Consistent, StatusTaken;
    if |w.pubsub.statuses| == 0 {
      forall id | id in w.participants
        ensures id in w.pubsub.participants && w.participants[id].isOnline == w.pubsub.participants[id].attached
      {
        ParticipantKnown(w, id);
        QuietMeansKnown(w, id);
      }
    } else {
      StatusKeeps(w);
      StatusTakenRest(w);
      TakingAllSettles(StatusTaken(w));
    }
  }

  lemma ParticipantKnown(w: World, id: string)
    requires Consistent(w)
    ensures id in w.participants <==> id in w.pubsub.participants
  {
  }

  /** Presence gets through: when a participant enters or leaves and all statuses have been
      taken, the session shows it online or offline, whatever was in flight before. */
  lemma PresenceGetsThrough(w: World, id: string, action: Pubsub.PresenceAction)
    requires Consistent(w) && id in w.participants
    ensures var v := TakeAll(Apply(w, Presence(id, action)));
            && id in v.participants
            && (action == Pubsub.Enter || action == Pubsub.Present ==> v.participants[id].isOnline)
            && (action == Pubsub.Leave || action == Pubsub.Absent ==> !v.participants[id].isOnline)
            && (action == Pubsub.Update || action == Pubsub.Unknown ==>
                  v.participants[id].isOnline == w.pubsub.participants[id].attached)
  {
    hide TakeAll, Consistent;
    var u := Apply(w, Presence(id, action));
    ParticipantKnown(w, id);
    PresenceKeeps(w, id, action);
    TakingAllSettles(u);
  }

  /** Admitting a waiting client takes it off the waitlist and leaves the others in order. */
  lemma AdmissionKeepsOrder(w: World, before: seq<Participant>, p: Participant, after: seq<Participant>,
                            q: Participant, present: bool)
    requires Consistent(w) && w.waitlist == before + [p] + after && q.clientId == p.clientId
    ensures Admitted(w, q, present).waitlist == before + after
    ensures q.clientId in Admitted(w, q, present).participants
  {
    WithoutIs(before, p, after);
  }

  /** A client that comes back: what the session settles on is right exactly when no stale
      status is in flight or the last one happens to say the same. */
  lemma ReaddedExactly(w: World, p: Participant, present: bool)
    requires Consistent(w) && p.clientId !in w.participants
    ensures var v, stale := NewParticipant(w, p, present), Pending(w.pubsub.statuses, p.clientId);
            Settled(v.participants[p.clientId].isOnline, Pending(v.pubsub.statuses, p.clientId))
              == v.pubsub.participants[p.clientId].attached
            <==> stale == [] || stale[|stale| - 1] == present
  {
  }

  /** A stale status in flight is enough: a client that left and came back at once is shown
      offline although it is attached. */
  lemma StaleStatusMisleads(w: World, p: Participant)
    requires Consistent(w) && w.pubsub.statuses == []
    requires p.clientId in w.participants && w.participants[p.clientId].isOnline
    ensures var left := Apply(Apply(w, Presence(p.clientId, Pubsub.Leave)), RemoveClient(p.clientId));
            var back := StatusTaken(NewParticipant(left, p, true));
            && back.pubsub.statuses == []
            && back.pubsub.participants[p.clientId].attached
            && !back.participants[p.clientId].isOnline
  {
    QuietMeansKnown(w, p.clientId);
    var left := Apply(Apply(w, Presence(p.clientId, Pubsub.Leave)), RemoveClient(p.clientId));
    assert left.pubsub.statuses == [Pubsub.ClientStatus(p.clientId, false)];
  }

  lemma NewParticipantKeepsMembers(w: World, p: Participant, present: bool)
    requires MembersMatch(w)
    ensures MembersMatch(NewParticipant(w, p, present))
  {
  }

  lemma PresenceKeepsMembers(w: World, clientId: string, action: Pubsub.PresenceAction)
    requires MembersMatch(w)
    ensures MembersMatch(w.(pubsub := Pubsub.PresenceReceived(w.pubsub, clientId, action)))
  {
  }

  lemma StatusKeepsMembers(w: World)
    requires MembersMatch(w)
    ensures MembersMatch(StatusTaken(w))
  {
  }

  /** Every operation, whatever is in flight, keeps waiting clients distinct and the two sides'
      participants and rights the same. */
  lemma ApplyKeepsMembers(w: World, op: Op)
    requires MembersMatch(w)
    ensures MembersMatch(Apply(w, op))
  {
    hide NewParticipant, Pubsub.PresenceReceived, StatusTaken;
    match op
    case AddWhisperer(clientId, profileId, name, present, now) =>
      NewParticipantKeepsMembers(w, Participant(clientId, profileId, name, true, false, now), present);
    case AddListener(clientId, profileId, name, present, now) =>
      WithoutKeepsDistinct(w.waitlist, clientId);
      NewParticipantKeepsMembers(w.(waitlist := Without(w.waitlist, clientId)),
                                 Participant(clientId, profileId, name, false, false, now), present);
    case AddListenerRequest(_, _, _, _) =>
    case RemoveClient(clientId) => WithoutKeepsDistinct(w.waitlist, clientId);
    case Presence(clientId, action) => PresenceKeepsMembers(w, clientId, action);
    case TakeStatus => StatusKeepsMembers(w);
  }

  lemma {:induction false} RunKeepsMembers(w: World, ops: seq<Op>)
    requires MembersMatch(w)
    ensures MembersMatch(Run(w, ops))
    decreases |ops|
  {
    hide MembersMatch, Apply;
    if |ops| > 0 {
      ApplyKeepsMembers(w, ops[0]);
      RunKeepsMembers(Apply(w, ops[0]), ops[1..]);
    }
  }

  // ----- who was admitted by what -----

  /** How a client got where it is: it is not there, it was there to begin with, or by an
      operation. */
  datatype Origin = Nowhere | Before | By(op: Op)

  predicate Admits(op: Op, id: string) {
    (op.AddWhisperer? || op.AddListener?) && op.clientId == id
  }

  predicate Removes(op: Op, id: string) {
    op.RemoveClient? && op.clientId == id
  }

  /** What last made the client a participant, going by the operations alone: additions of a
      participant are refused, and a removal ends a membership. */
  function Admission(ops: seq<Op>, id: string, before: Origin): Origin {
    if |ops| == 0 then before
    else
      var op, earlier := ops[|ops| - 1], Admission(ops[..|ops| - 1], id, before);
      if Removes(op, id) then Nowhere
      else if Admits(op, id) && earlier == Nowhere then By(op)
      else earlier
  }

  /** What last made the client wait: it asks once, until it is admitted as a listener, or is
      removed without being a participant. */
  function Request(ops: seq<Op>, id: string, admitted: Origin, before: Origin): Origin {
    if |ops| == 0 then before
    else
      var front, op := ops[..|ops| - 1], ops[|ops| - 1];
      var earlier := Request(front, id, admitted, before);
      if op.AddListener? && op.clientId == id then Nowhere
      else if Removes(op, id) && Admission(front, id, admitted) == Nowhere then Nowhere
      else if op.AddListenerRequest? && op.clientId == id && earlier == Nowhere then By(op)
      else earlier
  }

  /** A participant is as the operation that admitted it says, but for being online. */
  predicate AdmittedAs(p: Participant, op: Op) {
    Admits(op, p.clientId)
    && p == Participant(op.clientId, op.profileId, op.name, op.AddWhisperer?, p.isOnline, op.now)
  }

  predicate RequestedAs(p: Participant, op: Op) {
    op.AddListenerRequest?
    && p == Participant(op.clientId, op.profileId, op.name, false, false, op.now)
  }

  /** A client's membership in a state `v` that comes from `w`. */
  predicate MemberOf(w: World, v: World, id: string, origin: Origin) {
    match origin
    case Nowhere => id !in v.participants
    case Before =>
      id in w.participants && id in v.participants
      && v.participants[id] == w.participants[id].(isOnline := v.participants[id].isOnline)
    case By(op) => id in v.participants && v.participants[id].clientId == id && AdmittedAs(v.participants[id], op)
  }

  predicate WaiterOf(w: World, v: World, id: string, origin: Origin) {
    match origin
    case Nowhere => !Waiting(v.waitlist, id)
    case Before =>
      Waiting(v.waitlist, id) && forall k :: 0 <= k < |v.waitlist| && v.waitlist[k].clientId == id ==>
        v.waitlist[k] in w.waitlist
    case By(op) =>
      Waiting(v.waitlist, id) && forall k :: 0 <= k < |v.waitlist| && v.waitlist[k].clientId == id ==>
        RequestedAs(v.waitlist[k], op)
  }

  lemma ApplyMember(w: World, v: World, id: string, origin: Origin, op: Op)
    requires MemberOf(w, v, id, origin)
    ensures MemberOf(w, Apply(v, op), id,
                     if Removes(op, id) then Nowhere
                     else if Admits(op, id) && origin == Nowhere then By(op)
                     else origin)
  {
    hide Without, Pubsub.PresenceReceived;
  }

  lemma {:induction false} InWithout(waitlist: seq<Participant>, clientId: string, p: Participant)
    ensures p in Without(waitlist, clientId) <==> p in waitlist && p.clientId != clientId
  {
    if |waitlist| > 0 {
      InWithout(waitlist[1..], clientId, p);
      assert waitlist == [waitlist[0]] + waitlist[1..];
    }
  }

  lemma WaitlistOf(waitlist: seq<Participant>, id: string)
    ensures Waiting(waitlist, id) <==> exists p :: p in waitlist && p.clientId == id
  {
    if p :| p in waitlist && p.clientId == id {
      var k :| 0 <= k < |waitlist| && waitlist[k] == p;
    }
  }

  /** The entries of the other clients stay when one is taken out, and its own goes. */
  lemma WithoutWaiter(w: World, v: World, u: World, clientId: string, id: string, origin: Origin)
    requires WaiterOf(w, v, id, origin) && u.waitlist == Without(v.waitlist, clientId)
    ensures WaiterOf(w, u, id, if id == clientId then Nowhere else origin)
  {
    hide Without;
    forall p | p in u.waitlist || p in v.waitlist
      ensures p in u.waitlist <==> p in v.waitlist && p.clientId != clientId
    {
      InWithout(v.waitlist, clientId, p);
    }
    WaitlistOf(u.waitlist, id);
    WaitlistOf(v.waitlist, id);
    assert forall k :: 0 <= k < |u.waitlist| ==> u.waitlist[k] in v.waitlist;
  }

  lemma ApplyWaiter(w: World, v: World, id: string, origin: Origin, op: Op)
    requires WaiterOf(w, v, id, origin)
    ensures WaiterOf(w, Apply(v, op), id,
                     if op.AddListener? && op.clientId == id then Nowhere
                     else if Removes(op, id) && id !in v.participants then Nowhere
                     else if op.AddListenerRequest? && op.clientId == id && origin == Nowhere then By(op)
                     else origin)
  {
    hide Without, Pubsub.PresenceReceived, WaiterOf;
    match op
    case AddListener(clientId, _, _, _, _) =>
      WithoutWaiter(w, v, Apply(v, op), clientId, id, origin);
    case RemoveClient(clientId) =>
      if clientId !in v.participants {
        WithoutWaiter(w, v, Apply(v, op), clientId, id, origin);
      } else {
        SameWaiter(w, v, Apply(v, op), id, origin);
      }
    case AddListenerRequest(clientId, profileId, name, now) =>
      RequestWaiter(w, v, id, origin, op);
    case _ => SameWaiter(w, v, Apply(v, op), id, origin);
  }

  lemma SameWaiter(w: World, v: World, u: World, id: string, origin: Origin)
    requires WaiterOf(w, v, id, origin) && u.waitlist == v.waitlist
    ensures WaiterOf(w, u, id, origin)
  {
  }

  lemma RequestWaiter(w: World, v: World, id: string, origin: Origin, op: Op)
    requires WaiterOf(w, v, id, origin) && op.AddListenerRequest?
    ensures WaiterOf(w, Apply(v, op), id, if op.clientId == id && origin == Nowhere then By(op) else origin)
  {
    var u := Apply(v, op);
    if u != v {
      assert u.waitlist[|v.waitlist|].clientId == op.clientId;
      assert forall k :: 0 <= k < |v.waitlist| ==> u.waitlist[k] == v.waitlist[k];
    }
  }

  lemma {:induction false} RunSnoc(w: World, ops: seq<Op>, op: Op)
    ensures Run(w, ops + [op]) == Apply(Run(w, ops), op)
    decreases |ops|
  {
    hide Apply;
    if |ops| == 0 {
      assert [] + [op] == [op] && [op][1..] == [];
    } else {
      assert (ops + [op])[1..] == ops[1..] + [op];
      RunSnoc(Apply(w, ops[0]), ops[1..], op);
    }
  }

  /** Over every run a client is a participant exactly if some operation, or the start, admitted
      it and none removed it since; it is a whisperer exactly if that operation was an
      AddWhisperer; and its profile id, name and join time are those of that operation.  It
      waits exactly if it asked and has been neither admitted as a listener nor removed since,
      under the profile id, name and time with which it asked. */
  lemma {:induction false} RunAdmits(w: World, ops: seq<Op>, id: string)
    requires KeyedById(w.participants)
    ensures var admitted := if id in w.participants then Before else Nowhere;
            var asked := if Waiting(w.waitlist, id) then Before else Nowhere;
            && MemberOf(w, Run(w, ops), id, Admission(ops, id, admitted))
            && WaiterOf(w, Run(w, ops), id, Request(ops, id, admitted, asked))
  {
    hide Run, Apply, MemberOf, WaiterOf, Removes, Admits;
    var admitted := if id in w.participants then Before else Nowhere;
    var asked := if Waiting(w.waitlist, id) then Before else Nowhere;
    if |ops| == 0 {
      NothingHappened(w, id);
    } else {
      var front, op := ops[..|ops| - 1], ops[|ops| - 1];
      RunAdmits(w, front, id);
      assert ops == front + [op];
      RunSnoc(w, front, op);
      var v := Run(w, front);
      ApplyMember(w, v, id, Admission(front, id, admitted), op);
      ApplyWaiter(w, v, id, Request(front, id, admitted, asked), op);
      MemberIs(w, v, id, Admission(front, id, admitted));
    }
  }

  lemma NothingHappened(w: World, id: string)
    ensures Run(w, []) == w
    ensures MemberOf(w, w, id, if id in w.participants then Before else Nowhere)
    ensures WaiterOf(w, w, id, if Waiting(w.waitlist, id) then Before else Nowhere)
  {
  }

  lemma MemberIs(w: World, v: World, id: string, origin: Origin)
    requires MemberOf(w, v, id, origin)
    ensures id in v.participants <==> origin != Nowhere
  {
  }

  /** A client is a whisperer, going by the operations: it was last admitted as one. */
  predicate Whispers(w: World, ops: seq<Op>, id: string) {
    match Admission(ops, id, if id in w.participants then Before else Nowhere)
    case Nowhere => false
    case Before => id in w.participants && w.participants[id].isWhisperer
    case By(op) => op.AddWhisperer?
  }

  /** Over every run a token is issued to exactly the participants, lets all of them listen,
      and lets exactly those publish that were last admitted as whisperers. */
  lemma TokensMatchRoles(w: World, ops: seq<Op>, clientId: string)
    requires MembersMatch(w)
    ensures var v := Run(w, ops);
            var token := Pubsub.TokenCapabilities(v.pubsub, clientId);
            && (token.Some? <==>
                  Admission(ops, clientId, if clientId in w.participants then Before else Nowhere) != Nowhere)
            && (token.Some? ==>
                  && token.value.Keys == {Pubsub.PresenceChannel, Pubsub.ControlChannel, Pubsub.ContentChannel}
                  && token.value[Pubsub.PresenceChannel] == {Pubsub.AnyPresence}
                  && token.value[Pubsub.ControlChannel] == {Pubsub.Subscribe}
                  && Pubsub.Subscribe in token.value[Pubsub.ContentChannel]
                  && (Pubsub.Publish in token.value[Pubsub.ContentChannel] <==> Whispers(w, ops, clientId)))
  {
    hide Run, Admission, Request;
    RunKeepsMembers(w, ops);
    RunAdmits(w, ops, clientId);
  }
}
