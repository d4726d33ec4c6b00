/** storage/session.go: the suspended-packet list of a session; lifecycle/session.go: the
    loop that transcribes the content packets of one server's session.
 */
module Transcription {
  import opened GoStrings
  import opened Chunk
  import opened Content
  import opened Redis

  // ----- packets in the suspended-packet list -----

  predicate IdsClean(packets: seq<ContentPacket>) {
    forall k :: 0 <= k < |packets| ==> Free(packets[k].packetId, '|')
  }

  function Printed(packets: seq<ContentPacket>): (r: seq<string>)
    ensures |r| == |packets|
    ensures forall k :: 0 <= k < |packets| ==> r[k] == packets[k].ToString()
  {
    if |packets| == 0 then [] else [packets[0].ToString()] + Printed(packets[1..])
  }

  function Loaded(stored: seq<string>): (r: seq<ContentPacket>)
    ensures |r| == |stored|
    ensures forall k :: 0 <= k < |stored| ==> r[k] == ParseContentPacket(stored[k])
  {
    if |stored| == 0 then [] else [ParseContentPacket(stored[0])] + Loaded(stored[1..])
  }

  /** Saving at the end of the list and loading: the packets come back in order, each with
      its id and data. */
  lemma {:induction false} LoadedAppend(a: seq<string>, b: seq<string>)
    ensures Loaded(a + b) == Loaded(a) + Loaded(b)
  {
  }

  lemma LoadedPrinted(packets: seq<ContentPacket>)
    requires IdsClean(packets)
    ensures Loaded(Printed(packets)) == packets
  {
    forall k | 0 <= k < |packets| ensures Loaded(Printed(packets))[k] == packets[k] {
      ContentPacketRoundTrip(packets[k]);
    }
  }

  lemma LoadedAfterSave(stored: seq<string>, packets: seq<ContentPacket>)
    requires IdsClean(packets)
    ensures Loaded(stored + Printed(packets)) == Loaded(stored) + packets
  {
    LoadedAppend(stored, Printed(packets));
    LoadedPrinted(packets);
  }

  method SaveSuspendedSessionPackets(list: RedisList, packets: seq<ContentPacket>, up: bool) returns (ok: bool)
    modifies list
    ensures ok <==> up || |packets| == 0
    ensures list.items == if ok then old(list.items) + Printed(packets) else old(list.items)
  {
    if |packets| == 0 {
      return true;
    }
    var packetStrings := new string[|packets|];
    for i := 0 to |packets|
      invariant forall k :: 0 <= k < i ==> packetStrings[k] == packets[k].ToString()
      invariant list.items == old(list.items)
    {
      packetStrings[i] := packets[i].ToString();
    }
    assert packetStrings[..] == Printed(packets);
    ok := list.PushListMembers(false, packetStrings[..], up);
  }

  method LoadSuspendedSessionPackets(list: RedisList, up: bool) returns (packets: Option<seq<ContentPacket>>)
    ensures packets == if up then Some(Loaded(list.items)) else None
  {
    var fetched := list.FetchListRange(0, -1, up);
    if fetched.None? {
      return None;
    }
    var packetStrings := fetched.value;
    assert packetStrings == list.items;
    var result := new ContentPacket[|packetStrings|];
    for i := 0 to |packetStrings|
      invariant forall k :: 0 <= k < i ==> result[k] == ParseContentPacket(packetStrings[k])
    {
      result[i] := ParseContentPacket(packetStrings[i]);
    }
    assert result[..] == Loaded(packetStrings);
    return Some(result[..]);
  }

  function ChunksOf(packets: seq<ContentPacket>): (chunks: seq<ContentChunk>)
    ensures |chunks| == |packets|
    ensures forall k :: 0 <= k < |packets| ==> chunks[k] == ParseContentChunk(packets[k].data)
  {
    if |packets| == 0 then [] else [ParseContentChunk(packets[0].data)] + ChunksOf(packets[1..])
  }

  lemma {:induction false} ChunksOfAppend(a: seq<ContentPacket>, b: seq<ContentPacket>)
    ensures ChunksOf(a + b) == ChunksOf(a) + ChunksOf(b)
  {
  }

  /** What playing the packets from an empty live text gives. */
  function Replay(packets: seq<ContentPacket>): Played {
    PlayAll("", ChunksOf(packets))
  }

  // ----- replay over the wire -----

  /** The list after pushing each batch in turn. */
  function SavedBatches(stored: seq<string>, batches: seq<seq<ContentPacket>>): seq<string>
    decreases |batches|
  {
    if |batches| == 0 then stored else SavedBatches(stored + Printed(batches[0]), batches[1..])
  }

  function Concat(batches: seq<seq<ContentPacket>>): seq<ContentPacket> {
    if |batches| == 0 then [] else batches[0] + Concat(batches[1..])
  }

  lemma {:induction false} PrintedAppend(stored: seq<string>, a: seq<ContentPacket>, b: seq<ContentPacket>)
    ensures stored + Printed(a) + Printed(b) == stored + Printed(a + b)
  {
    hide Printed;
    assert Printed(a) + Printed(b) == Printed(a + b);
  }

  lemma {:induction false} SavedBatchesAreOneSave(stored: seq<string>, batches: seq<seq<ContentPacket>>)
    ensures SavedBatches(stored, batches) == stored + Printed(Concat(batches))
    decreases |batches|
  {
    if |batches| == 0 {
      assert stored + [] == stored;
    } else {
      SavedBatchesAreOneSave(stored + Printed(batches[0]), batches[1..]);
      PrintedAppend(stored, batches[0], Concat(batches[1..]));
    }
  }

  /** Packets whose data are the printed forms of `chunks`. */
  predicate Carry(packets: seq<ContentPacket>, chunks: seq<ContentChunk>) {
    |packets| == |chunks| && forall k :: 0 <= k < |chunks| ==> packets[k].data == chunks[k].ToString()
  }

  /** Printing chunks, wrapping them in packets, saving these in any batches, loading,
      parsing and playing gives what playing the chunks gives. */
  lemma WireReplay(live: string, chunks: seq<ContentChunk>, batches: seq<seq<ContentPacket>>)
    requires forall k :: 0 <= k < |chunks| ==> Int64(chunks[k].offset)
    requires IdsClean(Concat(batches)) && Carry(Concat(batches), chunks)
    ensures PlayAll(live, ChunksOf(Loaded(SavedBatches([], batches)))) == PlayAll(live, chunks)
  {
    hide PlayAll, ParseContentPacket;
    var packets := Concat(batches);
    SavedBatchesAreOneSave([], batches);
    assert [] + Printed(packets) == Printed(packets);
    LoadedPrinted(packets);
    ChunksCarried(packets, chunks);
  }

  lemma ChunksCarried(packets: seq<ContentPacket>, chunks: seq<ContentChunk>)
    requires forall k :: 0 <= k < |chunks| ==> Int64(chunks[k].offset)
    requires Carry(packets, chunks)
    ensures ChunksOf(packets) == chunks
  {
    hide ParseContentChunk;
    forall k | 0 <= k < |chunks| ensures ParseContentChunk(chunks[k].ToString()) == chunks[k] {
      ContentChunkRoundTrip(chunks[k]);
    }
  }

  // ----- one server's session -----

  datatype PastTextLine = PastTextLine(time: int, text: string)

  function PastTexts(past: seq<PastTextLine>): (texts: seq<string>)
    ensures |texts| == |past|
    ensures forall k :: 0 <= k < |past| ==> texts[k] == past[k].text
  {
    if |past| == 0 then [] else [past[0].text] + PastTexts(past[1..])
  }

  /** How the loop ended, if it did: without a shutdown, or with one, after which `saved`
      says whether the log is in the suspended-packet list. */
  datatype Stop = Running | Ended | Suspended(saved: bool)

  /** The state of a session on one server and its suspended-packet list.  `log` holds the
      packets since the last newline; `window` counts the packets still to be checked
      against the loaded ids. */
  datatype Server = Server(
    past: seq<PastTextLine>,
    spoken: seq<Line>,
    live: string,
    log: seq<ContentPacket>,
    shuttingDown: bool,
    window: nat,
    ids: set<string>,
    stored: seq<string>,
    stop: Stop)

  /** What the select of the loop can see: a packet (with the clock, and whether the
      database can be reached), the start of a shutdown by another goroutine, or the
      cancellation of the session. */
  datatype Event =
    | Receive(packet: ContentPacket, now: int, up: bool)
    | BeginShutdown
    | Cancel(up: bool)

  function TranscribeOne(s: Server, packet: ContentPacket, now: int): Server {
    var r := ProcessLiveChunk(s.live, ParseContentChunk(packet.data));
    match r.past
    case Some(line) =>
      s.(past := s.past + [PastTextLine(now, line.text)], spoken := s.spoken + [line], log := [], live := r.live)
    case None => s.(log := s.log + [packet], live := r.live)
  }

  function Step(s: Server, e: Event): Server {
    if s.stop != Running then s
    else
      match e
      case BeginShutdown => s.(shuttingDown := true)
      case Cancel(up) =>
        if !s.shuttingDown then s.(stop := Ended)
        else if up || |s.log| == 0 then s.(stored := s.stored + Printed(s.log), stop := Suspended(true))
        else s.(stop := Suspended(false))
      case Receive(packet, now, up) =>
        if s.shuttingDown then
          var log := s.log + [packet];
          if up then s.(stored := s.stored + Printed(log), log := []) else s.(log := log)
        else if s.window > 0 && packet.packetId in s.ids then s.(window := s.window - 1)
        else TranscribeOne(s.(window := if s.window > 0 then s.window - 1 else 0), packet, now)
  }

  function Run(s: Server, events: seq<Event>): Server
    decreases |events|
  {
    if |events| == 0 then s else Run(Step(s, events[0]), events[1..])
  }

  lemma {:induction false} RunAppend(s: Server, a: seq<Event>, b: seq<Event>)
    ensures Run(s, a + b) == Run(Run(s, a), b)
    decreases |a|
  {
    if |a| == 0 {
      assert a + b == b;
    } else {
      assert (a + b)[1..] == a[1..] + b;
      RunAppend(Step(s, a[0]), a[1..], b);
    }
  }

  // ----- the times of past lines -----

  predicate IsNewline(p: ContentPacket) {
    ParseContentChunk(p.data).offset == CO_NEWLINE
  }

  function PastTimes(past: seq<PastTextLine>): (times: seq<int>)
    ensures |times| == |past|
    ensures forall k :: 0 <= k < |past| ==> times[k] == past[k].time
  {
    if |past| == 0 then [] else [past[0].time] + PastTimes(past[1..])
  }

  lemma {:induction false} PastTimesAppend(a: seq<PastTextLine>, b: seq<PastTextLine>)
    ensures PastTimes(a + b) == PastTimes(a) + PastTimes(b)
  {
  }

  /** The clock at each packet that is received before a shutdown or the cancellation, is not
      dropped by a window of `window` checks against `ids`, and is a newline. */
  function NewlineTimes(window: nat, ids: set<string>, events: seq<Event>): seq<int>
    decreases |events|
  {
    if |events| == 0 || !events[0].Receive? then []
    else
      var e, rest := events[0], NewlineTimes(if window > 0 then window - 1 else 0, ids, events[1..]);
      if window > 0 && e.packet.packetId in ids then rest
      else if IsNewline(e.packet) then [e.now] + rest
      else rest
  }

  /** Past lines are never changed, and none is added once a shutdown has begun. */
  lemma {:induction false} PastGrows(s: Server, events: seq<Event>)
    ensures s.past <= Run(s, events).past
    ensures s.shuttingDown || s.stop != Running ==> Run(s, events).past == s.past
    decreases |events|
  {
    hide ParseContentChunk, ProcessLiveChunk, Printed;
    if |events| > 0 {
      PastGrows(Step(s, events[0]), events[1..]);
    }
  }

  lemma OneTime(past: seq<PastTextLine>, line: PastTextLine)
    ensures PastTimes(past + [line]) == PastTimes(past) + [line.time]
  {
    PastTimesAppend(past, [line]);
    assert [line][1..] == [];
  }

  lemma TranscribedTime(s: Server, packet: ContentPacket, now: int)
    ensures var t := TranscribeOne(s, packet, now);
            && PastTimes(t.past) == PastTimes(s.past) + (if IsNewline(packet) then [now] else [])
            && t.stop == s.stop && t.shuttingDown == s.shuttingDown && t.window == s.window && t.ids == s.ids
  {
    hide ParseContentChunk;
    var r := ProcessLiveChunk(s.live, ParseContentChunk(packet.data));
    if r.past.Some? {
      OneTime(s.past, PastTextLine(now, r.past.value.text));
    }
  }

  /** Over every run each line added to the past text carries the clock at its newline. */
  lemma {:induction false} RunStampsLines(s: Server, events: seq<Event>)
    requires s.stop == Running && !s.shuttingDown
    ensures PastTimes(Run(s, events).past) == PastTimes(s.past) + NewlineTimes(s.window, s.ids, events)
    decreases |events|
  {
    hide TranscribeOne, IsNewline, PastTimes;
    if |events| > 0 && events[0].Receive? {
      var e, w := events[0], if s.window > 0 then s.window - 1 else 0;
      TranscribedTime(s.(window := w), e.packet, e.now);
      RunStampsLines(Step(s, e), events[1..]);
    } else if |events| > 0 {
      PastGrows(Step(s, events[0]), events[1..]);
    }
  }

  // ----- the loop -----

  function IdsOf(packets: seq<ContentPacket>): set<string> {
    if |packets| == 0 then {} else IdsOf(packets[..|packets| - 1]) + {packets[|packets| - 1].packetId}
  }

  lemma {:induction false} InIdsOf(packets: seq<ContentPacket>, k: nat)
    requires k < |packets|
    ensures packets[k].packetId in IdsOf(packets)
  {
    if k < |packets| - 1 {
      InIdsOf(packets[..|packets| - 1], k);
    }
  }

  /** The state in which the loop starts, once the suspended packets are loaded. */
  function Started(s: Server, loaded: seq<ContentPacket>): Server {
    s.(window := |IdsOf(loaded)|, ids := IdsOf(loaded))
  }

  class Session {
    var pastText: seq<PastTextLine>
    var spoken: seq<Line>
    var liveText: string
    var livePackets: seq<ContentPacket>
    var shuttingDown: bool
    var stop: Stop
    const suspended: RedisList

    /** A session starts from saved past text with no live text. */
    constructor (pastText: seq<PastTextLine>, suspended: RedisList)
      ensures this.suspended == suspended
      ensures State(0, {}) == Server(pastText, [], "", [], false, 0, {}, suspended.items, Running)
    {
      this.pastText, this.suspended := pastText, suspended;
      spoken, liveText, livePackets, shuttingDown, stop := [], "", [], false, Running;
    }

    /** The fields together with the two local variables of the loop. */
    function State(packetsToCheck: nat, processedIds: set<string>): Server
      reads this, suspended
    {
      Server(pastText, spoken, liveText, livePackets, shuttingDown, packetsToCheck, processedIds, suspended.items, stop)
    }

    method ProcessSuspendedPackets(up: bool) returns (packetIds: set<string>)
      ensures packetIds == if up then IdsOf(Loaded(suspended.items)) else {}
    {
      packetIds := {};
      var packets := LoadSuspendedSessionPackets(suspended, up);
      if packets.None? {
        return;
      }
      for i := 0 to |packets.value|
        invariant packetIds == IdsOf(packets.value[..i])
      {
        assert packets.value[..i + 1][..i] == packets.value[..i];
        packetIds := packetIds + {packets.value[i].packetId};
      }
      assert packets.value[..|packets.value|] == packets.value;
    }

    method TranscribeOnePacket(packet: ContentPacket, now: int)
      modifies this
      ensures forall w, ids :: State(w, ids) == TranscribeOne(old(State(w, ids)), packet, now)
    {
      var r := ProcessLiveChunk(liveText, ParseContentChunk(packet.data));
      if r.past.Some? {
        pastText := pastText + [PastTextLine(now, r.past.value.text)];
        spoken := spoken + [r.past.value];
        livePackets := [];
      } else {
        livePackets := livePackets + [packet];
      }
      liveText := r.live;
    }

    /** One turn of the loop: the arm of the select that `e` takes. */
    method TakeArm(e: Event, packetsToCheck: nat, processedIds: set<string>) returns (toCheck: nat)
      requires stop == Running
      modifies this, suspended
      ensures State(toCheck, processedIds) == Step(old(State(packetsToCheck, processedIds)), e)
    {
      toCheck := packetsToCheck;
      match e
      case BeginShutdown =>
        shuttingDown := true;
      case Cancel(up) =>
        var saved := true;
        if shuttingDown {
          if |livePackets| > 0 {
            saved := SaveSuspendedSessionPackets(suspended, livePackets, up);
          }
        }
        stop := if shuttingDown then Suspended(saved) else Ended;
      case Receive(packet, now, up) =>
        if shuttingDown {
          livePackets := livePackets + [packet];
          var saved := SaveSuspendedSessionPackets(suspended, livePackets, up);
          if saved {
            livePackets := [];
          }
          return;
        }
        if toCheck > 0 {
          toCheck := toCheck - 1;
          if packet.packetId in processedIds {
            return;
          }
        }
        TranscribeOnePacket(packet, now);
    }

    /** The first packet only says that the channel is attached.  `events` are the outcomes
        of the loop's select, `loadUp` says whether the suspended packets can be read. */
    method TranscribeContent(first: ContentPacket, loadUp: bool, events: seq<Event>)
      requires stop == Running
      modifies this, suspended
      ensures exists w, ids ::
                State(w, ids)
                == Run(Started(old(State(0, {})), if loadUp then Loaded(old(suspended.items)) else []), events)
      ensures !old(shuttingDown) ==>
                var ids := if loadUp then IdsOf(Loaded(old(suspended.items))) else {};
                PastTimes(pastText) == PastTimes(old(pastText)) + NewlineTimes(|ids|, ids, events)
    {
      var processedIds := ProcessSuspendedPackets(loadUp);
      var packetsToCheck: nat := |processedIds|;
      ghost var start := State(packetsToCheck, processedIds);
      var i := 0;
      while i < |events| && stop == Running
        invariant i <= |events|
        invariant Run(State(packetsToCheck, processedIds), events[i..]) == Run(start, events)
      {
        assert events[i..][0] == events[i] && events[i..][1..] == events[i + 1..];
        packetsToCheck := TakeArm(events[i], packetsToCheck, processedIds);
        i := i + 1;
      }
      StoppedStays(State(packetsToCheck, processedIds), events[i..]);
      if !start.shuttingDown {
        RunStampsLines(start, events);
      }
    }
  }

  lemma {:induction false} StoppedStays(s: Server, events: seq<Event>)
    requires s.stop != Running || |events| == 0
    ensures Run(s, events) == s
    decreases |events|
  {
    if |events| > 0 {
      StoppedStays(s, events[1..]);
    }
  }
}
