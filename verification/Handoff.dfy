/** A session changing servers: the transcription loop and the shutdown goroutine of the
    old server, the suspended-session queue, and the start of the session on the next
    server, interleaved in any order (lifecycle/session.go:79-106, 120-187, 387-446).
 */
module Handoff {
  import opened GoStrings
  import opened Chunk
  import opened Content
  import opened Transcription
  import opened Checkpoint

  /** Where the shutdown goroutine of the old server is.  `Dropped` is a failed enqueue. */
  datatype Phase = Serving | Sleeping | Cancelled | Unsubscribed | StateSaved | Enqueued | Dropped

  /** What the next server found when it loaded the suspended packets: those of the old
      server that are checkpointed, those it loaded, and those it cannot learn of. */
  datatype Snapshot = Snapshot(done: seq<ContentPacket>, loaded: seq<ContentPacket>, missed: seq<ContentPacket>)

  /** `published`, `oldSeen`, `oldHandled`, `nextFrom` and `nextTaken` are history: what was
      sent, how much of it reached the channel of the old server, what its loop handled,
      when the next server subscribed and what its loop received. */
  datatype Handoff = Handoff(
    published: seq<ContentPacket>,
    oldServer: Server,
    oldBuffer: seq<ContentPacket>,
    oldSeen: nat,
    oldHandled: seq<ContentPacket>,
    phase: Phase,
    savedPast: Option<seq<PastTextLine>>,
    next: Option<Server>,
    nextFrom: nat,
    nextBuffer: seq<ContentPacket>,
    nextTaken: seq<ContentPacket>,
    snapshot: Option<Snapshot>)

  datatype Action =
    | Publish(packet: ContentPacket)
    | OldReceive(now: int, up: bool)
    | OldStop(up: bool)
    | Shutdown
    | CancelSession
    | EndPubsub
    | SaveState(up: bool)
    | Enqueue(up: bool)
    | NextStart
    | NextAttach(up: bool)
    | NextReceive(now: int)

  function Init(oldServer: Server): Handoff {
    Handoff([], oldServer, [], 0, [], Serving, None, None, 0, [], [], None)
  }

  predicate Subscribed(phase: Phase) {
    phase == Serving || phase == Sleeping || phase == Cancelled
  }

  predicate Saved(phase: Phase) {
    phase == StateSaved || phase == Enqueued || phase == Dropped
  }

  /** Packet ids are fresh, not empty and without a separator. */
  predicate FreshId(h: Handoff, id: string) {
    && id != "" && Free(id, '|') && id !in h.oldServer.ids
    && forall k :: 0 <= k < |h.published| ==> h.published[k].packetId != id
  }

  function OldEvent(h: Handoff, e: Event): Handoff {
    h.(oldServer := Step(h.oldServer, e), oldHandled := h.oldHandled + HandledNow(h.oldServer, e))
  }

  /** The packets of the old loop before its log. */
  function Done(h: Handoff): seq<ContentPacket> {
    var rest := |h.oldServer.stored| + |Unsaved(h.oldServer)|;
    if rest <= |h.oldHandled| then h.oldHandled[..|h.oldHandled| - rest] else []
  }

  /** A session of the next server: the saved past text and no live text. */
  function Resumed(past: seq<PastTextLine>): Server {
    Server(past, [], "", [], false, 0, {}, [], Running)
  }

  /** An action that is not possible in a state changes nothing. */
  function Next(h: Handoff, a: Action): Handoff {
    match a
    case Publish(p) =>
      if !FreshId(h, p.packetId) then h
      else
        h.(published := h.published + [p],
           oldBuffer := if Subscribed(h.phase) then h.oldBuffer + [p] else h.oldBuffer,
           oldSeen := if Subscribed(h.phase) then |h.published| + 1 else h.oldSeen,
           nextBuffer := if h.next.Some? then h.nextBuffer + [p] else h.nextBuffer)
    case OldReceive(now, up) =>
      if h.oldServer.stop != Running then h
      else if |h.oldBuffer| > 0 then
        OldEvent(h.(oldBuffer := h.oldBuffer[1..]), Receive(h.oldBuffer[0], now, up))
      else if !Subscribed(h.phase) then
        // the channel is closed: a receive yields a zero packet
        OldEvent(h, Receive(ZERO_PACKET, now, up))
      else h
    case OldStop(up) =>
      if h.phase == Serving || h.phase == Sleeping then h else OldEvent(h, Cancel(up))
    case Shutdown =>
      if h.phase == Serving then OldEvent(h.(phase := Sleeping), BeginShutdown) else h
    case CancelSession => if h.phase == Sleeping then h.(phase := Cancelled) else h
    case EndPubsub => if h.phase == Cancelled then h.(phase := Unsubscribed) else h
    case SaveState(up) =>
      if h.phase == Unsubscribed then
        h.(phase := StateSaved, savedPast := if up then Some(h.oldServer.past) else None)
      else h
    case Enqueue(up) =>
      if h.phase == StateSaved then h.(phase := if up then Enqueued else Dropped) else h
    case NextStart =>
      // an id from the queue or the request of a client; without a saved state, the session
      // does not start
      if h.savedPast.Some? && h.next.None? then
        h.(next := Some(Resumed(h.savedPast.value)), nextFrom := |h.published|)
      else h
    case NextAttach(up) =>
      if h.next.None? || h.snapshot.Some? then h
      else
        var stored := Loaded(h.oldServer.stored);
        var loaded := if up then stored else [];
        h.(next := Some(Started(h.next.value, loaded)),
           snapshot := Some(Snapshot(Done(h), loaded,
                                     WithoutZeros((if up then [] else stored) + Unsaved(h.oldServer)) + h.oldBuffer)))
    case NextReceive(now) =>
      if h.next.None? || h.snapshot.None? || |h.nextBuffer| == 0 then h
      else
        h.(next := Some(Step(h.next.value, Receive(h.nextBuffer[0], now, true))),
           nextTaken := h.nextTaken + [h.nextBuffer[0]],
           nextBuffer := h.nextBuffer[1..])
  }

  function Run(h: Handoff, actions: seq<Action>): Handoff
    decreases |actions|
  {
    if |actions| == 0 then h else Run(Next(h, actions[0]), actions[1..])
  }

  // ----- the invariant, in parts -----

  /** Both servers' channels hold what was published and not yet received. */
  predicate Delivered(h: Handoff) {
    && h.oldSeen <= |h.published|
    && (Subscribed(h.phase) ==> h.oldSeen == |h.published|)
    && WithoutZeros(h.oldHandled) + h.oldBuffer == h.published[..h.oldSeen]
    && (h.next.None? ==> h.nextBuffer == [] && h.snapshot.None?)
    && (h.snapshot.None? ==> h.nextTaken == [])
    && (h.next.Some? ==>
          && Saved(h.phase)
          && h.oldSeen <= h.nextFrom <= |h.published|
          && h.nextTaken + h.nextBuffer == h.published[h.nextFrom..])
  }

  /** Published ids are not empty, separator-free and pairwise distinct, and none is among
      the ids that the old server loaded. */
  predicate GoodIds(start: Server, published: seq<ContentPacket>) {
    && (forall k :: 0 <= k < |published| ==>
          published[k].packetId != "" && Free(published[k].packetId, '|') && published[k].packetId !in start.ids)
    && (forall j, k :: 0 <= j < k < |published| ==> published[j].packetId != published[k].packetId)
  }

  /** The old server accounts for what it handled, and its past text is frozen once the
      shutdown begins. */
  predicate OldAccounts(start: Server, h: Handoff) {
    && |h.oldServer.stored| + |Unsaved(h.oldServer)| <= |h.oldHandled|
    && Accounts(start, h.oldHandled, |Done(h)|, h.oldServer)
    && (h.phase != Serving ==> h.oldServer.shuttingDown)
    && (h.phase == Serving ==> !h.oldServer.shuttingDown)
    && (h.phase == Serving || h.phase == Sleeping ==> h.oldServer.stop == Running)
    && h.oldServer.ids == start.ids
    && (h.savedPast.Some? ==> Saved(h.phase) && h.savedPast.value == h.oldServer.past)
  }

  lemma DoneIs(handled: seq<ContentPacket>, m: nat, h: Handoff)
    requires h.oldHandled == handled && m <= |handled|
    requires handled[m..] == Loaded(h.oldServer.stored) + Unsaved(h.oldServer)
    ensures |Done(h)| == m && Done(h) == handled[..m]
    ensures |h.oldServer.stored| + |Unsaved(h.oldServer)| <= |handled|
  {
    assert |handled[m..]| == |h.oldServer.stored| + |Unsaved(h.oldServer)|;
  }

  /** What the next server's snapshot leaves out of what the old server's channel got. */
  predicate SnapshotAccounts(start: Server, h: Handoff) {
    h.snapshot.Some? ==>
      var s := h.snapshot.value;
      && h.oldSeen <= |h.published|
      && WithoutZeros(s.done) + WithoutZeros(s.loaded) + s.missed == h.published[..h.oldSeen]
      && Checkpointed(start, Replay(s.done), h.oldServer)
  }

  /** The state in which the next server's loop begins. */
  function NextStarted(h: Handoff): Server {
    var resumed := Resumed(if h.savedPast.Some? then h.savedPast.value else []);
    if h.snapshot.Some? then Started(resumed, h.snapshot.value.loaded) else resumed
  }

  /** The next server drops nothing: it accounts for every packet it received. */
  predicate NextAccounts(h: Handoff) {
    h.next.Some? ==>
      var n := h.next.value;
      && h.savedPast.Some?
      && !n.shuttingDown && n.stop == Running && n.ids == NextStarted(h).ids
      && |n.log| <= |h.nextTaken|
      && Accounts(NextStarted(h), h.nextTaken, |h.nextTaken| - |n.log|, n)
      && (h.snapshot.None? ==> n == NextStarted(h))
  }

  predicate Inv(start: Server, h: Handoff) {
    && GoodIds(start, h.published)
    && Delivered(h)
    && OldAccounts(start, h)
    && SnapshotAccounts(start, h)
    && NextAccounts(h)
  }

  // ----- steps of the old server -----

  lemma {:induction false} WithoutZerosAppend(a: seq<ContentPacket>, b: seq<ContentPacket>)
    ensures WithoutZeros(a + b) == WithoutZeros(a) + WithoutZeros(b)
  {
    if |a| == 0 {
      assert a + b == b;
    } else {
      var head := if a[0] == ZERO_PACKET then [] else [a[0]];
      assert (a + b)[0] == a[0] && (a + b)[1..] == a[1..] + b;
      WithoutZerosAppend(a[1..], b);
      assert head + (WithoutZeros(a[1..]) + WithoutZeros(b)) == head + WithoutZeros(a[1..]) + WithoutZeros(b);
    }
  }

  lemma WithoutZerosOne(p: ContentPacket)
    ensures WithoutZeros([p]) == if p == ZERO_PACKET then [] else [p]
  {
    assert [p][1..] == [];
  }

  lemma OldEventAccounts(start: Server, h: Handoff, e: Event)
    requires OldAccounts(start, h)
    requires e.Receive? ==> Free(e.packet.packetId, '|')
    requires e == BeginShutdown || h.phase != Serving || (e.Receive? && h.phase == Serving)
    requires e == BeginShutdown ==> h.phase == Serving
    requires e.Cancel? ==> h.phase != Serving && h.phase != Sleeping
    ensures var g := OldEvent(h, e);
            OldAccounts(start, if e == BeginShutdown then g.(phase := Sleeping) else g)
  {
    hide Accounts, Step, HandledNow, Unsaved, Done, Loaded;
    var g := OldEvent(h, e);
    var m := AccountsStep(start, h.oldHandled, |Done(h)|, h.oldServer, e);
    AccountsParts(start, g.oldHandled, m, g.oldServer);
    DoneIs(g.oldHandled, m, g);
    DoneIgnoresPhase(g, Sleeping);
    StepFrame(h.oldServer, e);
  }

  lemma AccountsParts(start: Server, handled: seq<ContentPacket>, m: nat, s: Server)
    requires Accounts(start, handled, m, s)
    ensures m <= |handled| && handled[m..] == Loaded(s.stored) + Unsaved(s)
    ensures Checkpointed(start, Replay(handled[..m]), s)
  {
  }

  /** What a step leaves alone. */
  lemma StepFrame(s: Server, e: Event)
    ensures var t := Step(s, e);
            && t.ids == s.ids
            && (t.shuttingDown <==> s.shuttingDown || (e == BeginShutdown && s.stop == Running))
            && (s.shuttingDown ==> t.past == s.past && t.spoken == s.spoken)
            && (!e.Cancel? ==> t.stop == s.stop)
  {
  }

  /** A packet published and not yet received by the old loop is handled when it is. */
  lemma OldReceivesReal(start: Server, h: Handoff, now: int, up: bool)
    requires Inv(start, h) && h.oldServer.stop == Running && |h.oldBuffer| > 0
    ensures Free(h.oldBuffer[0].packetId, '|')
    ensures HandledNow(h.oldServer, Receive(h.oldBuffer[0], now, up)) == [h.oldBuffer[0]]
    ensures WithoutZeros(h.oldHandled + [h.oldBuffer[0]]) + h.oldBuffer[1..] == h.published[..h.oldSeen]
  {
    hide Accounts, SnapshotAccounts, NextAccounts;
    var p := h.oldBuffer[0];
    var k := |WithoutZeros(h.oldHandled)|;
    assert p == h.published[..h.oldSeen][k] == h.published[k];
    WithoutZerosAppend(h.oldHandled, [p]);
    WithoutZerosOne(p);
    assert WithoutZeros(h.oldHandled) + [p] + h.oldBuffer[1..] == WithoutZeros(h.oldHandled) + h.oldBuffer;
  }

  lemma OldReceivesZero(start: Server, h: Handoff, now: int, up: bool)
    requires OldAccounts(start, h) && h.oldServer.stop == Running && h.phase != Serving
    ensures HandledNow(h.oldServer, Receive(ZERO_PACKET, now, up)) == [ZERO_PACKET]
    ensures WithoutZeros(h.oldHandled + [ZERO_PACKET]) == WithoutZeros(h.oldHandled)
  {
    WithoutZerosAppend(h.oldHandled, [ZERO_PACKET]);
    WithoutZerosOne(ZERO_PACKET);
  }

  /** The old server's steps do not touch what the next server has. */
  lemma OldEventRest(start: Server, h: Handoff, e: Event)
    requires SnapshotAccounts(start, h) && NextAccounts(h) && OldAccounts(start, h) && Delivered(h)
    ensures SnapshotAccounts(start, OldEvent(h, e)) && NextAccounts(OldEvent(h, e))
  {
    hide Accounts, TranscribeOne, Printed, Loaded, Replay;
    StepFrame(h.oldServer, e);
  }

  lemma InvOldReceive(start: Server, h: Handoff, now: int, up: bool)
    requires Inv(start, h)
    ensures Inv(start, Next(h, OldReceive(now, up)))
  {
    hide Accounts, Step, Checkpointed, FreshId;
    if h.oldServer.stop == Running && |h.oldBuffer| > 0 {
      OldReceivesReal(start, h, now, up);
      var g := h.(oldBuffer := h.oldBuffer[1..]);
      BufferIsNotAccounted(start, h, h.oldBuffer[1..]);
      OldEventAccounts(start, g, Receive(h.oldBuffer[0], now, up));
      OldEventSnapshot(start, h, g, Receive(h.oldBuffer[0], now, up));
    } else if h.oldServer.stop == Running && !Subscribed(h.phase) {
      OldReceivesZero(start, h, now, up);
      OldEventAccounts(start, h, Receive(ZERO_PACKET, now, up));
      OldEventRest(start, h, Receive(ZERO_PACKET, now, up));
    }
  }

  lemma BufferIsNotAccounted(start: Server, h: Handoff, buffer: seq<ContentPacket>)
    requires OldAccounts(start, h)
    ensures OldAccounts(start, h.(oldBuffer := buffer))
  {
    assert Done(h.(oldBuffer := buffer)) == Done(h);
  }

  lemma OldEventSnapshot(start: Server, h: Handoff, g: Handoff, e: Event)
    requires SnapshotAccounts(start, h) && NextAccounts(h) && OldAccounts(start, h) && Delivered(h)
    requires g == h.(oldBuffer := g.oldBuffer)
    ensures SnapshotAccounts(start, OldEvent(g, e)) && NextAccounts(OldEvent(g, e))
  {
    hide Accounts, TranscribeOne, Printed, Loaded, Replay;
    StepFrame(h.oldServer, e);
    assert NextStarted(OldEvent(g, e)) == NextStarted(h);
  }

  lemma InvOldQuiet(start: Server, h: Handoff, a: Action)
    requires Inv(start, h) && (a.OldStop? || a == Shutdown)
    ensures Inv(start, Next(h, a))
  {
    hide Accounts, Step, Checkpointed, FreshId;
    assert h.oldHandled + [] == h.oldHandled;
    if a == Shutdown && h.phase == Serving {
      OldEventAccounts(start, h, BeginShutdown);
      OldEventRest(start, h, BeginShutdown);
      DoneIgnoresPhase(OldEvent(h, BeginShutdown), Sleeping);
    } else if a.OldStop? && h.phase != Serving && h.phase != Sleeping {
      OldEventAccounts(start, h, Cancel(a.up));
      OldEventRest(start, h, Cancel(a.up));
    }
  }

  lemma DoneIgnoresPhase(h: Handoff, phase: Phase)
    ensures Done(h.(phase := phase)) == Done(h)
    ensures NextStarted(h.(phase := phase)) == NextStarted(h)
  {
  }

  // ----- the other steps -----

  lemma PublishDelivers(h: Handoff, p: ContentPacket)
    requires Delivered(h) && FreshId(h, p.packetId)
    ensures Delivered(Next(h, Publish(p)))
  {
    hide FreshId, WithoutZeros;
    var g := Next(h, Publish(p));
    assert FreshId(h, p.packetId);
    assert h.oldSeen == |h.published| ==> h.published[..h.oldSeen] == h.published;
    assert g.published[..h.oldSeen] == h.published[..h.oldSeen];
    assert WithoutZeros(h.oldHandled) + (h.oldBuffer + [p]) == WithoutZeros(h.oldHandled) + h.oldBuffer + [p];
    if h.next.Some? {
      assert g.published[h.nextFrom..] == h.published[h.nextFrom..] + [p];
      assert h.nextTaken + (h.nextBuffer + [p]) == h.nextTaken + h.nextBuffer + [p];
    }
  }

  lemma PublishKeepsIds(start: Server, h: Handoff, p: ContentPacket)
    requires GoodIds(start, h.published) && h.oldServer.ids == start.ids && FreshId(h, p.packetId)
    ensures GoodIds(start, h.published + [p])
  {
  }

  lemma InvPublish(start: Server, h: Handoff, p: ContentPacket)
    requires Inv(start, h)
    ensures Inv(start, Next(h, Publish(p)))
  {
    hide Accounts, Checkpointed, WithoutZeros, Replay, FreshId, GoodIds, Delivered;
    var g := Next(h, Publish(p));
    if FreshId(h, p.packetId) {
      PublishDelivers(h, p);
      PublishKeepsIds(start, h, p);
      assert Done(g) == Done(h) && NextStarted(g) == NextStarted(h);
      PublishKeepsSeen(h);
      assert h.snapshot.Some? ==> g.published[..h.oldSeen] == h.published[..h.oldSeen];
    }
  }

  /** Once the next server has a snapshot, the old channel gets nothing more. */
  lemma PublishKeepsSeen(h: Handoff)
    requires Delivered(h)
    ensures h.snapshot.Some? ==> !Subscribed(h.phase)
  {
  }

  lemma InvPhase(start: Server, h: Handoff, a: Action)
    requires Inv(start, h) && (a == CancelSession || a == EndPubsub || a.SaveState? || a.Enqueue?)
    ensures Inv(start, Next(h, a))
  {
    hide Accounts, Checkpointed, WithoutZeros, Replay;
    var g := Next(h, a);
    assert Done(g) == Done(h);
    assert h.next.Some? ==> g == h.(phase := g.phase);
  }

  lemma ResumedAccounts(past: seq<PastTextLine>, loaded: seq<ContentPacket>)
    ensures var n := Started(Resumed(past), loaded); Accounts(n, [], 0, n)
    ensures Accounts(Resumed(past), [], 0, Resumed(past))
  {
    hide Accounts;
    AccountsStart(Resumed(past));
    AccountsStart(Started(Resumed(past), loaded));
  }

  lemma InvNextStart(start: Server, h: Handoff)
    requires Inv(start, h)
    ensures Inv(start, Next(h, NextStart))
  {
    hide Accounts, Checkpointed, WithoutZeros, Replay;
    var g := Next(h, NextStart);
    if g != h {
      assert Done(g) == Done(h);
      ResumedAccounts(h.savedPast.value, []);
      assert h.published[|h.published|..] == [];
    }
  }

  /** The snapshot splits what the old loop handled and what is still in its channel. */
  lemma SnapshotSplits(start: Server, h: Handoff, up: bool)
    requires Delivered(h) && OldAccounts(start, h)
    ensures var stored := Loaded(h.oldServer.stored);
            var loaded := if up then stored else [];
            var missed := WithoutZeros((if up then [] else stored) + Unsaved(h.oldServer)) + h.oldBuffer;
            && WithoutZeros(Done(h)) + WithoutZeros(loaded) + missed == h.published[..h.oldSeen]
            && Checkpointed(start, Replay(Done(h)), h.oldServer)
  {
    hide Accounts, Checkpointed, Replay, WithoutZeros, Loaded, Unsaved, Done, IdsOf;
    var m := |Done(h)|;
    var stored, unsaved := Loaded(h.oldServer.stored), Unsaved(h.oldServer);
    AccountsParts(start, h.oldHandled, m, h.oldServer);
    DoneIs(h.oldHandled, m, h);
    assert h.oldHandled == Done(h) + (stored + unsaved);
    WithoutZerosAppend(Done(h), stored + unsaved);
    WithoutZerosAppend(stored, unsaved);
    WithoutZerosNone();
    assert [] + unsaved == unsaved;
    assert WithoutZeros(h.oldHandled) + h.oldBuffer == h.published[..h.oldSeen];
  }

  lemma WithoutZerosNone()
    ensures WithoutZeros([]) == []
  {
  }

  lemma AttachSnapshot(start: Server, h: Handoff, up: bool)
    requires Delivered(h) && OldAccounts(start, h) && SnapshotAccounts(start, h)
    ensures SnapshotAccounts(start, Next(h, NextAttach(up)))
  {
    hide Accounts, Checkpointed, WithoutZeros, Replay, Loaded, Done, OldAccounts, Unsaved;
    SnapshotSplits(start, h, up);
  }

  lemma AttachNext(h: Handoff, up: bool)
    requires Delivered(h) && NextAccounts(h)
    ensures NextAccounts(Next(h, NextAttach(up)))
  {
    hide Accounts, WithoutZeros, Loaded, Done, Unsaved, IdsOf;
    var g := Next(h, NextAttach(up));
    if g != h {
      ResumedAccounts(h.savedPast.value, g.snapshot.value.loaded);
      assert g.next.value == NextStarted(g);
    }
  }

  lemma InvNextAttach(start: Server, h: Handoff, up: bool)
    requires Inv(start, h)
    ensures Inv(start, Next(h, NextAttach(up)))
  {
    hide Accounts, WithoutZeros, SnapshotAccounts, NextAccounts, Loaded, Unsaved, GoodIds;
    var g := Next(h, NextAttach(up));
    AttachSnapshot(start, h, up);
    AttachNext(h, up);
    assert Done(g) == Done(h);
  }

  lemma {:induction false} InIdsOfOnly(packets: seq<ContentPacket>, id: string) returns (k: nat)
    requires id in IdsOf(packets)
    ensures k < |packets| && packets[k].packetId == id
  {
    if packets[|packets| - 1].packetId == id {
      k := |packets| - 1;
    } else {
      k := InIdsOfOnly(packets[..|packets| - 1], id);
    }
  }

  lemma {:induction false} InWithoutZeros(packets: seq<ContentPacket>, k: nat)
    requires k < |packets| && packets[k] != ZERO_PACKET
    ensures packets[k] in WithoutZeros(packets)
  {
    if k > 0 {
      InWithoutZeros(packets[1..], k - 1);
    }
  }

  /** A loaded id is that of a packet the old server's channel got. */
  lemma LoadedWasSeen(start: Server, h: Handoff, id: string)
    requires SnapshotAccounts(start, h) && h.snapshot.Some?
    requires id in IdsOf(h.snapshot.value.loaded) && id != ""
    ensures exists j :: 0 <= j < h.oldSeen && h.published[j].packetId == id
  {
    hide Checkpointed, Replay, IdsOf, WithoutZeros;
    var loaded := h.snapshot.value.loaded;
    var k := InIdsOfOnly(loaded, id);
    InWithoutZeros(loaded, k);
    assert loaded[k] in h.published[..h.oldSeen];
  }

  /** No packet that reaches the next server has a loaded id. */
  lemma NotLoaded(start: Server, h: Handoff)
    requires GoodIds(start, h.published) && Delivered(h) && SnapshotAccounts(start, h)
    requires h.snapshot.Some? && |h.nextBuffer| > 0
    ensures h.nextBuffer[0].packetId !in IdsOf(h.snapshot.value.loaded)
    ensures Free(h.nextBuffer[0].packetId, '|')
  {
    hide SnapshotAccounts, IdsOf, WithoutZeros;
    var p, at := h.nextBuffer[0], h.nextFrom + |h.nextTaken|;
    assert p == (h.nextTaken + h.nextBuffer)[|h.nextTaken|] == h.published[at];
    if p.packetId in IdsOf(h.snapshot.value.loaded) {
      LoadedWasSeen(start, h, p.packetId);
    }
  }

  lemma NextStepAccounts(base: Server, taken: seq<ContentPacket>, n: Server, p: ContentPacket, now: int)
    requires |n.log| <= |taken| && Accounts(base, taken, |taken| - |n.log|, n)
    requires !n.shuttingDown && n.stop == Running
    requires p.packetId !in n.ids && Free(p.packetId, '|')
    ensures var t := Step(n, Receive(p, now, true));
            && !t.shuttingDown && t.stop == Running && t.ids == n.ids
            && |t.log| <= |taken| + 1
            && Accounts(base, taken + [p], |taken| + 1 - |t.log|, t)
  {
    hide TranscribeOne, Replay, Checkpointed, NoNewline, ChunksOf;
    var e := Receive(p, now, true);
    StepFrame(n, e);
    assert HandledNow(n, e) == [p];
    var m := AccountsStep(base, taken, |taken| - |n.log|, n, e);
    var t := Step(n, e);
    assert (taken + [p])[m..] == Loaded(t.stored) + Unsaved(t);
    assert t.stored == [] && Loaded([]) == [];
    assert |(taken + [p])[m..]| == |t.log|;
  }

  lemma InvNextReceive(start: Server, h: Handoff, now: int)
    requires Inv(start, h)
    ensures Inv(start, Next(h, NextReceive(now)))
  {
    hide Accounts, Checkpointed, WithoutZeros, Replay, Step, IdsOf;
    var g := Next(h, NextReceive(now));
    if g != h {
      NotLoaded(start, h);
      NextStepAccounts(NextStarted(h), h.nextTaken, h.next.value, h.nextBuffer[0], now);
      assert Done(g) == Done(h) && NextStarted(g) == NextStarted(h);
      assert h.nextTaken + [h.nextBuffer[0]] + h.nextBuffer[1..] == h.nextTaken + h.nextBuffer;
    }
  }

  lemma InvStep(start: Server, h: Handoff, a: Action)
    requires Inv(start, h)
    ensures Inv(start, Next(h, a))
  {
    hide Inv, Next;
    match a
    case Publish(p) => InvPublish(start, h, p);
    case OldReceive(now, up) => InvOldReceive(start, h, now, up);
    case OldStop(_) => InvOldQuiet(start, h, a);
    case Shutdown => InvOldQuiet(start, h, a);
    case NextStart => InvNextStart(start, h);
    case NextAttach(up) => InvNextAttach(start, h, up);
    case NextReceive(now) => InvNextReceive(start, h, now);
    case _ => InvPhase(start, h, a);
  }

  lemma {:induction false} InvRun(start: Server, h: Handoff, actions: seq<Action>)
    requires Inv(start, h)
    ensures Inv(start, Run(h, actions))
    decreases |actions|
  {
    hide Inv, Next;
    if |actions| > 0 {
      InvStep(start, h, actions[0]);
      InvRun(start, Next(h, actions[0]), actions[1..]);
    }
  }

  lemma InvInit(start: Server)
    requires Fresh(start) && start.stored == []
    ensures Inv(start, Init(start))
  {
    hide Accounts, WithoutZeros, Loaded, Checkpointed, IdsOf;
    var h := Init(start);
    AccountsStart(start);
    WithoutZerosNone();
    assert Done(h) == [];
    assert WithoutZeros(h.oldHandled) + h.oldBuffer == [] == h.published[..0];
  }

  lemma Reachable(start: Server, actions: seq<Action>)
    requires Fresh(start) && start.stored == []
    ensures Inv(start, Run(Init(start), actions))
  {
    InvInit(start);
    InvRun(start, Init(start), actions);
  }

  // ----- the main results -----

  /** The two servers never overlap.  Whatever the interleaving, the next server subscribes
      only after the old one has unsubscribed, so no packet reaches both. */
  lemma NeverOverlap(start: Server, actions: seq<Action>)
    requires Fresh(start) && start.stored == []
    ensures var h := Run(Init(start), actions);
            h.next.Some? ==>
              && !Subscribed(h.phase)
              && h.oldServer.shuttingDown
              && h.oldSeen <= h.nextFrom <= |h.published|
              && WithoutZeros(h.oldHandled) + h.oldBuffer == h.published[..h.oldSeen]
              && h.nextTaken + h.nextBuffer == h.published[h.nextFrom..]
  {
    hide Run, Accounts;
    Reachable(start, actions);
  }

  /** The packets published between the two subscriptions. */
  function Gap(h: Handoff): seq<ContentPacket> {
    if h.oldSeen <= h.nextFrom <= |h.published| then h.published[h.oldSeen..h.nextFrom] else []
  }

  /** Everything published is, in order, in the saved past text, in the loaded packets,
      missed by the load, published in the gap, received by the next server, or still in its
      channel; and the next server drops nothing it receives. */
  predicate Conserved(start: Server, h: Handoff) {
    && h.snapshot.Some? && h.next.Some? && h.savedPast.Some?
    && var s, n := h.snapshot.value, h.next.value;
    && h.published == WithoutZeros(s.done) + WithoutZeros(s.loaded) + s.missed + Gap(h) + h.nextTaken + h.nextBuffer
    && PastTexts(h.savedPast.value) == PastTexts(start.past) + TextsOf(Replay(s.done).lines)
    && Replay(s.done).live == ""
    && PastTexts(n.past) == PastTexts(h.savedPast.value) + TextsOf(Replay(h.nextTaken).lines)
    && n.live == Replay(h.nextTaken).live
  }

  /** Conservation, once the next server has loaded the suspended packets. */
  lemma HandoffConserves(start: Server, actions: seq<Action>)
    requires Fresh(start) && start.stored == [] && Run(Init(start), actions).snapshot.Some?
    ensures Conserved(start, Run(Init(start), actions))
  {
    hide Run, Inv, Conserved;
    Reachable(start, actions);
    Conserves(start, Run(Init(start), actions));
  }

  lemma Conserves(start: Server, h: Handoff)
    requires Inv(start, h) && h.snapshot.Some?
    ensures Conserved(start, h)
  {
    hide Accounts, WithoutZeros, Replay, PastTexts, TextsOf, IdsOf;
    var s, n := h.snapshot.value, h.next.value;
    assert h.published == h.published[..h.oldSeen] + Gap(h) + h.published[h.nextFrom..];
    assert h.published[..h.oldSeen] + Gap(h) + (h.nextTaken + h.nextBuffer)
        == h.published[..h.oldSeen] + Gap(h) + h.nextTaken + h.nextBuffer;
    NextDisplay(NextStarted(h), h.nextTaken, |h.nextTaken| - |n.log|, n);
  }

  /** A server that is not shutting down shows the replay of what it handled. */
  lemma NextDisplay(base: Server, taken: seq<ContentPacket>, m: nat, n: Server)
    requires Accounts(base, taken, m, n) && !n.shuttingDown && n.stop == Running
    ensures PastTexts(n.past) == PastTexts(base.past) + TextsOf(Replay(taken).lines)
    ensures n.live == Replay(taken).live
  {
    hide ParseContentChunk, ParseContentPacket, PastTexts, TextsOf;
    assert taken == taken[..m] + taken[m..];
    assert taken[m..] == n.log;
    ReplayAppend(taken[..m], n.log);
    NoNewlineNoLines("", ChunksOf(n.log));
    assert Replay(taken[..m]).lines + [] == Replay(taken[..m]).lines;
  }

  /** Everything published is saved, loaded, received or still in the next channel. */
  predicate Complete(h: Handoff) {
    && h.snapshot.Some?
    && var s := h.snapshot.value;
    h.published == WithoutZeros(s.done) + WithoutZeros(s.loaded) + h.nextTaken + h.nextBuffer
  }

  /** Neither server is subscribed: the old one no longer, the next one not yet. */
  predicate InGap(h: Handoff) {
    !Subscribed(h.phase) && h.next.None?
  }

  /** What the next server's load finds is all there is: the old loop has emptied its channel
      and saved its log, and the list can be read or holds nothing. */
  predicate FindsAll(h: Handoff, up: bool) {
    && h.oldBuffer == []
    && WithoutZeros(Unsaved(h.oldServer)) == []
    && (up || WithoutZeros(Loaded(h.oldServer.stored)) == [])
  }

  /** A step that loses nothing: no packet is published in the gap, and a load finds all. */
  predicate Lossless(h: Handoff, a: Action) {
    match a
    case Publish(p) => !(FreshId(h, p.packetId) && InGap(h))
    case NextAttach(up) => h.next.Some? && h.snapshot.None? ==> FindsAll(h, up)
    case _ => true
  }

  predicate Attended(h: Handoff, actions: seq<Action>)
    decreases |actions|
  {
    |actions| > 0 ==> Lossless(h, actions[0]) && Attended(Next(h, actions[0]), actions[1..])
  }

  /** How many packets were published in the gap so far. */
  function GapSize(h: Handoff): int {
    (if h.next.Some? then h.nextFrom else |h.published|) - h.oldSeen
  }

  predicate NothingLost(h: Handoff) {
    GapSize(h) == 0 && (h.snapshot.Some? ==> h.snapshot.value.missed == [])
  }

  lemma AttachLoses(h: Handoff, up: bool)
    ensures NothingLost(Next(h, NextAttach(up))) <==> NothingLost(h) && Lossless(h, NextAttach(up))
  {
    hide Loaded, Unsaved, WithoutZeros, Done, IdsOf;
    var stored, unsaved := Loaded(h.oldServer.stored), Unsaved(h.oldServer);
    WithoutZerosNone();
    WithoutZerosAppend(stored, unsaved);
    assert [] + unsaved == unsaved;
    var missed := WithoutZeros((if up then [] else stored) + unsaved);
    assert |missed + h.oldBuffer| == |missed| + |h.oldBuffer|;
    assert |WithoutZeros(stored) + WithoutZeros(unsaved)| == |WithoutZeros(stored)| + |WithoutZeros(unsaved)|;
  }

  lemma StepLoses(h: Handoff, a: Action)
    requires Delivered(h)
    ensures NothingLost(Next(h, a)) <==> NothingLost(h) && Lossless(h, a)
  {
    hide FreshId, WithoutZeros, Step, HandledNow, Loaded, IdsOf;
    if a.NextAttach? {
      AttachLoses(h, a.up);
    }
  }

  lemma {:induction false} LossExactly(start: Server, h: Handoff, actions: seq<Action>)
    requires Inv(start, h)
    ensures NothingLost(Run(h, actions)) <==> NothingLost(h) && Attended(h, actions)
    decreases |actions|
  {
    hide Inv, Next, NothingLost, Lossless;
    if |actions| > 0 {
      assert Delivered(h) by { InvDelivers(start, h); }
      StepLoses(h, actions[0]);
      InvStep(start, h, actions[0]);
      LossExactly(start, Next(h, actions[0]), actions[1..]);
    }
  }

  lemma InvDelivers(start: Server, h: Handoff)
    requires Inv(start, h)
    ensures Delivered(h)
  {
  }

  /** Nothing published is lost exactly when no packet is published between the two
      subscriptions, the old loop has emptied its channel and saved its log by the time the
      next server loads the list, and that load succeeds or has nothing to find. */
  lemma HandoffCompleteExactly(start: Server, actions: seq<Action>)
    requires Fresh(start) && start.stored == [] && Run(Init(start), actions).snapshot.Some?
    ensures Complete(Run(Init(start), actions)) <==> Attended(Init(start), actions)
  {
    hide Run, Inv, Conserved, Complete, Attended;
    var h := Run(Init(start), actions);
    HandoffConserves(start, actions);
    CompleteExactly(start, h);
    Reachable(start, actions);
    InvInit(start);
    LossExactly(start, Init(start), actions);
    GapIs(start, h);
  }

  lemma GapIs(start: Server, h: Handoff)
    requires Inv(start, h) && h.snapshot.Some?
    ensures Gap(h) == [] <==> GapSize(h) == 0
  {
    hide OldAccounts, SnapshotAccounts, NextAccounts, GoodIds, WithoutZeros;
  }

  lemma CompleteExactly(start: Server, h: Handoff)
    requires Conserved(start, h)
    ensures Complete(h) <==> h.snapshot.value.missed == [] && Gap(h) == []
  {
    hide WithoutZeros, Replay, TextsOf, PastTexts, Gap;
    var s := h.snapshot.value;
    var front, back := WithoutZeros(s.done) + WithoutZeros(s.loaded), h.nextTaken + h.nextBuffer;
    assert |h.published| == |front| + |s.missed| + |Gap(h)| + |back|;
    assert |front + h.nextTaken + h.nextBuffer| == |front| + |back|;
    if s.missed == [] && Gap(h) == [] {
      assert front + [] + [] + h.nextTaken + h.nextBuffer == front + h.nextTaken + h.nextBuffer;
    }
  }

  /** The saved past text followed by a replay of the loaded packets and of what the next
      server received shows what one server would show that played everything published,
      up to what is still in the next server's channel. */
  predicate ShowsEverything(start: Server, h: Handoff) {
    && h.snapshot.Some? && h.savedPast.Some? && |h.nextBuffer| <= |h.published|
    && var received := h.published[..|h.published| - |h.nextBuffer|];
    var kept := Replay(h.snapshot.value.loaded + h.nextTaken);
    && PastTexts(h.savedPast.value) + TextsOf(kept.lines) == PastTexts(start.past) + TextsOf(Replay(received).lines)
    && kept.live == Replay(received).live
  }

  lemma HandoffShowsEverything(start: Server, actions: seq<Action>)
    requires Fresh(start) && start.stored == []
    requires Run(Init(start), actions).snapshot.Some? && Attended(Init(start), actions)
    ensures ShowsEverything(start, Run(Init(start), actions))
  {
    hide Run, Inv, Conserved, ShowsEverything, WithoutZeros, Complete, Attended;
    HandoffCompleteExactly(start, actions);
    HandoffConserves(start, actions);
    CompleteShowsEverything(start, Run(Init(start), actions));
  }

  lemma CompleteShowsEverything(start: Server, h: Handoff)
    requires Conserved(start, h) && Complete(h)
    ensures ShowsEverything(start, h)
  {
    hide WithoutZeros, Replay, TextsOf, PastTexts, Gap;
    var s := h.snapshot.value;
    var saved, tail := WithoutZeros(s.done), WithoutZeros(s.loaded) + h.nextTaken;
    assert h.published == saved + tail + h.nextBuffer;
    assert h.published[..|h.published| - |h.nextBuffer|] == saved + tail;
    ReplaysTogether(s.done, s.loaded, h.nextTaken);
    var done, kept := Replay(s.done).lines, Replay(s.loaded + h.nextTaken).lines;
    TextsOfAppend(done, kept);
    assert PastTexts(start.past) + TextsOf(done) + TextsOf(kept)
        == PastTexts(start.past) + (TextsOf(done) + TextsOf(kept));
  }

  lemma ReplayIgnoresZeros(packets: seq<ContentPacket>)
    ensures Replay(WithoutZeros(packets)) == Replay(packets)
  {
    ZeroPacketsHarmless("", packets);
  }

  lemma ReplayFromNothing(a: seq<ContentPacket>, b: seq<ContentPacket>)
    requires Replay(a).live == ""
    ensures Replay(a + b) == Played(Replay(a).lines + Replay(b).lines, Replay(b).live)
  {
    ReplayAppend(a, b);
  }

  lemma ReplaysTogether(done: seq<ContentPacket>, loaded: seq<ContentPacket>, taken: seq<ContentPacket>)
    requires Replay(done).live == ""
    ensures Replay(WithoutZeros(done) + (WithoutZeros(loaded) + taken))
            == Played(Replay(done).lines + Replay(loaded + taken).lines, Replay(loaded + taken).live)
  {
    hide Replay, WithoutZeros, PlayAll, ChunksOf;
    ReplayIgnoresZeros(done);
    ReplayFromNothing(WithoutZeros(done), WithoutZeros(loaded) + taken);
    ReplayAppend(WithoutZeros(loaded), taken);
    ReplayAppend(loaded, taken);
    ReplayIgnoresZeros(loaded);
  }

  // ----- what the next server does not show -----

  /** Nothing is missed by not playing the loaded packets: they complete no line, and what they
      leave of the live text is overwritten before it is retired, or is empty. */
  predicate Covered(loaded: seq<ContentPacket>, taken: seq<ContentPacket>) {
    Replay(loaded).lines == [] && KeepsAlike(Replay(loaded).live, "", ChunksOf(taken))
  }

  lemma ReplayTexts(a: seq<ContentPacket>, b: seq<ContentPacket>)
    ensures var rest := PlayAll(Replay(a).live, ChunksOf(b));
            && Replay(a + b).live == rest.live
            && TextsOf(Replay(a + b).lines) == TextsOf(Replay(a).lines) + TextsOf(rest.lines)
  {
    hide Replay, PlayAll, ChunksOf, TextsOf;
    ReplayAppend(a, b);
    TextsOfAppend(Replay(a).lines, PlayAll(Replay(a).live, ChunksOf(b)).lines);
  }

  lemma CoveredExactly(loaded: seq<ContentPacket>, taken: seq<ContentPacket>)
    ensures var all, own := Replay(loaded + taken), Replay(taken);
            TextsOf(all.lines) == TextsOf(own.lines) && all.live == own.live <==> Covered(loaded, taken)
  {
    hide PlayAll, ChunksOf, TextsOf, KeepsAlike;
    var x := Replay(loaded).live;
    ReplayTexts(loaded, taken);
    PlaysAlikeExactly(x, "", ChunksOf(taken));
    var front, rest := TextsOf(Replay(loaded).lines), TextsOf(PlayAll(x, ChunksOf(taken)).lines);
    assert |front + rest| == |front| + |rest|;
    assert [] + rest == rest;
  }

  /** The next server shows what one server would that played everything it could have got. */
  predicate Invisible(start: Server, h: Handoff) {
    && h.next.Some? && |h.nextBuffer| <= |h.published|
    && var n, received := h.next.value, h.published[..|h.published| - |h.nextBuffer|];
    && PastTexts(n.past) == PastTexts(start.past) + TextsOf(Replay(received).lines)
    && n.live == Replay(received).live
  }

  /** A handoff in which nothing is lost is invisible exactly while the packets that the next
      server loaded, and does not play, are covered by those that it received. */
  lemma HandoffInvisibleExactly(start: Server, actions: seq<Action>)
    requires Fresh(start) && start.stored == []
    requires Run(Init(start), actions).snapshot.Some? && Attended(Init(start), actions)
    ensures var h := Run(Init(start), actions);
            Invisible(start, h) <==> Covered(h.snapshot.value.loaded, h.nextTaken)
  {
    hide Run, Inv, Conserved, ShowsEverything, Attended, Covered;
    HandoffConserves(start, actions);
    HandoffShowsEverything(start, actions);
    ShownIsCovered(start, Run(Init(start), actions));
  }

  lemma ShownIsCovered(start: Server, h: Handoff)
    requires Conserved(start, h) && ShowsEverything(start, h)
    ensures Invisible(start, h) <==> Covered(h.snapshot.value.loaded, h.nextTaken)
  {
    hide WithoutZeros, Replay, TextsOf, PastTexts, Gap, Covered;
    var loaded := h.snapshot.value.loaded;
    CoveredExactly(loaded, h.nextTaken);
    SameFront(PastTexts(h.savedPast.value), TextsOf(Replay(loaded + h.nextTaken).lines),
              TextsOf(Replay(h.nextTaken).lines));
  }

  // ----- what the schedule decides -----

  lemma {:induction false} RunSnoc(h: Handoff, actions: seq<Action>, a: Action)
    ensures Run(h, actions + [a]) == Next(Run(h, actions), a)
    decreases |actions|
  {
    hide Next;
    if |actions| == 0 {
      assert [] + [a] == [a] && [a][1..] == [];
    } else {
      assert (actions + [a])[1..] == actions[1..] + [a];
      RunSnoc(Next(h, actions[0]), actions[1..], a);
    }
  }

  lemma RunLast(h: Handoff, actions: seq<Action>)
    requires |actions| > 0
    ensures var n := |actions| - 1;
            Run(h, actions) == Next(Run(h, actions[..n]), actions[n])
  {
    var n := |actions| - 1;
    assert actions == actions[..n] + [actions[n]];
    RunSnoc(h, actions[..n], actions[n]);
  }

  /** The packets that a schedule publishes: those with an id that is valid, was not loaded and
      was not published before. */
  function Accepted(ids: set<string>, actions: seq<Action>): seq<ContentPacket> {
    if |actions| == 0 then []
    else
      var before, a := Accepted(ids, actions[..|actions| - 1]), actions[|actions| - 1];
      if a.Publish? && a.packet.packetId != "" && Free(a.packet.packetId, '|') && a.packet.packetId !in ids
         && forall k :: 0 <= k < |before| ==> before[k].packetId != a.packet.packetId
      then before + [a.packet]
      else before
  }

  lemma {:induction false} PublishedIsAccepted(start: Server, actions: seq<Action>)
    requires Fresh(start) && start.stored == []
    ensures Run(Init(start), actions).published == Accepted(start.ids, actions)
  {
    hide Run, Next, Inv;
    if |actions| == 0 {
      RunNothing(Init(start));
    } else {
      var front := actions[..|actions| - 1];
      PublishedIsAccepted(start, front);
      RunLast(Init(start), actions);
      Reachable(start, front);
      InvKeepsIds(start, Run(Init(start), front));
      NextPublishes(Run(Init(start), front), actions[|actions| - 1]);
    }
  }

  lemma InvKeepsIds(start: Server, h: Handoff)
    requires Inv(start, h)
    ensures h.oldServer.ids == start.ids
  {
  }

  lemma NextPublishes(h: Handoff, a: Action)
    ensures Next(h, a).published
            == if a.Publish? && FreshId(h, a.packet.packetId) then h.published + [a.packet] else h.published
  {
    hide FreshId, WithoutZeros, Step, HandledNow, Loaded, IdsOf;
  }

  /** How far the old server can be. */
  predicate PhaseFits(actions: seq<Action>, h: Handoff) {
    && (Subscribed(h.phase) || EndPubsub in actions)
    && (h.phase == Serving || h.phase == Sleeping || CancelSession in actions)
    && (h.savedPast.Some? ==> SaveState(true) in actions)
    && (h.next.Some? ==> h.savedPast.Some?)
  }

  lemma NextFits(actions: seq<Action>, h: Handoff, a: Action)
    requires PhaseFits(actions, h) && (h.next.Some? ==> Saved(h.phase))
    ensures PhaseFits(actions + [a], Next(h, a))
  {
    hide FreshId, WithoutZeros, Step, HandledNow, Loaded, IdsOf;
    assert forall b :: b in actions + [a] <==> b in actions || b == a;
  }

  lemma {:induction false} RunFits(start: Server, actions: seq<Action>)
    requires Fresh(start) && start.stored == []
    ensures PhaseFits(actions, Run(Init(start), actions))
  {
    hide Run, Next, Inv, PhaseFits;
    if |actions| == 0 {
      RunNothing(Init(start));
      InitFits(start);
    } else {
      var front, a := actions[..|actions| - 1], actions[|actions| - 1];
      RunFits(start, front);
      RunLast(Init(start), actions);
      Reachable(start, front);
      InvDelivers(start, Run(Init(start), front));
      NextFits(front, Run(Init(start), front), a);
      assert actions == front + [a];
    }
  }

  lemma InitFits(start: Server)
    ensures PhaseFits([], Init(start))
  {
  }

  /** The old server receives whatever is published until it leaves pubsub, and its loop runs
      until the session is cancelled; and no server follows until the state was saved. */
  lemma OldServes(start: Server, actions: seq<Action>)
    requires Fresh(start) && start.stored == []
    ensures var h := Run(Init(start), actions);
            && (EndPubsub !in actions ==> WithoutZeros(h.oldHandled) + h.oldBuffer == Accepted(start.ids, actions))
            && (CancelSession !in actions ==> h.oldServer.stop == Running)
            && (SaveState(true) !in actions ==> h.next.None?)
  {
    hide Run, WithoutZeros, Accounts, SnapshotAccounts, NextAccounts, GoodIds;
    Reachable(start, actions);
    RunFits(start, actions);
    PublishedIsAccepted(start, actions);
    var h := Run(Init(start), actions);
    assert h.published[..|h.published|] == h.published;
  }

  // ----- the times of past lines -----

  /** What the old loop sees of an action. */
  function SeenByOld(h: Handoff, a: Action): seq<Event> {
    match a
    case OldReceive(now, up) =>
      if h.oldServer.stop != Running then []
      else if |h.oldBuffer| > 0 then [Receive(h.oldBuffer[0], now, up)]
      else if !Subscribed(h.phase) then [Receive(ZERO_PACKET, now, up)]
      else []
    case OldStop(up) => if h.phase == Serving || h.phase == Sleeping then [] else [Cancel(up)]
    case Shutdown => if h.phase == Serving then [BeginShutdown] else []
    case _ => []
  }

  function OldEvents(h: Handoff, actions: seq<Action>): seq<Event>
    decreases |actions|
  {
    if |actions| == 0 then [] else SeenByOld(h, actions[0]) + OldEvents(Next(h, actions[0]), actions[1..])
  }

  lemma OneSeen(h: Handoff, a: Action)
    ensures Next(h, a).oldServer == Transcription.Run(h.oldServer, SeenByOld(h, a))
  {
    hide FreshId, WithoutZeros, Step, HandledNow, Loaded, IdsOf;
    var seen := SeenByOld(h, a);
    if |seen| > 0 {
      assert seen[1..] == [];
      assert Transcription.Run(h.oldServer, seen) == Step(h.oldServer, seen[0]);
    }
  }

  /** In a handoff the old server makes a run of its loop. */
  lemma {:induction false} OldRuns(h: Handoff, actions: seq<Action>)
    ensures Run(h, actions).oldServer == Transcription.Run(h.oldServer, OldEvents(h, actions))
    decreases |actions|
  {
    hide Next, SeenByOld, Step;
    if |actions| > 0 {
      var g := Next(h, actions[0]);
      OneSeen(h, actions[0]);
      OldRuns(g, actions[1..]);
      RunAppend(h.oldServer, SeenByOld(h, actions[0]), OldEvents(g, actions[1..]));
    }
  }

  /** What the next loop sees of an action. */
  function SeenByNext(h: Handoff, a: Action): seq<Event> {
    match a
    case NextReceive(now) =>
      if h.next.None? || h.snapshot.None? || |h.nextBuffer| == 0 then [] else [Receive(h.nextBuffer[0], now, true)]
    case _ => []
  }

  function NextEvents(h: Handoff, actions: seq<Action>): seq<Event>
    decreases |actions|
  {
    if |actions| == 0 then [] else SeenByNext(h, actions[0]) + NextEvents(Next(h, actions[0]), actions[1..])
  }

  /** The next server has made a run of its loop from where it started. */
  predicate NextRan(h: Handoff, events: seq<Event>) {
    && (h.snapshot.None? ==> events == [])
    && (h.next.Some? ==> h.savedPast.Some? && h.next.value == Transcription.Run(NextStarted(h), events))
  }

  lemma NextRunsOn(start: Server, h: Handoff, events: seq<Event>, a: Action)
    requires Inv(start, h) && NextRan(h, events)
    ensures NextRan(Next(h, a), events + SeenByNext(h, a))
  {
    hide Accounts, Checkpointed, FreshId, WithoutZeros, Step, HandledNow, Loaded, IdsOf, GoodIds, SnapshotAccounts;
    var g, seen := Next(h, a), SeenByNext(h, a);
    assert events + [] == events;
    if |seen| > 0 {
      assert seen[1..] == [] && NextStarted(g) == NextStarted(h);
      RunAppend(NextStarted(h), events, seen);
      assert Transcription.Run(h.next.value, seen) == Step(h.next.value, seen[0]);
    } else if h.next.Some? && h.snapshot.Some? {
      assert g.next == h.next && NextStarted(g) == NextStarted(h);
    } else {
      assert events == [] && Transcription.Run(NextStarted(g), []) == NextStarted(g);
    }
  }

  lemma {:induction false} NextRuns(start: Server, h: Handoff, events: seq<Event>, actions: seq<Action>)
    requires Inv(start, h) && NextRan(h, events)
    ensures NextRan(Run(h, actions), events + NextEvents(h, actions))
    decreases |actions|
  {
    hide Inv, Next, NextRan, SeenByNext;
    if |actions| == 0 {
      assert events + [] == events;
    } else {
      var g, seen := Next(h, actions[0]), SeenByNext(h, actions[0]);
      NextRunsOn(start, h, events, actions[0]);
      InvStep(start, h, actions[0]);
      NextRuns(start, g, events + seen, actions[1..]);
      assert events + (seen + NextEvents(g, actions[1..])) == events + seen + NextEvents(g, actions[1..]);
    }
  }

  /** The saved past lines carry the times of their newlines, and the next server keeps them as
      they are and adds its own lines, with their times, after them. */
  lemma ResumesWithTimes(start: Server, actions: seq<Action>)
    requires Fresh(start) && start.stored == []
    ensures var h := Run(Init(start), actions);
            && (h.savedPast.Some? ==>
                  PastTimes(h.savedPast.value)
                  == PastTimes(start.past) + NewlineTimes(start.window, start.ids, OldEvents(Init(start), actions)))
            && (h.next.Some? ==>
                  && h.savedPast.Some? && h.savedPast.value <= h.next.value.past
                  && var s := NextStarted(h);
                  PastTimes(h.next.value.past)
                  == PastTimes(h.savedPast.value) + NewlineTimes(s.window, s.ids, NextEvents(Init(start), actions)))
  {
    hide Run, Accounts, SnapshotAccounts, NextAccounts, GoodIds, PastTimes, NewlineTimes, OldEvents, Transcription.Run;
    hide NextEvents;
    Reachable(start, actions);
    OldRuns(Init(start), actions);
    RunStampsLines(start, OldEvents(Init(start), actions));
    InvInit(start);
    NextRuns(start, Init(start), [], actions);
    var h, events := Run(Init(start), actions), NextEvents(Init(start), actions);
    assert [] + events == events;
    if h.next.Some? {
      RunStampsLines(NextStarted(h), events);
      PastGrows(NextStarted(h), events);
    }
  }

  // ----- runs with a loss -----

  /** One more action of a run. */
  lemma Then(start: Server, h: Handoff, actions: seq<Action>, a: Action) returns (g: Handoff, more: seq<Action>)
    requires Run(Init(start), actions) == h
    ensures g == Next(h, a) && Run(Init(start), more) == g
  {
    hide Next;
    RunSnoc(Init(start), actions, a);
    g, more := Next(h, a), actions + [a];
  }

  lemma Unsubscribes(h: Handoff)
    requires h.phase == Serving && h.oldServer.stop == Running
    ensures Next(Next(Next(h, Shutdown), CancelSession), EndPubsub)
            == h.(oldServer := h.oldServer.(shuttingDown := true), phase := Unsubscribed)
  {
    assert h.oldHandled + [] == h.oldHandled;
  }

  /** The old loop stops, its state is saved, and the next server starts and loads. */
  lemma Resumes(h: Handoff)
    requires h.phase == Unsubscribed && h.oldServer.stop == Running && h.oldServer.shuttingDown && h.oldBuffer == []
    requires h.next.None? && h.snapshot.None?
    ensures var stored := h.oldServer.stored + Printed(h.oldServer.log);
            var last := h.(oldServer := h.oldServer.(stored := stored, stop := Suspended(true)));
            var g := Next(Next(Next(Next(h, OldStop(true)), SaveState(true)), NextStart), NextAttach(true));
            && g.snapshot == Some(Snapshot(Done(last), Loaded(stored), []))
            && g.next.Some? && g.nextFrom == |g.published| && g.published == h.published && g.oldSeen == h.oldSeen
            && g.nextTaken == h.nextTaken && g.nextBuffer == h.nextBuffer
  {
    hide Loaded, IdsOf, Done, Printed;
    var stored := h.oldServer.stored + Printed(h.oldServer.log);
    var last := h.(oldServer := h.oldServer.(stored := stored, stop := Suspended(true)));
    var stopped := Next(h, OldStop(true));
    assert h.oldHandled + [] == h.oldHandled;
    assert stopped == last;
    var g := Next(Next(stopped, SaveState(true)), NextStart);
    assert g == last.(phase := StateSaved, savedPast := Some(h.oldServer.past),
                      next := Some(Resumed(h.oldServer.past)), nextFrom := |h.published|);
    SameDone(last, g);
    assert WithoutZeros([] + Unsaved(g.oldServer)) + g.oldBuffer == [] by { WithoutZerosNone(); }
  }

  /** A shutdown without failures of a server that is still serving; `p`, if there is one, is
      published after the old server unsubscribed. */
  lemma ShutDown(start: Server, h: Handoff, actions: seq<Action>, p: Option<ContentPacket>)
    returns (g: Handoff, more: seq<Action>)
    requires Run(Init(start), actions) == h && h.phase == Serving && h.oldServer.stop == Running && h.oldBuffer == []
    requires h.next.None? && h.snapshot.None? && h.nextTaken == [] && h.nextBuffer == []
    requires p.Some? ==> FreshId(h, p.value.packetId)
    ensures Run(Init(start), more) == g
    ensures g.published == h.published + (if p.Some? then [p.value] else [])
    ensures g.oldSeen == h.oldSeen && g.next.Some? && g.nextFrom == |g.published|
    ensures g.nextTaken == [] && g.nextBuffer == []
    ensures var stored := h.oldServer.stored + Printed(h.oldServer.log);
            var last := h.(oldServer := h.oldServer.(stored := stored, stop := Suspended(true)));
            g.snapshot == Some(Snapshot(Done(last), Loaded(stored), []))
  {
    hide Run, FreshId, Loaded, IdsOf, Done, Printed, Next;
    var a: seq<Action>;
    g, a := Then(start, h, actions, Shutdown);
    g, a := Then(start, g, a, CancelSession);
    g, a := Then(start, g, a, EndPubsub);
    Unsubscribes(h);
    if p.Some? {
      SameFreshIds(h, g, p.value.packetId);
      PublishesInGap(g, p.value);
      g, a := Then(start, g, a, Publish(p.value));
    }
    Resumes(g);
    var stored := h.oldServer.stored + Printed(h.oldServer.log);
    SameDone(h.(oldServer := h.oldServer.(stored := stored, stop := Suspended(true))),
             g.(oldServer := g.oldServer.(stored := stored, stop := Suspended(true))));
    g, a := Then(start, g, a, OldStop(true));
    g, a := Then(start, g, a, SaveState(true));
    g, a := Then(start, g, a, NextStart);
    g, more := Then(start, g, a, NextAttach(true));
  }

  lemma PublishesInGap(h: Handoff, p: ContentPacket)
    requires h.phase == Unsubscribed && h.next.None? && FreshId(h, p.packetId)
    ensures Next(h, Publish(p)) == h.(published := h.published + [p])
  {
  }

  lemma SameFreshIds(h: Handoff, g: Handoff, id: string)
    requires g.published == h.published && g.oldServer.ids == h.oldServer.ids
    ensures FreshId(g, id) <==> FreshId(h, id)
  {
  }

  lemma SameDone(h: Handoff, g: Handoff)
    requires g.oldHandled == h.oldHandled && g.oldServer.stored == h.oldServer.stored
    requires g.oldServer.log == h.oldServer.log && g.oldServer.stop == h.oldServer.stop
    ensures Done(g) == Done(h)
  {
  }

  /** A packet that is published after the old server unsubscribed reaches neither server. */
  lemma GapLosesPacket(start: Server, p: ContentPacket) returns (actions: seq<Action>)
    requires Fresh(start) && start.stored == [] && FreshId(Init(start), p.packetId)
    ensures var h := Run(Init(start), actions);
            h.snapshot.Some? && h.snapshot.value.missed == [] && Gap(h) == [p] && !Complete(h)
  {
    hide Run, Complete, Next, FreshId, Conserved;
    RunNothing(Init(start));
    var h: Handoff;
    h, actions := ShutDown(start, Init(start), [], Some(p));
    HandoffConserves(start, actions);
    CompleteExactly(start, h);
  }

  lemma RunNothing(h: Handoff)
    ensures Run(h, []) == h
  {
  }

  /** A handoff without any loss that can be seen: the old server had logged a text chunk, which
      is saved and loaded, and the next server does not show it. */
  lemma HandoffIsSeen(start: Server, p: ContentPacket) returns (actions: seq<Action>)
    requires Fresh(start) && start.stored == [] && FreshId(Init(start), p.packetId)
    requires ParseContentChunk(p.data).offset == 0 && ParseContentChunk(p.data).text != ""
    ensures var h := Run(Init(start), actions);
            && Attended(Init(start), actions)
            && h.snapshot.Some? && h.snapshot.value.loaded == [p] && h.nextTaken == []
            && !Invisible(start, h)
  {
    hide Run, Complete, Next, Conserved, Attended, ParseContentChunk, Invisible, Covered, Replay;
    RunNothing(Init(start));
    var h, a := Then(start, Init(start), [], Publish(p));
    h, a := Then(start, h, a, OldReceive(0, true));
    OneIsLogged(start, p);
    h, actions := ShutDown(start, h, a, None);
    HandoffConserves(start, actions);
    CompleteExactly(start, h);
    HandoffCompleteExactly(start, actions);
    HandoffInvisibleExactly(start, actions);
    OneIsNotCovered(p);
  }

  lemma OneIsLogged(start: Server, p: ContentPacket)
    requires Fresh(start) && start.stored == [] && FreshId(Init(start), p.packetId)
    requires ParseContentChunk(p.data).offset == 0
    ensures var h := Next(Next(Init(start), Publish(p)), OldReceive(0, true));
            && h == Init(start).(published := [p], oldSeen := 1, oldHandled := [p], oldServer := h.oldServer)
            && h.oldServer.log == [p] && h.oldServer.stored == [] && h.oldServer.stop == Running
            && Loaded([] + Printed([p])) == [p]
  {
    hide ParseContentChunk, Loaded, Printed, Step, HandledNow;
    LoadedPrinted([p]);
    assert [] + Printed([p]) == Printed([p]);
    var published := Next(Init(start), Publish(p));
    assert published == Init(start).(published := [p], oldBuffer := [p], oldSeen := 1);
    OneStep(start, p);
    assert [] + [p] == [p] && [p][1..] == [];
  }

  lemma OneStep(s: Server, p: ContentPacket)
    requires Fresh(s) && p.packetId !in s.ids && ParseContentChunk(p.data).offset == 0
    ensures var t := Step(s, Receive(p, 0, true));
            t.log == [p] && t.stored == s.stored && t.stop == Running && HandledNow(s, Receive(p, 0, true)) == [p]
  {
    hide ParseContentChunk;
  }

  lemma OneIsNotCovered(p: ContentPacket)
    requires ParseContentChunk(p.data).offset == 0 && ParseContentChunk(p.data).text != ""
    ensures !Covered([p], [])
  {
    hide ParseContentChunk;
    var c := ParseContentChunk(p.data);
    assert ChunksOf([p]) == [c] && [c][1..] == [];
    assert PlayAll("", [c]).live == ProcessLiveChunk("", c).live == c.text;
    assert ChunksOf([]) == [];
  }
}
