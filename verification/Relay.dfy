/** A session that changes servers any number of times: each next server is itself shut down
    later (lifecycle/session.go:79-106, 120-187, 387-446).  The suspended-packet list of a
    handoff has expired when the next one begins.
 */
module Relay {
  import opened GoStrings
  import opened Chunk
  import opened Content
  import opened Transcription
  import opened Checkpoint
  import H = Handoff

  /** `legs` are the handoffs that are over, `start` is the state in which the serving server's
      loop began, `current` is its handoff, and `sent` is all that was ever published. */
  datatype Relay = Relay(legs: seq<H.Handoff>, start: Server, current: H.Handoff, sent: seq<ContentPacket>)

  datatype Action = Within(step: H.Action) | Promote

  function Init(start: Server): Relay {
    Relay([], start, H.Init(start), [])
  }

  /** The next server of a handoff, as the server that will be shut down. */
  function Promoted(h: H.Handoff): H.Handoff
    requires h.next.Some? && h.nextFrom <= |h.published|
  {
    var published := h.published[h.nextFrom..];
    H.Handoff(published, h.next.value, h.nextBuffer, |published|, h.nextTaken, H.Serving, None, None, 0, [], [], None)
  }

  /** A handoff is over once the next server has loaded the list and the old one is gone. */
  predicate Over(h: H.Handoff) {
    h.snapshot.Some? && h.next.Some? && h.nextFrom <= |h.published| && h.oldServer.stop.Suspended?
  }

  function Next(r: Relay, a: Action): Relay {
    match a
    case Promote =>
      if Over(r.current) then
        Relay(r.legs + [r.current], H.NextStarted(r.current), Promoted(r.current), r.sent)
      else r
    case Within(step) =>
      r.(current := H.Next(r.current, step),
         sent := if step.Publish? && H.FreshId(r.current, step.packet.packetId) then r.sent + [step.packet] else r.sent)
  }

  function Run(r: Relay, actions: seq<Action>): Relay
    decreases |actions|
  {
    if |actions| == 0 then r else Run(Next(r, actions[0]), actions[1..])
  }

  // ----- a promoted server keeps the invariant -----

  lemma {:induction false} NoZeros(packets: seq<ContentPacket>)
    requires forall k :: 0 <= k < |packets| ==> packets[k] != ZERO_PACKET
    ensures WithoutZeros(packets) == packets
  {
    if |packets| > 0 {
      NoZeros(packets[1..]);
    }
  }

  lemma PromotedIds(start: Server, h: H.Handoff)
    requires H.GoodIds(start, h.published) && H.Delivered(h) && H.SnapshotAccounts(start, h) && Over(h)
    ensures H.GoodIds(H.NextStarted(h), Promoted(h).published)
  {
    hide H.SnapshotAccounts, WithoutZeros, IdsOf;
    var published := Promoted(h).published;
    forall k | 0 <= k < |published| ensures published[k].packetId !in IdsOf(h.snapshot.value.loaded) {
      assert published[k] == h.published[h.nextFrom + k];
      if published[k].packetId in IdsOf(h.snapshot.value.loaded) {
        H.LoadedWasSeen(start, h, published[k].packetId);
      }
    }
  }

  lemma PromotedDelivers(start: Server, h: H.Handoff)
    requires H.GoodIds(start, h.published) && H.Delivered(h) && Over(h)
    ensures H.Delivered(Promoted(h))
  {
    hide WithoutZeros;
    var p := Promoted(h);
    forall k | 0 <= k < |h.nextTaken| ensures h.nextTaken[k] != ZERO_PACKET {
      assert h.nextTaken[k] == (h.nextTaken + h.nextBuffer)[k] == h.published[h.nextFrom + k];
    }
    NoZeros(h.nextTaken);
    assert p.published[..p.oldSeen] == p.published;
  }

  lemma PromotedAccounts(h: H.Handoff)
    requires H.NextAccounts(h) && Over(h)
    ensures H.OldAccounts(H.NextStarted(h), Promoted(h))
  {
    hide Checkpointed, Replay, NoNewline, ChunksOf, Loaded, IdsClean, IdsOf;
    var p, n := Promoted(h), h.next.value;
    assert n.stored == [] && Unsaved(n) == n.log;
    assert |H.Done(p)| == |h.nextTaken| - |n.log|;
  }

  lemma PromotedKeeps(start: Server, h: H.Handoff)
    requires H.Inv(start, h) && Over(h)
    ensures H.Inv(H.NextStarted(h), Promoted(h))
  {
    hide H.GoodIds, H.Delivered, H.OldAccounts, H.NextStarted;
    PromotedIds(start, h);
    PromotedDelivers(start, h);
    PromotedAccounts(h);
  }

  // ----- what the legs account for -----

  /** The packets of a leg that the next one has not got: checkpointed, loaded, missed, or
      published in the gap. */
  function LegPackets(h: H.Handoff): seq<ContentPacket> {
    if h.snapshot.None? then []
    else
      var s := h.snapshot.value;
      WithoutZeros(s.done) + WithoutZeros(s.loaded) + s.missed + H.Gap(h)
  }

  function AllPackets(legs: seq<H.Handoff>): seq<ContentPacket> {
    if |legs| == 0 then [] else AllPackets(legs[..|legs| - 1]) + LegPackets(legs[|legs| - 1])
  }

  /** The packets of a leg that are checkpointed or loaded. */
  function LegKept(h: H.Handoff): seq<ContentPacket> {
    if h.snapshot.None? then [] else WithoutZeros(h.snapshot.value.done) + WithoutZeros(h.snapshot.value.loaded)
  }

  function AllKept(legs: seq<H.Handoff>): seq<ContentPacket> {
    if |legs| == 0 then [] else AllKept(legs[..|legs| - 1]) + LegKept(legs[|legs| - 1])
  }

  /** The texts that the legs completed. */
  function AllTexts(legs: seq<H.Handoff>): seq<string> {
    if |legs| == 0 then []
    else AllTexts(legs[..|legs| - 1]) + LegTexts(legs[|legs| - 1])
  }

  function LegTexts(h: H.Handoff): seq<string> {
    if h.snapshot.None? then [] else TextsOf(Replay(h.snapshot.value.done).lines)
  }

  predicate AllNothingLost(legs: seq<H.Handoff>) {
    forall k :: 0 <= k < |legs| ==> H.NothingLost(legs[k])
  }

  /** A leg that is over: its gap is well formed, and what it checkpointed ends its line. */
  predicate LegOver(h: H.Handoff) {
    Over(h) && H.GapSize(h) >= 0 && Replay(h.snapshot.value.done).live == ""
  }

  predicate AllOver(legs: seq<H.Handoff>) {
    forall k :: 0 <= k < |legs| ==> LegOver(legs[k])
  }

  /** The invariant of a relay: that of the current handoff; all that was sent is in the legs
      or the current handoff; and the past text grew by what the legs completed. */
  predicate Inv(first: Server, r: Relay) {
    && H.Inv(r.start, r.current)
    && AllOver(r.legs)
    && r.sent == AllPackets(r.legs) + r.current.published
    && PastTexts(r.start.past) == PastTexts(first.past) + AllTexts(r.legs)
  }

  lemma PublishedGrows(h: H.Handoff, a: H.Action)
    ensures H.Next(h, a).published
            == if a.Publish? && H.FreshId(h, a.packet.packetId) then h.published + [a.packet] else h.published
  {
    hide H.FreshId, WithoutZeros, Step, HandledNow, Loaded, IdsOf;
  }

  lemma InvWithin(first: Server, r: Relay, step: H.Action)
    requires Inv(first, r)
    ensures Inv(first, Next(r, Within(step)))
  {
    hide H.Inv, H.Next, H.FreshId, AllPackets, AllTexts, PastTexts, Over, LegOver;
    H.InvStep(r.start, r.current, step);
    PublishedGrows(r.current, step);
    if step.Publish? {
      var sent, published := AllPackets(r.legs), r.current.published;
      assert sent + (published + [step.packet]) == sent + published + [step.packet];
    }
  }

  lemma SnocFolds(legs: seq<H.Handoff>, h: H.Handoff)
    ensures AllPackets(legs + [h]) == AllPackets(legs) + LegPackets(h)
    ensures AllKept(legs + [h]) == AllKept(legs) + LegKept(h)
    ensures AllTexts(legs + [h]) == AllTexts(legs) + LegTexts(h)
  {
    assert (legs + [h])[..|legs|] == legs;
  }

  /** What a leg that is over leaves to the next one. */
  lemma LegSplits(start: Server, h: H.Handoff)
    requires H.Conserved(start, h) && Over(h) && H.Delivered(h)
    ensures h.published == LegPackets(h) + Promoted(h).published
    ensures PastTexts(H.NextStarted(h).past) == PastTexts(start.past) + LegTexts(h)
    ensures LegOver(h)
  {
    hide WithoutZeros, Replay, PastTexts, TextsOf, IdsOf, H.Gap;
    var front := LegPackets(h);
    assert Promoted(h).published == h.nextTaken + h.nextBuffer;
    assert front + h.nextTaken + h.nextBuffer == front + (h.nextTaken + h.nextBuffer);
  }

  lemma InvPromote(first: Server, r: Relay)
    requires Inv(first, r) && Over(r.current)
    ensures Inv(first, Next(r, Promote))
  {
    hide H.Inv, AllPackets, AllTexts, AllKept, PastTexts, LegPackets, LegTexts, LegKept, Over, LegOver;
    hide H.NextStarted, Promoted, H.Conserved, H.Delivered;
    var h := r.current;
    assert h.snapshot.Some? by { OverParts(h); }
    H.Conserves(r.start, h);
    H.InvDelivers(r.start, h);
    LegSplits(r.start, h);
    PromotedKeeps(r.start, h);
    SnocFolds(r.legs, h);
    assert AllPackets(r.legs) + (LegPackets(h) + Promoted(h).published)
        == AllPackets(r.legs) + LegPackets(h) + Promoted(h).published;
    assert PastTexts(first.past) + AllTexts(r.legs) + LegTexts(h)
        == PastTexts(first.past) + (AllTexts(r.legs) + LegTexts(h));
  }

  lemma OverParts(h: H.Handoff)
    requires Over(h)
    ensures h.snapshot.Some? && h.next.Some? && h.nextFrom <= |h.published|
  {
  }

  lemma InvNext(first: Server, r: Relay, a: Action)
    requires Inv(first, r)
    ensures Inv(first, Next(r, a))
  {
    hide Inv;
    match a
    case Within(step) => InvWithin(first, r, step);
    case Promote =>
      if Over(r.current) {
        InvPromote(first, r);
      }
  }

  lemma {:induction false} InvRun(first: Server, r: Relay, actions: seq<Action>)
    requires Inv(first, r)
    ensures Inv(first, Run(r, actions))
    decreases |actions|
  {
    hide Inv, Next;
    if |actions| > 0 {
      InvNext(first, r, actions[0]);
      InvRun(first, Next(r, actions[0]), actions[1..]);
    }
  }

  lemma InitInv(first: Server)
    requires Fresh(first) && first.stored == []
    ensures Inv(first, Init(first))
  {
    hide H.Inv;
    H.InvInit(first);
    assert PastTexts(first.past) + [] == PastTexts(first.past);
  }

  lemma Reachable(first: Server, actions: seq<Action>)
    requires Fresh(first) && first.stored == []
    ensures Inv(first, Run(Init(first), actions))
  {
    hide Inv, Run;
    InitInv(first);
    InvRun(first, Init(first), actions);
  }

  // ----- the main results -----

  /** Conservation over any number of handoffs: all that was ever sent is, leg by leg and in
      order, checkpointed, loaded, missed or published in a gap, and the rest is with the
      current handoff.  A server that is not being shut down shows the past text that the
      legs completed, and then just what it received itself. */
  lemma RelayConserves(first: Server, actions: seq<Action>)
    requires Fresh(first) && first.stored == []
    ensures var r := Run(Init(first), actions);
            var h := r.current;
            && r.sent == AllPackets(r.legs) + h.published
            && (h.phase == H.Serving ==>
                  && h.published == WithoutZeros(h.oldHandled) + h.oldBuffer
                  && PastTexts(h.oldServer.past)
                     == PastTexts(first.past) + AllTexts(r.legs) + TextsOf(Replay(h.oldHandled).lines)
                  && h.oldServer.live == Replay(h.oldHandled).live)
  {
    hide Run, H.Inv, AllPackets, AllTexts, PastTexts, TextsOf, Replay, WithoutZeros, H.Conserved;
    Reachable(first, actions);
    var r := Run(Init(first), actions);
    if r.current.phase == H.Serving {
      ServingShows(r.start, r.current);
    }
  }

  lemma ServingShows(start: Server, h: H.Handoff)
    requires H.Inv(start, h) && h.phase == H.Serving
    ensures h.published == WithoutZeros(h.oldHandled) + h.oldBuffer
    ensures PastTexts(h.oldServer.past) == PastTexts(start.past) + TextsOf(Replay(h.oldHandled).lines)
    ensures h.oldServer.live == Replay(h.oldHandled).live
  {
    hide Accounts, PastTexts, TextsOf, Replay, WithoutZeros, H.Done, H.SnapshotAccounts, H.NextAccounts, H.GoodIds;
    H.NextDisplay(start, h.oldHandled, |H.Done(h)|, h.oldServer);
    assert h.published[..h.oldSeen] == h.published;
  }

  /** Every step of a relay loses nothing. */
  predicate Attended(r: Relay, actions: seq<Action>)
    decreases |actions|
  {
    |actions| > 0 ==>
      && (actions[0].Within? ==> H.Lossless(r.current, actions[0].step))
      && Attended(Next(r, actions[0]), actions[1..])
  }

  predicate RelayLostNothing(r: Relay) {
    AllNothingLost(r.legs) && H.NothingLost(r.current)
  }

  lemma PromotedLostNothing(h: H.Handoff)
    requires Over(h)
    ensures H.NothingLost(Promoted(h))
  {
  }

  lemma SnocLostNothing(legs: seq<H.Handoff>, h: H.Handoff)
    ensures AllNothingLost(legs + [h]) <==> AllNothingLost(legs) && H.NothingLost(h)
  {
    hide H.NothingLost;
    assert (legs + [h])[|legs|] == h;
    assert forall k :: 0 <= k < |legs| ==> (legs + [h])[k] == legs[k];
  }

  lemma RelayStepLoses(first: Server, r: Relay, a: Action)
    requires Inv(first, r)
    ensures RelayLostNothing(Next(r, a))
            <==> RelayLostNothing(r) && (a.Within? ==> H.Lossless(r.current, a.step))
  {
    hide H.Inv, H.NothingLost, H.Lossless, H.Next, H.FreshId, H.Delivered, H.NextStarted, AllNothingLost, Promoted;
    hide AllPackets, AllTexts, Over, LegOver;
    match a
    case Within(step) =>
      H.InvDelivers(r.start, r.current);
      H.StepLoses(r.current, step);
    case Promote =>
      if Over(r.current) {
        OverParts(r.current);
        PromotedLostNothing(r.current);
        SnocLostNothing(r.legs, r.current);
      }
  }

  lemma {:induction false} RelayLossExactly(first: Server, r: Relay, actions: seq<Action>)
    requires Inv(first, r)
    ensures RelayLostNothing(Run(r, actions)) <==> RelayLostNothing(r) && Attended(r, actions)
    decreases |actions|
  {
    hide Inv, Next, RelayLostNothing, H.Lossless;
    if |actions| > 0 {
      RelayStepLoses(first, r, actions[0]);
      InvNext(first, r, actions[0]);
      RelayLossExactly(first, Next(r, actions[0]), actions[1..]);
    }
  }

  lemma LegLostNothing(h: H.Handoff)
    requires LegOver(h)
    ensures |LegKept(h)| <= |LegPackets(h)|
    ensures LegKept(h) == LegPackets(h) <==> H.NothingLost(h)
    ensures |LegKept(h)| == |LegPackets(h)| <==> H.NothingLost(h)
  {
    hide WithoutZeros, Replay;
    var s := h.snapshot.value;
    assert LegPackets(h) == LegKept(h) + (s.missed + H.Gap(h));
    assert |LegPackets(h)| == |LegKept(h)| + |s.missed| + |H.Gap(h)|;
  }

  lemma {:induction false} LegsLostNothing(legs: seq<H.Handoff>)
    requires AllOver(legs)
    ensures |AllKept(legs)| <= |AllPackets(legs)|
    ensures AllKept(legs) == AllPackets(legs) <==> AllNothingLost(legs)
    ensures |AllKept(legs)| == |AllPackets(legs)| <==> AllNothingLost(legs)
  {
    hide LegOver, H.NothingLost, LegKept, LegPackets;
    if |legs| > 0 {
      var front, h := legs[..|legs| - 1], legs[|legs| - 1];
      LegsLostNothing(front);
      LegLostNothing(h);
      SnocLostNothing(front, h);
      assert legs == front + [h];
    }
  }

  /** Over any number of handoffs, all that was ever sent is in what the legs checkpointed or
      loaded, or with the current handoff, which has lost nothing yet, exactly if no packet
      is published in a gap and every load finds all. */
  lemma RelayCompleteExactly(first: Server, actions: seq<Action>)
    requires Fresh(first) && first.stored == []
    ensures var r := Run(Init(first), actions);
            r.sent == AllKept(r.legs) + r.current.published && H.NothingLost(r.current)
            <==> Attended(Init(first), actions)
  {
    hide Run, H.Inv, AllPackets, AllKept, AllTexts, PastTexts, Attended, H.NothingLost;
    Reachable(first, actions);
    var r := Run(Init(first), actions);
    LegsLostNothing(r.legs);
    SameBack(AllKept(r.legs), AllPackets(r.legs), r.current.published);
    InitInv(first);
    RelayLossExactly(first, Init(first), actions);
    assert RelayLostNothing(Init(first)) by { InitLostNothing(first); }
  }

  lemma InitLostNothing(first: Server)
    ensures RelayLostNothing(Init(first))
  {
  }

  // ----- what the servers do not show -----

  /** The live text that one server would have where the server after these legs has none. */
  function Carried(legs: seq<H.Handoff>): string {
    Replay(AllKept(legs)).live
  }

  /** A leg, begun with `carried` missing, hides nothing: what was missing is overwritten before
      the leg completes a line, and the packets that the next server loads complete none. */
  predicate LegCovered(carried: string, h: H.Handoff) {
    h.snapshot.Some?
    && var s := h.snapshot.value;
    && (NoNewline(ChunksOf(s.done)) || KeepsAlike(carried, "", ChunksOf(s.done)))
    && Replay(s.loaded).lines == []
  }

  predicate LegsCovered(legs: seq<H.Handoff>) {
    |legs| > 0 ==>
      LegsCovered(legs[..|legs| - 1]) && LegCovered(Carried(legs[..|legs| - 1]), legs[|legs| - 1])
  }

  /** What one server would complete during a leg. */
  lemma LegPlays(carried: string, h: H.Handoff)
    requires LegOver(h)
    ensures var p := PlayAll(carried, ChunksOf(LegKept(h)));
            && |LegTexts(h)| <= |TextsOf(p.lines)|
            && (TextsOf(p.lines) == LegTexts(h) <==> LegCovered(carried, h))
  {
    hide PlayAll, ChunksOf, TextsOf, KeepsAlike, WithoutZeros;
    var s := h.snapshot.value;
    var d, l := ChunksOf(WithoutZeros(s.done)), ChunksOf(WithoutZeros(s.loaded));
    var first := PlayAll(carried, d);
    ChunksOfAppend(WithoutZeros(s.done), WithoutZeros(s.loaded));
    PlayAllAppend(carried, d, l);
    ZeroPacketsHarmless(carried, s.done);
    ZeroPacketsHarmless(first.live, s.loaded);
    var rest := PlayAll(first.live, l);
    TextsOfAppend(first.lines, rest.lines);
    PlaysAlikeExactly(carried, "", ChunksOf(s.done));
    PlaysAlikeExactly(first.live, "", ChunksOf(s.loaded));
    assert |TextsOf(first.lines) + TextsOf(rest.lines)| == |TextsOf(first.lines)| + |TextsOf(rest.lines)|;
    assert TextsOf(first.lines) + [] == TextsOf(first.lines);
  }

  /** Texts of equal or greater length, one after the other. */
  lemma SamePieces(a: seq<string>, b: seq<string>, c: seq<string>, d: seq<string>)
    requires |a| >= |c| && |b| >= |d|
    ensures a + b == c + d <==> a == c && b == d
  {
    if a + b == c + d {
      assert |a + b| == |a| + |b| && |c + d| == |c| + |d|;
      assert a == (a + b)[..|a|] && c == (c + d)[..|c|] && b == (a + b)[|a|..] && d == (c + d)[|c|..];
    }
  }

  lemma NothingReplays()
    ensures Replay([]) == Played([], "") && TextsOf([]) == []
  {
  }

  lemma {:induction false} LegsPlay(legs: seq<H.Handoff>)
    requires AllOver(legs)
    ensures var texts := TextsOf(Replay(AllKept(legs)).lines);
            |AllTexts(legs)| <= |texts| && (texts == AllTexts(legs) <==> LegsCovered(legs))
  {
    hide Replay, TextsOf, LegOver, LegCovered, LegKept, LegTexts, PlayAll, ChunksOf;
    if |legs| == 0 {
      NothingReplays();
    } else {
      var front, h := legs[..|legs| - 1], legs[|legs| - 1];
      LegsPlay(front);
      LegPlays(Carried(front), h);
      H.ReplayTexts(AllKept(front), LegKept(h));
      SamePieces(TextsOf(Replay(AllKept(front)).lines),
                 TextsOf(PlayAll(Carried(front), ChunksOf(LegKept(h))).lines), AllTexts(front), LegTexts(h));
    }
  }

  /** The serving server shows what one server would that played everything ever sent, up to
      what is still in the serving server's channel. */
  predicate Invisible(first: Server, r: Relay) {
    && |r.current.oldBuffer| <= |r.sent|
    && var server, received := r.current.oldServer, r.sent[..|r.sent| - |r.current.oldBuffer|];
    && PastTexts(server.past) == PastTexts(first.past) + TextsOf(Replay(received).lines)
    && server.live == Replay(received).live
  }

  /** Any number of handoffs in which nothing is lost is invisible exactly while each leg, and
      what the serving server received, cover what the servers before loaded or left. */
  lemma RelayInvisibleExactly(first: Server, actions: seq<Action>)
    requires Fresh(first) && first.stored == [] && Attended(Init(first), actions)
    requires Run(Init(first), actions).current.phase == H.Serving
    ensures var r := Run(Init(first), actions);
            Invisible(first, r) <==>
            LegsCovered(r.legs) && KeepsAlike(Carried(r.legs), "", ChunksOf(r.current.oldHandled))
  {
    hide Run, H.Inv, AllPackets, AllKept, AllTexts, PastTexts, TextsOf, Attended, H.NothingLost, Replay, WithoutZeros;
    hide LegsCovered, KeepsAlike, Carried;
    Reachable(first, actions);
    RelayConserves(first, actions);
    RelayCompleteExactly(first, actions);
    var r := Run(Init(first), actions);
    LegsPlay(r.legs);
    var h, kept := r.current, AllKept(r.legs) + WithoutZeros(r.current.oldHandled);
    assert r.sent == kept + h.oldBuffer;
    assert r.sent[..|r.sent| - |h.oldBuffer|] == kept;
    ServedIsCovered(r.legs, h.oldHandled);
    var own := TextsOf(Replay(h.oldHandled).lines);
    assert PastTexts(first.past) + AllTexts(r.legs) + own == PastTexts(first.past) + (AllTexts(r.legs) + own);
    SameFront(PastTexts(first.past), AllTexts(r.legs) + own, TextsOf(Replay(kept).lines));
  }

  lemma ServedIsCovered(legs: seq<H.Handoff>, handled: seq<ContentPacket>)
    requires AllOver(legs)
    ensures var all, own := Replay(AllKept(legs) + WithoutZeros(handled)), Replay(handled);
            AllTexts(legs) + TextsOf(own.lines) == TextsOf(all.lines) && own.live == all.live
            <==> LegsCovered(legs) && KeepsAlike(Carried(legs), "", ChunksOf(handled))
  {
    hide LegOver, LegsCovered, KeepsAlike, AllKept, AllTexts, TextsOf, PlayAll, ChunksOf, WithoutZeros;
    var carried := Carried(legs);
    H.ReplayTexts(AllKept(legs), WithoutZeros(handled));
    ZeroPacketsHarmless(carried, handled);
    LegsPlay(legs);
    PlaysAlikeExactly(carried, "", ChunksOf(handled));
    SamePieces(TextsOf(Replay(AllKept(legs)).lines), TextsOf(PlayAll(carried, ChunksOf(handled)).lines),
               AllTexts(legs), TextsOf(Replay(handled).lines));
  }
}
