/** What a session's saved past text and its suspended-packet list add up to, over every
    run of the transcription loop: lifecycle/session.go:387-458.
 */
module Checkpoint {
  import opened GoStrings
  import opened Chunk
  import opened Content
  import opened Transcription

  // ----- which packets the loop lets through -----

  /** The packets that pass a window of `window` checks against the loaded ids. */
  function PassedOn(window: nat, ids: set<string>, packets: seq<ContentPacket>): seq<ContentPacket>
    decreases |packets|
  {
    if |packets| == 0 then []
    else
      (if window > 0 && packets[0].packetId in ids then [] else [packets[0]])
      + PassedOn(if window > 0 then window - 1 else 0, ids, packets[1..])
  }

  function WindowAfter(window: nat, n: nat): nat {
    if n <= window then window - n else 0
  }

  lemma {:induction false} PassedOnAppend(window: nat, ids: set<string>, a: seq<ContentPacket>, b: seq<ContentPacket>)
    ensures PassedOn(window, ids, a + b) == PassedOn(window, ids, a) + PassedOn(WindowAfter(window, |a|), ids, b)
    decreases |a|
  {
    if |a| == 0 {
      assert a + b == b;
    } else {
      var w := if window > 0 then window - 1 else 0;
      var head := if window > 0 && a[0].packetId in ids then [] else [a[0]];
      var front, back := PassedOn(w, ids, a[1..]), PassedOn(WindowAfter(window, |a|), ids, b);
      assert (a + b)[0] == a[0] && (a + b)[1..] == a[1..] + b;
      PassedOnAppend(w, ids, a[1..], b);
      assert PassedOn(window, ids, a + b) == head + PassedOn(w, ids, a[1..] + b);
      assert head + (front + back) == head + front + back;
    }
  }

  /** No packet within the window has a loaded id. */
  predicate WindowClear(window: nat, ids: set<string>, packets: seq<ContentPacket>) {
    forall k :: 0 <= k < window && k < |packets| ==> packets[k].packetId !in ids
  }

  /** At most `window` packets are dropped, and all pass exactly when the window is clear. */
  lemma {:induction false} PassedOnAll(window: nat, ids: set<string>, packets: seq<ContentPacket>)
    ensures |packets| - window <= |PassedOn(window, ids, packets)| <= |packets|
    ensures PassedOn(window, ids, packets) == packets <==> WindowClear(window, ids, packets)
    decreases |packets|
  {
    if |packets| > 0 {
      var w := if window > 0 then window - 1 else 0;
      var rest := PassedOn(w, ids, packets[1..]);
      PassedOnAll(w, ids, packets[1..]);
      assert packets == [packets[0]] + packets[1..];
      assert WindowClear(window, ids, packets) <==>
             (window > 0 ==> packets[0].packetId !in ids) && WindowClear(w, ids, packets[1..]) by {
        assert forall k :: 1 <= k < |packets| ==> packets[k] == packets[1..][k - 1];
        assert WindowClear(window, ids, packets) ==>
                 forall k :: 0 <= k < w && k < |packets[1..]| ==> packets[1..][k] == packets[k + 1];
      }
    }
  }

  /** The packets whose id was not loaded. */
  function New(ids: set<string>, packets: seq<ContentPacket>): seq<ContentPacket> {
    if |packets| == 0 then []
    else (if packets[0].packetId in ids then [] else [packets[0]]) + New(ids, packets[1..])
  }

  /** What is dropped has a loaded id: no other packet is missing from what passes. */
  lemma {:induction false} NewSurvives(window: nat, ids: set<string>, packets: seq<ContentPacket>)
    ensures New(ids, PassedOn(window, ids, packets)) == New(ids, packets)
    decreases |packets|
  {
    if |packets| > 0 {
      var w := if window > 0 then window - 1 else 0;
      var rest := PassedOn(w, ids, packets[1..]);
      NewSurvives(w, ids, packets[1..]);
      assert ([packets[0]] + rest)[1..] == rest;
      assert [] + rest == rest && [] + New(ids, rest) == New(ids, rest);
    }
  }

  predicate NoneLoaded(ids: set<string>, packets: seq<ContentPacket>) {
    forall k :: 0 <= k < |packets| ==> packets[k].packetId !in ids
  }

  lemma {:induction false} NewAll(ids: set<string>, packets: seq<ContentPacket>)
    ensures |New(ids, packets)| <= |packets|
    ensures New(ids, packets) == packets <==> NoneLoaded(ids, packets)
  {
    if |packets| > 0 {
      NewAll(ids, packets[1..]);
      assert packets == [packets[0]] + packets[1..];
      assert NoneLoaded(ids, packets) <==> packets[0].packetId !in ids && NoneLoaded(ids, packets[1..]) by {
        assert forall k :: 1 <= k < |packets| ==> packets[k] == packets[1..][k - 1];
      }
    }
  }

  /** The packets that come after the window. */
  function Beyond(window: nat, packets: seq<ContentPacket>): seq<ContentPacket> {
    if window < |packets| then packets[window..] else []
  }

  /** The window filters perfectly, dropping every re-delivered packet and no other,
      exactly when no packet after the window is a re-delivery. */
  lemma {:induction false} WindowFiltersExactly(window: nat, ids: set<string>, packets: seq<ContentPacket>)
    ensures PassedOn(window, ids, packets) == New(ids, packets) <==> NoneLoaded(ids, Beyond(window, packets))
    decreases |packets|
  {
    if |packets| == 0 {
    } else if window == 0 {
      PassedOnAll(0, ids, packets);
      NewAll(ids, packets);
      assert Beyond(0, packets) == packets;
    } else {
      var head := if packets[0].packetId in ids then [] else [packets[0]];
      WindowFiltersExactly(window - 1, ids, packets[1..]);
      assert Beyond(window, packets) == Beyond(window - 1, packets[1..]);
      SameFront(head, PassedOn(window - 1, ids, packets[1..]), New(ids, packets[1..]));
      assert PassedOn(window, ids, packets) == head + PassedOn(window - 1, ids, packets[1..]);
      assert New(ids, packets) == head + New(ids, packets[1..]);
    }
  }

  lemma {:induction false} DistinctIdsFit(packets: seq<ContentPacket>, ids: set<string>)
    requires forall k :: 0 <= k < |packets| ==> packets[k].packetId in ids
    requires forall j, k :: 0 <= j < k < |packets| ==> packets[j].packetId != packets[k].packetId
    ensures |packets| <= |ids|
    decreases |packets|
  {
    if |packets| > 0 {
      var last := packets[|packets| - 1].packetId;
      DistinctIdsFit(packets[..|packets| - 1], ids - {last});
    }
  }

  /** Exactly once across the overlap: when the re-delivered packets have distinct ids and
      come first, the loop passes on the rest, in order, and nothing else. */
  lemma ExactlyOnce(loaded: seq<ContentPacket>, overlap: seq<ContentPacket>, rest: seq<ContentPacket>)
    requires forall k :: 0 <= k < |overlap| ==> overlap[k].packetId in IdsOf(loaded)
    requires forall j, k :: 0 <= j < k < |overlap| ==> overlap[j].packetId != overlap[k].packetId
    requires NoneLoaded(IdsOf(loaded), rest)
    ensures PassedOn(|IdsOf(loaded)|, IdsOf(loaded), overlap + rest) == rest
  {
    var ids := IdsOf(loaded);
    DistinctIdsFit(overlap, ids);
    PassedOnAppend(|ids|, ids, overlap, rest);
    OverlapDropped(|ids|, ids, overlap);
    PassedOnAll(WindowAfter(|ids|, |overlap|), ids, rest);
  }

  lemma {:induction false} OverlapDropped(window: nat, ids: set<string>, overlap: seq<ContentPacket>)
    requires |overlap| <= window
    requires forall k :: 0 <= k < |overlap| ==> overlap[k].packetId in ids
    ensures PassedOn(window, ids, overlap) == []
    decreases |overlap|
  {
    if |overlap| > 0 {
      OverlapDropped(window - 1, ids, overlap[1..]);
    }
  }

  // ----- the packets a run accounts for -----

  function Received(e: Event): seq<ContentPacket> {
    if e.Receive? then [e.packet] else []
  }

  /** The packets received before the shutdown, or the cancellation, begins. */
  function Before(events: seq<Event>): seq<ContentPacket> {
    if |events| == 0 || !events[0].Receive? then [] else [events[0].packet] + Before(events[1..])
  }

  function UntilCancel(events: seq<Event>): seq<ContentPacket> {
    if |events| == 0 || events[0].Cancel? then [] else Received(events[0]) + UntilCancel(events[1..])
  }

  /** The packets received between the start of the shutdown and the cancellation. */
  function After(events: seq<Event>): seq<ContentPacket> {
    if |events| == 0 || events[0].Cancel? then []
    else if events[0].BeginShutdown? then UntilCancel(events[1..])
    else After(events[1..])
  }

  /** The packets that the loop transcribes or puts in the log. */
  function Handled(s: Server, events: seq<Event>): seq<ContentPacket> {
    PassedOn(s.window, s.ids, Before(events)) + After(events)
  }

  /** The packet of one step, if the loop transcribes it or puts it in the log. */
  function HandledNow(s: Server, e: Event): seq<ContentPacket> {
    if s.stop != Running || !e.Receive? then []
    else if !s.shuttingDown && s.window > 0 && e.packet.packetId in s.ids then []
    else [e.packet]
  }

  /** The packets still to be handled, from any state. */
  function ToHandle(s: Server, events: seq<Event>): seq<ContentPacket> {
    if s.stop != Running then []
    else if s.shuttingDown then UntilCancel(events)
    else Handled(s, events)
  }

  lemma TranscribeOneFrame(s: Server, p: ContentPacket, now: int)
    ensures var t := TranscribeOne(s, p, now);
            && t.stop == s.stop && t.shuttingDown == s.shuttingDown && t.stored == s.stored
            && t.window == s.window && t.ids == s.ids
  {
  }

  lemma ToHandleNothing(s: Server)
    ensures ToHandle(s, []) == []
  {
  }

  lemma ToHandleStep(s: Server, events: seq<Event>)
    requires |events| > 0
    ensures ToHandle(s, events) == HandledNow(s, events[0]) + ToHandle(Step(s, events[0]), events[1..])
  {
    hide TranscribeOne, Printed;
    var e := events[0];
    if s.stop == Running && e.Receive? && !s.shuttingDown {
      hide PassedOn;
      var w := if s.window > 0 then s.window - 1 else 0;
      TranscribeOneFrame(s.(window := w), e.packet, e.now);
      PassedOnStep(s.window, s.ids, events);
      var now, rest := HandledNow(s, e), PassedOn(w, s.ids, Before(events[1..]));
      assert now + (rest + After(events[1..])) == now + rest + After(events[1..]);
    }
  }

  // ----- the invariant -----

  /** What is not in the suspended-packet list. */
  function Unsaved(s: Server): seq<ContentPacket> {
    if s.stop == Suspended(true) then [] else s.log
  }

  /** A server whose loop is about to start.  The list may still hold what the server before
      it saved, and this one has loaded. */
  predicate Fresh(s: Server) {
    s.log == [] && s.live == "" && !s.shuttingDown && s.stop == Running
  }

  predicate CleanEvents(events: seq<Event>) {
    forall k :: 0 <= k < |events| && events[k].Receive? ==> Free(events[k].packet.packetId, '|')
  }

  /** The past text (and what was spoken) is what `played` completes, and no live text is
      left over: the packets played are fully checkpointed. */
  predicate Checkpointed(start: Server, played: Played, s: Server) {
    && played.live == ""
    && PastTexts(s.past) == PastTexts(start.past) + TextsOf(played.lines)
    && s.spoken == start.spoken + played.lines
  }

  /** While nothing is suspended, the log is what has to be replayed to get the live text. */
  predicate LogIsLive(s: Server) {
    s.stored == [] && NoNewline(ChunksOf(s.log)) && s.live == Replay(s.log).live
  }

  /** Of the packets handled, the first `m` are checkpointed, and the others are, in order,
      those in the suspended-packet list followed by those not yet saved. */
  predicate Accounts(start: Server, handled: seq<ContentPacket>, m: nat, s: Server) {
    && m <= |handled|
    && Checkpointed(start, Replay(handled[..m]), s)
    && handled[m..] == Loaded(s.stored) + Unsaved(s)
    && IdsClean(s.log)
    && (!s.shuttingDown ==> LogIsLive(s))
    && (s.stop.Suspended? ==> s.shuttingDown)
  }

  lemma ReplayAppend(a: seq<ContentPacket>, b: seq<ContentPacket>)
    ensures var pb := PlayAll(Replay(a).live, ChunksOf(b));
            Replay(a + b) == Played(Replay(a).lines + pb.lines, pb.live)
  {
    hide ParseContentChunk, ParseContentPacket;
    ChunksOfAppend(a, b);
    PlayAllAppend("", ChunksOf(a), ChunksOf(b));
  }

  lemma ReplaySnoc(a: seq<ContentPacket>, p: ContentPacket)
    ensures var r := ProcessLiveChunk(Replay(a).live, ParseContentChunk(p.data));
            Replay(a + [p]) == Played(Replay(a).lines + Lines(r.past), r.live)
  {
    hide ParseContentChunk, ParseContentPacket;
    ChunksOfAppend(a, [p]);
    assert ChunksOf([p]) == [ParseContentChunk(p.data)];
    PlayAllSnoc("", ChunksOf(a), ParseContentChunk(p.data));
  }

  lemma PastTextsSnoc(past: seq<PastTextLine>, line: PastTextLine)
    ensures PastTexts(past + [line]) == PastTexts(past) + [line.text]
  {
  }

  lemma ReplayNewline(done: seq<ContentPacket>, log: seq<ContentPacket>, p: ContentPacket)
    requires Replay(done).live == "" && NoNewline(ChunksOf(log))
    requires ParseContentChunk(p.data).offset == CO_NEWLINE
    ensures var line := Line(ParseContentChunk(p.data).text, Replay(log).live);
            Replay(done + log + [p]) == Played(Replay(done).lines + [line], "")
  {
    hide ParseContentChunk, ParseContentPacket;
    NoNewlineNoLines("", ChunksOf(log));
    ReplayAppend(done, log);
    ReplaySnoc(done + log, p);
    assert Replay(done).lines + [] == Replay(done).lines;
  }

  lemma CheckpointLine(start: Server, played: Played, s: Server, line: Line, now: int)
    requires Checkpointed(start, played, s)
    ensures Checkpointed(start, Played(played.lines + [line], ""),
                         s.(past := s.past + [PastTextLine(now, line.text)], spoken := s.spoken + [line]))
  {
    hide ParseContentChunk, ParseContentPacket, Replay;
    TextsOfAppend(played.lines, [line]);
    assert TextsOf([line]) == [line.text] by { assert [line][1..] == []; }
    PastTextsSnoc(s.past, PastTextLine(now, line.text));
  }

  /** Transcribing a newline moves the checkpoint past it and empties the log. */
  lemma NewlineCheckpoints(start: Server, done: seq<ContentPacket>, s: Server, p: ContentPacket, now: int)
    requires Checkpointed(start, Replay(done), s) && LogIsLive(s)
    requires ParseContentChunk(p.data).offset == CO_NEWLINE
    ensures var t := TranscribeOne(s, p, now);
            && Checkpointed(start, Replay(done + s.log + [p]), t)
            && t.log == [] && t.live == ""
            && t.stored == s.stored && t.stop == s.stop && t.shuttingDown == s.shuttingDown
  {
    hide ParseContentChunk, ParseContentPacket, Replay;
    ReplayNewline(done, s.log, p);
    CheckpointLine(start, Replay(done), s, Line(ParseContentChunk(p.data).text, s.live), now);
  }

  /** Any other chunk extends the log and leaves the checkpoint where it is. */
  lemma OtherChunkIsLogged(s: Server, p: ContentPacket, now: int)
    requires LogIsLive(s)
    requires ParseContentChunk(p.data).offset != CO_NEWLINE
    ensures TranscribeOne(s, p, now) == s.(log := s.log + [p], live := Replay(s.log + [p]).live)
    ensures NoNewline(ChunksOf(s.log + [p]))
  {
    hide ParseContentChunk, ParseContentPacket;
    ReplaySnoc(s.log, p);
    ChunksOfAppend(s.log, [p]);
    assert ChunksOf([p]) == [ParseContentChunk(p.data)];
  }

  lemma LogEndsClean(log: seq<ContentPacket>, p: ContentPacket)
    requires IdsClean(log) && Free(p.packetId, '|')
    ensures IdsClean(log + [p])
  {
  }

  lemma EmptyLoaded(s: Server)
    ensures s.stored == [] ==> Loaded(s.stored) == []
    ensures IdsClean([])
  {
  }

  lemma EmptyLogIsLive(s: Server)
    requires s.log == [] && s.live == "" && s.stored == []
    ensures LogIsLive(s)
  {
  }

  lemma AccountsNewline(start: Server, handled: seq<ContentPacket>, m: nat, s: Server, p: ContentPacket, now: int)
    requires Accounts(start, handled, m, s) && !s.shuttingDown && s.stop == Running
    requires ParseContentChunk(p.data).offset == CO_NEWLINE
    ensures Accounts(start, handled + [p], |handled| + 1, TranscribeOne(s, p, now))
  {
    hide ParseContentChunk, ParseContentPacket, TranscribeOne, Replay, NoNewline, Checkpointed, ChunksOf;
    hide Loaded, IdsClean;
    EmptyLoaded(s);
    var t := TranscribeOne(s, p, now);
    NewlineCheckpoints(start, handled[..m], s, p, now);
    assert (handled + [p])[..|handled| + 1] == handled[..m] + s.log + [p] by {
      assert handled == handled[..m] + handled[m..];
    }
    EmptyLogIsLive(t);
    assert (handled + [p])[|handled| + 1..] == Loaded(t.stored) + Unsaved(t);
  }

  lemma AccountsOther(start: Server, handled: seq<ContentPacket>, m: nat, s: Server, p: ContentPacket, now: int)
    requires Accounts(start, handled, m, s) && !s.shuttingDown && s.stop == Running
    requires ParseContentChunk(p.data).offset != CO_NEWLINE && Free(p.packetId, '|')
    ensures Accounts(start, handled + [p], m, TranscribeOne(s, p, now))
  {
    hide ParseContentChunk, ParseContentPacket, TranscribeOne;
    var t := TranscribeOne(s, p, now);
    OtherChunkIsLogged(s, p, now);
    LogEndsClean(s.log, p);
    assert (handled + [p])[..m] == handled[..m];
    assert (handled + [p])[m..] == Loaded(t.stored) + Unsaved(t);
  }

  /** A packet that arrives during the shutdown is saved with the log, or stays in it. */
  lemma AccountsShutdown(start: Server, handled: seq<ContentPacket>, m: nat, s: Server, e: Event)
    requires Accounts(start, handled, m, s) && s.shuttingDown && s.stop == Running
    requires e.Receive? && Free(e.packet.packetId, '|')
    ensures Accounts(start, handled + [e.packet], m, Step(s, e))
  {
    hide ParseContentChunk, ParseContentPacket, TranscribeOne, Replay;
    var p := e.packet;
    LogEndsClean(s.log, p);
    LoadedAfterSave(s.stored, s.log + [p]);
    assert (handled + [p])[..m] == handled[..m];
    assert (handled + [p])[m..] == Loaded(s.stored) + (s.log + [p]);
  }

  /** Steps that handle no packet: a dropped packet, the start of the shutdown, the end. */
  lemma AccountsQuiet(start: Server, handled: seq<ContentPacket>, m: nat, s: Server, e: Event)
    requires Accounts(start, handled, m, s) && HandledNow(s, e) == []
    ensures Accounts(start, handled, m, Step(s, e))
  {
    hide ParseContentChunk, ParseContentPacket, TranscribeOne, Replay, PastTexts, TextsOf;
    LoadedAfterSave(s.stored, s.log);
    assert Loaded(s.stored) + s.log + [] == Loaded(s.stored) + s.log;
  }

  lemma AccountsStep(start: Server, handled: seq<ContentPacket>, m: nat, s: Server, e: Event) returns (m': nat)
    requires Accounts(start, handled, m, s)
    requires e.Receive? ==> Free(e.packet.packetId, '|')
    ensures Accounts(start, handled + HandledNow(s, e), m', Step(s, e))
  {
    hide Accounts, Replay, ParseContentChunk, TranscribeOne;
    m' := m;
    if HandledNow(s, e) == [] {
      AccountsQuiet(start, handled, m, s, e);
      assert handled + [] == handled;
    } else if s.shuttingDown {
      AccountsShutdown(start, handled, m, s, e);
    } else {
      var t := s.(window := if s.window > 0 then s.window - 1 else 0);
      AccountsWindow(start, handled, m, s, t.window);
      if ParseContentChunk(e.packet.data).offset == CO_NEWLINE {
        AccountsNewline(start, handled, m, t, e.packet, e.now);
        m' := |handled| + 1;
      } else {
        AccountsOther(start, handled, m, t, e.packet, e.now);
      }
    }
  }

  lemma AccountsWindow(start: Server, handled: seq<ContentPacket>, m: nat, s: Server, window: nat)
    requires Accounts(start, handled, m, s)
    ensures Accounts(start, handled, m, s.(window := window))
  {
  }

  lemma CleanEventsTail(events: seq<Event>)
    requires |events| > 0 && CleanEvents(events)
    ensures events[0].Receive? ==> Free(events[0].packet.packetId, '|')
    ensures CleanEvents(events[1..])
  {
    assert forall k :: 0 <= k < |events[1..]| ==> events[1..][k] == events[k + 1];
  }

  lemma {:induction false} AccountsRun(start: Server, handled: seq<ContentPacket>, m: nat, s: Server,
                                       events: seq<Event>)
    returns (m': nat)
    requires Accounts(start, handled, m, s) && CleanEvents(events)
    ensures Accounts(start, handled + ToHandle(s, events), m', Run(s, events))
    decreases |events|
  {
    hide Accounts, Step, HandledNow, CleanEvents;
    if |events| == 0 {
      m' := m;
      ToHandleNothing(s);
      assert handled + [] == handled && events == [];
    } else {
      var e, now := events[0], HandledNow(s, events[0]);
      CleanEventsTail(events);
      var m1 := AccountsStep(start, handled, m, s, e);
      m' := AccountsRun(start, handled + now, m1, Step(s, e), events[1..]);
      ToHandleStep(s, events);
      assert handled + (now + ToHandle(Step(s, e), events[1..])) == handled + now + ToHandle(Step(s, e), events[1..]);
    }
  }

  lemma AccountsStart(s: Server)
    requires Fresh(s) && s.stored == []
    ensures Accounts(s, [], 0, s)
  {
    hide ParseContentChunk, ParseContentPacket;
    assert Replay([]) == Played([], "");
    assert PastTexts(s.past) + [] == PastTexts(s.past) && s.spoken + [] == s.spoken;
  }

  // ----- a list that is not empty -----

  /** What is in the list plays no part in a run, which only adds to it: so it makes no
      difference whether, or when, what was loaded from it expires. */
  lemma {:induction false} RunAddsToList(s: Server, list: seq<string>, events: seq<Event>)
    ensures var t := Run(s, events);
            Run(s.(stored := list + s.stored), events) == t.(stored := list + t.stored)
    decreases |events|
  {
    hide TranscribeOne, Printed;
    if |events| > 0 {
      StepAddsToList(s, list, events[0]);
      RunAddsToList(Step(s, events[0]), list, events[1..]);
    }
  }

  lemma StepAddsToList(s: Server, list: seq<string>, e: Event)
    ensures var t := Step(s, e);
            Step(s.(stored := list + s.stored), e) == t.(stored := list + t.stored)
  {
    hide Printed, ParseContentChunk, ProcessLiveChunk;
    var added := Printed(if e.Receive? then s.log + [e.packet] else s.log);
    assert list + (s.stored + added) == list + s.stored + added;
  }

  /** The state `r` of a run from `s`, with just what the run itself added to the list. */
  function Own(s: Server, r: Server): Server {
    if s.stored <= r.stored then r.(stored := r.stored[|s.stored|..]) else r
  }

  lemma OwnIs(s: Server, events: seq<Event>)
    ensures s.stored <= Run(s, events).stored
    ensures Own(s, Run(s, events)) == Run(s.(stored := []), events)
  {
    hide Run;
    RunAddsToList(s.(stored := []), s.stored, events);
    assert s.stored + [] == s.stored;
  }

  /** From a fresh start, every run accounts for all the packets it handles. */
  lemma RunAccounts(s: Server, events: seq<Event>) returns (m: nat)
    requires Fresh(s) && CleanEvents(events)
    ensures Accounts(s, Handled(s, events), m, Own(s, Run(s, events)))
  {
    hide Accounts, Run, CleanEvents, Handled, Own;
    var t := s.(stored := []);
    AccountsStart(t);
    m := AccountsRun(t, [], 0, t, events);
    OwnIs(s, events);
    HandledAlike(s, events);
    assert [] + Handled(s, events) == Handled(s, events);
    AccountsAlike(s, Handled(s, events), m, Own(s, Run(s, events)));
  }

  lemma HandledAlike(s: Server, events: seq<Event>)
    ensures Handled(s.(stored := []), events) == Handled(s, events)
    ensures ToHandle(s.(stored := []), events) == ToHandle(s, events)
  {
  }

  lemma AccountsAlike(s: Server, handled: seq<ContentPacket>, m: nat, r: Server)
    ensures Accounts(s.(stored := []), handled, m, r) <==> Accounts(s, handled, m, r)
  {
    hide Replay, Loaded, Unsaved, LogIsLive, IdsClean;
  }

  // ----- the main results -----

  /** Until a shutdown begins, the log has no newline and replays to exactly the live text,
      and past text, speech and live text are those of playing all packets passed on. */
  lemma ReplayLog(s: Server, events: seq<Event>)
    requires Fresh(s) && CleanEvents(events) && !Run(s, events).shuttingDown
    ensures var r, played := Run(s, events), Replay(PassedOn(s.window, s.ids, Before(events)));
            && NoNewline(ChunksOf(r.log))
            && Replay(r.log) == Played([], r.live)
            && PastTexts(r.past) == PastTexts(s.past) + TextsOf(played.lines)
            && r.spoken == s.spoken + played.lines
            && r.live == played.live
  {
    hide ParseContentChunk, ParseContentPacket, Run;
    var r := Run(s, events);
    var m := RunAccounts(s, events);
    var handled := Handled(s, events);
    NoShutdownNoAfter(s, events);
    assert handled == PassedOn(s.window, s.ids, Before(events));
    assert handled == handled[..m] + handled[m..];
    assert handled[m..] == r.log;
    ReplayAppend(handled[..m], r.log);
    NoNewlineNoLines("", ChunksOf(r.log));
    assert Replay(handled[..m]).lines + [] == Replay(handled[..m]).lines;
  }

  lemma PlayFirst(live: string, p: ContentPacket, rest: seq<ContentPacket>)
    ensures var r := ProcessLiveChunk(live, ParseContentChunk(p.data));
            PlayAll(live, ChunksOf([p] + rest)).lines == Lines(r.past) + PlayAll(r.live, ChunksOf(rest)).lines
  {
    hide ParseContentChunk, ProcessLiveChunk;
    assert ChunksOf([p] + rest)[0] == ParseContentChunk(p.data) && ChunksOf([p] + rest)[1..] == ChunksOf(rest);
  }

  lemma TranscribedOne(s: Server, p: ContentPacket, now: int)
    ensures var t, r := TranscribeOne(s, p, now), ProcessLiveChunk(s.live, ParseContentChunk(p.data));
            && t.live == r.live && t.spoken == s.spoken + Lines(r.past)
            && PastTexts(t.past) == PastTexts(s.past) + TextsOf(Lines(r.past))
  {
    hide ParseContentChunk, ProcessLiveChunk;
    var r := ProcessLiveChunk(s.live, ParseContentChunk(p.data));
    if r.past.Some? {
      PastTextsSnoc(s.past, PastTextLine(now, r.past.value.text));
      assert TextsOf([r.past.value]) == [r.past.value.text] by { assert [r.past.value][1..] == []; }
    } else {
      assert s.spoken + [] == s.spoken && PastTexts(s.past) + [] == PastTexts(s.past);
    }
  }

  lemma TranscribedLines(s: Server, p: ContentPacket, now: int, rest: seq<ContentPacket>)
    ensures var t, played := TranscribeOne(s, p, now), PlayAll(s.live, ChunksOf([p] + rest));
            var after := PlayAll(t.live, ChunksOf(rest));
            && PastTexts(t.past) + TextsOf(after.lines) == PastTexts(s.past) + TextsOf(played.lines)
            && t.spoken + after.lines == s.spoken + played.lines
  {
    hide TranscribeOne, ProcessLiveChunk, ParseContentChunk, PlayAll, ChunksOf, PastTexts, TextsOf, Lines;
    PlayFirst(s.live, p, rest);
    TranscribedOne(s, p, now);
    var one, after := Lines(ProcessLiveChunk(s.live, ParseContentChunk(p.data)).past),
                      PlayAll(TranscribeOne(s, p, now).live, ChunksOf(rest)).lines;
    TextsOfAppend(one, after);
    assert s.spoken + (one + after) == s.spoken + one + after;
    assert PastTexts(s.past) + (TextsOf(one) + TextsOf(after)) == PastTexts(s.past) + TextsOf(one) + TextsOf(after);
  }

  /** Over every run, through a shutdown too, the past text and the speech grow by just the
      lines that the packets passed on before the shutdown complete, each with its time. */
  lemma {:induction false} RunTranscribes(s: Server, events: seq<Event>)
    requires s.stop == Running && !s.shuttingDown
    ensures var r := Run(s, events);
            var played := PlayAll(s.live, ChunksOf(PassedOn(s.window, s.ids, Before(events))));
            && PastTexts(r.past) == PastTexts(s.past) + TextsOf(played.lines)
            && PastTimes(r.past) == PastTimes(s.past) + NewlineTimes(s.window, s.ids, events)
            && r.spoken == s.spoken + played.lines
    decreases |events|
  {
    hide TranscribeOne, PlayAll, ChunksOf, PastTexts, PastTimes, TextsOf, NewlineTimes, Printed;
    RunStampsLines(s, events);
    if |events| > 0 && events[0].Receive? {
      var e, w := events[0], if s.window > 0 then s.window - 1 else 0;
      TranscribeOneFrame(s.(window := w), e.packet, e.now);
      RunTranscribes(Step(s, e), events[1..]);
      PassedOnStep(s.window, s.ids, events);
      var rest := PassedOn(w, s.ids, Before(events[1..]));
      TranscribedLines(s.(window := w), e.packet, e.now, rest);
      assert [] + rest == rest;
    } else {
      NothingTranscribed(s, events);
    }
  }

  lemma NothingTranscribed(s: Server, events: seq<Event>)
    requires |events| == 0 || (!events[0].Receive? && s.stop == Running)
    ensures Run(s, events).past == s.past && Run(s, events).spoken == s.spoken
    ensures Before(events) == []
    ensures PlayAll(s.live, ChunksOf(PassedOn(s.window, s.ids, []))).lines == [] && TextsOf([]) == []
  {
    if |events| > 0 {
      var t := Step(s, events[0]);
      PastGrows(t, events[1..]);
      SpokenStays(t, events[1..]);
    }
  }

  lemma {:induction false} SpokenStays(s: Server, events: seq<Event>)
    requires s.shuttingDown || s.stop != Running
    ensures Run(s, events).spoken == s.spoken
    decreases |events|
  {
    hide ParseContentChunk, ProcessLiveChunk, Printed;
    if |events| > 0 {
      SpokenStays(Step(s, events[0]), events[1..]);
    }
  }

  lemma {:induction false} NoShutdownNoAfter(s: Server, events: seq<Event>)
    requires !Run(s, events).shuttingDown && s.stop == Running
    ensures After(events) == []
    decreases |events|
  {
    if |events| > 0 {
      if events[0].BeginShutdown? {
        ShutdownStays(Step(s, events[0]), events[1..]);
      } else if events[0].Receive? {
        NoShutdownNoAfter(Step(s, events[0]), events[1..]);
      }
    }
  }

  lemma {:induction false} ShutdownStays(s: Server, events: seq<Event>)
    requires s.shuttingDown
    ensures Run(s, events).shuttingDown
    decreases |events|
  {
    if |events| > 0 {
      ShutdownStays(Step(s, events[0]), events[1..]);
    }
  }

  /** At every moment of every run, the past text plus a replay of what the run added to the
      suspended-packet list and of what is not yet saved gives the past lines and the live text of playing all
      packets handled: those passed on before the shutdown and all that came during it. */
  lemma CheckpointPlusLog(s: Server, events: seq<Event>)
    requires Fresh(s) && CleanEvents(events)
    ensures var r := Own(s, Run(s, events));
            var kept, played := Replay(Loaded(r.stored) + Unsaved(r)), Replay(Handled(s, events));
            && PastTexts(r.past) + TextsOf(kept.lines) == PastTexts(s.past) + TextsOf(played.lines)
            && kept.live == played.live
  {
    var m := RunAccounts(s, events);
    AccountsReplay(s, Handled(s, events), m, Own(s, Run(s, events)));
  }

  lemma AccountsReplay(start: Server, handled: seq<ContentPacket>, m: nat, r: Server)
    requires Accounts(start, handled, m, r)
    ensures var kept := Replay(Loaded(r.stored) + Unsaved(r));
            && PastTexts(r.past) + TextsOf(kept.lines) == PastTexts(start.past) + TextsOf(Replay(handled).lines)
            && kept.live == Replay(handled).live
  {
    hide *;
    AccountsFacts(start, handled, m, r);
    var done, rest := Replay(handled[..m]).lines, PlayAll("", ChunksOf(handled[m..]));
    assert handled == handled[..m] + handled[m..];
    ReplayAppend(handled[..m], handled[m..]);
    TextsOfAppend(done, rest.lines);
    assert PastTexts(start.past) + (TextsOf(done) + TextsOf(rest.lines))
        == PastTexts(start.past) + TextsOf(done) + TextsOf(rest.lines);
  }

  lemma AccountsFacts(start: Server, handled: seq<ContentPacket>, m: nat, r: Server)
    requires Accounts(start, handled, m, r)
    ensures m <= |handled| && handled[m..] == Loaded(r.stored) + Unsaved(r)
    ensures Replay(handled[..m]).live == ""
    ensures PastTexts(r.past) == PastTexts(start.past) + TextsOf(Replay(handled[..m]).lines)
    ensures Replay(handled[m..]) == PlayAll("", ChunksOf(handled[m..]))
  {
  }

  /** Exactly once, for the loop: when the re-delivered packets have distinct loaded ids and
      come first, the server shows, speaks and keeps just what the packets after them say,
      through a shutdown as well.  With `loaded == Loaded(s.stored)` the run is that of
      Session.TranscribeContent. */
  lemma OverlapIsHandledOnce(s: Server, loaded: seq<ContentPacket>, overlap: seq<ContentPacket>,
                             rest: seq<ContentPacket>, events: seq<Event>)
    requires Fresh(s) && CleanEvents(events) && Before(events) == overlap + rest
    requires forall k :: 0 <= k < |overlap| ==> overlap[k].packetId in IdsOf(loaded)
    requires forall j, k :: 0 <= j < k < |overlap| ==> overlap[j].packetId != overlap[k].packetId
    requires NoneLoaded(IdsOf(loaded), rest)
    ensures var r := Own(s, Run(Started(s, loaded), events));
            var kept, played := Replay(Loaded(r.stored) + Unsaved(r)), Replay(rest + After(events));
            && PastTexts(r.past) + TextsOf(kept.lines) == PastTexts(s.past) + TextsOf(played.lines)
            && kept.live == played.live
            && (!r.shuttingDown ==>
                  r.live == Replay(rest).live && r.spoken == s.spoken + Replay(rest).lines
                  && PastTexts(r.past) == PastTexts(s.past) + TextsOf(Replay(rest).lines))
  {
    hide Run, CleanEvents, Replay, IdsOf, PassedOn, NoneLoaded;
    var t := Started(s, loaded);
    ExactlyOnce(loaded, overlap, rest);
    CheckpointPlusLog(t, events);
    if !Run(t, events).shuttingDown {
      ReplayLog(t, events);
    }
  }

  // ----- when nothing is left unsaved -----

  predicate Cancels(events: seq<Event>) {
    exists k :: 0 <= k < |events| && events[k].Cancel?
  }

  /** A shutdown begins, and the cancellation comes after it. */
  predicate Suspends(events: seq<Event>) {
    |events| > 0 && !events[0].Cancel?
    && if events[0].BeginShutdown? then Cancels(events[1..]) else Suspends(events[1..])
  }

  /** Whether the save at the cancellation succeeds. */
  predicate CancelSaves(events: seq<Event>) {
    |events| > 0 && if events[0].Cancel? then events[0].up else CancelSaves(events[1..])
  }

  /** The outcome of the save of the last packet before the cancellation; `before` if there is
      no packet. */
  predicate LastSaves(events: seq<Event>, before: bool) {
    if |events| == 0 || events[0].Cancel? then before
    else LastSaves(events[1..], if events[0].Receive? then events[0].up else before)
  }

  /** The packets end with a newline; `before` if there are none. */
  predicate EndsLine(packets: seq<ContentPacket>, before: bool) {
    if |packets| == 0 then before else IsNewline(packets[|packets| - 1])
  }

  function AfterStart(events: seq<Event>): seq<Event> {
    if |events| == 0 then [] else if events[0].BeginShutdown? then events[1..] else AfterStart(events[1..])
  }

  /** The save at the cancellation succeeds, or that of the last packet during the shutdown
      does, or there is no such packet and none was logged when the shutdown began. */
  predicate SavesAll(s: Server, events: seq<Event>) {
    CancelSaves(events)
    || LastSaves(AfterStart(events), EndsLine(PassedOn(s.window, s.ids, Before(events)), s.log == []))
  }

  lemma {:induction false} ShutdownSavesExactly(s: Server, events: seq<Event>)
    requires s.stop == Running && s.shuttingDown && Cancels(events)
    ensures Run(s, events).stop == Suspended(CancelSaves(events) || LastSaves(events, s.log == []))
    ensures Unsaved(Run(s, events)) == [] <==> CancelSaves(events) || LastSaves(events, s.log == [])
    decreases |events|
  {
    if events[0].Cancel? {
      StoppedStays(Step(s, events[0]), events[1..]);
    } else {
      var k :| 0 <= k < |events| && events[k].Cancel?;
      assert events[1..][k - 1] == events[k];
      ShutdownSavesExactly(Step(s, events[0]), events[1..]);
    }
  }

  /** Only a newline empties the log. */
  lemma LogAfterOne(s: Server, p: ContentPacket, now: int)
    ensures TranscribeOne(s, p, now).log == [] <==> IsNewline(p)
  {
    hide ParseContentChunk;
  }

  lemma EndsLineThen(head: seq<ContentPacket>, rest: seq<ContentPacket>, before: bool)
    ensures EndsLine(head + rest, before) == EndsLine(rest, EndsLine(head, before))
  {
    assert |rest| == 0 ==> head + rest == head;
  }

  /** Nothing is left unsaved by a shutdown exactly under the condition on its saves. */
  lemma {:induction false} SavesAllExactly(s: Server, events: seq<Event>)
    requires s.stop == Running && !s.shuttingDown && Suspends(events)
    ensures Run(s, events).stop == Suspended(SavesAll(s, events))
    ensures Unsaved(Run(s, events)) == [] <==> SavesAll(s, events)
    decreases |events|
  {
    hide TranscribeOne, IsNewline, Unsaved;
    var e, t := events[0], Step(s, events[0]);
    if e.BeginShutdown? {
      ShutdownSavesExactly(t, events[1..]);
    } else {
      var u := s.(window := if s.window > 0 then s.window - 1 else 0);
      TranscribeOneFrame(u, e.packet, e.now);
      LogAfterOne(u, e.packet, e.now);
      SavesAllExactly(t, events[1..]);
      PassedOnStep(s.window, s.ids, events);
      EndsLineThen(if s.window > 0 && e.packet.packetId in s.ids then [] else [e.packet],
                   PassedOn(u.window, s.ids, Before(events[1..])), s.log == []);
    }
  }

  lemma PassedOnStep(window: nat, ids: set<string>, events: seq<Event>)
    requires |events| > 0 && events[0].Receive?
    ensures var p, w := events[0].packet, if window > 0 then window - 1 else 0;
            PassedOn(window, ids, Before(events))
            == (if window > 0 && p.packetId in ids then [] else [p]) + PassedOn(w, ids, Before(events[1..]))
  {
    assert Before(events)[0] == events[0].packet && Before(events)[1..] == Before(events[1..]);
  }

  /** The list holds every packet after the checkpoint exactly when the save at the end
      succeeded, or the last one before it, or there was nothing to save. */
  lemma NothingLostExactly(s: Server, events: seq<Event>) returns (m: nat)
    requires Fresh(s) && CleanEvents(events) && Suspends(events)
    ensures var r, handled := Own(s, Run(s, events)), Handled(s, events);
            && r.stop.Suspended?
            && m <= |handled|
            && Checkpointed(s, Replay(handled[..m]), r)
            && Loaded(r.stored) <= handled[m..]
            && (Loaded(r.stored) == handled[m..] <==> SavesAll(s, events))
  {
    hide SavesAll;
    m := RunAccounts(s, events);
    SavesAllExactly(s, events);
  }

  // ----- compared with a server that is never shut down -----

  /** The same packets, with no shutdown. */
  function Uninterrupted(events: seq<Event>): seq<Event> {
    if |events| == 0 || events[0].Cancel? then []
    else (if events[0].Receive? then [events[0]] else []) + Uninterrupted(events[1..])
  }

  lemma {:induction false} UninterruptedUntilCancel(events: seq<Event>)
    ensures Before(Uninterrupted(events)) == UntilCancel(events) && After(Uninterrupted(events)) == []
  {
    if |events| > 0 && !events[0].Cancel? {
      UninterruptedUntilCancel(events[1..]);
      var rest := Uninterrupted(events[1..]);
      if events[0].Receive? {
        assert ([events[0]] + rest)[1..] == rest;
      } else {
        assert [] + rest == rest && [] + UntilCancel(events[1..]) == UntilCancel(events[1..]);
      }
    }
  }

  lemma {:induction false} UntilCancelIs(events: seq<Event>)
    ensures UntilCancel(events) == Before(events) + After(events)
  {
    if |events| > 0 && events[0].Receive? {
      UntilCancelIs(events[1..]);
      assert [events[0].packet] + (Before(events[1..]) + After(events[1..])) == Before(events) + After(events);
    } else if |events| > 0 && events[0].BeginShutdown? {
      assert [] + UntilCancel(events[1..]) == UntilCancel(events[1..]);
    }
  }

  /** The shutdown handles the packets that a server never shut down would handle exactly
      when no packet that arrives during it is a re-delivery within what is left of the
      window: the shutdown branch saves packets without checking them. */
  lemma ShutdownHandlesTheSame(s: Server, events: seq<Event>)
    ensures Handled(s, events) == Handled(s, Uninterrupted(events)) <==>
            WindowClear(WindowAfter(s.window, |Before(events)|), s.ids, After(events))
  {
    var w := WindowAfter(s.window, |Before(events)|);
    var before := PassedOn(s.window, s.ids, Before(events));
    UninterruptedUntilCancel(events);
    UntilCancelIs(events);
    PassedOnAppend(s.window, s.ids, Before(events), After(events));
    PassedOnAll(w, s.ids, After(events));
    SameFront(before, After(events), PassedOn(w, s.ids, After(events)));
    assert Handled(s, Uninterrupted(events)) == before + PassedOn(w, s.ids, After(events)) + [];
  }

  lemma UninterruptedRuns(s: Server, events: seq<Event>)
    requires !s.shuttingDown && s.stop == Running
    ensures !Run(s, Uninterrupted(events)).shuttingDown
    decreases |events|
  {
    if |events| > 0 && !events[0].Cancel? {
      var rest := Uninterrupted(events[1..]);
      if events[0].Receive? {
        assert ([events[0]] + rest)[1..] == rest;
        UninterruptedRuns(Step(s, events[0]), events[1..]);
      } else {
        assert [] + rest == rest;
        UninterruptedRuns(s, events[1..]);
      }
    }
  }

  lemma {:induction false} UninterruptedClean(events: seq<Event>)
    requires CleanEvents(events)
    ensures CleanEvents(Uninterrupted(events))
  {
    if |events| > 0 && !events[0].Cancel? {
      assert forall k :: 0 <= k < |events[1..]| ==> events[1..][k] == events[k + 1];
      UninterruptedClean(events[1..]);
    }
  }

  /** Checkpoint plus log loses nothing: when what had to be saved was and no re-delivery
      arrived during the shutdown, the saved past text and a replay of the list give the
      past lines and live text of a server that was never shut down. */
  lemma ShutdownLosesNothing(s: Server, events: seq<Event>)
    requires Fresh(s) && CleanEvents(events)
    requires Suspends(events) && SavesAll(s, events)
    requires WindowClear(WindowAfter(s.window, |Before(events)|), s.ids, After(events))
    ensures var r, u := Own(s, Run(s, events)), Run(s, Uninterrupted(events));
            var kept := Replay(Loaded(r.stored));
            PastTexts(r.past) + TextsOf(kept.lines) == PastTexts(u.past) && kept.live == u.live
  {
    hide SavesAll;
    var r := Own(s, Run(s, events));
    SavesAllExactly(s, events);
    assert Loaded(r.stored) + [] == Loaded(r.stored);
    CheckpointPlusLog(s, events);
    ShutdownHandlesTheSame(s, events);
    UninterruptedRuns(s, events);
    UninterruptedClean(events);
    NoShutdownNoAfter(s, Uninterrupted(events));
    ReplayLog(s, Uninterrupted(events));
    assert Handled(s, Uninterrupted(events)) == PassedOn(s.window, s.ids, Before(Uninterrupted(events)));
  }

  // ----- packets of a closed channel -----

  function WithoutZeros(packets: seq<ContentPacket>): seq<ContentPacket> {
    if |packets| == 0 then []
    else (if packets[0] == ZERO_PACKET then [] else [packets[0]]) + WithoutZeros(packets[1..])
  }

  /** The zero packets that a closed channel delivers change nothing when replayed. */
  lemma {:induction false} ZeroPacketsHarmless(live: string, packets: seq<ContentPacket>)
    ensures PlayAll(live, ChunksOf(WithoutZeros(packets))) == PlayAll(live, ChunksOf(packets))
    decreases |packets|
  {
    if |packets| > 0 {
      var rest := WithoutZeros(packets[1..]);
      var c := ParseContentChunk(packets[0].data);
      assert ChunksOf(packets)[1..] == ChunksOf(packets[1..]);
      ZeroPacketsHarmless(ProcessLiveChunk(live, c).live, packets[1..]);
      if packets[0] == ZERO_PACKET {
        ZeroPacketIsIgnored();
        assert [] + rest == rest;
      } else {
        assert ChunksOf([packets[0]] + rest)[1..] == ChunksOf(rest);
      }
    }
  }

  // ----- from the edits of a whisperer to what a server keeps -----

  /** End to end: a whisperer's edits are diffed, printed, wrapped in packets and received, in
      part during a shutdown.  If no packet within the window has a loaded id, the past text
      and a replay of what is saved or still unsaved are exactly the lines that the whisperer
      completed and the text that it is at. */
  lemma TypedIsKept(s: Server, edits: seq<Edit>, events: seq<Event>)
    requires Fresh(s) && CleanEvents(events) && WindowClear(s.window, s.ids, Before(events))
    requires forall k :: 0 <= k < |Sent("", edits)| ==> Int64(Sent("", edits)[k].offset)
    requires Carry(WithoutZeros(UntilCancel(events)), Sent("", edits))
    ensures var r := Own(s, Run(s, events));
            var kept := Replay(Loaded(r.stored) + Unsaved(r));
            && PastTexts(r.past) + TextsOf(kept.lines) == PastTexts(s.past) + Completed(edits)
            && kept.live == SenderLive("", edits)
  {
    hide Run, CleanEvents, Own, Loaded, Unsaved, PlayAll, Sent, PastTexts, TextsOf, WithoutZeros, Completed, SenderLive;
    CheckpointPlusLog(s, events);
    PassedOnAll(s.window, s.ids, Before(events));
    UntilCancelIs(events);
    ZeroPacketsHarmless("", UntilCancel(events));
    ChunksCarried(WithoutZeros(UntilCancel(events)), Sent("", edits));
    EditRunReplays("", edits);
  }

  // ----- what can go wrong -----

  /** A failed last save loses text: the list stays empty although there is live text. */
  lemma FailedLastSaveLoses(s: Server, p: ContentPacket)
    requires Fresh(s) && s.window == 0
    requires ParseContentChunk(p.data).offset == 0 && ParseContentChunk(p.data).text != ""
    ensures var r := Run(s, [Receive(p, 0, true), BeginShutdown, Cancel(false)]);
            r.stop == Suspended(false) && r.stored == s.stored && r.live != ""
  {
    hide ParseContentChunk;
    var tail := [BeginShutdown, Cancel(false)];
    var events := [Receive(p, 0, true)] + tail;
    assert events == [Receive(p, 0, true), BeginShutdown, Cancel(false)];
    assert events[1..] == tail && tail[1..] == [Cancel(false)] && [Cancel(false)][1..] == [];
    var s1 := Step(s, events[0]);
    var s2 := Step(s1, BeginShutdown);
    assert s1.log == [p] && s1.live == ProcessLiveChunk("", ParseContentChunk(p.data)).live;
    assert Run(s, events) == Run(s1, tail) == Run(s2, [Cancel(false)]) == Step(s2, Cancel(false));
  }

  /** A re-delivery after the window is transcribed twice: a window is a count of packets,
      so packets that are not re-deliveries use it up. */
  lemma WindowCanRunOut(other: ContentPacket, again: ContentPacket)
    requires other.packetId != again.packetId
    ensures PassedOn(|IdsOf([again])|, IdsOf([again]), [other, again]) == [other, again]
  {
    var ids := IdsOf([again]);
    assert [again][..0] == [] && IdsOf([]) == {};
    assert ids == {again.packetId};
    assert [other, again][1..] == [again] && [again][1..] == [];
    assert PassedOn(0, ids, [again]) == [again];
  }
}
