/** ShutdownAllSessions and the goroutines that Shutdown starts, one for each session, in
    every interleaving: lifecycle/session.go:117-187.  No session is added meanwhile.
 */
module ShutdownFanIn {
  import opened GoStrings

  /** Where the goroutine of one session is. */
  datatype Worker = Idle | Sleeping | Cancelled | Ended | StateTried | Reported

  /** Where ShutdownAllSessions is. */
  datatype Main = Launching | Collecting(done: nat) | Finished

  /** What happened, in order: a session was marked and taken out of the session map, was
      cancelled, left pubsub, had its state save attempted, had its enqueue attempted; and
      the final notification. */
  datatype Event =
    | Marked(id: string) | Cancel(id: string) | EndPubsub(id: string) | TrySave(id: string) | TryEnqueue(id: string)
    | Notify(count: nat)

  datatype State = State(
    sessions: set<string>,
    main: Main,
    workers: map<string, Worker>,
    completed: seq<string>,
    enqueued: set<string>,
    trace: seq<Event>)

  datatype Action = Launch(id: string) | StartCollecting | Work(id: string) | Collect | Finish

  function Init(ids: set<string>): State {
    var workers := map id | id in ids :: Idle;
    if |ids| == 0 then State(ids, Finished, workers, [], {}, [Notify(0)])
    else State(ids, Launching, workers, [], {}, [])
  }

  function Log(s: State, e: Event): State {
    s.(trace := s.trace + [e])
  }

  /** One statement of the goroutine of a session. */
  function WorkerStep(s: State, id: string): State
    requires id in s.workers
  {
    match s.workers[id]
    case Sleeping => Log(s.(workers := s.workers[id := Cancelled]), Cancel(id))
    case Cancelled => Log(s.(workers := s.workers[id := Ended]), EndPubsub(id))
    case Ended => Log(s.(workers := s.workers[id := StateTried]), TrySave(id))
    case StateTried => s.(workers := s.workers[id := Reported], completed := s.completed + [id])
    case _ => s
  }

  /** `count` is the number of sessions when the shutdown began, and the capacity of the
      channel of completed sessions. */
  function Next(count: nat, s: State, a: Action): State {
    match a
    case Launch(id) =>
      if s.main == Launching && id in s.sessions && id in s.workers && s.workers[id] == Idle then
        Log(s.(sessions := s.sessions - {id}, workers := s.workers[id := Sleeping]), Marked(id))
      else s
    case StartCollecting => if s.main == Launching && s.sessions == {} then s.(main := Collecting(0)) else s
    case Work(id) => if id in s.workers then WorkerStep(s, id) else s
    case Collect =>
      if s.main.Collecting? && s.main.done < count && |s.completed| > 0 then
        var id := s.completed[0];
        Log(s.(main := Collecting(s.main.done + 1), completed := s.completed[1..], enqueued := s.enqueued + {id}),
            TryEnqueue(id))
      else s
    case Finish =>
      if s.main == Collecting(count) then Log(s.(main := Finished), Notify(count)) else s
  }

  function Run(count: nat, s: State, actions: seq<Action>): State
    decreases |actions|
  {
    if |actions| == 0 then s else Run(count, Next(count, s, actions[0]), actions[1..])
  }

  // ----- what a trace must look like -----

  /** What has to have happened before an event. */
  predicate Justified(ids: set<string>, before: seq<Event>, e: Event) {
    match e
    case Marked(id) => id in ids
    case Cancel(id) => Marked(id) in before
    case EndPubsub(id) => Cancel(id) in before
    case TrySave(id) => EndPubsub(id) in before
    case TryEnqueue(id) => TrySave(id) in before
    case Notify(count) => count == |ids| && forall id :: id in ids ==> TryEnqueue(id) in before
  }

  /** Every event is justified, none happens twice, and the notification is the last. */
  predicate WellOrdered(ids: set<string>, trace: seq<Event>) {
    && (forall k :: 0 <= k < |trace| ==> Justified(ids, trace[..k], trace[k]))
    && (forall j, k :: 0 <= j < k < |trace| ==> trace[j] != trace[k])
    && (forall k :: 0 <= k < |trace| && trace[k].Notify? ==> k == |trace| - 1)
  }

  lemma WellOrderedSnoc(ids: set<string>, trace: seq<Event>, e: Event)
    requires WellOrdered(ids, trace) && Justified(ids, trace, e) && e !in trace
    requires forall n :: Notify(n) !in trace
    ensures WellOrdered(ids, trace + [e])
  {
    var longer := trace + [e];
    forall k | 0 <= k < |longer| ensures Justified(ids, longer[..k], longer[k]) {
      assert longer[..k] == trace[..k];
      assert trace[..|trace|] == trace;
    }
  }

  // ----- the invariant -----

  /** The trace says of a session just how far its goroutine is. */
  predicate Traced(s: State, id: string)
    requires id in s.workers
  {
    var w := s.workers[id];
    && (Marked(id) in s.trace <==> w != Idle)
    && (Cancel(id) in s.trace <==> w != Idle && w != Sleeping)
    && (EndPubsub(id) in s.trace <==> w == Ended || w == StateTried || w == Reported)
    && (TrySave(id) in s.trace <==> w == StateTried || w == Reported)
    && (TryEnqueue(id) in s.trace <==> id in s.enqueued)
    && (id in s.enqueued ==> id !in s.completed)
    && (w == Reported <==> id in s.enqueued || id in s.completed)
    && (id in s.sessions <==> w == Idle)
  }

  predicate AllTraced(ids: set<string>, s: State) {
    && s.workers.Keys == ids
    && forall id :: id in ids ==> Traced(s, id)
  }

  /** The channel holds each session at most once. */
  predicate ChannelFits(ids: set<string>, completed: seq<string>) {
    Distinct(completed) && forall id :: id in completed ==> id in ids
  }

  /** ShutdownAllSessions counts the ids it has taken from the channel. */
  predicate Counted(ids: set<string>, s: State) {
    && s.sessions <= ids && s.enqueued <= ids
    && (s.main == Launching ==> s.enqueued == {})
    && (s.main != Launching ==> s.sessions == {})
    && (s.main.Collecting? ==> |s.enqueued| == s.main.done <= |ids|)
    && (s.main == Finished ==> s.enqueued == ids)
  }

  ghost predicate Notified(ids: set<string>, s: State) {
    forall n :: Notify(n) in s.trace <==> s.main == Finished && n == |ids|
  }

  ghost predicate Inv(ids: set<string>, s: State) {
    && AllTraced(ids, s)
    && ChannelFits(ids, s.completed)
    && Counted(ids, s)
    && Notified(ids, s)
    && WellOrdered(ids, s.trace)
  }

  predicate About(e: Event, id: string) {
    !e.Notify? && e.id == id
  }

  /** What happens to one session leaves the trace of the others. */
  lemma TracedUnaffected(s: State, t: State, e: Event, id: string)
    requires id in s.workers && id in t.workers && t.workers[id] == s.workers[id] && Traced(s, id)
    requires t.trace == s.trace + [e] && !About(e, id)
    requires id in t.sessions <==> id in s.sessions
    requires id in t.enqueued <==> id in s.enqueued
    requires id in t.completed <==> id in s.completed
    ensures Traced(t, id)
  {
    assert forall f :: f in t.trace <==> f in s.trace || f == e;
  }

  lemma NotifiedStep(ids: set<string>, s: State, t: State, e: Event)
    requires Notified(ids, s) && t.trace == s.trace + [e] && !e.Notify?
    requires t.main == Finished <==> s.main == Finished
    ensures Notified(ids, t)
  {
  }

  lemma InTraceSnoc(trace: seq<Event>, e: Event)
    ensures forall f :: f in trace + [e] <==> f in trace || f == e
  {
  }

  lemma LaunchTraced(ids: set<string>, s: State, id: string)
    requires AllTraced(ids, s) && s.main == Launching && id in ids && id in s.sessions && s.workers[id] == Idle
    ensures AllTraced(ids, Next(|ids|, s, Launch(id)))
  {
    hide Traced;
    var t := Next(|ids|, s, Launch(id));
    forall other | other in ids ensures Traced(t, other) {
      if other == id {
        OwnTraced(s, t, Marked(id), id);
      } else {
        TracedUnaffected(s, t, Marked(id), other);
      }
    }
  }

  /** A session's own event keeps its trace. */
  lemma OwnTraced(s: State, t: State, e: Event, id: string)
    requires id in s.workers && Traced(s, id) && id in t.workers && t.trace == s.trace + [e]
    requires
      || (e == Marked(id) && s.workers[id] == Idle && t.workers[id] == Sleeping)
      || (e == Cancel(id) && s.workers[id] == Sleeping && t.workers[id] == Cancelled)
      || (e == EndPubsub(id) && s.workers[id] == Cancelled && t.workers[id] == Ended)
      || (e == TrySave(id) && s.workers[id] == Ended && t.workers[id] == StateTried)
    requires t.enqueued == s.enqueued && t.completed == s.completed && t.sessions == s.sessions - {id}
    ensures Traced(t, id)
    ensures e !in s.trace
  {
    InTraceSnoc(s.trace, e);
  }

  lemma InvLaunch(ids: set<string>, s: State, id: string)
    requires Inv(ids, s)
    ensures Inv(ids, Next(|ids|, s, Launch(id)))
  {
    hide WellOrdered, ChannelFits, Notified, Traced;
    if s.main == Launching && id in s.sessions && id in s.workers && s.workers[id] == Idle {
      var t := Next(|ids|, s, Launch(id));
      LaunchTraced(ids, s, id);
      OwnTraced(s, t, Marked(id), id);
      NotifiedStep(ids, s, t, Marked(id));
      NoNotifyYet(ids, s);
      WellOrderedSnoc(ids, s.trace, Marked(id));
    }
  }

  lemma NoNotifyYet(ids: set<string>, s: State)
    requires Notified(ids, s) && s.main != Finished
    ensures forall n :: Notify(n) !in s.trace
  {
  }

  /** A goroutine that can still move belongs to a session not yet enqueued. */
  lemma WorkingBeforeFinish(ids: set<string>, s: State, id: string)
    requires AllTraced(ids, s) && Counted(ids, s) && id in ids && s.workers[id] != Reported
    ensures s.main != Finished
  {
    assert Traced(s, id);
  }

  predicate Works(w: Worker) {
    w == Sleeping || w == Cancelled || w == Ended
  }

  function WorkEvent(w: Worker, id: string): Event
    requires Works(w)
  {
    match w case Sleeping => Cancel(id) case Cancelled => EndPubsub(id) case Ended => TrySave(id)
  }

  lemma WorkStep(ids: set<string>, s: State, id: string)
    requires AllTraced(ids, s) && id in ids && Works(s.workers[id])
    ensures var t, e := Next(|ids|, s, Work(id)), WorkEvent(s.workers[id], id);
            && t == s.(workers := t.workers, trace := s.trace + [e])
            && id !in s.sessions
            && t.workers.Keys == ids
            && (forall other :: other in ids && other != id ==> t.workers[other] == s.workers[other])
            && e !in s.trace && Traced(t, id) && Justified(ids, s.trace, e)
  {
    var t, e := Next(|ids|, s, Work(id)), WorkEvent(s.workers[id], id);
    assert Traced(s, id);
    assert t.sessions == s.sessions - {id};
    OwnTraced(s, t, e, id);
  }

  lemma WorkTraced(ids: set<string>, s: State, id: string)
    requires AllTraced(ids, s) && id in ids && Works(s.workers[id])
    ensures AllTraced(ids, Next(|ids|, s, Work(id)))
  {
    hide Traced, Next, Justified;
    var t, e := Next(|ids|, s, Work(id)), WorkEvent(s.workers[id], id);
    WorkStep(ids, s, id);
    forall other | other in ids ensures Traced(t, other) {
      if other != id {
        TracedUnaffected(s, t, e, other);
      }
    }
  }

  lemma InvWorkLogged(ids: set<string>, s: State, id: string)
    requires Inv(ids, s) && id in ids && Works(s.workers[id])
    ensures Inv(ids, Next(|ids|, s, Work(id)))
  {
    hide WellOrdered, ChannelFits, Notified, Traced, Next, Justified;
    var t, e := Next(|ids|, s, Work(id)), WorkEvent(s.workers[id], id);
    WorkStep(ids, s, id);
    WorkTraced(ids, s, id);
    NotifiedStep(ids, s, t, e);
    WorkingBeforeFinish(ids, s, id);
    NoNotifyYet(ids, s);
    WellOrderedSnoc(ids, s.trace, e);
  }

  lemma InvWorkReported(ids: set<string>, s: State, id: string)
    requires Inv(ids, s) && id in ids && s.workers[id] == StateTried
    ensures Inv(ids, Next(|ids|, s, Work(id)))
  {
    hide WellOrdered;
    var t := Next(|ids|, s, Work(id));
    assert Traced(s, id);
    assert forall other :: other in t.completed <==> other in s.completed || other == id;
    forall other | other in ids ensures Traced(t, other) {
      assert Traced(s, other);
    }
  }

  lemma InvWork(ids: set<string>, s: State, id: string)
    requires Inv(ids, s)
    ensures Inv(ids, Next(|ids|, s, Work(id)))
  {
    if id in s.workers && Works(s.workers[id]) {
      InvWorkLogged(ids, s, id);
    } else if id in s.workers && s.workers[id] == StateTried {
      InvWorkReported(ids, s, id);
    }
  }

  lemma TailOfDistinct(ids: set<string>, completed: seq<string>)
    requires ChannelFits(ids, completed) && |completed| > 0
    ensures completed[0] in ids && ChannelFits(ids, completed[1..])
    ensures forall id :: id in completed[1..] <==> id in completed && id != completed[0]
  {
    assert completed == [completed[0]] + completed[1..];
    assert forall k :: 0 <= k < |completed[1..]| ==> completed[1..][k] == completed[k + 1];
  }

  lemma OwnEnqueued(s: State, t: State, id: string)
    requires id in s.workers && Traced(s, id) && t.workers == s.workers && t.sessions == s.sessions
    requires id in s.completed && id !in t.completed && t.enqueued == s.enqueued + {id}
    requires t.trace == s.trace + [TryEnqueue(id)]
    ensures Traced(t, id)
    ensures TryEnqueue(id) !in s.trace && TrySave(id) in s.trace && id !in s.enqueued
  {
    InTraceSnoc(s.trace, TryEnqueue(id));
  }

  lemma CollectTraced(ids: set<string>, s: State)
    requires AllTraced(ids, s) && ChannelFits(ids, s.completed)
    requires s.main.Collecting? && s.main.done < |ids| && |s.completed| > 0
    ensures AllTraced(ids, Next(|ids|, s, Collect))
    ensures TryEnqueue(s.completed[0]) !in s.trace && TrySave(s.completed[0]) in s.trace
    ensures s.completed[0] !in s.enqueued && s.completed[0] in ids
  {
    hide ChannelFits, Traced;
    var t, id := Next(|ids|, s, Collect), s.completed[0];
    TailOfDistinct(ids, s.completed);
    assert id in s.completed && Traced(s, id);
    OwnEnqueued(s, t, id);
    forall other | other in ids ensures Traced(t, other) {
      if other != id {
        TracedUnaffected(s, t, TryEnqueue(id), other);
      }
    }
  }

  lemma InvCollect(ids: set<string>, s: State)
    requires Inv(ids, s)
    ensures Inv(ids, Next(|ids|, s, Collect))
  {
    hide WellOrdered, ChannelFits, Notified, AllTraced;
    if s.main.Collecting? && s.main.done < |ids| && |s.completed| > 0 {
      var t, id := Next(|ids|, s, Collect), s.completed[0];
      TailOfDistinct(ids, s.completed);
      CollectTraced(ids, s);
      NotifiedStep(ids, s, t, TryEnqueue(id));
      NoNotifyYet(ids, s);
      WellOrderedSnoc(ids, s.trace, TryEnqueue(id));
    }
  }

  lemma FullSubset(a: set<string>, b: set<string>)
    requires a <= b && |a| == |b|
    ensures a == b
  {
    assert b == a + (b - a);
    assert |b| == |a| + |b - a|;
  }

  lemma InvMain(ids: set<string>, s: State, a: Action)
    requires Inv(ids, s) && (a == StartCollecting || a == Finish)
    ensures Inv(ids, Next(|ids|, s, a))
  {
    hide WellOrdered;
    if a == Finish && s.main == Collecting(|ids|) {
      FullSubset(s.enqueued, ids);
      assert forall id :: id in ids ==> Traced(s, id);
      WellOrderedSnoc(ids, s.trace, Notify(|ids|));
    }
  }

  lemma {:induction false} InvRun(ids: set<string>, s: State, actions: seq<Action>)
    requires Inv(ids, s)
    ensures Inv(ids, Run(|ids|, s, actions))
    decreases |actions|
  {
    hide Inv, Next;
    if |actions| > 0 {
      var a := actions[0];
      match a {
        case Launch(id) => InvLaunch(ids, s, id);
        case Work(id) => InvWork(ids, s, id);
        case Collect => InvCollect(ids, s);
        case _ => InvMain(ids, s, a);
      }
      InvRun(ids, Next(|ids|, s, a), actions[1..]);
    }
  }

  lemma InvInit(ids: set<string>)
    ensures Inv(ids, Init(ids))
  {
    var s := Init(ids);
    assert forall id :: id in ids ==> Traced(s, id);
  }

  /** A fan-in that is done: every session id had its enqueue attempted exactly once, each
      after its state save was attempted, its pubsub session ended and it was cancelled, and
      the notification, with the number of sessions, is the last thing to happen. */
  predicate FannedIn(ids: set<string>, trace: seq<Event>) {
    && WellOrdered(ids, trace)
    && |trace| > 0 && trace[|trace| - 1] == Notify(|ids|)
    && (forall id :: id in ids ==> multiset(trace)[TryEnqueue(id)] == 1)
    && (forall k :: 0 <= k < |trace| && trace[k].TryEnqueue? ==>
          trace[k].id in ids && TrySave(trace[k].id) in trace[..k] && Cancel(trace[k].id) in trace[..k])
  }

  lemma {:induction false} OccursOnce(trace: seq<Event>, e: Event)
    requires e in trace
    requires forall j, k :: 0 <= j < k < |trace| ==> trace[j] != trace[k]
    ensures multiset(trace)[e] == 1
  {
    var last := |trace| - 1;
    assert trace == trace[..last] + [trace[last]];
    if trace[last] == e {
      assert e !in trace[..last];
    } else {
      OccursOnce(trace[..last], e);
    }
  }

  lemma CancelledBeforeEnqueued(ids: set<string>, trace: seq<Event>, k: nat)
    requires WellOrdered(ids, trace) && k < |trace| && trace[k].TryEnqueue?
    ensures var id := trace[k].id;
            id in ids && TrySave(id) in trace[..k] && Cancel(id) in trace[..k]
  {
    var id := trace[k].id;
    assert Justified(ids, trace[..k], trace[k]);
    var c := EarlierEvent(trace, k, TrySave(id));
    assert Justified(ids, trace[..c], trace[c]);
    var b := EarlierEvent(trace, c, EndPubsub(id));
    assert Justified(ids, trace[..b], trace[b]);
    var a := EarlierEvent(trace, b, Cancel(id));
    assert Justified(ids, trace[..a], trace[a]);
    var m := EarlierEvent(trace, a, Marked(id));
    assert Justified(ids, trace[..m], trace[m]);
    assert trace[..k][a] == Cancel(id);
  }

  lemma EarlierEvent(trace: seq<Event>, k: nat, e: Event) returns (j: nat)
    requires k <= |trace| && e in trace[..k]
    ensures j < k && trace[j] == e
  {
    j :| 0 <= j < k && trace[..k][j] == e;
  }

  /** For every interleaving: the trace is well ordered at every moment, no send on the
      channel of completed sessions ever waits, and when ShutdownAllSessions is finished the
      fan-in is done. */
  lemma ShutdownFansIn(ids: set<string>, actions: seq<Action>)
    ensures var s := Run(|ids|, Init(ids), actions);
            && WellOrdered(ids, s.trace)
            && |s.completed| <= |ids|
            && (s.main == Finished ==> FannedIn(ids, s.trace))
  {
    hide Run, Inv, FannedIn, WellOrdered;
    InvInit(ids);
    InvRun(ids, Init(ids), actions);
    FanInDone(ids, Run(|ids|, Init(ids), actions));
  }

  lemma {:induction false} DistinctFits(seen: seq<string>, ids: set<string>)
    requires Distinct(seen) && forall id :: id in seen ==> id in ids
    ensures |seen| <= |ids|
    decreases |seen|
  {
    if |seen| > 0 {
      var last := seen[|seen| - 1];
      DistinctFits(seen[..|seen| - 1], ids - {last});
    }
  }

  lemma FanInDone(ids: set<string>, s: State)
    requires Inv(ids, s)
    ensures WellOrdered(ids, s.trace) && |s.completed| <= |ids|
    ensures s.main == Finished ==> FannedIn(ids, s.trace)
  {
    hide Justified, Traced;
    DistinctFits(s.completed, ids);
    if s.main == Finished {
      assert Notify(|ids|) in s.trace;
      forall id | id in ids ensures multiset(s.trace)[TryEnqueue(id)] == 1 {
        EnqueuedIsTraced(ids, s, id);
        OccursOnce(s.trace, TryEnqueue(id));
      }
      forall k | 0 <= k < |s.trace| && s.trace[k].TryEnqueue?
        ensures s.trace[k].id in ids && TrySave(s.trace[k].id) in s.trace[..k] && Cancel(s.trace[k].id) in s.trace[..k]
      {
        CancelledBeforeEnqueued(ids, s.trace, k);
      }
    }
  }

  lemma EnqueuedIsTraced(ids: set<string>, s: State, id: string)
    requires AllTraced(ids, s) && id in s.enqueued && id in ids
    ensures TryEnqueue(id) in s.trace
  {
    assert Traced(s, id);
  }

  /** The fan-in cannot get stuck: until it is finished some action changes the state. */
  lemma NeverStuck(ids: set<string>, actions: seq<Action>) returns (a: Action)
    ensures var s := Run(|ids|, Init(ids), actions);
            s.main != Finished ==> Next(|ids|, s, a) != s
  {
    hide Run, Inv, Next;
    InvInit(ids);
    InvRun(ids, Init(ids), actions);
    a := CanMove(ids, Run(|ids|, Init(ids), actions));
  }

  lemma CanMove(ids: set<string>, s: State) returns (a: Action)
    requires Inv(ids, s)
    ensures s.main != Finished ==> Next(|ids|, s, a) != s
  {
    hide WellOrdered;
    a := Finish;
    if s.main == Launching {
      if s.sessions == {} {
        a := StartCollecting;
      } else {
        var id :| id in s.sessions;
        assert Traced(s, id);
        a := Launch(id);
      }
    } else if s.main.Collecting? && s.main.done < |ids| {
      if |s.completed| > 0 {
        a := Collect;
      } else {
        assert s.enqueued != ids;
        var id :| id in ids && id !in s.enqueued;
        assert Traced(s, id);
        a := Work(id);
      }
    }
  }

  // ----- how long it takes -----

  /** Every action that changes something adds to this by one. */
  function Progress(s: State): nat {
    |s.trace| + |s.completed| + |s.enqueued| + if s.main == Launching then 0 else 1
  }

  lemma ActionCounts(ids: set<string>, s: State, a: Action)
    requires Inv(ids, s)
    ensures Next(|ids|, s, a) == s || Progress(Next(|ids|, s, a)) == Progress(s) + 1
  {
    hide WellOrdered, Notified;
    if a == Collect && s.main.Collecting? && s.main.done < |ids| && |s.completed| > 0 {
      CollectTraced(ids, s);
    }
  }

  function OwnEvents(id: string): set<Event> {
    {Marked(id), Cancel(id), EndPubsub(id), TrySave(id), TryEnqueue(id)}
  }

  function SessionEvents(ids: set<string>): set<Event> {
    set id, e | id in ids && e in OwnEvents(id) :: e
  }

  lemma InSessionEvents(ids: set<string>, e: Event)
    ensures e in SessionEvents(ids) <==> !e.Notify? && e.id in ids
  {
    if !e.Notify? {
      assert e in OwnEvents(e.id);
    }
  }

  lemma OwnEventsAreOwn(id: string)
    ensures |OwnEvents(id)| == 5
    ensures forall e :: e in OwnEvents(id) <==> !e.Notify? && e.id == id
  {
  }

  lemma {:induction false} SessionEventsSize(ids: set<string>)
    ensures |SessionEvents(ids)| == 5 * |ids|
  {
    assert ids == {} ==> SessionEvents(ids) == {};
    hide SessionEvents, OwnEvents;
    if ids != {} {
      var id :| id in ids;
      var rest := SessionEvents(ids - {id});
      SessionEventsSize(ids - {id});
      OwnEventsAreOwn(id);
      forall e ensures e in SessionEvents(ids) <==> e in rest || e in OwnEvents(id) {
        InSessionEvents(ids, e);
        InSessionEvents(ids - {id}, e);
      }
      forall e | e in rest ensures e !in OwnEvents(id) {
        InSessionEvents(ids - {id}, e);
      }
      assert SessionEvents(ids) == rest + OwnEvents(id);
      assert |rest + OwnEvents(id)| == |rest| + |OwnEvents(id)|;
    }
  }

  /** All that can happen, once each. */
  function Events(ids: set<string>): set<Event> {
    SessionEvents(ids) + {Notify(|ids|)}
  }

  lemma EventsSize(ids: set<string>)
    ensures |Events(ids)| == 5 * |ids| + 1
  {
    hide SessionEvents;
    SessionEventsSize(ids);
    InSessionEvents(ids, Notify(|ids|));
  }

  /** The event of the same session that has to come before, if there is one. */
  function Precursor(e: Event): Event {
    match e
    case Cancel(id) => Marked(id)
    case EndPubsub(id) => Cancel(id)
    case TrySave(id) => EndPubsub(id)
    case TryEnqueue(id) => TrySave(id)
    case _ => e
  }

  lemma {:induction false} EventIsKnown(ids: set<string>, trace: seq<Event>, k: nat)
    requires WellOrdered(ids, trace) && k < |trace|
    ensures trace[k] in Events(ids)
    decreases k
  {
    hide WellOrdered, SessionEvents;
    JustifiedAt(ids, trace, k);
    var e := trace[k];
    InSessionEvents(ids, e);
    if e.Cancel? || e.EndPubsub? || e.TrySave? || e.TryEnqueue? {
      var j := EarlierEvent(trace, k, Precursor(e));
      EventIsKnown(ids, trace, j);
      InSessionEvents(ids, Precursor(e));
    }
  }

  lemma JustifiedAt(ids: set<string>, trace: seq<Event>, k: nat)
    requires WellOrdered(ids, trace) && k < |trace|
    ensures Justified(ids, trace[..k], trace[k])
  {
  }

  function EventSet(trace: seq<Event>): set<Event> {
    set k | 0 <= k < |trace| :: trace[k]
  }

  lemma {:induction false} DistinctSize(trace: seq<Event>)
    requires forall j, k :: 0 <= j < k < |trace| ==> trace[j] != trace[k]
    ensures |EventSet(trace)| == |trace|
  {
    if |trace| > 0 {
      var last := |trace| - 1;
      DistinctSize(trace[..last]);
      assert EventSet(trace) == EventSet(trace[..last]) + {trace[last]};
      assert trace[last] !in EventSet(trace[..last]);
    }
  }

  lemma SubsetSize(a: set<Event>, b: set<Event>)
    requires a <= b
    ensures |a| <= |b|
    ensures |a| == |b| <==> a == b
  {
    assert b == a + (b - a);
    assert |b| == |a| + |b - a|;
  }

  /** At most everything happens, and everything has exactly when all is finished. */
  lemma ProgressEnds(ids: set<string>, s: State)
    requires Inv(ids, s)
    ensures Progress(s) <= 6 * |ids| + 2
    ensures s.main == Finished ==> Progress(s) == 6 * |ids| + 2
  {
    hide Justified, Notified, AllTraced, WellOrdered, ChannelFits, Events;
    forall e | e in EventSet(s.trace) ensures e in Events(ids) {
      var k :| 0 <= k < |s.trace| && s.trace[k] == e;
      EventIsKnown(ids, s.trace, k);
    }
    EventsSize(ids);
    DistinctTrace(ids, s.trace);
    SubsetSize(EventSet(s.trace), Events(ids));
    WaitingFit(ids, s);
    if s.main == Finished {
      FinishedTrace(ids, s);
    }
  }

  lemma DistinctTrace(ids: set<string>, trace: seq<Event>)
    requires WellOrdered(ids, trace)
    ensures |EventSet(trace)| == |trace|
  {
    DistinctSize(trace);
  }

  /** An id is in the channel or enqueued, not both. */
  lemma WaitingFit(ids: set<string>, s: State)
    requires AllTraced(ids, s) && ChannelFits(ids, s.completed) && Counted(ids, s)
    ensures |s.completed| + |s.enqueued| <= |ids|
  {
    forall id | id in s.completed ensures id in ids - s.enqueued {
      assert Traced(s, id);
    }
    DistinctFits(s.completed, ids - s.enqueued);
    assert |ids - s.enqueued| == |ids| - |s.enqueued|;
  }

  lemma FinishedTrace(ids: set<string>, s: State)
    requires Inv(ids, s) && s.main == Finished
    ensures Events(ids) <= EventSet(s.trace)
    ensures s.enqueued == ids
  {
    hide WellOrdered, ChannelFits, SessionEvents;
    forall e | e in Events(ids) ensures e in EventSet(s.trace) {
      InSessionEvents(ids, e);
      if !e.Notify? {
        assert Traced(s, e.id);
      }
      assert e in s.trace;
    }
  }

  /** A run in which every action changes something. */
  predicate Busy(count: nat, s: State, actions: seq<Action>)
    decreases |actions|
  {
    |actions| > 0 ==> Next(count, s, actions[0]) != s && Busy(count, Next(count, s, actions[0]), actions[1..])
  }

  lemma {:induction false} BusyCounts(ids: set<string>, s: State, actions: seq<Action>)
    requires Inv(ids, s) && Busy(|ids|, s, actions)
    ensures Progress(Run(|ids|, s, actions)) == Progress(s) + |actions|
    decreases |actions|
  {
    hide Inv, Next, Progress;
    if |actions| > 0 {
      ActionCounts(ids, s, actions[0]);
      InvRun(ids, s, [actions[0]]);
      RunOne(|ids|, s, actions[0]);
      BusyCounts(ids, Next(|ids|, s, actions[0]), actions[1..]);
    }
  }

  /** Six steps for each session, and two for ShutdownAllSessions; none without sessions. */
  function Total(ids: set<string>): nat {
    if ids == {} then 0 else 6 * |ids| + 2
  }

  /** Termination, for every interleaving: a shutdown is finished after just this many actions
      that change something, whatever their order, and not before. */
  lemma FinishesExactly(ids: set<string>, actions: seq<Action>)
    requires Busy(|ids|, Init(ids), actions)
    ensures |actions| <= Total(ids)
    ensures Run(|ids|, Init(ids), actions).main == Finished <==> |actions| == Total(ids)
  {
    hide Run, Inv, Next, Busy;
    InvInit(ids);
    InvRun(ids, Init(ids), actions);
    BusyCounts(ids, Init(ids), actions);
    var s := Run(|ids|, Init(ids), actions);
    assert Progress(Init(ids)) + Total(ids) == 6 * |ids| + 2;
    ProgressEnds(ids, s);
    if s.main != Finished {
      var a := CanMove(ids, s);
      ActionCounts(ids, s, a);
      InvRun(ids, s, [a]);
      RunOne(|ids|, s, a);
      ProgressEnds(ids, Next(|ids|, s, a));
    }
  }

  lemma RunOne(count: nat, s: State, a: Action)
    ensures Run(count, s, [a]) == Next(count, s, a)
  {
    assert [a][1..] == [];
  }

  // ----- the order of the enqueues -----

  /** The ids whose enqueue was attempted, in order. */
  function Tried(trace: seq<Event>): seq<string> {
    if |trace| == 0 then []
    else
      var before, e := Tried(trace[..|trace| - 1]), trace[|trace| - 1];
      if e.TryEnqueue? then before + [e.id] else before
  }

  /** The ids that were reported, in the order of the reports. */
  function ReportedIds(s: State): seq<string> {
    Tried(s.trace) + s.completed
  }

  lemma TriedSnoc(trace: seq<Event>, e: Event)
    ensures Tried(trace + [e]) == if e.TryEnqueue? then Tried(trace) + [e.id] else Tried(trace)
  {
    assert (trace + [e])[..|trace|] == trace;
  }

  lemma NextReports(count: nat, s: State, a: Action)
    ensures var t := Next(count, s, a);
            ReportedIds(t) == ReportedIds(s)
            || (a.Work? && a.id in s.workers && s.workers[a.id] == StateTried
                && ReportedIds(t) == ReportedIds(s) + [a.id])
  {
    hide Tried;
    var t := Next(count, s, a);
    if |t.trace| > |s.trace| {
      TriedSnoc(s.trace, t.trace[|s.trace|]);
    }
    if a == Collect && t != s {
      var id := s.completed[0];
      assert s.completed == [id] + s.completed[1..];
      assert Tried(s.trace) + ([id] + s.completed[1..]) == Tried(s.trace) + [id] + s.completed[1..];
    } else if a.Work? && t != s && t.trace == s.trace {
      assert Tried(s.trace) + (s.completed + [a.id]) == Tried(s.trace) + s.completed + [a.id];
    }
  }

  /** The ids are enqueued in the order in which their goroutines reported, whatever the
      interleaving: what was reported at any moment is, in order, what was enqueued by then and
      what waits, and it is reported in no other order later. */
  lemma {:induction false} EnqueuedAsReported(count: nat, s: State, actions: seq<Action>)
    ensures ReportedIds(s) <= ReportedIds(Run(count, s, actions))
    decreases |actions|
  {
    hide Next, ReportedIds;
    if |actions| > 0 {
      NextReports(count, s, actions[0]);
      EnqueuedAsReported(count, Next(count, s, actions[0]), actions[1..]);
    }
  }
}
