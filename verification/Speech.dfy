/** speech/resemble_manager.go: the signal channels between the goroutines that generate
    speech and the requests that retrieve it, in every interleaving.
 */
module Speech {
  import opened GoStrings

  /** Where the goroutine of a GenerateSpeech call is: it generates, caches what it got, and
      then closes the channel that the signal map holds for its id at that moment. */
  datatype Stage = Generating | Caching | Closing | Done

  datatype Call = Call(id: string, stage: Stage)

  /** One GeneratedSpeech call: it looks up the signal, waits on it if there is one, deletes it
      from the map, and reads the cache.  `waited` is the channel it waited on. */
  datatype Retriever =
    | Waiting(id: string, channel: nat)
    | Reading(id: string, waited: Option<nat>)
    | Answered

  /** Channel `k` is the one made by GenerateSpeech call number `k`.  `closes` counts how often
      each channel was closed; `crashed` says that a goroutine closed a channel that was gone
      or closed already. */
  datatype State = State(
    signals: map<string, nat>,
    calls: seq<Call>,
    closes: multiset<nat>,
    retrievers: map<nat, Retriever>,
    cached: set<string>,
    crashed: bool)

  datatype Action =
    | Generate(id: string)
    | Produce(call: nat, ok: bool)
    | Ask(caller: nat, id: string)
    | Proceed(caller: nat)
    | GiveUp(caller: nat)

  function Init(): State {
    State(map[], [], multiset{}, map[], {}, false)
  }

  /** A call makes a channel and puts it in the map, whatever is there. */
  function GenerateStep(s: State, id: string): State {
    s.(signals := s.signals[id := |s.calls|], calls := s.calls + [Call(id, Generating)])
  }

  function Staged(s: State, call: nat, stage: Stage): State
    requires call < |s.calls|
  {
    s.(calls := s.calls[call := s.calls[call].(stage := stage)])
  }

  /** close(rm.signals[id]): closing a missing or a closed channel stops the server. */
  function Close(s: State, id: string): State {
    if id !in s.signals || s.signals[id] in s.closes then s.(crashed := true)
    else s.(closes := s.closes + multiset{s.signals[id]})
  }

  /** A failure to generate skips the cache; a failure to cache is only logged. */
  function ProduceStep(s: State, call: nat, ok: bool): State
    requires call < |s.calls|
  {
    match s.calls[call].stage
    case Generating => Staged(s, call, if ok then Caching else Closing)
    case Caching => Staged(s, call, Closing).(cached := if ok then s.cached + {s.calls[call].id} else s.cached)
    case Closing => Close(Staged(s, call, Done), s.calls[call].id)
    case Done => s
  }

  function ProceedStep(s: State, caller: nat): State
    requires caller in s.retrievers
  {
    match s.retrievers[caller]
    case Waiting(id, channel) =>
      if channel in s.closes then
        s.(signals := s.signals - {id}, retrievers := s.retrievers[caller := Reading(id, Some(channel))])
      else s
    case Reading(_, _) =>
      s.(retrievers := s.retrievers[caller := Answered])
    case Answered => s
  }

  function AskStep(s: State, caller: nat, id: string): State {
    var r := if id in s.signals then Waiting(id, s.signals[id]) else Reading(id, None);
    s.(retrievers := s.retrievers[caller := r])
  }

  function Next(s: State, a: Action): State {
    match a
    case Generate(id) => GenerateStep(s, id)
    case Produce(call, ok) => if call < |s.calls| then ProduceStep(s, call, ok) else s
    case Ask(caller, id) => if caller in s.retrievers then s else AskStep(s, caller, id)
    case Proceed(caller) => if caller in s.retrievers then ProceedStep(s, caller) else s
    case GiveUp(caller) =>
      if caller in s.retrievers && s.retrievers[caller].Waiting? then
        s.(retrievers := s.retrievers[caller := Answered])
      else s
  }

  function Run(s: State, actions: seq<Action>): State
    decreases |actions|
  {
    if |actions| == 0 then s else Run(Next(s, actions[0]), actions[1..])
  }

  // ----- the invariant -----

  function Ids(calls: seq<Call>): (ids: seq<string>)
    ensures |ids| == |calls|
    ensures forall k :: 0 <= k < |calls| ==> ids[k] == calls[k].id
  {
    seq(|calls|, k requires 0 <= k < |calls| => calls[k].id)
  }

  predicate UniqueIds(calls: seq<Call>) {
    Distinct(Ids(calls))
  }

  /** Each channel is closed exactly once, when its goroutine is done. */
  predicate ClosedOnce(s: State) {
    && (forall k :: 0 <= k < |s.calls| ==> s.closes[k] == if s.calls[k].stage == Done then 1 else 0)
    && (forall k :: k in s.closes ==> k < |s.calls|)
  }

  /** A signal is a channel made for its id, and it is in the map until it is closed; so at
      most one goroutine for an id is not done. */
  predicate SignalsHold(s: State) {
    && (forall id :: id in s.signals ==> s.signals[id] < |s.calls| && s.calls[s.signals[id]].id == id)
    && (forall k :: 0 <= k < |s.calls| && s.calls[k].stage != Done ==>
          s.calls[k].id in s.signals && s.signals[s.calls[k].id] == k)
  }

  /** The goroutine of `channel` is the only one for `id` that may not be done. */
  predicate AllDoneBut(s: State, id: string, channel: nat) {
    forall k :: 0 <= k < |s.calls| && s.calls[k].id == id && s.calls[k].stage != Done ==> k == channel
  }

  /** A retriever waits on the newest channel made for its id, and has waited until it was
      done. */
  predicate RetrieverKnows(s: State, r: Retriever) {
    match r
    case Waiting(id, channel) => channel < |s.calls| && s.calls[channel].id == id && AllDoneBut(s, id, channel)
    case Reading(_, Some(channel)) => channel < |s.calls| && s.calls[channel].stage == Done
    case _ => true
  }

  predicate Safe(s: State) {
    && ClosedOnce(s)
    && SignalsHold(s)
    && (forall caller :: caller in s.retrievers ==> RetrieverKnows(s, s.retrievers[caller]))
    && !s.crashed
  }

  /** An id that may be used now: every goroutine for it is done, and no retriever waits for
      one of them. */
  predicate Careful(s: State, id: string) {
    && (forall k :: 0 <= k < |s.calls| && s.calls[k].id == id ==> s.calls[k].stage == Done)
    && (forall caller :: caller in s.retrievers && s.retrievers[caller].Waiting? ==> s.retrievers[caller].id != id)
  }

  lemma GenerateKeeps(s: State, id: string)
    requires Safe(s) && Careful(s, id)
    ensures Safe(GenerateStep(s, id))
  {
    var t := GenerateStep(s, id);
    assert t.calls[|s.calls|] == Call(id, Generating);
    assert forall k :: 0 <= k < |s.calls| ==> t.calls[k] == s.calls[k];
    assert |s.calls| !in s.closes;
    forall caller | caller in t.retrievers ensures RetrieverKnows(t, t.retrievers[caller]) {
      assert RetrieverKnows(s, s.retrievers[caller]);
    }
  }

  predicate SameIds(a: seq<Call>, b: seq<Call>) {
    |a| <= |b| && forall k :: 0 <= k < |a| ==> b[k].id == a[k].id
  }

  lemma SameIdsUnique(a: seq<Call>, b: seq<Call>)
    requires SameIds(a, b)
    ensures |a| == |b| && UniqueIds(a) ==> UniqueIds(b)
    ensures UniqueIds(b) ==> UniqueIds(a)
  {
  }

  /** A goroutine that moves on, short of its end, still waits to close its channel. */
  lemma StagedKnown(s: State, call: nat, stage: Stage, r: Retriever)
    requires RetrieverKnows(s, r) && call < |s.calls| && (s.calls[call].stage != Done || stage == Done)
    ensures RetrieverKnows(Staged(s, call, stage), r)
  {
  }

  lemma StagedKeeps(s: State, call: nat, stage: Stage)
    requires Safe(s) && call < |s.calls| && s.calls[call].stage != Done && stage != Done
    ensures Safe(Staged(s, call, stage))
  {
    hide RetrieverKnows;
    var t := Staged(s, call, stage);
    forall caller | caller in t.retrievers ensures RetrieverKnows(t, t.retrievers[caller]) {
      StagedKnown(s, call, stage, s.retrievers[caller]);
    }
  }

  lemma CloseClosesOnce(s: State, call: nat)
    requires ClosedOnce(s) && SignalsHold(s) && call < |s.calls| && s.calls[call].stage == Closing
    ensures var t := Close(Staged(s, call, Done), s.calls[call].id);
            ClosedOnce(t) && SignalsHold(t) && t.crashed == s.crashed && t.retrievers == s.retrievers
  {
    var t := Close(Staged(s, call, Done), s.calls[call].id);
    assert s.signals[s.calls[call].id] == call && s.closes[call] == 0;
    assert t.closes == s.closes + multiset{call};
  }

  /** The end of a goroutine closes its own channel, which is still in the map. */
  lemma CloseKeeps(s: State, call: nat)
    requires Safe(s) && call < |s.calls| && s.calls[call].stage == Closing
    ensures Safe(Close(Staged(s, call, Done), s.calls[call].id))
  {
    hide ClosedOnce, SignalsHold, RetrieverKnows;
    var u := Staged(s, call, Done);
    var t := Close(u, s.calls[call].id);
    CloseClosesOnce(s, call);
    forall caller | caller in t.retrievers ensures RetrieverKnows(t, t.retrievers[caller]) {
      StagedKnown(s, call, Done, s.retrievers[caller]);
      KnowsByCalls(u, t, t.retrievers[caller]);
    }
  }

  lemma KnowsByCalls(s: State, t: State, r: Retriever)
    requires t.calls == s.calls
    ensures RetrieverKnows(t, r) <==> RetrieverKnows(s, r)
  {
  }

  lemma ProduceKeeps(s: State, call: nat, ok: bool)
    requires Safe(s) && call < |s.calls|
    ensures Safe(ProduceStep(s, call, ok))
  {
    hide ClosedOnce, SignalsHold, Staged, Close;
    match s.calls[call].stage
    case Generating => StagedKeeps(s, call, if ok then Caching else Closing);
    case Caching =>
      StagedKeeps(s, call, Closing);
      CacheIsApart(Staged(s, call, Closing), if ok then s.cached + {s.calls[call].id} else s.cached);
    case Closing => CloseKeeps(s, call);
    case Done =>
  }

  lemma CacheIsApart(s: State, cached: set<string>)
    requires Safe(s)
    ensures Safe(s.(cached := cached))
  {
    assert forall caller :: caller in s.retrievers ==> RetrieverKnows(s, s.retrievers[caller]);
  }

  /** A retriever deletes a signal only once it is closed. */
  lemma WaitOverKeeps(s: State, caller: nat)
    requires Safe(s) && caller in s.retrievers && s.retrievers[caller].Waiting?
    ensures Safe(ProceedStep(s, caller))
  {
    var r, t := s.retrievers[caller], ProceedStep(s, caller);
    assert RetrieverKnows(s, r);
    if r.channel in s.closes {
      assert s.calls[r.channel].stage == Done;
      forall k | 0 <= k < |s.calls| && s.calls[k].stage != Done
        ensures s.calls[k].id in t.signals && t.signals[s.calls[k].id] == k
      {
        assert k != r.channel && s.calls[k].id != r.id by { assert AllDoneBut(s, r.id, r.channel); }
      }
      forall other | other in t.retrievers ensures RetrieverKnows(t, t.retrievers[other]) {
        assert other in s.retrievers && RetrieverKnows(s, s.retrievers[other]);
      }
    }
  }

  /** The steps of a retriever that touch nothing but its own state. */
  lemma RetrieverKeeps(s: State, caller: nat, r: Retriever)
    requires Safe(s) && RetrieverKnows(s, r)
    ensures Safe(s.(retrievers := s.retrievers[caller := r]))
  {
    hide RetrieverKnows;
    var t := s.(retrievers := s.retrievers[caller := r]);
    forall other | other in t.retrievers ensures RetrieverKnows(t, t.retrievers[other]) {
      KnowsByCalls(s, t, t.retrievers[other]);
    }
  }

  lemma NextKeeps(s: State, a: Action)
    requires Safe(s) && (a.Generate? ==> Careful(s, a.id))
    ensures Safe(Next(s, a))
  {
    hide ClosedOnce, GenerateStep, ProduceStep;
    match a
    case Generate(id) => GenerateKeeps(s, id);
    case Produce(call, ok) =>
      if call < |s.calls| {
        ProduceKeeps(s, call, ok);
      }
    case Ask(caller, id) =>
      if caller !in s.retrievers {
        RetrieverKeeps(s, caller, AskStep(s, caller, id).retrievers[caller]);
      }
    case Proceed(caller) =>
      if caller in s.retrievers {
        if s.retrievers[caller].Waiting? {
          WaitOverKeeps(s, caller);
        } else {
          assert RetrieverKnows(s, s.retrievers[caller]);
          RetrieverKeeps(s, caller, Answered);
        }
      }
    case GiveUp(caller) =>
      if caller in s.retrievers {
        RetrieverKeeps(s, caller, Answered);
      }
  }

  lemma StagedKeepsIds(s: State, call: nat, stage: Stage)
    requires call < |s.calls|
    ensures SameIds(s.calls, Staged(s, call, stage).calls)
  {
  }

  lemma CloseKeepsCalls(s: State, id: string)
    ensures Close(s, id).calls == s.calls && Close(s, id).cached == s.cached
  {
  }

  lemma SameIdsSelf(calls: seq<Call>)
    ensures SameIds(calls, calls)
  {
  }

  lemma ProduceKeepsIds(s: State, call: nat, ok: bool)
    requires call < |s.calls|
    ensures SameIds(s.calls, ProduceStep(s, call, ok).calls)
  {
    hide Staged, Close, SameIds;
    StagedKeepsIds(s, call, Caching);
    StagedKeepsIds(s, call, Closing);
    StagedKeepsIds(s, call, Done);
    CloseKeepsCalls(Staged(s, call, Done), s.calls[call].id);
    SameIdsSelf(s.calls);
  }

  lemma CallsGrowOne(s: State, a: Action)
    ensures SameIds(s.calls, Next(s, a).calls)
  {
    hide ProduceStep;
    if a.Produce? && a.call < |s.calls| {
      ProduceKeepsIds(s, a.call, a.ok);
    }
  }

  lemma SameIdsTrans(a: seq<Call>, b: seq<Call>, c: seq<Call>)
    requires SameIds(a, b) && SameIds(b, c)
    ensures SameIds(a, c)
  {
  }

  /** Calls are never forgotten, and keep their ids. */
  lemma {:induction false} CallsGrow(s: State, actions: seq<Action>)
    ensures SameIds(s.calls, Run(s, actions).calls)
    decreases |actions|
  {
    hide Next;
    if |actions| > 0 {
      CallsGrowOne(s, actions[0]);
      CallsGrow(Next(s, actions[0]), actions[1..]);
      SameIdsTrans(s.calls, Next(s, actions[0]).calls, Run(s, actions).calls);
    }
  }

  /** Every id is used only when it may be. */
  predicate CarefulRun(s: State, actions: seq<Action>)
    decreases |actions|
  {
    |actions| > 0 ==>
      && (actions[0].Generate? ==> Careful(s, actions[0].id))
      && CarefulRun(Next(s, actions[0]), actions[1..])
  }

  lemma {:induction false} RunKeeps(s: State, actions: seq<Action>)
    requires Safe(s) && CarefulRun(s, actions)
    ensures Safe(Run(s, actions))
    decreases |actions|
  {
    hide Safe, Next, Careful;
    if |actions| > 0 {
      NextKeeps(s, actions[0]);
      RunKeeps(Next(s, actions[0]), actions[1..]);
    }
  }

  /** In every interleaving in which ids are used with care: no close fails; a signal in the
      map is a channel made for its id; it stays there until it is closed, which happens
      exactly once, when its goroutine ends; and a retriever that found a signal waits on a
      channel made for its id, and reads the cache only once that goroutine has ended. */
  lemma SignalsAreSafe(actions: seq<Action>)
    requires CarefulRun(Init(), actions)
    ensures var s := Run(Init(), actions);
            && !s.crashed
            && ClosedOnce(s)
            && SignalsHold(s)
            && forall caller :: caller in s.retrievers ==> RetrieverKnows(s, s.retrievers[caller])
  {
    hide Run, CarefulRun;
    RunKeeps(Init(), actions);
  }

  /** An id that was never used may be used. */
  lemma UnusedIsCareful(s: State, id: string)
    requires Safe(s) && UniqueIds(GenerateStep(s, id).calls)
    ensures Careful(s, id)
  {
    var t := GenerateStep(s, id);
    forall k | 0 <= k < |s.calls| ensures s.calls[k].id != id {
      assert t.calls[k] == s.calls[k] && t.calls[|s.calls|].id == id;
    }
    forall caller | caller in s.retrievers && s.retrievers[caller].Waiting? ensures s.retrievers[caller].id != id {
      assert RetrieverKnows(s, s.retrievers[caller]);
    }
  }

  lemma {:induction false} UniqueIdsAreCareful(s: State, actions: seq<Action>)
    requires Safe(s) && UniqueIds(Run(s, actions).calls)
    ensures CarefulRun(s, actions)
    decreases |actions|
  {
    hide Safe, Next, Careful;
    if |actions| > 0 {
      var t := Next(s, actions[0]);
      CallsGrow(t, actions[1..]);
      SameIdsUnique(t.calls, Run(s, actions).calls);
      if actions[0].Generate? {
        assert t == GenerateStep(s, actions[0].id) by { NextGenerates(s, actions[0].id); }
        UnusedIsCareful(s, actions[0].id);
      }
      NextKeeps(s, actions[0]);
      UniqueIdsAreCareful(t, actions[1..]);
    }
  }

  lemma NextGenerates(s: State, id: string)
    ensures Next(s, Generate(id)) == GenerateStep(s, id)
  {
  }

  /** A retriever that asks while the speech is being made finds the signal of that call. */
  lemma AskFindsSignal(s: State, k: nat, caller: nat)
    requires Safe(s) && k < |s.calls| && s.calls[k].stage != Done && caller !in s.retrievers
    ensures Next(s, Ask(caller, s.calls[k].id)).retrievers[caller] == Waiting(s.calls[k].id, k)
  {
  }

  /** A step of one goroutine touches no other, and caches only under its own id. */
  lemma ProduceTouches(s: State, call: nat, ok: bool, k: nat)
    requires call < |s.calls| && k < |s.calls| && (k == call ==> s.calls[k].stage == Done)
    ensures var t := ProduceStep(s, call, ok);
            && k < |t.calls| && t.calls[k] == s.calls[k]
            && (s.calls[call].stage == Done ==> t == s)
            && (forall id :: id != s.calls[call].id ==> (id in t.cached <==> id in s.cached))
  {
    CloseKeepsCalls(Staged(s, call, Done), s.calls[call].id);
  }

  lemma CacheSettled(s: State, a: Action, k: nat)
    requires UniqueIds(s.calls) && k < |s.calls| && s.calls[k].stage == Done
    ensures var t := Next(s, a);
            && k < |t.calls| && t.calls[k] == s.calls[k]
            && (s.calls[k].id in t.cached <==> s.calls[k].id in s.cached)
  {
    hide ProduceStep;
    if a.Produce? && a.call < |s.calls| {
      ProduceTouches(s, a.call, a.ok, k);
      assert a.call != k ==> s.calls[a.call].id != s.calls[k].id;
    }
  }

  /** What a retriever finds once the goroutine is done is final: whatever happens later, the
      speech is in the cache exactly if it was then (expiry aside). */
  lemma {:induction false} OutcomeIsFinal(s: State, actions: seq<Action>, k: nat)
    requires UniqueIds(Run(s, actions).calls) && k < |s.calls| && s.calls[k].stage == Done
    ensures s.calls[k].id in Run(s, actions).cached <==> s.calls[k].id in s.cached
    decreases |actions|
  {
    hide Next, UniqueIds;
    if |actions| > 0 {
      var t := Next(s, actions[0]);
      CallsGrow(s, actions);
      SameIdsUnique(s.calls, Run(s, actions).calls);
      CallsGrowOne(s, actions[0]);
      CacheSettled(s, actions[0], k);
      OutcomeIsFinal(t, actions[1..], k);
    }
  }

  // ----- ids that are used again -----

  /** Three steps that take a goroutine to its end, whose generation fails if it is not done. */
  function Finish(call: nat): seq<Action> {
    [Produce(call, false), Produce(call, false), Produce(call, false)]
  }

  lemma RunThree(s: State, a: Action, b: Action, c: Action)
    ensures Run(s, [a, b, c]) == Next(Next(Next(s, a), b), c)
  {
    assert [a, b, c][1..] == [b, c] && [b, c][1..] == [c] && [c][1..] == [];
    assert Run(s, [a, b, c]) == Run(Next(s, a), [b, c]) == Run(Next(Next(s, a), b), [c]);
  }

  lemma FinishCloses(s: State, call: nat)
    requires call < |s.calls| && s.calls[call].stage != Done
    ensures Run(s, Finish(call)) == Close(Staged(s, call, Done), s.calls[call].id)
  {
    hide Close, GenerateStep, AskStep, ProceedStep, Run;
    RunThree(s, Produce(call, false), Produce(call, false), Produce(call, false));
    CloseKeepsCalls(Staged(s, call, Done), s.calls[call].id);
    var closing, id := Staged(s, call, Closing), s.calls[call].id;
    assert Staged(closing, call, Done) == Staged(s, call, Done);
    assert s.calls[call].stage == Closing ==> closing == s;
    assert Next(closing, Produce(call, false)) == Close(Staged(s, call, Done), id);
    var closed := Close(Staged(s, call, Done), id);
    assert Next(closed, Produce(call, false)) == closed;
  }

  lemma {:induction false} RunAppend(s: State, a: seq<Action>, b: seq<Action>)
    ensures Run(s, a + b) == Run(Run(s, a), b)
    decreases |a|
  {
    hide Next;
    if |a| == 0 {
      assert a + b == b;
    } else {
      assert (a + b)[1..] == a[1..] + b;
      RunAppend(Next(s, a[0]), a[1..], b);
    }
  }

  /** Two goroutines for the same id close the channel that the map holds, one after the
      other. */
  lemma TwoClosesCrash(s: State, first: nat, second: nat)
    requires first < |s.calls| && second < |s.calls| && first != second
    requires s.calls[first].id == s.calls[second].id
    requires s.calls[first].stage != Done && s.calls[second].stage != Done
    ensures Run(s, Finish(first) + Finish(second)).crashed
  {
    hide Run;
    FinishCloses(s, first);
    var t := Run(s, Finish(first));
    assert t.calls[second] == s.calls[second];
    FinishCloses(t, second);
    RunAppend(s, Finish(first), Finish(second));
  }

  predicate NoGenerate(actions: seq<Action>) {
    forall k :: 0 <= k < |actions| ==> !actions[k].Generate?
  }

  lemma {:induction false} NoGenerateIsCareful(s: State, actions: seq<Action>)
    requires NoGenerate(actions)
    ensures CarefulRun(s, actions)
    decreases |actions|
  {
    hide Next, Careful;
    if |actions| > 0 {
      NoGenerateIsCareful(Next(s, actions[0]), actions[1..]);
    }
  }

  /** A retriever that still waits on an old channel deletes the new one from the map before
      the new goroutine closes it. */
  lemma LateRetrieverCrashes(s: State, id: string, caller: nat)
    requires Safe(s) && caller in s.retrievers && s.retrievers[caller].Waiting? && s.retrievers[caller].id == id
    requires forall k :: 0 <= k < |s.calls| && s.calls[k].id == id ==> s.calls[k].stage == Done
    ensures Run(Next(s, Generate(id)), [Proceed(caller)] + Finish(|s.calls|)).crashed
  {
    var t, n := Next(s, Generate(id)), |s.calls|;
    var channel := s.retrievers[caller].channel;
    assert RetrieverKnows(s, s.retrievers[caller]);
    assert channel in t.closes;
    var u := Next(t, Proceed(caller));
    assert u.calls == t.calls && u.calls[n] == Call(id, Generating) && id !in u.signals;
    FinishCloses(u, n);
    assert ([Proceed(caller)] + Finish(n))[1..] == Finish(n);
  }

  /** A careless use of an id has a continuation, with no other use of an id, that crashes. */
  lemma CarelessCrashes(s: State, id: string) returns (rest: seq<Action>)
    requires Safe(s) && !Careful(s, id)
    ensures NoGenerate(rest) && Run(Next(s, Generate(id)), rest).crashed
  {
    hide Run;
    if k :| 0 <= k < |s.calls| && s.calls[k].id == id && s.calls[k].stage != Done {
      rest := Finish(k) + Finish(|s.calls|);
      var t := Next(s, Generate(id));
      assert t.calls[k] == s.calls[k] && t.calls[|s.calls|] == Call(id, Generating);
      TwoClosesCrash(t, k, |s.calls|);
    } else {
      var caller :| caller in s.retrievers && s.retrievers[caller].Waiting? && s.retrievers[caller].id == id;
      rest := [Proceed(caller)] + Finish(|s.calls|);
      LateRetrieverCrashes(s, id, caller);
    }
  }

  /** No way to go on with care crashes. */
  ghost predicate CannotCrash(s: State) {
    forall rest :: CarefulRun(s, rest) ==> !Run(s, rest).crashed
  }

  /** After any careful run an id may be used safely exactly when all its goroutines are done
      and no retriever waits for them, whether or not it was used before. */
  lemma ReuseExactly(actions: seq<Action>, id: string)
    requires CarefulRun(Init(), actions)
    ensures var s := Run(Init(), actions);
            CannotCrash(Next(s, Generate(id))) <==> Careful(s, id)
  {
    hide Run, CarefulRun, Careful, Next;
    RunKeeps(Init(), actions);
    var s := Run(Init(), actions);
    var t := Next(s, Generate(id));
    if Careful(s, id) {
      NextKeeps(s, Generate(id));
      forall rest | CarefulRun(t, rest) ensures !Run(t, rest).crashed {
        RunKeeps(t, rest);
      }
    } else {
      var rest := CarelessCrashes(s, id);
      NoGenerateIsCareful(t, rest);
    }
  }

  // ----- which ids can crash the server -----

  function GenerateAll(ids: seq<string>): (actions: seq<Action>) {
    if |ids| == 0 then [] else [Generate(ids[0])] + GenerateAll(ids[1..])
  }

  lemma {:induction false} GeneratesAll(s: State, ids: seq<string>)
    ensures var t := Run(s, GenerateAll(ids));
            && |t.calls| == |s.calls| + |ids|
            && t.calls[..|s.calls|] == s.calls
            && forall k :: 0 <= k < |ids| ==> t.calls[|s.calls| + k] == Call(ids[k], Generating)
    decreases |ids|
  {
    if |ids| > 0 {
      var u := GenerateStep(s, ids[0]);
      GeneratesAll(u, ids[1..]);
      assert GenerateAll(ids)[1..] == GenerateAll(ids[1..]);
      var t := Run(u, GenerateAll(ids[1..]));
      assert t.calls[..|s.calls|] == t.calls[..|u.calls|][..|s.calls|] == s.calls;
      assert t.calls[|s.calls|] == t.calls[..|u.calls|][|s.calls|];
      forall k | 0 <= k < |ids| ensures t.calls[|s.calls| + k] == Call(ids[k], Generating) {
        if k > 0 {
          assert t.calls[|u.calls| + (k - 1)] == Call(ids[1..][k - 1], Generating);
        }
      }
    }
  }

  lemma FinishKeepsIds(s: State, call: nat)
    requires call < |s.calls| && s.calls[call].stage != Done
    ensures Ids(Run(s, Finish(call)).calls) == Ids(s.calls)
  {
    FinishCloses(s, call);
  }

  /** Two uses of an id: once all goroutines have started, the two of them end. */
  lemma RepeatedIdCrashes(ids: seq<string>) returns (actions: seq<Action>)
    requires !Distinct(ids)
    ensures Ids(Run(Init(), actions).calls) == ids && Run(Init(), actions).crashed
  {
    hide Run, Finish;
    var i, j :| 0 <= i < j < |ids| && ids[i] == ids[j];
    var all := GenerateAll(ids);
    var s := Run(Init(), all);
    GeneratesAll(Init(), ids);
    assert s.calls[|Init().calls| + i].id == s.calls[|Init().calls| + j].id;
    TwoClosesCrash(s, i, j);
    FinishKeepsIds(s, i);
    FinishCloses(s, i);
    FinishKeepsIds(Run(s, Finish(i)), j);
    RunAppend(s, Finish(i), Finish(j));
    actions := all + (Finish(i) + Finish(j));
    RunAppend(Init(), all, Finish(i) + Finish(j));
    assert Ids(s.calls) == ids;
  }

  /** No interleaving of calls with these ids crashes. */
  ghost predicate NeverCrashes(ids: seq<string>) {
    forall actions :: Ids(Run(Init(), actions).calls) == ids ==> !Run(Init(), actions).crashed
  }

  /** A sequence of ids is safe in every interleaving exactly when no id occurs twice. */
  lemma CrashFreeExactly(ids: seq<string>)
    ensures NeverCrashes(ids) <==> Distinct(ids)
  {
    hide Run, CarefulRun;
    if Distinct(ids) {
      forall actions | Ids(Run(Init(), actions).calls) == ids ensures !Run(Init(), actions).crashed {
        UniqueIdsAreCareful(Init(), actions);
        SignalsAreSafe(actions);
      }
    } else {
      var actions := RepeatedIdCrashes(ids);
    }
  }

  // ----- what is in the cache -----

  /** The ids for which a schedule calls for speech, in order. */
  function Called(actions: seq<Action>): seq<string> {
    if |actions| == 0 then []
    else
      var a, before := actions[|actions| - 1], Called(actions[..|actions| - 1]);
      if a.Generate? then before + [a.id] else before
  }

  /** The outcomes of the steps of one call's goroutine. */
  function Outcomes(actions: seq<Action>, call: nat): seq<bool> {
    if |actions| == 0 then []
    else
      var front, a := actions[..|actions| - 1], actions[|actions| - 1];
      if a.Produce? && a.call == call && call < |Called(front)| then Outcomes(front, call) + [a.ok]
      else Outcomes(front, call)
  }

  /** The speech was generated, and then stored. */
  predicate Stores(outcomes: seq<bool>) {
    |outcomes| >= 2 && outcomes[0] && outcomes[1]
  }

  function StageAfter(outcomes: seq<bool>): Stage {
    if |outcomes| == 0 then Generating
    else if outcomes[0] then
      if |outcomes| == 1 then Caching else if |outcomes| == 2 then Closing else Done
    else if |outcomes| == 1 then Closing
    else Done
  }

  predicate StoredBy(actions: seq<Action>, id: string) {
    exists k :: 0 <= k < |Called(actions)| && Called(actions)[k] == id && Stores(Outcomes(actions, k))
  }

  /** Calls and their stages are what the schedule says. */
  predicate CallsAre(s: State, actions: seq<Action>) {
    && Ids(s.calls) == Called(actions)
    && forall k :: 0 <= k < |s.calls| ==> s.calls[k].stage == StageAfter(Outcomes(actions, k))
  }

  lemma ProduceCall(s: State, call: nat, ok: bool)
    requires call < |s.calls|
    ensures var t := ProduceStep(s, call, ok);
            && |t.calls| == |s.calls|
            && (forall k :: 0 <= k < |s.calls| && k != call ==> t.calls[k] == s.calls[k])
            && t.calls[call].id == s.calls[call].id
            && t.cached == (if s.calls[call].stage == Caching && ok then s.cached + {s.calls[call].id} else s.cached)
            && t.calls[call].stage == match s.calls[call].stage
                                      case Generating => if ok then Caching else Closing
                                      case Caching => Closing
                                      case _ => Done
  {
    hide Close;
    CloseKeepsCalls(Staged(s, call, Done), s.calls[call].id);
  }

  lemma OutcomesSnoc(actions: seq<Action>, a: Action, k: nat)
    ensures Called(actions + [a]) == Called(actions) + if a.Generate? then [a.id] else []
    ensures Outcomes(actions + [a], k) ==
            Outcomes(actions, k) + if a.Produce? && a.call == k && k < |Called(actions)| then [a.ok] else []
  {
    assert (actions + [a])[..|actions|] == actions;
    assert Called(actions) + [] == Called(actions) && Outcomes(actions, k) + [] == Outcomes(actions, k);
  }

  lemma {:induction false} NoOutcomesYet(actions: seq<Action>, k: nat)
    requires k >= |Called(actions)|
    ensures Outcomes(actions, k) == []
  {
    if |actions| > 0 {
      NoOutcomesYet(actions[..|actions| - 1], k);
    }
  }

  lemma NextCalls(s: State, actions: seq<Action>, a: Action)
    requires CallsAre(s, actions)
    ensures CallsAre(Next(s, a), actions + [a])
  {
    hide ProduceStep, Called, Outcomes, AskStep, ProceedStep;
    var t, after := Next(s, a), actions + [a];
    OutcomesSnoc(actions, a, 0);
    assert Called(actions) + [] == Called(actions);
    if a.Produce? && a.call < |s.calls| {
      ProduceCall(s, a.call, a.ok);
    }
    if !a.Produce? && !a.Generate? {
      OthersKeepCalls(s, a);
    }
    assert Ids(t.calls) == Called(after);
    forall k | 0 <= k < |t.calls| ensures t.calls[k].stage == StageAfter(Outcomes(after, k)) {
      OutcomesSnoc(actions, a, k);
      if k == |s.calls| {
        NoOutcomesYet(actions, k);
      } else {
        assert s.calls[k].stage == StageAfter(Outcomes(actions, k));
        assert Outcomes(actions, k) + [] == Outcomes(actions, k);
      }
    }
  }

  lemma OthersKeepCalls(s: State, a: Action)
    requires !a.Produce? && !a.Generate?
    ensures Next(s, a).calls == s.calls && Next(s, a).cached == s.cached
  {
  }

  lemma StoresSnoc(outcomes: seq<bool>, ok: bool)
    ensures Stores(outcomes + [ok]) <==> Stores(outcomes) || (StageAfter(outcomes) == Caching && ok)
  {
  }

  lemma NextCaches(s: State, actions: seq<Action>, a: Action, id: string)
    requires CallsAre(s, actions) && (id in s.cached <==> StoredBy(actions, id))
    ensures id in Next(s, a).cached <==> StoredBy(actions + [a], id)
  {
    hide ProduceStep, Called, Outcomes, StageAfter, Stores, AskStep, ProceedStep;
    var after := actions + [a];
    OutcomesSnoc(actions, a, 0);
    forall k | 0 <= k < |Called(after)|
      ensures Called(after)[k] == id && Stores(Outcomes(after, k)) <==>
              k < |s.calls| && s.calls[k].id == id
              && (Stores(Outcomes(actions, k))
                  || (a.Produce? && a.call == k && s.calls[k].stage == Caching && a.ok))
    {
      OutcomesSnoc(actions, a, k);
      assert Outcomes(actions, k) + [] == Outcomes(actions, k);
      if k == |s.calls| {
        NoOutcomesYet(actions, k);
        NothingStored();
      } else if a.Produce? && a.call == k {
        StoresSnoc(Outcomes(actions, k), a.ok);
      }
    }
    if a.Produce? && a.call < |s.calls| {
      ProduceCall(s, a.call, a.ok);
    } else if !a.Produce? && !a.Generate? {
      OthersKeepCalls(s, a);
    }
    if k :| 0 <= k < |Called(actions)| && Called(actions)[k] == id && Stores(Outcomes(actions, k)) {
      assert Called(after)[k] == id && Stores(Outcomes(after, k));
    }
  }

  lemma NothingStored()
    ensures !Stores([])
  {
  }

  /** Over every run, unique ids or not: a speech is in the cache (expiry aside) exactly if some
      call for its id generated it and then stored it, going by the schedule alone. */
  lemma {:induction false} CachedExactly(actions: seq<Action>)
    ensures CallsAre(Run(Init(), actions), actions)
    ensures forall id :: id in Run(Init(), actions).cached <==> StoredBy(actions, id)
  {
    hide Next, CallsAre, StoredBy;
    if |actions| == 0 {
      NothingCached();
    } else {
      var front, a := actions[..|actions| - 1], actions[|actions| - 1];
      var s := Run(Init(), front);
      CachedExactly(front);
      assert actions == front + [a];
      RunAppend(Init(), front, [a]);
      RunOne(s, a);
      NextCalls(s, front, a);
      forall id ensures id in Next(s, a).cached <==> StoredBy(actions, id) {
        NextCaches(s, front, a, id);
      }
    }
  }

  lemma RunOne(s: State, a: Action)
    ensures Run(s, [a]) == Next(s, a)
  {
    assert [a][1..] == [];
  }

  lemma NothingCached()
    ensures Run(Init(), []) == Init() && CallsAre(Init(), []) && forall id :: !StoredBy([], id)
  {
  }
}
