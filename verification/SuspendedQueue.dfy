/** The queue of suspended session ids: storage/session.go:23-55 over the list operations of
    platform/orm.go, and its consumer, lifecycle/session.go:141-165.

    Ids are pushed on the left.  A fetch moves the rightmost id to the left end, and the
    consumer later removes the first occurrence of that id from the left.
 */
module SuspendedQueue {
  import opened GoStrings
  import opened Redis

  method AddSuspendedSession(queue: RedisList, id: string, up: bool) returns (ok: bool)
    modifies queue
    ensures ok == up
    ensures queue.items == if up then [id] + old(queue.items) else old(queue.items)
  {
    ok := queue.PushListMembers(true, [id], up);
    assert Reverse([id]) == [id];
  }

  method RemoveSuspendedSession(queue: RedisList, id: string, up: bool) returns (ok: bool)
    modifies queue
    ensures ok == up
    ensures queue.items == if up then RemoveUpTo(old(queue.items), 1, id) else old(queue.items)
  {
    ok := queue.RemoveListElement(1, id, up);
  }

  /** None stands for the empty id of a timeout and for an error. */
  method WaitForSuspendedSession(queue: RedisList, up: bool) returns (id: Option<string>)
    modifies queue
    ensures id.Some? <==> up && |old(queue.items)| > 0
    ensures id.None? ==> queue.items == old(queue.items)
    ensures id.Some? ==>
              id.value == old(queue.items)[|old(queue.items)| - 1] && queue.items == Rotated(old(queue.items))
  {
    id := queue.FetchListMemberBlocking(false, up);
  }

  function Rotated(items: seq<string>): seq<string>
    requires |items| > 0
  {
    [items[|items| - 1]] + items[..|items| - 1]
  }

  // ----- removing from the left -----

  lemma {:induction false} RemoveOneIs(before: seq<string>, id: string, after: seq<string>)
    requires id !in before
    ensures RemoveUpTo(before + [id] + after, 1, id) == before + after
  {
    var items := before + [id] + after;
    if |before| == 0 {
      assert items[1..] == after && before + after == after;
    } else {
      assert items[0] == before[0] && items[1..] == before[1..] + [id] + after;
      RemoveOneIs(before[1..], id, after);
      assert [before[0]] + (before[1..] + after) == before + after;
    }
  }

  lemma {:induction false} RemoveTakesOne(items: seq<string>, id: string)
    ensures multiset(RemoveUpTo(items, 1, id)) == multiset(items) - multiset{id}
  {
    if |items| > 0 {
      assert items == [items[0]] + items[1..];
      if items[0] != id {
        RemoveTakesOne(items[1..], id);
        assert multiset([items[0]] + RemoveUpTo(items[1..], 1, id))
            == multiset([items[0]]) + multiset(RemoveUpTo(items[1..], 1, id));
      }
    }
  }

  // ----- one consumer, any producers -----

  /** `added`, `queued`, `served` and `removed` are history.  `queued` holds the ids in the order
      in which they took their place in the queue: those that were added, and those whose
      removal failed, which keep the place that their fetch gave them.  `mark` is how many
      had been queued when the id in flight was fetched. */
  datatype Queue = Queue(
    items: seq<string>, inFlight: Option<string>, added: seq<string>, queued: seq<string>, served: seq<string>,
    removed: seq<string>, mark: nat)

  datatype Action = Add(id: string, up: bool) | Fetch(up: bool) | Remove(up: bool)

  function Init(items: seq<string>): Queue {
    Queue(items, None, [], [], [], [], 0)
  }

  function Inserted(ids: seq<string>, at: nat, id: string): seq<string> {
    if at <= |ids| then ids[..at] + [id] + ids[at..] else ids
  }

  function Next(q: Queue, a: Action): Queue {
    match a
    case Add(id, up) =>
      if up then q.(items := [id] + q.items, added := q.added + [id], queued := q.queued + [id]) else q
    case Fetch(up) =>
      if up && q.inFlight.None? && |q.items| > 0 then
        var id := q.items[|q.items| - 1];
        q.(items := Rotated(q.items), inFlight := Some(id), served := q.served + [id], mark := |q.queued|)
      else q
    case Remove(up) =>
      if q.inFlight.None? then q
      else if up then
        q.(items := RemoveUpTo(q.items, 1, q.inFlight.value), inFlight := None,
           removed := q.removed + [q.inFlight.value])
      else q.(inFlight := None, queued := Inserted(q.queued, q.mark, q.inFlight.value))
  }

  function Run(q: Queue, actions: seq<Action>): Queue
    decreases |actions|
  {
    if |actions| == 0 then q else Run(Next(q, actions[0]), actions[1..])
  }

  /** Nothing is lost or duplicated: what was in the queue and what was added is either
      still queued or was removed; and the id in flight is still queued. */
  predicate Safe(items: seq<string>, q: Queue) {
    && multiset(q.items) + multiset(q.removed) == multiset(items) + multiset(q.added)
    && (q.inFlight.Some? ==> q.inFlight.value in q.items)
  }

  lemma RotationKeeps(items: seq<string>)
    requires |items| > 0
    ensures multiset(Rotated(items)) == multiset(items)
    ensures items[|items| - 1] in Rotated(items)
  {
    var last := |items| - 1;
    assert items == items[..last] + [items[last]];
    assert Rotated(items)[0] == items[last];
  }

  lemma SafeRemove(items: seq<string>, q: Queue)
    requires Safe(items, q) && q.inFlight.Some?
    ensures Safe(items, Next(q, Remove(true)))
  {
    hide RemoveUpTo;
    var id := q.inFlight.value;
    RemoveTakesOne(q.items, id);
    assert id in multiset(q.items);
    assert multiset(q.removed + [id]) == multiset(q.removed) + multiset{id};
  }

  lemma SafeAdd(items: seq<string>, q: Queue, id: string)
    requires Safe(items, q)
    ensures Safe(items, Next(q, Add(id, true)))
  {
    assert forall x :: x in q.items ==> x in [id] + q.items;
    assert multiset([id] + q.items) == multiset{id} + multiset(q.items);
    assert multiset(q.added + [id]) == multiset(q.added) + multiset{id};
    var all := multiset(items) + multiset(q.added) + multiset{id};
    assert multiset{id} + multiset(q.items) + multiset(q.removed) == all;
    assert multiset(items) + (multiset(q.added) + multiset{id}) == all;
  }

  lemma SafeNext(items: seq<string>, q: Queue, a: Action)
    requires Safe(items, q)
    ensures Safe(items, Next(q, a))
  {
    hide RemoveUpTo;
    match a
    case Add(id, up) =>
      SafeAdd(items, q, id);
    case Fetch(up) =>
      if |q.items| > 0 {
        RotationKeeps(q.items);
      }
    case Remove(up) =>
      if up && q.inFlight.Some? {
        SafeRemove(items, q);
      }
  }

  /** For every interleaving with any producers and failures the queue is safe. */
  lemma {:induction false} QueueIsSafe(items: seq<string>, q: Queue, actions: seq<Action>)
    requires Safe(items, q)
    ensures Safe(items, Run(q, actions))
    decreases |actions|
  {
    if |actions| > 0 {
      SafeNext(items, q, actions[0]);
      QueueIsSafe(items, Next(q, actions[0]), actions[1..]);
    }
  }

  // ----- first in, first out -----

  /** All ids in the order in which they were queued, oldest first. */
  function All(items: seq<string>, q: Queue): seq<string> {
    Reverse(items) + q.queued
  }

  /** What has been served is a prefix of what was queued; the list is the rest, newest first,
      with the id in flight between what was added since it was fetched and the ids that
      were waiting then. */
  predicate Fifo(items: seq<string>, q: Queue) {
    var all, n := All(items, q), |q.served|;
    && n <= |all|
    && q.served == all[..n]
    && (q.inFlight.None? ==> q.items == Reverse(all[n..]))
    && (q.inFlight.Some? ==>
          && n > 0 && q.inFlight.value == all[n - 1]
          && q.mark <= |q.queued| && n <= |items| + q.mark
          && q.items == Around(all, n, |items| + q.mark))
  }

  lemma {:induction false} ReverseAppend<T>(a: seq<T>, b: seq<T>)
    ensures Reverse(a + b) == Reverse(b) + Reverse(a)
  {
    if |a| == 0 {
      assert a + b == b && Reverse(b) + [] == Reverse(b);
    } else {
      assert (a + b)[1..] == a[1..] + b;
      ReverseAppend(a[1..], b);
      assert Reverse(b) + (Reverse(a[1..]) + [a[0]]) == Reverse(b) + Reverse(a[1..]) + [a[0]];
    }
  }

  /** The list while an id is in flight. */
  function Around(all: seq<string>, n: nat, m: nat): seq<string>
    requires 0 < n <= m <= |all|
  {
    Reverse(all[m..]) + [all[n - 1]] + Reverse(all[n..m])
  }

  lemma AroundSnoc(all: seq<string>, n: nat, m: nat, id: string)
    requires 0 < n <= m <= |all|
    ensures Around(all + [id], n, m) == [id] + Around(all, n, m)
  {
    hide Reverse;
    assert (all + [id])[m..] == all[m..] + [id] && (all + [id])[n..m] == all[n..m];
    ReverseSnoc(all[m..], id);
  }

  lemma FifoAdd(items: seq<string>, q: Queue, id: string)
    requires Fifo(items, q)
    ensures Fifo(items, Next(q, Add(id, true)))
  {
    hide Reverse, Around;
    var all, n := All(items, q), |q.served|;
    assert All(items, Next(q, Add(id, true))) == all + [id];
    assert (all + [id])[..n] == all[..n];
    if q.inFlight.None? {
      assert (all + [id])[n..] == all[n..] + [id];
      ReverseSnoc(all[n..], id);
    } else {
      AroundSnoc(all, n, |items| + q.mark, id);
    }
  }

  lemma ReverseCons(s: seq<string>)
    requires |s| > 0
    ensures Reverse(s) == Reverse(s[1..]) + [s[0]]
  {
  }

  lemma ReverseNone()
    ensures Reverse<string>([]) == []
  {
  }

  lemma AroundFetched(all: seq<string>, n: nat)
    requires n < |all|
    ensures Reverse(all[n..])[|all| - n - 1] == all[n]
    ensures Rotated(Reverse(all[n..])) == Around(all, n + 1, |all|)
  {
    hide Reverse;
    var waiting := all[n..];
    ReverseCons(waiting);
    assert waiting[1..] == all[n + 1..|all|] && all[|all|..] == [];
    assert Rotated(Reverse(waiting)) == [all[n]] + Reverse(waiting[1..]);
    ReverseNone();
    assert [] + [all[n]] == [all[n]];
  }

  lemma FifoFetch(items: seq<string>, q: Queue)
    requires Fifo(items, q) && q.inFlight.None? && |q.items| > 0
    ensures Fifo(items, Next(q, Fetch(true)))
  {
    hide Reverse, Around, Rotated;
    var all, n := All(items, q), |q.served|;
    AroundFetched(all, n);
    assert all[..n + 1] == all[..n] + [all[n]];
  }

  lemma {:induction false} ReverseTwice<T>(s: seq<T>)
    ensures Reverse(Reverse(s)) == s
  {
    if |s| > 0 {
      ReverseTwice(s[1..]);
      ReverseSnoc(Reverse(s[1..]), s[0]);
    }
  }

  /** Wherever `x` occurs in the list, only `x` follows. */
  predicate OnlyAfter(added: seq<string>, x: string) {
    forall j, k :: 0 <= j < k < |added| && added[j] == x ==> added[k] == x
  }

  lemma {:induction false} ShiftIsAllSame(v: seq<string>, x: string)
    ensures v + [x] == [x] + v <==> forall k :: 0 <= k < |v| ==> v[k] == x
  {
    if |v| > 0 {
      ShiftIsAllSame(v[1..], x);
      assert v == [v[0]] + v[1..];
      assert (v + [x])[1..] == v[1..] + [x] && ([x] + v)[1..] == v;
      assert v + [x] == [v[0]] + (v[1..] + [x]);
      if v + [x] == [x] + v {
        assert v[0] == (v + [x])[0] == x;
      }
    }
  }

  lemma OnlyAfterCons(first: string, rest: seq<string>, x: string)
    ensures OnlyAfter([first] + rest, x) <==>
            OnlyAfter(rest, x) && (first == x ==> forall k :: 0 <= k < |rest| ==> rest[k] == x)
  {
    var added := [first] + rest;
    assert forall k :: 0 <= k < |rest| ==> rest[k] == added[k + 1];
    assert forall k :: 1 <= k < |added| ==> added[k] == rest[k - 1];
    if OnlyAfter(added, x) {
      forall j, k | 0 <= j < k < |rest| && rest[j] == x ensures rest[k] == x {
        assert added[j + 1] == x && added[k + 1] == rest[k];
      }
      forall k | 0 <= k < |rest| && first == x ensures rest[k] == x {
        assert added[0] == x && added[k + 1] == rest[k];
      }
    }
  }

  /** One fetch and removal, with ids added in between (`added`, newest first): the fetched
      id is what leaves the queue, in order, exactly when between the fetch and the last
      time it was added again nothing else was added. */
  lemma {:induction false} CycleKeepsOrderExactly(added: seq<string>, x: string, waiting: seq<string>)
    ensures RemoveUpTo(added + [x] + waiting, 1, x) == added + waiting <==> OnlyAfter(added, x)
    decreases |added|
  {
    var items := added + [x] + waiting;
    if |added| == 0 {
      assert [] + [x] + waiting == items && [] + waiting == waiting;
      RemoveOneIs([], x, waiting);
    } else {
      var rest := added[1..];
      assert items == [added[0]] + (rest + [x] + waiting) && items[1..] == rest + [x] + waiting;
      assert added + waiting == [added[0]] + (rest + waiting);
      assert added == [added[0]] + rest;
      OnlyAfterCons(added[0], rest, x);
      if added[0] == x {
        ShiftIsAllSame(rest, x);
        SameBack(rest + [x], [x] + rest, waiting);
        assert RemoveUpTo(items, 1, x) == rest + [x] + waiting;
        assert added + waiting == [x] + rest + waiting;
      } else {
        CycleKeepsOrderExactly(rest, x, waiting);
        assert RemoveUpTo(items, 1, x) == [added[0]] + RemoveUpTo(rest + [x] + waiting, 1, x);
        SameFront([added[0]], RemoveUpTo(rest + [x] + waiting, 1, x), rest + waiting);
      }
    }
  }

  // ----- order over whole runs -----

  /** Before any `x` in the list there is only `x`. */
  predicate OnlyBefore(queued: seq<string>, x: string) {
    forall j, k :: 0 <= j < k < |queued| && queued[k] == x ==> queued[j] == x
  }

  lemma ReversedOnlyAfter(queued: seq<string>, x: string)
    ensures OnlyAfter(Reverse(queued), x) <==> OnlyBefore(queued, x)
  {
    hide Reverse;
    var n, r := |queued|, Reverse(queued);
    forall k | 0 <= k < n ensures r[k] == queued[n - 1 - k] && queued[k] == r[n - 1 - k] {
      ReverseAt(queued, k);
      ReverseAt(queued, n - 1 - k);
    }
    if OnlyAfter(r, x) {
      forall j, k | 0 <= j < k < n && queued[k] == x ensures queued[j] == x {
        assert r[n - 1 - k] == x && n - 1 - k < n - 1 - j < n;
        assert r[n - 1 - j] == x;
      }
    }
    if OnlyBefore(queued, x) {
      forall j, k | 0 <= j < k < n && r[j] == x ensures r[k] == x {
        assert r[j] == queued[n - 1 - j] && r[k] == queued[n - 1 - k];
        assert 0 <= n - 1 - k < n - 1 - j < n;
      }
    }
  }

  lemma AroundRemovedExactly(all: seq<string>, n: nat, m: nat)
    requires 0 < n <= m <= |all|
    ensures RemoveUpTo(Around(all, n, m), 1, all[n - 1]) == Reverse(all[n..]) <==> OnlyBefore(all[m..], all[n - 1])
  {
    hide Reverse, RemoveUpTo, OnlyBefore;
    var since, waiting := all[m..], all[n..m];
    CycleKeepsOrderExactly(Reverse(since), all[n - 1], Reverse(waiting));
    ReversedOnlyAfter(since, all[n - 1]);
    assert all[n..] == waiting + since;
    ReverseAppend(waiting, since);
  }

  /** An action that keeps the order: a removal, if nothing else was queued between the fetch
      of the id in flight and the last time it was queued again. */
  predicate KeepsOrder(q: Queue, a: Action) {
    a.Remove? && a.up && q.inFlight.Some? && q.mark <= |q.queued| ==>
      OnlyBefore(q.queued[q.mark..], q.inFlight.value)
  }

  lemma FifoRemoveExactly(items: seq<string>, q: Queue)
    requires Fifo(items, q)
    ensures Fifo(items, Next(q, Remove(true))) <==> KeepsOrder(q, Remove(true))
  {
    hide Reverse, Around, RemoveUpTo, OnlyBefore;
    if q.inFlight.Some? {
      var all, m := All(items, q), |items| + q.mark;
      AroundRemovedExactly(all, |q.served|, m);
      assert all[m..] == q.queued[q.mark..];
    }
  }

  /** An id whose removal fails stands where its fetch put it. */
  lemma FifoFail(items: seq<string>, q: Queue)
    requires Fifo(items, q) && q.inFlight.Some?
    ensures Fifo(items, Next(q, Remove(false)))
  {
    hide Reverse, RemoveUpTo;
    var all, n, m, id := All(items, q), |q.served|, |items| + q.mark, q.inFlight.value;
    var t := Next(q, Remove(false));
    assert All(items, t) == all[..m] + [id] + all[m..];
    assert All(items, t)[..n] == all[..n];
    assert All(items, t)[n..] == all[n..m] + ([id] + all[m..]);
    ReverseAppend(all[n..m], [id] + all[m..]);
    ReverseAppend([id], all[m..]);
    assert Reverse([id]) == [id] by { ReverseNone(); ReverseCons([id]); }
  }

  lemma FifoNextExactly(items: seq<string>, q: Queue, a: Action)
    requires Fifo(items, q)
    ensures Fifo(items, Next(q, a)) <==> KeepsOrder(q, a)
  {
    hide Fifo, RemoveUpTo, Rotated, OnlyBefore;
    match a
    case Add(id, up) =>
      if up {
        FifoAdd(items, q, id);
      }
    case Fetch(up) =>
      if up && q.inFlight.None? && |q.items| > 0 {
        FifoFetch(items, q);
      }
    case Remove(up) =>
      if up {
        FifoRemoveExactly(items, q);
      } else if q.inFlight.Some? {
        FifoFail(items, q);
      }
  }

  /** Ids are served in the order in which they were queued, at every moment of a run. */
  predicate AlwaysFifo(items: seq<string>, q: Queue, actions: seq<Action>)
    decreases |actions|
  {
    Fifo(items, q) && (|actions| > 0 ==> AlwaysFifo(items, Next(q, actions[0]), actions[1..]))
  }

  predicate AllKeepOrder(q: Queue, actions: seq<Action>)
    decreases |actions|
  {
    |actions| > 0 ==> KeepsOrder(q, actions[0]) && AllKeepOrder(Next(q, actions[0]), actions[1..])
  }

  /** Over every run with any producers and failures, ids that come back included, the order
      is kept at every moment exactly if every removal keeps it. */
  lemma {:induction false} ServedInOrderExactly(items: seq<string>, q: Queue, actions: seq<Action>)
    requires Fifo(items, q)
    ensures AlwaysFifo(items, q, actions) <==> AllKeepOrder(q, actions)
    decreases |actions|
  {
    hide Fifo, Next, KeepsOrder;
    if |actions| > 0 {
      FifoNextExactly(items, q, actions[0]);
      if KeepsOrder(q, actions[0]) {
        ServedInOrderExactly(items, Next(q, actions[0]), actions[1..]);
      }
    }
  }

  lemma {:induction false} AlwaysToEnd(items: seq<string>, q: Queue, actions: seq<Action>)
    requires AlwaysFifo(items, q, actions)
    ensures Fifo(items, Run(q, actions))
    decreases |actions|
  {
    hide Fifo, Next;
    if |actions| > 0 {
      AlwaysToEnd(items, Next(q, actions[0]), actions[1..]);
    }
  }

  lemma FifoInit(items: seq<string>)
    ensures Fifo(items, Init(items)) && Safe(items, Init(items))
  {
    ReverseTwice(items);
    assert Reverse(items) + [] == Reverse(items);
    assert Reverse(items)[0..] == Reverse(items);
  }

  /** From any queue, with one consumer, any interleaved producers and failures: if every
      removal keeps the order, what has been served is what was queued first, in order; and
      nothing is lost. */
  lemma QueueServesInOrder(items: seq<string>, actions: seq<Action>)
    requires AllKeepOrder(Init(items), actions)
    ensures var q := Run(Init(items), actions);
            && q.served <= All(items, q)
            && multiset(q.items) + multiset(q.removed) == multiset(items) + multiset(q.added)
            && (q.inFlight.Some? ==> q.inFlight.value in q.items)
  {
    hide Run, Reverse, AllKeepOrder, AlwaysFifo, Around;
    FifoInit(items);
    ServedInOrderExactly(items, Init(items), actions);
    AlwaysToEnd(items, Init(items), actions);
    QueueIsSafe(items, Init(items), actions);
  }

  lemma InsertedDistinct(ids: seq<string>, at: nat, id: string)
    requires Distinct(Inserted(ids, at, id))
    ensures Distinct(ids)
  {
    var longer := Inserted(ids, at, id);
    assert at <= |ids| ==> forall k :: 0 <= k < |ids| ==> ids[k] == longer[if k < at then k else k + 1];
  }

  /** What has been queued keeps its place. */
  lemma EarlierDistinct(items: seq<string>, q: Queue, a: Action)
    requires Distinct(All(items, Next(q, a)))
    ensures Distinct(All(items, q))
  {
    hide Reverse, Distinct, RemoveUpTo, Rotated;
    var all, t := All(items, q), Next(q, a);
    if a.Remove? && q.inFlight.Some? && !a.up && q.mark <= |q.queued| {
      var at, id := |items| + q.mark, q.inFlight.value;
      assert all[..at] == Reverse(items) + q.queued[..q.mark] && all[at..] == q.queued[q.mark..];
      assert All(items, t) == Inserted(all, at, id);
      InsertedDistinct(all, at, id);
    } else {
      assert all <= All(items, t);
      PrefixDistinct(all, All(items, t));
    }
  }

  lemma PrefixDistinct(a: seq<string>, b: seq<string>)
    requires a <= b && Distinct(b)
    ensures Distinct(a)
  {
  }

  lemma {:induction false} StartDistinct(items: seq<string>, q: Queue, actions: seq<Action>)
    requires Distinct(All(items, Run(q, actions)))
    ensures Distinct(All(items, q))
    decreases |actions|
  {
    hide Next, All, Distinct;
    if |actions| > 0 {
      StartDistinct(items, Next(q, actions[0]), actions[1..]);
      EarlierDistinct(items, q, actions[0]);
    }
  }

  /** So it is, in particular, when no id is queued twice. */
  lemma {:induction false} DistinctKeepsOrder(items: seq<string>, q: Queue, actions: seq<Action>)
    requires Fifo(items, q) && Distinct(All(items, Run(q, actions)))
    ensures AllKeepOrder(q, actions)
    decreases |actions|
  {
    hide Next, All, Distinct, Fifo, KeepsOrder;
    if |actions| > 0 {
      StartDistinct(items, q, actions);
      OnceKeepsOrder(items, q, actions[0]);
      FifoNextExactly(items, q, actions[0]);
      DistinctKeepsOrder(items, Next(q, actions[0]), actions[1..]);
    }
  }

  lemma OnceKeepsOrder(items: seq<string>, q: Queue, a: Action)
    requires Fifo(items, q) && Distinct(All(items, q))
    ensures KeepsOrder(q, a)
  {
    hide Around;
    var all, m := All(items, q), |items| + q.mark;
    if q.inFlight.Some? {
      forall k | 0 <= k < |q.queued[q.mark..]| ensures q.queued[q.mark..][k] != q.inFlight.value {
        assert q.queued[q.mark..][k] == all[m + k] && q.inFlight.value == all[|q.served| - 1];
      }
    }
  }

  /** A removal that does not keep the order: an id that is added again while it is in flight overtakes one
      that was added before it. */
  lemma ReaddedIdOvertakes(x: string, y: string)
    requires x != y
    ensures var q := Next(Next(Next(Next(Init([x]), Fetch(true)), Add(y, true)), Add(x, true)), Remove(true));
            All([x], q) == [x, y, x] && q.served == [x] && Next(q, Fetch(true)).served == [x, x]
  {
    var q := Next(Next(Next(Init([x]), Fetch(true)), Add(y, true)), Add(x, true));
    assert Rotated([x]) == [x];
    assert q.items == [x, y, x];
    assert [] + [x] + [y, x] == [x, y, x];
    RemoveOneIs([], x, [y, x]);
    assert [] + [y, x] == [y, x];
    assert Reverse([x]) == [x];
  }

  // ----- the consumer -----

  predicate AllUp(outcomes: seq<(bool, bool)>) {
    forall k :: 0 <= k < |outcomes| ==> outcomes[k].0 && outcomes[k].1
  }

  /** After `i` turns without failure the oldest `i` ids are started and removed. */
  predicate Drained(items: seq<string>, i: nat, now: seq<string>, started: seq<string>, removed: seq<string>) {
    i <= |items| && started == removed == Reverse(items)[..i] && now == items[..|items| - i]
  }

  lemma DrainOne(items: seq<string>, i: nat, now: seq<string>, started: seq<string>, id: string)
    requires Drained(items, i, now, started, started) && |now| > 0 && id == now[|now| - 1]
    ensures Drained(items, i + 1, RemoveUpTo(Rotated(now), 1, id), started + [id], started + [id])
  {
    var front := now[..|now| - 1];
    assert [] + [id] + front == Rotated(now) && [] + front == front;
    RemoveOneIs([], id, front);
    ReverseAt(items, i);
    assert Reverse(items)[..i + 1] == Reverse(items)[..i] + [id];
    assert front == items[..|items| - (i + 1)];
  }

  lemma RemovedOne(before: seq<string>, removed: seq<string>, id: string)
    requires |before| > 0 && id == before[|before| - 1]
    ensures multiset(Rotated(before)) == multiset(before)
    ensures multiset(RemoveUpTo(Rotated(before), 1, id)) + multiset(removed + [id])
         == multiset(before) + multiset(removed)
  {
    hide RemoveUpTo, Rotated;
    RotationKeeps(before);
    RemoveTakesOne(Rotated(before), id);
    assert id in multiset(before);
    assert multiset(removed + [id]) == multiset(removed) + multiset{id};
  }

  /** A fetch and a removal for each turn, up to the first fetch that fails. */
  function Turns(outcomes: seq<(bool, bool)>): seq<Action> {
    if |outcomes| == 0 || !outcomes[0].0 then []
    else [Fetch(true), Remove(outcomes[0].1)] + Turns(outcomes[1..])
  }

  lemma {:induction false} RunTurn(q: Queue, outcomes: seq<(bool, bool)>)
    requires |outcomes| > 0 && outcomes[0].0
    ensures Run(q, Turns(outcomes)) == Run(Next(Next(q, Fetch(true)), Remove(outcomes[0].1)), Turns(outcomes[1..]))
  {
    hide Next;
    var rest := Turns(outcomes[1..]);
    var turns := [Fetch(true), Remove(outcomes[0].1)] + rest;
    assert turns[1..] == [Remove(outcomes[0].1)] + rest && turns[1..][1..] == rest;
    assert Run(q, turns) == Run(Next(q, Fetch(true)), turns[1..]);
  }

  /** Nothing happens with an empty queue. */
  lemma {:induction false} EmptyStays(q: Queue, outcomes: seq<(bool, bool)>)
    requires q.items == [] && q.inFlight.None?
    ensures Run(q, Turns(outcomes)) == q
    decreases |outcomes|
  {
    if |outcomes| > 0 && outcomes[0].0 {
      RunTurn(q, outcomes);
      EmptyStays(q, outcomes[1..]);
    }
  }

  /** The queue is between two turns of the consumer. */
  predicate Consumed(q: Queue, now: seq<string>, started: seq<string>, removed: seq<string>) {
    q.inFlight.None? && q.items == now && q.served == started && q.removed == removed
  }

  lemma ConsumeOne(q: Queue, now: seq<string>, started: seq<string>, removed: seq<string>, ok: bool)
    requires Consumed(q, now, started, removed) && |now| > 0
    ensures var id, t := now[|now| - 1], Next(Next(q, Fetch(true)), Remove(ok));
            if ok then Consumed(t, RemoveUpTo(Rotated(now), 1, id), started + [id], removed + [id])
            else Consumed(t, Rotated(now), started + [id], removed)
  {
    hide RemoveUpTo, Rotated;
  }

  lemma {:induction false} TurnsKeepOrder(q: Queue, outcomes: seq<(bool, bool)>)
    requires q.inFlight.None?
    ensures AllKeepOrder(q, Turns(outcomes))
    decreases |outcomes|
  {
    hide RemoveUpTo, Rotated;
    if |outcomes| > 0 && outcomes[0].0 {
      var fetched := Next(q, Fetch(true));
      var rest, turns := Turns(outcomes[1..]), Turns(outcomes);
      TurnsKeepOrder(Next(fetched, Remove(outcomes[0].1)), outcomes[1..]);
      assert turns[1..] == [Remove(outcomes[0].1)] + rest && turns[1..][1..] == rest;
      assert q.inFlight.None? && KeepsOrder(fetched, Remove(outcomes[0].1));
    }
  }

  /** Whatever fails, a consumer without producers meanwhile starts the ids in the order in
      which they were queued, those whose removal failed behind the others. */
  lemma ConsumerServesInOrder(items: seq<string>, outcomes: seq<(bool, bool)>)
    ensures var q := Run(Init(items), Turns(outcomes));
            q.served <= All(items, q) && Fifo(items, q)
  {
    hide Run, Reverse, AllKeepOrder, AlwaysFifo, Around, Turns;
    TurnsKeepOrder(Init(items), outcomes);
    FifoInit(items);
    ServedInOrderExactly(items, Init(items), Turns(outcomes));
    AlwaysToEnd(items, Init(items), Turns(outcomes));
  }

  /** The consumer after `i` turns. */
  predicate Midway(items: seq<string>, outcomes: seq<(bool, bool)>, i: nat, q: Queue,
                   now: seq<string>, started: seq<string>, removed: seq<string>)
  {
    && i <= |outcomes|
    && Consumed(q, now, started, removed)
    && Run(q, Turns(outcomes[i..])) == Run(Init(items), Turns(outcomes))
    && multiset(now) + multiset(removed) == multiset(items)
    && (AllUp(outcomes) ==> Drained(items, i, now, started, removed))
  }

  lemma MidwayStarts(items: seq<string>, outcomes: seq<(bool, bool)>)
    ensures Midway(items, outcomes, 0, Init(items), items, [], [])
  {
    assert outcomes[0..] == outcomes;
  }

  lemma MidwayTurn(items: seq<string>, outcomes: seq<(bool, bool)>, i: nat, q: Queue,
                   now: seq<string>, started: seq<string>, removed: seq<string>)
    requires Midway(items, outcomes, i, q, now, started, removed)
    requires i < |outcomes| && outcomes[i].0 && |now| > 0
    ensures var id, ok, t := now[|now| - 1], outcomes[i].1, Next(Next(q, Fetch(true)), Remove(outcomes[i].1));
            Midway(items, outcomes, i + 1, t, if ok then RemoveUpTo(Rotated(now), 1, id) else Rotated(now),
                   started + [id], if ok then removed + [id] else removed)
  {
    hide RemoveUpTo, Rotated, Reverse, Next, Turns, Run, Drained;
    var id := now[|now| - 1];
    RemovedOne(now, removed, id);
    RotationKeeps(now);
    if AllUp(outcomes) {
      assert started == removed by { DrainedAlike(items, i, now, started, removed); }
      DrainOne(items, i, now, started, id);
    }
    ConsumeOne(q, now, started, removed, outcomes[i].1);
    RunTurn(q, outcomes[i..]);
    assert outcomes[i..][1..] == outcomes[i + 1..];
  }

  lemma DrainedAlike(items: seq<string>, i: nat, now: seq<string>, started: seq<string>, removed: seq<string>)
    requires Drained(items, i, now, started, removed)
    ensures started == removed
  {
  }

  lemma MidwayEnds(items: seq<string>, outcomes: seq<(bool, bool)>, i: nat, q: Queue,
                   now: seq<string>, started: seq<string>, removed: seq<string>)
    requires Midway(items, outcomes, i, q, now, started, removed)
    requires i == |outcomes| || !outcomes[i].0 || now == []
    ensures Consumed(Run(Init(items), Turns(outcomes)), now, started, removed)
    ensures multiset(now) + multiset(removed) == multiset(items)
    ensures AllUp(outcomes) ==>
              var n := if |outcomes| < |items| then |outcomes| else |items|;
              Drained(items, n, now, started, removed)
  {
    hide Reverse, Next, Turns, Run;
    LastTurn(q, outcomes[i..]);
  }

  /** StartAllSuspendedSessions: `outcomes` says, turn by turn, whether the fetch and the
      removal reach the database.  The ids started and removed, and the queue left, are those
      of the consumer's turns: an id is started before its removal, which may fail, and is
      then fetched again later.  Without failures the loop takes the ids out oldest first,
      until the queue is empty or the turns run out. */
  method StartAllSuspendedSessions(queue: RedisList, outcomes: seq<(bool, bool)>)
    returns (started: seq<string>, removed: seq<string>)
    modifies queue
    ensures Consumed(Run(Init(old(queue.items)), Turns(outcomes)), queue.items, started, removed)
    ensures multiset(queue.items) + multiset(removed) == multiset(old(queue.items))
    ensures AllUp(outcomes) ==>
              var n := if |outcomes| < |old(queue.items)| then |outcomes| else |old(queue.items)|;
              Drained(old(queue.items), n, queue.items, started, removed)
  {
    hide RemoveUpTo, Rotated, Next, Turns, Run, Midway, Consumed, Drained, AllUp;
    started, removed := [], [];
    ghost var items, q := queue.items, Init(queue.items);
    MidwayStarts(items, outcomes);
    var i := 0;
    while i < |outcomes|
      invariant i <= |outcomes|
      invariant Midway(items, outcomes, i, q, queue.items, started, removed)
    {
      ghost var before := queue.items;
      var id := WaitForSuspendedSession(queue, outcomes[i].0);
      if id.None? {
        MidwayEnds(items, outcomes, i, q, queue.items, started, removed);
        return;
      }
      MidwayTurn(items, outcomes, i, q, before, started, removed);
      q := Next(Next(q, Fetch(true)), Remove(outcomes[i].1));
      started := started + [id.value];
      var ok := RemoveSuspendedSession(queue, id.value, outcomes[i].1);
      if ok {
        removed := removed + [id.value];
      }
      i := i + 1;
    }
    MidwayEnds(items, outcomes, i, q, queue.items, started, removed);
  }

  lemma LastTurn(q: Queue, outcomes: seq<(bool, bool)>)
    requires q.inFlight.None? && (|outcomes| == 0 || !outcomes[0].0 || q.items == [])
    ensures Run(q, Turns(outcomes)) == q
  {
    if q.items == [] {
      EmptyStays(q, outcomes);
    }
  }
}
