/** platform/orm.go: the storage keys and the list operations the server relies on.
    Whether a call reaches the database is an input; a call that fails stores nothing.
 */
module Redis {
  import opened GoStrings

  // ----- keys -----

  datatype RedisKey = RedisKey(storagePrefix: string, storageId: string)

  /** None stands for the invalid-key error. */
  function DbKey(dbPrefix: string, k: RedisKey): Option<string> {
    if k.storageId == "" then None else Some(dbPrefix + k.storagePrefix + k.storageId)
  }

  /** A prefix with exactly one colon, at its end. */
  predicate WellFormedPrefix(prefix: string) {
    |prefix| > 0 && prefix[|prefix| - 1] == ':' && Free(prefix[..|prefix| - 1], ':')
  }

  const STORAGE_PREFIXES := [
    "string:", "set:", "zset:", "list:", "map:", "conversation:", "allowed-listeners:", "activity-data:",
    "session-state:", "suspended-packets:", "transcript:", "profile:", "owned-conversations:"
  ]

  lemma StoragePrefixesWellFormed(k: nat)
    requires k < |STORAGE_PREFIXES|
    ensures WellFormedPrefix(STORAGE_PREFIXES[k])
  {
  }

  /** Two objects share a database key only if they are the same object. */
  lemma DbKeyInjective(dbPrefix: string, j: RedisKey, k: RedisKey)
    requires WellFormedPrefix(j.storagePrefix) && WellFormedPrefix(k.storagePrefix)
    requires DbKey(dbPrefix, j).Some? && DbKey(dbPrefix, j) == DbKey(dbPrefix, k)
    ensures j == k
  {
    var p, q := j.storagePrefix, k.storagePrefix;
    var a, b := p[..|p| - 1], q[..|q| - 1];
    assert p == a + [':'] && q == b + [':'];
    var key := DbKey(dbPrefix, j).value;
    assert key[|dbPrefix|..] == p + j.storageId;
    assert key[|dbPrefix|..] == q + k.storageId;
    assert a + [':'] + j.storageId == b + [':'] + k.storageId;
    FirstSeparator(a, j.storageId, b, k.storageId, ':');
  }

  /** The speech cache lives under a key without a colon, so no object shares it. */
  lemma CacheKeyIsApart(dbPrefix: string, cacheId: string, k: RedisKey)
    requires Free(cacheId, ':') && WellFormedPrefix(k.storagePrefix)
    ensures DbKey(dbPrefix, k) != Some(dbPrefix + cacheId)
  {
    if DbKey(dbPrefix, k).Some? {
      var key := DbKey(dbPrefix, k).value;
      var at := |k.storagePrefix| - 1;
      assert key[|dbPrefix|..][at] == ':';
      assert (dbPrefix + cacheId)[|dbPrefix|..] == cacheId;
    }
  }

  /** What a flat database holds for an object. */
  function Lookup<V>(db: map<string, V>, dbPrefix: string, k: RedisKey): Option<V> {
    var key := DbKey(dbPrefix, k);
    if key.Some? && key.value in db then Some(db[key.value]) else None
  }

  /** Storing one object leaves what is held for every other object as it was: the flat
      database behaves as one map over objects. */
  lemma StoreDoesNotInterfere<V>(db: map<string, V>, dbPrefix: string, j: RedisKey, v: V, k: RedisKey)
    requires WellFormedPrefix(j.storagePrefix) && WellFormedPrefix(k.storagePrefix)
    requires DbKey(dbPrefix, j).Some?
    ensures Lookup(db[DbKey(dbPrefix, j).value := v], dbPrefix, k)
            == if j == k then Some(v) else Lookup(db, dbPrefix, k)
    ensures Lookup(db - {DbKey(dbPrefix, j).value}, dbPrefix, k) == if j == k then None else Lookup(db, dbPrefix, k)
  {
    if DbKey(dbPrefix, j) == DbKey(dbPrefix, k) {
      DbKeyInjective(dbPrefix, j, k);
    }
  }

  /** Every object with an id that is not empty can be stored and found again, and no other. */
  lemma EveryIdIsStored<V>(db: map<string, V>, dbPrefix: string, k: RedisKey, v: V)
    ensures DbKey(dbPrefix, k).Some? <==> |k.storageId| > 0
    ensures |k.storageId| > 0 ==> Lookup(db[DbKey(dbPrefix, k).value := v], dbPrefix, k) == Some(v)
    ensures k.storageId == "" ==> Lookup(db, dbPrefix, k) == None
  {
  }

  // ----- lists -----

  function Reverse<T>(s: seq<T>): (r: seq<T>)
    ensures |r| == |s|
  {
    if |s| == 0 then [] else Reverse(s[1..]) + [s[0]]
  }

  lemma {:induction false} ReverseAt<T>(s: seq<T>, k: nat)
    requires k < |s|
    ensures Reverse(s)[k] == s[|s| - 1 - k]
  {
    if k < |s| - 1 {
      ReverseAt(s[1..], k);
    }
  }

  lemma {:induction false} ReverseSnoc<T>(s: seq<T>, x: T)
    ensures Reverse(s + [x]) == [x] + Reverse(s)
  {
    if |s| == 0 {
      assert s + [x] == [x] && [x][1..] == [];
    } else {
      assert (s + [x])[1..] == s[1..] + [x];
      ReverseSnoc(s[1..], x);
    }
  }

  /** The list without its first `n` occurrences of `e`, searched from the left. */
  function RemoveUpTo(items: seq<string>, n: nat, e: string): seq<string> {
    if n == 0 || |items| == 0 then items
    else if items[0] == e then RemoveUpTo(items[1..], n - 1, e)
    else [items[0]] + RemoveUpTo(items[1..], n, e)
  }

  /** A removal takes out occurrences of `e` only: as many as asked for, or all there are. */
  lemma {:induction false} RemoveUpToTakes(items: seq<string>, n: nat, e: string)
    ensures var had := multiset(items)[e];
            var taken := if n < had then n else had;
            multiset(RemoveUpTo(items, n, e)) == multiset(items)[e := had - taken]
    decreases |items|
  {
    if n > 0 && |items| > 0 {
      var rest := items[1..];
      assert items == [items[0]] + rest;
      RemoveUpToTakes(rest, if items[0] == e then n - 1 else n, e);
      if items[0] != e {
        assert multiset([items[0]] + RemoveUpTo(rest, n, e)) == multiset{items[0]} + multiset(RemoveUpTo(rest, n, e));
      }
    }
  }

  /** LRANGE: negative indices count from the end, out-of-range ones are clipped. */
  function Range(items: seq<string>, start: int, end: int): seq<string> {
    var from := if start < 0 then start + |items| else start;
    var to := 1 + if end < 0 then end + |items| else end;
    var lo := if from < 0 then 0 else from;
    var hi := if to > |items| then |items| else to;
    if lo >= hi then [] else items[lo..hi]
  }

  /** Position `k` of a list of `n` is at or after index `i`, which may count from the end. */
  predicate AtOrAfter(n: nat, k: nat, i: int) {
    if i < 0 then k - n >= i else k >= i
  }

  predicate AtOrBefore(n: nat, k: nat, i: int) {
    if i < 0 then k - n <= i else k <= i
  }

  /** A range is one block of the list, of exactly the positions that are neither before
      its start nor after its end; from 0 to -1 it is the whole list. */
  lemma RangeSelects(items: seq<string>, start: int, end: int) returns (lo: nat)
    ensures lo + |Range(items, start, end)| <= |items|
    ensures Range(items, start, end) == items[lo..lo + |Range(items, start, end)|]
    ensures forall k :: 0 <= k < |items| ==>
              (lo <= k < lo + |Range(items, start, end)|
               <==> AtOrAfter(|items|, k, start) && AtOrBefore(|items|, k, end))
    ensures start == 0 && end == -1 ==> Range(items, start, end) == items
  {
    var from := if start < 0 then start + |items| else start;
    lo := if from < 0 then 0 else from;
    if Range(items, start, end) == [] {
      lo := 0;
    }
  }

  /** One "list of strings" value of the database. */
  class RedisList {
    var items: seq<string>

    constructor ()
      ensures items == []
    {
      items := [];
    }

    /** Pushing one at a time on the left reverses the order of the members. */
    method PushListMembers(onLeft: bool, members: seq<string>, up: bool) returns (ok: bool)
      modifies this
      ensures ok <==> up && |members| > 0
      ensures items == if !ok then old(items)
                       else if onLeft then Reverse(members) + old(items)
                       else old(items) + members
    {
      if !up || |members| == 0 {
        return false;
      }
      assert Reverse<string>([]) == [];
      hide Reverse;
      var i := 0;
      while i < |members|
        invariant i <= |members|
        invariant items == if onLeft then Reverse(members[..i]) + old(items) else old(items) + members[..i]
      {
        assert members[..i + 1] == members[..i] + [members[i]];
        if onLeft {
          ReverseSnoc(members[..i], members[i]);
          items := [members[i]] + items;
        } else {
          items := items + [members[i]];
        }
        i := i + 1;
      }
      assert members[..i] == members;
      ok := true;
    }

    /** Fetches the rightmost (or leftmost) member and moves it to the other end; an empty
        list until the timeout, like an unreachable database, yields nothing. */
    method FetchListMemberBlocking(onLeft: bool, up: bool) returns (member: Option<string>)
      modifies this
      ensures member.Some? <==> up && |old(items)| > 0
      ensures member.None? ==> items == old(items)
      ensures member.Some? && !onLeft ==>
                var last := |old(items)| - 1;
                member.value == old(items)[last] && items == [member.value] + old(items)[..last]
      ensures member.Some? && onLeft ==>
                member.value == old(items)[0] && items == old(items)[1..] + [member.value]
    {
      if !up || |items| == 0 {
        return None;
      }
      if onLeft {
        member := Some(items[0]);
        items := items[1..] + [items[0]];
      } else {
        var last := |items| - 1;
        member := Some(items[last]);
        items := [items[last]] + items[..last];
      }
    }

    method RemoveListElement(count: nat, element: string, up: bool) returns (ok: bool)
      modifies this
      ensures ok == up
      ensures items == if ok then RemoveUpTo(old(items), if count == 0 then |old(items)| else count, element)
                       else old(items)
    {
      if up {
        items := RemoveUpTo(items, if count == 0 then |items| else count, element);
      }
      return up;
    }

    method FetchListRange(start: int, end: int, up: bool) returns (members: Option<seq<string>>)
      ensures members == if up then Some(Range(items, start, end)) else None
    {
      if up {
        return Some(Range(items, start, end));
      }
      return None;
    }
  }
}
