/** The completion registry: waiting for a request's outcome inside one process.

    Methods over an ordered cache, waiter lists and futures are proved against value semantics.
    Over every history of completions, waits, cancellations and closes the cache holds exactly the
    last completions of the at most 256 most recently completed keys (`CacheIsRecent`), no key is
    both cached and waited for (`NeverCachedAndAwaited`), and each future ends as the first event
    after its registration says and never changes again (`FateIsFirstEvent`). Lists of waiters are never
    empty and in order (`ListsAreInOrder`), and `ListedIff` says how long a waiter stays on its list. */
module Completion {
  import opened Prelude

  datatype Key = Key(session: string, request: string)

  datatype Outcome = Outcome(status: string, turnId: string)

  datatype Entry = Entry(key: Key, outcome: Outcome)

  datatype Status = Pending | Settled(outcome: Outcome) | Abandoned | LoopClosed

  datatype Future = Future(key: Key, status: Status)

  const LIMIT: nat := 256

  /** Futures are named by their place in `futures`. */
  datatype Registry = Registry(cache: seq<Entry>, waiters: map<Key, seq<nat>>, futures: seq<Future>)

  const Empty := Registry([], map[], [])

  datatype Op =
    | Complete(key: Key, outcome: Outcome)
    | Wait(key: Key)
    | Abandon(future: nat)
    | Leave(future: nat)
    | Close

  // ---------------------------------------------------------------- value semantics

  function Drop(cache: seq<Entry>, key: Key): seq<Entry> {
    if cache == [] then []
    else (if cache[0].key == key then [] else [cache[0]]) + Drop(cache[1..], key)
  }

  function Last(cache: seq<Entry>, n: nat): seq<Entry> {
    if |cache| <= n then cache else cache[|cache| - n..]
  }

  function Find(cache: seq<Entry>, key: Key): Option<Outcome> {
    if cache == [] then None
    else if cache[0].key == key then Some(cache[0].outcome)
    else Find(cache[1..], key)
  }

  function Settle(f: Future, status: Status): Future {
    if f.status == Pending then f.(status := status) else f
  }

  function SettleAll(futures: seq<Future>, ids: seq<nat>, status: Status): seq<Future>
    decreases |ids|
  {
    if ids == [] then futures
    else if ids[0] < |futures| then
      SettleAll(futures[ids[0] := Settle(futures[ids[0]], status)], ids[1..], status)
    else SettleAll(futures, ids[1..], status)
  }

  function WaitersOf(r: Registry, key: Key): seq<nat> {
    if key in r.waiters then r.waiters[key] else []
  }

  function Completed(r: Registry, key: Key, outcome: Outcome): Registry {
    Registry(
      Last(Drop(r.cache, key) + [Entry(key, outcome)], LIMIT),
      r.waiters - {key},
      SettleAll(r.futures, WaitersOf(r, key), Settled(outcome)))
  }

  function Waiting(r: Registry, key: Key): Registry {
    if Find(r.cache, key).Some? then r
    else
      r.(futures := r.futures + [Future(key, Pending)],
         waiters := r.waiters[key := WaitersOf(r, key) + [|r.futures|]])
  }

  /** The awaiting task is cancelled, which cancels the future it awaits. */
  function Abandoning(r: Registry, f: nat): Registry {
    if f < |r.futures| then r.(futures := r.futures[f := Settle(r.futures[f], Abandoned)]) else r
  }

  function WithoutFirst(ids: seq<nat>, f: nat): seq<nat> {
    if ids == [] then [] else if ids[0] == f then ids[1..] else [ids[0]] + WithoutFirst(ids[1..], f)
  }

  /** The `finally` of a wait, reached once its future is done. */
  function Leaving(r: Registry, f: nat): Registry {
    if f >= |r.futures| || r.futures[f].status == Pending then r
    else
      var key := r.futures[f].key;
      var left := WithoutFirst(WaitersOf(r, key), f);
      if f !in WaitersOf(r, key) then r
      else r.(waiters := if left == [] then r.waiters - {key} else r.waiters[key := left])
  }

  predicate Awaited(r: Registry, f: nat)
    requires f < |r.futures|
  {
    f in WaitersOf(r, r.futures[f].key)
  }

  function Closing(r: Registry): Registry {
    Registry([], map[], seq(|r.futures|, f requires 0 <= f < |r.futures| =>
      if Awaited(r, f) then Settle(r.futures[f], LoopClosed) else r.futures[f]))
  }

  function Apply(r: Registry, op: Op): Registry {
    match op
    case Complete(key, outcome) => Completed(r, key, outcome)
    case Wait(key) => Waiting(r, key)
    case Abandon(f) => Abandoning(r, f)
    case Leave(f) => Leaving(r, f)
    case Close => Closing(r)
  }

  function Run(ops: seq<Op>): Registry {
    if ops == [] then Empty else Apply(Run(ops[..|ops| - 1]), ops[|ops| - 1])
  }

  // ---------------------------------------------------------------- the cache

  /** The completions since the last close. */
  function Completions(ops: seq<Op>): seq<Entry> {
    if ops == [] then []
    else
      var front := Completions(ops[..|ops| - 1]);
      match ops[|ops| - 1]
      case Complete(key, outcome) => front + [Entry(key, outcome)]
      case Close => []
      case _ => front
  }

  predicate HasKey(entries: seq<Entry>, key: Key) {
    exists k :: 0 <= k < |entries| && entries[k].key == key
  }

  /** The last completion of each key, in the order of those completions. */
  function Recent(entries: seq<Entry>): seq<Entry> {
    if entries == [] then []
    else (if HasKey(entries[1..], entries[0].key) then [] else [entries[0]]) + Recent(entries[1..])
  }

  lemma {:induction false} DropConcat(a: seq<Entry>, b: seq<Entry>, key: Key)
    ensures Drop(a + b, key) == Drop(a, key) + Drop(b, key)
  {
    if a == [] {
      assert a + b == b;
    } else {
      assert (a + b)[1..] == a[1..] + b;
      DropConcat(a[1..], b, key);
    }
  }

  lemma {:induction false} DropAbsent(entries: seq<Entry>, key: Key)
    requires !HasKey(entries, key)
    ensures Drop(entries, key) == entries
  {
    if entries != [] {
      assert forall k :: 0 <= k < |entries[1..]| ==> entries[1..][k] == entries[k + 1];
      DropAbsent(entries[1..], key);
    }
  }

  lemma HasKeyAppend(entries: seq<Entry>, e: Entry, key: Key)
    ensures HasKey(entries + [e], key) <==> HasKey(entries, key) || e.key == key
  {
    if HasKey(entries, key) {
      var k :| 0 <= k < |entries| && entries[k].key == key;
      assert (entries + [e])[k].key == key;
    }
    if e.key == key {
      assert (entries + [e])[|entries|].key == key;
    }
    if HasKey(entries + [e], key) && e.key != key {
      var k :| 0 <= k < |entries + [e]| && (entries + [e])[k].key == key;
      assert k < |entries| && entries[k].key == key;
    }
  }

  lemma {:induction false} RecentAppend(entries: seq<Entry>, e: Entry)
    ensures Recent(entries + [e]) == Drop(Recent(entries), e.key) + [e]
  {
    if entries == [] {
      assert entries + [e] == [e] && [e][1..] == [];
      assert !HasKey([], e.key);
    } else {
      var first, rest := entries[0], entries[1..];
      assert (entries + [e])[1..] == rest + [e];
      RecentAppend(rest, e);
      HasKeyAppend(rest, e, first.key);
      DropConcat(if HasKey(rest, first.key) then [] else [first], Recent(rest), e.key);
      assert Drop([first], e.key) == (if first.key == e.key then [] else [first]) by {
        assert [first][1..] == [];
      }
    }
  }

  predicate DistinctKeys(entries: seq<Entry>) {
    entries == [] || (!HasKey(entries[1..], entries[0].key) && DistinctKeys(entries[1..]))
  }

  lemma {:induction false} RecentKeys(entries: seq<Entry>, key: Key)
    ensures HasKey(Recent(entries), key) <==> HasKey(entries, key)
  {
    if entries != [] {
      var first, rest := entries[0], entries[1..];
      RecentKeys(rest, key);
      HasKeySplit(entries, key);
      if !HasKey(rest, first.key) {
        assert Recent(entries) == [first] + Recent(rest);
        HasKeySplit(Recent(entries), key);
        assert Recent(entries)[1..] == Recent(rest);
      } else {
        assert Recent(entries) == Recent(rest);
      }
    }
  }

  lemma HasKeySplit(entries: seq<Entry>, key: Key)
    requires entries != []
    ensures HasKey(entries, key) <==> entries[0].key == key || HasKey(entries[1..], key)
  {
    if HasKey(entries[1..], key) {
      var k :| 0 <= k < |entries[1..]| && entries[1..][k].key == key;
      assert entries[k + 1].key == key;
    }
    if HasKey(entries, key) && entries[0].key != key {
      var k :| 0 <= k < |entries| && entries[k].key == key;
      assert entries[1..][k - 1].key == key;
    }
  }

  lemma {:induction false} RecentIsDistinct(entries: seq<Entry>)
    ensures DistinctKeys(Recent(entries))
  {
    if entries != [] {
      var first, rest := entries[0], entries[1..];
      RecentIsDistinct(rest);
      if !HasKey(rest, first.key) {
        RecentKeys(rest, first.key);
        assert Recent(entries)[1..] == Recent(rest);
      } else {
        assert Recent(entries) == Recent(rest);
      }
    }
  }

  lemma {:induction false} SuffixIsDistinct(entries: seq<Entry>, n: nat)
    requires DistinctKeys(entries) && n <= |entries|
    ensures DistinctKeys(entries[n..])
  {
    if n > 0 {
      SuffixIsDistinct(entries[1..], n - 1);
      assert entries[1..][n - 1..] == entries[n..];
    }
  }

  lemma {:induction false} DropsAtMostOne(entries: seq<Entry>, key: Key)
    requires DistinctKeys(entries)
    ensures |entries| - 1 <= |Drop(entries, key)| <= |entries|
    ensures |Drop(entries, key)| == |entries| ==> Drop(entries, key) == entries
  {
    if entries != [] {
      if entries[0].key == key {
        DropAbsent(entries[1..], key);
      } else {
        DropsAtMostOne(entries[1..], key);
      }
    }
  }

  /** Evicting the oldest first loses nothing that a later completion could bring back. */
  lemma EvictionCommutes(recent: seq<Entry>, e: Entry, n: nat)
    requires DistinctKeys(recent) && n > 0
    ensures Last(Drop(Last(recent, n), e.key) + [e], n) == Last(Drop(recent, e.key) + [e], n)
  {
    if |recent| > n {
      var p, s := recent[..|recent| - n], recent[|recent| - n..];
      assert recent == p + s;
      DropConcat(p, s, e.key);
      SuffixIsDistinct(recent, |recent| - n);
      DropsAtMostOne(s, e.key);
      LastOfConcat(Drop(p, e.key), Drop(s, e.key) + [e], n);
      Associates(Drop(p, e.key), Drop(s, e.key), [e]);
    }
  }

  lemma Associates(a: seq<Entry>, b: seq<Entry>, c: seq<Entry>)
    ensures a + b + c == a + (b + c)
  {
  }

  lemma LastOfConcat(a: seq<Entry>, b: seq<Entry>, n: nat)
    requires |b| >= n
    ensures Last(a + b, n) == Last(b, n)
  {
    assert (a + b)[|a + b| - n..] == b[|b| - n..];
  }

  /** After any history the cache holds the last completions of the most recently completed keys,
      at most 256 of them, oldest completion first. */
  lemma {:induction false} CacheIsRecent(ops: seq<Op>)
    ensures Run(ops).cache == Last(Recent(Completions(ops)), LIMIT)
    ensures |Run(ops).cache| <= 256
  {
    if ops != [] {
      var front, op := ops[..|ops| - 1], ops[|ops| - 1];
      CacheIsRecent(front);
      if op.Complete? {
        var e := Entry(op.key, op.outcome);
        RecentAppend(Completions(front), e);
        RecentIsDistinct(Completions(front));
        EvictionCommutes(Recent(Completions(front)), e, LIMIT);
      }
    }
  }

  function LatestOf(entries: seq<Entry>, key: Key): Option<Outcome> {
    if entries == [] then None
    else if entries[|entries| - 1].key == key then Some(entries[|entries| - 1].outcome)
    else LatestOf(entries[..|entries| - 1], key)
  }

  lemma {:induction false} FindAppend(entries: seq<Entry>, e: Entry, key: Key)
    ensures Find(entries + [e], key) == if Find(entries, key).Some? then Find(entries, key)
                                        else if e.key == key then Some(e.outcome) else None
  {
    if entries == [] {
      assert entries + [e] == [e];
    } else {
      assert (entries + [e])[1..] == entries[1..] + [e];
      FindAppend(entries[1..], e, key);
    }
  }

  lemma {:induction false} FindAfterDrop(entries: seq<Entry>, dropped: Key, key: Key)
    ensures Find(Drop(entries, dropped), key) == if key == dropped then None else Find(entries, key)
  {
    if entries != [] {
      FindAfterDrop(entries[1..], dropped, key);
      if entries[0].key != dropped {
        assert Drop(entries, dropped)[1..] == Drop(entries[1..], dropped);
      } else {
        assert Drop(entries, dropped) == Drop(entries[1..], dropped);
      }
    }
  }

  lemma {:induction false} RecentFindsLatest(entries: seq<Entry>, key: Key)
    ensures Find(Recent(entries), key) == LatestOf(entries, key)
  {
    if entries != [] {
      var front, e := entries[..|entries| - 1], entries[|entries| - 1];
      assert entries == front + [e];
      RecentFindsLatest(front, key);
      RecentAppend(front, e);
      FindAfterDrop(Recent(front), e.key, key);
      FindAppend(Drop(Recent(front), e.key), e, key);
    }
  }

  lemma {:induction false} FindHasKey(entries: seq<Entry>, key: Key)
    ensures Find(entries, key).Some? <==> HasKey(entries, key)
  {
    if entries != [] {
      HasKeySplit(entries, key);
      FindHasKey(entries[1..], key);
    }
  }

  lemma {:induction false} FindInSuffix(entries: seq<Entry>, n: nat, key: Key)
    requires DistinctKeys(entries) && n <= |entries|
    ensures Find(entries[n..], key).Some? ==> Find(entries[n..], key) == Find(entries, key)
  {
    if n > 0 {
      assert entries[1..][n - 1..] == entries[n..];
      FindInSuffix(entries[1..], n - 1, key);
      if Find(entries[n..], key).Some? {
        FindHasKey(entries[1..], key);
      }
    }
  }

  /** A wait that finds its key cached returns the latest outcome of that key. */
  lemma CachedIsLatest(ops: seq<Op>, key: Key)
    ensures Find(Run(ops).cache, key).Some? ==> Find(Run(ops).cache, key) == LatestOf(Completions(ops), key)
  {
    var recent := Recent(Completions(ops));
    CacheIsRecent(ops);
    RecentIsDistinct(Completions(ops));
    RecentFindsLatest(Completions(ops), key);
    if |recent| > LIMIT {
      FindInSuffix(recent, |recent| - LIMIT, key);
    }
  }

  // ---------------------------------------------------------------- cached or awaited

  predicate Disjoint(r: Registry, key: Key) {
    key in r.waiters ==> Find(r.cache, key).None?
  }

  lemma CompletedDisjoint(r: Registry, done: Key, outcome: Outcome, key: Key)
    requires DistinctKeys(r.cache) && Disjoint(r, key)
    ensures Disjoint(Completed(r, done, outcome), key)
  {
    var e := Entry(done, outcome);
    var longer := Drop(r.cache, done) + [e];
    FindAfterDrop(r.cache, done, key);
    FindAppend(Drop(r.cache, done), e, key);
    FindInLast(longer, LIMIT, key);
  }

  lemma FindInLast(entries: seq<Entry>, n: nat, key: Key)
    ensures Find(Last(entries, n), key).Some? ==> Find(entries, key).Some?
  {
    FindHasKey(entries, key);
    FindHasKey(Last(entries, n), key);
    if HasKey(Last(entries, n), key) {
      var k :| 0 <= k < |Last(entries, n)| && Last(entries, n)[k].key == key;
      assert entries[if |entries| <= n then k else |entries| - n + k].key == key;
    }
  }

  /** No key is ever both cached and waited for. */
  lemma {:induction false} NeverCachedAndAwaited(ops: seq<Op>, key: Key)
    ensures Disjoint(Run(ops), key)
  {
    if ops != [] {
      var front, op := ops[..|ops| - 1], ops[|ops| - 1];
      NeverCachedAndAwaited(front, key);
      if op.Complete? {
        CacheIsDistinct(front);
        CompletedDisjoint(Run(front), op.key, op.outcome, key);
      }
    }
  }

  lemma CacheIsDistinct(ops: seq<Op>)
    ensures DistinctKeys(Run(ops).cache)
  {
    var recent := Recent(Completions(ops));
    CacheIsRecent(ops);
    RecentIsDistinct(Completions(ops));
    if |recent| > LIMIT {
      SuffixIsDistinct(recent, |recent| - LIMIT);
    }
  }

  // ---------------------------------------------------------------- the fate of a future

  /** What one event does to the pending future `f` of `key`. */
  function FateOne(op: Op, key: Key, f: nat): Status {
    match op
    case Complete(done, outcome) => if done == key then Settled(outcome) else Pending
    case Abandon(g) => if g == f then Abandoned else Pending
    case Close => LoopClosed
    case _ => Pending
  }

  /** The first event that concerns the future decides. */
  function FateOf(ops: seq<Op>, key: Key, f: nat): Status {
    if ops == [] then Pending
    else
      var before := FateOf(ops[..|ops| - 1], key, f);
      if before != Pending then before else FateOne(ops[|ops| - 1], key, f)
  }

  /** `f` is listed only under its own key, and there while it is pending. */
  predicate Tracks(r: Registry, f: nat) {
    if f < |r.futures| then
      (r.futures[f].status == Pending ==> Awaited(r, f))
      && forall key :: key in r.waiters && f in r.waiters[key] ==> key == r.futures[f].key
    else forall key :: key in r.waiters ==> f !in r.waiters[key]
  }

  lemma {:induction false} SettleAllAt(futures: seq<Future>, ids: seq<nat>, status: Status, f: nat)
    requires status != Pending
    ensures |SettleAll(futures, ids, status)| == |futures|
    ensures f < |futures| ==>
              SettleAll(futures, ids, status)[f] == if f in ids then Settle(futures[f], status) else futures[f]
    decreases |ids|
  {
    if ids != [] {
      var next := if ids[0] < |futures| then futures[ids[0] := Settle(futures[ids[0]], status)] else futures;
      SettleAllAt(next, ids[1..], status, f);
      assert f in ids <==> f == ids[0] || f in ids[1..];
    }
  }

  lemma {:induction false} WithoutFirstKeeps(ids: seq<nat>, f: nat, g: nat)
    ensures g in WithoutFirst(ids, f) ==> g in ids
    ensures g != f ==> (g in WithoutFirst(ids, f) <==> g in ids)
  {
    if ids != [] {
      WithoutFirstKeeps(ids[1..], f, g);
    }
  }

  predicate StatusAfter(r: Registry, r': Registry, op: Op, f: nat) {
    f < |r.futures| ==>
      f < |r'.futures|
      && r'.futures[f] == (if r.futures[f].status != Pending then r.futures[f]
                           else r.futures[f].(status := FateOne(op, r.futures[f].key, f)))
  }

  lemma CompletedTracks(r: Registry, key: Key, outcome: Outcome, f: nat)
    requires Tracks(r, f)
    ensures Tracks(Completed(r, key, outcome), f)
    ensures StatusAfter(r, Completed(r, key, outcome), Complete(key, outcome), f)
  {
    SettleAllAt(r.futures, WaitersOf(r, key), Settled(outcome), f);
  }

  lemma LeavingTracks(r: Registry, g: nat, f: nat)
    requires Tracks(r, f)
    ensures Tracks(Leaving(r, g), f) && StatusAfter(r, Leaving(r, g), Leave(g), f)
  {
    if g < |r.futures| {
      WithoutFirstKeeps(WaitersOf(r, r.futures[g].key), g, f);
    }
  }

  lemma ApplyTracks(r: Registry, op: Op, f: nat)
    requires Tracks(r, f)
    ensures Tracks(Apply(r, op), f) && StatusAfter(r, Apply(r, op), op, f)
  {
    match op
    case Complete(key, outcome) => CompletedTracks(r, key, outcome, f);
    case Wait(key) =>
    case Abandon(g) =>
    case Leave(g) => LeavingTracks(r, g, f);
    case Close =>
  }

  lemma {:induction false} RunTracks(ops: seq<Op>, f: nat)
    ensures Tracks(Run(ops), f)
  {
    if ops != [] {
      RunTracks(ops[..|ops| - 1], f);
      ApplyTracks(Run(ops[..|ops| - 1]), ops[|ops| - 1], f);
    }
  }

  lemma FateStep(ops: seq<Op>, op: Op, f: nat)
    ensures StatusAfter(Run(ops), Run(ops + [op]), op, f)
  {
    RunTracks(ops, f);
    ApplyTracks(Run(ops), op, f);
  }

  lemma FateNext(r: Registry, r': Registry, key: Key, after: seq<Op>, f: nat)
    requires after != [] && StatusAfter(r, r', after[|after| - 1], f)
    requires f < |r.futures| && r.futures[f] == Future(key, FateOf(after[..|after| - 1], key, f))
    ensures f < |r'.futures| && r'.futures[f] == Future(key, FateOf(after, key, f))
  {
  }

  lemma FateStart(before: seq<Op>, key: Key)
    requires Find(Run(before).cache, key).None?
    ensures Run(before + [Wait(key)]).futures == Run(before).futures + [Future(key, Pending)]
  {
    assert (before + [Wait(key)])[..|before|] == before;
  }

  /** A wait that finds nothing cached gets a future, and after any further events that future is as
      the first of them says: the outcome of the first completion of its key, an abandonment or a
      close, and still pending only if none of these happened. */
  lemma {:induction false} FateIsFirstEvent(before: seq<Op>, key: Key, after: seq<Op>)
    requires Find(Run(before).cache, key).None?
    ensures var f := |Run(before).futures|;
      var r := Run(before + [Wait(key)] + after);
      f < |r.futures| && r.futures[f] == Future(key, FateOf(after, key, f))
  {
    var f := |Run(before).futures|;
    var start := before + [Wait(key)];
    if after == [] {
      assert start + after == start;
      FateStart(before, key);
    } else {
      var front, op := after[..|after| - 1], after[|after| - 1];
      FateIsFirstEvent(before, key, front);
      assert start + after == (start + front) + [op];
      FateStep(start + front, op, f);
      FateNext(Run(start + front), Run((start + front) + [op]), key, after, f);
    }
  }

  // ---------------------------------------------------------------- who is still listed

  /** Futures are listed in the order of their registration, and no list is empty. */
  predicate Ascends(ids: seq<nat>, n: nat) {
    (forall k :: 0 <= k < |ids| ==> ids[k] < n) && forall j, k :: 0 <= j < k < |ids| ==> ids[j] < ids[k]
  }

  predicate ListsInOrder(r: Registry) {
    forall key :: key in r.waiters ==> r.waiters[key] != [] && Ascends(r.waiters[key], |r.futures|)
  }

  lemma {:induction false} WithoutFirstAscends(ids: seq<nat>, f: nat, n: nat)
    requires Ascends(ids, n)
    ensures Ascends(WithoutFirst(ids, f), n)
    ensures f !in WithoutFirst(ids, f)
  {
    if ids != [] && ids[0] != f {
      WithoutFirstAscends(ids[1..], f, n);
      forall k | 0 <= k < |WithoutFirst(ids[1..], f)|
        ensures ids[0] < WithoutFirst(ids[1..], f)[k]
      {
        WithoutFirstKeeps(ids[1..], f, WithoutFirst(ids[1..], f)[k]);
      }
    }
  }

  lemma ApplyInOrder(r: Registry, op: Op)
    requires ListsInOrder(r)
    ensures ListsInOrder(Apply(r, op))
  {
    match op
    case Complete(key, outcome) => SettleAllAt(r.futures, WaitersOf(r, key), Settled(outcome), 0);
    case Leave(f) =>
      if f < |r.futures| {
        WithoutFirstAscends(WaitersOf(r, r.futures[f].key), f, |r.futures|);
      }
    case _ =>
  }

  lemma {:induction false} ListsAreInOrder(ops: seq<Op>)
    ensures ListsInOrder(Run(ops))
  {
    if ops != [] {
      ListsAreInOrder(ops[..|ops| - 1]);
      ApplyInOrder(Run(ops[..|ops| - 1]), ops[|ops| - 1]);
    }
  }

  /** Nothing has taken the waiter off its list: no completion of its key, no close, and not its own leaving
      once its future is done. */
  predicate StillListed(after: seq<Op>, key: Key, f: nat) {
    after == []
    || (StillListed(after[..|after| - 1], key, f)
        && match after[|after| - 1]
           case Complete(done, _) => done != key
           case Leave(g) => g != f || FateOf(after[..|after| - 1], key, f) == Pending
           case Close => false
           case _ => true)
  }

  lemma LeavingTakesOff(r: Registry, g: nat, key: Key, f: nat)
    requires ListsInOrder(r)
    ensures f in WaitersOf(Leaving(r, g), key) <==>
              f in WaitersOf(r, key)
              && !(g == f && f < |r.futures| && r.futures[f].key == key && r.futures[f].status != Pending)
  {
    if g < |r.futures| {
      WithoutFirstKeeps(WaitersOf(r, r.futures[g].key), g, f);
      WithoutFirstAscends(WaitersOf(r, r.futures[g].key), g, |r.futures|);
    }
  }

  lemma ListedStep(r: Registry, op: Op, key: Key, f: nat)
    requires ListsInOrder(r) && f < |r.futures| && r.futures[f].key == key
    ensures f in WaitersOf(Apply(r, op), key) <==>
              f in WaitersOf(r, key)
              && match op
                 case Complete(done, _) => done != key
                 case Leave(g) => g != f || r.futures[f].status == Pending
                 case Close => false
                 case _ => true
  {
    match op
    case Leave(g) => LeavingTakesOff(r, g, key, f);
    case _ =>
  }

  /** A wait stays on the list of its key until the key is completed, the registry is closed, or it leaves with
      its future done. */
  lemma {:induction false} ListedIff(before: seq<Op>, key: Key, after: seq<Op>)
    requires Find(Run(before).cache, key).None?
    ensures var f := |Run(before).futures|;
      f in WaitersOf(Run(before + [Wait(key)] + after), key) <==> StillListed(after, key, f)
  {
    var f := |Run(before).futures|;
    var start := before + [Wait(key)];
    if after == [] {
      assert start + after == start && start[..|before|] == before;
    } else {
      var front, op := after[..|after| - 1], after[|after| - 1];
      ListedIff(before, key, front);
      FateIsFirstEvent(before, key, front);
      ListsAreInOrder(start + front);
      ListedStep(Run(start + front), op, key, f);
      assert start + after == (start + front) + [op];
      assert (start + front + [op])[..|start + front|] == start + front;
    }
  }

  // ---------------------------------------------------------------- the registry object

  class CompletionRegistry {
    var cache: seq<Entry>
    var waiters: map<Key, seq<nat>>
    var futures: seq<Future>

    constructor ()
      ensures Value() == Empty
    {
      cache, waiters, futures := [], map[], [];
    }

    function Value(): Registry
      reads this
    {
      Registry(cache, waiters, futures)
    }

    /** `complete`: cache the outcome as the newest, evict, hand it to the waiters. */
    method CompleteRequest(key: Key, outcome: Outcome)
      modifies this
      ensures Value() == Apply(old(Value()), Complete(key, outcome))
    {
      cache := Drop(cache, key) + [Entry(key, outcome)];
      ghost var longer := cache;
      while |cache| > LIMIT
        invariant Last(cache, LIMIT) == Last(longer, LIMIT)
        invariant futures == old(futures) && waiters == old(waiters)
      {
        cache := cache[1..];
      }
      var waiting := WaitersOf(Value(), key);
      waiters := waiters - {key};
      SettleEach(waiting, Settled(outcome));
    }

    method SettleEach(ids: seq<nat>, status: Status)
      modifies this`futures
      ensures futures == SettleAll(old(futures), ids, status)
    {
      var i := 0;
      while i < |ids|
        invariant 0 <= i <= |ids|
        invariant SettleAll(futures, ids[i..], status) == SettleAll(old(futures), ids, status)
      {
        assert ids[i..][0] == ids[i] && ids[i..][1..] == ids[i + 1..];
        ghost var settled := if ids[i] < |futures| then futures[ids[i] := Settle(futures[ids[i]], status)] else futures;
        assert SettleAll(futures, ids[i..], status) == SettleAll(settled, ids[i + 1..], status);
        if ids[i] < |futures| && futures[ids[i]].status == Pending {
          futures := futures[ids[i] := futures[ids[i]].(status := status)];
        }
        assert futures == settled;
        i := i + 1;
      }
    }

    /** The first half of `wait`: the cached outcome, or a registered future. */
    method BeginWait(key: Key) returns (cached: Option<Outcome>, future: nat)
      modifies this`waiters, this`futures
      ensures Value() == Apply(old(Value()), Wait(key))
      ensures cached == Find(old(cache), key)
      ensures cached.None? ==> future == old(|futures|)
    {
      cached, future := Find(cache, key), |futures|;
      if cached.None? {
        futures := futures + [Future(key, Pending)];
        waiters := waiters[key := (if key in waiters then waiters[key] else []) + [future]];
      }
    }

    /** The `finally` of `wait`. */
    method EndWait(future: nat)
      requires future < |futures| && futures[future].status != Pending
      modifies this`waiters
      ensures Value() == Apply(old(Value()), Leave(future))
    {
      var key := futures[future].key;
      if key in waiters && future in waiters[key] {
        var left := WithoutFirst(waiters[key], future);
        waiters := if left == [] then waiters - {key} else waiters[key := left];
      }
    }

    method CloseAll()
      modifies this
      ensures Value() == Apply(old(Value()), Close)
    {
      ghost var was := Value();
      var i := 0;
      while i < |futures|
        invariant 0 <= i <= |futures| == |was.futures|
        invariant cache == was.cache && waiters == was.waiters
        invariant forall f :: 0 <= f < i ==> futures[f] == Closing(was).futures[f]
        invariant forall f :: i <= f < |futures| ==> futures[f] == was.futures[f]
      {
        var future := futures[i];
        if future.key in waiters && i in waiters[future.key] && future.status == Pending {
          futures := futures[i := future.(status := LoopClosed)];
        }
        i := i + 1;
      }
      waiters := map[];
      cache := [];
    }
  }
}
