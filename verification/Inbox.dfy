/** The durable inbox as a value: two queues that share one sequence space, the operations of
    `InboxRepository` on them, and the JSON form a commit writes.

    The repository class in `InboxRepository.dfy` is proved against these functions; the results
    about them are that `claim` is a filter (`ClaimIsAFilter`, and exactly when:
    `ClaimIsExactIffDistinct`), that `promote` leaves the global order alone
    (`PromoteKeepsPendingOrder`), and exactly which inboxes survive a reload
    (`ReloadsIffPersistable`). */
module Inbox {
  import opened Prelude

  datatype Source = User | Plugin | System

  datatype Target = NextTurn | NextStep

  datatype Item = Item(
    requestId: string,
    sequence: int,
    sessionId: string,
    channelId: string,
    content: string,
    attachments: seq<string>,
    source: Source,
    historyMessageId: Option<string>,
    messages: seq<string>,
    agentId: string)

  datatype State = State(revision: nat, nextSequence: int, nextTurn: seq<Item>, nextStep: seq<Item>)

  const Empty := State(0, 1, [], [])

  function Queue(s: State, target: Target): seq<Item> {
    if target == NextTurn then s.nextTurn else s.nextStep
  }

  function WithQueue(s: State, target: Target, items: seq<Item>): State {
    if target == NextTurn then s.(nextTurn := items) else s.(nextStep := items)
  }

  function All(s: State): seq<Item> {
    s.nextTurn + s.nextStep
  }

  /** `x` is waiting in one of the queues. */
  predicate Holds(s: State, x: Item) {
    x in s.nextTurn || x in s.nextStep
  }

  // ---------------------------------------------------------------- validity

  predicate UniqueIds(items: seq<Item>) {
    forall i, j :: 0 <= i < j < |items| ==> items[i].requestId != items[j].requestId
  }

  predicate UniqueSequences(items: seq<Item>) {
    forall i, j :: 0 <= i < j < |items| ==> items[i].sequence != items[j].sequence
  }

  predicate Ordered(items: seq<Item>) {
    forall i, j :: 0 <= i < j < |items| ==> items[i].sequence <= items[j].sequence
  }

  predicate StrictlyOrdered(items: seq<Item>) {
    forall i, j :: 0 <= i < j < |items| ==> items[i].sequence < items[j].sequence
  }

  /** The check that `validate` makes. */
  predicate Validates(s: State) {
    UniqueIds(All(s)) && UniqueSequences(All(s)) && Ordered(s.nextTurn) && Ordered(s.nextStep)
  }

  // ---------------------------------------------------------------- finding an item

  /** The first index of `id`, or the length when it is absent. */
  function IndexOf(items: seq<Item>, id: string): (k: nat)
    ensures k <= |items|
  {
    if items == [] || items[0].requestId == id then 0 else 1 + IndexOf(items[1..], id)
  }

  lemma {:induction false} IndexOfIsFirst(items: seq<Item>, id: string)
    ensures var k := IndexOf(items, id);
      && (k < |items| ==> items[k].requestId == id)
      && forall j :: 0 <= j < k ==> items[j].requestId != id
  {
    if items != [] && items[0].requestId != id {
      IndexOfIsFirst(items[1..], id);
    }
  }

  datatype Location = Location(target: Target, index: nat)

  predicate Within(s: State, at: Location) {
    at.index < |Queue(s, at.target)|
  }

  function ItemAt(s: State, at: Location): Item
    requires Within(s, at)
  {
    Queue(s, at.target)[at.index]
  }

  function Find(s: State, id: string): (hit: Option<Location>)
    ensures hit.Some? ==> Within(s, hit.value)
  {
    var t := IndexOf(s.nextTurn, id);
    var p := IndexOf(s.nextStep, id);
    if t < |s.nextTurn| then Some(Location(NextTurn, t))
    else if p < |s.nextStep| then Some(Location(NextStep, p))
    else None
  }

  /** `Find` finds an item with the id if one is waiting. */
  lemma FindFinds(s: State, id: string)
    ensures var hit := Find(s, id);
      && (hit.Some? ==> ItemAt(s, hit.value).requestId == id && Holds(s, ItemAt(s, hit.value)))
      && (hit.None? <==> forall x :: Holds(s, x) ==> x.requestId != id)
  {
    IndexOfIsFirst(s.nextTurn, id);
    IndexOfIsFirst(s.nextStep, id);
    var t, p := IndexOf(s.nextTurn, id), IndexOf(s.nextStep, id);
    if t < |s.nextTurn| {
      assert s.nextTurn[t] in s.nextTurn;
    } else if p < |s.nextStep| {
      assert s.nextStep[p] in s.nextStep;
    }
  }

  function RemoveAt(items: seq<Item>, index: nat): seq<Item>
    requires index < |items|
  {
    items[..index] + items[index + 1..]
  }

  function PopAt(s: State, at: Location): State
    requires Within(s, at)
  {
    WithQueue(s, at.target, RemoveAt(Queue(s, at.target), at.index))
  }

  // ---------------------------------------------------------------- admit

  datatype Admission = NoSession | Duplicate(position: nat) | Seen | Full | Admitted(count: nat) | Invalid

  function Max(a: int, b: int): int {
    if a < b then b else a
  }

  /** The item as it is queued: the state numbers it unless the caller did. */
  function Numbered(s: State, item: Item): Item {
    if item.sequence <= 0 then item.(sequence := s.nextSequence) else item
  }

  function Enqueue(s: State, item: Item, target: Target): State {
    var queued := Numbered(s, item);
    WithQueue(s.(nextSequence := Max(s.nextSequence, queued.sequence + 1), revision := s.revision + 1),
              target, Queue(s, target) + [queued])
  }

  function Admit(s: State, item: Item, target: Target, seen: bool, capacity: nat): (State, Admission) {
    var hit := Find(s, item.requestId);
    if hit.Some? then (s, Duplicate(hit.value.index + 1))
    else if seen then (s, Seen)
    else if |s.nextTurn| + |s.nextStep| >= capacity then (s, Full)
    else
      var t := Enqueue(s, item, target);
      (t, if Validates(t) then Admitted(|t.nextTurn| + |t.nextStep|) else Invalid)
  }

  // ---------------------------------------------------------------- claim

  /** `IndexFault` and `Inconsistent` are raised after the pops, with nothing written. */
  datatype Claim = Nothing | Claimed(items: seq<Item>) | IndexFault | Inconsistent

  /** The places of all `ids`, or nothing if one is absent. */
  function Locate(s: State, ids: seq<string>): (r: Option<seq<Location>>)
    ensures r.Some? ==> forall k :: 0 <= k < |r.value| ==> Within(s, r.value[k])
  {
    if ids == [] then Some([])
    else
      var front := Locate(s, ids[..|ids| - 1]);
      var hit := Find(s, ids[|ids| - 1]);
      if front.None? || hit.None? then None else Some(front.value + [hit.value])
  }

  /** `at` is where the item `id` is found. */
  ghost predicate FoundAt(s: State, id: string, at: Location) {
    Find(s, id) == Some(at) && ItemAt(s, at).requestId == id && Holds(s, ItemAt(s, at))
  }

  lemma {:induction false} LocateFinds(s: State, ids: seq<string>)
    ensures Locate(s, ids).None? <==> exists k :: 0 <= k < |ids| && Find(s, ids[k]).None?
    ensures Locate(s, ids).Some? ==>
      |Locate(s, ids).value| == |ids| && forall k :: 0 <= k < |ids| ==> FoundAt(s, ids[k], Locate(s, ids).value[k])
  {
    LocateMisses(s, ids);
    if Locate(s, ids).Some? {
      LocateHits(s, ids);
    }
  }

  lemma {:induction false} LocateMisses(s: State, ids: seq<string>)
    ensures Locate(s, ids).None? <==> exists k :: 0 <= k < |ids| && Find(s, ids[k]).None?
  {
    if ids != [] {
      var front := ids[..|ids| - 1];
      LocateMisses(s, front);
      if Locate(s, front).None? {
        var k :| 0 <= k < |front| && Find(s, front[k]).None?;
        assert ids[k] == front[k];
      }
    }
  }

  lemma {:induction false} LocateHits(s: State, ids: seq<string>)
    requires Locate(s, ids).Some?
    ensures |Locate(s, ids).value| == |ids|
    ensures forall k :: 0 <= k < |ids| ==> FoundAt(s, ids[k], Locate(s, ids).value[k])
  {
    if ids != [] {
      var front := ids[..|ids| - 1];
      LocateHits(s, front);
      FindFinds(s, ids[|ids| - 1]);
      assert forall k :: 0 <= k < |front| ==> FoundAt(s, ids[k], Locate(s, front).value[k]);
    }
  }

  /** Stable insertion into a list of places sorted by falling index. */
  function InsertDescending(places: seq<Location>, at: Location): seq<Location> {
    if places == [] then [at]
    else
      var last := places[|places| - 1];
      if last.index >= at.index then places + [at]
      else InsertDescending(places[..|places| - 1], at) + [last]
  }

  function SortDescending(places: seq<Location>): seq<Location> {
    if places == [] then []
    else InsertDescending(SortDescending(places[..|places| - 1]), places[|places| - 1])
  }

  /** Pops the places one after the other; the flag is false when an index was out of range. */
  function PopAll(s: State, places: seq<Location>): (State, bool)
    decreases |places|
  {
    if places == [] then (s, true)
    else if !Within(s, places[0]) then (s, false)
    else PopAll(PopAt(s, places[0]), places[1..])
  }

  function Fetch(s: State, places: seq<Location>): (items: seq<Item>)
    requires forall k :: 0 <= k < |places| ==> Within(s, places[k])
    ensures |items| == |places| && forall k :: 0 <= k < |places| ==> items[k] == ItemAt(s, places[k])
  {
    seq(|places|, k requires 0 <= k < |places| => ItemAt(s, places[k]))
  }

  /** The end of a claim once the places have been popped. */
  function AfterPops(popped: State, ok: bool, claimed: seq<Item>): (State, Claim) {
    if !ok then (popped, IndexFault)
    else
      var t := popped.(revision := popped.revision + 1);
      (t, if Validates(t) then Claimed(claimed) else Inconsistent)
  }

  function ClaimItems(s: State, ids: seq<string>): (State, Claim) {
    var places := Locate(s, ids);
    if ids == [] || places.None? then (s, Nothing)
    else
      var popped := PopAll(s, SortDescending(places.value));
      AfterPops(popped.0, popped.1, Fetch(s, places.value))
  }

  // ---------------------------------------------------------------- remove, edit, promote

  function RemoveItem(s: State, id: string): (State, Option<Item>) {
    var hit := Find(s, id);
    if hit.None? then (s, None)
    else (PopAt(s, hit.value).(revision := s.revision + 1), Some(ItemAt(s, hit.value)))
  }

  function EditItem(s: State, id: string, content: string, attachments: seq<string>): (State, Option<Item>) {
    var hit := Find(s, id);
    if hit.None? then (s, None)
    else
      var queue := Queue(s, hit.value.target);
      var edited := queue[hit.value.index].(content := content, attachments := attachments, messages := []);
      (WithQueue(s, hit.value.target, queue[hit.value.index := edited]).(revision := s.revision + 1), Some(edited))
  }

  /** Stable insertion into a list sorted by sequence. */
  function InsertBySequence(items: seq<Item>, item: Item): seq<Item> {
    if items == [] then [item]
    else
      var last := items[|items| - 1];
      if last.sequence <= item.sequence then items + [item]
      else InsertBySequence(items[..|items| - 1], item) + [last]
  }

  function SortBySequence(items: seq<Item>): seq<Item> {
    if items == [] then []
    else InsertBySequence(SortBySequence(items[..|items| - 1]), items[|items| - 1])
  }

  /** The global order in which the pending items are shown. */
  function Pending(s: State): seq<Item> {
    SortBySequence(All(s))
  }

  datatype Promotion = Missing | AlreadySteering(item: Item) | Promoted(item: Item) | Rejected

  function PromoteItem(s: State, id: string): (State, Promotion) {
    var hit := Find(s, id);
    if hit.None? then (s, Missing)
    else
      var item := ItemAt(s, hit.value);
      if hit.value.target == NextStep then (s, AlreadySteering(item))
      else
        var moved := item.(source := User);
        var popped := PopAt(s, hit.value);
        var t := popped.(nextStep := SortBySequence(s.nextStep + [moved]), revision := s.revision + 1);
        (t, if Validates(t) then Promoted(moved) else Rejected)
  }

  // ---------------------------------------------------------------- sorting

  lemma {:induction false} InsertIsStrict(items: seq<Item>, item: Item)
    requires StrictlyOrdered(items) && forall k :: 0 <= k < |items| ==> items[k].sequence != item.sequence
    ensures StrictlyOrdered(InsertBySequence(items, item))
    ensures forall x :: x in InsertBySequence(items, item) <==> x in items || x == item
  {
    if items != [] && items[|items| - 1].sequence > item.sequence {
      var front, last := items[..|items| - 1], items[|items| - 1];
      assert items == front + [last];
      InsertIsStrict(front, item);
      var r := InsertBySequence(front, item);
      assert forall k :: 0 <= k < |r| ==> r[k] in r;
    }
  }

  /** Sorting items with distinct sequences gives the one strictly ordered list of them. */
  lemma {:induction false} SortIsStrict(items: seq<Item>)
    requires UniqueSequences(items)
    ensures StrictlyOrdered(SortBySequence(items))
    ensures forall x :: x in SortBySequence(items) <==> x in items
  {
    if items != [] {
      var front, last := items[..|items| - 1], items[|items| - 1];
      assert items == front + [last];
      SortIsStrict(front);
      var r := SortBySequence(front);
      assert forall k :: 0 <= k < |r| ==> r[k] in front;
      InsertIsStrict(r, last);
    }
  }

  lemma {:induction false} SortOfOrdered(items: seq<Item>)
    requires Ordered(items)
    ensures SortBySequence(items) == items
  {
    if items != [] {
      SortOfOrdered(items[..|items| - 1]);
      assert items == items[..|items| - 1] + [items[|items| - 1]];
    }
  }

  lemma FrontElements(a: seq<Item>)
    requires StrictlyOrdered(a) && a != []
    ensures forall x :: x in a[..|a| - 1] <==> x in a && x != a[|a| - 1]
  {
    var front, last := a[..|a| - 1], a[|a| - 1];
    assert a == front + [last];
    assert forall k :: 0 <= k < |front| ==> front[k].sequence < last.sequence;
  }

  /** Two strictly ordered lists with the same elements are the same list. */
  lemma {:induction false} SameElementsSameList(a: seq<Item>, b: seq<Item>)
    requires StrictlyOrdered(a) && StrictlyOrdered(b)
    requires forall x :: x in a <==> x in b
    ensures a == b
  {
    if a == [] {
      assert forall k :: 0 <= k < |b| ==> b[k] in a;
    } else {
      assert a[0] in b;
      SameLast(a, b);
      FrontElements(a);
      FrontElements(b);
      var fa, fb := a[..|a| - 1], b[..|b| - 1];
      forall x
        ensures x in fa <==> x in fb
      {
        assert x in fa <==> x in a && x != a[|a| - 1];
        assert x in fb <==> x in b && x != b[|b| - 1];
      }
      SameElementsSameList(fa, fb);
      assert a == a[..|a| - 1] + [a[|a| - 1]] && b == b[..|b| - 1] + [b[|b| - 1]];
    }
  }

  lemma SameLast(a: seq<Item>, b: seq<Item>)
    requires StrictlyOrdered(a) && StrictlyOrdered(b) && a != [] && b != []
    requires forall x :: x in a <==> x in b
    ensures a[|a| - 1] == b[|b| - 1]
  {
    var la, lb := a[|a| - 1], b[|b| - 1];
    assert la in b && lb in a;
  }

  // ---------------------------------------------------------------- validity, element by element

  /** The lists have no number and no id in common. */
  ghost predicate Apart(a: seq<Item>, b: seq<Item>) {
    forall x, y :: x in a && y in b ==> x.sequence != y.sequence && x.requestId != y.requestId
  }

  ghost predicate OncePerId(a: seq<Item>) {
    forall x, y :: x in a && y in a && x.requestId == y.requestId ==> x == y
  }

  /** `Validates` without positions. */
  ghost predicate Consistent(s: State) {
    && StrictlyOrdered(s.nextTurn) && OncePerId(s.nextTurn)
    && StrictlyOrdered(s.nextStep) && OncePerId(s.nextStep)
    && Apart(s.nextTurn, s.nextStep)
  }

  lemma ValidatesIffConsistent(s: State)
    ensures Validates(s) <==> Consistent(s)
  {
    if Consistent(s) {
      ConsistentValidates(s);
    } else if Validates(s) {
      ValidatesConsistent(s);
    }
  }

  lemma ConsistentValidates(s: State)
    requires Consistent(s)
    ensures Validates(s)
  {
    var all, n := All(s), |s.nextTurn|;
    forall i, j | 0 <= i < j < |all|
      ensures all[i].sequence != all[j].sequence && all[i].requestId != all[j].requestId
    {
      if j < n {
        assert all[i] == s.nextTurn[i] && all[j] == s.nextTurn[j];
      } else if n <= i {
        assert all[i] == s.nextStep[i - n] && all[j] == s.nextStep[j - n];
      } else {
        assert all[i] == s.nextTurn[i] && all[j] == s.nextStep[j - n];
        assert all[i] in s.nextTurn && all[j] in s.nextStep;
      }
    }
  }

  lemma PartIsUnique(all: seq<Item>, lo: nat, hi: nat)
    requires UniqueIds(all) && UniqueSequences(all) && lo <= hi <= |all| && Ordered(all[lo..hi])
    ensures StrictlyOrdered(all[lo..hi]) && OncePerId(all[lo..hi])
  {
    var part := all[lo..hi];
    assert forall k :: 0 <= k < |part| ==> part[k] == all[lo + k];
  }

  lemma PartsAreApart(all: seq<Item>, n: nat)
    requires UniqueIds(all) && UniqueSequences(all) && n <= |all|
    ensures Apart(all[..n], all[n..])
  {
    forall x, y | x in all[..n] && y in all[n..]
      ensures x.sequence != y.sequence && x.requestId != y.requestId
    {
      var i :| 0 <= i < n && all[i] == x;
      var j :| n <= j < |all| && all[j] == y;
    }
  }

  lemma ValidatesConsistent(s: State)
    requires Validates(s)
    ensures Consistent(s)
  {
    var all, n := All(s), |s.nextTurn|;
    assert all[0..n] == s.nextTurn && all[..n] == s.nextTurn && all[n..|all|] == s.nextStep && all[n..] == s.nextStep;
    PartIsUnique(all, 0, n);
    PartIsUnique(all, n, |all|);
    PartsAreApart(all, n);
  }

  lemma PendingIsStrict(s: State)
    requires Validates(s)
    ensures StrictlyOrdered(Pending(s))
    ensures forall x :: x in Pending(s) <==> Holds(s, x)
  {
    SortIsStrict(All(s));
  }

  // ---------------------------------------------------------------- filtering

  /** The items whose id is not in `ids`, in order. */
  function Without(items: seq<Item>, ids: set<string>): seq<Item> {
    if items == [] then []
    else
      var last := items[|items| - 1];
      Without(items[..|items| - 1], ids) + (if last.requestId in ids then [] else [last])
  }

  lemma {:induction false} WithoutMembers(items: seq<Item>, ids: set<string>)
    ensures forall x :: x in Without(items, ids) <==> x in items && x.requestId !in ids
    ensures |Without(items, ids)| <= |items|
  {
    if items != [] {
      var front, last := items[..|items| - 1], items[|items| - 1];
      assert items == front + [last];
      WithoutMembers(front, ids);
    }
  }

  lemma {:induction false} WithoutIsOrdered(items: seq<Item>, ids: set<string>)
    requires StrictlyOrdered(items)
    ensures StrictlyOrdered(Without(items, ids))
  {
    if items != [] {
      var front, last := items[..|items| - 1], items[|items| - 1];
      WithoutIsOrdered(front, ids);
      WithoutMembers(front, ids);
      var r := Without(front, ids);
      assert forall k :: 0 <= k < |r| ==> r[k] in r && r[k] in front;
    }
  }

  lemma {:induction false} WithoutNothing(items: seq<Item>, ids: set<string>)
    requires forall k :: 0 <= k < |items| ==> items[k].requestId !in ids
    ensures Without(items, ids) == items
  {
    if items != [] {
      WithoutNothing(items[..|items| - 1], ids);
      assert items == items[..|items| - 1] + [items[|items| - 1]];
    }
  }

  lemma {:induction false} WithoutTwice(items: seq<Item>, a: set<string>, b: set<string>)
    ensures Without(Without(items, a), b) == Without(items, a + b)
  {
    if items != [] {
      var front, last := items[..|items| - 1], items[|items| - 1];
      WithoutTwice(front, a, b);
      if last.requestId !in a {
        var r := Without(front, a) + [last];
        assert r[..|r| - 1] == Without(front, a);
      } else {
        assert Without(items, a) == Without(front, a);
      }
    }
  }

  lemma {:induction false} RemoveAtIsWithout(items: seq<Item>, k: nat)
    requires k < |items| && UniqueIds(items)
    ensures RemoveAt(items, k) == Without(items, {items[k].requestId})
    decreases |items|
  {
    var front, last := items[..|items| - 1], items[|items| - 1];
    if k == |items| - 1 {
      WithoutNothing(front, {last.requestId});
    } else {
      RemoveAtIsWithout(front, k);
      assert RemoveAt(items, k) == RemoveAt(front, k) + [last];
    }
  }

  /** Filtering both queues by id keeps the inbox valid. */
  lemma WithoutKeepsValid(s: State, t: State, ids: set<string>)
    requires Validates(s)
    requires t.nextTurn == Without(s.nextTurn, ids) && t.nextStep == Without(s.nextStep, ids)
    ensures Validates(t)
  {
    ValidatesIffConsistent(s);
    ValidatesIffConsistent(t);
    WithoutMembers(s.nextTurn, ids);
    WithoutMembers(s.nextStep, ids);
    WithoutIsOrdered(s.nextTurn, ids);
    WithoutIsOrdered(s.nextStep, ids);
  }

  lemma UniqueInQueue(s: State, target: Target)
    requires Validates(s)
    ensures UniqueIds(Queue(s, target))
  {
    ValidatesConsistent(s);
    var queue := Queue(s, target);
    assert forall k :: 0 <= k < |queue| ==> queue[k] in queue;
  }

  lemma OnlyInItsQueue(s: State, at: Location)
    requires Validates(s) && Within(s, at)
    ensures var other := if at.target == NextTurn then s.nextStep else s.nextTurn;
      forall k :: 0 <= k < |other| ==> other[k].requestId != ItemAt(s, at).requestId
  {
    ValidatesConsistent(s);
    assert ItemAt(s, at) in Queue(s, at.target);
    var other := if at.target == NextTurn then s.nextStep else s.nextTurn;
    assert forall k :: 0 <= k < |other| ==> other[k] in other;
  }

  /** Popping one place is filtering its id out of both queues. */
  lemma PopAtIsWithout(s: State, at: Location)
    requires Validates(s) && Within(s, at)
    ensures var ids := {ItemAt(s, at).requestId};
      PopAt(s, at) == s.(nextTurn := Without(s.nextTurn, ids), nextStep := Without(s.nextStep, ids))
  {
    var ids := {ItemAt(s, at).requestId};
    UniqueInQueue(s, at.target);
    RemoveAtIsWithout(Queue(s, at.target), at.index);
    OnlyInItsQueue(s, at);
    WithoutNothing(if at.target == NextTurn then s.nextStep else s.nextTurn, ids);
  }
}
