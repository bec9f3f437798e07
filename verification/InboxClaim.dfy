/** `claim` pops places by falling index from two lists at once. For distinct ids that is a filter,
    and for repeated ids it is not: `ClaimIsExactIffDistinct` says exactly when. */
module InboxClaim {
  import opened Prelude
  import opened Inbox

  ghost predicate Distinct<T>(xs: seq<T>) {
    forall i, j :: 0 <= i < j < |xs| ==> xs[i] != xs[j]
  }

  /** Distinct places by falling index. */
  ghost predicate Falling(places: seq<Location>) {
    forall i, j :: 0 <= i < j < |places| ==> places[i] != places[j] && places[i].index >= places[j].index
  }

  ghost predicate AllWithin(s: State, places: seq<Location>) {
    forall at :: at in places ==> Within(s, at)
  }

  ghost function IdsAt(s: State, places: seq<Location>): set<string>
    requires AllWithin(s, places)
  {
    set at | at in places :: ItemAt(s, at).requestId
  }

  /** Popping a place leaves every earlier place of its queue, and the other queue, as they were. */
  lemma PopKeepsEarlier(s: State, at: Location, other: Location)
    requires Within(s, at) && Within(s, other) && at != other && at.index >= other.index
    ensures Within(PopAt(s, at), other) && ItemAt(PopAt(s, at), other) == ItemAt(s, other)
  {
  }

  /** Pops by falling index remove exactly the items that stood at the places. */
  lemma {:induction false} PopAllIsWithout(s: State, places: seq<Location>)
    requires Validates(s) && Falling(places) && AllWithin(s, places)
    ensures var ids := IdsAt(s, places);
      PopAll(s, places) == (s.(nextTurn := Without(s.nextTurn, ids), nextStep := Without(s.nextStep, ids)), true)
    decreases |places|
  {
    var ids := IdsAt(s, places);
    if places == [] {
      WithoutNothing(s.nextTurn, ids);
      WithoutNothing(s.nextStep, ids);
    } else {
      var at, rest := places[0], places[1..];
      var first := {ItemAt(s, at).requestId};
      var t := PopAt(s, at);
      PopAtIsWithout(s, at);
      WithoutKeepsValid(s, t, first);
      RestStays(s, places);
      PopAllIsWithout(t, rest);
      SplitIds(s, places);
      WithoutTwice(s.nextTurn, first, IdsAt(t, rest));
      WithoutTwice(s.nextStep, first, IdsAt(t, rest));
    }
  }

  lemma RestStays(s: State, places: seq<Location>)
    requires places != [] && Falling(places) && AllWithin(s, places)
    ensures var t := PopAt(s, places[0]);
      forall at :: at in places[1..] ==> Within(s, at) && Within(t, at) && ItemAt(t, at) == ItemAt(s, at)
  {
    forall at | at in places[1..]
      ensures Within(s, at) && Within(PopAt(s, places[0]), at)
      ensures ItemAt(PopAt(s, places[0]), at) == ItemAt(s, at)
    {
      var k :| 0 <= k < |places[1..]| && places[1..][k] == at;
      assert places[k + 1] == at;
      PopKeepsEarlier(s, places[0], at);
    }
  }

  lemma SplitIds(s: State, places: seq<Location>)
    requires places != [] && Falling(places) && AllWithin(s, places)
    ensures AllWithin(PopAt(s, places[0]), places[1..])
    ensures IdsAt(s, places) == {ItemAt(s, places[0]).requestId} + IdsAt(PopAt(s, places[0]), places[1..])
  {
    RestStays(s, places);
    assert places == [places[0]] + places[1..];
  }

  lemma {:induction false} InsertMembers(places: seq<Location>, at: Location)
    ensures forall x :: x in InsertDescending(places, at) <==> x in places || x == at
  {
    if places != [] && places[|places| - 1].index < at.index {
      InsertMembers(places[..|places| - 1], at);
      assert places == places[..|places| - 1] + [places[|places| - 1]];
    }
  }

  lemma LastIsLowest(places: seq<Location>)
    requires Falling(places) && places != []
    ensures var last := places[|places| - 1];
      forall x :: x in places[..|places| - 1] ==> x != last && x.index >= last.index
  {
  }

  lemma {:induction false} InsertFalls(places: seq<Location>, at: Location)
    requires Falling(places) && at !in places
    ensures Falling(InsertDescending(places, at))
  {
    if places == [] {
    } else if places[|places| - 1].index < at.index {
      var front, last := places[..|places| - 1], places[|places| - 1];
      InsertFalls(front, at);
      InsertMembers(front, at);
      LastIsLowest(places);
    } else {
      LastIsLowest(places);
    }
  }

  lemma {:induction false} SortFalls(places: seq<Location>)
    requires Distinct(places)
    ensures Falling(SortDescending(places))
    ensures forall x :: x in SortDescending(places) <==> x in places
  {
    if places != [] {
      var front, last := places[..|places| - 1], places[|places| - 1];
      assert places == front + [last];
      SortFalls(front);
      InsertFalls(SortDescending(front), last);
      InsertMembers(SortDescending(front), last);
    }
  }

  ghost predicate AllPending(s: State, ids: seq<string>) {
    forall k :: 0 <= k < |ids| ==> Find(s, ids[k]).Some?
  }

  function Named(ids: seq<string>): set<string> {
    set id | id in ids
  }

  /** The state a claim should leave: the named items are gone and nothing else has changed. */
  function Claimless(s: State, ids: seq<string>): State {
    State(s.revision + 1, s.nextSequence, Without(s.nextTurn, Named(ids)), Without(s.nextStep, Named(ids)))
  }

  ghost predicate PlacesOf(s: State, ids: seq<string>, places: seq<Location>) {
    |places| == |ids| && forall k :: 0 <= k < |ids| ==> FoundAt(s, ids[k], places[k])
  }

  lemma SortedPlaces(s: State, ids: seq<string>, places: seq<Location>)
    requires PlacesOf(s, ids, places) && Distinct(ids)
    ensures var sorted := SortDescending(places);
      Falling(sorted) && AllWithin(s, sorted) && IdsAt(s, sorted) == Named(ids)
  {
    SortFalls(places);
  }

  /** Claiming distinct ids is all or nothing: if one is absent nothing happens, otherwise exactly
      the named items leave, each returned in the order asked for, and the inbox stays valid. */
  lemma ClaimIsAFilter(s: State, ids: seq<string>)
    requires Validates(s) && Distinct(ids) && ids != []
    ensures !AllPending(s, ids) ==> ClaimItems(s, ids) == (s, Nothing)
    ensures AllPending(s, ids) ==>
      var r := ClaimItems(s, ids);
      r.0 == Claimless(s, ids) && Validates(r.0) && r.1.Claimed? && Fetched(s, ids, r.1.items)
  {
    var places := Locate(s, ids);
    LocateFinds(s, ids);
    if AllPending(s, ids) {
      assert PlacesOf(s, ids, places.value);
      SortedPlaces(s, ids, places.value);
      PopAllIsWithout(s, SortDescending(places.value));
      WithoutKeepsValid(s, Claimless(s, ids), Named(ids));
    }
  }

  /** `items` are the pending items with the given ids, in that order. */
  ghost predicate Fetched(s: State, ids: seq<string>, items: seq<Item>) {
    |items| == |ids| && forall k :: 0 <= k < |ids| ==> items[k].requestId == ids[k] && Holds(s, items[k])
  }

  // ---------------------------------------------------------------- exactly when a claim is exact

  lemma {:induction false} PopAllCounts(s: State, places: seq<Location>)
    requires PopAll(s, places).1
    ensures |All(PopAll(s, places).0)| == |All(s)| - |places|
    decreases |places|
  {
    if places != [] {
      PopAllCounts(PopAt(s, places[0]), places[1..]);
    }
  }

  lemma {:induction false} SortCounts(places: seq<Location>)
    ensures |SortDescending(places)| == |places|
  {
    if places != [] {
      SortCounts(places[..|places| - 1]);
      InsertCounts(SortDescending(places[..|places| - 1]), places[|places| - 1]);
    }
  }

  lemma {:induction false} InsertCounts(places: seq<Location>, at: Location)
    ensures |InsertDescending(places, at)| == |places| + 1
  {
    if places != [] && places[|places| - 1].index < at.index {
      InsertCounts(places[..|places| - 1], at);
    }
  }

  /** Dropping a repeated id changes neither what is named nor which ids are pending. */
  lemma {:induction false} Deduplicated(ids: seq<string>) returns (once: seq<string>)
    ensures Distinct(once) && Named(once) == Named(ids) && |once| <= |ids|
    ensures |once| == |ids| ==> Distinct(ids)
  {
    if ids == [] {
      once := [];
    } else {
      var front, last := ids[..|ids| - 1], ids[|ids| - 1];
      assert ids == front + [last];
      var shorter := Deduplicated(front);
      if last in front {
        once := shorter;
        assert Named(ids) == Named(front);
      } else {
        once := shorter + [last];
        assert last !in Named(shorter);
        assert Named(ids) == Named(front) + {last};
        assert Named(once) == Named(shorter) + {last};
      }
    }
  }

  lemma ClaimCounts(s: State, ids: seq<string>)
    requires ClaimItems(s, ids).1.Claimed?
    ensures |All(ClaimItems(s, ids).0)| == |All(s)| - |ids|
  {
    var places := Locate(s, ids).value;
    LocateFinds(s, ids);
    SortCounts(places);
    PopAllCounts(s, SortDescending(places));
  }

  lemma SameNamesPending(s: State, ids: seq<string>, once: seq<string>)
    requires AllPending(s, ids) && Named(once) == Named(ids)
    ensures AllPending(s, once) && (ids != [] ==> once != [])
  {
    forall k | 0 <= k < |once|
      ensures Find(s, once[k]).Some?
    {
      assert once[k] in Named(once);
      var j :| 0 <= j < |ids| && ids[j] == once[k];
    }
    assert ids != [] ==> ids[0] in Named(ids);
  }

  /** For ids that are all pending, `claim` removes exactly the named items and raises nothing if
      and only if no id is repeated. */
  lemma ClaimIsExactIffDistinct(s: State, ids: seq<string>)
    requires Validates(s) && ids != [] && AllPending(s, ids)
    ensures (ClaimItems(s, ids).0 == Claimless(s, ids) && ClaimItems(s, ids).1.Claimed?) <==> Distinct(ids)
  {
    if Distinct(ids) {
      ClaimIsAFilter(s, ids);
    } else if ClaimItems(s, ids).1.Claimed? {
      ClaimCounts(s, ids);
      var once := Deduplicated(ids);
      SameNamesPending(s, ids, once);
      ClaimIsAFilter(s, once);
      ClaimCounts(s, once);
      assert Claimless(s, once) == Claimless(s, ids);
    }
  }

  lemma PopTwice(s: State, at: Location)
    requires Within(s, at)
    ensures SortDescending([at, at]) == [at, at]
    ensures PopAll(s, [at, at]) ==
      if Within(PopAt(s, at), at) then (PopAt(PopAt(s, at), at), true) else (PopAt(s, at), false)
  {
    assert [at, at][..1] == [at] && [at][..0] == [];
    assert SortDescending([at]) == [at];
    var t := PopAt(s, at);
    assert [at][1..] == [] && [at, at][1..] == [at];
    assert PopAll(t, [at]) == if Within(t, at) then PopAll(PopAt(t, at), []) else (t, false);
  }

  /** Asking twice for one id pops its place twice: the neighbour that moves up is lost, or the
      index is out of range when there is none. */
  lemma RepeatedClaim(s: State, id: string, at: Location)
    requires Find(s, id) == Some(at)
    ensures ClaimItems(s, [id, id]) ==
      if at.index + 1 < |Queue(s, at.target)|
      then AfterPops(PopAt(PopAt(s, at), at), true, [ItemAt(s, at), ItemAt(s, at)])
      else (PopAt(s, at), IndexFault)
  {
    LocateTwice(s, id, at);
    PopTwice(s, at);
    PoppedOnce(s, at);
  }

  lemma LocateTwice(s: State, id: string, at: Location)
    requires Find(s, id) == Some(at)
    ensures Locate(s, [id, id]) == Some([at, at])
    ensures Fetch(s, [at, at]) == [ItemAt(s, at), ItemAt(s, at)]
  {
    assert [id][..0] == [] && Locate(s, []) == Some([]);
    assert [] + [at] == [at];
    assert Locate(s, [id]) == Some([at]);
    assert [id, id][..1] == [id] && [at] + [at] == [at, at];
  }

  lemma PoppedOnce(s: State, at: Location)
    requires Within(s, at)
    ensures Within(PopAt(s, at), at) <==> at.index + 1 < |Queue(s, at.target)|
    ensures PopAt(s, at).revision == s.revision
  {
  }

  /** With `a` and `b` waiting, claiming `a` twice loses `b`: it is neither named nor returned, and
      nothing is left. */
  lemma RepeatedClaimLosesTheNext(s: State, a: Item, b: Item)
    requires s.nextTurn == [a, b] && s.nextStep == []
    requires a.requestId != b.requestId && a.sequence < b.sequence
    ensures Validates(s)
    ensures ClaimItems(s, [a.requestId, a.requestId]).1 == Claimed([a, a])
    ensures All(ClaimItems(s, [a.requestId, a.requestId]).0) == []
  {
    var at := Location(NextTurn, 0);
    ValidPair(s, a, b);
    PopsBoth(s, a, b);
    RepeatedClaim(s, a.requestId, at);
    ValidEmpty(PopAt(PopAt(s, at), at).(revision := s.revision + 1));
  }

  lemma ValidPair(s: State, a: Item, b: Item)
    requires s.nextTurn == [a, b] && s.nextStep == []
    requires a.requestId != b.requestId && a.sequence < b.sequence
    ensures Validates(s) && Find(s, a.requestId) == Some(Location(NextTurn, 0))
  {
    assert All(s) == [a, b];
  }

  lemma ValidEmpty(s: State)
    requires s.nextTurn == [] && s.nextStep == []
    ensures Validates(s) && All(s) == []
  {
  }

  lemma PopsBoth(s: State, a: Item, b: Item)
    requires s.nextTurn == [a, b] && s.nextStep == []
    ensures var at := Location(NextTurn, 0);
      && PopAt(s, at) == s.(nextTurn := [b])
      && PopAt(PopAt(s, at), at) == s.(nextTurn := [])
  {
    assert RemoveAt([a, b], 0) == [b] && RemoveAt([b], 0) == [];
  }
}
