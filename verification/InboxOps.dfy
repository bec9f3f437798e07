/** What each inbox operation keeps: validity, the global order of a promotion, and exactly when an
    admission with a caller-chosen sequence number is rejected. */
module InboxOps {
  import opened Prelude
  import opened Inbox
  import opened InboxClaim

  /** Every stored number has been issued: it lies between 1 and the next one. */
  ghost predicate Issued(s: State) {
    forall x :: Holds(s, x) ==> 1 <= x.sequence < s.nextSequence
  }

  // ---------------------------------------------------------------- admit

  function OtherQueue(s: State, target: Target): seq<Item> {
    if target == NextTurn then s.nextStep else s.nextTurn
  }

  /** `item` clashes with the inbox: its number is taken, or is below one in its own queue. */
  ghost predicate Clashes(s: State, item: Item, target: Target) {
    || (exists x :: x in Queue(s, target) && x.sequence >= item.sequence)
    || (exists x :: x in OtherQueue(s, target) && x.sequence == item.sequence)
  }

  lemma StrictSnoc(items: seq<Item>, x: Item)
    requires StrictlyOrdered(items)
    ensures StrictlyOrdered(items + [x]) <==> forall y :: y in items ==> y.sequence < x.sequence
  {
    if StrictlyOrdered(items + [x]) {
      forall y | y in items
        ensures y.sequence < x.sequence
      {
        var k :| 0 <= k < |items| && items[k] == y;
        assert (items + [x])[k] == y && (items + [x])[|items|] == x;
      }
    } else {
      assert forall k :: 0 <= k < |items| ==> items[k] in items;
    }
  }

  lemma OnceSnoc(a: seq<Item>, x: Item)
    requires OncePerId(a) && forall y :: y in a ==> y.requestId != x.requestId
    ensures OncePerId(a + [x])
  {
  }

  lemma ApartSnoc(queue: seq<Item>, other: seq<Item>, x: Item)
    requires Apart(queue, other) && forall y :: y in other ==> y.requestId != x.requestId
    ensures Apart(queue + [x], other) <==> forall y :: y in other ==> y.sequence != x.sequence
  {
    assert forall y :: y in queue + [x] <==> y in queue || y == x;
  }

  /** The two queues on their own, in either order. */
  ghost predicate InOrder(queue: seq<Item>, other: seq<Item>) {
    StrictlyOrdered(queue) && OncePerId(queue) && StrictlyOrdered(other) && OncePerId(other) && Apart(queue, other)
  }

  lemma ConsistentInOrder(s: State, target: Target)
    ensures Consistent(s) <==> InOrder(Queue(s, target), OtherQueue(s, target))
  {
  }

  lemma InOrderSnoc(queue: seq<Item>, other: seq<Item>, x: Item)
    requires InOrder(queue, other)
    requires forall y :: y in queue || y in other ==> y.requestId != x.requestId
    ensures InOrder(queue + [x], other) <==>
              && (forall y :: y in queue ==> y.sequence < x.sequence)
              && (forall y :: y in other ==> y.sequence != x.sequence)
  {
    StrictSnoc(queue, x);
    OnceSnoc(queue, x);
    ApartSnoc(queue, other, x);
  }

  lemma EnqueueConsistent(s: State, item: Item, target: Target)
    requires Consistent(s) && Find(s, item.requestId).None?
    ensures Consistent(Enqueue(s, item, target)) <==> !Clashes(s, Numbered(s, item), target)
  {
    var queued, queue, other := Numbered(s, item), Queue(s, target), OtherQueue(s, target);
    FindFinds(s, item.requestId);
    assert forall y :: y in queue || y in other ==> Holds(s, y);
    ConsistentInOrder(s, target);
    ConsistentInOrder(Enqueue(s, item, target), target);
    InOrderSnoc(queue, other, queued);
  }

  /** An admission that reaches the queue is rejected exactly when its number clashes. The queue in
      memory has then already taken the item, although nothing is committed. */
  lemma AdmitRejectedIffClash(s: State, item: Item, target: Target, capacity: nat)
    requires Validates(s) && Find(s, item.requestId).None? && |s.nextTurn| + |s.nextStep| < capacity
    ensures Admit(s, item, target, false, capacity).1.Invalid? <==> Clashes(s, Numbered(s, item), target)
    ensures Holds(Admit(s, item, target, false, capacity).0, Numbered(s, item))
  {
    ValidatesIffConsistent(s);
    ValidatesIffConsistent(Enqueue(s, item, target));
    EnqueueConsistent(s, item, target);
  }

  /** An item with this id waits. */
  ghost predicate Waits(s: State, id: string) {
    exists x :: Holds(s, x) && x.requestId == id
  }

  /** The item with the id stands at this place of one of the queues, counted from 1. */
  predicate StandsAtPlace(s: State, id: string, place: nat) {
    || (0 < place <= |s.nextTurn| && s.nextTurn[place - 1].requestId == id)
    || (0 < place <= |s.nextStep| && s.nextStep[place - 1].requestId == id)
  }

  /** How an admission is answered: a waiting id is a duplicate, an id seen before is never queued, and
      then there must be room. */
  lemma AdmitAnswers(s: State, item: Item, target: Target, seen: bool, capacity: nat)
    ensures var (t, r) := Admit(s, item, target, seen, capacity);
      && (r.Duplicate? <==> Waits(s, item.requestId))
      && (r.Duplicate? ==> StandsAtPlace(s, item.requestId, r.position))
      && (r.Seen? <==> !Waits(s, item.requestId) && seen)
      && (r.Full? <==> !Waits(s, item.requestId) && !seen && |s.nextTurn| + |s.nextStep| >= capacity)
      && (r.Admitted? || r.Invalid? <==>
            !Waits(s, item.requestId) && !seen && |s.nextTurn| + |s.nextStep| < capacity)
      && (!r.Admitted? && !r.Invalid? ==> t == s)
      && (r.Admitted? ==> r.count == |s.nextTurn| + |s.nextStep| + 1)
  {
    FindFinds(s, item.requestId);
    var hit := Find(s, item.requestId);
    if hit.Some? {
      assert Holds(s, ItemAt(s, hit.value));
    }
  }

  /** What is queued: the item behind all others of its target, under its own number or the next one. */
  lemma AdmitQueues(s: State, item: Item, target: Target, seen: bool, capacity: nat)
    ensures var (t, r) := Admit(s, item, target, seen, capacity);
      var number := if item.sequence > 0 then item.sequence else s.nextSequence;
      var queued := item.(sequence := number);
      r.Admitted? || r.Invalid? ==>
        && t.nextTurn == (if target.NextTurn? then s.nextTurn + [queued] else s.nextTurn)
        && t.nextStep == (if target.NextTurn? then s.nextStep else s.nextStep + [queued])
        && t.revision == s.revision + 1
        && t.nextSequence == (if s.nextSequence <= number then number + 1 else s.nextSequence)
  {
  }

  /** `t` holds what `s` holds and `x`. */
  ghost predicate Adds(s: State, t: State, x: Item) {
    forall y :: Holds(t, y) <==> Holds(s, y) || y == x
  }

  lemma EnqueueAdds(s: State, item: Item, target: Target)
    ensures Adds(s, Enqueue(s, item, target), Numbered(s, item))
    ensures |All(Enqueue(s, item, target))| == |All(s)| + 1
  {
  }

  /** An unnumbered item, as the service always sends it, never clashes. */
  lemma UnnumberedIsAdmitted(s: State, item: Item, target: Target, seen: bool, capacity: nat)
    requires Validates(s) && Issued(s) && 1 <= s.nextSequence && item.sequence <= 0 && |All(s)| <= capacity
    ensures var (t, r) := Admit(s, item, target, seen, capacity);
      && !r.Invalid? && Validates(t) && Issued(t) && |All(t)| <= capacity
      && (if r.Admitted? then
            t.nextSequence == s.nextSequence + 1 && r.count == |All(t)| && Adds(s, t, item.(sequence := s.nextSequence))
          else t == s)
  {
    if Find(s, item.requestId).None? {
      var t := Enqueue(s, item, target);
      assert Validates(t) by {
        ValidatesIffConsistent(s);
        ValidatesIffConsistent(t);
        EnqueueConsistent(s, item, target);
        NoClash(s, item, target);
      }
      EnqueueAdds(s, item, target);
    }
  }

  lemma NoClash(s: State, item: Item, target: Target)
    requires Issued(s) && item.sequence <= 0
    ensures !Clashes(s, Numbered(s, item), target)
  {
    assert forall x :: x in Queue(s, target) || x in OtherQueue(s, target) ==> Holds(s, x);
  }

  // ---------------------------------------------------------------- remove and edit

  lemma RemoveIsWithout(s: State, id: string)
    requires Validates(s)
    ensures var (t, r) := RemoveItem(s, id);
      && Validates(t) && t.nextSequence == s.nextSequence
      && (if r.Some? then
            && Holds(s, r.value) && r.value.requestId == id
            && t.nextTurn == Without(s.nextTurn, {id}) && t.nextStep == Without(s.nextStep, {id})
          else t == s && forall x :: Holds(s, x) ==> x.requestId != id)
  {
    var hit := Find(s, id);
    FindFinds(s, id);
    if hit.Some? {
      PopAtIsWithout(s, hit.value);
      WithoutKeepsValid(s, RemoveItem(s, id).0, {id});
    }
  }

  /** The list with new text on the item `id`. */
  function Edited(items: seq<Item>, id: string, content: string, attachments: seq<string>): (r: seq<Item>)
    ensures |r| == |items|
    ensures forall k :: 0 <= k < |r| ==>
      r[k] == if items[k].requestId == id then items[k].(content := content, attachments := attachments, messages := [])
              else items[k]
  {
    seq(|items|, k requires 0 <= k < |items| =>
      if items[k].requestId == id then items[k].(content := content, attachments := attachments, messages := [])
      else items[k])
  }

  ghost predicate SameKeys(a: seq<Item>, b: seq<Item>) {
    |a| == |b| && forall k :: 0 <= k < |a| ==> a[k].requestId == b[k].requestId && a[k].sequence == b[k].sequence
  }

  lemma SameKeysKeepValid(s: State, t: State)
    requires Validates(s) && SameKeys(s.nextTurn, t.nextTurn) && SameKeys(s.nextStep, t.nextStep)
    ensures Validates(t)
  {
    assert SameKeys(All(s), All(t));
  }

  lemma EditedNothing(items: seq<Item>, id: string, content: string, attachments: seq<string>)
    requires forall k :: 0 <= k < |items| ==> items[k].requestId != id
    ensures Edited(items, id, content, attachments) == items
  {
  }

  /** Editing changes the text of the named item only; every item keeps its place and its number. */
  lemma EditKeepsPlaces(s: State, id: string, content: string, attachments: seq<string>)
    requires Validates(s)
    ensures var (t, r) := EditItem(s, id, content, attachments);
      && Validates(t) && t.nextSequence == s.nextSequence
      && t.nextTurn == Edited(s.nextTurn, id, content, attachments)
      && t.nextStep == Edited(s.nextStep, id, content, attachments)
      && (r.None? ==> t == s)
  {
    var (t, r) := EditItem(s, id, content, attachments);
    var hit := Find(s, id);
    FindFinds(s, id);
    if hit.Some? {
      var at := hit.value;
      UniqueInQueue(s, at.target);
      OnlyInItsQueue(s, at);
      EditedNothing(OtherQueue(s, at.target), id, content, attachments);
      SameKeysKeepValid(s, t);
    } else {
      assert forall k :: 0 <= k < |s.nextTurn| ==> Holds(s, s.nextTurn[k]);
      assert forall k :: 0 <= k < |s.nextStep| ==> Holds(s, s.nextStep[k]);
      EditedNothing(s.nextTurn, id, content, attachments);
      EditedNothing(s.nextStep, id, content, attachments);
    }
  }

  // ---------------------------------------------------------------- promote

  /** The list with the item `id` marked as coming from the user. */
  function Steered(items: seq<Item>, id: string): (r: seq<Item>)
    ensures |r| == |items|
    ensures forall k :: 0 <= k < |r| ==>
      r[k] == if items[k].requestId == id then items[k].(source := User) else items[k]
  {
    seq(|items|, k requires 0 <= k < |items| =>
      if items[k].requestId == id then items[k].(source := User) else items[k])
  }

  /** Sorting `a` with a new item in it: strictly ordered, one item per id. */
  lemma SortedWithNew(a: seq<Item>, x: Item)
    requires StrictlyOrdered(a) && OncePerId(a)
    requires forall y :: y in a ==> y.sequence != x.sequence && y.requestId != x.requestId
    ensures var r := SortBySequence(a + [x]);
      StrictlyOrdered(r) && OncePerId(r) && forall y :: y in r <==> y in a || y == x
  {
    assert forall k :: 0 <= k < |a| ==> a[k] in a;
    SortIsStrict(a + [x]);
    OnceSnoc(a, x);
  }

  lemma PromotedStep(s: State, id: string, at: Location)
    requires Validates(s) && Find(s, id) == Some(at) && at.target == NextTurn
    ensures var r := SortBySequence(s.nextStep + [ItemAt(s, at).(source := User)]);
      && StrictlyOrdered(r) && OncePerId(r)
      && (forall x :: x in r <==> x in s.nextStep || x == ItemAt(s, at).(source := User))
  {
    var item := ItemAt(s, at);
    ValidatesConsistent(s);
    assert item in s.nextTurn;
    SortedWithNew(s.nextStep, item.(source := User));
  }

  lemma PromotedTurn(s: State, id: string, at: Location)
    requires Validates(s) && Find(s, id) == Some(at) && at.target == NextTurn
    ensures var r := PopAt(s, at).nextTurn;
      && StrictlyOrdered(r) && OncePerId(r)
      && (forall x :: x in r <==> x in s.nextTurn && x.requestId != id)
  {
    FindFinds(s, id);
    PopAtIsWithout(s, at);
    ValidatesConsistent(s);
    WithoutMembers(s.nextTurn, {id});
    WithoutIsOrdered(s.nextTurn, {id});
  }

  lemma PromotedQueues(s: State, id: string, at: Location)
    requires Validates(s) && Find(s, id) == Some(at) && at.target == NextTurn
    ensures var moved := ItemAt(s, at).(source := User);
      var t := PromoteItem(s, id).0;
      && StrictlyOrdered(t.nextStep) && OncePerId(t.nextStep)
      && (forall x :: x in t.nextStep <==> x in s.nextStep || x == moved)
      && StrictlyOrdered(t.nextTurn) && OncePerId(t.nextTurn)
      && (forall x :: x in t.nextTurn <==> x in s.nextTurn && x.requestId != id)
  {
    PromotedStep(s, id, at);
    PromotedTurn(s, id, at);
  }

  /** Moving `x` from `a` to `b` keeps the two apart, whatever else happens to it but its number and id. */
  lemma MovedApart(a: seq<Item>, b: seq<Item>, x: Item, a': seq<Item>, b': seq<Item>)
    requires Apart(a, b) && StrictlyOrdered(a) && x in a
    requires forall y :: y in a' ==> y in a && y.requestId != x.requestId
    requires forall y :: y in b' ==> y in b || y == x.(source := User)
    ensures Apart(a', b')
  {
    forall y, z | y in a' && z in b'
      ensures y.sequence != z.sequence && y.requestId != z.requestId
    {
      if z == x.(source := User) {
        var j :| 0 <= j < |a| && a[j] == x;
        var k :| 0 <= k < |a| && a[k] == y;
      }
    }
  }

  lemma PromoteIsValid(s: State, id: string, at: Location)
    requires Validates(s) && Find(s, id) == Some(at) && at.target == NextTurn
    ensures Validates(PromoteItem(s, id).0)
  {
    var t, item := PromoteItem(s, id).0, ItemAt(s, at);
    PromotedQueues(s, id, at);
    ValidatesConsistent(s);
    FindFinds(s, id);
    assert item in s.nextTurn;
    assert Apart(t.nextTurn, t.nextStep) by {
      MovedApart(s.nextTurn, s.nextStep, item, t.nextTurn, t.nextStep);
    }
    ConsistentValidates(t);
  }

  lemma PromotedHolds(s: State, id: string, at: Location)
    requires Validates(s) && Find(s, id) == Some(at) && at.target == NextTurn
    ensures Holds(s, ItemAt(s, at)) && ItemAt(s, at).requestId == id
    ensures forall x :: Holds(PromoteItem(s, id).0, x) <==>
      (Holds(s, x) && x.requestId != id) || x == ItemAt(s, at).(source := User)
    ensures forall x :: Holds(s, x) && x.requestId == id ==> x == ItemAt(s, at)
  {
    PromotedQueues(s, id, at);
    FindFinds(s, id);
    ValidatesIffConsistent(s);
    assert ItemAt(s, at) in s.nextTurn;
  }

  lemma SteeredIsStrict(items: seq<Item>, id: string)
    requires StrictlyOrdered(items)
    ensures StrictlyOrdered(Steered(items, id))
  {
  }

  /** Promotion moves an item between the queues without moving it in the order in which all pending
      items are shown; only its source changes. */
  lemma PromoteKeepsPendingOrder(s: State, id: string)
    requires Validates(s)
    ensures var (t, r) := PromoteItem(s, id);
      && !r.Rejected? && Validates(t)
      && Pending(t) == (if r.Promoted? then Steered(Pending(s), id) else Pending(s))
      && (!r.Promoted? ==> t == s)
  {
    var hit := Find(s, id);
    if hit.Some? && hit.value.target == NextTurn {
      PromotedPending(s, id, hit.value);
    }
  }

  lemma PromotedPending(s: State, id: string, at: Location)
    requires Validates(s) && Find(s, id) == Some(at) && at.target == NextTurn
    ensures var t := PromoteItem(s, id).0;
      Validates(t) && Pending(t) == Steered(Pending(s), id)
  {
    var t := PromoteItem(s, id).0;
    PromoteIsValid(s, id, at);
    PromotedHolds(s, id, at);
    PendingIsStrict(s);
    PendingIsStrict(t);
    SteeredIsStrict(Pending(s), id);
    SameElementsSameList(Pending(t), Steered(Pending(s), id));
  }

  // ---------------------------------------------------------------- what the three answer

  lemma FindIsIt(s: State, x: Item)
    requires Validates(s) && Holds(s, x)
    ensures Find(s, x.requestId).Some? && ItemAt(s, Find(s, x.requestId).value) == x
    ensures Find(s, x.requestId).value.target == (if x in s.nextTurn then NextTurn else NextStep)
  {
    var id := x.requestId;
    FindFinds(s, id);
    ValidatesIffConsistent(s);
    var at := Find(s, id).value;
    assert ItemAt(s, at) in Queue(s, at.target);
  }

  /** An item that waits as a turn is moved to the steps and marked as the user's; one that waits as a step
      stays as it is. */
  lemma PromoteMoves(s: State, x: Item)
    requires Validates(s) && Holds(s, x)
    ensures x in s.nextStep ==> PromoteItem(s, x.requestId) == (s, AlreadySteering(x))
    ensures x in s.nextTurn ==>
      var (t, r) := PromoteItem(s, x.requestId);
      && r == Promoted(x.(source := User))
      && t.nextTurn == Without(s.nextTurn, {x.requestId})
      && StrictlyOrdered(t.nextStep) && (forall y :: y in t.nextStep <==> y in s.nextStep || y == x.(source := User))
      && t.revision == s.revision + 1 && t.nextSequence == s.nextSequence
  {
    FindIsIt(s, x);
    var at := Find(s, x.requestId).value;
    if at.target == NextTurn {
      PromoteIsValid(s, x.requestId, at);
      PromotedQueues(s, x.requestId, at);
      PopAtIsWithout(s, at);
    }
    ValidatesConsistent(s);
  }

  /** An edit answers with the edited item, a removal with the removed one. */
  lemma EditAndRemoveAnswer(s: State, x: Item, content: string, attachments: seq<string>)
    requires Validates(s) && Holds(s, x)
    ensures var (t, r) := EditItem(s, x.requestId, content, attachments);
      r == Some(x.(content := content, attachments := attachments, messages := [])) && t.revision == s.revision + 1
    ensures var (t, r) := RemoveItem(s, x.requestId);
      r == Some(x) && t.revision == s.revision + 1
  {
    FindIsIt(s, x);
  }

  /** For an id that does not wait all three change nothing. */
  lemma AbsentIsLeft(s: State, id: string, content: string, attachments: seq<string>)
    requires !Waits(s, id)
    ensures PromoteItem(s, id) == (s, Missing)
    ensures EditItem(s, id, content, attachments) == (s, None)
    ensures RemoveItem(s, id) == (s, None)
  {
    FindFinds(s, id);
    assert forall x :: Holds(s, x) ==> x.requestId != id;
  }
}
