/** What follows an admission that is rejected because of its caller-chosen number.

    The queue in memory has then taken the item already, so it is invalid, while nothing has been
    written. Operations that validate raise until the clash is gone (`ClaimAfterRejectionIff`).
    `remove` and `edit` do not validate: they write the invalid inbox, and the next load sets that
    file aside. After an edit this always happens (`EditAfterRejectionLosesTheInbox`), after a removal
    exactly if the clash is still there (`RemoveAfterRejectionIff`). */
module InboxRejection {
  import opened Prelude
  import opened Inbox
  import opened InboxClaim
  import opened InboxOps
  import opened InboxRuns

  /** The same ids and numbers in both queues. */
  ghost predicate SameQueues(s: State, t: State) {
    SameKeys(s.nextTurn, t.nextTurn) && SameKeys(s.nextStep, t.nextStep)
  }

  lemma SameQueuesValidate(s: State, t: State)
    requires SameQueues(s, t)
    ensures Validates(s) <==> Validates(t)
  {
    if Validates(s) {
      SameKeysKeepValid(s, t);
    } else if Validates(t) {
      SameKeysKeepValid(t, s);
    }
  }

  /** A written inbox can be loaded if and only if it is valid. */
  lemma LoadsIffValid(sessionId: string, s: State)
    ensures FromJson(ToJson(sessionId, s)).Ok? <==> Validates(s)
  {
    DecodeEncodeQueue(s.nextTurn, NextTurn);
    DecodeEncodeQueue(s.nextStep, NextStep);
    var turn := DecodeQueue(EncodeQueue(s.nextTurn, NextTurn), NextTurn).value;
    var step := DecodeQueue(EncodeQueue(s.nextStep, NextStep), NextStep).value;
    SameQueuesValidate(s, State(s.revision, s.nextSequence, turn, step));
  }

  lemma EditKeepsKeys(s: State, id: string, content: string, attachments: seq<string>)
    requires Find(s, id).Some?
    ensures SameQueues(s, EditItem(s, id, content, attachments).0)
  {
  }

  /** Editing in an invalid inbox writes a file that the next load sets aside: everything is lost. */
  lemma EditLosesAnInvalidInbox(s: State, id: string, content: string, attachments: seq<string>, sessionId: string)
    requires !Validates(s) && Find(s, id).Some?
    ensures EditItem(s, id, content, attachments).1.Some?
    ensures Load(Some(ToJson(sessionId, EditItem(s, id, content, attachments).0))) == Empty
  {
    var t := EditItem(s, id, content, attachments).0;
    EditKeepsKeys(s, id, content, attachments);
    SameQueuesValidate(s, t);
    LoadsIffValid(sessionId, t);
  }

  /** An admission that reaches the queue and is rejected there. */
  ghost predicate IsRejected(s: State, item: Item, target: Target, capacity: nat) {
    Admit(s, item, target, false, capacity).1.Invalid?
  }

  lemma RejectedIsEnqueued(s: State, item: Item, target: Target, capacity: nat)
    requires Validates(s) && item.sequence > 0 && IsRejected(s, item, target, capacity)
    ensures var t := Admit(s, item, target, false, capacity).0;
      t == Enqueue(s, item, target) && !Validates(t) && Find(s, item.requestId).None? && Clashes(s, item, target)
  {
    AdmitRejectedIffClash(s, item, target, capacity);
  }

  /** In every reachable world: a rejected admission alone loses nothing, but an edit of any item
      that was pending then replaces the file by one that cannot be loaded. */
  lemma EditAfterRejectionLosesTheInbox(w: World, item: Item, target: Target, id: string, content: string,
                                        attachments: seq<string>, sessionId: string, capacity: nat)
    requires Inv(w, capacity) && item.sequence > 0 && IsRejected(w.memory, item, target, capacity)
    requires Find(w.memory, id).Some?
    ensures var rejected := Step(w, AdmitOp(item, target, false), Completes, sessionId, capacity);
      var edited := Step(rejected, EditOp(id, content, attachments), Completes, sessionId, capacity);
      && Load(rejected.disk) == w.memory
      && Load(edited.disk) == Empty && w.memory != Empty
      && PendingNumbers(w.memory) <= PendingNumbers(edited.memory)
  {
    var t := Enqueue(w.memory, item, target);
    RejectedIsEnqueued(w.memory, item, target, capacity);
    RejectionWritesNothing(w, item, target, sessionId, capacity);
    FoundInLonger(w.memory, item, target, id);
    EditWrites(w.(memory := t), id, content, attachments, sessionId, capacity);
    EditLosesAnInvalidInbox(t, id, content, attachments, sessionId);
    EnqueueKeepsNumbers(w.memory, item, target);
    EditKeepsKeys(t, id, content, attachments);
    SameKeysSameNumbers(t, EditItem(t, id, content, attachments).0);
  }

  lemma AdmitFirst(a: Item, capacity: nat)
    requires a.sequence <= 0 && capacity >= 1
    ensures Apply(Empty, AdmitOp(a, NextTurn, false), capacity).0 == State(1, 2, [a.(sequence := 1)], [])
  {
    assert [] + [a.(sequence := 1)] == [a.(sequence := 1)];
  }

  lemma StepMemory(w: World, op: Op, sessionId: string, capacity: nat)
    ensures Step(w, op, Completes, sessionId, capacity).memory == Apply(w.memory, op, capacity).0
  {
  }

  lemma FirstStands(a: Item, sessionId: string, capacity: nat)
    requires a.sequence <= 0 && capacity >= 1
    ensures RunAll([Event(AdmitOp(a, NextTurn, false), Completes)], sessionId, capacity).memory
         == State(1, 2, [a.(sequence := 1)], [])
  {
    var first := Event(AdmitOp(a, NextTurn, false), Completes);
    assert [] + [first] == [first];
    RunAllSnoc([], first, sessionId, capacity);
    AdmitFirst(a, capacity);
    StepMemory(InboxRuns.Start, first.op, sessionId, capacity);
  }

  lemma FirstAdmitted(a: Item, sessionId: string, capacity: nat)
    requires a.sequence <= 0 && Persistable(a) && capacity >= 1
    ensures var w := RunAll([Event(AdmitOp(a, NextTurn, false), Completes)], sessionId, capacity);
      Inv(w, capacity) && w.memory == State(1, 2, [a.(sequence := 1)], [])
  {
    EveryRunKeeps([Event(AdmitOp(a, NextTurn, false), Completes)], sessionId, capacity);
    FirstStands(a, sessionId, capacity);
  }

  lemma TakenIsRejected(s: State, x: Item, item: Item, capacity: nat)
    requires s.nextTurn == [x] && s.nextStep == [] && capacity >= 2 && Validates(s)
    requires item.sequence == x.sequence > 0 && item.requestId != x.requestId
    ensures IsRejected(s, item, NextTurn, capacity) && Find(s, x.requestId).Some?
  {
    FindFinds(s, item.requestId);
    AdmitRejectedIffClash(s, item, NextTurn, capacity);
    assert x in s.nextTurn;
  }

  /** Such a world is reached by one admission: a second one that asks for its number is rejected, and
      an edit of the first item then loses the inbox. */
  lemma NumberTakenTwice(a: Item, item: Item, content: string, sessionId: string, capacity: nat)
    requires a.sequence <= 0 && Persistable(a) && capacity >= 2
    requires item.sequence == 1 && item.requestId != a.requestId
    ensures var w := RunAll([Event(AdmitOp(a, NextTurn, false), Completes)], sessionId, capacity);
      var rejected := Step(w, AdmitOp(item, NextTurn, false), Completes, sessionId, capacity);
      var edited := Step(rejected, EditOp(a.requestId, content, []), Completes, sessionId, capacity);
      && w.memory.nextTurn == [a.(sequence := 1)]
      && Load(rejected.disk) == w.memory && Load(edited.disk) == Empty
  {
    var w := RunAll([Event(AdmitOp(a, NextTurn, false), Completes)], sessionId, capacity);
    FirstAdmitted(a, sessionId, capacity);
    TakenIsRejected(w.memory, a.(sequence := 1), item, capacity);
    EditAfterRejectionLosesTheInbox(w, item, NextTurn, a.requestId, content, [], sessionId, capacity);
  }

  lemma RejectionWritesNothing(w: World, item: Item, target: Target, sessionId: string, capacity: nat)
    requires IsRejected(w.memory, item, target, capacity)
    ensures Step(w, AdmitOp(item, target, false), Completes, sessionId, capacity)
         == w.(memory := Admit(w.memory, item, target, false, capacity).0)
  {
    assert w.delivered + [] == w.delivered;
  }

  lemma EditWrites(w: World, id: string, content: string, attachments: seq<string>, sessionId: string, capacity: nat)
    requires Find(w.memory, id).Some?
    ensures var t := EditItem(w.memory, id, content, attachments).0;
      var after := Step(w, EditOp(id, content, attachments), Completes, sessionId, capacity);
      after.memory == t && after.disk == Some(ToJson(sessionId, t))
  {
  }

  lemma EnqueueKeepsNumbers(s: State, item: Item, target: Target)
    ensures PendingNumbers(s) <= PendingNumbers(Enqueue(s, item, target))
  {
  }

  lemma SameKeysSameNumbers(s: State, t: State)
    requires SameQueues(s, t)
    ensures PendingNumbers(s) <= PendingNumbers(t)
  {
    SameKeysNumbers(s.nextTurn, t.nextTurn);
    SameKeysNumbers(s.nextStep, t.nextStep);
  }

  lemma SameKeysNumbers(a: seq<Item>, b: seq<Item>)
    requires SameKeys(a, b)
    ensures Numbers(a) <= Numbers(b)
  {
    forall n | n in Numbers(a)
      ensures n in Numbers(b)
    {
      var k :| 0 <= k < |a| && a[k].sequence == n;
      assert b[k] in b;
    }
  }

  // ---------------------------------------------------------------- finding in the longer queue

  lemma {:induction false} IndexInLonger(items: seq<Item>, x: Item, id: string)
    requires x.requestId != id
    ensures IndexOf(items + [x], id) == if IndexOf(items, id) < |items| then IndexOf(items, id) else |items| + 1
  {
    if items == [] {
      assert items + [x] == [x] && [x][1..] == [];
    } else {
      assert (items + [x])[1..] == items[1..] + [x];
      IndexInLonger(items[1..], x, id);
    }
  }

  lemma {:induction false} IndexOfNew(items: seq<Item>, x: Item)
    requires forall k :: 0 <= k < |items| ==> items[k].requestId != x.requestId
    ensures IndexOf(items + [x], x.requestId) == |items| && IndexOf(items, x.requestId) == |items|
  {
    if items == [] {
      assert items + [x] == [x];
    } else {
      assert (items + [x])[1..] == items[1..] + [x];
      IndexOfNew(items[1..], x);
    }
  }

  /** Every other item is found where it was. */
  lemma FoundInLonger(s: State, item: Item, target: Target, id: string)
    requires Find(s, item.requestId).None? && Find(s, id).Some?
    ensures Find(Enqueue(s, item, target), id) == Find(s, id)
    ensures id != item.requestId
  {
    IndexInLonger(Queue(s, target), Numbered(s, item), id);
  }

  lemma FoundNew(s: State, item: Item, target: Target)
    requires Find(s, item.requestId).None?
    ensures Find(Enqueue(s, item, target), item.requestId) == Some(Location(target, |Queue(s, target)|))
  {
    FindFinds(s, item.requestId);
    assert forall k :: 0 <= k < |s.nextTurn| ==> Holds(s, s.nextTurn[k]);
    assert forall k :: 0 <= k < |s.nextStep| ==> Holds(s, s.nextStep[k]);
    IndexOfNew(Queue(s, target), Numbered(s, item));
    IndexOfNew(OtherQueue(s, target), Numbered(s, item));
  }

  // ---------------------------------------------------------------- removing after a rejection

  /** Removing the rejected item restores the queues. */
  lemma RemoveTheRejected(s: State, item: Item, target: Target)
    requires Find(s, item.requestId).None?
    ensures var t := RemoveItem(Enqueue(s, item, target), item.requestId).0;
      t.nextTurn == s.nextTurn && t.nextStep == s.nextStep
  {
    FoundNew(s, item, target);
    var queue, x := Queue(s, target), Numbered(s, item);
    assert RemoveAt(queue + [x], |queue|) == queue;
  }

  /** Removing another item and admitting commute on the queues. */
  lemma RemoveAnother(s: State, item: Item, target: Target, id: string)
    requires item.sequence > 0 && Find(s, item.requestId).None? && Find(s, id).Some?
    ensures var t, u := RemoveItem(Enqueue(s, item, target), id).0, Enqueue(RemoveItem(s, id).0, item, target);
      t.nextTurn == u.nextTurn && t.nextStep == u.nextStep
  {
    FoundInLonger(s, item, target, id);
    var at := Find(s, id).value;
    if at.target == target {
      var queue := Queue(s, target);
      assert RemoveAt(queue + [item], at.index) == RemoveAt(queue, at.index) + [item];
    }
  }

  /** After a rejected admission a removal writes a file that can be loaded exactly if it took the
      rejected item, or the last item it clashed with. */
  lemma RemoveAfterRejectionIff(s: State, item: Item, target: Target, id: string, sessionId: string, capacity: nat)
    requires Validates(s) && item.sequence > 0 && IsRejected(s, item, target, capacity)
    requires Find(s, id).Some? || id == item.requestId
    ensures var t := Admit(s, item, target, false, capacity).0;
      && RemoveItem(t, id).1.Some?
      && (FromJson(ToJson(sessionId, RemoveItem(t, id).0)).Ok? <==>
            id == item.requestId || !Clashes(RemoveItem(s, id).0, item, target))
  {
    RejectedIsEnqueued(s, item, target, capacity);
    var t := Enqueue(s, item, target);
    LoadsIffValid(sessionId, RemoveItem(t, id).0);
    if id == item.requestId {
      FoundNew(s, item, target);
      RemoveTheRejected(s, item, target);
      SameQueuesValidate(s, RemoveItem(t, id).0);
    } else {
      FoundInLonger(s, item, target, id);
      ValidAfterRemoval(s, item, target, id);
    }
  }

  lemma ValidAfterRemoval(s: State, item: Item, target: Target, id: string)
    requires Validates(s) && item.sequence > 0 && Find(s, item.requestId).None? && Find(s, id).Some?
    ensures Validates(RemoveItem(Enqueue(s, item, target), id).0) <==> !Clashes(RemoveItem(s, id).0, item, target)
  {
    var less := RemoveItem(s, id).0;
    var u := Enqueue(less, item, target);
    RemoveAnother(s, item, target, id);
    SameQueuesValidate(u, RemoveItem(Enqueue(s, item, target), id).0);
    RemoveIsWithout(s, id);
    StillAbsent(s, less, item.requestId, id);
    ValidatesIffConsistent(less);
    ValidatesIffConsistent(u);
    EnqueueConsistent(less, item, target);
  }

  lemma StillAbsent(s: State, less: State, absent: string, id: string)
    requires Find(s, absent).None?
    requires less.nextTurn == Without(s.nextTurn, {id}) && less.nextStep == Without(s.nextStep, {id})
    ensures Find(less, absent).None?
  {
    WithoutMembers(s.nextTurn, {id});
    WithoutMembers(s.nextStep, {id});
    FindFinds(s, absent);
    FindFinds(less, absent);
  }

  // ---------------------------------------------------------------- claiming after a rejection

  lemma LocateOne(s: State, id: string, at: Location)
    requires Find(s, id) == Some(at)
    ensures Locate(s, [id]) == Some([at]) && Fetch(s, [at]) == [ItemAt(s, at)]
    ensures SortDescending([at]) == [at] && PopAll(s, [at]) == (PopAt(s, at), true)
  {
    assert [id][..0] == [] && Locate(s, []) == Some([]);
    assert [] + [at] == [at] && [at][..0] == [] && [at][1..] == [];
  }

  /** A claim of one item removes it like `remove`, but returns it only from an inbox that is valid
      afterwards; otherwise it raises, with nothing written. */
  lemma SingleClaim(s: State, id: string)
    requires Find(s, id).Some?
    ensures var left := RemoveItem(s, id).0;
      ClaimItems(s, [id]) ==
        (left, if Validates(left) then Claimed([ItemAt(s, Find(s, id).value)]) else Inconsistent)
  {
    LocateOne(s, id, Find(s, id).value);
  }

  /** After a rejected admission a claim of one item succeeds exactly if it takes the rejected item,
      or the last item it clashed with. */
  lemma ClaimAfterRejectionIff(s: State, item: Item, target: Target, id: string, capacity: nat)
    requires Validates(s) && item.sequence > 0 && IsRejected(s, item, target, capacity)
    requires Find(s, id).Some? || id == item.requestId
    ensures var r := ClaimItems(Admit(s, item, target, false, capacity).0, [id]).1;
      && (r.Claimed? <==> id == item.requestId || !Clashes(RemoveItem(s, id).0, item, target))
      && (!r.Claimed? ==> r == Inconsistent)
  {
    RejectedIsEnqueued(s, item, target, capacity);
    var t := Enqueue(s, item, target);
    if id == item.requestId {
      FoundNew(s, item, target);
      SingleClaim(t, id);
      RemoveTheRejected(s, item, target);
      SameQueuesValidate(s, RemoveItem(t, id).0);
    } else {
      FoundInLonger(s, item, target, id);
      SingleClaim(t, id);
      ValidAfterRemoval(s, item, target, id);
    }
  }

  /** Such an admission: a number between two that are waiting. */
  lemma BetweenIsRejected(s: State, a: Item, b: Item, item: Item, capacity: nat)
    requires s.nextTurn == [a, b] && s.nextStep == [] && capacity > 2
    requires 0 < a.sequence < item.sequence < b.sequence
    requires a.requestId != b.requestId && item.requestId != a.requestId && item.requestId != b.requestId
    ensures Validates(s) && IsRejected(s, item, NextTurn, capacity)
    ensures ClaimItems(Admit(s, item, NextTurn, false, capacity).0, [a.requestId]).1 == Inconsistent
  {
    ValidPair(s, a, b);
    FindFinds(s, item.requestId);
    AdmitRejectedIffClash(s, item, NextTurn, capacity);
    assert b in s.nextTurn;
    RejectedIsEnqueued(s, item, NextTurn, capacity);
    ClaimAfterRejectionIff(s, item, NextTurn, a.requestId, capacity);
    assert RemoveItem(s, a.requestId).0.nextTurn == [b];
  }
}
