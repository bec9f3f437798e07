/** The stored form of an inbox and runs of the repository across crashes.

    A commit writes the whole inbox before the operation returns. `Step` runs one operation to its
    end, or kills the process before or after that write and reloads the file. The results hold for
    every run: `EveryStepKeeps` (validity, capacity, and every issued number in exactly one of
    pending, claimed and removed), `DeliveredAtMostOnce`, and `DeadOperationsCanBeRepeated`. */
module InboxRuns {
  import opened Prelude
  import opened Inbox
  import opened InboxClaim
  import opened InboxOps

  // ---------------------------------------------------------------- the stored form

  datatype RawItem = RawItem(
    requestId: string,
    sequence: int,
    sessionId: string,
    channelId: string,
    content: string,
    attachments: seq<string>,
    source: string,
    historyMessageId: Option<string>,
    messages: seq<string>,
    agentId: string,
    target: string,
    hasRunTarget: bool)

  /** `inflight` and `hasRunTarget` stand for fields that only older versions wrote. */
  datatype RawInbox = RawInbox(
    schemaVersion: int,
    sessionId: string,
    revision: nat,
    nextSequence: int,
    nextTurn: seq<RawItem>,
    nextStep: seq<RawItem>,
    inflight: bool)

  datatype LoadError = UnknownSchema | UnknownTarget | WrongTarget | UnknownSource | InvalidInbox

  function SourceName(source: Source): string {
    match source
    case User => "user"
    case Plugin => "plugin"
    case System => "system"
  }

  function TargetName(target: Target): string {
    if target == NextTurn then "next-turn" else "next-step"
  }

  function EncodeItem(x: Item, target: Target): RawItem {
    RawItem(x.requestId, x.sequence, x.sessionId, x.channelId, x.content, x.attachments,
            SourceName(x.source), x.historyMessageId, x.messages, x.agentId, TargetName(target), false)
  }

  function EncodeQueue(items: seq<Item>, target: Target): (r: seq<RawItem>)
    ensures |r| == |items| && forall k :: 0 <= k < |r| ==> r[k] == EncodeItem(items[k], target)
  {
    seq(|items|, k requires 0 <= k < |items| => EncodeItem(items[k], target))
  }

  function ToJson(sessionId: string, s: State): RawInbox {
    RawInbox(3, sessionId, s.revision, s.nextSequence,
             EncodeQueue(s.nextTurn, NextTurn), EncodeQueue(s.nextStep, NextStep), false)
  }

  function DecodeItem(raw: RawItem, expected: Target): Result<Item, LoadError> {
    if raw.target != "next-turn" && raw.target != "next-step" then Err(UnknownTarget)
    else if raw.source != "user" && raw.source != "plugin" && raw.source != "system" then Err(UnknownSource)
    else if raw.target != TargetName(expected) then Err(WrongTarget)
    else
      Ok(Item(raw.requestId, raw.sequence, raw.sessionId, raw.channelId, raw.content, raw.attachments,
              if raw.source == "user" then User else if raw.source == "plugin" then Plugin else System,
              if raw.historyMessageId == Some("") then None else raw.historyMessageId,
              raw.messages,
              if raw.agentId == "" then "default" else raw.agentId))
  }

  function DecodeQueue(raws: seq<RawItem>, expected: Target): Result<seq<Item>, LoadError> {
    if raws == [] then Ok([])
    else
      var front := DecodeQueue(raws[..|raws| - 1], expected);
      if front.Err? then front
      else match DecodeItem(raws[|raws| - 1], expected)
        case Err(e) => Err(e)
        case Ok(item) => Ok(front.value + [item])
  }

  function FromJson(raw: RawInbox): Result<State, LoadError> {
    if !(raw.schemaVersion in {1, 2, 3}) then Err(UnknownSchema)
    else
      var turn := DecodeQueue(raw.nextTurn, NextTurn);
      var step := DecodeQueue(raw.nextStep, NextStep);
      if turn.Err? then Err(turn.error)
      else if step.Err? then Err(step.error)
      else
        var s := State(raw.revision, raw.nextSequence, turn.value, step.value);
        if Validates(s) then Ok(s) else Err(InvalidInbox)
  }

  // ---------------------------------------------------------------- reading any file

  predicate ReadsItem(raw: RawItem, x: Item, target: Target) {
    && raw.target == (if target == NextTurn then "next-turn" else "next-step")
    && raw.source == (match x.source case User => "user" case Plugin => "plugin" case System => "system")
    && x == Item(raw.requestId, raw.sequence, raw.sessionId, raw.channelId, raw.content, raw.attachments, x.source,
                 x.historyMessageId, raw.messages, x.agentId)
    && x.agentId == (if raw.agentId == "" then "default" else raw.agentId)
    && x.historyMessageId == (if raw.historyMessageId == Some("") then None else raw.historyMessageId)
  }

  predicate ReadsQueue(raws: seq<RawItem>, items: seq<Item>, target: Target) {
    |raws| == |items| && forall k :: 0 <= k < |raws| ==> ReadsItem(raws[k], items[k], target)
  }

  lemma DecodeItemIff(raw: RawItem, x: Item, target: Target)
    ensures DecodeItem(raw, target) == Ok(x) <==> ReadsItem(raw, x, target)
  {
  }

  lemma ReadsMore(raws: seq<RawItem>, items: seq<Item>, raw: RawItem, x: Item, target: Target)
    ensures |raws| == |items| ==>
      (ReadsQueue(raws + [raw], items + [x], target) <==> ReadsQueue(raws, items, target) && ReadsItem(raw, x, target))
  {
    var all, xs := raws + [raw], items + [x];
    if |raws| == |items| && ReadsQueue(all, xs, target) {
      forall k | 0 <= k < |raws| ensures ReadsItem(raws[k], items[k], target) {
        assert ReadsItem(all[k], xs[k], target);
      }
      assert ReadsItem(all[|raws|], xs[|raws|], target);
    }
  }

  lemma DecodesMore(front: seq<RawItem>, raw: RawItem, target: Target)
    ensures DecodeQueue(front + [raw], target).Ok? <==>
              DecodeQueue(front, target).Ok? && DecodeItem(raw, target).Ok?
    ensures var all := DecodeQueue(front + [raw], target);
      all.Ok? ==> all.value == DecodeQueue(front, target).value + [DecodeItem(raw, target).value]
  {
    assert (front + [raw])[..|front|] == front;
  }

  lemma {:induction false} DecodedQueue(raws: seq<RawItem>, target: Target)
    requires DecodeQueue(raws, target).Ok?
    ensures ReadsQueue(raws, DecodeQueue(raws, target).value, target)
  {
    if raws != [] {
      var front, last := raws[..|raws| - 1], raws[|raws| - 1];
      assert raws == front + [last];
      DecodesMore(front, last, target);
      DecodedQueue(front, target);
      DecodeItemIff(last, DecodeItem(last, target).value, target);
      ReadsMore(front, DecodeQueue(front, target).value, last, DecodeItem(last, target).value, target);
    }
  }

  lemma {:induction false} ReadableQueue(raws: seq<RawItem>, items: seq<Item>, target: Target)
    requires ReadsQueue(raws, items, target)
    ensures DecodeQueue(raws, target) == Ok(items)
  {
    if raws != [] {
      var front, last := raws[..|raws| - 1], raws[|raws| - 1];
      var first, item := items[..|items| - 1], items[|items| - 1];
      assert raws == front + [last] && items == first + [item];
      ReadsMore(front, first, last, item, target);
      ReadableQueue(front, first, target);
      DecodeItemIff(last, item, target);
      DecodesMore(front, last, target);
    }
  }

  lemma DecodeQueueIff(raws: seq<RawItem>, items: seq<Item>, target: Target)
    ensures DecodeQueue(raws, target) == Ok(items) <==> ReadsQueue(raws, items, target)
  {
    if DecodeQueue(raws, target).Ok? {
      DecodedQueue(raws, target);
    }
    if ReadsQueue(raws, items, target) {
      ReadableQueue(raws, items, target);
    }
  }

  /** A file gives this inbox exactly if it has a known version, every item in it has a known source and the
      target of its queue, these are the items of the inbox in order, with an empty agent id or history id
      filled in, and the inbox is valid. */
  lemma LoadsAsIff(raw: RawInbox, s: State)
    ensures FromJson(raw) == Ok(s) <==>
      && 1 <= raw.schemaVersion <= 3
      && s.revision == raw.revision && s.nextSequence == raw.nextSequence
      && ReadsQueue(raw.nextTurn, s.nextTurn, NextTurn) && ReadsQueue(raw.nextStep, s.nextStep, NextStep)
      && Validates(s)
  {
    DecodeQueueIff(raw.nextTurn, s.nextTurn, NextTurn);
    DecodeQueueIff(raw.nextStep, s.nextStep, NextStep);
  }

  // ---------------------------------------------------------------- reading what was written

  /** Loading normalises an empty agent id and an empty history id. */
  predicate Persistable(x: Item) {
    x.agentId != "" && x.historyMessageId != Some("")
  }

  function Normal(x: Item): Item {
    x.(agentId := if x.agentId == "" then "default" else x.agentId,
       historyMessageId := if x.historyMessageId == Some("") then None else x.historyMessageId)
  }

  lemma EncodedReads(x: Item, target: Target)
    ensures ReadsItem(EncodeItem(x, target), Normal(x), target)
  {
  }

  lemma DecodeEncodeQueue(items: seq<Item>, target: Target)
    ensures var r := DecodeQueue(EncodeQueue(items, target), target);
      r.Ok? && |r.value| == |items| && forall k :: 0 <= k < |items| ==> r.value[k] == Normal(items[k])
  {
    var loaded := seq(|items|, k requires 0 <= k < |items| => Normal(items[k]));
    forall k | 0 <= k < |items| ensures ReadsItem(EncodeQueue(items, target)[k], loaded[k], target) {
      EncodedReads(items[k], target);
    }
    ReadableQueue(EncodeQueue(items, target), loaded, target);
  }

  /** Loading what was committed gives back the same inbox exactly when it is valid and no item has
      an empty agent id or an empty history id. */
  lemma ReloadsIffPersistable(sessionId: string, s: State)
    ensures FromJson(ToJson(sessionId, s)) == Ok(s) <==>
      Validates(s) && forall x :: Holds(s, x) ==> Persistable(x)
  {
    DecodeEncodeQueue(s.nextTurn, NextTurn);
    DecodeEncodeQueue(s.nextStep, NextStep);
    var turn := DecodeQueue(EncodeQueue(s.nextTurn, NextTurn), NextTurn).value;
    var step := DecodeQueue(EncodeQueue(s.nextStep, NextStep), NextStep).value;
    SameIffNormal(s.nextTurn, turn);
    SameIffNormal(s.nextStep, step);
  }

  lemma SameIffNormal(items: seq<Item>, loaded: seq<Item>)
    requires |loaded| == |items| && forall k :: 0 <= k < |items| ==> loaded[k] == Normal(items[k])
    ensures loaded == items <==> forall x :: x in items ==> Persistable(x)
  {
    if loaded == items {
      forall x | x in items
        ensures Persistable(x)
      {
        var k :| 0 <= k < |items| && items[k] == x;
        assert loaded[k] == Normal(x);
      }
    } else {
      var k :| 0 <= k < |items| && loaded[k] != items[k];
      assert items[k] in items;
    }
  }

  // ---------------------------------------------------------------- runs

  datatype Op =
    | AdmitOp(item: Item, target: Target, seen: bool)
    | ClaimOp(ids: seq<string>)
    | RemoveOp(id: string)
    | EditOp(id: string, content: string, attachments: seq<string>)
    | PromoteOp(id: string)

  /** What an operation did besides changing the inbox: whether it reached its commit, and the items
      it took out to hand over or to drop. */
  datatype Effect = Effect(commits: bool, taken: seq<Item>, dropped: seq<Item>)

  function Apply(s: State, op: Op, capacity: nat): (State, Effect) {
    match op
    case AdmitOp(item, target, seen) =>
      var (t, r) := Admit(s, item, target, seen, capacity);
      (t, Effect(r.Admitted?, [], []))
    case ClaimOp(ids) =>
      var (t, r) := ClaimItems(s, ids);
      (t, if r.Claimed? then Effect(true, r.items, []) else Effect(false, [], []))
    case RemoveOp(id) =>
      var (t, r) := RemoveItem(s, id);
      (t, if r.Some? then Effect(true, [], [r.value]) else Effect(false, [], []))
    case EditOp(id, content, attachments) =>
      var (t, r) := EditItem(s, id, content, attachments);
      (t, Effect(r.Some?, [], []))
    case PromoteOp(id) =>
      var (t, r) := PromoteItem(s, id);
      (t, Effect(r.Promoted?, [], []))
  }

  /** What the service passes: unnumbered, normalised items, and ids read off one snapshot. */
  ghost predicate FromService(op: Op) {
    && (op.AdmitOp? ==> op.item.sequence <= 0 && Persistable(op.item))
    && (op.ClaimOp? ==> Distinct(op.ids))
  }

  datatype Fate = Completes | DiesBeforeCommit | DiesAfterCommit

  /** `memory` and `disk` are the program's; the rest is the history: the numbers durably claimed and
      removed, and the items handed to a caller. */
  datatype World = World(
    memory: State,
    disk: Option<RawInbox>,
    claimed: set<int>,
    removed: set<int>,
    delivered: seq<Item>)

  const Start := World(Empty, None, {}, {}, [])

  /** The inbox a new process sees; an unreadable file is set aside. */
  function Load(disk: Option<RawInbox>): State {
    if disk.None? then Empty
    else match FromJson(disk.value)
      case Ok(s) => s
      case Err(_) => Empty
  }

  function Numbers(items: seq<Item>): set<int> {
    set x | x in items :: x.sequence
  }

  function PendingNumbers(s: State): set<int> {
    Numbers(s.nextTurn) + Numbers(s.nextStep)
  }

  /** The end of one operation that turned the memory into `t` with `effect`. */
  function Conclude(w: World, t: State, effect: Effect, fate: Fate, sessionId: string): World {
    var wrote := effect.commits && fate != DiesBeforeCommit;
    var disk := if wrote then Some(ToJson(sessionId, t)) else w.disk;
    World(
      if fate == Completes then t else Load(disk),
      disk,
      w.claimed + (if wrote then Numbers(effect.taken) else {}),
      w.removed + (if wrote then Numbers(effect.dropped) else {}),
      w.delivered + (if fate == Completes then effect.taken else []))
  }

  function Step(w: World, op: Op, fate: Fate, sessionId: string, capacity: nat): World {
    var (t, effect) := Apply(w.memory, op, capacity);
    Conclude(w, t, effect, fate, sessionId)
  }

  datatype Event = Event(op: Op, fate: Fate)

  function RunAll(events: seq<Event>, sessionId: string, capacity: nat): World {
    if events == [] then Start
    else
      var last := events[|events| - 1];
      Step(RunAll(events[..|events| - 1], sessionId, capacity), last.op, last.fate, sessionId, capacity)
  }

  ghost predicate Sound(s: State, capacity: nat) {
    && Validates(s) && Issued(s) && 1 <= s.nextSequence && |All(s)| <= capacity
    && forall x :: Holds(s, x) ==> Persistable(x)
  }

  /** What an operation reports is worth writing exactly if it changed the inbox, and then it is the next
      revision. */
  predicate WritesChange(s: State, t: State, commits: bool) {
    (commits <==> t != s) && (commits ==> t.revision == s.revision + 1)
  }

  lemma ClaimWrites(s: State, ids: seq<string>)
    requires Validates(s) && Distinct(ids)
    ensures WritesChange(s, ClaimItems(s, ids).0, ClaimItems(s, ids).1.Claimed?)
  {
    if ids != [] {
      ClaimIsAFilter(s, ids);
    }
  }

  lemma AdmitWrites(s: State, item: Item, target: Target, seen: bool, capacity: nat)
    requires Sound(s, capacity) && item.sequence <= 0
    ensures var (t, r) := Admit(s, item, target, seen, capacity);
      WritesChange(s, t, r.Admitted?)
  {
    UnnumberedIsAdmitted(s, item, target, seen, capacity);
    AdmitQueues(s, item, target, seen, capacity);
  }

  lemma PromoteWrites(s: State, id: string)
    requires Validates(s)
    ensures WritesChange(s, PromoteItem(s, id).0, PromoteItem(s, id).1.Promoted?)
  {
    PromoteKeepsPendingOrder(s, id);
  }

  /** An operation of the service commits exactly if it changed the inbox. */
  lemma CommitsIffChanged(s: State, op: Op, capacity: nat)
    requires Sound(s, capacity) && FromService(op)
    ensures WritesChange(s, Apply(s, op, capacity).0, Apply(s, op, capacity).1.commits)
  {
    match op
    case AdmitOp(item, target, seen) => AdmitWrites(s, item, target, seen, capacity);
    case ClaimOp(ids) => ClaimWrites(s, ids);
    case RemoveOp(_) =>
    case EditOp(_, _, _) =>
    case PromoteOp(id) => PromoteWrites(s, id);
  }

  /** The numbers given out so far. */
  function IssuedNumbers(nextSequence: int): (r: set<int>)
    ensures forall n :: n in r <==> 1 <= n < nextSequence
    decreases if nextSequence < 0 then 0 else nextSequence
  {
    if nextSequence <= 1 then {} else IssuedNumbers(nextSequence - 1) + {nextSequence - 1}
  }

  /** Every issued number is in exactly one of the three sets. */
  ghost predicate OnePlace(pending: set<int>, claimed: set<int>, removed: set<int>, nextSequence: int) {
    && pending !! claimed && pending !! removed && claimed !! removed
    && pending + claimed + removed == IssuedNumbers(nextSequence)
  }

  ghost predicate DeliveredOnce(delivered: seq<Item>, claimed: set<int>) {
    UniqueSequences(delivered) && Numbers(delivered) <= claimed
  }

  ghost predicate Inv(w: World, capacity: nat) {
    && Sound(w.memory, capacity)
    && Load(w.disk) == w.memory
    && OnePlace(PendingNumbers(w.memory), w.claimed, w.removed, w.memory.nextSequence)
    && DeliveredOnce(w.delivered, w.claimed)
  }

  // ---------------------------------------------------------------- what one operation does to the numbers

  /** The numbers of `gone` leave; `issued` tells whether the next number was given out. */
  ghost predicate Moves(s: State, t: State, gone: seq<Item>, issued: bool) {
    && t.nextSequence == s.nextSequence + (if issued then 1 else 0)
    && UniqueSequences(gone)
    && Numbers(gone) <= PendingNumbers(s)
    && PendingNumbers(t) == (PendingNumbers(s) - Numbers(gone)) + (if issued then {s.nextSequence} else {})
  }

  lemma NumbersOfHeld(s: State)
    ensures forall n :: n in PendingNumbers(s) <==> exists x :: Holds(s, x) && x.sequence == n
  {
    forall n
      ensures n in PendingNumbers(s) <==> exists x :: Holds(s, x) && x.sequence == n
    {
      if x :| Holds(s, x) && x.sequence == n {
        assert x in s.nextTurn || x in s.nextStep;
      }
      if n in Numbers(s.nextTurn) {
        var x :| x in s.nextTurn && x.sequence == n;
        assert Holds(s, x);
      } else if n in Numbers(s.nextStep) {
        var x :| x in s.nextStep && x.sequence == n;
        assert Holds(s, x);
      }
    }
  }

  lemma OnePerNumber(s: State)
    requires Validates(s)
    ensures forall x, y :: Holds(s, x) && Holds(s, y) && x.sequence == y.sequence ==> x == y
    ensures forall x, y :: Holds(s, x) && Holds(s, y) && x.requestId == y.requestId ==> x == y
  {
    ValidatesIffConsistent(s);
  }

  lemma AddsNumber(s: State, t: State, x: Item)
    requires Adds(s, t, x)
    ensures PendingNumbers(t) == PendingNumbers(s) + {x.sequence}
  {
    NumbersOfHeld(s);
    NumbersOfHeld(t);
    assert Holds(t, x);
  }

  lemma AdmitMoves(s: State, item: Item, target: Target, seen: bool, capacity: nat)
    requires Sound(s, capacity) && item.sequence <= 0 && Persistable(item)
    ensures var (t, r) := Admit(s, item, target, seen, capacity);
      Sound(t, capacity) && if r.Admitted? then Moves(s, t, [], true) else t == s
  {
    UnnumberedIsAdmitted(s, item, target, seen, capacity);
    var (t, r) := Admit(s, item, target, seen, capacity);
    if r.Admitted? {
      AddsNumber(s, t, item.(sequence := s.nextSequence));
    }
  }

  /** `t` holds what `s` holds except the items of `gone`. */
  ghost predicate Drops(s: State, t: State, gone: seq<Item>) {
    && (forall x :: Holds(t, x) <==> Holds(s, x) && x !in gone)
    && (forall x :: x in gone ==> Holds(s, x))
  }

  lemma WithoutDrops(s: State, t: State, gone: seq<Item>, ids: set<string>)
    requires t.nextTurn == Without(s.nextTurn, ids) && t.nextStep == Without(s.nextStep, ids)
    requires forall x :: x in gone ==> Holds(s, x)
    requires forall x :: Holds(s, x) ==> (x.requestId in ids <==> x in gone)
    ensures Drops(s, t, gone) && |All(t)| <= |All(s)|
  {
    WithoutMembers(s.nextTurn, ids);
    WithoutMembers(s.nextStep, ids);
  }

  lemma DropsKeepSound(s: State, t: State, gone: seq<Item>, capacity: nat)
    requires Sound(s, capacity) && Validates(t) && t.nextSequence == s.nextSequence
    requires Drops(s, t, gone) && UniqueIds(gone) && |All(t)| <= |All(s)|
    ensures Sound(t, capacity) && Moves(s, t, gone, false)
  {
    OnePerNumber(s);
    assert forall k :: 0 <= k < |gone| ==> gone[k] in gone;
  }

  lemma NamedAreFetched(s: State, ids: seq<string>, gone: seq<Item>)
    requires Validates(s) && Distinct(ids) && Fetched(s, ids, gone)
    ensures forall x :: x in gone ==> Holds(s, x)
    ensures forall x :: Holds(s, x) ==> (x.requestId in Named(ids) <==> x in gone)
    ensures UniqueIds(gone)
  {
    OnePerNumber(s);
    forall x | Holds(s, x) && x.requestId in Named(ids)
      ensures x in gone
    {
      var k :| 0 <= k < |ids| && ids[k] == x.requestId;
      assert gone[k] == x;
    }
    forall x | x in gone
      ensures Holds(s, x) && x.requestId in Named(ids)
    {
      var k :| 0 <= k < |gone| && gone[k] == x;
      assert ids[k] in ids;
    }
  }

  lemma ClaimMoves(s: State, ids: seq<string>, capacity: nat)
    requires Sound(s, capacity) && Distinct(ids)
    ensures var (t, r) := ClaimItems(s, ids);
      if r.Claimed? then Sound(t, capacity) && Moves(s, t, r.items, false) else t == s
  {
    if ids != [] && AllPending(s, ids) {
      ClaimIsAFilter(s, ids);
      var gone := ClaimItems(s, ids).1.items;
      NamedAreFetched(s, ids, gone);
      WithoutDrops(s, Claimless(s, ids), gone, Named(ids));
      DropsKeepSound(s, Claimless(s, ids), gone, capacity);
    } else if ids != [] {
      ClaimIsAFilter(s, ids);
    }
  }

  lemma RemoveMoves(s: State, id: string, capacity: nat)
    requires Sound(s, capacity)
    ensures var (t, r) := RemoveItem(s, id);
      if r.Some? then Sound(t, capacity) && Moves(s, t, [r.value], false) else t == s
  {
    RemoveIsWithout(s, id);
    if Find(s, id).Some? {
      RemoveOneMoves(s, RemoveItem(s, id).0, RemoveItem(s, id).1.value, capacity);
    }
  }

  lemma RemoveOneMoves(s: State, t: State, x: Item, capacity: nat)
    requires Sound(s, capacity) && Validates(t) && t.nextSequence == s.nextSequence && Holds(s, x)
    requires t.nextTurn == Without(s.nextTurn, {x.requestId}) && t.nextStep == Without(s.nextStep, {x.requestId})
    ensures Sound(t, capacity) && Moves(s, t, [x], false)
  {
    OnePerNumber(s);
    WithoutDrops(s, t, [x], {x.requestId});
    DropsKeepSound(s, t, [x], capacity);
  }

  lemma EditedPersistable(items: seq<Item>, id: string, content: string, attachments: seq<string>)
    requires forall x :: x in items ==> Persistable(x)
    ensures forall x :: x in Edited(items, id, content, attachments) ==> Persistable(x)
  {
    var r := Edited(items, id, content, attachments);
    forall k | 0 <= k < |r|
      ensures Persistable(r[k])
    {
      assert items[k] in items;
    }
  }

  lemma SameNumbersMove(s: State, t: State, capacity: nat)
    requires Sound(s, capacity) && Validates(t) && t.nextSequence == s.nextSequence && |All(t)| <= |All(s)|
    requires PendingNumbers(t) == PendingNumbers(s) && forall x :: Holds(t, x) ==> Persistable(x)
    ensures Sound(t, capacity) && Moves(s, t, [], false)
  {
    NumbersOfHeld(s);
    NumbersOfHeld(t);
    forall x | Holds(t, x)
      ensures 1 <= x.sequence < t.nextSequence
    {
      assert x.sequence in PendingNumbers(s);
    }
  }

  lemma EditMoves(s: State, id: string, content: string, attachments: seq<string>, capacity: nat)
    requires Sound(s, capacity)
    ensures var (t, r) := EditItem(s, id, content, attachments);
      Sound(t, capacity) && Moves(s, t, [], false) && (r.None? ==> t == s)
  {
    EditKeepsPlaces(s, id, content, attachments);
    EditedMove(s, EditItem(s, id, content, attachments).0, id, content, attachments, capacity);
  }

  lemma EditedMove(s: State, t: State, id: string, content: string, attachments: seq<string>, capacity: nat)
    requires Sound(s, capacity) && Validates(t) && t.nextSequence == s.nextSequence
    requires t.nextTurn == Edited(s.nextTurn, id, content, attachments)
    requires t.nextStep == Edited(s.nextStep, id, content, attachments)
    ensures Sound(t, capacity) && Moves(s, t, [], false)
  {
    assert forall x :: x in s.nextTurn || x in s.nextStep ==> Holds(s, x) && Persistable(x);
    EditedPersistable(s.nextTurn, id, content, attachments);
    EditedPersistable(s.nextStep, id, content, attachments);
    SameNumbersMove(s, t, capacity);
  }

  lemma {:induction false} SortCount(items: seq<Item>)
    ensures |SortBySequence(items)| == |items|
  {
    if items != [] {
      SortCount(items[..|items| - 1]);
      InsertCount(SortBySequence(items[..|items| - 1]), items[|items| - 1]);
    }
  }

  lemma {:induction false} InsertCount(items: seq<Item>, x: Item)
    ensures |InsertBySequence(items, x)| == |items| + 1
  {
    if items != [] && items[|items| - 1].sequence > x.sequence {
      InsertCount(items[..|items| - 1], x);
    }
  }

  lemma PromotedCount(s: State, id: string, at: Location)
    requires Find(s, id) == Some(at) && at.target == NextTurn
    ensures |All(PromoteItem(s, id).0)| == |All(s)|
  {
    SortCount(s.nextStep + [ItemAt(s, at).(source := User)]);
  }

  /** `t` is `s` with `x` relabelled as `y` of the same number. */
  ghost predicate Relabels(s: State, t: State, x: Item, y: Item) {
    && Holds(s, x) && x.sequence == y.sequence && (Persistable(x) ==> Persistable(y))
    && forall z :: Holds(t, z) <==> (Holds(s, z) && z != x) || z == y
  }

  lemma RelabelledNumbers(s: State, t: State, x: Item, y: Item)
    requires Relabels(s, t, x, y)
    ensures PendingNumbers(t) == PendingNumbers(s)
  {
    NumbersOfHeld(s);
    NumbersOfHeld(t);
    forall n
      ensures n in PendingNumbers(t) <==> n in PendingNumbers(s)
    {
      if n in PendingNumbers(s) {
        var z :| Holds(s, z) && z.sequence == n;
        assert Holds(t, if z == x then y else z);
      }
    }
  }

  lemma PromoteMoves(s: State, id: string, capacity: nat)
    requires Sound(s, capacity)
    ensures var (t, r) := PromoteItem(s, id);
      Sound(t, capacity) && Moves(s, t, [], false) && (!r.Promoted? ==> t == s)
  {
    PromoteKeepsPendingOrder(s, id);
    var hit := Find(s, id);
    if hit.Some? && hit.value.target == NextTurn {
      PromotedMoves(s, id, hit.value, capacity);
    } else {
      SameNumbersMove(s, s, capacity);
    }
  }

  lemma PromotedMoves(s: State, id: string, at: Location, capacity: nat)
    requires Sound(s, capacity) && Find(s, id) == Some(at) && at.target == NextTurn
    ensures var t := PromoteItem(s, id).0;
      Sound(t, capacity) && Moves(s, t, [], false)
  {
    var t, x := PromoteItem(s, id).0, ItemAt(s, at);
    PromoteIsValid(s, id, at);
    PromotedHolds(s, id, at);
    PromotedCount(s, id, at);
    assert Relabels(s, t, x, x.(source := User));
    RelabelledNumbers(s, t, x, x.(source := User));
    SameNumbersMove(s, t, capacity);
  }

  /** What any operation may do to a sound inbox. */
  ghost predicate Lawful(s: State, t: State, effect: Effect, issued: bool, capacity: nat) {
    && Sound(t, capacity)
    && (effect.taken == [] || effect.dropped == [])
    && (if effect.commits then Moves(s, t, effect.taken + effect.dropped, issued)
        else t == s && effect.taken == [] && effect.dropped == [])
  }

  lemma ApplyIsLawful(s: State, op: Op, capacity: nat)
    requires Sound(s, capacity) && FromService(op)
    ensures Lawful(s, Apply(s, op, capacity).0, Apply(s, op, capacity).1, op.AdmitOp?, capacity)
  {
    match op {
      case AdmitOp(item, target, seen) => AdmitMoves(s, item, target, seen, capacity);
      case ClaimOp(ids) =>
        ClaimMoves(s, ids, capacity);
        assert forall items: seq<Item> :: items + [] == items;
      case RemoveOp(id) =>
        RemoveMoves(s, id, capacity);
        assert forall items: seq<Item> :: [] + items == items;
      case EditOp(id, content, attachments) => EditMoves(s, id, content, attachments, capacity);
      case PromoteOp(id) => PromoteMoves(s, id, capacity);
    }
  }

  // ---------------------------------------------------------------- every run

  lemma MovesKeepOnePlace(s: State, t: State, taken: seq<Item>, dropped: seq<Item>, issued: bool,
                          claimed: set<int>, removed: set<int>)
    requires 1 <= s.nextSequence
    requires Moves(s, t, taken + dropped, issued) && (taken == [] || dropped == [])
    requires OnePlace(PendingNumbers(s), claimed, removed, s.nextSequence)
    ensures OnePlace(PendingNumbers(t), claimed + Numbers(taken), removed + Numbers(dropped), t.nextSequence)
  {
    assert taken == [] ==> taken + dropped == dropped && Numbers(taken) == {};
    assert dropped == [] ==> taken + dropped == taken && Numbers(dropped) == {};
    assert s.nextSequence !in PendingNumbers(s) + claimed + removed;
  }

  lemma DeliveredMore(delivered: seq<Item>, taken: seq<Item>, claimed: set<int>, pending: set<int>)
    requires DeliveredOnce(delivered, claimed) && UniqueSequences(taken)
    requires Numbers(taken) <= pending && pending !! claimed
    ensures DeliveredOnce(delivered + taken, claimed + Numbers(taken))
  {
    var longer := delivered + taken;
    forall i, j | 0 <= i < j < |longer|
      ensures longer[i].sequence != longer[j].sequence
    {
      if i < |delivered| <= j {
        assert delivered[i] in delivered && taken[j - |delivered|] in taken;
        assert delivered[i].sequence in Numbers(delivered) && taken[j - |delivered|].sequence in Numbers(taken);
      }
    }
    assert Numbers(longer) == Numbers(delivered) + Numbers(taken);
  }

  lemma SoundReloads(s: State, sessionId: string, capacity: nat)
    requires Sound(s, capacity)
    ensures Load(Some(ToJson(sessionId, s))) == s
  {
    ReloadsIffPersistable(sessionId, s);
  }

  lemma LawfulDelivery(s: State, t: State, effect: Effect, issued: bool, capacity: nat,
                       delivered: seq<Item>, claimed: set<int>, removed: set<int>)
    requires Lawful(s, t, effect, issued, capacity) && effect.commits
    requires OnePlace(PendingNumbers(s), claimed, removed, s.nextSequence) && DeliveredOnce(delivered, claimed)
    ensures DeliveredOnce(delivered + effect.taken, claimed + Numbers(effect.taken))
    ensures DeliveredOnce(delivered, claimed + Numbers(effect.taken))
  {
    assert effect.dropped == [] ==> effect.taken + effect.dropped == effect.taken;
    if effect.taken == [] {
      assert delivered + effect.taken == delivered;
    } else {
      DeliveredMore(delivered, effect.taken, claimed, PendingNumbers(s));
    }
  }

  lemma ConcludeCommitted(w: World, t: State, effect: Effect, fate: Fate, sessionId: string)
    requires Load(Some(ToJson(sessionId, t))) == t && effect.commits && fate != DiesBeforeCommit
    ensures Conclude(w, t, effect, fate, sessionId) ==
      World(t, Some(ToJson(sessionId, t)), w.claimed + Numbers(effect.taken), w.removed + Numbers(effect.dropped),
            if fate == Completes then w.delivered + effect.taken else w.delivered)
  {
    assert w.delivered + [] == w.delivered;
  }

  lemma ConcludeKeeps(w: World, t: State, effect: Effect, issued: bool, fate: Fate, sessionId: string, capacity: nat)
    requires Inv(w, capacity) && Lawful(w.memory, t, effect, issued, capacity)
    ensures Inv(Conclude(w, t, effect, fate, sessionId), capacity)
  {
    if effect.commits && fate != DiesBeforeCommit {
      SoundReloads(t, sessionId, capacity);
      ConcludeCommitted(w, t, effect, fate, sessionId);
      MovesKeepOnePlace(w.memory, t, effect.taken, effect.dropped, issued, w.claimed, w.removed);
      LawfulDelivery(w.memory, t, effect, issued, capacity, w.delivered, w.claimed, w.removed);
    }
  }

  /** One operation, whatever happens to the process during it, keeps the inbox valid, within
      capacity, in agreement with its file, and with every issued number in exactly one of pending,
      claimed and removed. */
  lemma EveryStepKeeps(w: World, op: Op, fate: Fate, sessionId: string, capacity: nat)
    requires Inv(w, capacity) && FromService(op)
    ensures Inv(Step(w, op, fate, sessionId, capacity), capacity)
  {
    var (t, effect) := Apply(w.memory, op, capacity);
    ApplyIsLawful(w.memory, op, capacity);
    ConcludeKeeps(w, t, effect, op.AdmitOp?, fate, sessionId, capacity);
  }

  lemma {:induction false} EveryRunKeeps(events: seq<Event>, sessionId: string, capacity: nat)
    requires forall k :: 0 <= k < |events| ==> FromService(events[k].op)
    ensures Inv(RunAll(events, sessionId, capacity), capacity)
  {
    if events != [] {
      var front, last := events[..|events| - 1], events[|events| - 1];
      EveryRunKeeps(front, sessionId, capacity);
      EveryStepKeeps(RunAll(front, sessionId, capacity), last.op, last.fate, sessionId, capacity);
    }
  }

  /** Over every run with any number of crashes no item is handed to a caller twice, and once handed
      over it is neither in memory nor in the file. */
  lemma DeliveredAtMostOnce(events: seq<Event>, sessionId: string, capacity: nat)
    requires forall k :: 0 <= k < |events| ==> FromService(events[k].op)
    ensures var w := RunAll(events, sessionId, capacity);
      && UniqueSequences(w.delivered)
      && Numbers(w.delivered) !! PendingNumbers(w.memory)
      && Numbers(w.delivered) !! PendingNumbers(Load(w.disk))
  {
    EveryRunKeeps(events, sessionId, capacity);
  }

  lemma DeathBeforeCommitChangesNothing(w: World, t: State, effect: Effect, sessionId: string)
    requires Load(w.disk) == w.memory
    ensures Conclude(w, t, effect, DiesBeforeCommit, sessionId) == w
  {
    assert w.claimed + {} == w.claimed && w.removed + {} == w.removed && w.delivered + [] == w.delivered;
  }

  function Deaths(op: Op, n: nat): seq<Event> {
    seq(n, _ => Event(op, DiesBeforeCommit))
  }

  lemma DeathLeaves(w: World, op: Op, sessionId: string, capacity: nat)
    requires Load(w.disk) == w.memory
    ensures Step(w, op, DiesBeforeCommit, sessionId, capacity) == w
  {
    DeathBeforeCommitChangesNothing(w, Apply(w.memory, op, capacity).0, Apply(w.memory, op, capacity).1, sessionId);
  }

  lemma RunAllSnoc(events: seq<Event>, e: Event, sessionId: string, capacity: nat)
    ensures RunAll(events + [e], sessionId, capacity)
         == Step(RunAll(events, sessionId, capacity), e.op, e.fate, sessionId, capacity)
  {
    assert (events + [e])[..|events|] == events;
  }

  lemma OneMoreDeath(events: seq<Event>, op: Op, deaths: nat)
    requires deaths > 0
    ensures events + Deaths(op, deaths) == (events + Deaths(op, deaths - 1)) + [Event(op, DiesBeforeCommit)]
  {
    assert Deaths(op, deaths) == Deaths(op, deaths - 1) + [Event(op, DiesBeforeCommit)];
  }

  lemma {:induction false} DeathsLeave(events: seq<Event>, op: Op, deaths: nat, sessionId: string, capacity: nat)
    requires Load(RunAll(events, sessionId, capacity).disk) == RunAll(events, sessionId, capacity).memory
    ensures RunAll(events + Deaths(op, deaths), sessionId, capacity) == RunAll(events, sessionId, capacity)
  {
    if deaths == 0 {
      assert events + Deaths(op, 0) == events;
    } else {
      DeathsLeave(events, op, deaths - 1, sessionId, capacity);
      OneMoreDeath(events, op, deaths);
      RunAllSnoc(events + Deaths(op, deaths - 1), Event(op, DiesBeforeCommit), sessionId, capacity);
      DeathLeaves(RunAll(events, sessionId, capacity), op, sessionId, capacity);
    }
  }

  /** However often the process dies before the commit of an operation, the operation can be repeated:
      every id a dying claim asked for is pending as before, and the operation then does what it would
      have done at first. */
  lemma DeadOperationsCanBeRepeated(events: seq<Event>, op: Op, deaths: nat, sessionId: string, capacity: nat)
    requires forall k :: 0 <= k < |events| ==> FromService(events[k].op)
    ensures var died := RunAll(events + Deaths(op, deaths), sessionId, capacity);
      && died == RunAll(events, sessionId, capacity)
      && RunAll(events + Deaths(op, deaths) + [Event(op, Completes)], sessionId, capacity)
         == RunAll(events + [Event(op, Completes)], sessionId, capacity)
  {
    EveryRunKeeps(events, sessionId, capacity);
    DeathsLeave(events, op, deaths, sessionId, capacity);
    RunAllSnoc(events + Deaths(op, deaths), Event(op, Completes), sessionId, capacity);
    RunAllSnoc(events, Event(op, Completes), sessionId, capacity);
  }

  /** A claim whose process dies after the commit has handed its items to nobody, and they are gone:
      delivery is at most once and not at least once. */
  lemma DeathAfterCommitLosesTheClaim(w: World, ids: seq<string>, sessionId: string, capacity: nat)
    requires Inv(w, capacity) && Distinct(ids) && ids != [] && AllPending(w.memory, ids)
    ensures var v := Step(w, ClaimOp(ids), DiesAfterCommit, sessionId, capacity);
      && v.delivered == w.delivered
      && v.memory == Claimless(w.memory, ids)
      && forall k :: 0 <= k < |ids| ==> Find(v.memory, ids[k]).None?
  {
    var t := Claimless(w.memory, ids);
    ClaimIsAFilter(w.memory, ids);
    ClaimMoves(w.memory, ids, capacity);
    SoundReloads(t, sessionId, capacity);
    ClaimlessFindsNothing(w.memory, ids);
    assert w.delivered + [] == w.delivered;
  }

  lemma ClaimlessFindsNothing(s: State, ids: seq<string>)
    ensures forall k :: 0 <= k < |ids| ==> Find(Claimless(s, ids), ids[k]).None?
  {
    WithoutMembers(s.nextTurn, Named(ids));
    WithoutMembers(s.nextStep, Named(ids));
    forall k | 0 <= k < |ids|
      ensures Find(Claimless(s, ids), ids[k]).None?
    {
      assert ids[k] in Named(ids);
      FindFinds(Claimless(s, ids), ids[k]);
    }
  }
}
