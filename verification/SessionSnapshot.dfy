/** One session's durable snapshot: live events, concurrent snapshot writers, reload and rollback.

    `_merge_messages` is proved to compute `Merge`: the ids of the baseline and each new id once
    (`MergedIds`), every place with the latest version of its id (`MergedHolds`, `MergedIsLatest`). It
    folds over concatenation (`MergeConcat`) and is idempotent (`MergeIdempotent`). In every
    interleaving of appends, snapshot writers that captured at any time, reads, crashes and rollbacks,
    the persisted sequence number never goes back (`SeqNeverDecreases`) and the persisted messages are
    what the events up to it say (`EveryRunKeeps`), across restarts too (`HistoryIsFolded`). A rollback keeps
    this exactly when no writer in flight captured the present sequence number and none captures while the
    rollback writes (`RollbackSafeIff`); otherwise that writer brings the removed messages back
    (`StaleWriterRestores`). What is appended while it writes is lost (`RollbackKeepsThePrefix`) and its
    number given out again (`ReusedNumberIsMissed`, `MissedEventRun`). Reading the log in pages
    misses nothing otherwise (`PagesAreTheTail`). */
module SessionSnapshot {
  import opened Prelude

  datatype Msg = Msg(id: string, isUser: bool, stable: bool, body: string)

  datatype Event = Event(kind: string, data: string)

  /** Folding live events into messages is a given function of the events. */
  type Derive = seq<Event> -> seq<Msg>

  // ---------------------------------------------------------------- merging

  /** The last position of the message `id`, or -1. */
  function LastIndex(ms: seq<Msg>, id: string): (p: int)
    ensures -1 <= p < |ms|
    ensures p >= 0 ==> ms[p].id == id
  {
    if ms == [] then -1
    else if ms[|ms| - 1].id == id then |ms| - 1
    else LastIndex(ms[..|ms| - 1], id)
  }

  function Put(ms: seq<Msg>, m: Msg): seq<Msg> {
    var p := LastIndex(ms, m.id);
    if p < 0 then ms + [m] else ms[p := m]
  }

  /** The baseline with every live message put in its place, or appended. */
  function Merge(baseline: seq<Msg>, live: seq<Msg>): seq<Msg> {
    if live == [] then baseline else Put(Merge(baseline, live[..|live| - 1]), live[|live| - 1])
  }

  ghost predicate IndexesLast(positions: map<string, nat>, ms: seq<Msg>) {
    && (forall id :: id in positions ==> LastIndex(ms, id) == positions[id])
    && (forall id :: id !in positions ==> LastIndex(ms, id) == -1)
  }

  lemma LastIndexAppend(ms: seq<Msg>, m: Msg, id: string)
    ensures LastIndex(ms + [m], id) == if m.id == id then |ms| else LastIndex(ms, id)
  {
    assert (ms + [m])[..|ms|] == ms;
  }

  /** Replacing a message by one with its own id moves no index. */
  lemma {:induction false} LastIndexUpdate(ms: seq<Msg>, p: nat, m: Msg, id: string)
    requires p < |ms| && ms[p].id == m.id
    ensures LastIndex(ms[p := m], id) == LastIndex(ms, id)
  {
    if p < |ms| - 1 {
      assert ms[p := m][..|ms| - 1] == ms[..|ms| - 1][p := m];
      LastIndexUpdate(ms[..|ms| - 1], p, m, id);
    } else {
      assert ms[p := m][..|ms| - 1] == ms[..|ms| - 1];
    }
  }

  method MergeMessages(baseline: seq<Msg>, live: seq<Msg>) returns (result: seq<Msg>)
    ensures result == Merge(baseline, live)
  {
    result := baseline;
    var positions: map<string, nat> := map[];
    for index := 0 to |baseline|
      invariant IndexesLast(positions, baseline[..index])
    {
      assert baseline[..index + 1] == baseline[..index] + [baseline[index]];
      forall id ensures LastIndex(baseline[..index + 1], id)
        == if baseline[index].id == id then index else LastIndex(baseline[..index], id) {
        LastIndexAppend(baseline[..index], baseline[index], id);
      }
      positions := positions[baseline[index].id := index];
    }
    assert baseline[..|baseline|] == baseline;
    for i := 0 to |live|
      invariant result == Merge(baseline, live[..i])
      invariant IndexesLast(positions, result)
    {
      assert live[..i + 1][..i] == live[..i];
      var message := live[i];
      if message.id in positions {
        var p := positions[message.id];
        forall id ensures LastIndex(result[p := message], id) == LastIndex(result, id) {
          LastIndexUpdate(result, p, message, id);
        }
        result := result[p := message];
      } else {
        forall id ensures LastIndex(result + [message], id)
          == if message.id == id then |result| else LastIndex(result, id) {
          LastIndexAppend(result, message, id);
        }
        positions := positions[message.id := |result|];
        result := result + [message];
      }
    }
    assert live[..|live|] == live;
  }

  lemma {:induction false} MergeConcat(baseline: seq<Msg>, first: seq<Msg>, second: seq<Msg>)
    ensures Merge(baseline, first + second) == Merge(Merge(baseline, first), second)
  {
    if second == [] {
      assert first + second == first;
    } else {
      var front := second[..|second| - 1];
      assert (first + second)[..|first + second| - 1] == first + front;
      MergeConcat(baseline, first, front);
    }
  }

  function LatestOf(live: seq<Msg>, id: string): Option<Msg> {
    if live == [] then None
    else if live[|live| - 1].id == id then Some(live[|live| - 1])
    else LatestOf(live[..|live| - 1], id)
  }

  /** What merging means: a message keeps its place, new ids are added behind, and the last message
      of an id holds the latest live version. */
  lemma {:induction false} MergedAt(baseline: seq<Msg>, live: seq<Msg>, id: string)
    ensures var merged := Merge(baseline, live);
      && |baseline| <= |merged|
      && (LastIndex(baseline, id) >= 0 ==> LastIndex(merged, id) == LastIndex(baseline, id))
      && (LatestOf(live, id).Some? ==>
            LastIndex(merged, id) >= 0 && merged[LastIndex(merged, id)] == LatestOf(live, id).value)
      && (LatestOf(live, id).None? ==> LastIndex(merged, id) == LastIndex(baseline, id))
  {
    if live != [] {
      var front, m := live[..|live| - 1], live[|live| - 1];
      MergedAt(baseline, front, id);
      var before := Merge(baseline, front);
      var p := LastIndex(before, m.id);
      if p < 0 {
        LastIndexAppend(before, m, id);
      } else {
        LastIndexUpdate(before, p, m, id);
      }
    }
  }

  function IdsOf(ms: seq<Msg>): seq<string> {
    if ms == [] then [] else IdsOf(ms[..|ms| - 1]) + [ms[|ms| - 1].id]
  }

  /** The ids of the messages that are not among the known ones, each once, as they first appear. */
  function NewIds(live: seq<Msg>, known: seq<string>): seq<string> {
    if live == [] then []
    else
      var before, id := NewIds(live[..|live| - 1], known), live[|live| - 1].id;
      if id in known || id in before then before else before + [id]
  }

  predicate Once(ids: seq<string>) {
    forall i, j :: 0 <= i < j < |ids| ==> ids[i] != ids[j]
  }

  lemma {:induction false} IdsAt(ms: seq<Msg>)
    ensures |IdsOf(ms)| == |ms| && forall k :: 0 <= k < |ms| ==> IdsOf(ms)[k] == ms[k].id
  {
    if ms != [] {
      IdsAt(ms[..|ms| - 1]);
    }
  }

  lemma IdKnownIff(ms: seq<Msg>, id: string)
    ensures id in IdsOf(ms) <==> LastIndex(ms, id) >= 0
  {
    IdsAt(ms);
    if LastIndex(ms, id) >= 0 {
      assert IdsOf(ms)[LastIndex(ms, id)] == id;
    } else {
      LastIndexMisses(ms, id);
    }
  }

  lemma {:induction false} LastIndexMisses(ms: seq<Msg>, id: string)
    ensures forall k :: LastIndex(ms, id) < k < |ms| ==> ms[k].id != id
  {
    if ms != [] && ms[|ms| - 1].id != id {
      LastIndexMisses(ms[..|ms| - 1], id);
    }
  }

  lemma IdsSnoc(ms: seq<Msg>, m: Msg)
    ensures IdsOf(ms + [m]) == IdsOf(ms) + [m.id]
  {
    assert (ms + [m])[..|ms|] == ms;
  }

  lemma IdsReplaced(ms: seq<Msg>, p: nat, m: Msg)
    requires p < |ms| && ms[p].id == m.id
    ensures IdsOf(ms[p := m]) == IdsOf(ms)
  {
    IdsAt(ms);
    IdsAt(ms[p := m]);
  }

  lemma {:induction false} NewIdsAre(live: seq<Msg>, known: seq<string>)
    ensures Once(NewIds(live, known))
    ensures forall id :: id in NewIds(live, known) <==> id in IdsOf(live) && id !in known
  {
    if live != [] {
      NewIdsAre(live[..|live| - 1], known);
    }
  }

  /** In the order of first appearance: more live messages only add ids behind. */
  lemma {:induction false} NewIdsGrow(live: seq<Msg>, known: seq<string>, k: nat)
    requires k <= |live|
    ensures NewIds(live[..k], known) <= NewIds(live, known)
  {
    if k == |live| {
      assert live[..k] == live;
    } else {
      assert live[..|live| - 1][..k] == live[..k];
      NewIdsGrow(live[..|live| - 1], known, k);
    }
  }

  /** A merge keeps the messages of the baseline in their places and adds each new id once, in the order
      in which the ids first appear. */
  lemma {:induction false} MergedIds(baseline: seq<Msg>, live: seq<Msg>)
    ensures IdsOf(Merge(baseline, live)) == IdsOf(baseline) + NewIds(live, IdsOf(baseline))
  {
    if live == [] {
      assert IdsOf(baseline) + [] == IdsOf(baseline);
    } else {
      var front, m := live[..|live| - 1], live[|live| - 1];
      MergedIds(baseline, front);
      var before := Merge(baseline, front);
      IdKnownIff(before, m.id);
      if LastIndex(before, m.id) >= 0 {
        IdsReplaced(before, LastIndex(before, m.id), m);
      } else {
        IdsSnoc(before, m);
        assert IdsOf(baseline) + (NewIds(front, IdsOf(baseline)) + [m.id])
            == (IdsOf(baseline) + NewIds(front, IdsOf(baseline))) + [m.id];
      }
    }
  }

  /** If no id repeats in the baseline, none repeats in what it is merged to. */
  lemma MergedOnce(baseline: seq<Msg>, live: seq<Msg>)
    requires Once(IdsOf(baseline))
    ensures Once(IdsOf(Merge(baseline, live)))
  {
    MergedIds(baseline, live);
    NewIdsAre(live, IdsOf(baseline));
    var known, new' := IdsOf(baseline), NewIds(live, IdsOf(baseline));
    forall i, j | 0 <= i < j < |known + new'|
      ensures (known + new')[i] != (known + new')[j]
    {
      if i < |known| <= j {
        assert known[i] in known && new'[j - |known|] in new';
      }
    }
  }

  lemma {:induction false} LatestSaysId(live: seq<Msg>, id: string)
    ensures LatestOf(live, id).Some? <==> id in IdsOf(live)
    ensures LatestOf(live, id).Some? ==> LatestOf(live, id).value.id == id
  {
    if live != [] {
      LatestSaysId(live[..|live| - 1], id);
    }
  }

  /** Every place holds the latest live version of its id if it is the last of that id, and otherwise
      the message of the baseline. */
  lemma {:induction false} MergedHolds(baseline: seq<Msg>, live: seq<Msg>, p: nat)
    requires p < |Merge(baseline, live)|
    ensures var merged := Merge(baseline, live);
      var latest := LatestOf(live, merged[p].id);
      if latest.Some? && p == LastIndex(merged, merged[p].id) then merged[p] == latest.value
      else p < |baseline| && merged[p] == baseline[p]
  {
    if live != [] {
      var front, m := live[..|live| - 1], live[|live| - 1];
      var before := Merge(baseline, front);
      var at := LastIndex(before, m.id);
      if at < 0 {
        LastIndexAppend(before, m, m.id);
        if p < |before| {
          MergedHolds(baseline, front, p);
          LastIndexMisses(before, m.id);
          LastIndexAppend(before, m, before[p].id);
        }
      } else {
        LastIndexUpdate(before, at, m, before[p].id);
        MergedHolds(baseline, front, p);
      }
    }
  }

  lemma {:induction false} LatestIsLast(live: seq<Msg>, id: string, k: nat)
    requires k < |live| && live[k].id == id && forall j :: k < j < |live| ==> live[j].id != id
    ensures LatestOf(live, id) == Some(live[k])
  {
    if k < |live| - 1 {
      LatestIsLast(live[..|live| - 1], id, k);
    }
  }

  /** With a baseline in which no id repeats that is every place: the latest live version of its id, or
      the message of the baseline if there is none. */
  lemma MergedIsLatest(baseline: seq<Msg>, live: seq<Msg>, p: nat)
    requires Once(IdsOf(baseline)) && p < |Merge(baseline, live)|
    ensures var merged := Merge(baseline, live);
      var latest := LatestOf(live, merged[p].id);
      if latest.Some? then merged[p] == latest.value else p < |baseline| && merged[p] == baseline[p]
  {
    var merged := Merge(baseline, live);
    MergedHolds(baseline, live, p);
    MergedOnce(baseline, live);
    IdsAt(merged);
    LastIndexMisses(merged, merged[p].id);
  }

  /** Merging over messages that are all there already only refreshes their last versions. */
  lemma {:induction false} MergeOverKnown(known: seq<Msg>, live: seq<Msg>, p: nat)
    requires forall k :: 0 <= k < |live| ==> LastIndex(known, live[k].id) >= 0
    requires p < |known|
    ensures |Merge(known, live)| == |known|
    ensures Merge(known, live)[p] ==
      if p == LastIndex(known, known[p].id) && LatestOf(live, known[p].id).Some? then LatestOf(live, known[p].id).value
      else known[p]
  {
    if live != [] {
      var front, m := live[..|live| - 1], live[|live| - 1];
      MergeOverKnown(known, front, p);
      MergedAt(known, front, m.id);
      assert LastIndex(known, m.id) >= 0;
      assert LastIndex(Merge(known, front), m.id) == LastIndex(known, m.id);
    }
  }

  lemma {:induction false} LatestExists(live: seq<Msg>, k: nat)
    requires k < |live|
    ensures LatestOf(live, live[k].id).Some?
  {
    if k < |live| - 1 {
      LatestExists(live[..|live| - 1], k);
    }
  }

  /** Merging the same live messages again changes nothing. */
  lemma MergeIdempotent(baseline: seq<Msg>, live: seq<Msg>)
    ensures Merge(Merge(baseline, live), live) == Merge(baseline, live)
  {
    var merged := Merge(baseline, live);
    forall k | 0 <= k < |live| ensures LastIndex(merged, live[k].id) >= 0 {
      LatestExists(live, k);
      MergedAt(baseline, live, live[k].id);
    }
    if live != [] {
      assert LastIndex(merged, live[0].id) >= 0;
      MergeOverKnown(merged, live, 0);
      forall p | 0 <= p < |merged| ensures Merge(merged, live)[p] == merged[p] {
        MergeOverKnown(merged, live, p);
        MergedAt(baseline, live, merged[p].id);
      }
    }
  }

  // ---------------------------------------------------------------- the protocol

  datatype Disk = Disk(seqNo: int, messages: seq<Msg>)

  /** A snapshot writer between its capture and its commit. */
  datatype Writer = Writer(seqNo: int, messages: seq<Msg>)

  datatype Cached = Cached(seqNo: int, messages: seq<Msg>)

  /** `start` is the sequence number of the first live event. */
  datatype State = State(
    disk: Disk,
    baseline: seq<Msg>,
    start: int,
    events: seq<Event>,
    writers: seq<Writer>,
    cache: Option<Cached>)

  /** What others may do without the session's lock while its file is being written. */
  datatype Meanwhile = Appends(e: Event) | Captures | Reads

  datatype Step =
    | Append(e: Event)
    | Capture
    | Commit(w: nat)
    | Read
    | Reload
    | Rollback(through: string, window: seq<Meanwhile>)

  function LogSeq(s: State): int {
    s.start + |s.events| - 1
  }

  function Messages(s: State, derive: Derive): seq<Msg> {
    Merge(s.baseline, derive(s.events))
  }

  /** `derived_messages`: the cached transcript when it is for the present sequence number. */
  function Transcript(s: State, derive: Derive): seq<Msg> {
    if s.cache.Some? && s.cache.value.seqNo == LogSeq(s) then s.cache.value.messages else Messages(s, derive)
  }

  /** The first position of the message `id`, or -1. */
  function FirstIndex(ms: seq<Msg>, id: string): (p: int)
    ensures -1 <= p < |ms|
    ensures p >= 0 ==> ms[p].id == id
  {
    if ms == [] then -1
    else if ms[0].id == id then 0
    else
      var later := FirstIndex(ms[1..], id);
      if later < 0 then -1 else later + 1
  }

  predicate AllStable(ms: seq<Msg>) {
    forall k :: 0 <= k < |ms| ==> ms[k].stable
  }

  /** Where a rollback cuts the transcript, if it is allowed to. */
  function CutOf(s: State, through: string, derive: Derive): Option<nat> {
    var messages := Transcript(s, derive);
    var cut := FirstIndex(messages, through);
    if through == "" || s.disk.seqNo < LogSeq(s) then None
    else if cut < 0 || !messages[cut].isUser || !messages[cut].stable then None
    else if !AllStable(messages[..cut]) then None
    else Some(cut)
  }

  function RolledBack(s: State, kept: seq<Msg>): State {
    State(Disk(s.disk.seqNo, kept), kept, s.disk.seqNo + 1, [], s.writers, None)
  }

  /** A session as loaded from its file. */
  function Loaded(disk: Disk): State {
    State(disk, disk.messages, disk.seqNo + 1, [], [], None)
  }

  function Appended(s: State, e: Event): State {
    s.(events := s.events + [e], cache := None)
  }

  function Captured(s: State, derive: Derive): State {
    s.(writers := s.writers + [Writer(LogSeq(s), Messages(s, derive))])
  }

  function WasRead(s: State, derive: Derive): State {
    s.(cache := Some(Cached(LogSeq(s), Transcript(s, derive))))
  }

  /** The state after the first things that others did. */
  function During(s: State, window: seq<Meanwhile>, derive: Derive): State {
    if window == [] then s
    else
      var before := During(s, window[..|window| - 1], derive);
      match window[|window| - 1]
      case Appends(e) => Appended(before, e)
      case Captures => Captured(before, derive)
      case Reads => WasRead(before, derive)
  }

  function Next(s: State, step: Step, derive: Derive): State {
    match step
    case Append(e) => Appended(s, e)
    case Capture => Captured(s, derive)
    case Commit(w) =>
      if w >= |s.writers| then s
      else
        var writer := s.writers[w];
        s.(writers := s.writers[..w] + s.writers[w + 1..],
           disk := if s.disk.seqNo > writer.seqNo then s.disk else Disk(writer.seqNo, writer.messages))
    case Read => WasRead(s, derive)
    case Reload => Loaded(s.disk)
    case Rollback(through, window) =>
      var cut := CutOf(s, through, derive);
      if cut.Some? && cut.value <= |Transcript(s, derive)| then
        RolledBack(During(s, window, derive), Transcript(s, derive)[..cut.value])
      else s
  }

  function Run(s: State, steps: seq<Step>, derive: Derive): State {
    if steps == [] then s else Next(Run(s, steps[..|steps| - 1], derive), steps[|steps| - 1], derive)
  }

  lemma RunSnoc(s: State, steps: seq<Step>, step: Step, derive: Derive)
    ensures Run(s, steps + [step], derive) == Next(Run(s, steps, derive), step, derive)
  {
    assert (steps + [step])[..|steps|] == steps;
  }

  /** The messages that the live events up to `upTo` say. */
  predicate Says(s: State, upTo: int, messages: seq<Msg>, derive: Derive) {
    s.start - 1 <= upTo <= LogSeq(s) && messages == Merge(s.baseline, derive(s.events[..upTo - s.start + 1]))
  }

  predicate WriterOk(s: State, writer: Writer, derive: Derive) {
    writer.seqNo >= s.disk.seqNo ==> Says(s, writer.seqNo, writer.messages, derive)
  }

  predicate Good(s: State, derive: Derive) {
    && Says(s, s.disk.seqNo, s.disk.messages, derive)
    && (forall w :: 0 <= w < |s.writers| ==> WriterOk(s, s.writers[w], derive))
    && (s.cache.Some? ==> s.cache.value == Cached(LogSeq(s), Messages(s, derive)))
  }

  // ---------------------------------------------------------------- what every step keeps

  lemma SaysAfterAppend(s: State, e: Event, upTo: int, messages: seq<Msg>, derive: Derive)
    requires Says(s, upTo, messages, derive)
    ensures Says(s.(events := s.events + [e], cache := None), upTo, messages, derive)
  {
    var n := upTo - s.start + 1;
    assert (s.events + [e])[..n] == s.events[..n];
  }

  lemma AppendKeeps(s: State, e: Event, derive: Derive)
    requires Good(s, derive)
    ensures Good(Next(s, Append(e), derive), derive)
  {
    SaysAfterAppend(s, e, s.disk.seqNo, s.disk.messages, derive);
    forall w | 0 <= w < |s.writers| ensures WriterOk(Next(s, Append(e), derive), s.writers[w], derive) {
      if s.writers[w].seqNo >= s.disk.seqNo {
        SaysAfterAppend(s, e, s.writers[w].seqNo, s.writers[w].messages, derive);
      }
    }
  }

  lemma CaptureKeeps(s: State, derive: Derive)
    requires Good(s, derive)
    ensures Good(Next(s, Capture, derive), derive)
  {
    var s', writer := Next(s, Capture, derive), Writer(LogSeq(s), Messages(s, derive));
    SaysNow(s, derive);
    assert s'.writers == s.writers + [writer];
    forall w | 0 <= w < |s'.writers|
      ensures WriterOk(s', s'.writers[w], derive)
    {
      if w < |s.writers| {
        assert WriterOk(s, s.writers[w], derive);
      } else {
        assert s'.writers[w] == writer;
      }
    }
  }

  lemma SaysNow(s: State, derive: Derive)
    requires Good(s, derive)
    ensures Says(s, LogSeq(s), Messages(s, derive), derive)
  {
    assert s.events[..|s.events|] == s.events;
  }

  lemma CommitKeeps(s: State, w: nat, derive: Derive)
    requires Good(s, derive) && w < |s.writers|
    ensures Good(Next(s, Commit(w), derive), derive)
  {
    var s' := Next(s, Commit(w), derive);
    assert WriterOk(s, s.writers[w], derive);
    forall k | 0 <= k < |s'.writers| ensures WriterOk(s', s'.writers[k], derive) {
      assert s'.writers[k] == s.writers[if k < w then k else k + 1];
    }
  }

  /** No writer in flight captured the persisted sequence number. */
  predicate NoneAtPresent(s: State) {
    forall w :: 0 <= w < |s.writers| ==> s.writers[w].seqNo < s.disk.seqNo
  }

  lemma TranscriptIsMessages(s: State, derive: Derive)
    requires Good(s, derive)
    ensures Transcript(s, derive) == Messages(s, derive)
  {
  }

  lemma CutInRange(s: State, through: string, derive: Derive)
    requires CutOf(s, through, derive).Some?
    ensures CutOf(s, through, derive).value < |Transcript(s, derive)|
  {
  }

  lemma NextRollbackIs(s: State, through: string, window: seq<Meanwhile>, derive: Derive)
    requires CutOf(s, through, derive).Some?
    ensures CutOf(s, through, derive).value < |Transcript(s, derive)|
    ensures Next(s, Rollback(through, window), derive)
         == RolledBack(During(s, window, derive), Transcript(s, derive)[..CutOf(s, through, derive).value])
  {
    CutInRange(s, through, derive);
  }

  /** The state after a rollback says what was kept, whatever the writers hold. */
  lemma RolledBackSays(s: State, kept: seq<Msg>, derive: Derive)
    requires derive([]) == []
    ensures Says(RolledBack(s, kept), s.disk.seqNo, kept, derive)
  {
    assert RolledBack(s, kept).events[..0] == [];
  }

  /** A writer that captured at or after the state `s`, before the baseline was switched. */
  predicate CapturedSince(s: State, writer: Writer, derive: Derive) {
    writer.seqNo >= LogSeq(s) && (writer.seqNo == LogSeq(s) ==> writer.messages == Messages(s, derive))
  }

  function Arrivals(window: seq<Meanwhile>): nat {
    if window == [] then 0
    else Arrivals(window[..|window| - 1]) + (if window[|window| - 1].Appends? then 1 else 0)
  }

  /** `d` is `s` with `n` events and some writers added; disk and baseline are not touched. */
  predicate Added(s: State, d: State, n: nat, quiet: bool, derive: Derive) {
    && d.disk == s.disk && d.baseline == s.baseline && d.start == s.start
    && s.events <= d.events && |d.events| == |s.events| + n
    && s.writers <= d.writers && (|d.writers| == |s.writers| <==> quiet)
    && forall w :: |s.writers| <= w < |d.writers| ==> CapturedSince(s, d.writers[w], derive)
  }

  lemma AppendAdds(s: State, d: State, n: nat, quiet: bool, e: Event, derive: Derive)
    requires Added(s, d, n, quiet, derive)
    ensures Added(s, Appended(d, e), n + 1, quiet, derive)
  {
  }

  lemma CaptureAdds(s: State, d: State, n: nat, quiet: bool, derive: Derive)
    requires Added(s, d, n, quiet, derive)
    ensures Added(s, Captured(d, derive), n, false, derive)
  {
    var writer := Writer(LogSeq(d), Messages(d, derive));
    if n == 0 {
      assert d.events == s.events;
    }
    assert CapturedSince(s, writer, derive);
    assert Captured(d, derive).writers == d.writers + [writer];
  }

  /** What others did meanwhile. */
  lemma {:induction false} DuringAdds(s: State, window: seq<Meanwhile>, derive: Derive)
    ensures Added(s, During(s, window, derive), Arrivals(window), Captures !in window, derive)
  {
    if window != [] {
      var front, last := window[..|window| - 1], window[|window| - 1];
      DuringAdds(s, front, derive);
      assert window == front + [last];
      match last
      case Appends(e) => AppendAdds(s, During(s, front, derive), Arrivals(front), Captures !in front, e, derive);
      case Captures => CaptureAdds(s, During(s, front, derive), Arrivals(front), Captures !in front, derive);
      case Reads =>
    }
  }

  /** What others do meanwhile does not depend on the disk. */
  lemma {:induction false} SameDuring(s: State, disk: Disk, window: seq<Meanwhile>, derive: Derive)
    ensures During(s.(disk := disk), window, derive) == During(s, window, derive).(disk := disk)
  {
    if window != [] {
      SameDuring(s, disk, window[..|window| - 1], derive);
    }
  }

  lemma PresentWriterHoldsAll(s: State, w: nat, derive: Derive)
    requires Good(s, derive) && w < |s.writers| && s.writers[w].seqNo >= s.disk.seqNo == LogSeq(s)
    ensures s.writers[w].seqNo == s.disk.seqNo && s.writers[w].messages == Transcript(s, derive)
  {
    assert WriterOk(s, s.writers[w], derive);
    assert s.events[..|s.events|] == s.events;
  }

  lemma GoodAfterRollback(d: State, kept: seq<Msg>, derive: Derive)
    requires Says(RolledBack(d, kept), d.disk.seqNo, kept, derive)
    ensures Good(RolledBack(d, kept), derive) <==>
              forall w :: 0 <= w < |d.writers| ==> WriterOk(RolledBack(d, kept), d.writers[w], derive)
  {
  }

  lemma WriterAfterRollback(s: State, kept: seq<Msg>, d: State, w: nat, derive: Derive)
    requires Good(s, derive) && derive([]) == [] && LogSeq(s) <= s.disk.seqNo && |kept| < |Transcript(s, derive)|
    requires d.disk == s.disk && s.writers <= d.writers && w < |d.writers|
    requires w >= |s.writers| ==> CapturedSince(s, d.writers[w], derive)
    ensures WriterOk(RolledBack(d, kept), d.writers[w], derive) <==>
              w < |s.writers| && s.writers[w].seqNo < s.disk.seqNo
  {
    TranscriptIsMessages(s, derive);
    if w < |s.writers| {
      assert WriterOk(s, s.writers[w], derive);
      if s.writers[w].seqNo >= s.disk.seqNo {
        PresentWriterHoldsAll(s, w, derive);
      }
    }
    assert RolledBack(d, kept).events[..0] == [];
  }

  lemma RollbackOfWriters(s: State, kept: seq<Msg>, window: seq<Meanwhile>, derive: Derive)
    requires Good(s, derive) && derive([]) == [] && LogSeq(s) <= s.disk.seqNo && |kept| < |Transcript(s, derive)|
    ensures Good(RolledBack(During(s, window, derive), kept), derive) <==> NoneAtPresent(s) && Captures !in window
  {
    var d := During(s, window, derive);
    DuringAdds(s, window, derive);
    RolledBackSays(d, kept, derive);
    forall w | 0 <= w < |d.writers|
      ensures WriterOk(RolledBack(d, kept), d.writers[w], derive) <==>
                w < |s.writers| && s.writers[w].seqNo < s.disk.seqNo
    {
      WriterAfterRollback(s, kept, d, w, derive);
    }
    GoodAfterRollback(d, kept, derive);
    if |d.writers| > |s.writers| {
      assert !WriterOk(RolledBack(d, kept), d.writers[|s.writers|], derive);
    }
  }

  /** A rollback keeps the invariant if and only if no writer in flight captured the present sequence
      number and none captures while the rollback writes: such a writer passes the stale-writer guard
      later. */
  lemma RollbackSafeIff(s: State, through: string, window: seq<Meanwhile>, derive: Derive)
    requires Good(s, derive) && derive([]) == [] && CutOf(s, through, derive).Some?
    ensures Good(Next(s, Rollback(through, window), derive), derive) <==> NoneAtPresent(s) && Captures !in window
  {
    NextRollbackIs(s, through, window, derive);
    RollbackOfWriters(s, Transcript(s, derive)[..CutOf(s, through, derive).value], window, derive);
  }

  /** What goes wrong otherwise: the writer's messages go to disk, and if nothing was appended before it
      captured they are the whole transcript, with all that was removed. */
  lemma StaleWriterRestores(s: State, through: string, window: seq<Meanwhile>, w: nat, derive: Derive)
    requires Good(s, derive) && CutOf(s, through, derive).Some?
    requires w < |During(s, window, derive).writers|
    requires During(s, window, derive).writers[w].seqNo >= s.disk.seqNo
    ensures var writer := During(s, window, derive).writers[w];
      var t := Next(Next(s, Rollback(through, window), derive), Commit(w), derive);
      && t.disk == Disk(writer.seqNo, writer.messages)
      && (writer.seqNo == s.disk.seqNo ==>
            t.disk.messages == Transcript(s, derive) && |t.baseline| < |t.disk.messages|)
  {
    CutInRange(s, through, derive);
    DuringAdds(s, window, derive);
    TranscriptIsMessages(s, derive);
    if w < |s.writers| {
      PresentWriterHoldsAll(s, w, derive);
    }
  }

  /** A session of one user message: a writer captures, the message is rolled back, the writer commits,
      and the message is back on disk. */
  lemma StaleWriterRun(n: int, u: Msg, derive: Derive)
    requires derive([]) == [] && u.isUser && u.stable && u.id != ""
    ensures var steps := [Capture, Rollback(u.id, []), Commit(0)];
      var s := Run(Loaded(Disk(n, [u])), steps, derive);
      s.baseline == [] && s.disk == Disk(n, [u])
  {
    var s := Loaded(Disk(n, [u]));
    var s1 := s.(writers := [Writer(n, [u])]);
    var s2 := RolledBack(s1, []);
    assert Next(s, Capture, derive) == s1;
    assert FirstIndex([u], u.id) == 0;
    assert [u][..0] == [];
    assert Next(s1, Rollback(u.id, []), derive) == s2;
    assert [] + [Capture] == [Capture] && [Capture] + [Rollback(u.id, [])] == [Capture, Rollback(u.id, [])];
    assert [Capture, Rollback(u.id, [])] + [Commit(0)] == [Capture, Rollback(u.id, []), Commit(0)];
    RunSnoc(s, [], Capture, derive);
    RunSnoc(s, [Capture], Rollback(u.id, []), derive);
    RunSnoc(s, [Capture, Rollback(u.id, [])], Commit(0), derive);
  }

  lemma {:induction false} FirstIndexIsFirst(ms: seq<Msg>, id: string, k: nat)
    requires k < |ms| && (FirstIndex(ms, id) < 0 || k < FirstIndex(ms, id))
    ensures ms[k].id != id
  {
    if k > 0 {
      FirstIndexIsFirst(ms[1..], id, k - 1);
    }
  }

  /** Where a rollback may cut: at the first message with the id, if that is a user message, nothing up to it
      is unfinished and all events are on disk. */
  predicate CutsAt(s: State, before: seq<Msg>, through: string, p: nat) {
    && through != "" && LogSeq(s) <= s.disk.seqNo
    && p < |before| && before[p].id == through && before[p].isUser
    && (forall k :: 0 <= k <= p ==> before[k].stable)
    && forall k :: 0 <= k < p ==> before[k].id != through
  }

  /** A rollback is carried out exactly there, and otherwise is refused. */
  lemma RollbackAllowedIff(s: State, through: string, window: seq<Meanwhile>, derive: Derive, p: nat)
    ensures CutOf(s, through, derive) == Some(p) <==> CutsAt(s, Transcript(s, derive), through, p)
    ensures CutOf(s, through, derive).None? ==> Next(s, Rollback(through, window), derive) == s
  {
    var before := Transcript(s, derive);
    var first := FirstIndex(before, through);
    if first >= 0 {
      forall k | 0 <= k < first ensures before[k].id != through {
        FirstIndexIsFirst(before, through, k);
      }
    } else {
      forall k | 0 <= k < |before| ensures before[k].id != through {
        FirstIndexIsFirst(before, through, k);
      }
    }
  }

  /** A rollback keeps exactly the messages before its target, in memory and on disk, removes the
      target and everything after it, what arrived meanwhile included, and leaves the sequence number
      as it was before. */
  lemma RollbackKeepsThePrefix(s: State, through: string, window: seq<Meanwhile>, derive: Derive)
    requires Good(s, derive) && derive([]) == [] && CutOf(s, through, derive).Some?
    ensures var before, after := Transcript(s, derive), Next(s, Rollback(through, window), derive);
      var kept := Transcript(after, derive);
      && |kept| < |before| && kept == before[..|kept|] && after.disk == Disk(s.disk.seqNo, kept)
      && LogSeq(after) == LogSeq(s) && after.events == []
      && before[|kept|].id == through && before[|kept|].isUser && AllStable(kept)
      && forall k :: 0 <= k < |kept| ==> kept[k].id != through
  {
    var cut := CutOf(s, through, derive).value;
    CutInRange(s, through, derive);
    DuringAdds(s, window, derive);
    var before := Transcript(s, derive);
    forall k | 0 <= k < cut ensures before[k].id != through {
      FirstIndexIsFirst(before, through, k);
    }
  }

  /** A snapshot captured and committed without anything in between persists the whole transcript. */
  lemma SnapshotPersistsEverything(s: State, derive: Derive)
    requires Good(s, derive)
    ensures var after := Next(Next(s, Capture, derive), Commit(|s.writers|), derive);
      && after.disk == Disk(LogSeq(s), Transcript(s, derive))
      && after.writers == s.writers && after.events == s.events && after.baseline == s.baseline
  {
    var w := Writer(LogSeq(s), Messages(s, derive));
    assert (s.writers + [w])[..|s.writers|] + (s.writers + [w])[|s.writers| + 1..] == s.writers;
  }

  predicate SafeStep(s: State, step: Step, derive: Derive) {
    step.Rollback? && CutOf(s, step.through, derive).Some? ==> NoneAtPresent(s) && Captures !in step.window
  }

  lemma ReadKeeps(s: State, derive: Derive)
    requires Good(s, derive)
    ensures Good(WasRead(s, derive), derive)
  {
    var t := WasRead(s, derive);
    TranscriptIsMessages(s, derive);
    forall w | 0 <= w < |t.writers|
      ensures WriterOk(t, t.writers[w], derive)
    {
      assert WriterOk(s, s.writers[w], derive);
    }
  }

  lemma NextKeeps(s: State, step: Step, derive: Derive)
    requires Good(s, derive) && derive([]) == [] && SafeStep(s, step, derive)
    ensures Good(Next(s, step, derive), derive)
  {
    match step
    case Append(e) => AppendKeeps(s, e, derive);
    case Capture => CaptureKeeps(s, derive);
    case Commit(w) =>
      if w < |s.writers| {
        CommitKeeps(s, w, derive);
      }
    case Read => ReadKeeps(s, derive);
    case Reload => LoadedIsGood(s.disk, derive);
    case Rollback(through, window) =>
      if CutOf(s, through, derive).Some? {
        RollbackSafeIff(s, through, window, derive);
      }
  }

  lemma LoadedIsGood(disk: Disk, derive: Derive)
    requires derive([]) == []
    ensures Good(Loaded(disk), derive)
  {
    assert Loaded(disk).events[..0] == [];
  }

  predicate Safe(s: State, steps: seq<Step>, derive: Derive) {
    steps == []
    || (Safe(s, steps[..|steps| - 1], derive)
        && SafeStep(Run(s, steps[..|steps| - 1], derive), steps[|steps| - 1], derive))
  }

  /** In every run whose rollbacks have no writer in flight at the present sequence number, and none
      that captures while they write, the disk says what the events up to its sequence number say, and
      the cached transcript is right. */
  lemma {:induction false} EveryRunKeeps(disk: Disk, steps: seq<Step>, derive: Derive)
    requires derive([]) == [] && Safe(Loaded(disk), steps, derive)
    ensures Good(Run(Loaded(disk), steps, derive), derive)
  {
    if steps == [] {
      LoadedIsGood(disk, derive);
    } else {
      EveryRunKeeps(disk, steps[..|steps| - 1], derive);
      NextKeeps(Run(Loaded(disk), steps[..|steps| - 1], derive), steps[|steps| - 1], derive);
    }
  }

  /** In every run, safe or not, the persisted sequence number never goes back. */
  lemma {:induction false} SeqNeverDecreases(s: State, steps: seq<Step>, derive: Derive)
    ensures Run(s, steps, derive).disk.seqNo >= s.disk.seqNo
  {
    if steps != [] {
      SeqNeverDecreases(s, steps[..|steps| - 1], derive);
      if steps[|steps| - 1].Rollback? {
        DuringAdds(Run(s, steps[..|steps| - 1], derive), steps[|steps| - 1].window, derive);
      }
    }
  }

  // ---------------------------------------------------------------- across restarts

  /** The live messages of the events up to the persisted sequence number. */
  function Persisted(s: State, derive: Derive): seq<Msg> {
    var n := s.disk.seqNo - s.start + 1;
    if 0 <= n <= |s.events| then derive(s.events[..n]) else []
  }

  /** What the baseline is made of: the messages first loaded, or kept by the last rollback, and the
      live messages persisted since by the lives of the process before its last restart. */
  datatype History = History(base: seq<Msg>, folded: seq<Msg>)

  function NextHistory(h: History, s: State, step: Step, derive: Derive): History {
    match step
    case Reload => h.(folded := h.folded + Persisted(s, derive))
    case Rollback(through, _) =>
      var cut := CutOf(s, through, derive);
      if cut.Some? && cut.value <= |Transcript(s, derive)| then History(Transcript(s, derive)[..cut.value], []) else h
    case _ => h
  }

  function HistoryOf(disk: Disk, steps: seq<Step>, derive: Derive): History {
    if steps == [] then History(disk.messages, [])
    else
      var front := steps[..|steps| - 1];
      NextHistory(HistoryOf(disk, front, derive), Run(Loaded(disk), front, derive), steps[|steps| - 1], derive)
  }

  lemma DiskIsPersisted(s: State, derive: Derive)
    requires Good(s, derive)
    ensures s.disk.messages == Merge(s.baseline, Persisted(s, derive))
  {
  }

  /** The baseline is the folded history. */
  predicate FoldsTo(h: History, baseline: seq<Msg>) {
    baseline == Merge(h.base, h.folded)
  }

  lemma RollbackStartsHistory(h: History, s: State, through: string, window: seq<Meanwhile>, derive: Derive)
    requires FoldsTo(h, s.baseline)
    ensures FoldsTo(NextHistory(h, s, Rollback(through, window), derive),
              Next(s, Rollback(through, window), derive).baseline)
  {
    if CutOf(s, through, derive).Some? {
      NextRollbackIs(s, through, window, derive);
    }
  }

  lemma ReloadFolds(h: History, s: State, derive: Derive)
    requires FoldsTo(h, s.baseline) && Good(s, derive)
    ensures FoldsTo(NextHistory(h, s, Reload, derive), Next(s, Reload, derive).baseline)
  {
    DiskIsPersisted(s, derive);
    MergeConcat(h.base, h.folded, Persisted(s, derive));
  }

  lemma NextFolds(h: History, s: State, step: Step, derive: Derive)
    requires FoldsTo(h, s.baseline) && Good(s, derive)
    ensures FoldsTo(NextHistory(h, s, step, derive), Next(s, step, derive).baseline)
  {
    match step
    case Reload => ReloadFolds(h, s, derive);
    case Rollback(through, window) => RollbackStartsHistory(h, s, through, window, derive);
    case _ =>
  }

  lemma {:induction false} BaselineIsFolded(disk: Disk, steps: seq<Step>, derive: Derive)
    requires derive([]) == [] && Safe(Loaded(disk), steps, derive)
    ensures FoldsTo(HistoryOf(disk, steps, derive), Run(Loaded(disk), steps, derive).baseline)
  {
    if steps != [] {
      var front := steps[..|steps| - 1];
      BaselineIsFolded(disk, front, derive);
      EveryRunKeeps(disk, front, derive);
      NextFolds(HistoryOf(disk, front, derive), Run(Loaded(disk), front, derive), steps[|steps| - 1], derive);
    }
  }

  /** However often the process restarts, the disk holds the messages first loaded, or those that the
      last rollback kept, with everything that was persisted since merged in, in order. */
  lemma HistoryIsFolded(disk: Disk, steps: seq<Step>, derive: Derive)
    requires derive([]) == [] && Safe(Loaded(disk), steps, derive)
    ensures var s, h := Run(Loaded(disk), steps, derive), HistoryOf(disk, steps, derive);
      && s.baseline == Merge(h.base, h.folded)
      && s.disk.messages == Merge(h.base, h.folded + Persisted(s, derive))
  {
    var s, h := Run(Loaded(disk), steps, derive), HistoryOf(disk, steps, derive);
    BaselineIsFolded(disk, steps, derive);
    EveryRunKeeps(disk, steps, derive);
    DiskIsPersisted(s, derive);
    MergeConcat(h.base, h.folded, Persisted(s, derive));
  }

  predicate NoRollback(steps: seq<Step>) {
    steps == [] || (NoRollback(steps[..|steps| - 1]) && !steps[|steps| - 1].Rollback?)
  }

  /** Without rollbacks every run is safe, and its history starts at the messages first loaded. */
  lemma {:induction false} HistoryWithoutRollback(disk: Disk, steps: seq<Step>, derive: Derive)
    requires NoRollback(steps)
    ensures Safe(Loaded(disk), steps, derive) && HistoryOf(disk, steps, derive).base == disk.messages
  {
    if steps != [] {
      HistoryWithoutRollback(disk, steps[..|steps| - 1], derive);
    }
  }

  // ---------------------------------------------------------------- reading the log in pages

  /** `SessionLog.tail`: at most `limit` events after `after`, and whether there are more. */
  function Tail(start: int, events: seq<Event>, after: int, limit: int): (seq<Event>, bool) {
    if events == [] then ([], false)
    else
      var first := if after - start + 1 < 0 then 0 else after - start + 1;
      var size := if limit < 1 then 1 else limit;
      var from := if first < |events| then first else |events|;
      var page := if from + size < |events| then events[from..from + size] else events[from..];
      (page, first + |page| < |events|)
  }

  datatype Attach = Resync(current: int) | Page(events: seq<Event>, hasMore: bool, current: int)

  function EventsAfter(s: State, after: int, limit: int): Attach {
    if after < s.disk.seqNo || after > LogSeq(s) then Resync(LogSeq(s))
    else
      var (page, hasMore) := Tail(s.start, s.events, after, limit);
      Page(page, hasMore, LogSeq(s))
  }

  /** A page holds the next events, and says truly whether there are more. */
  lemma TailMoves(start: int, events: seq<Event>, after: int, limit: int)
    requires start - 1 <= after
    ensures var (page, hasMore) := Tail(start, events, after, limit);
      && (after <= start + |events| - 1 ==>
            after + |page| <= start + |events| - 1
            && page == events[after - start + 1..after - start + 1 + |page|])
      && (hasMore ==> |page| > 0 && after + |page| < start + |events| - 1)
      && (!hasMore && after <= start + |events| - 1 ==> after + |page| == start + |events| - 1)
  {
  }

  /** All pages, each asked for after the last event of the one before. */
  function Pages(start: int, events: seq<Event>, after: int, limit: int): seq<Event>
    requires start - 1 <= after
    decreases start + |events| - after
  {
    TailMoves(start, events, after, limit);
    var (page, hasMore) := Tail(start, events, after, limit);
    if hasMore then page + Pages(start, events, after + |page|, limit) else page
  }

  /** The first page and the pages after it. */
  lemma NextPages(start: int, events: seq<Event>, after: int, limit: int, page: seq<Event>, hasMore: bool)
    requires start - 1 <= after && Tail(start, events, after, limit) == (page, hasMore)
    ensures Pages(start, events, after, limit)
         == page + (if hasMore then Pages(start, events, after + |page|, limit) else [])
  {
    assert page + [] == page;
  }

  lemma SplitAt(events: seq<Event>, n: nat, size: nat)
    requires n + size <= |events|
    ensures events[n..n + size] + events[n + size..] == events[n..]
  {
  }

  /** What a page says of the events after `after`, and what is left. */
  predicate IsPage(start: int, events: seq<Event>, after: int, page: seq<Event>, hasMore: bool) {
    var from := after - start + 1;
    && 0 <= from && from + |page| <= |events| && page == events[from..from + |page|]
    && (hasMore ==> |page| > 0 && after + |page| < start + |events| - 1)
    && (!hasMore ==> from + |page| == |events|)
  }

  lemma TailIsPage(start: int, events: seq<Event>, after: int, limit: int)
    requires start - 1 <= after <= start + |events| - 1
    ensures IsPage(start, events, after, Tail(start, events, after, limit).0, Tail(start, events, after, limit).1)
  {
    TailMoves(start, events, after, limit);
  }

  lemma PageAndRest(start: int, events: seq<Event>, after: int, page: seq<Event>, hasMore: bool, rest: seq<Event>)
    requires IsPage(start, events, after, page, hasMore)
    requires rest == if hasMore then events[after + |page| - start + 1..] else []
    ensures page + rest == events[after - start + 1..]
  {
    SplitAt(events, after - start + 1, |page|);
  }

  lemma {:induction false} PagesAreTheRest(start: int, events: seq<Event>, after: int, limit: int)
    requires start - 1 <= after <= start + |events| - 1
    ensures Pages(start, events, after, limit) == events[after - start + 1..]
    decreases start + |events| - after
  {
    var (page, hasMore) := Tail(start, events, after, limit);
    TailIsPage(start, events, after, limit);
    NextPages(start, events, after, limit, page, hasMore);
    if hasMore {
      PagesAreTheRest(start, events, after + |page|, limit);
      PageAndRest(start, events, after, page, true, Pages(start, events, after + |page|, limit));
    } else {
      PageAndRest(start, events, after, page, false, []);
    }
  }

  /** A client that is not told to resynchronise and reads page after page gets exactly the events
      after its own sequence number, none missing and none twice. */
  lemma PagesAreTheTail(s: State, after: int, limit: int, derive: Derive)
    requires Good(s, derive)
    ensures EventsAfter(s, after, limit).Page? <==> s.disk.seqNo <= after <= LogSeq(s)
    ensures EventsAfter(s, after, limit).Page? ==>
              s.start - 1 <= after && Pages(s.start, s.events, after, limit) == s.events[after - s.start + 1..]
  {
    if s.disk.seqNo <= after <= LogSeq(s) {
      PagesAreTheRest(s.start, s.events, after, limit);
    }
  }

  // ---------------------------------------------------------------- numbers given out twice

  function AppendedAll(s: State, events: seq<Event>): (t: State)
    ensures t == if events == [] then s else s.(events := s.events + events, cache := None)
  {
    if events == [] then s
    else
      assert (s.events + events[..|events| - 1]) + [events[|events| - 1]] == s.events + events;
      Appended(AppendedAll(s, events[..|events| - 1]), events[|events| - 1])
  }

  /** A log of the events `more`, read by a client that claims to have seen `lost` of them. */
  lemma TakenBack(t: State, more: seq<Event>, seen: int, lost: nat, limit: int)
    requires t.start == t.disk.seqNo + 1 && t.events == more && seen == t.disk.seqNo + lost
    ensures EventsAfter(t, seen, limit).Page? <==> |more| >= lost
    ensures |more| >= lost ==> t.start - 1 <= seen && Pages(t.start, t.events, seen, limit) == more[lost..]
  {
    if |more| >= lost {
      PagesAreTheRest(t.start, more, seen, limit);
    }
  }

  lemma RestartedLog(s: State, through: string, window: seq<Meanwhile>, more: seq<Event>, derive: Derive)
    requires Good(s, derive) && CutOf(s, through, derive).Some?
    ensures var t := AppendedAll(Next(s, Rollback(through, window), derive), more);
      t.events == more && t.disk.seqNo == LogSeq(s) && t.start == LogSeq(s) + 1
  {
    NextRollbackIs(s, through, window, derive);
    DuringAdds(s, window, derive);
    var kept := Transcript(s, derive)[..CutOf(s, through, derive).value];
    RestartedFrom(RolledBack(During(s, window, derive), kept), more);
  }

  lemma RestartedFrom(s: State, more: seq<Event>)
    requires s.events == []
    ensures var t := AppendedAll(s, more); t.events == more && t.disk == s.disk && t.start == s.start
  {
    assert [] + more == more;
  }

  /** A client has seen the events up to the number `seen`, among them some that arrived while a
      rollback was writing. The numbers of these are given out again: the client is told to
      resynchronise only until as many events have followed; from then on it is answered with a page
      and misses exactly that many. */
  lemma ReusedNumberIsMissed(s: State, through: string, window: seq<Meanwhile>, seen: int, more: seq<Event>, limit: int,
                             derive: Derive)
    requires Good(s, derive) && CutOf(s, through, derive).Some?
    requires LogSeq(s) <= seen <= LogSeq(During(s, window, derive))
    ensures var t := AppendedAll(Next(s, Rollback(through, window), derive), more);
      && (EventsAfter(t, seen, limit).Page? <==> |more| >= seen - LogSeq(s))
      && (|more| >= seen - LogSeq(s) ==>
            t.start - 1 <= seen && Pages(t.start, t.events, seen, limit) == more[seen - LogSeq(s)..])
  {
    RestartedLog(s, through, window, more, derive);
    TakenBack(AppendedAll(Next(s, Rollback(through, window), derive), more), more, seen, seen - LogSeq(s), limit);
  }

  lemma FirstCut(n: int, u: Msg, derive: Derive)
    requires derive([]) == [] && u.isUser && u.stable && u.id != ""
    ensures Good(Loaded(Disk(n, [u])), derive) && CutOf(Loaded(Disk(n, [u])), u.id, derive) == Some(0)
  {
    LoadedIsGood(Disk(n, [u]), derive);
    assert FirstIndex([u], u.id) == 0;
    assert [u][..0] == [];
  }

  /** A session of one user message that is rolled back while an event arrives: a client that has seen
      that event, number `n + 1`, never gets the next one, which has the same number. */
  lemma MissedEventRun(n: int, u: Msg, lost: Event, next: Event, limit: int, derive: Derive)
    requires derive([]) == [] && u.isUser && u.stable && u.id != ""
    ensures var steps := [Rollback(u.id, [Appends(lost)]), Append(next)];
      var s := Run(Loaded(Disk(n, [u])), steps, derive);
      LogSeq(s) == n + 1 && s.events == [next] && EventsAfter(s, n + 1, limit) == Page([], false, n + 1)
  {
    var s := Loaded(Disk(n, [u]));
    var rollback := Rollback(u.id, [Appends(lost)]);
    FirstCut(n, u, derive);
    RestartedLog(s, u.id, [Appends(lost)], [next], derive);
    assert [] + [rollback] == [rollback] && [rollback] + [Append(next)] == [rollback, Append(next)];
    RunSnoc(s, [], rollback, derive);
    RunSnoc(s, [rollback], Append(next), derive);
    var t := Next(s, rollback, derive);
    assert [next][..0] == [] && AppendedAll(t, [next]) == Appended(t, next);
  }

  // ---------------------------------------------------------------- the service's state of one session

  class Session {
    const derive: Derive
    var disk: Disk
    var baseline: seq<Msg>
    var start: int
    var events: seq<Event>
    var writers: seq<Writer>
    var cache: Option<Cached>

    /** Load the session from its file. */
    constructor (disk: Disk, derive: Derive)
      ensures Value() == Loaded(disk) && this.derive == derive
    {
      this.derive := derive;
      this.disk := disk;
      baseline, start, events := disk.messages, disk.seqNo + 1, [];
      writers, cache := [], None;
    }

    function Value(): State
      reads this
    {
      State(disk, baseline, start, events, writers, cache)
    }

    method AppendEvent(e: Event)
      modifies this`events, this`cache
      ensures Value() == Next(old(Value()), Append(e), derive)
    {
      events := events + [e];
      cache := None;
    }

    method MergedMessages() returns (messages: seq<Msg>)
      ensures messages == Messages(Value(), derive)
    {
      messages := MergeMessages(baseline, derive(events));
    }

    /** The part of `_write_snapshot` before its first await. */
    method CaptureSnapshot()
      modifies this`writers
      ensures Value() == Next(old(Value()), Capture, derive)
    {
      var messages := MergedMessages();
      writers := writers + [Writer(start + |events| - 1, messages)];
    }

    /** The part of `_write_snapshot` under the session's lock. */
    method CommitSnapshot(w: nat)
      requires w < |writers|
      modifies this`writers, this`disk
      ensures Value() == Next(old(Value()), Commit(w), derive)
    {
      var writer := writers[w];
      writers := writers[..w] + writers[w + 1..];
      if disk.seqNo > writer.seqNo {
        return;
      }
      disk := Disk(writer.seqNo, writer.messages);
    }

    method DerivedMessages() returns (messages: seq<Msg>)
      modifies this`cache
      ensures Value() == Next(old(Value()), Read, derive)
      ensures messages == Transcript(old(Value()), derive)
    {
      var current := start + |events| - 1;
      if cache.Some? && cache.value.seqNo == current {
        messages := cache.value.messages;
      } else {
        messages := MergedMessages();
        cache := Some(Cached(current, messages));
      }
    }

    /** The part of `rollback_session` up to the awaited commit of the shortened transcript. */
    method BeginRollback(through: string) returns (cut: Option<(seq<Msg>, seq<Msg>)>)
      modifies this`disk
      ensures cut.Some? <==> CutOf(old(Value()), through, derive).Some?
      ensures match cut
              case None => Value() == old(Value())
              case Some((kept, removed)) =>
                && kept + removed == Transcript(old(Value()), derive)
                && |kept| == CutOf(old(Value()), through, derive).value
                && Value() == old(Value()).(disk := Disk(old(disk).seqNo, kept))
    {
      if through == "" || disk.seqNo < start + |events| - 1 {
        return None;
      }
      var messages := Transcript(Value(), derive);
      var at := FirstIndex(messages, through);
      if at < 0 || !messages[at].isUser || !messages[at].stable || !AllStable(messages[..at]) {
        return None;
      }
      assert CutOf(old(Value()), through, derive) == Some(at);
      assert messages[..at] + messages[at..] == messages;
      disk := Disk(disk.seqNo, messages[..at]);
      cut := Some((messages[..at], messages[at..]));
    }

    /** What others do while the commit is awaited, one after the other. */
    method Others(window: seq<Meanwhile>)
      modifies this`events, this`cache, this`writers
      ensures Value() == During(old(Value()), window, derive)
    {
      var k := 0;
      assert window[..0] == [];
      while k < |window|
        invariant 0 <= k <= |window|
        invariant Value() == During(old(Value()), window[..k], derive)
      {
        match window[k] {
          case Appends(e) => AppendEvent(e);
          case Captures => CaptureSnapshot();
          case Reads => var _ := DerivedMessages();
        }
        k := k + 1;
        assert window[..k][..k - 1] == window[..k - 1];
      }
      assert window[..|window|] == window;
    }

    /** The part of `rollback_session` after its commit: the baseline is switched and the log reset. */
    method FinishRollback(kept: seq<Msg>)
      modifies this`baseline, this`events, this`start, this`cache
      ensures Value() == old(Value()).(baseline := kept, events := [], start := disk.seqNo + 1, cache := None)
    {
      baseline := kept;
      events, start := [], disk.seqNo + 1;
      cache := None;
    }

    method RollbackSession(through: string, window: seq<Meanwhile>) returns (removed: Option<seq<Msg>>)
      modifies this
      ensures Value() == Next(old(Value()), Rollback(through, window), derive)
      ensures removed.Some? <==> CutOf(old(Value()), through, derive).Some?
      ensures removed.Some? ==>
                Value().baseline + removed.value == Transcript(old(Value()), derive)
    {
      ghost var was := Value();
      var cut := BeginRollback(through);
      match cut {
        case None => removed := None;
        case Some((kept, rest)) =>
          ghost var begun := Value();
          Others(window);
          ghost var d := Value();
          FinishRollback(kept);
          removed := Some(rest);
          DuringAdds(was, window, derive);
          DuringAdds(begun, window, derive);
          SameDuring(was, begun.disk, window, derive);
          CutInRange(was, through, derive);
          assert Transcript(was, derive)[..|kept|] == kept;
          assert Value() == RolledBack(d, kept);
      }
    }
  }
}
