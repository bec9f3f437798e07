/** `compress_fast`: choosing which tool outputs a fast marker trims.

    The two loops are proved to choose exactly the tool results before the protected turns that still
    show their output (`ChosenExactly`, `ProtectedIsNthUser`). Once the marker is in the log, a second
    call with the same `keep_turns` chooses nothing, exactly when no chosen result has the empty id,
    which the view never trims (`SecondCallChoosesNothingIff`, `EmptyIdIsChosenAgain`). The protected
    turns keep their outputs exactly when none of them has the id of a chosen result
    (`ProtectedOutputsStayIff`, `ProtectedOutputIsHidden`). */
module CompressFast {
  import opened Prelude
  import opened ContextView
  import opened StringOrder

  const LEGACY_PLACEHOLDER := "[工具输出已压缩]"

  function PartsText(parts: seq<Part>): string {
    if parts == [] then ""
    else (if parts[0].TextPart? then parts[0].text else "") + PartsText(parts[1..])
  }

  function ResultText(output: Output): string {
    match output
    case Plain(text) => text
    case Parts(parts) => PartsText(parts)
  }

  predicate Trimmable(b: Block) {
    b.ToolResult? && ResultText(b.output) != LEGACY_PLACEHOLDER && ResultText(b.output) != PLACEHOLDER
  }

  // ---------------------------------------------------------------- the protected turns

  function Users(ms: seq<Msg>): nat {
    if ms == [] then 0 else (if ms[0].role == UserRole then 1 else 0) + Users(ms[1..])
  }

  /** The position of the `wanted`-th user message counted from the end; the end when 0 is wanted. */
  function NthUserFromEnd(ms: seq<Msg>, wanted: nat): nat {
    if ms == [] || wanted == 0 then |ms|
    else if ms[0].role == UserRole && Users(ms) == wanted then 0
    else 1 + NthUserFromEnd(ms[1..], wanted)
  }

  /** Where protection starts: the `keepTurns`-th user message from the end, the first one when there
      are fewer, the end of the list when there are none or nothing is to be kept. */
  function Protected(ms: seq<Msg>, keepTurns: int): nat {
    NthUserFromEnd(ms, Wanted(ms, keepTurns))
  }

  function Wanted(ms: seq<Msg>, keepTurns: int): nat {
    if keepTurns <= 0 then 0 else if Users(ms) < keepTurns then Users(ms) else keepTurns
  }

  lemma {:induction false} NthUserIsUser(ms: seq<Msg>, wanted: nat)
    requires wanted <= Users(ms)
    ensures var p := NthUserFromEnd(ms, wanted);
      && p <= |ms|
      && Users(ms[p..]) == wanted
      && (wanted == 0 ==> p == |ms|)
      && (wanted > 0 ==> p < |ms| && ms[p].role == UserRole)
  {
    if ms != [] && wanted > 0 && !(ms[0].role == UserRole && Users(ms) == wanted) {
      NthUserIsUser(ms[1..], wanted);
      var p := NthUserFromEnd(ms[1..], wanted);
      assert ms[1..][p..] == ms[1 + p..];
    }
  }

  /** Protection starts at a user message with exactly the kept number of turns from there on. */
  lemma {:induction false} ProtectedIsNthUser(ms: seq<Msg>, keepTurns: int)
    ensures var p := Protected(ms, keepTurns);
      && p <= |ms|
      && (keepTurns <= 0 || Users(ms) == 0 <==> p == |ms|)
      && (p < |ms| ==> ms[p].role == UserRole
                       && Users(ms[p..]) == (if Users(ms) < keepTurns then Users(ms) else keepTurns))
  {
    NthUserIsUser(ms, Wanted(ms, keepTurns));
  }

  method ProtectedStart(messages: seq<Msg>, keepTurns: int) returns (protectedStart: nat)
    ensures protectedStart == Protected(messages, keepTurns)
  {
    protectedStart := |messages|;
    if keepTurns > 0 {
      var seen: nat := 0;
      for index := |messages| downto 0
        invariant seen == Users(messages[index..]) && seen < keepTurns
        invariant index <= protectedStart <= |messages|
        invariant protectedStart == index + NthUserFromEnd(messages[index..], seen)
      {
        assert messages[index..][1..] == messages[index + 1..];
        if messages[index].role == UserRole {
          seen := seen + 1;
          protectedStart := index;
          if seen >= keepTurns {
            StopsAt(messages, index);
            return;
          }
        }
      }
      assert messages[0..] == messages;
    }
  }

  /** Earlier messages do not move a position counted from the end. */
  lemma {:induction false} StopsAt(ms: seq<Msg>, index: nat)
    requires index < |ms| && ms[index].role == UserRole
    ensures Users(ms) >= Users(ms[index..]) > 0
    ensures NthUserFromEnd(ms, Users(ms[index..])) == index
  {
    if index == 0 {
      assert ms[0..] == ms;
    } else {
      assert ms[1..][index - 1..] == ms[index..];
      StopsAt(ms[1..], index - 1);
    }
  }

  // ---------------------------------------------------------------- the chosen tool results

  function ChosenIn(content: seq<Block>): seq<Block> {
    if content == [] then []
    else One(content[0]) + ChosenIn(content[1..])
  }

  function One(b: Block): seq<Block> {
    if Trimmable(b) then [b] else []
  }

  function Chosen(ms: seq<Msg>): seq<Block> {
    if ms == [] then [] else ChosenIn(ms[0].content) + Chosen(ms[1..])
  }

  function Selection(ms: seq<Msg>, keepTurns: int): seq<Block> {
    ProtectedIsNthUser(ms, keepTurns);
    Chosen(ms[..Protected(ms, keepTurns)])
  }

  function IdsOf(blocks: seq<Block>): set<string> {
    if blocks == [] then {} else (if blocks[0].ToolResult? then {blocks[0].id} else {}) + IdsOf(blocks[1..])
  }

  lemma {:induction false} ChosenInIff(content: seq<Block>, b: Block)
    ensures b in ChosenIn(content) <==> b in content && Trimmable(b)
  {
    if content != [] {
      ChosenInIff(content[1..], b);
    }
  }

  lemma {:induction false} ChosenFrom(ms: seq<Msg>, b: Block)
    ensures b in Chosen(ms) ==> Trimmable(b) && exists k :: 0 <= k < |ms| && b in ms[k].content
  {
    if ms != [] {
      ChosenInIff(ms[0].content, b);
      ChosenFrom(ms[1..], b);
      if b in Chosen(ms[1..]) {
        var k :| 0 <= k < |ms[1..]| && b in ms[1..][k].content;
        assert ms[k + 1] == ms[1..][k];
      }
    }
  }

  lemma {:induction false} ChosenHas(ms: seq<Msg>, k: nat, b: Block)
    requires k < |ms| && b in ms[k].content && Trimmable(b)
    ensures b in Chosen(ms)
  {
    if k == 0 {
      ChosenInIff(ms[0].content, b);
    } else {
      ChosenHas(ms[1..], k - 1, b);
    }
  }

  /** Exactly the tool results before the protected turns whose output is still shown. */
  lemma ChosenExactly(ms: seq<Msg>, keepTurns: int, b: Block)
    ensures b in Selection(ms, keepTurns) <==>
            StillShows(b) && exists k :: 0 <= k < |ms| && k < Protected(ms, keepTurns) && b in ms[k].content
  {
    ProtectedIsNthUser(ms, keepTurns);
    var before := ms[..Protected(ms, keepTurns)];
    ChosenFrom(before, b);
    if Trimmable(b) {
      forall k: nat | k < |before| && b in before[k].content ensures b in Chosen(before) {
        ChosenHas(before, k, b);
      }
      forall k: nat | k < |ms| && k < Protected(ms, keepTurns) && b in ms[k].content ensures b in before[k].content {
      }
    }
    if b in Chosen(before) {
      var k :| 0 <= k < |before| && b in before[k].content;
      assert before[k] == ms[k];
    }
  }

  /** A tool result whose output is neither placeholder, that is still shown. */
  predicate StillShows(b: Block) {
    && b.ToolResult?
    && ResultText(b.output) != "[工具输出已压缩]"
    && ResultText(b.output) != "[已压缩裁剪：原始工具输出不再可见]"
  }

  lemma {:induction false} ChosenTimes(content: seq<Block>, b: Block)
    ensures multiset(ChosenIn(content))[b] == if StillShows(b) then multiset(content)[b] else 0
  {
    if content != [] {
      assert content == [content[0]] + content[1..];
      ChosenTimes(content[1..], b);
    }
  }

  lemma {:induction false} ChosenTimesAll(ms: seq<Msg>, b: Block)
    ensures multiset(Chosen(ms))[b] == if StillShows(b) then multiset(Flat(ms))[b] else 0
  {
    if ms != [] {
      var front, last := ms[..|ms| - 1], ms[|ms| - 1];
      assert ms == front + [last];
      ChosenTimesAll(front, b);
      ChosenAppend(front, last);
      ChosenTimes(last.content, b);
    }
  }

  /** Each of them is chosen as often as it stands there. */
  lemma ChosenAsOften(ms: seq<Msg>, keepTurns: int, b: Block)
    ensures Protected(ms, keepTurns) <= |ms|
    ensures multiset(Selection(ms, keepTurns))[b] ==
      if StillShows(b) then multiset(Flat(ms[..Protected(ms, keepTurns)]))[b] else 0
  {
    ProtectedIsNthUser(ms, keepTurns);
    ChosenTimesAll(ms[..Protected(ms, keepTurns)], b);
  }

  /** The text of an output is its own, or that of its text parts in order. */
  lemma {:induction false} TextOfParts(a: seq<Part>, b: seq<Part>)
    ensures ResultText(Parts(a + b)) == ResultText(Parts(a)) + ResultText(Parts(b))
    ensures forall text :: ResultText(Plain(text)) == text && ResultText(Parts([TextPart(text)])) == text
    ensures forall data :: ResultText(Parts([OtherPart(data)])) == ""
  {
    assert forall part: Part :: [part][1..] == [];
    if a == [] {
      assert a + b == b;
    } else {
      assert (a + b)[1..] == a[1..] + b;
      TextOfParts(a[1..], b);
    }
  }

  // ---------------------------------------------------------------- the call

  /** The marker: the ids in order, the number of results, and the estimates before and after. */
  datatype Outcome = NothingToTrim | Marked(ids: seq<string>, toolResults: nat, tokensBefore: int, tokensAfter: int)

  function EmptyBlock(b: Block, ids: set<string>): Block {
    if b.ToolResult? && b.id in ids then b.(output := Parts([TextPart("")])) else b
  }

  function EmptyContent(content: seq<Block>, ids: set<string>): seq<Block> {
    if content == [] then []
    else EmptyContent(content[..|content| - 1], ids) + [EmptyBlock(content[|content| - 1], ids)]
  }

  /** The messages with every output of these ids emptied, which the estimate afterwards is about. */
  function Emptied(ms: seq<Msg>, ids: set<string>): seq<Msg> {
    if ms == [] then []
    else
      var m := ms[|ms| - 1];
      Emptied(ms[..|ms| - 1], ids) + [m.(content := EmptyContent(m.content, ids))]
  }

  lemma {:induction false} EmptyContentAt(content: seq<Block>, ids: set<string>, k: nat)
    requires k < |content|
    ensures |EmptyContent(content, ids)| == |content|
    ensures EmptyContent(content, ids)[k] ==
      if content[k].ToolResult? && content[k].id in ids then ToolResult(content[k].id, Parts([TextPart("")]))
      else content[k]
  {
    if k < |content| - 1 {
      EmptyContentAt(content[..|content| - 1], ids, k);
    } else if |content| > 1 {
      EmptyContentAt(content[..|content| - 1], ids, 0);
    } else {
      assert EmptyContent(content[..0], ids) == [];
    }
  }

  /** Exactly the outputs of the results with these ids are emptied; every message and block stays in its
      place. */
  lemma {:induction false} EmptiedAt(ms: seq<Msg>, ids: set<string>, p: nat, k: nat)
    requires p < |ms| && k < |ms[p].content|
    ensures |Emptied(ms, ids)| == |ms| && |Emptied(ms, ids)[p].content| == |ms[p].content|
    ensures Emptied(ms, ids)[p] == ms[p].(content := Emptied(ms, ids)[p].content)
    ensures var b := ms[p].content[k];
      Emptied(ms, ids)[p].content[k] ==
        if b.ToolResult? && b.id in ids then ToolResult(b.id, Parts([TextPart("")])) else b
  {
    EmptiedCount(ms, ids);
    EmptiedCount(ms[..|ms| - 1], ids);
    if p < |ms| - 1 {
      EmptiedAt(ms[..|ms| - 1], ids, p, k);
    } else {
      EmptyContentAt(ms[p].content, ids, k);
    }
  }

  lemma {:induction false} EmptiedCount(ms: seq<Msg>, ids: set<string>)
    ensures |Emptied(ms, ids)| == |ms|
  {
    if ms != [] {
      EmptiedCount(ms[..|ms| - 1], ids);
    }
  }

  method CompressFast(log: seq<Msg>, keepTurns: int, estimate: seq<Msg> -> int) returns (outcome: Outcome)
    ensures var messages := Head(View(log));
      var chosen := Selection(messages, keepTurns);
      outcome == if chosen == [] then NothingToTrim
                 else Marked(Sorted(IdsOf(chosen)), |chosen|, estimate(messages),
                             estimate(Emptied(messages, IdsOf(chosen))))
  {
    var records := BuildContextView(log);
    var messages := Head(records);
    var protectedStart := ProtectedStart(messages, keepTurns);
    var toolResults := CollectBefore(messages, protectedStart, keepTurns);
    if toolResults == [] {
      outcome := NothingToTrim;
    } else {
      var trimmedIds := IdsOf(toolResults);
      var trimmed := EmptyOutputs(messages, trimmedIds);
      outcome := Marked(Sorted(trimmedIds), |toolResults|, estimate(messages), estimate(trimmed));
    }
  }

  method EmptyOutputs(messages: seq<Msg>, ids: set<string>) returns (trimmed: seq<Msg>)
    ensures trimmed == Emptied(messages, ids)
  {
    trimmed := [];
    for i := 0 to |messages|
      invariant trimmed == Emptied(messages[..i], ids)
    {
      var content: seq<Block> := [];
      for k := 0 to |messages[i].content|
        invariant content == EmptyContent(messages[i].content[..k], ids)
      {
        assert messages[i].content[..k + 1][..k] == messages[i].content[..k];
        content := content + [EmptyBlock(messages[i].content[k], ids)];
      }
      assert messages[i].content[..|messages[i].content|] == messages[i].content;
      assert messages[..i + 1][..i] == messages[..i];
      trimmed := trimmed + [messages[i].(content := content)];
    }
    assert messages[..|messages|] == messages;
  }

  method CollectIn(content: seq<Block>, found: seq<Block>) returns (toolResults: seq<Block>)
    ensures toolResults == found + ChosenIn(content)
  {
    toolResults := found;
    for i := 0 to |content|
      invariant toolResults == found + ChosenIn(content[..i])
    {
      ChosenInAppend(content[..i], content[i]);
      assert content[..i + 1] == content[..i] + [content[i]];
      if Trimmable(content[i]) {
        toolResults := toolResults + [content[i]];
      }
    }
    assert content[..|content|] == content;
  }

  method CollectBefore(messages: seq<Msg>, protectedStart: nat, keepTurns: int) returns (toolResults: seq<Block>)
    requires protectedStart == Protected(messages, keepTurns)
    ensures toolResults == Selection(messages, keepTurns)
  {
    ProtectedIsNthUser(messages, keepTurns);
    toolResults := [];
    var index := 0;
    while index < |messages|
      invariant 0 <= index <= protectedStart
      invariant toolResults == Chosen(messages[..index])
    {
      if index >= protectedStart {
        break;
      }
      toolResults := CollectIn(messages[index].content, toolResults);
      ChosenAppend(messages[..index], messages[index]);
      assert messages[..index + 1] == messages[..index] + [messages[index]];
      index := index + 1;
    }
    assert index == protectedStart;
  }

  lemma {:induction false} ChosenInAppend(content: seq<Block>, b: Block)
    ensures ChosenIn(content + [b]) == ChosenIn(content) + (if Trimmable(b) then [b] else [])
  {
    if content != [] {
      assert (content + [b])[1..] == content[1..] + [b];
      ChosenInAppend(content[1..], b);
    }
  }

  lemma {:induction false} ChosenAppend(ms: seq<Msg>, m: Msg)
    ensures Chosen(ms + [m]) == Chosen(ms) + ChosenIn(m.content)
  {
    if ms != [] {
      assert (ms + [m])[1..] == ms[1..] + [m];
      ChosenAppend(ms[1..], m);
    }
  }

  // ---------------------------------------------------------------- the second call

  /** The chosen results that a view trimming `ids` leaves alone. */
  function Kept(blocks: seq<Block>, ids: set<string>): seq<Block> {
    if blocks == [] then []
    else KeptOne(blocks[0], ids) + Kept(blocks[1..], ids)
  }

  function KeptOne(b: Block, ids: set<string>): seq<Block> {
    if b.ToolResult? && b.id in ids then [] else [b]
  }

  lemma {:induction false} KeptConcat(a: seq<Block>, b: seq<Block>, ids: set<string>)
    ensures Kept(a + b, ids) == Kept(a, ids) + Kept(b, ids)
  {
    if a == [] {
      assert a + b == b;
    } else {
      assert (a + b)[1..] == a[1..] + b;
      KeptConcat(a[1..], b, ids);
    }
  }

  lemma TrimmedIsNotTrimmable(b: Block, ids: set<string>)
    requires b.ToolResult? && b.id in ids
    ensures !Trimmable(TrimBlock(b, ids))
  {
    var part := TextPart(PLACEHOLDER);
    assert [part][1..] == [];
    assert PartsText([part]) == PLACEHOLDER + PartsText([]);
  }

  /** Trimming more ids removes from the choice exactly the results with those ids. */
  lemma {:induction false} MoreTrimmedIn(content: seq<Block>, ids: set<string>, more: set<string>)
    requires ids <= more
    ensures ChosenIn(TrimContent(content, more)) == Kept(ChosenIn(TrimContent(content, ids)), more)
  {
    if content != [] {
      assert TrimContent(content, more)[1..] == TrimContent(content[1..], more);
      assert TrimContent(content, ids)[1..] == TrimContent(content[1..], ids);
      MoreTrimmedIn(content[1..], ids, more);
      var b := content[0];
      KeptConcat(One(TrimBlock(b, ids)), ChosenIn(TrimContent(content[1..], ids)), more);
      assert One(TrimBlock(b, ids))[|One(TrimBlock(b, ids))|..] == [];
      if b.ToolResult? && b.id in more {
        TrimmedIsNotTrimmable(b, more);
        if b.id in ids {
          TrimmedIsNotTrimmable(b, ids);
        }
      }
    }
  }

  lemma {:induction false} MoreTrimmed(ms: seq<Msg>, ids: set<string>, more: set<string>)
    requires ids <= more
    ensures Chosen(TrimAll(ms, more)) == Kept(Chosen(TrimAll(ms, ids)), more)
  {
    if ms != [] {
      assert TrimAll(ms, more)[1..] == TrimAll(ms[1..], more);
      assert TrimAll(ms, ids)[1..] == TrimAll(ms[1..], ids);
      MoreTrimmed(ms[1..], ids, more);
      MoreTrimmedIn(ms[0].content, ids, more);
      KeptConcat(ChosenIn(TrimContent(ms[0].content, ids)), Chosen(TrimAll(ms[1..], ids)), more);
    }
  }

  /** What is chosen from a trimmed list has none of the trimmed ids. */
  lemma {:induction false} ChosenAreUntrimmedIn(content: seq<Block>, ids: set<string>)
    ensures IdsOf(ChosenIn(TrimContent(content, ids))) !! ids
  {
    if content != [] {
      assert TrimContent(content, ids)[1..] == TrimContent(content[1..], ids);
      ChosenAreUntrimmedIn(content[1..], ids);
      var b := content[0];
      IdsOfConcat(One(TrimBlock(b, ids)), ChosenIn(TrimContent(content[1..], ids)));
      if b.ToolResult? && b.id in ids {
        TrimmedIsNotTrimmable(b, ids);
      }
    }
  }

  lemma {:induction false} IdsOfConcat(a: seq<Block>, b: seq<Block>)
    ensures IdsOf(a + b) == IdsOf(a) + IdsOf(b)
  {
    if a == [] {
      assert a + b == b;
    } else {
      assert (a + b)[1..] == a[1..] + b;
      IdsOfConcat(a[1..], b);
    }
  }

  lemma {:induction false} ChosenAreUntrimmed(ms: seq<Msg>, ids: set<string>)
    ensures IdsOf(Chosen(TrimAll(ms, ids))) !! ids
  {
    if ms != [] {
      assert TrimAll(ms, ids)[1..] == TrimAll(ms[1..], ids);
      ChosenAreUntrimmed(ms[1..], ids);
      ChosenAreUntrimmedIn(ms[0].content, ids);
      IdsOfConcat(ChosenIn(TrimContent(ms[0].content, ids)), Chosen(TrimAll(ms[1..], ids)));
    }
  }

  predicate AllResults(blocks: seq<Block>) {
    blocks == [] || (blocks[0].ToolResult? && AllResults(blocks[1..]))
  }

  lemma {:induction false} ChosenInAreResults(content: seq<Block>)
    ensures AllResults(ChosenIn(content))
  {
    if content != [] {
      ChosenInAreResults(content[1..]);
      ResultsConcat(One(content[0]), ChosenIn(content[1..]));
    }
  }

  lemma {:induction false} ResultsConcat(a: seq<Block>, b: seq<Block>)
    requires AllResults(a) && AllResults(b)
    ensures AllResults(a + b)
  {
    if a == [] {
      assert a + b == b;
    } else {
      assert (a + b)[1..] == a[1..] + b;
      ResultsConcat(a[1..], b);
    }
  }

  lemma {:induction false} ChosenAreResults(ms: seq<Msg>)
    ensures AllResults(Chosen(ms))
  {
    if ms != [] {
      ChosenAreResults(ms[1..]);
      ChosenInAreResults(ms[0].content);
      ResultsConcat(ChosenIn(ms[0].content), Chosen(ms[1..]));
    }
  }

  /** Nothing is kept exactly when every id is trimmed. */
  lemma {:induction false} KeptIsEmptyIff(blocks: seq<Block>, ids: set<string>)
    requires AllResults(blocks)
    ensures Kept(blocks, ids) == [] <==> IdsOf(blocks) <= ids
  {
    if blocks != [] {
      KeptIsEmptyIff(blocks[1..], ids);
    }
  }

  predicate NoResults(content: seq<Block>) {
    content == [] || (!content[0].ToolResult? && NoResults(content[1..]))
  }

  lemma {:induction false} NoResultsNothingChosen(content: seq<Block>, ids: set<string>)
    requires NoResults(content)
    ensures ChosenIn(TrimContent(content, ids)) == []
  {
    if content != [] {
      assert TrimContent(content, ids)[1..] == TrimContent(content[1..], ids);
      NoResultsNothingChosen(content[1..], ids);
    }
  }

  /** The fast marker of a call that chose `chosen`: an assistant message listing their ids. */
  predicate IsFastMarker(k: Msg, chosen: seq<Block>) {
    && k.role == AssistantRole && k.name == CompactFast && NoResults(k.content)
    && k.meta.toolResultIds == Sorted(IdsOf(chosen)) && k.meta.toolResults == |chosen|
  }

  lemma MarkerTrims(log: seq<Msg>, k: Msg, chosen: seq<Block>)
    requires IsFastMarker(k, chosen) && chosen != [] && AllResults(chosen)
    ensures TrimIds(log + [k]) == TrimIds(log) + (IdsOf(chosen) - {""})
  {
    assert (log + [k])[..|log|] == log;
    assert chosen[0].id in IdsOf(chosen);
    SortedHas(IdsOf(chosen), chosen[0].id);
    forall id
      ensures id in NonEmpty(k.meta.toolResultIds) <==> id in IdsOf(chosen) - {""}
    {
      SortedHas(IdsOf(chosen), id);
    }
  }

  lemma {:induction false} UsersAppend(ms: seq<Msg>, k: Msg, wanted: nat)
    requires k.role != UserRole
    ensures Users(ms + [k]) == Users(ms)
    ensures NthUserFromEnd(ms + [k], wanted)
         == NthUserFromEnd(ms, wanted) + (if wanted == 0 || wanted > Users(ms) then 1 else 0)
  {
    if ms == [] {
      assert ms + [k] == [k];
      assert [k][1..] == [];
    } else {
      assert (ms + [k])[1..] == ms[1..] + [k];
      UsersAppend(ms[1..], k, wanted);
    }
  }

  lemma {:induction false} UsersOfTrimmed(ms: seq<Msg>, ids: set<string>, wanted: nat)
    ensures Users(TrimAll(ms, ids)) == Users(ms)
    ensures NthUserFromEnd(TrimAll(ms, ids), wanted) == NthUserFromEnd(ms, wanted)
  {
    if ms != [] {
      assert TrimAll(ms, ids)[1..] == TrimAll(ms[1..], ids);
      UsersOfTrimmed(ms[1..], ids, wanted);
    }
  }

  /** A marker at the end and other trimmed ids leave the unprotected messages as they were. */
  lemma SameUnprotected(raw: seq<Msg>, k: Msg, ids: set<string>, more: set<string>, keepTurns: int)
    requires k.role != UserRole
    ensures Protected(raw, keepTurns) <= |raw|
    ensures Protected(TrimAll(raw, ids), keepTurns) == Protected(raw, keepTurns)
    ensures Protected(TrimAll(raw + [k], more), keepTurns)
         == Protected(raw, keepTurns) + (if Protected(raw, keepTurns) == |raw| then 1 else 0)
  {
    var wanted := Wanted(raw, keepTurns);
    UsersOfTrimmed(raw, ids, wanted);
    UsersOfTrimmed(raw + [k], more, wanted);
    UsersAppend(raw, k, wanted);
    NthUserIsUser(raw, wanted);
  }

  lemma SelectionOfTrimmed(raw: seq<Msg>, ids: set<string>, keepTurns: int)
    ensures Protected(raw, keepTurns) <= |raw|
    ensures Selection(TrimAll(raw, ids), keepTurns) == Chosen(TrimAll(raw[..Protected(raw, keepTurns)], ids))
  {
    ProtectedIsNthUser(raw, keepTurns);
    UsersOfTrimmed(raw, ids, Wanted(raw, keepTurns));
    var p := Protected(raw, keepTurns);
    assert TrimAll(raw, ids)[..p] == TrimAll(raw[..p], ids);
  }

  lemma SelectionWithMarker(raw: seq<Msg>, k: Msg, ids: set<string>, more: set<string>, keepTurns: int)
    requires k.role != UserRole && NoResults(k.content) && ids <= more
    ensures Selection(TrimAll(raw + [k], more), keepTurns) == Kept(Selection(TrimAll(raw, ids), keepTurns), more)
  {
    var p := Protected(raw, keepTurns);
    SameUnprotected(raw, k, ids, more, keepTurns);
    SelectionOfTrimmed(raw, ids, keepTurns);
    var shown := TrimAll(raw + [k], more);
    MoreTrimmed(raw[..p], ids, more);
    if p == |raw| {
      assert shown[..p + 1] == TrimAll(raw[..p], more) + [Trim(k, more)];
      ChosenAppend(TrimAll(raw[..p], more), Trim(k, more));
      NoResultsNothingChosen(k.content, more);
    } else {
      assert shown[..p] == TrimAll(raw[..p], more);
    }
  }

  // ---------------------------------------------------------------- the view after the marker

  lemma {:induction false} WithoutAppend(ms: seq<Msg>, k: Msg, id: string)
    requires k.id != id
    ensures WithoutId(ms + [k], id) == WithoutId(ms, id) + [k]
  {
    if ms == [] {
      assert ms + [k] == [k];
      assert [k][1..] == [];
    } else {
      assert (ms + [k])[1..] == ms[1..] + [k];
      WithoutAppend(ms[1..], k, id);
    }
  }

  /** An ordinary message is shown after everything shown so far. */
  lemma SelectedAppend(log: seq<Msg>, k: Msg)
    requires MarkersLookBack(log) && k.name != Compact && k.id !in Ids(log)
    ensures Selected(log + [k]) == Selected(log) + [k]
  {
    ArrivalKeepsBoundary(log, k);
    AnchorIsLast(log);
    var a := Anchor(log);
    if a >= 0 {
      BoundaryKnown(log);
      assert (log + [k])[a] == log[a];
      assert Ids(log)[a] == log[a].id;
      SelectFromAppend(log, k, a, Boundary(log));
    }
  }

  lemma SelectFromAppend(log: seq<Msg>, k: Msg, a: nat, t: nat)
    requires a < |log| && t < |log| && k.id != log[a].id
    ensures SelectFrom(log + [k], a, t) == SelectFrom(log, a, t) + [k]
  {
    assert (log + [k])[t + 1..] == log[t + 1..] + [k];
    WithoutAppend(log[t + 1..], k, log[a].id);
  }

  /** What a call works on: the messages shown without a leading summary. */
  function Active(log: seq<Msg>): seq<Msg> {
    Head(View(log))
  }

  lemma ActiveIsTrimmed(log: seq<Msg>)
    ensures Active(log) == TrimAll(Head(Selected(log)), TrimIds(log))
  {
    var s := Selected(log);
    if s != [] && s[0].name == Compact {
      assert View(log)[1..] == TrimAll(s[1..], TrimIds(log));
    }
  }

  lemma ActiveAppend(log: seq<Msg>, k: Msg)
    requires MarkersLookBack(log) && k.name == CompactFast && k.id !in Ids(log)
    ensures Active(log + [k]) == TrimAll(Head(Selected(log)) + [k], TrimIds(log + [k]))
  {
    SelectedAppend(log, k);
    ActiveIsTrimmed(log + [k]);
    var s := Selected(log);
    if s != [] {
      assert (s + [k])[0] == s[0];
      assert (s + [k])[1..] == s[1..] + [k];
    } else {
      assert s + [k] == [k];
    }
  }

  /** Right after a call's marker a second call chooses exactly what the first one chose under an
      empty id, so it chooses nothing if and only if no chosen result had one. */
  lemma SecondCallChoosesNothingIff(log: seq<Msg>, k: Msg, keepTurns: int)
    requires MarkersLookBack(log) && k.id !in Ids(log)
    requires Selection(Active(log), keepTurns) != []
    requires IsFastMarker(k, Selection(Active(log), keepTurns))
    ensures Selection(Active(log + [k]), keepTurns) == []
       <==> "" !in IdsOf(Selection(Active(log), keepTurns))
  {
    var raw, ids, more := Head(Selected(log)), TrimIds(log), TrimIds(log + [k]);
    ActiveIsTrimmed(log);
    var chosen := Selection(Active(log), keepTurns);
    SelectionOfTrimmed(raw, ids, keepTurns);
    var before := raw[..Protected(raw, keepTurns)];
    ChosenAreUntrimmed(before, ids);
    ChosenAreResults(TrimAll(before, ids));
    MarkerTrims(log, k, chosen);
    ActiveAppend(log, k);
    SelectionWithMarker(raw, k, ids, more, keepTurns);
    KeptIsEmptyIff(chosen, more);
  }

  lemma ActiveOfOne(m: Msg)
    requires m.role == AssistantRole && m.name == Default
    ensures MarkersLookBack([m]) && Ids([m]) == [m.id] && Active([m]) == [m]
  {
    var log := [m];
    assert log[..0] == [] && [] + [m.id] == [m.id];
    assert TrimIds([]) == {} && TrimIds(log) == {};
    assert Anchor(log) == -1;
    assert TrimContent(m.content, {}) == m.content;
    ActiveIsTrimmed(log);
  }

  lemma SelectionOfOne(m: Msg, keepTurns: int)
    requires m.role == AssistantRole && |m.content| == 1 && Trimmable(m.content[0])
    ensures Selection([m], keepTurns) == m.content
  {
    assert [m][1..] == [] && m.content[1..] == [] && [m][..1] == [m];
    assert Users([m]) == 0 && Protected([m], keepTurns) == 1;
    assert ChosenIn(m.content) == m.content;
    assert Chosen([m]) == m.content + [];
  }

  /** A log of one tool result with an empty id: both calls choose it. */
  lemma EmptyIdIsChosenAgain(m: Msg, k: Msg, text: string, keepTurns: int)
    requires m.role == AssistantRole && m.name == Default && m.content == [ToolResult("", Plain(text))]
    requires text != LEGACY_PLACEHOLDER && text != PLACEHOLDER
    requires k.id != m.id && IsFastMarker(k, m.content)
    ensures Selection(Active([m]), keepTurns) == m.content
    ensures Selection(Active([m] + [k]), keepTurns) != []
  {
    ActiveOfOne(m);
    SelectionOfOne(m, keepTurns);
    SecondCallChoosesNothingIff([m], k, keepTurns);
  }

  // ---------------------------------------------------------------- the protected turns after the marker

  predicate IsPlaceholder(output: Output) {
    output == Parts([TextPart(PLACEHOLDER)])
  }

  /** Every result under these ids is hidden already. */
  predicate HiddenIn(content: seq<Block>, ids: set<string>) {
    content == []
    || (HiddenIn(content[1..], ids)
        && (content[0].ToolResult? && content[0].id in ids ==> IsPlaceholder(content[0].output)))
  }

  predicate Hidden(ms: seq<Msg>, ids: set<string>) {
    ms == [] || (Hidden(ms[1..], ids) && HiddenIn(ms[0].content, ids))
  }

  lemma SameByParts<T>(a: seq<T>, b: seq<T>)
    requires |a| == |b| > 0
    ensures a == b <==> a[0] == b[0] && a[1..] == b[1..]
  {
    assert a == [a[0]] + a[1..] && b == [b[0]] + b[1..];
  }

  lemma {:induction false} TrimContentIsIdentityIff(content: seq<Block>, ids: set<string>)
    ensures TrimContent(content, ids) == content <==> HiddenIn(content, ids)
  {
    if content != [] {
      TrimContentIsIdentityIff(content[1..], ids);
      assert TrimContent(content, ids)[1..] == TrimContent(content[1..], ids);
      SameByParts(TrimContent(content, ids), content);
    }
  }

  lemma {:induction false} TrimAllIsIdentityIff(ms: seq<Msg>, ids: set<string>)
    ensures TrimAll(ms, ids) == ms <==> Hidden(ms, ids)
  {
    if ms != [] {
      TrimAllIsIdentityIff(ms[1..], ids);
      TrimContentIsIdentityIff(ms[0].content, ids);
      TrimAllParts(ms, ids);
      SameByParts(TrimAll(ms, ids), ms);
    }
  }

  lemma TrimAllParts(ms: seq<Msg>, ids: set<string>)
    requires ms != []
    ensures TrimAll(ms, ids)[0] == ms[0].(content := TrimContent(ms[0].content, ids))
    ensures TrimAll(ms, ids)[1..] == TrimAll(ms[1..], ids)
  {
  }

  lemma TrimInTwo(ms: seq<Msg>, ids: set<string>, more: set<string>)
    ensures TrimAll(TrimAll(ms, ids), more) == TrimAll(ms, ids + more)
  {
    forall p | 0 <= p < |ms|
      ensures TrimContent(TrimContent(ms[p].content, ids), more) == TrimContent(ms[p].content, ids + more)
    {
    }
  }

  lemma ShownAfterMarker(log: seq<Msg>, k: Msg, chosen: seq<Block>)
    requires MarkersLookBack(log) && k.id !in Ids(log) && k.name == CompactFast
    requires TrimIds(log + [k]) == TrimIds(log) + (IdsOf(chosen) - {""})
    ensures Active(log + [k]) == TrimAll(Active(log), IdsOf(chosen) - {""}) + [Trim(k, TrimIds(log + [k]))]
  {
    var raw, ids, more := Head(Selected(log)), TrimIds(log), TrimIds(log + [k]);
    ActiveIsTrimmed(log);
    ActiveAppend(log, k);
    TrimInTwo(raw, ids, IdsOf(chosen) - {""});
    assert TrimAll(raw + [k], more) == TrimAll(raw, more) + [Trim(k, more)];
  }

  lemma TailShown(shown: seq<Msg>, after: seq<Msg>, p: nat, k: Msg, ids: set<string>)
    requires p <= |shown| && after == TrimAll(shown, ids) + [k]
    ensures after[p..|shown|] == shown[p..] <==> Hidden(shown[p..], ids)
  {
    TrimAllIsIdentityIff(shown[p..], ids);
    assert after[p..|shown|] == TrimAll(shown[p..], ids);
  }

  /** The call promises to leave the protected turns alone. After its marker they are shown as before
      if and only if every result in them that has the non-empty id of a chosen one was hidden
      already. */
  lemma ProtectedOutputsStayIff(log: seq<Msg>, k: Msg, keepTurns: int)
    requires MarkersLookBack(log) && k.id !in Ids(log)
    requires Selection(Active(log), keepTurns) != []
    requires IsFastMarker(k, Selection(Active(log), keepTurns))
    ensures var shown, chosen := Active(log), Selection(Active(log), keepTurns);
      && Protected(shown, keepTurns) <= |shown| && |Active(log + [k])| == |shown| + 1
      && (Active(log + [k])[Protected(shown, keepTurns)..|shown|] == shown[Protected(shown, keepTurns)..] <==>
            Hidden(shown[Protected(shown, keepTurns)..], IdsOf(chosen) - {""}))
  {
    var shown, chosen := Active(log), Selection(Active(log), keepTurns);
    var p := Protected(shown, keepTurns);
    ProtectedIsNthUser(shown, keepTurns);
    ChosenAreResults(shown[..p]);
    MarkerTrims(log, k, chosen);
    ShownAfterMarker(log, k, chosen);
    TailShown(shown, Active(log + [k]), p, Trim(k, TrimIds(log + [k])), IdsOf(chosen) - {""});
  }
  predicate IsResultOf(m: Msg, id: string, text: string) {
    && m.role == AssistantRole && m.name == Default && m.content == [ToolResult(id, Plain(text))]
    && text != LEGACY_PLACEHOLDER && text != PLACEHOLDER
  }

  /** An old result, a user's turn and a result of that turn under the same id. */
  predicate RepeatsId(a: Msg, u: Msg, b: Msg, id: string, earlier: string, recent: string) {
    && IsResultOf(a, id, earlier) && IsResultOf(b, id, recent)
    && u.role == UserRole && u.name == Default && u.content == []
  }

  lemma NothingTrimmed(ms: seq<Msg>)
    ensures TrimAll(ms, {}) == ms
  {
    forall p | 0 <= p < |ms|
      ensures TrimContent(ms[p].content, {}) == ms[p].content
    {
    }
  }

  lemma ActiveOfThree(a: Msg, u: Msg, b: Msg)
    requires a.name == Default && u.name == Default && b.name == Default
    ensures MarkersLookBack([a, u, b]) && Ids([a, u, b]) == [a.id, u.id, b.id] && Active([a, u, b]) == [a, u, b]
  {
    var log := [a, u, b];
    assert log[..2] == [a, u] && [a, u][..1] == [a] && [a][..0] == [];
    assert Ids([a]) == [a.id] && Ids([a, u]) == [a.id, u.id];
    assert TrimIds([]) == {} && TrimIds([a]) == {} && TrimIds([a, u]) == {} && TrimIds(log) == {};
    assert Anchor([]) == -1 && Anchor([a]) == -1 && Anchor([a, u]) == -1 && Anchor(log) == -1;
    assert MarkersLookBack([]) && MarkersLookBack([a]) && MarkersLookBack([a, u]);
    NothingTrimmed(log);
    ActiveIsTrimmed(log);
  }

  lemma SelectionOfThree(a: Msg, u: Msg, b: Msg)
    requires a.role == AssistantRole && u.role == UserRole && b.role == AssistantRole
    requires |a.content| == 1 && Trimmable(a.content[0])
    ensures Protected([a, u, b], 1) == 1 && Selection([a, u, b], 1) == a.content
  {
    var log := [a, u, b];
    assert log[1..] == [u, b] && [u, b][1..] == [b] && [b][1..] == [];
    assert Users([b]) == 0 && Users([u, b]) == 1 && Users(log) == 1;
    assert NthUserFromEnd([u, b], 1) == 0;
    assert Protected(log, 1) == 1 && log[..1] == [a];
    SelectionOfOne(a, 0);
    assert [a][..1] == [a] && Chosen([a]) == a.content;
  }

  lemma NotHidden(u: Msg, b: Msg, id: string)
    requires |b.content| == 1 && b.content[0].ToolResult? && b.content[0].id == id
    requires !IsPlaceholder(b.content[0].output)
    ensures !Hidden([u, b], {id})
  {
    assert [u, b][1..] == [b];
  }

  lemma OneId(content: seq<Block>, id: string)
    requires |content| == 1 && content[0].ToolResult? && content[0].id == id && id != ""
    ensures IdsOf(content) - {""} == {id}
  {
    assert content[1..] == [];
  }

  lemma HiddenAfterMarker(log: seq<Msg>, k: Msg, keepTurns: int, shown: seq<Msg>, chosen: seq<Block>, p: nat,
                          ids: set<string>)
    requires MarkersLookBack(log) && k.id !in Ids(log) && shown == Active(log)
    requires chosen == Selection(shown, keepTurns) != [] && IsFastMarker(k, chosen) && ids == IdsOf(chosen) - {""}
    requires p == Protected(shown, keepTurns) <= |shown| && !Hidden(shown[p..], ids)
    ensures |Active(log + [k])| == |shown| + 1 && Active(log + [k])[p..|shown|] != shown[p..]
  {
    ProtectedOutputsStayIff(log, k, keepTurns);
  }

  /** There the protected result is hidden after the marker. */
  lemma ProtectedOutputIsHidden(a: Msg, u: Msg, b: Msg, k: Msg, id: string, earlier: string, recent: string)
    requires id != "" && RepeatsId(a, u, b, id, earlier, recent)
    requires k.id !in {a.id, u.id, b.id} && IsFastMarker(k, a.content)
    ensures Selection(Active([a, u, b]), 1) == a.content && Protected(Active([a, u, b]), 1) == 1
    ensures |Active([a, u, b] + [k])| == 4
    ensures Active([a, u, b] + [k])[1..3] != [u, b]
  {
    ActiveOfThree(a, u, b);
    SelectionOfThree(a, u, b);
    OneId(a.content, id);
    NotHidden(u, b, id);
    assert [a, u, b][1..] == [u, b];
    HiddenAfterMarker([a, u, b], k, 1, [a, u, b], a.content, 1, {id});
  }
}
