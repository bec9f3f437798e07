/** `build_context_view`: the projection of a full message log to what the model is shown.

    The latest summary marker replaces everything up to the message it names; fast markers replace
    tool outputs by a placeholder. The builder's loops are proved to compute `View`. About the view:
    its exact shape (`ViewShape`), exactly when it shows one summary (`OneSummaryIff`) and exactly
    when building it again changes nothing (`RebuildIsIdentityIff`). Over every run of arrivals and
    single-flight compactions the boundary moves strictly forward and nothing after it is lost
    (`EveryRunKeeps`, `FinishAdvances`, `NothingAfterTheBoundaryIsLost`). What fast markers trim is said by
    `ListTrims` and `CountTrimsFirst`, what the view makes of it by `OutputsAreShownUnless`. */
module ContextView {
  import opened Prelude

  datatype Role = UserRole | AssistantRole | SystemRole

  datatype Name = Default | Compact | CompactFast | OtherName(name: string)

  datatype Part = TextPart(text: string) | OtherPart(data: string)

  datatype Output = Plain(text: string) | Parts(parts: seq<Part>)

  datatype Block = ToolResult(id: string, output: Output) | OtherBlock(data: string)

  /** The `context_compact` metadata of a marker; other messages carry `NoMeta`. */
  datatype Meta = Meta(throughId: string, toolResultIds: seq<string>, toolResults: int)

  const NoMeta := Meta("", [], 0)

  datatype Msg = Msg(id: string, role: Role, name: Name, content: seq<Block>, meta: Meta)

  const PLACEHOLDER := "[已压缩裁剪：原始工具输出不再可见]"

  predicate IsSummary(m: Msg) {
    m.role == UserRole && m.name == Compact
  }

  // ---------------------------------------------------------------- what to trim

  function BlockIds(content: seq<Block>, trimmed: set<string>): seq<string> {
    if content == [] then []
    else
      var last := content[|content| - 1];
      BlockIds(content[..|content| - 1], trimmed)
      + (if last.ToolResult? && last.id !in trimmed then [last.id] else [])
  }

  /** The ids of all tool results in `ms` that are not in `trimmed`, in order. */
  function Eligible(ms: seq<Msg>, trimmed: set<string>): seq<string> {
    if ms == [] then [] else Eligible(ms[..|ms| - 1], trimmed) + BlockIds(ms[|ms| - 1].content, trimmed)
  }

  function NonEmpty(ids: seq<string>): set<string> {
    set id | id in ids && id != ""
  }

  function Take(ids: seq<string>, count: int): set<string> {
    var taken := if count < 0 then [] else if count < |ids| then ids[..count] else ids;
    set id | id in taken
  }

  /** What one message adds to the trimmed ids, given the messages before it. */
  function Trimming(m: Msg, before: seq<Msg>, trimmed: set<string>): set<string> {
    if m.name != CompactFast then {}
    else if m.meta.toolResultIds != [] then NonEmpty(m.meta.toolResultIds)
    else if m.meta.toolResults > 0 then Take(Eligible(before, trimmed), m.meta.toolResults)
    else {}
  }

  function TrimIds(ms: seq<Msg>): set<string> {
    if ms == [] then {}
    else
      var front := ms[..|ms| - 1];
      var trimmed := TrimIds(front);
      trimmed + Trimming(ms[|ms| - 1], front, trimmed)
  }

  function TrimBlock(b: Block, ids: set<string>): Block {
    if b.ToolResult? && b.id in ids then b.(output := Parts([TextPart(PLACEHOLDER)])) else b
  }

  function TrimContent(content: seq<Block>, ids: set<string>): (r: seq<Block>)
    ensures |r| == |content| && forall k :: 0 <= k < |r| ==> r[k] == TrimBlock(content[k], ids)
  {
    seq(|content|, k requires 0 <= k < |content| => TrimBlock(content[k], ids))
  }

  function Trim(m: Msg, ids: set<string>): Msg {
    m.(content := TrimContent(m.content, ids))
  }

  function TrimAll(ms: seq<Msg>, ids: set<string>): (r: seq<Msg>)
    ensures |r| == |ms| && forall k :: 0 <= k < |r| ==> r[k] == Trim(ms[k], ids)
  {
    seq(|ms|, k requires 0 <= k < |ms| => Trim(ms[k], ids))
  }

  // ---------------------------------------------------------------- what to show

  /** The position of the last summary marker, or -1. */
  function Anchor(ms: seq<Msg>): int {
    if ms == [] then -1
    else if IsSummary(ms[|ms| - 1]) then |ms| - 1
    else Anchor(ms[..|ms| - 1])
  }

  /** The first position of the message `id`, or -1. */
  function Position(ms: seq<Msg>, id: string): int {
    if ms == [] then -1
    else if ms[0].id == id then 0
    else
      var later := Position(ms[1..], id);
      if later < 0 then -1 else later + 1
  }

  function WithoutId(ms: seq<Msg>, id: string): seq<Msg> {
    if ms == [] then []
    else (if ms[0].id == id then [] else [ms[0]]) + WithoutId(ms[1..], id)
  }

  lemma {:induction false} AnchorIsLast(ms: seq<Msg>)
    ensures var a := Anchor(ms);
      && -1 <= a < |ms|
      && (a >= 0 ==> IsSummary(ms[a]))
      && forall p :: a < p < |ms| ==> !IsSummary(ms[p])
  {
    if ms != [] && !IsSummary(ms[|ms| - 1]) {
      AnchorIsLast(ms[..|ms| - 1]);
    }
  }

  lemma {:induction false} PositionIsFirst(ms: seq<Msg>, id: string)
    ensures var p := Position(ms, id);
      && -1 <= p < |ms|
      && (p >= 0 ==> ms[p].id == id)
      && forall k :: 0 <= k < (if p < 0 then |ms| else p) ==> ms[k].id != id
  {
    if ms != [] && ms[0].id != id {
      PositionIsFirst(ms[1..], id);
    }
  }

  function Selected(ms: seq<Msg>): seq<Msg> {
    var a := Anchor(ms);
    if a < 0 || a >= |ms| then ms else SelectFrom(ms, a, Position(ms, ms[a].meta.throughId))
  }

  /** The marker at `a`, then what follows the message at `t` without the marker. */
  function SelectFrom(ms: seq<Msg>, a: nat, t: int): seq<Msg>
    requires a < |ms|
  {
    if 0 <= t < |ms| then [ms[a]] + WithoutId(ms[t + 1..], ms[a].id) else [ms[a]] + ms[a + 1..]
  }

  function View(ms: seq<Msg>): seq<Msg> {
    TrimAll(Selected(ms), TrimIds(ms))
  }

  // ---------------------------------------------------------------- the builder's loops

  method BuildContextView(messages: seq<Msg>) returns (view: seq<Msg>)
    ensures view == View(messages)
  {
    var trimIds := CollectTrimIds(messages);
    var anchorIndex := FindAnchor(messages);
    if anchorIndex >= 0 {
      var throughIndex := Position(messages, messages[anchorIndex].meta.throughId);
      view := SelectFrom(messages, anchorIndex, throughIndex);
    } else {
      view := messages;
    }
    view := TrimAll(view, trimIds);
  }

  method FindAnchor(messages: seq<Msg>) returns (anchorIndex: int)
    ensures anchorIndex == Anchor(messages) && -1 <= anchorIndex < |messages|
  {
    anchorIndex := -1;
    for index := 0 to |messages|
      invariant anchorIndex == Anchor(messages[..index]) && -1 <= anchorIndex < index
    {
      assert messages[..index + 1][..index] == messages[..index];
      if IsSummary(messages[index]) {
        anchorIndex := index;
      }
    }
    assert messages[..|messages|] == messages;
  }

  method CollectTrimIds(messages: seq<Msg>) returns (trimIds: set<string>)
    ensures trimIds == TrimIds(messages)
  {
    trimIds := {};
    for index := 0 to |messages|
      invariant trimIds == TrimIds(messages[..index])
    {
      assert messages[..index + 1][..index] == messages[..index];
      var message := messages[index];
      if message.name == CompactFast {
        if message.meta.toolResultIds != [] {
          trimIds := trimIds + NonEmpty(message.meta.toolResultIds);
        } else if message.meta.toolResults > 0 {
          var eligible := Eligible(messages[..index], trimIds);
          trimIds := trimIds + Take(eligible, message.meta.toolResults);
        }
      }
    }
    assert messages[..|messages|] == messages;
  }

  // ---------------------------------------------------------------- the shape of the view

  function Ids(ms: seq<Msg>): seq<string> {
    seq(|ms|, k requires 0 <= k < |ms| => ms[k].id)
  }

  predicate UniqueIds(ms: seq<Msg>) {
    Distinct(Ids(ms))
  }

  predicate Distinct(ids: seq<string>) {
    ids == [] || (Distinct(ids[..|ids| - 1]) && ids[|ids| - 1] !in ids[..|ids| - 1])
  }

  lemma {:induction false} DistinctAt(ids: seq<string>, i: nat, j: nat)
    requires Distinct(ids) && i < |ids| && j < |ids| && i != j
    ensures ids[i] != ids[j]
  {
    if i < |ids| - 1 && j < |ids| - 1 {
      DistinctAt(ids[..|ids| - 1], i, j);
    } else {
      var other := if i < j then i else j;
      assert ids[..|ids| - 1][other] == ids[other];
    }
  }

  /** The position up to which the latest marker speaks, -1 when there is none or it is unknown. */
  function Boundary(ms: seq<Msg>): int {
    var a := Anchor(ms);
    if 0 <= a < |ms| then Position(ms, ms[a].meta.throughId) else -1
  }

  /** The latest marker speaks about messages before it. */
  ghost predicate LooksBack(ms: seq<Msg>) {
    Anchor(ms) >= 0 ==> Boundary(ms) < Anchor(ms)
  }

  lemma {:induction false} WithoutAbsent(ms: seq<Msg>, id: string)
    requires forall k :: 0 <= k < |ms| ==> ms[k].id != id
    ensures WithoutId(ms, id) == ms
  {
    if ms != [] {
      WithoutAbsent(ms[1..], id);
    }
  }

  lemma {:induction false} WithoutOne(ms: seq<Msg>, k: nat)
    requires k < |ms| && forall j :: 0 <= j < |ms| && j != k ==> ms[j].id != ms[k].id
    ensures WithoutId(ms, ms[k].id) == ms[..k] + ms[k + 1..]
  {
    if k == 0 {
      WithoutAbsent(ms[1..], ms[0].id);
    } else {
      assert ms[1..][k - 1] == ms[k];
      WithoutOne(ms[1..], k - 1);
      assert ms[..k] + ms[k + 1..] == [ms[0]] + (ms[1..][..k - 1] + ms[1..][k..]);
    }
  }

  /** The marker at `a`, then every other message after `t` in log order; an unknown boundary (-1)
      hides everything before the marker. */
  function Shape(ms: seq<Msg>, a: nat, t: int): seq<Msg>
    requires -1 <= t < a < |ms|
  {
    [ms[a]] + (if t < 0 then ms[a + 1..] else ms[t + 1..a] + ms[a + 1..])
  }

  lemma BoundaryInRange(ms: seq<Msg>)
    requires Anchor(ms) >= 0
    ensures 0 <= Anchor(ms) < |ms|
    ensures Boundary(ms) == Position(ms, ms[Anchor(ms)].meta.throughId)
    ensures -1 <= Boundary(ms) < |ms|
  {
    AnchorIsLast(ms);
    PositionIsFirst(ms, ms[Anchor(ms)].meta.throughId);
  }

  lemma SelectedAt(ms: seq<Msg>, a: nat, t: int)
    requires UniqueIds(ms) && -1 <= t < a < |ms|
    ensures SelectFrom(ms, a, t) == Shape(ms, a, t)
  {
    if t >= 0 {
      WithoutMarker(ms, t, a);
    }
  }

  /** What is shown once there is a marker that looks back. */
  lemma SelectedShape(ms: seq<Msg>)
    requires UniqueIds(ms) && LooksBack(ms) && Anchor(ms) >= 0
    ensures -1 <= Boundary(ms) < Anchor(ms) < |ms|
    ensures Selected(ms) == Shape(ms, Anchor(ms), Boundary(ms))
  {
    BoundaryInRange(ms);
    SelectedAt(ms, Anchor(ms), Boundary(ms));
  }

  lemma WithoutMarker(ms: seq<Msg>, t: nat, a: nat)
    requires UniqueIds(ms) && t < a < |ms|
    ensures WithoutId(ms[t + 1..], ms[a].id) == ms[t + 1..a] + ms[a + 1..]
  {
    var rest, k := ms[t + 1..], a - t - 1;
    assert rest[k] == ms[a];
    forall j | 0 <= j < |rest| && j != k ensures rest[j].id != rest[k].id {
      DistinctAt(Ids(ms), t + 1 + j, a);
    }
    WithoutOne(rest, k);
    assert rest[..k] == ms[t + 1..a];
    assert rest[k + 1..] == ms[a + 1..];
  }

  /** Where the message at `p` appears among the messages shown. */
  function PlaceOf(p: nat, a: nat, t: nat): nat
    requires t < p && t < a
  {
    if p == a then 0 else if p < a then p - t else p - t - 1
  }

  lemma ShapeAt(ms: seq<Msg>, a: nat, t: nat, p: nat)
    requires t < a < |ms| && t < p < |ms|
    ensures |Shape(ms, a, t)| == |ms| - t - 1
    ensures PlaceOf(p, a, t) < |ms| - t - 1 && Shape(ms, a, t)[PlaceOf(p, a, t)] == ms[p]
  {
  }

  lemma ViewAt(ms: seq<Msg>, selected: seq<Msg>, k: nat)
    requires selected == Selected(ms) && k < |selected|
    ensures |View(ms)| == |selected| && View(ms)[k] == Trim(selected[k], TrimIds(ms))
  {
  }

  /** Each message after the boundary is shown at its place in the log order. */
  lemma ViewShape(ms: seq<Msg>, p: nat)
    requires UniqueIds(ms) && LooksBack(ms) && Boundary(ms) >= 0
    requires p < |ms| && p > Boundary(ms)
    ensures var a, t, v := Anchor(ms), Boundary(ms), View(ms);
      && 0 <= t < a < |ms| && |v| == |ms| - t - 1
      && v[PlaceOf(p, a, t)] == Trim(ms[p], TrimIds(ms))
  {
    SelectedShape(ms);
    ShapeAt(ms, Anchor(ms), Boundary(ms), p);
    ViewAt(ms, Selected(ms), PlaceOf(p, Anchor(ms), Boundary(ms)));
  }

  /** What a block looks like in the view. */
  predicate ShownAs(b: Block, shown: Block, ids: set<string>) {
    if b.ToolResult? && b.id in ids then
      shown == ToolResult(b.id, Parts([TextPart("[已压缩裁剪：原始工具输出不再可见]")]))
    else shown == b
  }

  /** Exactly the outputs with trimmed ids are replaced; everything else of a shown message is as logged. */
  lemma OutputsAreShownUnless(ms: seq<Msg>, j: nat, k: nat)
    requires j < |View(ms)| && k < |View(ms)[j].content|
    ensures |Selected(ms)| == |View(ms)| && |Selected(ms)[j].content| == |View(ms)[j].content|
    ensures View(ms)[j] == Selected(ms)[j].(content := View(ms)[j].content)
    ensures ShownAs(Selected(ms)[j].content[k], View(ms)[j].content[k], TrimIds(ms))
  {
    ViewAt(ms, Selected(ms), j);
    assert View(ms)[j].content[k] == TrimBlock(Selected(ms)[j].content[k], TrimIds(ms));
  }

  /** Without a summary marker nothing is hidden. */
  lemma NoSummaryShowsAll(ms: seq<Msg>)
    requires forall p :: 0 <= p < |ms| ==> !IsSummary(ms[p])
    ensures Selected(ms) == ms && |View(ms)| == |ms|
  {
    AnchorIsLast(ms);
  }

  // ---------------------------------------------------------------- which outputs are trimmed

  /** All blocks of the messages, in order. */
  function Flat(ms: seq<Msg>): seq<Block> {
    if ms == [] then [] else Flat(ms[..|ms| - 1]) + ms[|ms| - 1].content
  }

  /** The number of tool results whose ids are not in `trimmed`. */
  function Untrimmed(blocks: seq<Block>, trimmed: set<string>): nat {
    if blocks == [] then 0
    else
      var last := blocks[|blocks| - 1];
      Untrimmed(blocks[..|blocks| - 1], trimmed) + (if last.ToolResult? && last.id !in trimmed then 1 else 0)
  }

  lemma {:induction false} BlockIdsConcat(a: seq<Block>, b: seq<Block>, trimmed: set<string>)
    ensures BlockIds(a + b, trimmed) == BlockIds(a, trimmed) + BlockIds(b, trimmed)
  {
    if b == [] {
      assert a + b == a;
    } else {
      assert (a + b)[..|a + b| - 1] == a + b[..|b| - 1];
      BlockIdsConcat(a, b[..|b| - 1], trimmed);
    }
  }

  lemma {:induction false} EligibleIsFlat(ms: seq<Msg>, trimmed: set<string>)
    ensures Eligible(ms, trimmed) == BlockIds(Flat(ms), trimmed)
  {
    if ms != [] {
      EligibleIsFlat(ms[..|ms| - 1], trimmed);
      BlockIdsConcat(Flat(ms[..|ms| - 1]), ms[|ms| - 1].content, trimmed);
    }
  }

  lemma {:induction false} BlockIdsAre(blocks: seq<Block>, trimmed: set<string>)
    ensures |BlockIds(blocks, trimmed)| == Untrimmed(blocks, trimmed)
    ensures forall id :: id in BlockIds(blocks, trimmed) <==>
              id !in trimmed && exists b :: b in blocks && b.ToolResult? && b.id == id
  {
    if blocks != [] {
      BlockIdsAre(blocks[..|blocks| - 1], trimmed);
    }
  }

  /** The first `n` ids are those of some first blocks. */
  lemma {:induction false} FirstBlocks(blocks: seq<Block>, trimmed: set<string>, n: nat) returns (j: nat)
    ensures j <= |blocks|
    ensures var ids := BlockIds(blocks, trimmed);
      BlockIds(blocks[..j], trimmed) == (if n < |ids| then ids[..n] else ids)
    ensures j < |blocks| ==> |BlockIds(blocks[..j], trimmed)| == n
  {
    var ids := BlockIds(blocks, trimmed);
    if |ids| <= n {
      j := |blocks|;
      assert blocks[..j] == blocks && ids[..|ids|] == ids;
    } else {
      var front := blocks[..|blocks| - 1];
      j := FirstBlocks(front, trimmed, n);
      assert front[..j] == blocks[..j];
      assert BlockIds(front, trimmed) == ids[..|BlockIds(front, trimmed)|];
    }
  }

  function ResultIds(blocks: seq<Block>): set<string> {
    set b | b in blocks && b.ToolResult? :: b.id
  }

  /** The older form of a fast marker trims the first results that are not trimmed yet, as many as it counts. */
  lemma CountTrimsFirst(ms: seq<Msg>, m: Msg) returns (j: nat)
    requires m.name == CompactFast && m.meta.toolResultIds == [] && m.meta.toolResults > 0
    ensures j <= |Flat(ms)|
    ensures TrimIds(ms + [m]) == TrimIds(ms) + ResultIds(Flat(ms)[..j])
    ensures Untrimmed(Flat(ms)[..j], TrimIds(ms)) <= m.meta.toolResults
    ensures j < |Flat(ms)| ==> Untrimmed(Flat(ms)[..j], TrimIds(ms)) == m.meta.toolResults
  {
    var trimmed := TrimIds(ms);
    assert (ms + [m])[..|ms|] == ms;
    EligibleIsFlat(ms, trimmed);
    j := FirstBlocks(Flat(ms), trimmed, m.meta.toolResults);
    BlockIdsAre(Flat(ms)[..j], trimmed);
    var ids := BlockIds(Flat(ms)[..j], trimmed);
    assert Take(Eligible(ms, trimmed), m.meta.toolResults) == set id | id in ids;
    assert forall id :: id in ResultIds(Flat(ms)[..j]) && id !in trimmed <==> id in ids;
  }

  /** A marker with a list trims its non-empty ids, and nothing else trims. */
  lemma ListTrims(ms: seq<Msg>, m: Msg)
    requires m.name == CompactFast ==> m.meta.toolResultIds != [] || m.meta.toolResults <= 0
    ensures forall id :: id in TrimIds(ms + [m]) <==>
              id in TrimIds(ms) || (m.name == CompactFast && id in m.meta.toolResultIds && id != "")
  {
    assert (ms + [m])[..|ms|] == ms;
  }

  // ---------------------------------------------------------------- building the view again

  /** Where a shown message comes from: the marker first, all others from after the boundary. */
  lemma Source(ms: seq<Msg>, k: nat) returns (p: nat)
    requires UniqueIds(ms) && LooksBack(ms) && k < |Selected(ms)|
    ensures p < |ms| && Selected(ms)[k] == ms[p]
    ensures Anchor(ms) >= 0 ==> (p == Anchor(ms) <==> k == 0)
    ensures Boundary(ms) < p
    ensures Boundary(ms) < 0 <= Anchor(ms) ==> Anchor(ms) <= p
  {
    if Anchor(ms) < 0 {
      p := k;
    } else {
      SelectedShape(ms);
      p := ShapeSource(Selected(ms), ms, Anchor(ms), Boundary(ms), k);
    }
  }

  lemma ShapeSource(s: seq<Msg>, ms: seq<Msg>, a: nat, t: int, k: nat) returns (p: nat)
    requires -1 <= t < a < |ms| && s == Shape(ms, a, t) && k < |s|
    ensures p < |ms| && s[k] == ms[p] && (p == a <==> k == 0)
    ensures t < p && (t < 0 ==> a <= p)
  {
    p := if k == 0 then a else if t < 0 then a + k else if t + k < a then t + k else t + k + 1;
  }

  predicate OneSummary(view: seq<Msg>) {
    forall k :: 1 <= k < |view| ==> !IsSummary(view[k])
  }

  /** Every earlier marker lies at or before the boundary of the latest one (or the boundary is
      unknown and everything before the marker is hidden). */
  predicate EarlierMarkersCovered(ms: seq<Msg>) {
    Boundary(ms) >= 0 ==> forall p :: Boundary(ms) < p < Anchor(ms) && p < |ms| ==> !IsSummary(ms[p])
  }

  /** The view shows one summary exactly when the latest marker covers every earlier one. */
  lemma OneSummaryIff(ms: seq<Msg>)
    requires UniqueIds(ms) && LooksBack(ms)
    ensures OneSummary(View(ms)) <==> EarlierMarkersCovered(ms)
  {
    if EarlierMarkersCovered(ms) {
      forall k | 1 <= k < |View(ms)| ensures !IsSummary(View(ms)[k]) {
        NotASummary(ms, k);
      }
    }
    if OneSummary(View(ms)) && Boundary(ms) >= 0 {
      forall p | Boundary(ms) < p < Anchor(ms) && p < |ms| ensures !IsSummary(ms[p]) {
        ViewShape(ms, p);
        var k := PlaceOf(p, Anchor(ms), Boundary(ms));
        assert !IsSummary(View(ms)[k]);
      }
    }
  }

  lemma NotASummary(ms: seq<Msg>, k: nat)
    requires UniqueIds(ms) && LooksBack(ms) && EarlierMarkersCovered(ms)
    requires 1 <= k < |View(ms)|
    ensures !IsSummary(View(ms)[k])
  {
    var p := Source(ms, k);
    AnchorIsLast(ms);
    assert View(ms)[k] == Trim(ms[p], TrimIds(ms));
  }

  /** The fast marker lists the ids it trims (the count is the older form). */
  predicate ListsIds(m: Msg) {
    m.name == CompactFast ==> m.meta.toolResultIds != [] || m.meta.toolResults <= 0
  }

  predicate AllListIds(ms: seq<Msg>) {
    forall k :: 0 <= k < |ms| ==> ListsIds(ms[k])
  }

  function Listed(m: Msg): set<string> {
    if m.name == CompactFast && m.meta.toolResultIds != [] then NonEmpty(m.meta.toolResultIds) else {}
  }

  lemma {:induction false} ListedIsTrimmed(ms: seq<Msg>, k: nat)
    requires k < |ms|
    ensures Listed(ms[k]) <= TrimIds(ms)
  {
    if k < |ms| - 1 {
      ListedIsTrimmed(ms[..|ms| - 1], k);
    }
  }

  lemma {:induction false} TrimmedIsListed(ms: seq<Msg>, ids: set<string>)
    requires AllListIds(ms) && forall k :: 0 <= k < |ms| ==> Listed(ms[k]) <= ids
    ensures TrimIds(ms) <= ids
  {
    if ms != [] {
      var front := ms[..|ms| - 1];
      assert forall k :: 0 <= k < |front| ==> front[k] == ms[k];
      TrimmedIsListed(front, ids);
    }
  }

  /** The view trims no id that the log did not trim. */
  lemma ViewTrimsNoMore(ms: seq<Msg>)
    requires UniqueIds(ms) && LooksBack(ms) && AllListIds(ms)
    ensures TrimIds(View(ms)) <= TrimIds(ms)
  {
    var v := View(ms);
    forall k | 0 <= k < |v| ensures ListsIds(v[k]) && Listed(v[k]) <= TrimIds(ms) {
      var p := Source(ms, k);
      assert v[k] == Trim(ms[p], TrimIds(ms));
      ListedIsTrimmed(ms, p);
    }
    TrimmedIsListed(v, TrimIds(ms));
  }

  lemma TrimAllAgain(ms: seq<Msg>, ids: set<string>, fewer: set<string>)
    requires fewer <= ids
    ensures TrimAll(TrimAll(ms, ids), fewer) == TrimAll(ms, ids)
  {
    forall k | 0 <= k < |ms| ensures Trim(Trim(ms[k], ids), fewer) == Trim(ms[k], ids) {
    }
  }

  /** With one summary in front, selecting from the view keeps all of it. */
  lemma SelectingAgain(ms: seq<Msg>)
    requires UniqueIds(ms) && LooksBack(ms) && OneSummary(View(ms))
    ensures Selected(View(ms)) == View(ms)
  {
    var v := View(ms);
    AnchorIsLast(v);
    if Anchor(v) >= 0 {
      assert Anchor(v) == 0;
      AnchorIsShown(ms);
      PositionIsFirst(v, v[0].meta.throughId);
      var t := Position(v, v[0].meta.throughId);
      if t >= 0 {
        BoundaryIsHidden(ms, t);
        assert false;
      }
    }
  }

  /** A view that starts with a summary starts with the latest marker. */
  lemma AnchorIsShown(ms: seq<Msg>)
    requires UniqueIds(ms) && LooksBack(ms) && View(ms) != [] && IsSummary(View(ms)[0])
    ensures 0 <= Anchor(ms) < |ms| && View(ms)[0] == Trim(ms[Anchor(ms)], TrimIds(ms))
  {
    var p := Source(ms, 0);
    AnchorIsLast(ms);
  }

  /** The message the marker speaks up to is not shown. */
  lemma BoundaryIsHidden(ms: seq<Msg>, k: nat)
    requires UniqueIds(ms) && LooksBack(ms) && 0 <= Anchor(ms) < |ms| && k < |View(ms)|
    ensures View(ms)[k].id != ms[Anchor(ms)].meta.throughId
  {
    var p := Source(ms, k);
    BoundaryInRange(ms);
    PositionIsFirst(ms, ms[Anchor(ms)].meta.throughId);
    if Boundary(ms) >= 0 {
      DistinctAt(Ids(ms), Boundary(ms), p);
    }
  }

  /** Building the view again changes nothing exactly when it shows one summary: a second summary
      becomes the anchor of the second build. */
  lemma RebuildIsIdentityIff(ms: seq<Msg>)
    requires UniqueIds(ms) && LooksBack(ms) && AllListIds(ms)
    ensures View(View(ms)) == View(ms) <==> EarlierMarkersCovered(ms)
  {
    OneSummaryIff(ms);
    var v := View(ms);
    if OneSummary(v) {
      SelectingAgain(ms);
      ViewTrimsNoMore(ms);
      TrimAllAgain(Selected(ms), TrimIds(ms), TrimIds(v));
    } else {
      SecondSummaryLeads(ms);
    }
  }

  lemma SecondSummaryLeads(ms: seq<Msg>)
    requires UniqueIds(ms) && LooksBack(ms) && !OneSummary(View(ms))
    ensures View(View(ms)) != View(ms)
  {
    var v := View(ms);
    var k :| 1 <= k < |v| && IsSummary(v[k]);
    AnchorIsLast(v);
    var last := Anchor(v);
    LeadsWithAnchor(v);
    OthersDiffer(ms, last);
  }

  lemma OthersDiffer(ms: seq<Msg>, k: nat)
    requires UniqueIds(ms) && LooksBack(ms) && 1 <= k < |View(ms)| && IsSummary(View(ms)[k])
    ensures View(ms)[k].id != View(ms)[0].id
  {
    var p := Source(ms, k);
    var q := Source(ms, 0);
    assert View(ms)[k] == Trim(ms[p], TrimIds(ms)) && View(ms)[0] == Trim(ms[q], TrimIds(ms));
    assert IsSummary(ms[p]);
    AnchorIsLast(ms);
    DistinctAt(Ids(ms), p, q);
  }

  lemma LeadsWithAnchor(ms: seq<Msg>)
    requires 0 <= Anchor(ms) < |ms|
    ensures View(ms) != [] && View(ms)[0].id == ms[Anchor(ms)].id
  {
    assert Selected(ms) != [] && Selected(ms)[0] == ms[Anchor(ms)];
    ViewAt(ms, Selected(ms), 0);
  }

  // ---------------------------------------------------------------- runs: arrivals and compactions

  /** One session: its append-only log, and the message the running compaction speaks up to. */
  datatype State = State(log: seq<Msg>, inflight: Option<string>)

  datatype Event =
    | Arrive(m: Msg)
    | Start
    | Finish(id: string, summary: seq<Block>)
    | Abort

  /** What a compaction summarises: the view without a leading summary. */
  function Head(view: seq<Msg>): seq<Msg> {
    if view != [] && view[0].name == Compact then view[1..] else view
  }

  function Marker(id: string, summary: seq<Block>, throughId: string): Msg {
    Msg(id, UserRole, Compact, summary, Meta(throughId, [], 0))
  }

  predicate Enabled(s: State, e: Event) {
    match e
    case Arrive(m) => m.id !in Ids(s.log) && m.name != Compact
    case Start => s.inflight.None? && Head(View(s.log)) != []
    case Finish(id, _) => s.inflight.Some? && id !in Ids(s.log)
    case Abort => s.inflight.Some?
  }

  /** One step; an event that cannot happen now changes nothing. */
  function Next(s: State, e: Event): State {
    if !Enabled(s, e) then s
    else
      match e
      case Arrive(m) => s.(log := s.log + [m])
      case Start =>
        var head := Head(View(s.log));
        s.(inflight := Some(head[|head| - 1].id))
      case Finish(id, summary) => State(s.log + [Marker(id, summary, s.inflight.value)], None)
      case Abort => s.(inflight := None)
  }

  function Run(s: State, events: seq<Event>): State
    decreases |events|
  {
    if events == [] then s else Run(Next(s, events[0]), events[1..])
  }

  /** Every marker is a summary of messages before it. */
  predicate MarkersLookBack(log: seq<Msg>) {
    log == []
    || (var m, front := log[|log| - 1], log[..|log| - 1];
        MarkersLookBack(front)
        && (m.name == Compact ==> m.role == UserRole && Position(front, m.meta.throughId) >= 0))
  }

  predicate Good(s: State) {
    UniqueIds(s.log)
    && MarkersLookBack(s.log)
    && (s.inflight.Some? ==> Position(s.log, s.inflight.value) > Boundary(s.log))
  }

  lemma {:induction false} PositionStable(ms: seq<Msg>, m: Msg, id: string)
    ensures Position(ms, id) >= 0 ==> Position(ms + [m], id) == Position(ms, id)
  {
    if ms != [] && ms[0].id != id {
      assert (ms + [m])[1..] == ms[1..] + [m];
      PositionStable(ms[1..], m, id);
    } else if ms != [] {
      assert (ms + [m])[0] == ms[0];
    }
  }

  lemma UniqueAppend(ms: seq<Msg>, m: Msg)
    requires UniqueIds(ms) && m.id !in Ids(ms)
    ensures UniqueIds(ms + [m])
  {
    assert Ids(ms + [m]) == Ids(ms) + [m.id];
    assert (Ids(ms) + [m.id])[..|ms|] == Ids(ms);
  }

  lemma MarkersAppend(ms: seq<Msg>, m: Msg)
    requires MarkersLookBack(ms)
    requires m.name == Compact ==> m.role == UserRole && Position(ms, m.meta.throughId) >= 0
    ensures MarkersLookBack(ms + [m])
  {
    assert (ms + [m])[..|ms|] == ms;
  }

  /** An ordinary message leaves marker and boundary where they are. */
  lemma ArrivalKeepsBoundary(ms: seq<Msg>, m: Msg)
    requires MarkersLookBack(ms) && m.name != Compact
    ensures Anchor(ms + [m]) == Anchor(ms) && Boundary(ms + [m]) == Boundary(ms)
  {
    assert (ms + [m])[..|ms|] == ms;
    if Anchor(ms) >= 0 {
      AnchorIsLast(ms);
      BoundaryKnown(ms);
      assert (ms + [m])[Anchor(ms)] == ms[Anchor(ms)];
      PositionStable(ms, m, ms[Anchor(ms)].meta.throughId);
    }
  }

  /** With markers looking back the boundary is known and lies before its marker. */
  lemma {:induction false} BoundaryKnown(ms: seq<Msg>)
    requires MarkersLookBack(ms) && Anchor(ms) >= 0
    ensures 0 <= Boundary(ms) < Anchor(ms) < |ms|
  {
    var m, front := ms[|ms| - 1], ms[..|ms| - 1];
    assert ms == front + [m];
    if IsSummary(m) {
      PositionStable(front, m, m.meta.throughId);
      PositionIsFirst(front, m.meta.throughId);
    } else {
      BoundaryKnown(front);
      AnchorIsLast(front);
      assert ms[Anchor(front)] == front[Anchor(front)];
      PositionStable(front, m, front[Anchor(front)].meta.throughId);
    }
  }

  /** Without a marker nothing is named like one. */
  lemma {:induction false} NoMarkerNoName(ms: seq<Msg>, k: nat)
    requires MarkersLookBack(ms) && Anchor(ms) < 0 && k < |ms|
    ensures ms[k].name != Compact
  {
    if k < |ms| - 1 {
      NoMarkerNoName(ms[..|ms| - 1], k);
    }
  }

  lemma PositionOfUnique(ms: seq<Msg>, p: nat)
    requires UniqueIds(ms) && p < |ms|
    ensures Position(ms, ms[p].id) == p
  {
    PositionIsFirst(ms, ms[p].id);
    var q := Position(ms, ms[p].id);
    if 0 <= q && q != p {
      DistinctAt(Ids(ms), p, q);
    }
  }

  /** What a compaction covers always ends beyond the present boundary. */
  lemma HeadEndsBeyond(ms: seq<Msg>)
    requires UniqueIds(ms) && MarkersLookBack(ms) && Head(View(ms)) != []
    ensures var head := Head(View(ms)); Position(ms, head[|head| - 1].id) > Boundary(ms)
  {
    HeadEnd(View(ms));
    var p := LastShown(ms);
    PositionOfUnique(ms, p);
  }

  lemma LastShown(ms: seq<Msg>) returns (p: nat)
    requires UniqueIds(ms) && MarkersLookBack(ms) && View(ms) != []
    ensures Boundary(ms) < p < |ms| && View(ms)[|View(ms)| - 1].id == ms[p].id
  {
    if Anchor(ms) >= 0 {
      BoundaryKnown(ms);
    }
    p := Source(ms, |Selected(ms)| - 1);
    assert View(ms)[|View(ms)| - 1] == Trim(ms[p], TrimIds(ms));
  }

  lemma HeadEnd(v: seq<Msg>)
    requires Head(v) != []
    ensures v != [] && Head(v)[|Head(v)| - 1] == v[|v| - 1]
  {
  }

  lemma EveryStepKeeps(s: State, e: Event)
    requires Good(s)
    ensures Good(Next(s, e))
    ensures s.log <= Next(s, e).log
    ensures Boundary(Next(s, e).log) >= Boundary(s.log)
  {
    if Enabled(s, e) {
      match e
      case Arrive(m) =>
        ArrivalKeeps(s, m);
      case Start =>
        StartKeeps(s);
      case Finish(id, summary) =>
        FinishAdvances(s, id, summary);
      case Abort =>
    }
  }

  lemma StartKeeps(s: State)
    requires Good(s) && Enabled(s, Start)
    ensures Good(Next(s, Start)) && Next(s, Start).log == s.log
  {
    HeadEndsBeyond(s.log);
  }

  lemma ArrivalKeeps(s: State, m: Msg)
    requires Good(s) && m.id !in Ids(s.log) && m.name != Compact
    ensures Good(State(s.log + [m], s.inflight))
    ensures Boundary(s.log + [m]) == Boundary(s.log)
  {
    UniqueAppend(s.log, m);
    MarkersAppend(s.log, m);
    ArrivalKeepsBoundary(s.log, m);
    if s.inflight.Some? {
      PositionIsFirst(s.log, s.inflight.value);
      BoundaryAtLeast(s.log);
      PositionStable(s.log, m, s.inflight.value);
    }
  }

  lemma BoundaryAtLeast(ms: seq<Msg>)
    ensures Boundary(ms) >= -1
  {
    var a := Anchor(ms);
    if 0 <= a < |ms| {
      PositionIsFirst(ms, ms[a].meta.throughId);
    }
  }

  /** A finished compaction moves the boundary strictly forward, to where it was when captured. */
  lemma FinishAdvances(s: State, id: string, summary: seq<Block>)
    requires Good(s) && s.inflight.Some? && id !in Ids(s.log)
    ensures var log := s.log + [Marker(id, summary, s.inflight.value)];
      && Good(State(log, None))
      && Boundary(log) == Position(s.log, s.inflight.value)
      && Boundary(s.log) < Boundary(log)
  {
    var m := Marker(id, summary, s.inflight.value);
    BoundaryAtLeast(s.log);
    UniqueAppend(s.log, m);
    MarkersAppend(s.log, m);
    PositionStable(s.log, m, s.inflight.value);
    assert (s.log + [m])[|s.log|] == m;
  }

  function Finishes(s: State, events: seq<Event>): nat
    decreases |events|
  {
    if events == [] then 0
    else (if Enabled(s, events[0]) && events[0].Finish? then 1 else 0) + Finishes(Next(s, events[0]), events[1..])
  }

  /** Over every run the log only grows, and each finished compaction moves the boundary forward. */
  lemma {:induction false} EveryRunKeeps(s: State, events: seq<Event>)
    requires Good(s)
    ensures Good(Run(s, events))
    ensures s.log <= Run(s, events).log
    ensures Boundary(Run(s, events).log) >= Boundary(s.log) + Finishes(s, events)
    decreases |events|
  {
    if events != [] {
      EveryStepKeeps(s, events[0]);
      if Enabled(s, events[0]) && events[0].Finish? {
        FinishAdvances(s, events[0].id, events[0].summary);
      }
      EveryRunKeeps(Next(s, events[0]), events[1..]);
    }
  }

  lemma EmptyIsGood()
    ensures Good(State([], None))
  {
  }

  /** In every reachable state a message is at or before the boundary, or shown at its place. */
  lemma NothingAfterTheBoundaryIsLost(events: seq<Event>, p: nat)
    requires p < |Run(State([], None), events).log|
    ensures var log := Run(State([], None), events).log;
      && (Anchor(log) < 0 ==> |View(log)| == |log| && View(log)[p] == Trim(log[p], TrimIds(log)))
      && (0 <= Anchor(log) && Boundary(log) < p ==>
            0 <= Boundary(log) < Anchor(log)
            && |View(log)| == |log| - Boundary(log) - 1
            && View(log)[PlaceOf(p, Anchor(log), Boundary(log))] == Trim(log[p], TrimIds(log)))
  {
    EmptyIsGood();
    EveryRunKeeps(State([], None), events);
    var log := Run(State([], None), events).log;
    if 0 <= Anchor(log) {
      BoundaryKnown(log);
      if Boundary(log) < p {
        ViewShape(log, p);
      }
    }
  }

  predicate OnlyArrivals(events: seq<Event>) {
    forall k :: 0 <= k < |events| ==> events[k].Arrive?
  }

  /** Messages that arrive while a compaction runs are beyond the boundary it sets, hence shown. */
  lemma ArrivalsDuringCompactionSurvive(s: State, events: seq<Event>, id: string, summary: seq<Block>)
    requires Good(s) && Enabled(s, Start) && OnlyArrivals(events)
    requires Enabled(Run(Next(s, Start), events), Finish(id, summary))
    ensures var log := Next(Run(Next(s, Start), events), Finish(id, summary)).log;
      s.log <= log && Boundary(log) < |s.log|
  {
    var started := Next(s, Start);
    EveryStepKeeps(s, Start);
    EveryRunKeeps(started, events);
    ArrivalsKeepInflight(started, events);
    var before := Run(started, events);
    FinishAdvances(before, id, summary);
    PositionIsFirst(s.log, started.inflight.value);
  }

  lemma {:induction false} ArrivalsKeepInflight(s: State, events: seq<Event>)
    requires Good(s) && s.inflight.Some? && OnlyArrivals(events)
    ensures Run(s, events).inflight == s.inflight
    ensures Position(Run(s, events).log, s.inflight.value) == Position(s.log, s.inflight.value)
    decreases |events|
  {
    if events != [] {
      var e := events[0];
      EveryStepKeeps(s, e);
      BoundaryAtLeast(s.log);
      PositionStable(s.log, e.m, s.inflight.value);
      ArrivalsKeepInflight(Next(s, e), events[1..]);
    }
  }

  lemma BeyondMarkers(ms: seq<Msg>, p: nat)
    ensures p < |ms| && Anchor(ms) < p ==> !IsSummary(ms[p])
  {
    AnchorIsLast(ms);
  }

  /** A finished compaction leaves one summary in the view exactly when the message it speaks up to
      lies at or after the previous marker. */
  lemma FinishLeavesOneSummaryIff(s: State, id: string, summary: seq<Block>)
    requires Good(s) && s.inflight.Some? && id !in Ids(s.log)
    ensures var log := s.log + [Marker(id, summary, s.inflight.value)];
      OneSummary(View(log)) <==> Anchor(s.log) <= Position(s.log, s.inflight.value)
  {
    var log := s.log + [Marker(id, summary, s.inflight.value)];
    FinishAdvances(s, id, summary);
    BoundaryAtLeast(s.log);
    AnchorOfMarked(s.log, log[|s.log|]);
    BoundaryKnown(log);
    OneSummaryIff(log);
    CoveredIff(s.log, log[|s.log|], Boundary(log));
  }

  lemma AnchorOfMarked(ms: seq<Msg>, k: Msg)
    requires IsSummary(k)
    ensures Anchor(ms + [k]) == |ms|
  {
    assert (ms + [k])[|ms|] == k;
  }

  lemma CoveredIff(ms: seq<Msg>, k: Msg, t: nat)
    requires IsSummary(k) && Boundary(ms + [k]) == t
    ensures EarlierMarkersCovered(ms + [k]) <==> Anchor(ms) <= t
  {
    var log := ms + [k];
    AnchorOfMarked(ms, k);
    AnchorIsLast(ms);
    if Anchor(ms) <= t {
      forall p | t < p < |ms| ensures !IsSummary(log[p]) {
        assert log[p] == ms[p];
        BeyondMarkers(ms, p);
      }
    } else {
      assert IsSummary(log[Anchor(ms)]);
    }
  }

  lemma BoundaryBefore(s: State, m: Msg)
    requires Good(s) && s.inflight.Some?
    ensures Position(s.log + [m], s.inflight.value) < |s.log|
  {
    BoundaryAtLeast(s.log);
    PositionIsFirst(s.log, s.inflight.value);
    PositionStable(s.log, m, s.inflight.value);
  }

  lemma LastIsTheArrival(log: seq<Msg>, m: Msg, k: Msg)
    requires |log| >= 2 && log[|log| - 2] == m && log[|log| - 1] == k
    requires UniqueIds(log) && LooksBack(log) && IsSummary(k)
    requires 0 <= Boundary(log) < |log| - 2
    ensures var head := Head(View(log)); head != [] && head[|head| - 1].id == m.id
  {
    assert Anchor(log) == |log| - 1;
    ViewShape(log, |log| - 1);
    ShownLast(log, m);
    HeadDropsLeading(View(log));
  }

  lemma ShownLast(log: seq<Msg>, m: Msg)
    requires |log| >= 2 && log[|log| - 2] == m
    requires UniqueIds(log) && LooksBack(log) && Anchor(log) == |log| - 1
    requires 0 <= Boundary(log) < |log| - 2
    ensures |View(log)| >= 2 && View(log)[|View(log)| - 1].id == m.id
  {
    ViewShape(log, |log| - 2);
  }

  lemma HeadDropsLeading(v: seq<Msg>)
    requires |v| >= 2 && v[0].name == Compact
    ensures Head(v) != [] && Head(v)[|Head(v)| - 1] == v[|v| - 1]
  {
  }

  /** A message `m` that arrives while a compaction runs is what the next compaction speaks up to if
      nothing else arrives; it lies before the first marker, so the view then shows both summaries. */
  lemma NextCompactionShowsBoth(s: State, m: Msg, first: string, summary: seq<Block>)
    requires Good(s) && s.inflight.Some? && Enabled(s, Arrive(m)) && Enabled(Next(s, Arrive(m)), Finish(first, summary))
    ensures var s' := Next(Next(s, Arrive(m)), Finish(first, summary));
      && Enabled(s', Start)
      && Next(s', Start).inflight == Some(m.id)
      && forall second, text :: Enabled(Next(s', Start), Finish(second, text)) ==>
           !OneSummary(View(Next(Next(s', Start), Finish(second, text)).log))
  {
    var k := Marker(first, summary, s.inflight.value);
    var log := s.log + [m] + [k];
    ArrivalKeeps(s, m);
    FinishAdvances(State(s.log + [m], s.inflight), first, summary);
    BoundaryBefore(s, m);
    LastIsTheArrival(log, m, k);
    var s' := State(log, None);
    assert Next(Next(s, Arrive(m)), Finish(first, summary)) == s';
    EveryStepKeeps(s', Start);
    var s'' := State(log, Some(m.id));
    assert Next(s', Start) == s'';
    AnchorOfMarked(s.log + [m], k);
    assert log[|s.log|] == m;
    PositionOfUnique(log, |s.log|);
    forall second, text | Enabled(s'', Finish(second, text))
      ensures !OneSummary(View(Next(s'', Finish(second, text)).log))
    {
      FinishLeavesOneSummaryIff(s'', second, text);
    }
  }

  lemma FirstStart(a: Msg)
    requires a.name == Default
    ensures Enabled(State([a], None), Start) && Next(State([a], None), Start) == State([a], Some(a.id))
  {
    var log := [a];
    assert log[..0] == [] && Anchor([]) == -1 && Anchor(log) == -1;
    assert Selected(log) == log && |View(log)| == 1;
    assert View(log)[0].id == a.id && View(log)[0].name == Default;
  }

  lemma RunTwo(s: State, e: Event, f: Event, rest: seq<Event>)
    ensures Run(s, [e, f] + rest) == Run(Next(Next(s, e), f), rest)
  {
    assert ([e, f] + rest)[1..] == [f] + rest && ([f] + rest)[1..] == rest;
  }

  lemma GoodStart(a: Msg)
    requires a.name == Default
    ensures Good(State([a], Some(a.id)))
  {
    FirstStart(a);
    ArrivalKeeps(State([], None), a);
    assert [] + [a] == [a];
    EveryStepKeeps(State([a], None), Start);
  }

  /** The log after the first compaction. */
  lemma FirstFinish(a: Msg, b: Msg, first: string)
    requires b.name == Default && a.id != b.id && first !in {a.id, b.id}
    ensures var s := State([a], Some(a.id));
      && Enabled(s, Arrive(b)) && Enabled(Next(s, Arrive(b)), Finish(first, []))
      && Next(Next(s, Arrive(b)), Finish(first, [])) == State([a, b, Marker(first, [], a.id)], None)
  {
    assert Next(State([a], Some(a.id)), Arrive(b)) == State([a, b], Some(a.id));
  }

  lemma SecondCanFinish(s: State, t: State, through: string, second: string)
    requires t == State(s.log, Some(through)) && second !in Ids(s.log)
    ensures Enabled(t, Finish(second, []))
  {
  }

  lemma SecondFinish(a: Msg, b: Msg, first: string, second: string)
    requires a.name == Default && b.name == Default
    requires a.id != b.id && first !in {a.id, b.id} && second !in {a.id, b.id, first}
    ensures var s := Next(Next(State([a], Some(a.id)), Arrive(b)), Finish(first, []));
      !OneSummary(View(Next(Next(s, Start), Finish(second, [])).log))
  {
    GoodStart(a);
    FirstFinish(a, b, first);
    NextCompactionShowsBoth(State([a], Some(a.id)), b, first, []);
    var s := State([a, b, Marker(first, [], a.id)], None);
    SecondCanFinish(s, Next(s, Start), b.id, second);
  }

  lemma RunOfSix(s: State, a: Event, b: Event, c: Event, d: Event, e: Event, f: Event)
    ensures Run(s, [a, b, c, d, e, f]) == Next(Next(Next(Next(Next(Next(s, a), b), c), d), e), f)
  {
    var t := Next(Next(s, a), b);
    assert [a, b, c, d, e, f] == [a, b] + [c, d, e, f] && [c, d, e, f] == [c, d] + [e, f] && [e, f] == [e, f] + [];
    RunTwo(s, a, b, [c, d, e, f]);
    RunTwo(t, c, d, [e, f]);
    RunTwo(Next(Next(t, c), d), e, f, []);
  }

  /** A run from the empty session with two compactions, the second message arriving during the first
      one: the view ends with two summaries. */
  lemma TwoSummariesRun(a: Msg, b: Msg, first: string, second: string)
    requires a.name == Default && b.name == Default
    requires a.id != b.id && first !in {a.id, b.id} && second !in {a.id, b.id, first}
    ensures var events := [Arrive(a), Start, Arrive(b), Finish(first, []), Start, Finish(second, [])];
      !OneSummary(View(Run(State([], None), events).log))
  {
    FirstStart(a);
    assert Next(State([], None), Arrive(a)) == State([a], None);
    RunOfSix(State([], None), Arrive(a), Start, Arrive(b), Finish(first, []), Start, Finish(second, []));
    SecondFinish(a, b, first, second);
  }
}
