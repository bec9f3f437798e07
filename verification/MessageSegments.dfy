/** Expanding one stored message into the provider's message sequence.

    The scanning loop with its buffer is proved to produce `Expanded`. Its segments are the only way
    to cut the content so that nothing is lost or reordered, every tool result and hint stands
    alone, and no two neighbouring segments are plain (`ExpansionIsSound`, `SplitIsTheOnlyOne`).
    A tool result comes after the segment of everything before it, its call included
    (`ResultFollowsItsCall`); legacy reasoning reaches at most the first plain segment and the k-th
    plain segment carries the k-th response item group (`DecorationsGoInOrder`). Appending blocks to
    a reply in two calls is the same as in one (`AppendInTwoCalls`). */
module MessageSegments {
  import opened Prelude

  datatype Block =
    | Text(text: string)
    | Thinking(thinking: string)
    | ToolCall(id: string, input: string)
    | ToolResult(id: string, output: string)
    | Hint(hint: string)
    | OtherBlock(data: string)

  datatype Role = UserRole | AssistantRole | SystemRole

  type Group = seq<string>

  /** A stored message. `legacyReasoning` and `groups` come from its metadata; a group that is not a
      non-empty list is `None`. */
  datatype Msg = Msg(id: string, role: Role, content: seq<Block>, legacyReasoning: string, groups: seq<Option<Group>>)

  datatype Kind = Plain | Tool | UserHint

  /** A provider message, with the blocks it was made of. */
  datatype Out = Out(kind: Kind, blocks: seq<Block>, reasoning: string, items: Option<Group>)

  predicate StandsAlone(b: Block) {
    b.ToolResult? || b.Hint?
  }

  // ---------------------------------------------------------------- segments

  predicate IsPlain(segment: seq<Block>) {
    segment != [] && !StandsAlone(segment[0])
  }

  /** The segments of the content: single results and hints, and the runs between them. */
  function Split(content: seq<Block>): seq<seq<Block>> {
    if content == [] then []
    else Extend(Split(content[..|content| - 1]), content[|content| - 1])
  }

  function Extend(segments: seq<seq<Block>>, b: Block): seq<seq<Block>> {
    if !StandsAlone(b) && segments != [] && IsPlain(segments[|segments| - 1]) then
      segments[..|segments| - 1] + [segments[|segments| - 1] + [b]]
    else segments + [[b]]
  }

  function Flatten(segments: seq<seq<Block>>): seq<Block> {
    if segments == [] then [] else Flatten(segments[..|segments| - 1]) + segments[|segments| - 1]
  }

  /** A segment is one result or hint, or a non-empty run of other blocks. */
  predicate WellCut(segment: seq<Block>) {
    segment != []
    && (StandsAlone(segment[0]) ==> |segment| == 1)
    && (!StandsAlone(segment[0]) ==> forall k :: 0 <= k < |segment| ==> !StandsAlone(segment[k]))
  }

  /** All segments are well cut and no two neighbours are plain. */
  predicate Segmentation(segments: seq<seq<Block>>) {
    segments == []
    || (var front, last := segments[..|segments| - 1], segments[|segments| - 1];
        Segmentation(front) && WellCut(last)
        && (front != [] && IsPlain(front[|front| - 1]) ==> !IsPlain(last)))
  }

  lemma SegmentationAppend(segments: seq<seq<Block>>, segment: seq<Block>)
    requires Segmentation(segments) && WellCut(segment)
    requires segments != [] && IsPlain(segments[|segments| - 1]) ==> !IsPlain(segment)
    ensures Segmentation(segments + [segment])
  {
    assert (segments + [segment])[..|segments|] == segments;
  }

  lemma ExtendIsSound(segments: seq<seq<Block>>, b: Block)
    requires Segmentation(segments)
    ensures Segmentation(Extend(segments, b)) && Flatten(Extend(segments, b)) == Flatten(segments) + [b]
  {
    if !StandsAlone(b) && segments != [] && IsPlain(segments[|segments| - 1]) {
      var front, last := segments[..|segments| - 1], segments[|segments| - 1];
      SegmentationAppend(front, last + [b]);
      assert Flatten(front) + (last + [b]) == Flatten(front) + last + [b];
    } else {
      SegmentationAppend(segments, [b]);
    }
  }

  lemma {:induction false} SplitIsSound(content: seq<Block>)
    ensures Segmentation(Split(content)) && Flatten(Split(content)) == content
  {
    if content != [] {
      SplitIsSound(content[..|content| - 1]);
      ExtendIsSound(Split(content[..|content| - 1]), content[|content| - 1]);
    }
  }

  lemma ExtendLast(front: seq<seq<Block>>, rest: seq<Block>, b: Block)
    requires IsPlain(rest) && !StandsAlone(b)
    ensures Extend(front + [rest], b) == front + [rest + [b]]
  {
    assert (front + [rest])[..|front|] == front;
  }

  /** Any segmentation of a content is the one the loop makes. */
  lemma {:induction false} SplitIsTheOnlyOne(segments: seq<seq<Block>>)
    requires Segmentation(segments)
    ensures Split(Flatten(segments)) == segments
    decreases |Flatten(segments)|
  {
    if segments != [] {
      var front, last := segments[..|segments| - 1], segments[|segments| - 1];
      var rest, b := last[..|last| - 1], last[|last| - 1];
      assert last == rest + [b] && segments == front + [last];
      if rest == [] {
        assert Flatten(segments) == Flatten(front) + [b];
        SplitIsTheOnlyOne(front);
      } else {
        LongerSegment(front, rest, b);
        SplitIsTheOnlyOne(front + [rest]);
        ExtendLast(front, rest, b);
      }
    }
  }

  /** Without the last block of a longer last segment it is still a segmentation. */
  lemma LongerSegment(front: seq<seq<Block>>, rest: seq<Block>, b: Block)
    requires rest != [] && Segmentation(front) && WellCut(rest + [b])
    requires front != [] && IsPlain(front[|front| - 1]) ==> !IsPlain(rest + [b])
    ensures Segmentation(front + [rest]) && IsPlain(rest) && !StandsAlone(b)
    ensures Flatten(front + [rest + [b]]) == Flatten(front + [rest]) + [b]
  {
    assert (rest + [b])[0] == rest[0] && (rest + [b])[|rest|] == b;
    assert forall k :: 0 <= k < |rest| ==> rest[k] == (rest + [b])[k];
    SegmentationAppend(front, rest);
    assert Flatten(front) + (rest + [b]) == Flatten(front) + rest + [b];
  }

  // ---------------------------------------------------------------- provider messages

  function ThinkingOf(blocks: seq<Block>): string {
    if blocks == [] then ""
    else (if blocks[0].Thinking? then blocks[0].thinking else "") + ThinkingOf(blocks[1..])
  }

  /** The reasoning text that the blocks themselves carry. */
  function OwnReasoning(role: Role, blocks: seq<Block>): string {
    if role == AssistantRole then ThinkingOf(blocks) else ""
  }

  /** The `n`-th plain segment as a provider message. */
  function PlainOut(msg: Msg, blocks: seq<Block>, n: nat): Out {
    var own := OwnReasoning(msg.role, blocks);
    Out(Plain, blocks,
      if n == 0 && own == "" then msg.legacyReasoning else own,
      if n < |msg.groups| then msg.groups[n] else None)
  }

  function AloneOut(b: Block): Out {
    Out(if b.Hint? then UserHint else Tool, [b], "", None)
  }

  function RenderOne(msg: Msg, segment: seq<Block>, n: nat): Out {
    if segment != [] && StandsAlone(segment[0]) then AloneOut(segment[0]) else PlainOut(msg, segment, n)
  }

  function Plains(segments: seq<seq<Block>>): nat {
    if segments == [] then 0
    else Plains(segments[..|segments| - 1]) + (if IsPlain(segments[|segments| - 1]) then 1 else 0)
  }

  function Render(msg: Msg, segments: seq<seq<Block>>): seq<Out> {
    if segments == [] then []
    else
      var front := segments[..|segments| - 1];
      Render(msg, front) + [RenderOne(msg, segments[|segments| - 1], Plains(front))]
  }

  function Expanded(msg: Msg): seq<Out> {
    if msg.content == [] then [Out(Plain, [], msg.legacyReasoning, None)]
    else Render(msg, Split(msg.content))
  }

  // ---------------------------------------------------------------- the scanning loop

  /** The counters after the segments `done`. */
  predicate Counters(msg: Msg, done: seq<seq<Block>>, reasoningUsed: bool, groupUsed: nat) {
    reasoningUsed == (Plains(done) > 0)
    && groupUsed == (if Plains(done) < |msg.groups| then Plains(done) else |msg.groups|)
  }

  lemma RenderAppend(msg: Msg, done: seq<seq<Block>>, segment: seq<Block>)
    ensures Render(msg, done + [segment]) == Render(msg, done) + [RenderOne(msg, segment, Plains(done))]
    ensures Plains(done + [segment]) == Plains(done) + (if IsPlain(segment) then 1 else 0)
  {
    assert (done + [segment])[..|done|] == done;
  }

  lemma RenderAlone(msg: Msg, done: seq<seq<Block>>, block: Block, reasoningUsed: bool, groupUsed: nat)
    requires Counters(msg, done, reasoningUsed, groupUsed) && StandsAlone(block)
    ensures Render(msg, done + [[block]]) == Render(msg, done) + [AloneOut(block)]
    ensures Counters(msg, done + [[block]], reasoningUsed, groupUsed)
  {
    RenderAppend(msg, done, [block]);
  }

  /** The segments once the buffered blocks are output too. */
  function Closed(done: seq<seq<Block>>, blocks: seq<Block>): seq<seq<Block>> {
    if blocks == [] then done else done + [blocks]
  }

  /** `flush_assistant`: the buffered blocks become one message; nothing happens without any. */
  method FlushAssistant(msg: Msg, messages: seq<Out>, blocks: seq<Block>, reasoningUsed: bool, groupUsed: nat,
                        ghost done: seq<seq<Block>>)
    returns (messages': seq<Out>, reasoningUsed': bool, groupUsed': nat)
    requires messages == Render(msg, done) && Counters(msg, done, reasoningUsed, groupUsed)
    requires blocks == [] || IsPlain(blocks)
    ensures messages' == Render(msg, Closed(done, blocks))
    ensures Counters(msg, Closed(done, blocks), reasoningUsed', groupUsed')
  {
    messages', reasoningUsed', groupUsed' := messages, reasoningUsed, groupUsed;
    if blocks == [] {
      return;
    }
    var reasoning := OwnReasoning(msg.role, blocks);
    if !reasoningUsed' {
      if reasoning == "" {
        reasoning := msg.legacyReasoning;
      }
      reasoningUsed' := true;
    }
    var items: Option<Group> := None;
    if groupUsed' < |msg.groups| {
      items := msg.groups[groupUsed'];
      groupUsed' := groupUsed' + 1;
    }
    messages' := messages + [Out(Plain, blocks, reasoning, items)];
    RenderAppend(msg, done, blocks);
  }

  /** What has been scanned is what was output, with the buffered blocks as an open plain segment. */
  predicate Scanned(content: seq<Block>, done: seq<seq<Block>>, blocks: seq<Block>) {
    && (done == [] || !IsPlain(done[|done| - 1]))
    && (blocks == [] || IsPlain(blocks))
    && Split(content) == Closed(done, blocks)
  }

  lemma ScanAlone(content: seq<Block>, done: seq<seq<Block>>, blocks: seq<Block>, b: Block)
    requires Scanned(content, done, blocks) && StandsAlone(b)
    ensures Scanned(content + [b], Closed(done, blocks) + [[b]], [])
  {
  }

  lemma ScanPlain(content: seq<Block>, done: seq<seq<Block>>, blocks: seq<Block>, b: Block)
    requires Scanned(content, done, blocks) && !StandsAlone(b)
    ensures Scanned(content + [b], done, blocks + [b])
  {
    if blocks == [] {
      assert blocks + [b] == [b];
    } else {
      ExtendLast(done, blocks, b);
    }
  }

  method MsgToDicts(msg: Msg) returns (messages: seq<Out>)
    ensures messages == Expanded(msg)
  {
    messages := [];
    var blocks: seq<Block> := [];
    var reasoningUsed, groupUsed: nat := false, 0;
    ghost var done: seq<seq<Block>> := [];
    for i := 0 to |msg.content|
      invariant messages == Render(msg, done) && Counters(msg, done, reasoningUsed, groupUsed)
      invariant Scanned(msg.content[..i], done, blocks)
    {
      var block := msg.content[i];
      assert msg.content[..i + 1] == msg.content[..i] + [block];
      if StandsAlone(block) {
        ScanAlone(msg.content[..i], done, blocks, block);
        messages, reasoningUsed, groupUsed := FlushAssistant(msg, messages, blocks, reasoningUsed, groupUsed, done);
        done := Closed(done, blocks);
        blocks := [];
        RenderAlone(msg, done, block, reasoningUsed, groupUsed);
        messages := messages + [AloneOut(block)];
        done := done + [[block]];
      } else {
        ScanPlain(msg.content[..i], done, blocks, block);
        blocks := blocks + [block];
      }
    }
    assert msg.content[..|msg.content|] == msg.content;
    messages, reasoningUsed, groupUsed := FlushAssistant(msg, messages, blocks, reasoningUsed, groupUsed, done);
    if messages == [] {
      messages := [Out(Plain, [], msg.legacyReasoning, None)];
    }
  }

  // ---------------------------------------------------------------- what the expansion keeps

  function BlocksOf(outs: seq<Out>): seq<seq<Block>> {
    if outs == [] then [] else BlocksOf(outs[..|outs| - 1]) + [outs[|outs| - 1].blocks]
  }

  lemma {:induction false} RenderKeepsBlocks(msg: Msg, segments: seq<seq<Block>>)
    requires Segmentation(segments)
    ensures BlocksOf(Render(msg, segments)) == segments && |Render(msg, segments)| == |segments|
  {
    if segments != [] {
      var front, last := segments[..|segments| - 1], segments[|segments| - 1];
      RenderKeepsBlocks(msg, front);
      var outs := Render(msg, segments);
      assert outs[..|outs| - 1] == Render(msg, front);
      assert RenderOne(msg, last, Plains(front)).blocks == last;
      assert segments == front + [last];
    }
  }

  /** Nothing of a message is lost or reordered; results and hints stand alone, no two neighbouring
      messages are plain, and none is empty unless the content is. */
  lemma ExpansionIsSound(msg: Msg)
    ensures Flatten(BlocksOf(Expanded(msg))) == msg.content
    ensures if msg.content == [] then BlocksOf(Expanded(msg)) == [[]] else Segmentation(BlocksOf(Expanded(msg)))
  {
    SplitIsSound(msg.content);
    if msg.content == [] {
      var empty := Out(Plain, [], msg.legacyReasoning, None);
      assert [empty][..0] == [];
      assert BlocksOf([empty]) == [[]];
      var nothing: seq<Block> := [];
      assert [] + [nothing] == [nothing];
    } else {
      RenderKeepsBlocks(msg, Split(msg.content));
    }
  }

  /** The kind of message that blocks like these are sent as: a tool result as a tool message, a hint as
      a user message, both alone and undecorated; anything else as a plain one. */
  predicate KindFits(out: Out) {
    && (out.kind == Tool <==> |out.blocks| == 1 && out.blocks[0].ToolResult?)
    && (out.kind == UserHint <==> |out.blocks| == 1 && out.blocks[0].Hint?)
    && (out.kind == Plain <==> forall b :: b in out.blocks ==> !b.ToolResult? && !b.Hint?)
    && (out.kind != Plain ==> out.reasoning == "" && out.items == None)
  }

  lemma RenderedKind(msg: Msg, segment: seq<Block>, n: nat)
    requires WellCut(segment)
    ensures KindFits(RenderOne(msg, segment, n))
  {
  }

  lemma {:induction false} RenderedKinds(msg: Msg, segments: seq<seq<Block>>, k: nat)
    requires Segmentation(segments) && k < |Render(msg, segments)|
    ensures KindFits(Render(msg, segments)[k])
  {
    var front := segments[..|segments| - 1];
    if k < |Render(msg, front)| {
      RenderedKinds(msg, front, k);
    } else {
      RenderedKind(msg, segments[|segments| - 1], Plains(front));
    }
  }

  /** Every message is of the kind of its blocks; with `ExpansionIsSound` every result and every hint is
      sent as one. */
  lemma KindsFollowTheBlocks(msg: Msg, k: nat)
    requires k < |Expanded(msg)|
    ensures KindFits(Expanded(msg)[k])
  {
    if msg.content != [] {
      SplitIsSound(msg.content);
      RenderedKinds(msg, Split(msg.content), k);
    }
  }

  /** The reasoning of blocks is the text of the thinking blocks among them, in order. */
  lemma {:induction false} ThinkingAdds(a: seq<Block>, b: seq<Block>)
    ensures ThinkingOf(a + b) == ThinkingOf(a) + ThinkingOf(b)
  {
    if a == [] {
      assert a + b == b;
    } else {
      assert (a + b)[1..] == a[1..] + b;
      ThinkingAdds(a[1..], b);
    }
  }

  lemma ThinkingOfOne(b: Block)
    ensures ThinkingOf([b]) == if b.Thinking? then b.thinking else ""
  {
    assert [b][1..] == [];
  }

  /** Which segment holds block `i`. */
  function SegmentOf(segments: seq<seq<Block>>, i: nat): nat {
    if segments == [] then 0
    else
      var front := segments[..|segments| - 1];
      if i < |Flatten(front)| then SegmentOf(front, i) else |front|
  }

  lemma {:induction false} SegmentOfInRange(segments: seq<seq<Block>>, i: nat)
    requires i < |Flatten(segments)|
    ensures SegmentOf(segments, i) < |segments|
  {
    if i < |Flatten(segments[..|segments| - 1])| {
      SegmentOfInRange(segments[..|segments| - 1], i);
    }
  }

  lemma {:induction false} AloneComesAfter(segments: seq<seq<Block>>, i: nat, j: nat)
    requires Segmentation(segments) && i < j < |Flatten(segments)| && StandsAlone(Flatten(segments)[j])
    ensures SegmentOf(segments, i) < SegmentOf(segments, j) < |segments|
  {
    var front, last := segments[..|segments| - 1], segments[|segments| - 1];
    if j < |Flatten(front)| {
      assert Flatten(segments)[j] == Flatten(front)[j];
      AloneComesAfter(front, i, j);
    } else {
      assert Flatten(segments)[j] == last[j - |Flatten(front)|];
      assert StandsAlone(last[0]);
      SegmentOfInRange(front, i);
    }
  }

  /** A tool result is sent in a later message than everything before it, so after its call. */
  lemma ResultFollowsItsCall(msg: Msg, i: nat, j: nat)
    requires i < j < |msg.content| && msg.content[i].ToolCall? && msg.content[j].ToolResult?
    requires msg.content[i].id == msg.content[j].id
    ensures var segments := BlocksOf(Expanded(msg));
      SegmentOf(segments, i) < SegmentOf(segments, j) < |Expanded(msg)|
  {
    SplitIsSound(msg.content);
    RenderKeepsBlocks(msg, Split(msg.content));
    AloneComesAfter(Split(msg.content), i, j);
  }

  function PlainOuts(outs: seq<Out>): nat {
    if outs == [] then 0
    else PlainOuts(outs[..|outs| - 1]) + (if outs[|outs| - 1].kind == Plain then 1 else 0)
  }

  predicate Decorated(msg: Msg, out: Out, n: nat) {
    out.kind == Plain ==>
      && out.items == (if n < |msg.groups| then msg.groups[n] else None)
      && (var own := if msg.role == AssistantRole then ThinkingOf(out.blocks) else "";
          out.reasoning == (if n == 0 && own == "" then msg.legacyReasoning else own))
  }

  lemma OneDecorated(msg: Msg, segment: seq<Block>, n: nat)
    ensures Decorated(msg, RenderOne(msg, segment, n), n)
  {
  }

  lemma {:induction false} RenderDecorates(msg: Msg, segments: seq<seq<Block>>, k: nat)
    requires Segmentation(segments) && k < |Render(msg, segments)|
    ensures Decorated(msg, Render(msg, segments)[k], PlainOuts(Render(msg, segments)[..k]))
    ensures PlainOuts(Render(msg, segments)) == Plains(segments)
  {
    var front, last := segments[..|segments| - 1], segments[|segments| - 1];
    var outs, before := Render(msg, segments), Render(msg, front);
    assert outs[..|outs| - 1] == before;
    CountPlains(msg, front);
    CountPlains(msg, segments);
    if k < |before| {
      RenderDecorates(msg, front, k);
      assert outs[..k] == before[..k];
    } else {
      assert outs[..k] == before && outs[k] == RenderOne(msg, last, Plains(front));
      OneDecorated(msg, last, Plains(front));
    }
  }

  lemma {:induction false} CountPlains(msg: Msg, segments: seq<seq<Block>>)
    requires Segmentation(segments)
    ensures PlainOuts(Render(msg, segments)) == Plains(segments)
  {
    if segments != [] {
      var front := segments[..|segments| - 1];
      CountPlains(msg, front);
      assert Render(msg, segments)[..|Render(msg, front)|] == Render(msg, front);
    }
  }

  /** The k-th plain message carries the k-th response item group, and only the first one may carry
      the legacy reasoning, when its own blocks have none; so does the one of an empty content. */
  lemma DecorationsGoInOrder(msg: Msg, k: nat)
    requires k < |Expanded(msg)|
    ensures var out := Expanded(msg)[k];
      if msg.content == [] then out.reasoning == msg.legacyReasoning && out.items == None
      else Decorated(msg, out, PlainOuts(Expanded(msg)[..k]))
  {
    if msg.content != [] {
      SplitIsSound(msg.content);
      RenderDecorates(msg, Split(msg.content), k);
    }
  }

  // ---------------------------------------------------------------- appending to a reply

  /** The last assistant message named `id`, or -1. */
  function LastReply(context: seq<Msg>, id: string): (p: int)
    ensures -1 <= p < |context|
    ensures p >= 0 ==> context[p].role == AssistantRole && context[p].id == id
  {
    if context == [] then -1
    else
      var last := context[|context| - 1];
      if last.role == AssistantRole && last.id == id then |context| - 1
      else LastReply(context[..|context| - 1], id)
  }

  function Appended(context: seq<Msg>, id: string, blocks: seq<Block>): seq<Msg> {
    var p := LastReply(context, id);
    if blocks == [] then context
    else if p >= 0 then context[p := context[p].(content := context[p].content + blocks)]
    else context + [Msg(id, AssistantRole, blocks, "", [])]
  }

  lemma {:induction false} LastReplyIsLast(context: seq<Msg>, id: string)
    ensures forall k :: LastReply(context, id) < k < |context| ==>
              context[k].role != AssistantRole || context[k].id != id
  {
    if context != [] && !(context[|context| - 1].role == AssistantRole && context[|context| - 1].id == id) {
      LastReplyIsLast(context[..|context| - 1], id);
    }
  }

  /** The blocks join the last assistant message with the id, at its end. */
  lemma AppendedJoins(context: seq<Msg>, id: string, blocks: seq<Block>, p: nat)
    requires blocks != [] && p < |context| && context[p].role == AssistantRole && context[p].id == id
    requires forall k :: p < k < |context| ==> context[k].role != AssistantRole || context[k].id != id
    ensures Appended(context, id, blocks) == context[p := context[p].(content := context[p].content + blocks)]
  {
    LastReplyIsLast(context, id);
  }

  /** If there is none they become a new one behind all others. */
  lemma AppendedStarts(context: seq<Msg>, id: string, blocks: seq<Block>)
    requires blocks != [] && forall k :: 0 <= k < |context| ==> context[k].role != AssistantRole || context[k].id != id
    ensures Appended(context, id, blocks) == context + [Msg(id, AssistantRole, blocks, "", [])]
  {
  }

  lemma {:induction false} LastReplyUpdate(context: seq<Msg>, p: nat, m: Msg, id: string)
    requires p == LastReply(context, id) && m.role == AssistantRole && m.id == id
    ensures LastReply(context[p := m], id) == p
  {
    if p < |context| - 1 {
      assert context[p := m][..|context| - 1] == context[..|context| - 1][p := m];
      LastReplyUpdate(context[..|context| - 1], p, m, id);
    }
  }

  /** Appending blocks in two calls gives what one call with all of them gives. */
  lemma AppendInTwoCalls(context: seq<Msg>, id: string, first: seq<Block>, second: seq<Block>)
    ensures Appended(Appended(context, id, first), id, second) == Appended(context, id, first + second)
  {
    var p := LastReply(context, id);
    if first == [] {
      assert first + second == second;
    } else if second == [] {
      assert first + second == first;
    } else if p >= 0 {
      var m := context[p].(content := context[p].content + first);
      LastReplyUpdate(context, p, m, id);
      assert (context[p].content + first) + second == context[p].content + (first + second);
    } else {
      var m := Msg(id, AssistantRole, first, "", []);
      assert (context + [m])[|context|] == m;
      assert (context + [m])[|context| := m.(content := first + second)] == context + [m.(content := first + second)];
    }
  }

  class Context {
    var messages: seq<Msg>

    constructor (messages: seq<Msg>)
      ensures this.messages == messages
    {
      this.messages := messages;
    }

    method AppendReplyBlocks(id: string, blocks: seq<Block>)
      modifies this
      ensures messages == Appended(old(messages), id, blocks)
    {
      if blocks == [] {
        return;
      }
      assert messages[..|messages|] == messages;
      for k := |messages| downto 0
        invariant messages == old(messages)
        invariant LastReply(messages, id) == LastReply(messages[..k], id)
      {
        assert messages[..k + 1][..k] == messages[..k];
        var message := messages[k];
        if message.role == AssistantRole && message.id == id {
          messages := messages[k := message.(content := message.content + blocks)];
          return;
        }
      }
      messages := messages + [Msg(id, AssistantRole, blocks, "", [])];
    }
  }
}
