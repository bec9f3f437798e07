/** The consumer side of the LLM stream protocol: `BlockAssembler` rebuilds content blocks from
    interleaved, indexed deltas and rejects the first chunk that breaks the protocol.

    `Feed` is the value-level step the class is proved against. The results about it are stated
    on whole streams: what each block holds (`BlocksHoldTheirDeltas`), that only the per-index
    order of chunks matters (`ReorderingIsInvisible`), and that acceptance is exactly a
    declarative grammar (`AcceptedIffGrammar`); `RefusedIsReported` and `IncompleteIsReported` say which
    error a stream outside it ends in. */
module BlockAssembler {
  import opened Prelude

  // ---------------------------------------------------------------- chunks and blocks

  datatype BlockType = Text | Reasoning | ToolCall | UnknownType(name: string)

  /** The `type` entry of the block carried by a block-end; `NoType` is a missing or empty entry. */
  datatype WireType = NoType | TextWire | ThinkingWire | ToolCallWire | OtherWire(name: string)

  datatype FinishKind = Stop | ToolCalls | MaxTokens | Error | Aborted

  datatype Failure = Failure(code: string, message: string)

  datatype FinishReason = FinishReason(kind: FinishKind, failure: Option<Failure>)

  datatype Chunk =
    | Start(index: int, blockType: BlockType)
    | TextDelta(index: int, text: string)
    | ReasoningDelta(index: int, text: string)
    | ToolDelta(index: int, callId: string, name: string, arguments: string)
    | End(index: int, wire: WireType)
    | Usage(tokens: Option<nat>)
    | Finish(reason: FinishReason)
    | Unrecognised

  datatype Block =
    | TextBlock(text: string)
    | ThinkingBlock(thinking: string)
    | ToolCallBlock(id: string, name: string, arguments: string)

  datatype ProtocolError =
    | ChunkAfterFinish
    | UnknownChunk
    | UnexpectedIndex
    | UnknownBlockType
    | NotOpen
    | TypeMismatch
    | UnclosedBlocks
    | NoFinish

  /** The accumulated content of a block that is started and not ended. */
  datatype Partial = Partial(blockType: BlockType, text: string, callId: string, name: string, arguments: string)

  function Empty(blockType: BlockType): Partial {
    Partial(blockType, "", "", "", "")
  }

  predicate Known(blockType: BlockType) {
    !blockType.UnknownType?
  }

  function WireOf(blockType: BlockType): WireType {
    match blockType
    case Text => TextWire
    case Reasoning => ThinkingWire
    case ToolCall => ToolCallWire
    case UnknownType(name) => OtherWire(name)
  }

  function Finalize(p: Partial): Block {
    match p.blockType
    case Text => TextBlock(p.text)
    case Reasoning => ThinkingBlock(p.text)
    case _ => ToolCallBlock(p.callId, p.name, p.arguments)
  }

  /** Chunks that act on the block with their index. */
  predicate OnBlock(c: Chunk) {
    c.Start? || UsesBlock(c)
  }

  /** Chunks that need an open block. */
  predicate UsesBlock(c: Chunk) {
    c.TextDelta? || c.ReasoningDelta? || c.ToolDelta? || c.End?
  }

  /** A delta or end may act on a block of type `t`. */
  predicate Fits(t: BlockType, c: Chunk)
    requires UsesBlock(c)
  {
    match c
    case TextDelta(_, _) => t == Text
    case ReasoningDelta(_, _) => t == Reasoning
    case ToolDelta(_, _, _, _) => t == ToolCall
    case End(_, wire) => wire == NoType || wire == WireOf(t)
  }

  // ---------------------------------------------------------------- one chunk

  datatype State = State(
    open: map<int, Partial>,
    blocks: map<int, Block>,
    nextIndex: nat,
    usage: Option<nat>,
    finish: Option<FinishReason>)

  const Fresh := State(map[], map[], 0, None, None)

  function Accumulate(p: Partial, c: Chunk): Partial {
    match c
    case TextDelta(_, text) => p.(text := p.text + text)
    case ReasoningDelta(_, text) => p.(text := p.text + text)
    case ToolDelta(_, callId, name, arguments) =>
      p.(callId := if callId != "" then callId else p.callId,
         name := if name != "" then name else p.name,
         arguments := p.arguments + arguments)
    case _ => p
  }

  function Feed(s: State, c: Chunk): Result<State, ProtocolError> {
    if s.finish.Some? then Err(ChunkAfterFinish)
    else match c
      case Start(index, blockType) =>
        if index != s.nextIndex then Err(UnexpectedIndex)
        else if !Known(blockType) then Err(UnknownBlockType)
        else Ok(s.(open := s.open[index := Empty(blockType)], nextIndex := s.nextIndex + 1))
      case Usage(tokens) => Ok(s.(usage := tokens))
      case Finish(reason) => Ok(s.(finish := Some(reason)))
      case Unrecognised => Err(UnknownChunk)
      case End(index, _) =>
        if index !in s.open then Err(NotOpen)
        else if !Fits(s.open[index].blockType, c) then Err(TypeMismatch)
        else Ok(s.(open := s.open - {index}, blocks := s.blocks[index := Finalize(s.open[index])]))
      case _ =>
        if c.index !in s.open then Err(NotOpen)
        else if !Fits(s.open[c.index].blockType, c) then Err(TypeMismatch)
        else Ok(s.(open := s.open[c.index := Accumulate(s.open[c.index], c)]))
  }

  function Validate(s: State): Option<ProtocolError> {
    if s.open != map[] then Some(UnclosedBlocks)
    else if s.finish.None? then Some(NoFinish)
    else None
  }

  /** The members of `keys` below `n`, in increasing order. */
  function Ascending(keys: set<int>, n: nat): (r: seq<int>)
    ensures forall i :: i in r <==> i in keys && 0 <= i < n
    ensures forall k :: 0 <= k < |r| ==> r[k] in keys
    ensures forall a, b :: 0 <= a < b < |r| ==> r[a] < r[b]
  {
    if n == 0 then []
    else
      var lower := Ascending(keys, n - 1);
      assert forall a :: 0 <= a < |lower| ==> lower[a] in lower;
      lower + (if n - 1 in keys then [n - 1] else [])
  }

  function WithoutToolCalls(blocks: seq<Block>): seq<Block> {
    if blocks == [] then []
    else (if blocks[0].ToolCallBlock? then [] else [blocks[0]]) + WithoutToolCalls(blocks[1..])
  }

  predicate Truncated(s: State) {
    s.finish.Some? && s.finish.value.kind == MaxTokens
  }

  function Pick(blocks: map<int, Block>, keys: seq<int>): (r: seq<Block>)
    requires forall k :: 0 <= k < |keys| ==> keys[k] in blocks
    ensures |r| == |keys| && forall k :: 0 <= k < |r| ==> r[k] == blocks[keys[k]]
  {
    seq(|keys|, k requires 0 <= k < |keys| => blocks[keys[k]])
  }

  function Blocks(s: State): seq<Block> {
    var all := Pick(s.blocks, Ascending(s.blocks.Keys, s.nextIndex));
    if Truncated(s) then WithoutToolCalls(all) else all
  }

  // ---------------------------------------------------------------- whole streams

  /** The state after feeding `cs` to a fresh assembler, or the first error. */
  function Run(cs: seq<Chunk>): Result<State, ProtocolError> {
    if cs == [] then Ok(Fresh)
    else
      var before := Run(cs[..|cs| - 1]);
      if before.Err? then before else Feed(before.value, cs[|cs| - 1])
  }

  predicate Accepts(cs: seq<Chunk>) {
    Run(cs).Ok?
  }

  lemma RunSnoc(cs: seq<Chunk>, c: Chunk)
    ensures Run(cs + [c]) == if Run(cs).Err? then Run(cs) else Feed(Run(cs).value, c)
  {
    assert (cs + [c])[..|cs|] == cs;
  }

  lemma {:induction false} AcceptedPrefix(cs: seq<Chunk>, n: nat)
    requires Accepts(cs) && n <= |cs|
    ensures Accepts(cs[..n])
  {
    if n == |cs| {
      assert cs[..n] == cs;
    } else {
      assert cs[..|cs| - 1][..n] == cs[..n];
      AcceptedPrefix(cs[..|cs| - 1], n);
    }
  }

  // ---------------------------------------------------------------- the per-index reading of a stream

  /** The chunks of `cs` that carry block index `i`, in stream order. */
  function Slice(cs: seq<Chunk>, i: int): seq<Chunk> {
    if cs == [] then []
    else
      var last := cs[|cs| - 1];
      Slice(cs[..|cs| - 1], i) + (if OnBlock(last) && last.index == i then [last] else [])
  }

  function DeltaText(c: Chunk): string {
    if c.TextDelta? || c.ReasoningDelta? then c.text else ""
  }

  function DeltaArguments(c: Chunk): string {
    if c.ToolDelta? then c.arguments else ""
  }

  /** All text of a slice, in order. */
  function TextOf(slice: seq<Chunk>): string {
    if slice == [] then "" else TextOf(slice[..|slice| - 1]) + DeltaText(slice[|slice| - 1])
  }

  /** All argument fragments of a slice, in order. */
  function ArgumentsOf(slice: seq<Chunk>): string {
    if slice == [] then "" else ArgumentsOf(slice[..|slice| - 1]) + DeltaArguments(slice[|slice| - 1])
  }

  /** The last non-empty call id of a slice, or empty. */
  function CallIdOf(slice: seq<Chunk>): string {
    if slice == [] then ""
    else
      var last := slice[|slice| - 1];
      if last.ToolDelta? && last.callId != "" then last.callId else CallIdOf(slice[..|slice| - 1])
  }

  /** The last non-empty tool name of a slice, or empty. */
  function NameOf(slice: seq<Chunk>): string {
    if slice == [] then ""
    else
      var last := slice[|slice| - 1];
      if last.ToolDelta? && last.name != "" then last.name else NameOf(slice[..|slice| - 1])
  }

  /** What the chunks of one block's slice add up to. */
  function Content(slice: seq<Chunk>): Partial {
    Partial(if |slice| > 0 && slice[0].Start? then slice[0].blockType else UnknownType(""),
            TextOf(slice), CallIdOf(slice), NameOf(slice), ArgumentsOf(slice))
  }

  predicate Ended(slice: seq<Chunk>) {
    |slice| > 0 && slice[|slice| - 1].End?
  }

  /** What an accepted stream has established: started indices are exactly 0..nextIndex-1, split
      into the open and the finished ones, and each block holds the deltas of its own slice. */
  ghost predicate Agrees(cs: seq<Chunk>, s: State) {
    forall i :: AgreesAt(s, i, Slice(cs, i))
  }

  ghost predicate AgreesAt(s: State, i: int, slice: seq<Chunk>) {
    if i in s.open then
      0 <= i < s.nextIndex && i !in s.blocks && slice != [] && !Ended(slice) && s.open[i] == Content(slice)
    else if i in s.blocks then
      0 <= i < s.nextIndex && Ended(slice) && s.blocks[i] == Finalize(Content(slice))
    else
      !(0 <= i < s.nextIndex) && slice == []
  }

  lemma SliceSnoc(cs: seq<Chunk>, c: Chunk, i: int)
    ensures Slice(cs + [c], i) == Slice(cs, i) + (if OnBlock(c) && c.index == i then [c] else [])
  {
    assert (cs + [c])[..|cs|] == cs;
  }

  lemma ContentSnoc(slice: seq<Chunk>, c: Chunk)
    requires slice != [] && UsesBlock(c)
    ensures Content(slice + [c]) == Accumulate(Content(slice), c)
  {
    assert (slice + [c])[..|slice|] == slice;
  }

  lemma ContentStart(c: Chunk)
    requires c.Start?
    ensures Content([c]) == Empty(c.blockType)
  {
    var front := [c][..|[c]| - 1];
    assert front == [];
    assert TextOf(front) == "" && ArgumentsOf(front) == "" && CallIdOf(front) == "" && NameOf(front) == "";
  }

  lemma FeedElsewhere(s: State, c: Chunk, i: int, slice: seq<Chunk>)
    requires AgreesAt(s, i, slice) && Feed(s, c).Ok? && !(OnBlock(c) && c.index == i)
    ensures AgreesAt(Feed(s, c).value, i, slice)
  {
  }

  lemma FeedAgreesAt(s: State, c: Chunk, i: int, slice: seq<Chunk>)
    requires AgreesAt(s, i, slice) && Feed(s, c).Ok?
    ensures AgreesAt(Feed(s, c).value, i, slice + (if OnBlock(c) && c.index == i then [c] else []))
  {
    if c.Start? && c.index == i {
      ContentStart(c);
      assert slice + [c] == [c];
    } else if UsesBlock(c) && c.index == i {
      ContentSnoc(slice, c);
    } else {
      assert slice + [] == slice;
      FeedElsewhere(s, c, i, slice);
    }
  }

  lemma FeedAgrees(cs: seq<Chunk>, s: State, c: Chunk)
    requires Agrees(cs, s) && Feed(s, c).Ok?
    ensures Agrees(cs + [c], Feed(s, c).value)
  {
    forall i
      ensures AgreesAt(Feed(s, c).value, i, Slice(cs + [c], i))
    {
      FeedAgreesAt(s, c, i, Slice(cs, i));
      SliceSnoc(cs, c, i);
    }
  }

  lemma {:induction false} RunAgrees(cs: seq<Chunk>)
    requires Accepts(cs)
    ensures Agrees(cs, Run(cs).value)
  {
    if cs != [] {
      var front := cs[..|cs| - 1];
      RunAgrees(front);
      FeedAgrees(front, Run(front).value, cs[|cs| - 1]);
      assert front + [cs[|cs| - 1]] == cs;
    }
  }

  lemma StartedIffSliced(s: State, i: int, slice: seq<Chunk>)
    requires AgreesAt(s, i, slice)
    ensures slice != [] <==> 0 <= i < s.nextIndex
  {
  }

  /** A slice starts with the start of its block, and starts once. */
  predicate StartsOnce(slice: seq<Chunk>) {
    (slice != [] ==> slice[0].Start?) && forall k :: 0 < k < |slice| ==> !slice[k].Start?
  }

  lemma {:induction false} SlicesStartOnce(cs: seq<Chunk>, i: int)
    requires Accepts(cs)
    ensures StartsOnce(Slice(cs, i))
  {
    if cs != [] {
      var front, c := cs[..|cs| - 1], cs[|cs| - 1];
      SlicesStartOnce(front, i);
      RunAgrees(front);
      assert AgreesAt(Run(front).value, i, Slice(front, i));
      SliceGrowsWell(Run(front).value, c, i, Slice(front, i));
    }
  }

  lemma SliceGrowsWell(s: State, c: Chunk, i: int, slice: seq<Chunk>)
    requires AgreesAt(s, i, slice) && Feed(s, c).Ok? && StartsOnce(slice)
    ensures StartsOnce(slice + (if OnBlock(c) && c.index == i then [c] else []))
  {
  }

  lemma {:induction false} StartIsSliced(cs: seq<Chunk>, i: int, t: BlockType)
    requires Start(i, t) in cs
    ensures Start(i, t) in Slice(cs, i)
  {
    if cs[|cs| - 1] != Start(i, t) {
      StartIsSliced(cs[..|cs| - 1], i, t);
    }
  }

  /** The start of an index is the first chunk of its slice. */
  lemma StartIsFirst(cs: seq<Chunk>, i: int, t: BlockType)
    requires Accepts(cs) && Start(i, t) in cs
    ensures Slice(cs, i) != [] && Slice(cs, i)[0] == Start(i, t)
  {
    StartIsSliced(cs, i, t);
    SlicesStartOnce(cs, i);
  }

  lemma StartedIsKnown(cs: seq<Chunk>, i: int, t: BlockType)
    requires Accepts(cs) && Start(i, t) in cs
    ensures t == Text || t == Reasoning || t == ToolCall
  {
    var p :| 0 <= p < |cs| && cs[p] == Start(i, t);
    AcceptedPrefix(cs, p);
    AcceptedPrefix(cs, p + 1);
    assert cs[..p + 1] == cs[..p] + [cs[p]];
    RunSnoc(cs[..p], cs[p]);
  }

  /** The block that a slice of this type ends up as. */
  predicate IsBlockOf(block: Block, t: BlockType, slice: seq<Chunk>) {
    && (t == Text ==> block == TextBlock(TextOf(slice)))
    && (t == Reasoning ==> block == ThinkingBlock(TextOf(slice)))
    && (t == ToolCall ==> block == ToolCallBlock(CallIdOf(slice), NameOf(slice), ArgumentsOf(slice)))
  }

  lemma FinalizedKind(slice: seq<Chunk>, i: int, t: BlockType)
    requires slice != [] && slice[0] == Start(i, t) && Known(t)
    ensures IsBlockOf(Finalize(Content(slice)), t, slice)
  {
  }

  lemma FinishedBlocks(cs: seq<Chunk>) returns (all: seq<Block>)
    requires Accepts(cs) && Validate(Run(cs).value).None?
    ensures |all| == Run(cs).value.nextIndex
    ensures forall i :: 0 <= i < |all| ==> Ended(Slice(cs, i)) && all[i] == Finalize(Content(Slice(cs, i)))
    ensures forall i :: !(0 <= i < |all|) ==> Slice(cs, i) == []
    ensures Blocks(Run(cs).value) == if Truncated(Run(cs).value) then WithoutToolCalls(all) else all
  {
    RunAgrees(cs);
    var s := Run(cs).value;
    forall i
      ensures 0 <= i < s.nextIndex ==>
                i in s.blocks && Ended(Slice(cs, i)) && s.blocks[i] == Finalize(Content(Slice(cs, i)))
      ensures !(0 <= i < s.nextIndex) ==> Slice(cs, i) == []
    {
      assert AgreesAt(s, i, Slice(cs, i));
    }
    AscendingAll(s.blocks.Keys, s.nextIndex);
    all := Pick(s.blocks, Ascending(s.blocks.Keys, s.nextIndex));
  }

  lemma {:induction false} AscendingAll(keys: set<int>, n: nat)
    requires forall i :: 0 <= i < n ==> i in keys
    ensures Ascending(keys, n) == seq(n, i => i)
  {
    if n > 0 {
      AscendingAll(keys, n - 1);
      assert (n - 1) in keys;
      assert seq(n, i => i) == seq(n - 1, i => i) + [n - 1];
    }
  }

  /** A stream that passes every `Feed` and `Validate` yields one block per start, in index order: a
      text or thinking block with all text carrying its index in order, or a tool call with the last
      non-empty id and name and all arguments in order; a truncated reply loses its tool calls. */
  lemma BlocksHoldTheirDeltas(cs: seq<Chunk>) returns (all: seq<Block>)
    requires Accepts(cs) && Validate(Run(cs).value).None?
    ensures |all| == Run(cs).value.nextIndex
    ensures forall i :: 0 <= i < |all| ==> Ended(Slice(cs, i)) && all[i] == Finalize(Content(Slice(cs, i)))
    ensures forall i :: !(0 <= i < |all|) ==> Slice(cs, i) == []
    ensures forall i, t :: Start(i, t) in cs ==> 0 <= i < |all|
    ensures forall i :: Start(i, Text) in cs && 0 <= i < |all| ==> all[i] == TextBlock(TextOf(Slice(cs, i)))
    ensures forall i :: Start(i, Reasoning) in cs && 0 <= i < |all| ==>
              all[i] == ThinkingBlock(TextOf(Slice(cs, i)))
    ensures forall i :: Start(i, ToolCall) in cs && 0 <= i < |all| ==>
              all[i] == ToolCallBlock(CallIdOf(Slice(cs, i)), NameOf(Slice(cs, i)), ArgumentsOf(Slice(cs, i)))
    ensures Blocks(Run(cs).value) == if Truncated(Run(cs).value) then WithoutToolCalls(all) else all
  {
    all := FinishedBlocks(cs);
    forall i, t | Start(i, t) in cs
      ensures 0 <= i < |all| && IsBlockOf(all[i], t, Slice(cs, i))
    {
      StartIsFirst(cs, i, t);
      StartedIsKnown(cs, i, t);
      FinalizedKind(Slice(cs, i), i, t);
    }
  }

  /** Leaving tool calls out leaves the other blocks in their order. */
  lemma {:induction false} WithoutToolCallsIs(a: seq<Block>, b: seq<Block>)
    ensures WithoutToolCalls(a + b) == WithoutToolCalls(a) + WithoutToolCalls(b)
  {
    if a == [] {
      assert a + b == b;
    } else {
      assert (a + b)[1..] == a[1..] + b;
      WithoutToolCallsIs(a[1..], b);
    }
  }

  lemma WithoutToolCallsOne(block: Block)
    ensures WithoutToolCalls([block]) == if block.ToolCallBlock? then [] else [block]
  {
    assert [block][1..] == [];
  }

  /** They are left out exactly after a finish for want of tokens, and the usage is the last one reported. */
  lemma {:induction false} FinishAndUsage(cs: seq<Chunk>, p: nat)
    requires Accepts(cs)
    ensures Truncated(Run(cs).value) <==> exists failure :: Finish(FinishReason(MaxTokens, failure)) in cs
    ensures p < |cs| && cs[p].Usage? && (forall q :: p < q < |cs| ==> !cs[q].Usage?) ==>
              Run(cs).value.usage == cs[p].tokens
  {
    RunRecords(cs);
    var finish := Run(cs).value.finish;
    if finish.Some? {
      assert finish.value == FinishReason(finish.value.kind, finish.value.failure);
    }
    if p < |cs| - 1 {
      FinishAndUsage(cs[..|cs| - 1], p);
      assert forall q :: p < q < |cs| - 1 ==> cs[..|cs| - 1][q] == cs[q];
    }
  }

  /** The two states hold the same at index `i`. */
  predicate Alike(s: State, t: State, i: int) {
    && (i in s.open <==> i in t.open) && (i in s.blocks <==> i in t.blocks)
    && (i in s.open && i in t.open ==> s.open[i] == t.open[i])
    && (i in s.blocks && i in t.blocks ==> s.blocks[i] == t.blocks[i])
  }

  lemma SameAt(s: State, t: State, i: int, slice: seq<Chunk>)
    requires AgreesAt(s, i, slice) && AgreesAt(t, i, slice)
    ensures Alike(s, t, i)
  {
  }

  lemma AlikeIsSame(s: State, t: State)
    requires forall i :: Alike(s, t, i)
    ensures s.open == t.open && s.blocks == t.blocks
  {
    forall i
      ensures i in s.open <==> i in t.open
      ensures i in s.open && i in t.open ==> s.open[i] == t.open[i]
      ensures i in s.blocks <==> i in t.blocks
      ensures i in s.blocks && i in t.blocks ==> s.blocks[i] == t.blocks[i]
    {
      assert Alike(s, t, i);
    }
  }

  lemma SameTables(cs: seq<Chunk>, ds: seq<Chunk>)
    requires Accepts(cs) && Accepts(ds) && forall i :: Slice(cs, i) == Slice(ds, i)
    ensures Run(cs).value.open == Run(ds).value.open && Run(cs).value.blocks == Run(ds).value.blocks
  {
    RunAgrees(cs);
    RunAgrees(ds);
    var s, t := Run(cs).value, Run(ds).value;
    forall i
      ensures Alike(s, t, i)
    {
      SameAt(s, t, i, Slice(cs, i));
    }
    AlikeIsSame(s, t);
  }

  lemma SameNext(cs: seq<Chunk>, ds: seq<Chunk>)
    requires Accepts(cs) && Accepts(ds) && forall i :: Slice(cs, i) == Slice(ds, i)
    ensures Run(cs).value.nextIndex == Run(ds).value.nextIndex
  {
    RunAgrees(cs);
    RunAgrees(ds);
    var s, t := Run(cs).value, Run(ds).value;
    var n := if s.nextIndex < t.nextIndex then s.nextIndex else t.nextIndex;
    StartedIffSliced(s, n, Slice(cs, n));
    StartedIffSliced(t, n, Slice(ds, n));
  }

  /** Two accepted streams that agree on every index's own subsequence and on the multiset of
      chunks build the same blocks, however the indices are interleaved. */
  lemma ReorderingIsInvisible(cs: seq<Chunk>, ds: seq<Chunk>)
    requires Accepts(cs) && Accepts(ds)
    requires multiset(cs) == multiset(ds)
    requires forall i :: Slice(cs, i) == Slice(ds, i)
    ensures var s, t := Run(cs).value, Run(ds).value;
      && s.open == t.open && s.blocks == t.blocks && s.nextIndex == t.nextIndex && s.finish == t.finish
      && Validate(s) == Validate(t)
      && Blocks(s) == Blocks(t)
  {
    SameTables(cs, ds);
    SameNext(cs, ds);
    SameFinish(cs, ds);
  }

  lemma SameFinish(cs: seq<Chunk>, ds: seq<Chunk>)
    requires Accepts(cs) && Accepts(ds) && multiset(cs) == multiset(ds)
    ensures Run(cs).value.finish == Run(ds).value.finish
  {
    RunRecords(cs);
    RunRecords(ds);
    var s, t := Run(cs).value, Run(ds).value;
    forall reason
      ensures Finish(reason) in cs <==> Finish(reason) in ds
    {
      assert Finish(reason) in multiset(cs) <==> Finish(reason) in multiset(ds);
    }
    assert s.finish.Some? ==> t.finish == Some(s.finish.value);
  }

  // ---------------------------------------------------------------- the grammar of a stream

  function Starts(cs: seq<Chunk>): nat {
    if cs == [] then 0 else Starts(cs[..|cs| - 1]) + (if cs[|cs| - 1].Start? then 1 else 0)
  }

  ghost predicate HasEnd(cs: seq<Chunk>, i: int) {
    exists wire: WireType :: End(i, wire) in cs
  }

  /** What an accepted stream has recorded, read off the chunks it contains. */
  ghost predicate Records(cs: seq<Chunk>, s: State) {
    && s.nextIndex == Starts(cs)
    && (forall reason :: s.finish == Some(reason) <==> Finish(reason) in cs)
    && (forall i, t :: Start(i, t) in cs ==> 0 <= i < s.nextIndex)
    && (forall i, wire :: End(i, wire) in cs ==> 0 <= i < s.nextIndex && i !in s.open)
    && (forall i, t :: Start(i, t) in cs && !HasEnd(cs, i) ==> i in s.open && s.open[i].blockType == t)
    && (forall i :: i in s.open ==> 0 <= i < s.nextIndex && Start(i, s.open[i].blockType) in cs && !HasEnd(cs, i))
  }

  lemma FeedRecords(cs: seq<Chunk>, s: State, c: Chunk)
    requires Records(cs, s) && Feed(s, c).Ok?
    ensures Records(cs + [c], Feed(s, c).value)
  {
    var ds, t := cs + [c], Feed(s, c).value;
    assert ds[..|cs|] == cs;
    forall i
      ensures HasEnd(ds, i) <==> HasEnd(cs, i) || (c.End? && c.index == i)
    {
      if c.End? && c.index == i {
        assert End(i, c.wire) in ds;
      }
    }
  }

  lemma {:induction false} RunRecords(cs: seq<Chunk>)
    requires Accepts(cs)
    ensures Records(cs, Run(cs).value)
  {
    if cs != [] {
      var front := cs[..|cs| - 1];
      RunRecords(front);
      FeedRecords(front, Run(front).value, cs[|cs| - 1]);
      assert front + [cs[|cs| - 1]] == cs;
    }
  }

  /** `c` may follow the chunks `cs`. */
  ghost predicate MayFollow(cs: seq<Chunk>, c: Chunk) {
    && !c.Unrecognised?
    && (forall reason :: Finish(reason) !in cs)
    && (c.Start? ==> c.index == Starts(cs) && Known(c.blockType))
    && (UsesBlock(c) ==> !HasEnd(cs, c.index) && exists t :: Start(c.index, t) in cs && Fits(t, c))
  }

  lemma FeedChecksMayFollow(cs: seq<Chunk>, c: Chunk)
    requires Accepts(cs)
    ensures Accepts(cs + [c]) <==> MayFollow(cs, c)
  {
    RunRecords(cs);
    RunSnoc(cs, c);
    var s := Run(cs).value;
    if s.finish.Some? {
      assert Finish(s.finish.value) in cs;
    } else if UsesBlock(c) && c.index in s.open {
      assert forall t :: Start(c.index, t) in cs ==> t == s.open[c.index].blockType;
    }
  }

  ghost predicate EachMayFollow(cs: seq<Chunk>) {
    cs == [] || (EachMayFollow(cs[..|cs| - 1]) && MayFollow(cs[..|cs| - 1], cs[|cs| - 1]))
  }

  lemma {:induction false} EachMayFollowAt(cs: seq<Chunk>)
    ensures EachMayFollow(cs) <==> forall p :: 0 <= p < |cs| ==> MayFollow(cs[..p], cs[p])
  {
    if cs != [] {
      var front := cs[..|cs| - 1];
      EachMayFollowAt(front);
      assert forall p :: 0 <= p < |front| ==> front[..p] == cs[..p] && front[p] == cs[p];
    }
  }

  lemma {:induction false} AcceptsIfEachMayFollow(cs: seq<Chunk>)
    ensures Accepts(cs) <==> EachMayFollow(cs)
  {
    if cs != [] {
      var front, last := cs[..|cs| - 1], cs[|cs| - 1];
      AcceptsIfEachMayFollow(front);
      if Accepts(front) {
        assert front + [last] == cs;
        FeedChecksMayFollow(front, last);
      }
    }
  }

  /** A stream is fed without error exactly when each of its chunks may follow those before it. */
  lemma AcceptsIffEachMayFollow(cs: seq<Chunk>)
    ensures Accepts(cs) <==> forall p :: 0 <= p < |cs| ==> MayFollow(cs[..p], cs[p])
  {
    AcceptsIfEachMayFollow(cs);
    EachMayFollowAt(cs);
  }

  /** What an open block takes, by its type: its own deltas, and an end that names no type or its own. */
  lemma OpenBlockTakesIff(cs: seq<Chunk>, c: Chunk, t: BlockType)
    requires Accepts(cs) && UsesBlock(c) && Start(c.index, t) in cs && !HasEnd(cs, c.index)
    requires forall reason :: Finish(reason) !in cs
    ensures Accepts(cs + [c]) <==>
              || (c.TextDelta? && t == Text)
              || (c.ReasoningDelta? && t == Reasoning)
              || (c.ToolDelta? && t == ToolCall)
              || (c.End? && (c.wire == NoType || (t == Text && c.wire == TextWire)
                             || (t == Reasoning && c.wire == ThinkingWire)
                             || (t == ToolCall && c.wire == ToolCallWire)))
  {
    FeedChecksMayFollow(cs, c);
    StartedIsKnown(cs, c.index, t);
    StartIsFirst(cs, c.index, t);
    forall u | Start(c.index, u) in cs
      ensures u == t
    {
      StartIsFirst(cs, c.index, u);
    }
  }

  /** How the first chunk that may not follow is reported. */
  ghost predicate Reported(cs: seq<Chunk>, c: Chunk, error: ProtocolError) {
    if exists reason :: Finish(reason) in cs then error == ChunkAfterFinish
    else if c.Unrecognised? then error == UnknownChunk
    else if c.Start? then error == if c.index != Starts(cs) then UnexpectedIndex else UnknownBlockType
    else if !UsesBlock(c) then false
    else if HasEnd(cs, c.index) || (forall t :: Start(c.index, t) !in cs) then error == NotOpen
    else error == TypeMismatch
  }

  lemma RefusedIsReported(cs: seq<Chunk>, c: Chunk)
    requires Accepts(cs) && !Accepts(cs + [c])
    ensures Reported(cs, c, Run(cs + [c]).error)
  {
    RunRecords(cs);
    RunSnoc(cs, c);
    var s := Run(cs).value;
    if s.finish.Some? {
      assert Finish(s.finish.value) in cs;
    }
  }

  lemma EmptyIff(open: map<int, Partial>)
    ensures open == map[] <==> forall i :: i !in open
  {
    if forall i :: i !in open {
      assert open == map[];
    }
  }

  /** A stream that ends too early: blocks without an end first, then the missing finish. */
  lemma IncompleteIsReported(cs: seq<Chunk>)
    requires Accepts(cs)
    ensures Validate(Run(cs).value) ==
      if exists i, t :: Start(i, t) in cs && !HasEnd(cs, i) then Some(UnclosedBlocks)
      else if forall reason :: Finish(reason) !in cs then Some(NoFinish)
      else None
  {
    RunRecords(cs);
    var s := Run(cs).value;
    EmptyIff(s.open);
    if i :| i in s.open {
      assert Start(i, s.open[i].blockType) in cs && !HasEnd(cs, i);
    }
    if s.finish.Some? {
      assert Finish(s.finish.value) in cs;
    }
  }

  /** Starts carry 0, 1, 2, ... and a known type. */
  ghost predicate StartsAreNumbered(cs: seq<Chunk>) {
    forall p :: 0 <= p < |cs| && cs[p].Start? ==> cs[p].index == Starts(cs[..p]) && Known(cs[p].blockType)
  }

  /** Every delta and end comes after the start of its block and has a matching type. */
  ghost predicate UsesFollowTheirStart(cs: seq<Chunk>) {
    forall p :: 0 <= p < |cs| && UsesBlock(cs[p]) ==>
      exists q :: 0 <= q < p && cs[q].Start? && cs[q].index == cs[p].index && Fits(cs[q].blockType, cs[p])
  }

  /** Nothing acts on a block after its end, so a block also ends at most once. */
  ghost predicate NothingAfterAnEnd(cs: seq<Chunk>) {
    forall p, q :: 0 <= p < q < |cs| && cs[p].End? && UsesBlock(cs[q]) ==> cs[p].index != cs[q].index
  }

  ghost predicate EveryStartEnds(cs: seq<Chunk>) {
    forall p :: 0 <= p < |cs| && cs[p].Start? ==>
      exists q :: 0 <= q < |cs| && cs[q].End? && cs[q].index == cs[p].index
  }

  /** One finish, and it is the last chunk. */
  ghost predicate OneFinishLast(cs: seq<Chunk>) {
    forall p :: 0 <= p < |cs| ==> (cs[p].Finish? <==> p == |cs| - 1)
  }

  ghost predicate Grammar(cs: seq<Chunk>) {
    && |cs| > 0
    && (forall p :: 0 <= p < |cs| ==> !cs[p].Unrecognised?)
    && StartsAreNumbered(cs)
    && UsesFollowTheirStart(cs)
    && NothingAfterAnEnd(cs)
    && EveryStartEnds(cs)
    && OneFinishLast(cs)
  }

  lemma MayFollowMeansGrammar(cs: seq<Chunk>)
    requires forall p :: 0 <= p < |cs| ==> MayFollow(cs[..p], cs[p])
    ensures StartsAreNumbered(cs) && UsesFollowTheirStart(cs) && NothingAfterAnEnd(cs)
    ensures forall p :: 0 <= p < |cs| ==> !cs[p].Unrecognised?
    ensures forall p :: 0 <= p < |cs| - 1 ==> !cs[p].Finish?
  {
    forall p | 0 <= p < |cs| && UsesBlock(cs[p])
      ensures exists q :: 0 <= q < p && cs[q].Start? && cs[q].index == cs[p].index && Fits(cs[q].blockType, cs[p])
    {
      var t :| Start(cs[p].index, t) in cs[..p] && Fits(t, cs[p]);
      var q :| 0 <= q < p && cs[..p][q] == Start(cs[p].index, t);
      assert cs[q] == Start(cs[p].index, t);
    }
    forall p | 0 <= p < |cs| - 1
      ensures !cs[p].Finish?
    {
      var last := |cs| - 1;
      assert MayFollow(cs[..last], cs[last]) && cs[..last][p] == cs[p];
    }
    forall p, q | 0 <= p < q < |cs| && cs[p].End? && UsesBlock(cs[q])
      ensures cs[p].index != cs[q].index
    {
      assert MayFollow(cs[..q], cs[q]) && cs[..q][p] == cs[p];
      assert End(cs[p].index, cs[p].wire) in cs[..q];
    }
  }

  lemma StartedBefore(cs: seq<Chunk>, p: nat)
    requires p < |cs| && UsesBlock(cs[p]) && UsesFollowTheirStart(cs)
    ensures exists t :: Start(cs[p].index, t) in cs[..p] && Fits(t, cs[p])
  {
    var q :| 0 <= q < p && cs[q].Start? && cs[q].index == cs[p].index && Fits(cs[q].blockType, cs[p]);
    assert cs[..p][q] == Start(cs[p].index, cs[q].blockType);
  }

  lemma NotEndedBefore(cs: seq<Chunk>, p: nat)
    requires p < |cs| && UsesBlock(cs[p]) && NothingAfterAnEnd(cs)
    ensures !HasEnd(cs[..p], cs[p].index)
  {
    assert forall e :: 0 <= e < p ==> cs[..p][e] == cs[e];
  }

  lemma NotFinishedBefore(cs: seq<Chunk>, p: nat)
    requires p < |cs| && OneFinishLast(cs)
    ensures forall reason :: Finish(reason) !in cs[..p]
  {
    assert forall e :: 0 <= e < p ==> cs[..p][e] == cs[e];
  }

  lemma GrammarMeansMayFollow(cs: seq<Chunk>, p: nat)
    requires Grammar(cs) && p < |cs|
    ensures MayFollow(cs[..p], cs[p])
  {
    NotFinishedBefore(cs, p);
    if UsesBlock(cs[p]) {
      StartedBefore(cs, p);
      NotEndedBefore(cs, p);
    }
  }

  /** A stream passes every `Feed` and the closing `Validate` exactly when it is a sentence of the
      grammar. */
  lemma AcceptedIffGrammar(cs: seq<Chunk>)
    ensures (Accepts(cs) && Validate(Run(cs).value).None?) <==> Grammar(cs)
  {
    AcceptsIffEachMayFollow(cs);
    if Grammar(cs) {
      forall p: nat | p < |cs| {
        GrammarMeansMayFollow(cs, p);
      }
      RunRecords(cs);
      var s := Run(cs).value;
      assert s.finish.Some? by {
        assert Finish(cs[|cs| - 1].reason) in cs;
      }
      forall i, t | Start(i, t) in cs
        ensures HasEnd(cs, i)
      {
        var p :| 0 <= p < |cs| && cs[p] == Start(i, t);
        var q :| 0 <= q < |cs| && cs[q].End? && cs[q].index == cs[p].index;
        assert End(i, cs[q].wire) in cs;
      }
      assert forall i :: i !in s.open;
      assert s.open == map[];
    } else if Accepts(cs) && Validate(Run(cs).value).None? {
      MayFollowMeansGrammar(cs);
      CompleteStreamEnds(cs);
    }
  }

  lemma CompleteStreamEnds(cs: seq<Chunk>)
    requires Accepts(cs) && Validate(Run(cs).value).None?
    requires forall p :: 0 <= p < |cs| - 1 ==> !cs[p].Finish?
    ensures |cs| > 0 && EveryStartEnds(cs) && OneFinishLast(cs)
  {
    RunRecords(cs);
    var s := Run(cs).value;
    assert Finish(s.finish.value) in cs;
    var f :| 0 <= f < |cs| && cs[f] == Finish(s.finish.value);
    assert f == |cs| - 1;
    forall p | 0 <= p < |cs| && cs[p].Start?
      ensures exists q :: 0 <= q < |cs| && cs[q].End? && cs[q].index == cs[p].index
    {
      assert Start(cs[p].index, cs[p].blockType) in cs;
      var wire :| End(cs[p].index, wire) in cs;
      var q :| 0 <= q < |cs| && cs[q] == End(cs[p].index, wire);
    }
  }

  // ---------------------------------------------------------------- the class

  class OpenBlock {
    const index: int
    const blockType: BlockType
    var text: string
    var callId: string
    var name: string
    var arguments: string

    constructor (index: int, blockType: BlockType)
      ensures this.index == index && View() == Empty(blockType)
    {
      this.index, this.blockType := index, blockType;
      text, callId, name, arguments := "", "", "", "";
    }

    function View(): Partial
      reads this
    {
      Partial(blockType, text, callId, name, arguments)
    }

    /** Takes a tool-call delta: arguments are appended, non-empty ids and names replace. */
    method Extend(c: Chunk)
      requires c.ToolDelta?
      modifies this
      ensures View() == Accumulate(old(View()), c)
    {
      if c.callId != "" {
        callId := c.callId;
      }
      if c.name != "" {
        name := c.name;
      }
      arguments := arguments + c.arguments;
    }
  }

  /** Consumes a chunk stream; `View` is the value the chunks fed so far have built. */
  class Assembler {
    var open: map<int, OpenBlock>
    var nextIndex: nat
    var blocks: map<int, Block>
    var usage: Option<nat>
    var finish: Option<FinishReason>
    var finished: bool
    var pending: set<int>

    ghost predicate Valid()
      reads this, open.Values
    {
      && (forall i :: i in open ==> open[i].index == i && 0 <= i < nextIndex)
      && pending == open.Keys
      && finished == finish.Some?
      && (forall i :: i in blocks ==> 0 <= i < nextIndex)
    }

    ghost function View(): State
      reads this, open.Values
    {
      State(map i | i in open :: open[i].View(), blocks, nextIndex, usage, finish)
    }

    constructor ()
      ensures Valid() && fresh(open.Values)
      ensures View() == Fresh
    {
      open, nextIndex, blocks, usage, finish, finished, pending := map[], 0, map[], None, None, false, {};
    }

    /** Takes one chunk; a protocol violation is reported and leaves the state as it was. */
    method FeedChunk(c: Chunk) returns (error: Option<ProtocolError>)
      requires Valid()
      modifies this, open.Values
      ensures Valid() && fresh(open.Values - old(open.Values))
      ensures match Feed(old(View()), c)
              case Ok(s) => error == None && View() == s
              case Err(e) => error == Some(e) && View() == old(View())
    {
      if finished {
        return Some(ChunkAfterFinish);
      }
      match c
      case Start(_, _) => error := FeedStart(c);
      case TextDelta(index, text) => error := FeedDelta(index, Text, text, c);
      case ReasoningDelta(index, text) => error := FeedDelta(index, Reasoning, text, c);
      case ToolDelta(_, _, _, _) => error := FeedToolDelta(c);
      case End(_, _) => error := FeedEnd(c);
      case Usage(tokens) =>
        usage := tokens;
        error := None;
      case Finish(reason) =>
        finish, finished := Some(reason), true;
        error := None;
      case Unrecognised => error := Some(UnknownChunk);
    }

    method FeedStart(c: Chunk) returns (error: Option<ProtocolError>)
      requires Valid() && !finished && c.Start?
      modifies this
      ensures Valid() && fresh(open.Values - old(open.Values))
      ensures match Feed(old(View()), c)
              case Ok(s) => error == None && View() == s
              case Err(e) => error == Some(e) && View() == old(View())
    {
      if c.index != nextIndex {
        return Some(UnexpectedIndex);
      }
      if !Known(c.blockType) {
        return Some(UnknownBlockType);
      }
      var block := new OpenBlock(c.index, c.blockType);
      open := open[c.index := block];
      pending := pending + {c.index};
      nextIndex := nextIndex + 1;
      assert View().open == old(View()).open[c.index := Empty(c.blockType)];
      return None;
    }

    method FeedDelta(index: int, expected: BlockType, text: string, ghost c: Chunk)
      returns (error: Option<ProtocolError>)
      requires Valid() && !finished
      requires c == (if expected == Text then TextDelta(index, text) else ReasoningDelta(index, text))
      requires expected == Text || expected == Reasoning
      modifies this, open.Values
      ensures Valid() && open == old(open)
      ensures match Feed(old(View()), c)
              case Ok(s) => error == None && View() == s
              case Err(e) => error == Some(e) && View() == old(View())
    {
      if index !in open {
        return Some(NotOpen);
      }
      var block := open[index];
      if block.blockType != expected {
        return Some(TypeMismatch);
      }
      assert forall i :: i in open && i != index ==> open[i] != block;
      block.text := block.text + text;
      assert View().open == old(View()).open[index := Accumulate(old(block.View()), c)];
      return None;
    }

    method FeedToolDelta(c: Chunk) returns (error: Option<ProtocolError>)
      requires Valid() && !finished && c.ToolDelta?
      modifies this, open.Values
      ensures Valid() && open == old(open)
      ensures match Feed(old(View()), c)
              case Ok(s) => error == None && View() == s
              case Err(e) => error == Some(e) && View() == old(View())
    {
      if c.index !in open {
        return Some(NotOpen);
      }
      var block := open[c.index];
      if block.blockType != ToolCall {
        return Some(TypeMismatch);
      }
      assert forall i :: i in open && i != c.index ==> open[i] != block;
      block.Extend(c);
      assert View().open == old(View()).open[c.index := Accumulate(old(block.View()), c)];
      return None;
    }

    method FeedEnd(c: Chunk) returns (error: Option<ProtocolError>)
      requires Valid() && !finished && c.End?
      modifies this
      ensures Valid() && open.Values <= old(open.Values)
      ensures match Feed(old(View()), c)
              case Ok(s) => error == None && View() == s
              case Err(e) => error == Some(e) && View() == old(View())
    {
      if c.index !in open {
        return Some(NotOpen);
      }
      var block := open[c.index];
      if c.wire != NoType && WireOf(block.blockType) != c.wire {
        return Some(TypeMismatch);
      }
      open := open - {c.index};
      pending := pending - {c.index};
      blocks := blocks[c.index := Finalize(block.View())];
      return None;
    }

    method ValidateStream() returns (error: Option<ProtocolError>)
      requires Valid()
      ensures error == Validate(View())
    {
      assert View().open.Keys == pending;
      if pending != {} {
        return Some(UnclosedBlocks);
      }
      assert View().open == map[];
      if !finished {
        return Some(NoFinish);
      }
      return None;
    }

    /** The finished blocks in index order, whatever the order of their ends. */
    method BlockList() returns (result: seq<Block>)
      requires Valid()
      ensures result == Blocks(View())
    {
      result := Pick(blocks, Ascending(blocks.Keys, nextIndex));
      if finish.Some? && finish.value.kind == MaxTokens {
        result := WithoutToolCalls(result);
      }
    }
  }

  lemma RunNext(cs: seq<Chunk>, k: nat)
    requires k < |cs|
    ensures Run(cs[..k + 1]) == if Run(cs[..k]).Err? then Run(cs[..k]) else Feed(Run(cs[..k]).value, cs[k])
  {
    assert cs[..k + 1] == cs[..k] + [cs[k]];
    RunSnoc(cs[..k], cs[k]);
  }

  /** The first violation is the run's error. */
  lemma {:induction false} ErrorSticks(cs: seq<Chunk>, k: nat)
    requires k <= |cs| && Run(cs[..k]).Err?
    ensures Run(cs) == Run(cs[..k])
  {
    if k == |cs| {
      assert cs[..k] == cs;
    } else {
      assert cs[..|cs| - 1][..k] == cs[..k];
      ErrorSticks(cs[..|cs| - 1], k);
    }
  }

  /** The consumer's loop: feed until the first violation. */
  method FeedAll(cs: seq<Chunk>) returns (assembler: Assembler, error: Option<ProtocolError>)
    ensures assembler.Valid()
    ensures match Run(cs)
            case Ok(s) => error == None && assembler.View() == s
            case Err(e) => error == Some(e)
  {
    assembler := new Assembler();
    for k := 0 to |cs|
      invariant assembler.Valid() && fresh(assembler) && fresh(assembler.open.Values)
      invariant Run(cs[..k]) == Ok(assembler.View())
    {
      RunNext(cs, k);
      error := assembler.FeedChunk(cs[k]);
      if error.Some? {
        ErrorSticks(cs, k + 1);
        return;
      }
    }
    assert cs[..|cs|] == cs;
    error := None;
  }

  /** What the consumer gets of a stream: its blocks, or the first error. */
  function Assembled(cs: seq<Chunk>): Result<seq<Block>, ProtocolError> {
    match Run(cs)
    case Err(e) => Err(e)
    case Ok(s) => if Validate(s).Some? then Err(Validate(s).value) else Ok(Blocks(s))
  }

  method AssembleStream(cs: seq<Chunk>) returns (r: Result<seq<Block>, ProtocolError>)
    ensures r == Assembled(cs)
  {
    var assembler, error := FeedAll(cs);
    if error.Some? {
      return Err(error.value);
    }
    error := assembler.ValidateStream();
    if error.Some? {
      return Err(error.value);
    }
    var blocks := assembler.BlockList();
    return Ok(blocks);
  }

  /** Feeding a stream and validating it. The blocks come out exactly for the streams of the grammar. */
  method Assemble(cs: seq<Chunk>) returns (r: Result<seq<Block>, ProtocolError>)
    ensures r == Assembled(cs) && (r.Ok? <==> Grammar(cs))
  {
    AcceptedIffGrammar(cs);
    r := AssembleStream(cs);
  }
}
