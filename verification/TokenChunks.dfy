/** `_chunk_messages_by_tokens`: greedy splitting of a context into runs of whole messages that
    stay within a token limit; one message over the limit becomes a chunk of its own.

    `Chunks` is the greedy partition by its longest admissible first chunk; the accumulator loop
    `ChunkMessages` is proved to compute it, `ChunksAreFull` that a chunk ends only where the limit
    ends it, and `ChunksAreOptimal` that no admissible partition is shorter. The token estimator is a
    parameter. */
module TokenChunks {

  function Tokens<M>(ms: seq<M>, tokens: M -> nat): nat {
    if ms == [] then 0 else Tokens(ms[..|ms| - 1], tokens) + tokens(ms[|ms| - 1])
  }

  /** A chunk may be sent: it is not empty, and fits the limit or is a single message. */
  predicate Admissible<M>(chunk: seq<M>, tokens: M -> nat, limit: nat) {
    chunk != [] && (Tokens(chunk, tokens) <= limit || |chunk| == 1)
  }

  function Concat<M>(chunks: seq<seq<M>>): seq<M> {
    if chunks == [] then [] else chunks[0] + Concat(chunks[1..])
  }

  /** `chunks` splits `ms` into admissible runs. */
  ghost predicate Partition<M>(chunks: seq<seq<M>>, ms: seq<M>, tokens: M -> nat, limit: nat) {
    Concat(chunks) == ms && forall k :: 0 <= k < |chunks| ==> Admissible(chunks[k], tokens, limit)
  }

  function EffectiveLimit(chunkTokens: int): nat {
    if chunkTokens < 1 then 1 else chunkTokens
  }

  /** `n` messages can lead `ms` as one chunk and `n + 1` cannot. */
  predicate LongestLead<M>(ms: seq<M>, n: nat, tokens: M -> nat, limit: nat) {
    && 0 < n <= |ms|
    && Admissible(ms[..n], tokens, limit)
    && (n < |ms| ==> !Admissible(ms[..n + 1], tokens, limit))
  }

  function LeadLength<M>(ms: seq<M>, n: nat, tokens: M -> nat, limit: nat): (r: nat)
    requires 0 < n <= |ms| && Admissible(ms[..n], tokens, limit)
    ensures n <= r && LongestLead(ms, r, tokens, limit)
    decreases |ms| - n
  {
    if n < |ms| && Admissible(ms[..n + 1], tokens, limit) then LeadLength(ms, n + 1, tokens, limit) else n
  }

  /** The greedy partition: the longest admissible first chunk, then the rest. */
  function Chunks<M>(ms: seq<M>, tokens: M -> nat, limit: nat): seq<seq<M>> {
    if ms == [] then []
    else
      var n := LeadLength(ms, 1, tokens, limit);
      [ms[..n]] + Chunks(ms[n..], tokens, limit)
  }

  lemma {:induction false} TokensAppend<M>(a: seq<M>, b: seq<M>, tokens: M -> nat)
    ensures Tokens(a + b, tokens) == Tokens(a, tokens) + Tokens(b, tokens)
  {
    if b == [] {
      assert a + b == a;
    } else {
      assert (a + b)[..|a + b| - 1] == a + b[..|b| - 1];
      TokensAppend(a, b[..|b| - 1], tokens);
    }
  }

  /** Dropping messages from either end of an admissible chunk leaves it admissible. */
  lemma PartIsAdmissible<M>(ms: seq<M>, lo: nat, hi: nat, tokens: M -> nat, limit: nat)
    requires lo < hi <= |ms| && Admissible(ms, tokens, limit)
    ensures Admissible(ms[lo..hi], tokens, limit)
  {
    assert ms == ms[..lo] + ms[lo..hi] + ms[hi..];
    TokensAppend(ms[..lo] + ms[lo..hi], ms[hi..], tokens);
    TokensAppend(ms[..lo], ms[lo..hi], tokens);
  }

  lemma LongestLeadIsLongest<M>(ms: seq<M>, n: nat, m: nat, tokens: M -> nat, limit: nat)
    requires LongestLead(ms, n, tokens, limit) && 0 < m <= |ms| && Admissible(ms[..m], tokens, limit)
    ensures m <= n
  {
    if n < m {
      var shorter := ms[..m][0..n + 1];
      assert shorter == ms[..n + 1];
      PartIsAdmissible(ms[..m], 0, n + 1, tokens, limit);
    }
  }

  lemma {:induction false} ChunksPartition<M>(ms: seq<M>, tokens: M -> nat, limit: nat)
    ensures Partition(Chunks(ms, tokens, limit), ms, tokens, limit)
  {
    if ms != [] {
      var n := LeadLength(ms, 1, tokens, limit);
      ChunksPartition(ms[n..], tokens, limit);
      assert ms == ms[..n] + ms[n..];
      assert Chunks(ms, tokens, limit)[1..] == Chunks(ms[n..], tokens, limit);
    }
  }

  /** The first message of `b` would not have fitted into `a`. */
  predicate MustEnd<M>(a: seq<M>, b: seq<M>, tokens: M -> nat, limit: nat) {
    b != [] && Tokens(a, tokens) + tokens(b[0]) > limit
  }

  /** Each chunk ends only where the limit ends it. */
  predicate Full<M>(chunks: seq<seq<M>>, tokens: M -> nat, limit: nat) {
    |chunks| <= 1 || (MustEnd(chunks[0], chunks[1], tokens, limit) && Full(chunks[1..], tokens, limit))
  }

  lemma LeadMustEnd<M>(ms: seq<M>, n: nat, tokens: M -> nat, limit: nat)
    requires n < |ms| && LongestLead(ms, n, tokens, limit)
    ensures Tokens(ms[..n], tokens) + tokens(ms[n]) > limit
  {
    assert ms[..n + 1][..n] == ms[..n];
  }

  lemma {:induction false} ChunksAreFull<M>(ms: seq<M>, tokens: M -> nat, limit: nat)
    ensures Full(Chunks(ms, tokens, limit), tokens, limit)
  {
    if ms != [] {
      var n := LeadLength(ms, 1, tokens, limit);
      ChunksAreFull(ms[n..], tokens, limit);
      if n < |ms| {
        LeadMustEnd(ms, n, tokens, limit);
        assert ms[n..][0] == ms[n];
      }
    }
  }

  lemma SuffixOfSuffix<M>(ms: seq<M>, n: nat, k: nat)
    requires n <= k <= |ms|
    ensures ms[n..][k - n..] == ms[k..]
  {
  }

  lemma OneChunkMore<M>(ms: seq<M>, tokens: M -> nat, limit: nat)
    requires ms != []
    ensures |Chunks(ms, tokens, limit)| == 1 + |Chunks(ms[LeadLength(ms, 1, tokens, limit)..], tokens, limit)|
  {
  }

  /** One chunk less of the whole leaves at least as many as there are in the part. */
  lemma OneLeadLess<M>(whole: seq<M>, part: seq<M>, n: nat, tokens: M -> nat, limit: nat)
    requires whole != [] && n == LeadLength(whole, 1, tokens, limit)
    requires |Chunks(part, tokens, limit)| <= |Chunks(whole[n..], tokens, limit)|
    ensures |Chunks(part, tokens, limit)| <= |Chunks(whole, tokens, limit)|
  {
    OneChunkMore(whole, tokens, limit);
  }

  /** The same with one chunk less of both. */
  lemma OneLeadEach<M>(whole: seq<M>, part: seq<M>, n: nat, m: nat, tokens: M -> nat, limit: nat)
    requires whole != [] && n == LeadLength(whole, 1, tokens, limit)
    requires part != [] && m == LeadLength(part, 1, tokens, limit)
    requires |Chunks(part[m..], tokens, limit)| <= |Chunks(whole[n..], tokens, limit)|
    ensures |Chunks(part, tokens, limit)| <= |Chunks(whole, tokens, limit)|
  {
    OneChunkMore(whole, tokens, limit);
    OneChunkMore(part, tokens, limit);
  }

  /** The first chunk of a suffix reaches at least as far as the first chunk it was cut from. */
  lemma LeadReaches<M>(ms: seq<M>, k: nat, tokens: M -> nat, limit: nat)
    requires k < |ms| && k < LeadLength(ms, 1, tokens, limit)
    ensures LeadLength(ms, 1, tokens, limit) <= k + LeadLength(ms[k..], 1, tokens, limit)
  {
    var n := LeadLength(ms, 1, tokens, limit);
    PartIsAdmissible(ms[..n], k, n, tokens, limit);
    assert ms[..n][k..n] == ms[k..][..n - k];
    LongestLeadIsLongest(ms[k..], LeadLength(ms[k..], 1, tokens, limit), n - k, tokens, limit);
  }

  /** Removing leading messages never needs more chunks. */
  lemma {:induction false} SuffixNeedsNoMore<M>(ms: seq<M>, k: nat, part: seq<M>, tokens: M -> nat, limit: nat)
    requires k <= |ms| && part == ms[k..]
    ensures |Chunks(part, tokens, limit)| <= |Chunks(ms, tokens, limit)|
    decreases |ms|
  {
    if k == 0 {
      assert part == ms;
    } else if k < |ms| {
      var n := LeadLength(ms, 1, tokens, limit);
      if n <= k {
        SuffixOfSuffix(ms, n, k);
        SuffixNeedsNoMore(ms[n..], k - n, part, tokens, limit);
        OneLeadLess(ms, part, n, tokens, limit);
      } else {
        LeadReaches(ms, k, tokens, limit);
        SuffixWithinLead(ms, k, part, n, LeadLength(part, 1, tokens, limit), tokens, limit);
      }
    }
  }

  lemma {:induction false} SuffixWithinLead<M>(ms: seq<M>, k: nat, part: seq<M>, n: nat, m: nat, tokens: M -> nat,
                                               limit: nat)
    requires k < |ms| && part == ms[k..] && n <= k + m
    requires n == LeadLength(ms, 1, tokens, limit) && m == LeadLength(part, 1, tokens, limit)
    ensures |Chunks(part, tokens, limit)| <= |Chunks(ms, tokens, limit)|
    decreases |ms|, 0
  {
    SuffixOfSuffix(ms, n, k + m);
    SuffixOfSuffix(ms, k, k + m);
    SuffixNeedsNoMore(ms[n..], k + m - n, part[m..], tokens, limit);
    OneLeadEach(ms, part, n, m, tokens, limit);
  }

  /** No admissible partition of `ms` has fewer chunks than the greedy one. */
  lemma {:induction false} ChunksAreOptimal<M>(other: seq<seq<M>>, ms: seq<M>, tokens: M -> nat, limit: nat)
    requires Partition(other, ms, tokens, limit)
    ensures |Chunks(ms, tokens, limit)| <= |other|
    decreases |other|
  {
    if ms != [] {
      var first := other[0];
      var rest := ms[|first|..];
      assert Concat(other) == first + Concat(other[1..]);
      assert rest == Concat(other[1..]);
      assert Partition(other[1..], rest, tokens, limit);
      ChunksAreOptimal(other[1..], rest, tokens, limit);
      var n := LeadLength(ms, 1, tokens, limit);
      assert ms[..|first|] == first;
      LongestLeadIsLongest(ms, n, |first|, tokens, limit);
      assert rest[n - |first|..] == ms[n..];
      SuffixNeedsNoMore(rest, n - |first|, ms[n..], tokens, limit);
    }
  }

  lemma LeadLengthIsUnique<M>(ms: seq<M>, n: nat, tokens: M -> nat, limit: nat)
    requires LongestLead(ms, n, tokens, limit)
    ensures LeadLength(ms, 1, tokens, limit) == n
  {
    var m := LeadLength(ms, 1, tokens, limit);
    LongestLeadIsLongest(ms, n, m, tokens, limit);
    LongestLeadIsLongest(ms, m, n, tokens, limit);
  }

  /** A full accumulator is the next greedy chunk. */
  lemma FlushIsGreedy<M>(current: seq<M>, rest: seq<M>, tokens: M -> nat, limit: nat)
    requires Admissible(current, tokens, limit)
    requires rest != [] ==> !Admissible(current + [rest[0]], tokens, limit)
    ensures Chunks(current + rest, tokens, limit) == [current] + Chunks(rest, tokens, limit)
  {
    var ms := current + rest;
    assert ms[..|current|] == current && ms[|current|..] == rest;
    assert rest != [] ==> ms[..|current| + 1] == current + [rest[0]];
    LeadLengthIsUnique(ms, |current|, tokens, limit);
  }

  /** What the loop still owes: the greedy partition of the accumulator and the unread messages. */
  ghost function Owed<M>(current: seq<M>, rest: seq<M>, tokens: M -> nat, limit: nat): seq<seq<M>> {
    Chunks(current + rest, tokens, limit)
  }

  lemma OwedAfterFlush<M>(current: seq<M>, rest: seq<M>, tokens: M -> nat, limit: nat)
    requires Admissible(current, tokens, limit)
    requires rest != [] ==> Tokens(current, tokens) + tokens(rest[0]) > limit
    ensures Owed(current, rest, tokens, limit) == [current] + Owed([], rest, tokens, limit)
  {
    if rest != [] {
      TokensAppend(current, [rest[0]], tokens);
      assert [rest[0]][..|[rest[0]]| - 1] == [];
      assert Tokens([rest[0]], tokens) == tokens(rest[0]);
    }
    FlushIsGreedy(current, rest, tokens, limit);
    assert [] + rest == rest;
  }

  lemma OwedAfterTaking<M>(current: seq<M>, rest: seq<M>, tokens: M -> nat, limit: nat)
    requires rest != []
    ensures Owed(current, rest, tokens, limit) == Owed(current + [rest[0]], rest[1..], tokens, limit)
    ensures Tokens(current + [rest[0]], tokens) == Tokens(current, tokens) + tokens(rest[0])
  {
    assert current + rest == (current + [rest[0]]) + rest[1..];
    assert (current + [rest[0]])[..|current|] == current;
  }

  lemma NextUnread<M>(messages: seq<M>, k: nat)
    requires k < |messages|
    ensures messages[k..] != [] && messages[k..][0] == messages[k] && messages[k..][1..] == messages[k + 1..]
  {
  }

  /** Before message `k`: the finished chunks and what is still owed make up the greedy partition. */
  ghost predicate OnTrack<M>(messages: seq<M>, k: nat, chunks: seq<seq<M>>, current: seq<M>, currentTokens: nat,
                             tokens: M -> nat, limit: nat)
  {
    && k <= |messages| && currentTokens == Tokens(current, tokens)
    && (current != [] ==> Admissible(current, tokens, limit))
    && Chunks(messages, tokens, limit) == chunks + Owed(current, messages[k..], tokens, limit)
  }

  lemma FlushStays<M>(messages: seq<M>, k: nat, chunks: seq<seq<M>>, current: seq<M>, currentTokens: nat,
                      tokens: M -> nat, limit: nat)
    requires OnTrack(messages, k, chunks, current, currentTokens, tokens, limit) && current != []
    requires k < |messages| ==> currentTokens + tokens(messages[k]) > limit
    ensures OnTrack(messages, k, chunks + [current], [], 0, tokens, limit)
  {
    if k < |messages| {
      NextUnread(messages, k);
    }
    OwedAfterFlush(current, messages[k..], tokens, limit);
  }

  lemma TakingStays<M>(messages: seq<M>, k: nat, chunks: seq<seq<M>>, current: seq<M>, currentTokens: nat,
                       tokens: M -> nat, limit: nat)
    requires OnTrack(messages, k, chunks, current, currentTokens, tokens, limit) && k < |messages|
    requires current != [] ==> currentTokens + tokens(messages[k]) <= limit
    ensures OnTrack(messages, k + 1, chunks, current + [messages[k]], currentTokens + tokens(messages[k]),
              tokens, limit)
  {
    NextUnread(messages, k);
    OwedAfterTaking(current, messages[k..], tokens, limit);
  }

  lemma AllOwed<M>(messages: seq<M>, tokens: M -> nat, limit: nat)
    ensures OnTrack(messages, 0, [], [], 0, tokens, limit)
  {
    assert [] + messages[0..] == messages;
  }

  lemma NothingOwed<M>(messages: seq<M>, chunks: seq<seq<M>>, tokens: M -> nat, limit: nat)
    requires OnTrack(messages, |messages|, chunks, [], 0, tokens, limit)
    ensures chunks == Chunks(messages, tokens, limit)
  {
    assert messages[|messages|..] == [] && [] + messages[|messages|..] == [];
  }

  /** The loop of the program, with its running token count. */
  method ChunkMessages<M>(messages: seq<M>, tokens: M -> nat, chunkTokens: int) returns (chunks: seq<seq<M>>)
    ensures chunks == Chunks(messages, tokens, if chunkTokens < 1 then 1 else chunkTokens)
  {
    var limit := EffectiveLimit(chunkTokens);
    chunks := [];
    var current, currentTokens := [], 0;
    AllOwed(messages, tokens, limit);
    for k := 0 to |messages|
      invariant OnTrack(messages, k, chunks, current, currentTokens, tokens, limit)
    {
      var record := messages[k];
      var recordTokens := tokens(record);
      if current != [] && currentTokens + recordTokens > limit {
        FlushStays(messages, k, chunks, current, currentTokens, tokens, limit);
        chunks := chunks + [current];
        current, currentTokens := [], 0;
      }
      TakingStays(messages, k, chunks, current, currentTokens, tokens, limit);
      current := current + [record];
      currentTokens := currentTokens + recordTokens;
    }
    if current != [] {
      FlushStays(messages, |messages|, chunks, current, currentTokens, tokens, limit);
      chunks := chunks + [current];
    }
    NothingOwed(messages, chunks, tokens, limit);
  }
}
