/** What `parse` finds in a text that contains serialized references.

    No match that starts before a serialized reference runs into it, so such a reference splits the
    text: the references found are those of the text before it, the reference itself and those of the
    text after it, whatever these texts are (`SerializedSplits`). A text of serialized references and
    other pieces is parsed to exactly these references, the first 32 of them, if and only if nothing is
    found in the pieces (`WovenIsParsed`, `WovenIsExactIff`). */
module ExtensionText {
  import opened Prelude
  import opened ExtensionParser

  type Looker = string -> Look

  // ---------------------------------------------------------------- scanning without a limit

  /** How many characters are passed over, and the reference taken. */
  function Width(here: Look): nat {
    match here
    case Nothing => 1
    case Skip(more) => 1 + more
    case Take(_, more) => 1 + more
  }

  function Taken(here: Look, at: nat): seq<Found> {
    if here.Take? then [Found(here.ref, at, at + 1 + here.more)] else []
  }

  /** All references from the position on, however many. */
  function All(look: Looker, text: string, from: nat): seq<Found>
    decreases |text| - from
  {
    if from >= |text| then []
    else Taken(look(text[from..]), from) + All(look, text, from + Width(look(text[from..])))
  }

  function First(found: seq<Found>, n: nat): seq<Found> {
    if |found| <= n then found else found[..n]
  }

  lemma {:induction false} FullScanIsEmpty(look: Looker, text: string, from: nat)
    ensures Scan(look, text, from, MAX_REFS) == []
    decreases |text| - from
  {
    if from < |text| && look(text[from..]).Nothing? {
      FullScanIsEmpty(look, text, from + 1);
    }
  }

  lemma ScanStep(look: Looker, text: string, from: nat, found: nat, here: Look)
    requires from < |text| && found < MAX_REFS && here == look(text[from..])
    ensures Scan(look, text, from, found)
         == Taken(here, from) + Scan(look, text, from + Width(here), found + (if here.Take? then 1 else 0))
  {
  }

  lemma FirstStep(here: Look, at: nat, rest: seq<Found>, n: nat)
    requires n > 0
    ensures First(Taken(here, at) + rest, n) == Taken(here, at) + First(rest, n - (if here.Take? then 1 else 0))
  {
  }

  lemma AllStep(look: Looker, text: string, from: nat, here: Look, rest: seq<Found>)
    requires from < |text| && look(text[from..]) == here && All(look, text, from + Width(here)) == rest
    ensures All(look, text, from) == Taken(here, from) + rest
  {
  }

  lemma ScanIsFirstStep(look: Looker, text: string, from: nat, found: nat, here: Look)
    requires from < |text| && found < MAX_REFS && here == look(text[from..])
    requires var more := found + (if here.Take? then 1 else 0);
      Scan(look, text, from + Width(here), more) == First(All(look, text, from + Width(here)), MAX_REFS - more)
    ensures Scan(look, text, from, found) == First(All(look, text, from), MAX_REFS - found)
  {
    var rest := All(look, text, from + Width(here));
    ScanStep(look, text, from, found, here);
    AllStep(look, text, from, here, rest);
    FirstStep(here, from, rest, MAX_REFS - found);
  }

  /** The limit cuts off what comes after the first 32 references. */
  lemma {:induction false} ScanIsFirst(look: Looker, text: string, from: nat, found: nat)
    requires found <= MAX_REFS
    ensures Scan(look, text, from, found) == First(All(look, text, from), MAX_REFS - found)
    decreases |text| - from
  {
    if found == MAX_REFS {
      FullScanIsEmpty(look, text, from);
    } else if from < |text| {
      var here := look(text[from..]);
      ScanIsFirst(look, text, from + Width(here), found + (if here.Take? then 1 else 0));
      ScanIsFirstStep(look, text, from, found, here);
    }
  }

  function Moved(found: seq<Found>, offset: nat): (r: seq<Found>)
    ensures |r| == |found|
    ensures forall k :: 0 <= k < |r| ==> r[k] == Found(found[k].ref, found[k].start + offset, found[k].end + offset)
  {
    seq(|found|, k requires 0 <= k < |found| => Found(found[k].ref, found[k].start + offset, found[k].end + offset))
  }

  lemma MovedMore(f: Found, rest: seq<Found>, offset: nat)
    ensures Moved([f] + rest, offset) == [Found(f.ref, f.start + offset, f.end + offset)] + Moved(rest, offset)
  {
  }

  lemma MovedTaken(here: Look, at: nat, rest: seq<Found>, offset: nat)
    ensures Moved(Taken(here, at) + rest, offset) == Taken(here, offset + at) + Moved(rest, offset)
  {
  }

  /** What is found after a prefix is found as in the rest alone. */
  lemma {:induction false} AllOfSuffix(look: Looker, a: string, b: string, from: nat)
    ensures All(look, a + b, |a| + from) == Moved(All(look, b, from), |a|)
    decreases |b| - from
  {
    if from < |b| {
      assert (a + b)[|a| + from..] == b[from..];
      var here := look(b[from..]);
      AllOfSuffix(look, a, b, from + Width(here));
      MovedTaken(here, from, All(look, b, from + Width(here)), |a|);
    }
  }

  /** What a look sees takes no more than there is. */
  predicate Fits(here: Look, n: nat) {
    Width(here) <= n
  }

  /** Looking into `a` gives the same whether or not `b` follows. */
  ghost predicate Splits(look: Looker, a: string, b: string) {
    forall k :: 0 <= k < |a| ==> look(a[k..] + b) == look(a[k..]) && Fits(look(a[k..]), |a| - k)
  }

  lemma SplitsAt(look: Looker, a: string, b: string, k: nat)
    requires Splits(look, a, b) && k < |a|
    ensures look((a + b)[k..]) == look(a[k..]) && k + Width(look(a[k..])) <= |a|
  {
    assert (a + b)[k..] == a[k..] + b;
    assert look(a[k..] + b) == look(a[k..]);
  }

  lemma RegroupFound(x: seq<Found>, y: seq<Found>, z: seq<Found>)
    ensures x + (y + z) == (x + y) + z
  {
  }

  lemma {:induction false} AllOfPrefix(look: Looker, a: string, b: string, from: nat, tail: seq<Found>)
    requires Splits(look, a, b) && from <= |a| && tail == All(look, a + b, |a|)
    ensures All(look, a + b, from) == All(look, a, from) + tail
    decreases |a| - from
  {
    if from == |a| {
      assert [] + tail == tail;
    } else {
      var here := look(a[from..]);
      var rest := All(look, a, from + Width(here));
      SplitsAt(look, a, b, from);
      AllOfPrefix(look, a, b, from + Width(here), tail);
      AllStep(look, a + b, from, here, rest + tail);
      AllStep(look, a, from, here, rest);
      RegroupFound(Taken(here, from), rest, tail);
    }
  }

  /** A text falls apart where looking does. */
  lemma AllSplits(look: Looker, a: string, b: string)
    requires Splits(look, a, b)
    ensures All(look, a + b, 0) == All(look, a, 0) + Moved(All(look, b, 0), |a|)
  {
    AllOfPrefix(look, a, b, 0, All(look, a + b, |a|));
    AllOfSuffix(look, a, b, 0);
  }

  /** A token that is taken comes first, and the rest after it. */
  lemma AllAfterToken(look: Looker, token: string, rest: string, ref: Ref)
    requires token != "" && look(token + rest) == Take(ref, |token| - 1)
    ensures All(look, token + rest, 0) == [Found(ref, 0, |token|)] + Moved(All(look, rest, 0), |token|)
  {
    var text := token + rest;
    assert text[0..] == text;
    AllOfSuffix(look, token, rest, 0);
  }

  // ---------------------------------------------------------------- no match runs into a token

  predicate IsParen(c: char) {
    c == '(' || c == ')'
  }

  /** An exclamation mark after the first character has no opening parenthesis after it, and the text
      ends with a closing one. */
  predicate OneBang(r: string) {
    && r != "" && r[|r| - 1] == ')'
    && forall i, j :: 0 < i <= j < |r| && r[i] == '!' ==> r[j] != '('
  }

  /** The text starts with an exclamation mark and its first parenthesis is an opening one. */
  predicate OpensAt(rest: string, n: nat) {
    n < |rest| && rest[0] == '!' && rest[n] == '(' && forall k :: 0 <= k < n ==> rest[k] != ')'
  }

  lemma StaysBefore(r: string, a: string, rest: string, n: nat)
    requires r <= a + rest && a != "" && OneBang(r) && OpensAt(rest, n)
    ensures |r| <= |a|
  {
    forall i | |a| <= i < |r|
      ensures r[i] == rest[i - |a|]
    {
      assert r[i] == (a + rest)[i];
    }
    forall k | 0 <= k < |r| - |a|
      ensures rest[k] == r[|a| + k]
    {
      assert rest[k] == (a + rest)[|a| + k];
    }
  }

  predicate NoBang(s: string) {
    forall k :: 0 <= k < |s| ==> s[k] != '!'
  }

  predicate NoOpening(s: string) {
    forall k :: 0 <= k < |s| ==> s[k] != '('
  }

  lemma KindHasNoBang(s: string)
    requires IsKind(s)
    ensures NoBang(s)
  {
    assert forall k :: 0 <= k < |s| ==> IsKindChar(s[k]);
  }

  lemma VersionHasNoBang(s: string)
    requires IsVersion(s)
    ensures NoBang(s)
  {
    assert forall k :: 1 <= k < |s| ==> IsDigit(s[k]);
  }

  lemma NoBangConcat(a: string, b: string)
    requires NoBang(a) && NoBang(b)
    ensures NoBang(a + b)
  {
  }

  /** The part of a rendering before its query, without the exclamation mark. */
  function HeadOf(t: Token): string {
    "[ftre:" + (t.alt + ("](ftre://" + (t.version + ("/" + (t.kind + ("/" + t.name))))))
  }

  lemma HeadHasNoBang(t: Token)
    requires WellFormed(t)
    ensures NoBang(HeadOf(t))
  {
    KindHasNoBang(t.alt);
    VersionHasNoBang(t.version);
    KindHasNoBang(t.kind);
    KindHasNoBang(t.name);
    NoBangConcat("/", t.name);
    NoBangConcat(t.kind, "/" + t.name);
    var target := t.kind + ("/" + t.name);
    NoBangConcat("/", target);
    NoBangConcat(t.version, "/" + target);
    var address := t.version + ("/" + target);
    NoBangConcat("](ftre://", address);
    NoBangConcat(t.alt, "](ftre://" + address);
    NoBangConcat("[ftre:", t.alt + ("](ftre://" + address));
  }

  lemma TailHasNoOpening(t: Token)
    requires WellFormed(t)
    ensures NoOpening(QueryText(t.query) + ")")
  {
    if t.query.Some? {
      assert forall k :: 0 <= k < |t.query.value| ==> IsQueryChar(t.query.value[k]);
    }
  }

  lemma OneBangOf(head: string, tail: string)
    requires NoBang(head) && NoOpening(tail) && tail != "" && tail[|tail| - 1] == ')'
    ensures OneBang("!" + (head + tail))
  {
    var r := "!" + (head + tail);
    forall i, j | 0 < i <= j < |r| && r[i] == '!'
      ensures r[j] != '('
    {
      assert r[i] == (head + tail)[i - 1] && r[j] == (head + tail)[j - 1];
    }
  }

  lemma Reassociate(a: string, b: string, c: string)
    ensures a + (b + c) == (a + b) + c
  {
  }

  lemma RenderParts(t: Token)
    ensures Render(t) == "!" + (HeadOf(t) + (QueryText(t.query) + ")"))
  {
    var tail := QueryText(t.query) + ")";
    Reassociate("/", t.name, tail);
    Reassociate(t.kind, "/" + t.name, tail);
    var target := t.kind + ("/" + t.name);
    Reassociate("/", target, tail);
    Reassociate(t.version, "/" + target, tail);
    var address := t.version + ("/" + target);
    Reassociate("](ftre://", address, tail);
    Reassociate(t.alt, "](ftre://" + address, tail);
    var rest := t.alt + ("](ftre://" + address);
    Reassociate("[ftre:", rest, tail);
    assert "![ftre:" + (rest + tail) == "!" + ("[ftre:" + (rest + tail));
  }

  lemma RenderHasOneBang(t: Token)
    requires WellFormed(t)
    ensures OneBang(Render(t))
  {
    HeadHasNoBang(t);
    TailHasNoOpening(t);
    RenderParts(t);
    OneBangOf(HeadOf(t), QueryText(t.query) + ")");
  }

  lemma RenderOpens(t: Token, after: string)
    requires WellFormed(t)
    ensures OpensAt(Render(t) + after, |t.alt| + 8)
  {
    var rest := Render(t) + after;
    var opening := "![ftre:" + t.alt + "](";
    assert opening <= rest by {
      RenderStart(t);
    }
    assert forall k :: 0 <= k < |t.alt| ==> IsKindChar(t.alt[k]);
    assert rest[|t.alt| + 8] == opening[|t.alt| + 8];
    assert forall k :: 0 <= k < |opening| ==> rest[k] == opening[k];
  }

  lemma RenderStart(t: Token)
    ensures "![ftre:" + t.alt + "](" <= Render(t)
  {
    var rest := t.version + ("/" + (t.kind + ("/" + (t.name + (QueryText(t.query) + ")")))));
    assert Render(t) == "![ftre:" + (t.alt + ("](ftre://" + rest));
    assert "](ftre://" + rest == "](" + ("ftre://" + rest);
    assert Render(t) == ("![ftre:" + t.alt + "](") + ("ftre://" + rest);
  }

  /** A match that starts before a token ends before it. */
  lemma MatchStaysBefore(a: string, token: Token, after: string, r: Read<Token>)
    requires WellFormed(token) && a != "" && MatchToken(a + (Render(token) + after)) == Some(r)
    ensures WellFormed(r.value) && |Render(r.value)| <= |a| && a == Render(r.value) + a[|Render(r.value)|..]
    ensures r.rest == a[|Render(r.value)|..] + (Render(token) + after)
  {
    var rest := Render(token) + after;
    MatchedIsRendered(a + rest);
    RenderHasOneBang(r.value);
    RenderOpens(token, after);
    PrefixStaysBefore(Render(r.value), r.rest, a, rest, |token.alt| + 8);
  }

  lemma PrefixStaysBefore(m: string, left: string, a: string, rest: string, n: nat)
    requires a + rest == m + left && a != "" && OneBang(m) && OpensAt(rest, n)
    ensures |m| <= |a| && a == m + a[|m|..] && left == a[|m|..] + rest
  {
    StaysBefore(m, a, rest, n);
    assert a == (a + rest)[..|a|] && (a + rest)[..|m|] == m;
    assert left == (a + rest)[|m|..];
  }

  lemma RenderedExtends(t: Token, left: string, rest: string)
    requires WellFormed(t)
    ensures MatchToken((Render(t) + left) + rest) == Some(Read(t, left + rest))
  {
    Reassociate(Render(t), left, rest);
    MatchRendered(t, left + rest);
  }

  lemma MatchExtends(a: string, rest: string)
    requires MatchToken(a).Some?
    ensures MatchToken(a + rest) == Some(Read(MatchToken(a).value.value, MatchToken(a).value.rest + rest))
  {
    MatchedIsRendered(a);
    RenderedExtends(MatchToken(a).value.value, MatchToken(a).value.rest, rest);
  }

  lemma MatchIsBefore(a: string, token: Token, after: string)
    requires WellFormed(token) && a != "" && MatchToken(a + (Render(token) + after)).Some?
    ensures MatchToken(a).Some?
  {
    var r := MatchToken(a + (Render(token) + after)).value;
    MatchStaysBefore(a, token, after, r);
    MatchRendered(r.value, a[|Render(r.value)|..]);
  }

  /** The same match, with more text left. */
  predicate SameMatch(short: Option<Read<Token>>, long: Option<Read<Token>>, more: string) {
    match short
    case None => long == None
    case Some(r) => long == Some(Read(r.value, r.rest + more))
  }

  /** So what is matched before a token does not depend on it. */
  lemma MatchSplits(a: string, token: Token, after: string)
    requires WellFormed(token) && a != ""
    ensures SameMatch(MatchToken(a), MatchToken(a + (Render(token) + after)), Render(token) + after)
  {
    if MatchToken(a).Some? {
      MatchExtends(a, Render(token) + after);
    } else if MatchToken(a + (Render(token) + after)).Some? {
      MatchIsBefore(a, token, after);
    }
  }

  // ---------------------------------------------------------------- looking

  /** Looking at the tokens of a text. */
  const LookFor: Looker := Looking(MatchToken, Check)

  /** The match leaves an end of the text. */
  predicate Leaves(m: Option<Read<Token>>, a: string) {
    m.Some? ==> |m.value.rest| < |a| && m.value.rest == a[|a| - |m.value.rest|..]
  }

  /** What is seen does not depend on what follows a match that is the same. */
  lemma LookSplits(matcher: Matcher, check: Checker, a: string, rest: string)
    requires a != "" && SameMatch(matcher(a), matcher(a + rest), rest) && Leaves(matcher(a), a)
    ensures LookBy(matcher, check, a + rest) == LookBy(matcher, check, a)
    ensures Fits(LookBy(matcher, check, a), |a|)
  {
    if matcher(a).Some? {
      var n := |a| - |matcher(a).value.rest|;
      assert (a + rest)[..n] == a[..n];
    }
  }

  lemma MatchLeaves(a: string)
    ensures Leaves(MatchToken(a), a)
  {
    if MatchToken(a).Some? {
      MatchConsumes(a);
      MatchedIsRendered(a);
    }
  }

  lemma LookAtSplits(a: string, token: Token, after: string)
    requires WellFormed(token) && a != ""
    ensures LookFor(a + (Render(token) + after)) == LookFor(a) && Fits(LookFor(a), |a|)
  {
    MatchSplits(a, token, after);
    MatchLeaves(a);
    LookSplits(MatchToken, Check, a, Render(token) + after);
  }

  lemma TokenSplits(before: string, token: Token, after: string)
    requires WellFormed(token)
    ensures Splits(LookFor, before, Render(token) + after)
  {
    var rest := Render(token) + after;
    forall k | 0 <= k < |before|
      ensures LookFor(before[k..] + rest) == LookFor(before[k..]) && Fits(LookFor(before[k..]), |before| - k)
    {
      LookAtSplits(before[k..], token, after);
    }
  }

  /** A reference that can be parsed back from what it is serialized to (`RoundTripIff`). */
  predicate Writable(ref: Ref) {
    && ref.version == "v1" && IsKind(ref.kind) && IsKind(ref.name) && "" !in ref.args
    && ByteSize(Render(TokenOf(ref))) <= MAX_TOKEN_BYTES
  }

  function Text(ref: Ref): string {
    Render(TokenOf(ref))
  }

  lemma WritableIsTaken(ref: Ref, after: string)
    requires Writable(ref)
    ensures Text(ref) != "" && LookFor(Text(ref) + after) == Take(ref, |Text(ref)| - 1)
  {
    var token := Text(ref);
    TokenIsWellFormed(ref);
    MatchRendered(TokenOf(ref), after);
    FromTokenOf(ref);
    MatchConsumes(token + after);
    TakenBy(MatchToken, Check, token, after, TokenOf(ref), ref);
  }

  lemma TakenBy(matcher: Matcher, check: Checker, token: string, after: string, t: Token, ref: Ref)
    requires matcher(token + after) == Some(Read(t, after)) && |after| < |token + after|
    requires check(t, token) == Ok(ref)
    ensures token != "" && LookBy(matcher, check, token + after) == Take(ref, |token| - 1)
  {
    assert (token + after)[..|token|] == token;
  }

  // ---------------------------------------------------------------- the references of a text

  /** All references of a text, without the limit. */
  function References(text: string): seq<Found> {
    All(LookFor, text, 0)
  }

  /** `parse` finds the first 32 of them. */
  lemma FindAllIsFirst(text: string)
    ensures FindAll(text) == First(References(text), MAX_REFS)
  {
    ScanIsFirst(LookFor, text, 0, 0);
  }

  /** A serialized reference splits a text, whatever stands before and after it. */
  lemma SerializedSplits(before: string, ref: Ref, after: string)
    requires Writable(ref)
    ensures References(before + (Text(ref) + after))
         == References(before)
            + Moved([Found(ref, 0, |Text(ref)|)] + Moved(References(after), |Text(ref)|), |before|)
  {
    TokenIsWellFormed(ref);
    TokenSplits(before, TokenOf(ref), after);
    AllSplits(LookFor, before, Text(ref) + after);
    WritableIsTaken(ref, after);
    AllAfterToken(LookFor, Text(ref), after, ref);
  }
  /** In particular it is the first one found if nothing is found before it. */
  lemma SerializedIsFound(before: string, ref: Ref, after: string)
    requires Writable(ref) && References(before) == []
    ensures var all := FindAll(before + (Text(ref) + after));
      all != [] && all[0] == Found(ref, |before|, |before| + |Text(ref)|)
  {
    SerializedSplits(before, ref, after);
    MovedMore(Found(ref, 0, |Text(ref)|), Moved(References(after), |Text(ref)|), |before|);
    FindAllIsFirst(before + (Text(ref) + after));
  }

  // ---------------------------------------------------------------- texts of several references

  type Writer = Ref -> string

  /** A piece of text, a reference, a piece of text and so on. */
  datatype Weave = Last(piece: string) | Then(piece: string, ref: Ref, rest: Weave)

  function WovenBy(write: Writer, w: Weave): string {
    match w
    case Last(piece) => piece
    case Then(piece, ref, rest) => piece + (write(ref) + WovenBy(write, rest))
  }

  /** Where the woven references stand. */
  function PlacesBy(write: Writer, w: Weave): seq<Found> {
    match w
    case Last(_) => []
    case Then(piece, ref, rest) =>
      var n := |write(ref)|;
      Moved([Found(ref, 0, n)] + Moved(PlacesBy(write, rest), n), |piece|)
  }

  function Woven(w: Weave): string {
    WovenBy(Text, w)
  }

  function Places(w: Weave): seq<Found> {
    PlacesBy(Text, w)
  }

  function RefsOf(w: Weave): seq<Ref> {
    if w.Last? then [] else [w.ref] + RefsOf(w.rest)
  }

  predicate AllWritable(w: Weave) {
    w.Then? ==> Writable(w.ref) && AllWritable(w.rest)
  }

  /** Nothing is found in any piece. */
  predicate Silent(w: Weave) {
    References(w.piece) == [] && (w.Then? ==> Silent(w.rest))
  }

  function FoundInPieces(w: Weave): nat {
    |References(w.piece)| + (if w.Last? then 0 else FoundInPieces(w.rest))
  }

  lemma {:induction false} SilentIff(w: Weave)
    ensures Silent(w) <==> FoundInPieces(w) == 0
  {
    if w.Then? {
      SilentIff(w.rest);
    }
  }

  lemma {:induction false} PlacesCount(write: Writer, w: Weave)
    ensures |PlacesBy(write, w)| == |RefsOf(w)|
  {
    if w.Then? {
      PlacesCount(write, w.rest);
    }
  }

  /** The reference stands there, spelled out. */
  predicate StandsAt(write: Writer, text: string, f: Found, ref: Ref) {
    f.ref == ref && f.start <= f.end <= |text| && text[f.start..f.end] == write(ref)
  }

  lemma StandsLater(write: Writer, head: string, token: string, rest: string, f: Found, ref: Ref)
    requires StandsAt(write, rest, f, ref)
    ensures StandsAt(write, head + (token + rest), Moved(Moved([f], |token|), |head|)[0], ref)
  {
    var n := |head| + |token|;
    var text := head + (token + rest);
    assert text[n..] == rest;
    assert text[n..][f.start..f.end] == text[f.start + n..f.end + n];
  }

  lemma StandsFirst(write: Writer, head: string, ref: Ref, rest: string)
    ensures StandsAt(write, head + (write(ref) + rest), Moved([Found(ref, 0, |write(ref)|)], |head|)[0], ref)
  {
  }

  lemma MovedAt(first: Found, places: seq<Found>, n: nat, offset: nat, k: nat)
    requires k <= |places|
    ensures Moved([first] + Moved(places, n), offset)[k]
         == if k == 0 then Moved([first], offset)[0] else Moved(Moved([places[k - 1]], n), offset)[0]
  {
  }

  lemma {:induction false} PlacesStandBy(write: Writer, w: Weave, k: nat)
    requires k < |PlacesBy(write, w)| == |RefsOf(w)|
    ensures StandsAt(write, WovenBy(write, w), PlacesBy(write, w)[k], RefsOf(w)[k])
  {
    PlacesCount(write, w.rest);
    var token, rest, places := write(w.ref), WovenBy(write, w.rest), PlacesBy(write, w.rest);
    MovedAt(Found(w.ref, 0, |token|), places, |token|, |w.piece|, k);
    if k == 0 {
      StandsFirst(write, w.piece, w.ref, rest);
    } else {
      PlacesStandBy(write, w.rest, k - 1);
      StandsLater(write, w.piece, token, rest, places[k - 1], RefsOf(w.rest)[k - 1]);
    }
  }

  /** The k-th place is that of the k-th reference, and there it stands. */
  lemma PlacesStand(w: Weave, k: nat)
    ensures |Places(w)| == |RefsOf(w)|
    ensures k < |RefsOf(w)| ==> StandsAt(Text, Woven(w), Places(w)[k], RefsOf(w)[k])
  {
    PlacesCount(Text, w);
    if k < |RefsOf(w)| {
      PlacesStandBy(Text, w, k);
    }
  }

  /** References are conserved: a woven text has its own and those of its pieces, and no other. */
  lemma {:induction false} WovenCount(w: Weave)
    requires AllWritable(w)
    ensures |References(Woven(w))| == |RefsOf(w)| + FoundInPieces(w)
  {
    if w.Then? {
      WovenCount(w.rest);
      SerializedSplits(w.piece, w.ref, Woven(w.rest));
    }
  }

  /** If nothing is found in the pieces the text has exactly the woven references, at their places. */
  lemma {:induction false} WovenIsFound(w: Weave)
    requires AllWritable(w) && Silent(w)
    ensures References(Woven(w)) == Places(w)
  {
    if w.Then? {
      WovenIsFound(w.rest);
      SerializedSplits(w.piece, w.ref, Woven(w.rest));
    }
  }

  /** A text of serialized references is parsed to exactly these, the first 32 of them, when nothing is
      found in the text between them. */
  lemma WovenIsParsed(w: Weave)
    requires AllWritable(w) && Silent(w)
    ensures FindAll(Woven(w)) == First(Places(w), MAX_REFS)
  {
    WovenIsFound(w);
    FindAllIsFirst(Woven(w));
  }

  /** Without the limit this is so if and only if nothing is found between them. */
  lemma WovenIsExactIff(w: Weave)
    requires AllWritable(w)
    ensures References(Woven(w)) == Places(w) <==> Silent(w)
  {
    SilentIff(w);
    WovenCount(w);
    PlacesStand(w, 0);
    if Silent(w) {
      WovenIsFound(w);
    }
  }

  /** Nothing is found in text without an exclamation mark. */
  lemma {:induction false} NoBangIsSilent(text: string, from: nat)
    requires NoBang(text)
    ensures All(LookFor, text, from) == []
    decreases |text| - from
  {
    if from < |text| {
      assert text[from..][0] == text[from];
      LookNeedsBang(text[from..]);
      NoBangIsSilent(text, from + 1);
    }
  }

  lemma LookNeedsBang(s: string)
    requires s != "" && s[0] != '!'
    ensures LookFor(s) == Nothing
  {
  }
}
