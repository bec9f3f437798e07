/** The inline extension syntax `![ftre:type](ftre://v1/type/name?query)`: printer and parser.

    The scanner accepts exactly the renderings of well-formed tokens (`MatchRendered`,
    `MatchedIsRendered`). Parsing what was serialized gives the reference back exactly when its type
    and name are kinds, no argument key is empty and the text is within the size bound
    (`RoundTripIff`); serializing what was parsed is a normal form unless it is too large
    (`NormalFormIff`, `NormalFormCanBeTooLarge`). What `parse` finds in a text lies at disjoint spans
    and is what `parse_one` reads there (`FoundAreParsed`). */
module ExtensionParser {
  import opened Prelude
  import opened QueryString
  import opened StringOrder
  import opened Utf8

  const MAX_TOKEN_BYTES: nat := 8192
  const MAX_REFS: nat := 32

  datatype Ref = Ref(version: string, kind: string, name: string, args: map<string, string>)

  datatype Error = InvalidToken | TooLarge | TypeMismatch | BadQuery | EmptyKey | UnsupportedVersion

  /** The groups of a match. */
  datatype Token = Token(alt: string, version: string, kind: string, name: string, query: Option<string>)

  // ---------------------------------------------------------------- the token grammar

  predicate IsKindChar(c: char) {
    'a' <= c <= 'z' || '0' <= c <= '9' || c == '-'
  }

  /** Starts with a letter, and every hyphen is followed by a letter or digit. */
  predicate IsKind(s: string) {
    && s != "" && 'a' <= s[0] <= 'z'
    && (forall k :: 0 <= k < |s| ==> IsKindChar(s[k]))
    && (forall k :: 0 <= k < |s| && s[k] == '-' ==> k + 1 < |s| && s[k + 1] != '-')
  }

  predicate IsDigit(c: char) {
    '0' <= c <= '9'
  }

  predicate IsVersion(s: string) {
    |s| >= 2 && s[0] == 'v' && forall k :: 1 <= k < |s| ==> IsDigit(s[k])
  }

  predicate IsQueryChar(c: char) {
    c != '(' && c != ')' && !IsSpace(c)
  }

  predicate AllChars(s: string, ok: char -> bool) {
    forall k :: 0 <= k < |s| ==> ok(s[k])
  }

  predicate WellFormed(t: Token) {
    && IsKind(t.alt) && IsVersion(t.version) && IsKind(t.kind) && IsKind(t.name)
    && (t.query.Some? ==> AllChars(t.query.value, IsQueryChar))
  }

  /** A word of a kind: letters and digits, at least one. */
  predicate IsWord(w: string) {
    w != "" && forall k :: 0 <= k < |w| ==> 'a' <= w[k] <= 'z' || '0' <= w[k] <= '9'
  }

  predicate AreWords(words: seq<string>) {
    words != [] && forall k :: 0 <= k < |words| ==> IsWord(words[k])
  }

  function Hyphenated(words: seq<string>): string {
    if words == [] then "" else if |words| == 1 then words[0] else words[0] + ("-" + Hyphenated(words[1..]))
  }

  /** A kind without the demand on its first character. */
  predicate IsTail(s: string) {
    && s != "" && s[0] != '-' && (forall k :: 0 <= k < |s| ==> IsKindChar(s[k]))
    && (forall k :: 0 <= k < |s| && s[k] == '-' ==> k + 1 < |s| && s[k + 1] != '-')
  }

  lemma {:induction false} HyphenatedIsTail(words: seq<string>)
    requires AreWords(words)
    ensures IsTail(Hyphenated(words)) && words[0] <= Hyphenated(words)
  {
    var w := words[0];
    if |words| > 1 {
      HyphenatedIsTail(words[1..]);
      var s, rest := Hyphenated(words), Hyphenated(words[1..]);
      assert s[|w|] == '-' && forall k :: 0 <= k < |rest| ==> s[|w| + 1 + k] == rest[k];
    }
  }

  lemma {:induction false} TailIsHyphenated(s: string) returns (words: seq<string>)
    requires IsTail(s)
    ensures AreWords(words) && s == Hyphenated(words) && words[0][0] == s[0]
  {
    var n := IndexOf(s, '-');
    IndexOfIsFirst(s, '-');
    assert IsWord(s[..n]);
    if n == |s| {
      words := [s];
      assert s[..n] == s;
    } else {
      RestIsTail(s, n);
      var others := TailIsHyphenated(s[n + 1..]);
      words := [s[..n]] + others;
      HyphenatedOneMore(s[..n], others);
      assert s == s[..n] + ("-" + s[n + 1..]);
    }
  }

  lemma RestIsTail(s: string, n: nat)
    requires IsTail(s) && n < |s| && s[n] == '-'
    ensures IsTail(s[n + 1..])
  {
    var rest := s[n + 1..];
    assert forall k :: 0 <= k < |rest| ==> rest[k] == s[n + 1 + k];
  }

  lemma HyphenatedOneMore(w: string, others: seq<string>)
    requires IsWord(w) && AreWords(others)
    ensures AreWords([w] + others) && Hyphenated([w] + others) == w + ("-" + Hyphenated(others))
  {
    assert ([w] + others)[1..] == others;
  }

  lemma {:induction false} IndexOfIsFirst(s: string, c: char)
    ensures forall k :: 0 <= k < IndexOf(s, c) ==> s[k] != c
  {
    if s != "" && s[0] != c {
      IndexOfIsFirst(s[1..], c);
    }
  }

  predicate IsKindOf(s: string, words: seq<string>) {
    AreWords(words) && 'a' <= words[0][0] <= 'z' && s == Hyphenated(words)
  }

  /** The kinds are the words of letters and digits joined by hyphens, the first beginning with a letter; the
      versions are a `v` and digits. */
  lemma KindIff(s: string)
    ensures IsKind(s) <==> exists words :: IsKindOf(s, words)
    ensures IsVersion(s) <==> |s| >= 2 && s[0] == 'v' && forall k :: 1 <= k < |s| ==> '0' <= s[k] <= '9'
  {
    if IsKind(s) {
      var words := TailIsHyphenated(s);
      assert IsKindOf(s, words);
    }
    if words :| IsKindOf(s, words) {
      HyphenatedIsTail(words);
      assert words[0][0] == s[0];
    }
  }

  function QueryText(query: Option<string>): string {
    match query
    case None => ""
    case Some(q) => "?" + q
  }

  function Render(t: Token): string {
    "![ftre:" + (t.alt + ("](ftre://" + (t.version + ("/" + (t.kind + ("/" + (t.name + (QueryText(t.query) + ")"))))))))
  }

  // ---------------------------------------------------------------- the scanner

  /** The longest prefix of characters that are `ok`. */
  function RunOf(s: string, ok: char -> bool): (n: nat)
    ensures n <= |s|
  {
    if s != "" && ok(s[0]) then 1 + RunOf(s[1..], ok) else 0
  }

  function Strip(s: string, prefix: string): Option<string> {
    if prefix <= s then Some(s[|prefix|..]) else None
  }

  datatype Read<T> = Read(value: T, rest: string)

  function ReadKind(s: string): Option<Read<string>> {
    var n := RunOf(s, IsKindChar);
    if IsKind(s[..n]) then Some(Read(s[..n], s[n..])) else None
  }

  function ReadVersion(s: string): Option<Read<string>> {
    if s == "" || s[0] != 'v' then None
    else
      var n := 1 + RunOf(s[1..], IsDigit);
      if IsVersion(s[..n]) then Some(Read(s[..n], s[n..])) else None
  }

  function ReadQuery(s: string): Read<Option<string>> {
    if s == "" || s[0] != '?' then Read(None, s)
    else
      var n := RunOf(s[1..], IsQueryChar);
      Read(Some(s[1..][..n]), s[1..][n..])
  }

  /** What follows the kind: name, query and the closing parenthesis. */
  function MatchName(s: string): Option<Read<(string, Option<string>)>> {
    match ReadKind(s)
    case None => None
    case Some(name) =>
      var query := ReadQuery(name.rest);
      match Strip(query.rest, ")")
      case None => None
      case Some(rest) => Some(Read((name.value, query.value), rest))
  }

  /** What follows `ftre://`: version and kind, each with its slash, then the name part. */
  function MatchTarget(s: string): Option<Read<Token>> {
    match ReadVersion(s)
    case None => None
    case Some(version) =>
      match Strip(version.rest, "/")
      case None => None
      case Some(afterVersion) =>
        match ReadKind(afterVersion)
        case None => None
        case Some(kind) =>
          match Strip(kind.rest, "/")
          case None => None
          case Some(afterKind) =>
            match MatchName(afterKind)
            case None => None
            case Some(name) => Some(Read(Token("", version.value, kind.value, name.value.0, name.value.1), name.rest))
  }

  /** The token at the start of the text, if there is one. */
  function MatchToken(s: string): Option<Read<Token>> {
    match Strip(s, "![ftre:")
    case None => None
    case Some(afterOpen) =>
      match ReadKind(afterOpen)
      case None => None
      case Some(alt) =>
        match Strip(alt.rest, "](ftre://")
        case None => None
        case Some(target) =>
          match MatchTarget(target)
          case None => None
          case Some(t) => Some(Read(t.value.(alt := alt.value), t.rest))
  }

  // ---------------------------------------------------------------- the scanner is the grammar

  lemma {:induction false} RunOfPrefix(s: string, rest: string, ok: char -> bool)
    requires AllChars(s, ok) && (rest == "" || !ok(rest[0]))
    ensures RunOf(s + rest, ok) == |s|
  {
    if s == "" {
      assert s + rest == rest;
    } else {
      assert (s + rest)[1..] == s[1..] + rest;
      RunOfPrefix(s[1..], rest, ok);
    }
  }

  lemma {:induction false} RunOfOk(s: string, ok: char -> bool)
    ensures AllChars(s[..RunOf(s, ok)], ok)
  {
    if s != "" && ok(s[0]) {
      RunOfOk(s[1..], ok);
      var n := RunOf(s[1..], ok);
      assert s[..n + 1] == [s[0]] + s[1..][..n];
    }
  }

  lemma StripPrefix(prefix: string, rest: string)
    ensures Strip(prefix + rest, prefix) == Some(rest)
  {
  }

  lemma ReadKindPrefix(kind: string, rest: string)
    requires IsKind(kind) && (rest == "" || !IsKindChar(rest[0]))
    ensures ReadKind(kind + rest) == Some(Read(kind, rest))
  {
    RunOfPrefix(kind, rest, IsKindChar);
    assert (kind + rest)[..|kind|] == kind && (kind + rest)[|kind|..] == rest;
  }

  lemma ReadVersionPrefix(version: string, rest: string)
    requires IsVersion(version) && (rest == "" || !IsDigit(rest[0]))
    ensures ReadVersion(version + rest) == Some(Read(version, rest))
  {
    assert (version + rest)[1..] == version[1..] + rest;
    RunOfPrefix(version[1..], rest, IsDigit);
    assert (version + rest)[..|version|] == version && (version + rest)[|version|..] == rest;
  }

  lemma ReadSomeQuery(q: string, rest: string)
    requires AllChars(q, IsQueryChar) && rest != "" && rest[0] == ')'
    ensures ReadQuery("?" + (q + rest)) == Read(Some(q), rest)
  {
    var s := "?" + (q + rest);
    assert s[0] == '?' && s[1..] == q + rest;
    RunOfPrefix(q, rest, IsQueryChar);
    assert (q + rest)[..|q|] == q && (q + rest)[|q|..] == rest;
  }

  lemma ReadQueryPrefix(query: Option<string>, rest: string)
    requires query.Some? ==> AllChars(query.value, IsQueryChar)
    requires rest != "" && rest[0] == ')'
    ensures ReadQuery(QueryText(query) + rest) == Read(query, rest)
  {
    if query.Some? {
      ReadSomeQuery(query.value, rest);
      assert QueryText(query) + rest == "?" + (query.value + rest);
    } else {
      assert "" + rest == rest;
    }
  }

  lemma MatchNameRendered(name: string, query: Option<string>, rest: string)
    requires IsKind(name) && (query.Some? ==> AllChars(query.value, IsQueryChar))
    ensures MatchName(name + (QueryText(query) + (")" + rest))) == Some(Read((name, query), rest))
  {
    ReadKindPrefix(name, QueryText(query) + (")" + rest));
    ReadQueryPrefix(query, ")" + rest);
    StripPrefix(")", rest);
  }

  function NameText(t: Token, rest: string): string {
    t.name + (QueryText(t.query) + (")" + rest))
  }

  function TargetText(t: Token, rest: string): string {
    t.version + ("/" + (t.kind + ("/" + NameText(t, rest))))
  }

  lemma MatchTargetRendered(t: Token, rest: string)
    requires WellFormed(t)
    ensures MatchTarget(TargetText(t, rest)) == Some(Read(t.(alt := ""), rest))
  {
    MatchNameRendered(t.name, t.query, rest);
    var name := NameText(t, rest);
    StripPrefix("/", name);
    ReadKindPrefix(t.kind, "/" + name);
    StripPrefix("/", t.kind + ("/" + name));
    ReadVersionPrefix(t.version, "/" + (t.kind + ("/" + name)));
  }

  function TokenText(t: Token, rest: string): string {
    "![ftre:" + (t.alt + ("](ftre://" + TargetText(t, rest)))
  }

  lemma TokenTextIsRender(t: Token, rest: string)
    ensures TokenText(t, rest) == Render(t) + rest
  {
    var q := QueryText(t.query);
    assert q + (")" + rest) == (q + ")") + rest;
    assert NameText(t, rest) == (t.name + (q + ")")) + rest;
    var nameText := t.name + (q + ")");
    assert t.kind + ("/" + NameText(t, rest)) == (t.kind + ("/" + nameText)) + rest;
    var kindText := t.kind + ("/" + nameText);
    assert TargetText(t, rest) == (t.version + ("/" + kindText)) + rest;
    var targetText := t.version + ("/" + kindText);
    assert t.alt + ("](ftre://" + TargetText(t, rest)) == (t.alt + ("](ftre://" + targetText)) + rest;
  }

  /** Every rendering of a well-formed token is matched, whatever follows it. */
  lemma MatchRendered(t: Token, rest: string)
    requires WellFormed(t)
    ensures MatchToken(Render(t) + rest) == Some(Read(t, rest))
  {
    TokenTextIsRender(t, rest);
    var target := TargetText(t, rest);
    MatchTargetRendered(t, rest);
    StripPrefix("](ftre://", target);
    ReadKindPrefix(t.alt, "](ftre://" + target);
    StripPrefix("![ftre:", t.alt + ("](ftre://" + target));
  }

  lemma ReadKindReads(s: string)
    requires ReadKind(s).Some?
    ensures var r := ReadKind(s).value; IsKind(r.value) && s == r.value + r.rest
  {
  }

  lemma ReadVersionReads(s: string)
    requires ReadVersion(s).Some?
    ensures var r := ReadVersion(s).value; IsVersion(r.value) && s == r.value + r.rest
  {
  }

  lemma ReadQueryReads(s: string)
    ensures var r := ReadQuery(s);
      && s == QueryText(r.value) + r.rest
      && (r.value.Some? ==> AllChars(r.value.value, IsQueryChar))
  {
    if s != "" && s[0] == '?' {
      RunOfOk(s[1..], IsQueryChar);
      var n := RunOf(s[1..], IsQueryChar);
      assert s == "?" + (s[1..][..n] + s[1..][n..]);
    } else {
      assert s == "" + s;
    }
  }

  lemma StripReads(s: string, prefix: string)
    requires Strip(s, prefix).Some?
    ensures s == prefix + Strip(s, prefix).value
  {
  }

  lemma MatchNameReads(s: string)
    requires MatchName(s).Some?
    ensures var r := MatchName(s).value;
      && IsKind(r.value.0) && (r.value.1.Some? ==> AllChars(r.value.1.value, IsQueryChar))
      && s == r.value.0 + (QueryText(r.value.1) + (")" + r.rest))
  {
    ReadKindReads(s);
    var name := ReadKind(s).value;
    ReadQueryReads(name.rest);
    StripReads(ReadQuery(name.rest).rest, ")");
  }

  lemma MatchTargetReads(s: string)
    requires MatchTarget(s).Some?
    ensures var r := MatchTarget(s).value;
      && IsVersion(r.value.version) && IsKind(r.value.kind) && IsKind(r.value.name)
      && (r.value.query.Some? ==> AllChars(r.value.query.value, IsQueryChar))
      && s == TargetText(r.value, r.rest)
  {
    ReadVersionReads(s);
    var version := ReadVersion(s).value;
    StripReads(version.rest, "/");
    var afterVersion := Strip(version.rest, "/").value;
    ReadKindReads(afterVersion);
    var kind := ReadKind(afterVersion).value;
    StripReads(kind.rest, "/");
    MatchNameReads(Strip(kind.rest, "/").value);
  }

  /** Everything matched is the rendering of a well-formed token, followed by the rest. */
  lemma MatchedIsRendered(s: string)
    requires MatchToken(s).Some?
    ensures var r := MatchToken(s).value; WellFormed(r.value) && s == Render(r.value) + r.rest
  {
    StripReads(s, "![ftre:");
    var afterOpen := Strip(s, "![ftre:").value;
    ReadKindReads(afterOpen);
    var alt := ReadKind(afterOpen).value;
    StripReads(alt.rest, "](ftre://");
    var target := Strip(alt.rest, "](ftre://").value;
    MatchTargetReads(target);
    var r := MatchToken(s).value;
    assert TargetText(r.value, r.rest) == TargetText(MatchTarget(target).value.value, r.rest);
    TokenTextIsRender(r.value, r.rest);
  }

  // ---------------------------------------------------------------- parse_one and serialize

  function ByteSize(s: string): nat {
    |Encode(s)|
  }

  /** The dict of the fields, a later field winning over an earlier one; no key may be empty. */
  function ToArgs(fields: seq<Field>): Option<map<string, string>> {
    if fields == [] then Some(map[])
    else
      var f := fields[|fields| - 1];
      match ToArgs(fields[..|fields| - 1])
      case None => None
      case Some(args) => if f.key == "" then None else Some(args[f.key := f.value])
  }

  /** The loop of `_from_match`: it raises at the first empty key. */
  method ReadArgs(fields: seq<Field>) returns (args: Option<map<string, string>>)
    ensures args == ToArgs(fields)
  {
    var read: map<string, string> := map[];
    for i := 0 to |fields|
      invariant ToArgs(fields[..i]) == Some(read)
    {
      assert fields[..i + 1][..i] == fields[..i];
      if fields[i].key == "" {
        NoArgsFromPrefix(fields, i + 1);
        return None;
      }
      read := read[fields[i].key := fields[i].value];
    }
    assert fields[..|fields|] == fields;
    args := Some(read);
  }

  lemma {:induction false} NoArgsFromPrefix(fields: seq<Field>, n: nat)
    requires n <= |fields| && ToArgs(fields[..n]).None?
    ensures ToArgs(fields).None?
  {
    if n == |fields| {
      assert fields[..n] == fields;
    } else {
      assert fields[..|fields| - 1][..n] == fields[..n];
      NoArgsFromPrefix(fields[..|fields| - 1], n);
    }
  }

  function FromMatch(t: Token): Result<Ref, Error> {
    match ParseQsl(if t.query.Some? then t.query.value else "")
    case None => Err(BadQuery)
    case Some(fields) =>
      match ToArgs(fields)
      case None => Err(EmptyKey)
      case Some(args) =>
        if t.version != "v1" then Err(UnsupportedVersion) else Ok(Ref(t.version, t.kind, t.name, args))
  }

  function Check(t: Token, raw: string): Result<Ref, Error> {
    if ByteSize(raw) > MAX_TOKEN_BYTES then Err(TooLarge)
    else if t.alt != t.kind then Err(TypeMismatch)
    else FromMatch(t)
  }

  type Matcher = string -> Option<Read<Token>>
  type Checker = (Token, string) -> Result<Ref, Error>

  /** A full match is needed, then the checks. */
  function ParseOneBy(matcher: Matcher, check: Checker, raw: string): Result<Ref, Error> {
    match matcher(raw)
    case None => Err(InvalidToken)
    case Some(r) => if r.rest != "" then Err(InvalidToken) else check(r.value, raw)
  }

  function ParseOne(raw: string): Result<Ref, Error> {
    ParseOneBy(MatchToken, Check, raw)
  }

  function FieldsOf(keys: seq<string>, args: map<string, string>): seq<Field>
    requires forall k :: k in keys ==> k in args
  {
    if keys == [] then []
    else
      var front, k := keys[..|keys| - 1], keys[|keys| - 1];
      assert k in keys && forall j :: j in front ==> j in keys;
      FieldsOf(front, args) + [Field(k, args[k])]
  }

  function SortedFields(args: map<string, string>): seq<Field> {
    assert forall k :: k in Sorted(args.Keys) ==> k in args by {
      forall k | k in Sorted(args.Keys) ensures k in args {
        SortedHas(args.Keys, k);
      }
    }
    FieldsOf(Sorted(args.Keys), args)
  }

  function QueryOf(args: map<string, string>): Option<string> {
    var query := UrlEncode(SortedFields(args));
    if query == "" then None else Some(query)
  }

  function TokenOf(ref: Ref): Token {
    Token(ref.kind, ref.version, ref.kind, ref.name, QueryOf(ref.args))
  }

  function Serialize(ref: Ref): Result<string, Error> {
    if ref.version != "v1" then Err(UnsupportedVersion) else Ok(Render(TokenOf(ref)))
  }

  // ---------------------------------------------------------------- the round trip

  lemma ToArgsSnoc(fields: seq<Field>, f: Field)
    requires ToArgs(fields).Some? && f.key != ""
    ensures ToArgs(fields + [f]) == Some(ToArgs(fields).value[f.key := f.value])
  {
    assert (fields + [f])[..|fields|] == fields;
  }

  /** `read` is `args` restricted to the keys. */
  ghost predicate Restricts(read: map<string, string>, keys: seq<string>, args: map<string, string>) {
    (forall k :: k in read <==> k in keys) && forall k :: k in read ==> k in args && read[k] == args[k]
  }

  lemma RestrictsSnoc(read: map<string, string>, keys: seq<string>, k: string, args: map<string, string>)
    requires Restricts(read, keys, args) && k in args
    ensures Restricts(read[k := args[k]], keys + [k], args)
  {
  }

  /** The dict read from the fields of some keys is the dict restricted to them. */
  lemma {:induction false} ArgsOfFields(keys: seq<string>, args: map<string, string>)
    requires forall k :: k in keys ==> k in args && k != ""
    ensures ToArgs(FieldsOf(keys, args)).Some?
    ensures Restricts(ToArgs(FieldsOf(keys, args)).value, keys, args)
  {
    if keys != [] {
      var front, k := keys[..|keys| - 1], keys[|keys| - 1];
      assert k in keys && forall j :: j in front ==> j in keys;
      ArgsOfFields(front, args);
      ToArgsSnoc(FieldsOf(front, args), Field(k, args[k]));
      RestrictsSnoc(ToArgs(FieldsOf(front, args)).value, front, k, args);
      assert keys == front + [k];
    }
  }

  lemma ArgsRoundTrip(args: map<string, string>)
    requires "" !in args
    ensures ToArgs(SortedFields(args)) == Some(args)
  {
    forall k ensures k in Sorted(args.Keys) <==> k in args {
      SortedHas(args.Keys, k);
    }
    ArgsOfFields(Sorted(args.Keys), args);
    var read := ToArgs(SortedFields(args)).value;
    assert read.Keys == args.Keys;
    assert read == args;
  }

  /** An empty key never comes out of a dict that was read. */
  lemma {:induction false} NoEmptyKey(fields: seq<Field>)
    ensures ToArgs(fields).Some? ==> "" !in ToArgs(fields).value
  {
    if fields != [] {
      NoEmptyKey(fields[..|fields| - 1]);
    }
  }

  predicate IsFieldChar(c: char) {
    QuotedChar(c) || c == '=' || c == '&'
  }

  lemma WrittenFieldChars(f: Field)
    ensures AllChars(WriteField(f), IsFieldChar)
  {
    UnquoteQuote(f.key);
    UnquoteQuote(f.value);
  }

  /** A written query has only characters that a token's query may have. */
  lemma {:induction false} WrittenQueryChars(fields: seq<Field>)
    ensures AllChars(UrlEncode(fields), IsFieldChar)
  {
    if fields != [] {
      WrittenFieldChars(fields[0]);
      WrittenQueryChars(fields[1..]);
    }
  }

  lemma TokenIsWellFormed(ref: Ref)
    requires ref.version == "v1" && IsKind(ref.kind) && IsKind(ref.name)
    ensures WellFormed(TokenOf(ref))
  {
    var fields := SortedFields(ref.args);
    WrittenQueryChars(fields);
  }

  lemma FromTokenOf(ref: Ref)
    requires ref.version == "v1" && "" !in ref.args
    ensures FromMatch(TokenOf(ref)) == Ok(ref)
  {
    var fields := SortedFields(ref.args);
    ReadFieldsWritten(fields);
    ArgsRoundTrip(ref.args);
    assert (if QueryOf(ref.args).Some? then QueryOf(ref.args).value else "") == UrlEncode(fields);
  }

  lemma RoundTripWhenWell(ref: Ref)
    requires ref.version == "v1" && IsKind(ref.kind) && IsKind(ref.name) && "" !in ref.args
    requires ByteSize(Render(TokenOf(ref))) <= MAX_TOKEN_BYTES
    ensures ParseOne(Render(TokenOf(ref))) == Ok(ref)
  {
    TokenIsWellFormed(ref);
    MatchRendered(TokenOf(ref), "");
    assert Render(TokenOf(ref)) + "" == Render(TokenOf(ref));
    FromTokenOf(ref);
  }

  lemma FromMatchIsWell(t: Token)
    requires FromMatch(t).Ok?
    ensures var ref := FromMatch(t).value;
      ref.version == "v1" && ref.kind == t.kind && ref.name == t.name && "" !in ref.args
  {
    NoEmptyKey(ParseQsl(if t.query.Some? then t.query.value else "").value);
  }

  lemma ParsedIsMatched(raw: string)
    ensures ParseOne(raw).Ok? ==>
              MatchToken(raw).Some? && MatchToken(raw).value.rest == ""
              && ParseOne(raw) == Check(MatchToken(raw).value.value, raw)
  {
  }

  /** What any successful parse guarantees about the reference. */
  lemma ParsedIsWell(raw: string)
    ensures ParseOne(raw).Ok? ==>
              var ref := ParseOne(raw).value;
              && ref.version == "v1" && IsKind(ref.kind) && IsKind(ref.name) && "" !in ref.args
              && ByteSize(raw) <= MAX_TOKEN_BYTES
  {
    if ParseOne(raw).Ok? {
      ParsedIsMatched(raw);
      MatchedIsRendered(raw);
      var t := MatchToken(raw).value.value;
      FromMatchIsWell(t);
    }
  }

  /** The arguments of fields without an empty key: each key has the value of its last field. */
  ghost predicate AreArgs(fields: seq<Field>, args: map<string, string>) {
    && (forall k :: 0 <= k < |fields| ==> fields[k].key != "" && fields[k].key in args)
    && (forall key :: key in args ==> exists k: nat :: IsLastOf(fields, key, k) && args[key] == fields[k].value)
  }

  predicate IsLastOf(fields: seq<Field>, key: string, k: nat) {
    && k < |fields| && fields[k].key == key
    && forall j :: k < j < |fields| ==> fields[j].key != key
  }

  lemma {:induction false} ToArgsIff(fields: seq<Field>)
    ensures ToArgs(fields).None? <==> exists k :: 0 <= k < |fields| && fields[k].key == ""
    ensures ToArgs(fields).Some? ==> AreArgs(fields, ToArgs(fields).value)
  {
    if fields != [] {
      var front, last := fields[..|fields| - 1], fields[|fields| - 1];
      ToArgsIff(front);
      assert forall k :: 0 <= k < |front| ==> front[k] == fields[k];
      if ToArgs(fields).Some? {
        LastFieldWins(front, last, ToArgs(front).value);
        assert fields == front + [last];
      }
    }
  }

  lemma LastFieldWins(front: seq<Field>, last: Field, args: map<string, string>)
    requires AreArgs(front, args) && last.key != ""
    ensures AreArgs(front + [last], args[last.key := last.value])
  {
    var fields, all := front + [last], args[last.key := last.value];
    forall key | key in all
      ensures exists k: nat :: IsLastOf(fields, key, k) && all[key] == fields[k].value
    {
      if key == last.key {
        assert IsLastOf(fields, key, |front|);
      } else {
        var k: nat :| IsLastOf(front, key, k) && args[key] == front[k].value;
        assert IsLastOf(fields, key, k);
      }
    }
  }

  /** What `parse_one` makes of the rendering of a token: the first check that fails, or its reference. */
  ghost predicate ReadAs(t: Token, raw: string, r: Result<Ref, Error>) {
    var fields := ParseQsl(if t.query.Some? then t.query.value else "");
    if |Encode(raw)| > 8192 then r == Err(TooLarge)
    else if t.alt != t.kind then r == Err(TypeMismatch)
    else if fields.None? then r == Err(BadQuery)
    else if exists k :: 0 <= k < |fields.value| && fields.value[k].key == "" then r == Err(EmptyKey)
    else if t.version != "v1" then r == Err(UnsupportedVersion)
    else r.Ok? && r.value == Ref("v1", t.kind, t.name, r.value.args) && AreArgs(fields.value, r.value.args)
  }

  predicate IsRendering(raw: string, t: Token) {
    WellFormed(t) && raw == Render(t)
  }

  /** `parse_one` reads every rendering of a well-formed token as it says, and refuses every other text. */
  lemma ParseOneReads(raw: string)
    ensures forall t :: IsRendering(raw, t) ==> ReadAs(t, raw, ParseOne(raw))
    ensures ParseOne(raw) == Err(InvalidToken) <==> forall t :: !IsRendering(raw, t)
  {
    forall t | IsRendering(raw, t)
      ensures ReadAs(t, raw, ParseOne(raw)) && ParseOne(raw) != Err(InvalidToken)
    {
      RenderingIsChecked(t, raw);
      CheckReads(t, raw);
    }
    if MatchToken(raw).Some? && MatchToken(raw).value.rest == "" {
      MatchedIsRendered(raw);
      assert IsRendering(raw, MatchToken(raw).value.value);
    }
  }

  lemma RenderingIsChecked(t: Token, raw: string)
    requires IsRendering(raw, t)
    ensures ParseOne(raw) == Check(t, raw)
  {
    MatchRendered(t, "");
    assert Render(t) + "" == raw;
  }

  lemma CheckReads(t: Token, raw: string)
    ensures ReadAs(t, raw, Check(t, raw)) && Check(t, raw) != Err(InvalidToken)
  {
    var fields := ParseQsl(if t.query.Some? then t.query.value else "");
    if fields.Some? {
      ToArgsIff(fields.value);
    }
  }

  /** Parsing a serialized reference gives the same version, kind, name and arguments exactly when
      kind and name are well formed, no key is empty and the text is within the size bound. */
  lemma RoundTripIff(ref: Ref)
    requires ref.version == "v1"
    ensures Serialize(ref).Ok?
    ensures ParseOne(Serialize(ref).value) == Ok(ref) <==>
              IsKind(ref.kind) && IsKind(ref.name) && "" !in ref.args
              && ByteSize(Serialize(ref).value) <= MAX_TOKEN_BYTES
    ensures forall other: Ref :: other.version != "v1" ==> Serialize(other) == Err(UnsupportedVersion)
  {
    var text := Serialize(ref).value;
    if ParseOne(text) == Ok(ref) {
      ParsedIsWell(text);
    }
    if IsKind(ref.kind) && IsKind(ref.name) && "" !in ref.args && ByteSize(text) <= MAX_TOKEN_BYTES {
      RoundTripWhenWell(ref);
    }
  }

  /** Serializing what was parsed is a normal form: if it is within the size bound (percent-encoding
      can make it longer than what was parsed) it parses to the same reference, and not otherwise. */
  lemma NormalFormIff(raw: string)
    ensures ParseOne(raw).Ok? ==>
              var ref := ParseOne(raw).value;
              && Serialize(ref).Ok?
              && (ParseOne(Serialize(ref).value) == Ok(ref) <==> ByteSize(Serialize(ref).value) <= MAX_TOKEN_BYTES)
  {
    ParsedIsWell(raw);
    if ParseOne(raw).Ok? {
      RoundTripIff(ParseOne(raw).value);
    }
  }

  /** The token of one argument, written without quoting. */
  function PlainToken(kind: string, name: string, key: string, value: string): Token {
    Token(kind, "v1", kind, name, Some(key + "=" + value))
  }

  predicate IsPlainArg(key: string, value: string) {
    key != "" && IsPlain(key) && IsPlain(value) && AllChars(key, IsQueryChar) && AllChars(value, IsQueryChar)
  }

  lemma RenderedIsChecked(t: Token)
    requires WellFormed(t)
    ensures ParseOne(Render(t)) == Check(t, Render(t))
  {
    MatchRendered(t, "");
    assert Render(t) + "" == Render(t);
  }

  lemma PlainTokenIsWellFormed(kind: string, name: string, key: string, value: string)
    requires IsKind(kind) && IsKind(name) && IsPlainArg(key, value)
    ensures WellFormed(PlainToken(kind, name, key, value))
  {
    assert AllChars(key + "=" + value, IsQueryChar);
  }

  lemma FromPlainToken(kind: string, name: string, key: string, value: string)
    requires key != "" && IsPlain(key) && IsPlain(value)
    ensures FromMatch(PlainToken(kind, name, key, value)) == Ok(Ref("v1", kind, name, map[key := value]))
  {
    ReadPlainField(key, value);
    var f := Field(key, value);
    assert [f][..0] == [] && ToArgs([]) == Some(map[]);
    assert ToArgs([f]) == Some(map[][key := value]);
  }

  lemma CheckPlainToken(kind: string, name: string, key: string, value: string, raw: string)
    requires IsPlainArg(key, value) && ByteSize(raw) <= MAX_TOKEN_BYTES
    ensures Check(PlainToken(kind, name, key, value), raw) == Ok(Ref("v1", kind, name, map[key := value]))
  {
    FromPlainToken(kind, name, key, value);
  }

  lemma PlainTokenIsParsed(kind: string, name: string, key: string, value: string)
    requires IsKind(kind) && IsKind(name) && IsPlainArg(key, value)
    requires ByteSize(Render(PlainToken(kind, name, key, value))) <= MAX_TOKEN_BYTES
    ensures ParseOne(Render(PlainToken(kind, name, key, value))) == Ok(Ref("v1", kind, name, map[key := value]))
  {
    PlainTokenIsWellFormed(kind, name, key, value);
    RenderedIsChecked(PlainToken(kind, name, key, value));
    CheckPlainToken(kind, name, key, value, Render(PlainToken(kind, name, key, value)));
  }

  lemma OneField(key: string, value: string)
    ensures SortedFields(map[key := value]) == [Field(key, value)]
  {
    var args := map[key := value];
    assert args.Keys == {key};
    assert Least({key}) == key && {key} - {key} == {};
    assert Sorted({key}) == [key];
    assert [key][..0] == [] && FieldsOf([], args) == [];
  }

  lemma SerializedSize(ref: Ref)
    ensures ByteSize(Render(TokenOf(ref))) >= |UrlEncode(SortedFields(ref.args))|
  {
    NoShorter(Render(TokenOf(ref)));
  }

  /** A reference that is parsed although what it is serialized to is too large: its value has many
      characters that quoting triples. */
  lemma LongValueIsNotNormal(kind: string, name: string, key: string, value: string)
    requires IsKind(kind) && IsKind(name) && IsPlainArg(key, value) && NeedsQuoting(value)
    requires ByteSize(Render(PlainToken(kind, name, key, value))) <= MAX_TOKEN_BYTES < 3 * |value|
    ensures var ref := Ref("v1", kind, name, map[key := value]);
      && ParseOne(Render(PlainToken(kind, name, key, value))) == Ok(ref)
      && Serialize(ref).Ok? && ParseOne(Serialize(ref).value) != Ok(ref)
  {
    var ref := Ref("v1", kind, name, map[key := value]);
    PlainTokenIsParsed(kind, name, key, value);
    OneField(key, value);
    QuotingTriples(value);
    SerializedSize(ref);
    RoundTripIff(ref);
  }

  function Marks(n: nat): (s: string)
    ensures |s| == n && forall k :: 0 <= k < n ==> s[k] == '!'
  {
    seq(n, _ => '!')
  }

  /** The token of one argument of exclamation marks, `![ftre:x](ftre://v1/x/y?k=!!...)`. */
  function MarksToken(n: nat): Token {
    PlainToken("x", "y", "k", Marks(n))
  }

  lemma MarksTokenSize(n: nat)
    ensures ByteSize(Render(MarksToken(n))) == n + 27
  {
    var t := MarksToken(n);
    assert QueryText(t.query) == "?k=" + Marks(n);
    var tail := "?k=" + Marks(n) + ")";
    assert Render(t) == "![ftre:x](ftre://v1/x/y" + tail by {
      RenderMarks(tail);
    }
    AsciiIsAsLong(Render(t));
  }

  lemma RenderMarks(tail: string)
    ensures "![ftre:" + ("x" + ("](ftre://" + ("v1" + ("/" + ("x" + ("/" + ("y" + tail)))))))
         == "![ftre:x](ftre://v1/x/y" + tail
  {
  }

  /** With 3000 of them it is parsed, and what it is serialized to is not. */
  lemma NormalFormCanBeTooLarge()
    ensures var raw := Render(MarksToken(3000));
      && ParseOne(raw) == Ok(Ref("v1", "x", "y", map["k" := Marks(3000)]))
      && Serialize(ParseOne(raw).value).Ok?
      && ParseOne(Serialize(ParseOne(raw).value).value) != ParseOne(raw)
  {
    MarksTokenSize(3000);
    LongValueIsNotNormal("x", "y", "k", Marks(3000));
  }

  // ---------------------------------------------------------------- parse

  datatype Found = Found(ref: Ref, start: nat, end: nat)

  /** What stands at a position: no token, one that is passed over, or a reference; a token is one
      character and `more` long. */
  datatype Look = Nothing | Skip(more: nat) | Take(ref: Ref, more: nat)

  /** A token at the start of `s` is worth what the checks of `parse_one` say of the matched text.
      (A match is never empty, `MatchConsumes`.) */
  function LookBy(matcher: Matcher, check: Checker, s: string): Look {
    match matcher(s)
    case None => Nothing
    case Some(r) =>
      if |s| <= |r.rest| then Nothing
      else
        var n := |s| - |r.rest|;
        match check(r.value, s[..n])
        case Ok(ref) => Take(ref, n - 1)
        case Err(_) => Skip(n - 1)
  }

  lemma MatchConsumes(s: string)
    ensures MatchToken(s).Some? ==> |MatchToken(s).value.rest| < |s|
  {
    if MatchToken(s).Some? {
      MatchedIsRendered(s);
    }
  }

  /** Going over the positions of the text from `from` on, given how many references were found. */
  function Scan(look: string -> Look, text: string, from: nat, found: nat): seq<Found>
    decreases |text| - from
  {
    if from >= |text| then []
    else
      match look(text[from..])
      case Nothing => Scan(look, text, from + 1, found)
      case Skip(more) => if found >= MAX_REFS then [] else Scan(look, text, from + 1 + more, found)
      case Take(ref, more) =>
        if found >= MAX_REFS then []
        else [Found(ref, from, from + 1 + more)] + Scan(look, text, from + 1 + more, found + 1)
  }

  function Looking(matcher: Matcher, check: Checker): string -> Look {
    s => LookBy(matcher, check, s)
  }

  function FindAllBy(matcher: Matcher, check: Checker, text: string): seq<Found> {
    Scan(Looking(matcher, check), text, 0, 0)
  }

  /** The references of a text. */
  function FindAll(text: string): seq<Found> {
    FindAllBy(MatchToken, Check, text)
  }

  method Parse(text: string) returns (refs: seq<Found>)
    ensures refs == FindAll(text)
  {
    refs := ScanLoop(Looking(MatchToken, Check), text);
  }

  /** The loop of `parse`, for any way of looking at a position. */
  method ScanLoop(look: string -> Look, text: string) returns (refs: seq<Found>)
    ensures refs == Scan(look, text, 0, 0)
  {
    refs := [];
    var from := 0;
    while from < |text|
      invariant Scan(look, text, 0, 0) == refs + Scan(look, text, from, |refs|)
      decreases |text| - from
    {
      var here := look(text[from..]);
      if here.Nothing? {
        from := from + 1;
      } else {
        if |refs| >= MAX_REFS {
          break;
        }
        if here.Take? {
          Regroup(refs, Found(here.ref, from, from + 1 + here.more),
            Scan(look, text, from + 1 + here.more, |refs| + 1));
          refs := refs + [Found(here.ref, from, from + 1 + here.more)];
        }
        from := from + 1 + here.more;
      }
    }
    assert refs + [] == refs;
  }

  lemma Regroup(refs: seq<Found>, found: Found, later: seq<Found>)
    ensures refs + ([found] + later) == (refs + [found]) + later
  {
  }

  /** A found reference is what looking at its place gives. */
  predicate Stands(look: string -> Look, text: string, f: Found) {
    f.start < |text| && f.start < f.end && look(text[f.start..]) == Take(f.ref, f.end - f.start - 1)
  }

  /** What a scan finds stands where it says, in order and apart, and there are at most 32. */
  lemma {:induction false} ScanFinds(look: string -> Look, text: string, from: nat, found: nat, k: nat)
    requires found <= MAX_REFS
    ensures var all := Scan(look, text, from, found);
      && found + |all| <= MAX_REFS
      && (k < |all| ==> from <= all[k].start && Stands(look, text, all[k]))
      && (k + 1 < |all| ==> all[k].end <= all[k + 1].start)
    decreases |text| - from
  {
    if from < |text| {
      match look(text[from..])
      case Nothing => ScanFinds(look, text, from + 1, found, k);
      case Skip(more) =>
        if found < MAX_REFS {
          ScanFinds(look, text, from + 1 + more, found, k);
        }
      case Take(ref, more) =>
        if found < MAX_REFS {
          ScanFinds(look, text, from + 1 + more, found + 1, if k > 0 then k - 1 else 0);
        }
    }
  }

  /** A match consumes something that is matched by itself. */
  predicate AloneAt(matcher: Matcher, s: string) {
    matcher(s).Some? ==>
      var r := matcher(s).value;
      |r.rest| < |s| && matcher(s[..|s| - |r.rest|]) == Some(Read(r.value, ""))
  }

  ghost predicate MatchesAlone(matcher: Matcher) {
    forall s :: AloneAt(matcher, s)
  }

  lemma MatchedAlone(s: string, t: Token, rest: string)
    requires MatchToken(s) == Some(Read(t, rest))
    ensures |rest| < |s| && MatchToken(s[..|s| - |rest|]) == Some(Read(t, ""))
  {
    MatchedIsRendered(s);
    assert s[..|s| - |rest|] == Render(t);
    MatchRendered(t, "");
    assert Render(t) + "" == Render(t);
  }

  lemma LookIsParsed(matcher: Matcher, check: Checker, s: string)
    requires MatchesAlone(matcher)
    ensures var here := LookBy(matcher, check, s);
      here.Take? ==> here.more < |s| && ParseOneBy(matcher, check, s[..1 + here.more]) == Ok(here.ref)
  {
    assert AloneAt(matcher, s);
  }

  lemma SpanIsParsed(matcher: Matcher, check: Checker, text: string, f: Found)
    requires MatchesAlone(matcher) && Stands(Looking(matcher, check), text, f)
    ensures f.end <= |text| && ParseOneBy(matcher, check, text[f.start..f.end]) == Ok(f.ref)
  {
    LookIsParsed(matcher, check, text[f.start..]);
    assert text[f.start..][..f.end - f.start] == text[f.start..f.end];
  }

  lemma FoundAreParsedBy(matcher: Matcher, check: Checker, text: string, k: nat)
    requires MatchesAlone(matcher)
    ensures var all := FindAllBy(matcher, check, text);
      && |all| <= MAX_REFS
      && (k < |all| ==> all[k].start < all[k].end <= |text|
                        && ParseOneBy(matcher, check, text[all[k].start..all[k].end]) == Ok(all[k].ref))
      && (k + 1 < |all| ==> all[k].end <= all[k + 1].start)
  {
    ScanFinds(Looking(matcher, check), text, 0, 0, k);
    if k < |FindAllBy(matcher, check, text)| {
      SpanIsParsed(matcher, check, text, FindAllBy(matcher, check, text)[k]);
    }
  }

  lemma TokenMatchesAlone(s: string)
    ensures AloneAt(MatchToken, s)
  {
    var m := MatchToken(s);
    if m.Some? {
      MatchedAlone(s, m.value.value, m.value.rest);
      AloneByMatch(MatchToken, s, m.value.value, m.value.rest);
    }
  }

  lemma AloneByMatch(matcher: Matcher, s: string, t: Token, rest: string)
    requires matcher(s) == Some(Read(t, rest)) && |rest| < |s| && matcher(s[..|s| - |rest|]) == Some(Read(t, ""))
    ensures AloneAt(matcher, s)
  {
  }

  lemma TokensMatchAlone()
    ensures MatchesAlone(MatchToken)
  {
    forall s ensures AloneAt(MatchToken, s) {
      TokenMatchesAlone(s);
    }
  }

  /** What `parse` finds lies in order at disjoint spans, at most 32 of them, and each is what
      `parse_one` reads from its own span. */
  lemma FoundAreParsed(text: string, k: nat)
    ensures var all := FindAll(text);
      && |all| <= MAX_REFS
      && (k < |all| ==> all[k].start < all[k].end <= |text|
                        && ParseOne(text[all[k].start..all[k].end]) == Ok(all[k].ref))
      && (k + 1 < |all| ==> all[k].end <= all[k + 1].start)
  {
    TokensMatchAlone();
    FoundAreParsedBy(MatchToken, Check, text, k);
  }
}
