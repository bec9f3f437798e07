/** Query strings as Python's `urlencode` and `parse_qsl` write and read them: percent-encoding of
    UTF-8 (RFC 3986, sections 2.1 and 2.3), `&` between fields, the first `=` inside one.

    Encoding uses only unreserved characters and `%`, so no separator can appear in it, and decoding
    gives the text back (`UnquoteQuote`); reading a written query gives its fields back
    (`ReadFieldsWritten`). */
module QueryString {
  import opened Prelude
  import opened Utf8

  // ---------------------------------------------------------------- percent-encoding

  predicate IsUnreserved(b: Byte) {
    'a' as int <= b <= 'z' as int || 'A' as int <= b <= 'Z' as int || '0' as int <= b <= '9' as int
    || b == '_' as int || b == '.' as int || b == '-' as int || b == '~' as int
  }

  function HexDigit(n: int): char
    requires 0 <= n < 16
  {
    if n < 10 then ('0' as int + n) as char else ('A' as int + n - 10) as char
  }

  function HexValue(c: char): Option<int> {
    if '0' <= c <= '9' then Some(c as int - '0' as int)
    else if 'A' <= c <= 'F' then Some(c as int - 'A' as int + 10)
    else if 'a' <= c <= 'f' then Some(c as int - 'a' as int + 10)
    else None
  }

  function QuoteByte(b: Byte): string {
    if IsUnreserved(b) then [b as char] else ['%', HexDigit(b / 16), HexDigit(b % 16)]
  }

  function QuoteBytes(bytes: seq<Byte>): string {
    if bytes == [] then "" else QuoteByte(bytes[0]) + QuoteBytes(bytes[1..])
  }

  function Quote(s: string): string {
    QuoteBytes(Encode(s))
  }

  predicate Ascii(s: string) {
    forall k :: 0 <= k < |s| ==> s[k] < '\U{80}'
  }

  /** `unquote_to_bytes` on an ASCII run: `%` with two hex digits is a byte, everything else itself. */
  function UnquoteBytes(s: string): seq<Byte>
    requires Ascii(s)
  {
    if s == "" then []
    else if s[0] == '%' && |s| >= 3 && HexValue(s[1]).Some? && HexValue(s[2]).Some? then
      [HexValue(s[1]).value * 16 + HexValue(s[2]).value] + UnquoteBytes(s[3..])
    else [s[0] as int] + UnquoteBytes(s[1..])
  }

  /** The length of the ASCII run at the start. */
  function AsciiRun(s: string): (n: nat)
    ensures n <= |s| && Ascii(s[..n])
  {
    if s != "" && s[0] < '\U{80}' then
      var n := AsciiRun(s[1..]);
      assert s[..n + 1] == [s[0]] + s[1..][..n];
      n + 1
    else 0
  }

  /** Each ASCII run is decoded on its own; other characters stay. */
  function UnquoteRuns(s: string): string
    decreases |s|
  {
    if s == "" then ""
    else
      var n := AsciiRun(s);
      if n > 0 then Decode(UnquoteBytes(s[..n])) + UnquoteRuns(s[n..]) else [s[0]] + UnquoteRuns(s[1..])
  }

  function Unquote(s: string): string {
    if '%' !in s then s else UnquoteRuns(s)
  }

  predicate QuotedChar(c: char) {
    c == '%' || (c < '\U{80}' && IsUnreserved(c as int))
  }

  predicate Quoted(s: string) {
    forall k :: 0 <= k < |s| ==> QuotedChar(s[k])
  }

  /** Quoting writes only unreserved characters and percent signs. */
  lemma {:induction false} QuoteIsQuoted(bytes: seq<Byte>)
    ensures Quoted(QuoteBytes(bytes))
  {
    if bytes != [] {
      QuoteIsQuoted(bytes[1..]);
    }
  }

  lemma UnquoteQuotedByte(b: Byte, rest: string)
    requires Ascii(QuoteByte(b) + rest) && Ascii(rest)
    ensures UnquoteBytes(QuoteByte(b) + rest) == [b] + UnquoteBytes(rest)
  {
    var s := QuoteByte(b) + rest;
    if IsUnreserved(b) {
      assert s[1..] == rest;
    } else {
      assert s[3..] == rest;
    }
  }

  lemma {:induction false} UnquoteQuotedBytes(bytes: seq<Byte>)
    ensures Ascii(QuoteBytes(bytes)) && UnquoteBytes(QuoteBytes(bytes)) == bytes
  {
    QuoteIsQuoted(bytes);
    if bytes != [] {
      UnquoteQuotedBytes(bytes[1..]);
      UnquoteQuotedByte(bytes[0], QuoteBytes(bytes[1..]));
    }
  }

  lemma {:induction false} AsciiRunOfAscii(s: string)
    requires Ascii(s)
    ensures AsciiRun(s) == |s|
  {
    if s != "" {
      AsciiRunOfAscii(s[1..]);
    }
  }

  /** Without a percent sign every byte is its character. */
  lemma {:induction false} NoPercentNoChange(bytes: seq<Byte>)
    requires '%' !in QuoteBytes(bytes)
    ensures |QuoteBytes(bytes)| == |bytes|
    ensures Decode(bytes) == QuoteBytes(bytes)
  {
    if bytes != [] {
      assert QuoteByte(bytes[0])[0] in QuoteBytes(bytes);
      assert QuoteByte(bytes[0]) == [bytes[0] as char];
      forall c | c in QuoteBytes(bytes[1..]) ensures c in QuoteBytes(bytes) {
      }
      NoPercentNoChange(bytes[1..]);
    }
  }

  /** Decoding a quoted text gives the text back. */
  lemma UnquoteQuote(s: string)
    ensures Quoted(Quote(s)) && Unquote(Quote(s)) == s
  {
    var bytes := Encode(s);
    QuoteIsQuoted(bytes);
    DecodeEncode(s);
    if '%' !in Quote(s) {
      NoPercentNoChange(bytes);
    } else {
      UnquoteQuotedBytes(bytes);
      UnquoteOneRun(Quote(s));
    }
  }

  lemma UnquoteOneRun(q: string)
    requires Ascii(q) && q != ""
    ensures UnquoteRuns(q) == Decode(UnquoteBytes(q))
  {
    AsciiRunOfAscii(q);
    assert q[..|q|] == q && q[|q|..] == "";
    assert UnquoteRuns("") == "";
    assert Decode(UnquoteBytes(q)) + "" == Decode(UnquoteBytes(q));
  }

  // ---------------------------------------------------------------- fields

  datatype Field = Field(key: string, value: string)

  function PlusToSpace(s: string): (r: string)
    ensures |r| == |s|
  {
    if s == "" then "" else [if s[0] == '+' then ' ' else s[0]] + PlusToSpace(s[1..])
  }

  /** The position of the first `c`, or the length. */
  function IndexOf(s: string, c: char): (n: nat)
    ensures n <= |s| && (n < |s| ==> s[n] == c)
  {
    if s == "" || s[0] == c then 0 else 1 + IndexOf(s[1..], c)
  }

  /** One field; without `=` strict parsing fails. */
  function ReadField(s: string): Option<Field> {
    var eq := IndexOf(s, '=');
    if eq == |s| then None else Some(Field(Unquote(PlusToSpace(s[..eq])), Unquote(PlusToSpace(s[eq + 1..]))))
  }

  /** The fields of a non-empty query, blank values kept; fails if any field fails. */
  function ReadFields(s: string): Option<seq<Field>>
    decreases |s|
  {
    var amp := IndexOf(s, '&');
    match ReadField(s[..amp])
    case None => None
    case Some(field) =>
      if amp == |s| then Some([field])
      else
        match ReadFields(s[amp + 1..])
        case None => None
        case Some(rest) => Some([field] + rest)
  }

  function ParseQsl(s: string): Option<seq<Field>> {
    if s == "" then Some([]) else ReadFields(s)
  }

  function WriteField(f: Field): string {
    Quote(f.key) + "=" + Quote(f.value)
  }

  function UrlEncode(fields: seq<Field>): string {
    if fields == [] then ""
    else if |fields| == 1 then WriteField(fields[0])
    else WriteField(fields[0]) + "&" + UrlEncode(fields[1..])
  }

  lemma {:induction false} IndexOfAbsent(s: string, c: char, rest: string)
    requires c !in s
    ensures IndexOf(s, c) == |s| && IndexOf(s + [c] + rest, c) == |s|
  {
    if s != "" {
      assert (s + [c] + rest)[1..] == s[1..] + [c] + rest;
      IndexOfAbsent(s[1..], c, rest);
    } else {
      assert (s + [c] + rest)[0] == c;
    }
  }

  lemma {:induction false} NoPlus(s: string)
    requires '+' !in s
    ensures PlusToSpace(s) == s
  {
    if s != "" {
      NoPlus(s[1..]);
    }
  }

  lemma ReadFieldWritten(f: Field)
    ensures ReadField(WriteField(f)) == Some(f)
  {
    UnquoteQuote(f.key);
    UnquoteQuote(f.value);
    var k, v := Quote(f.key), Quote(f.value);
    IndexOfAbsent(k, '=', v);
    NoPlus(k);
    NoPlus(v);
    assert WriteField(f) == k + ['='] + v;
    assert WriteField(f)[..|k|] == k && WriteField(f)[|k| + 1..] == v;
  }

  lemma WrittenHasNoAmpersand(f: Field)
    ensures '&' !in WriteField(f)
  {
    UnquoteQuote(f.key);
    UnquoteQuote(f.value);
  }

  lemma ReadLastField(f: Field)
    ensures ReadFields(WriteField(f)) == Some([f])
  {
    var w := WriteField(f);
    ReadFieldWritten(f);
    WrittenHasNoAmpersand(f);
    IndexOfAbsent(w, '&', "");
    assert w[..|w|] == w;
  }

  lemma ReadNextField(f: Field, rest: string, fields: seq<Field>)
    requires ReadFields(rest) == Some(fields)
    ensures ReadFields(WriteField(f) + "&" + rest) == Some([f] + fields)
  {
    var w := WriteField(f);
    ReadFieldWritten(f);
    WrittenHasNoAmpersand(f);
    IndexOfAbsent(w, '&', rest);
    var s := w + ['&'] + rest;
    assert s[..|w|] == w && s[|w| + 1..] == rest;
  }

  lemma {:induction false} ReadAllWritten(fields: seq<Field>)
    requires fields != []
    ensures ReadFields(UrlEncode(fields)) == Some(fields)
  {
    if |fields| == 1 {
      ReadLastField(fields[0]);
      assert fields == [fields[0]];
    } else {
      var text := UrlEncode(fields[1..]);
      ReadAllWritten(fields[1..]);
      ReadNextField(fields[0], text, fields[1..]);
      assert fields == [fields[0]] + fields[1..];
    }
  }

  lemma WrittenIsNotEmpty(fields: seq<Field>)
    requires fields != []
    ensures UrlEncode(fields) != ""
  {
    assert '=' in WriteField(fields[0]);
  }

  /** Reading a written query gives exactly its fields back, in order. */
  lemma ReadFieldsWritten(fields: seq<Field>)
    ensures ParseQsl(UrlEncode(fields)) == Some(fields)
  {
    if fields != [] {
      ReadAllWritten(fields);
      WrittenIsNotEmpty(fields);
    }
  }

  // ---------------------------------------------------------------- what was not written here

  /** A query is its fields between ampersands, and fails if one of them does. */
  lemma FieldsBetweenAmpersands(first: string, rest: string)
    requires '&' !in first
    ensures ReadFields(first) == if ReadField(first).None? then None else Some([ReadField(first).value])
    ensures ReadFields(first + ("&" + rest)) ==
      if ReadField(first).None? || ReadFields(rest).None? then None
      else Some([ReadField(first).value] + ReadFields(rest).value)
  {
    IndexOfAbsent(first, '&', rest);
    var s := first + ['&'] + rest;
    assert s == first + ("&" + rest) && s[..|first|] == first && s[|first| + 1..] == rest;
    assert first[..|first|] == first;
  }

  /** A field is its key up to the first equals sign and its value behind it, both unquoted after plus signs
      were read as spaces; without an equals sign it fails. */
  lemma FieldIsSplit(key: string, value: string)
    requires '=' !in key
    ensures ReadField(key) == None
    ensures ReadField(key + ("=" + value)) == Some(Field(Unquote(PlusToSpace(key)), Unquote(PlusToSpace(value))))
  {
    IndexOfAbsent(key, '=', value);
    var s := key + ['='] + value;
    assert s == key + ("=" + value) && s[..|key|] == key && s[|key| + 1..] == value;
  }

  lemma {:induction false} PlusIsSpace(s: string, k: nat)
    requires k < |s|
    ensures PlusToSpace(s)[k] == if s[k] == '+' then ' ' else s[k]
  {
    if k > 0 {
      PlusIsSpace(s[1..], k - 1);
    }
  }

  /** The text with every plus sign read as a space. */
  predicate SpacedOf(text: string, raw: string) {
    |text| == |raw| && forall k :: 0 <= k < |raw| ==> text[k] == if raw[k] == '+' then ' ' else raw[k]
  }

  lemma UnquoteSpaced(s: string)
    requires '%' !in s
    ensures SpacedOf(Unquote(PlusToSpace(s)), s)
  {
    forall k | 0 <= k < |s|
      ensures PlusToSpace(s)[k] == if s[k] == '+' then ' ' else s[k]
    {
      PlusIsSpace(s, k);
    }
    assert '%' !in PlusToSpace(s);
  }

  /** A field that `serialize` did not write: key up to the first `=`, plus signs read as spaces. */
  lemma ReadSpacedField(key: string, value: string)
    requires '%' !in key + value && '&' !in key + value && '=' !in key
    ensures ParseQsl(key + "=" + value).Some?
    ensures var fields := ParseQsl(key + "=" + value).value;
      |fields| == 1 && SpacedOf(fields[0].key, key) && SpacedOf(fields[0].value, value)
  {
    var s := key + ['='] + value;
    assert forall c :: c in key || c in value ==> c in key + value;
    UnquoteSpaced(key);
    UnquoteSpaced(value);
    IndexOfAbsent(key, '=', value);
    assert s[..|key|] == key && s[|key| + 1..] == value;
    IndexOfAbsent(s, '&', "");
    assert s[..|s|] == s && s == key + "=" + value;
  }

  /** A hexadecimal digit in either case. */
  predicate IsHex(c: char, v: int) {
    || ('0' <= c <= '9' && v == c as int - '0' as int)
    || ('A' <= c <= 'F' && v == c as int - 'A' as int + 10)
    || ('a' <= c <= 'f' && v == c as int - 'a' as int + 10)
  }

  /** A percent sign with two hexadecimal digits is a byte, otherwise it stands for itself. */
  lemma UnquotePercent(h: char, l: char, rest: string, v: int, w: int)
    requires Ascii(['%', h, l] + rest) && Ascii(rest) && IsHex(h, v) && IsHex(l, w)
    ensures UnquoteBytes(['%', h, l] + rest) == [v * 16 + w] + UnquoteBytes(rest)
  {
    assert (['%', h, l] + rest)[3..] == rest;
  }

  lemma UnquoteOther(c: char, rest: string)
    requires Ascii([c] + rest) && Ascii(rest)
    requires c != '%' || |rest| < 2 || (forall v :: !IsHex(rest[0], v)) || (forall v :: !IsHex(rest[1], v))
    ensures UnquoteBytes([c] + rest) == [c as int] + UnquoteBytes(rest)
  {
    assert ([c] + rest)[1..] == rest;
    if |rest| >= 2 {
      HexIs(rest[0]);
      HexIs(rest[1]);
    }
  }

  lemma HexIs(c: char)
    ensures HexValue(c).Some? ==> IsHex(c, HexValue(c).value)
  {
  }

  /** Other characters stay, and end a run of bytes. */
  lemma UnquoteKeeps(run: string, c: char, rest: string)
    requires Ascii(run) && c >= '\U{80}'
    ensures UnquoteRuns(run + ([c] + rest)) == Decode(UnquoteBytes(run)) + ([c] + UnquoteRuns(rest))
  {
    var s := run + ([c] + rest);
    RunEnds(run, c, rest);
    assert s[..|run|] == run && s[|run|..] == [c] + rest && ([c] + rest)[1..] == rest;
    if run == "" {
      assert UnquoteBytes(run) == [] && Decode([]) == "";
    }
  }

  lemma {:induction false} RunEnds(run: string, c: char, rest: string)
    requires Ascii(run) && c >= '\U{80}'
    ensures AsciiRun(run + ([c] + rest)) == |run|
  {
    if run != "" {
      assert (run + ([c] + rest))[1..] == run[1..] + ([c] + rest);
      RunEnds(run[1..], c, rest);
    }
  }

  /** Nothing in the text is read as anything but itself. */
  predicate IsPlain(s: string) {
    '%' !in s && '+' !in s && '&' !in s && '=' !in s
  }

  lemma UnquotePlain(s: string)
    requires IsPlain(s)
    ensures Unquote(PlusToSpace(s)) == s
  {
    NoPlus(s);
  }

  /** A field written without quoting is read as it stands if there is nothing to quote in it. */
  lemma ReadPlainField(key: string, value: string)
    requires IsPlain(key) && IsPlain(value)
    ensures ParseQsl(key + "=" + value) == Some([Field(key, value)])
  {
    var s := key + ['='] + value;
    UnquotePlain(key);
    UnquotePlain(value);
    IndexOfAbsent(key, '=', value);
    assert s[..|key|] == key && s[|key| + 1..] == value;
    IndexOfAbsent(s, '&', "");
    assert s[..|s|] == s && s == key + "=" + value;
  }

  /** Characters that quoting replaces by three. */
  predicate NeedsQuoting(s: string) {
    forall k :: 0 <= k < |s| ==> s[k] < '\U{80}' && !IsUnreserved(s[k] as int)
  }

  lemma {:induction false} QuotingTriples(s: string)
    requires NeedsQuoting(s)
    ensures |Quote(s)| == 3 * |s|
  {
    if s != "" {
      QuotingTriples(s[1..]);
      assert Encode(s) == [s[0] as int] + Encode(s[1..]);
      assert Encode(s)[1..] == Encode(s[1..]);
    }
  }
}
