/**
  * Form data as `multipart/form-data`, and a reader that gets every entry back.
  *
  * Texts and bodies are sequences of bytes, one `char` a byte.
  */
module Multipart {
  import opened Common

  type Bytes = string

  datatype Value = Text(text: Bytes) | File(data: Bytes, contentType: Bytes, filename: Bytes)

  datatype Entry = Entry(name: Bytes, value: Value)

  const CRLF: Bytes := "\r\n"
  const DISPOSITION: Bytes := "Content-Disposition: form-data; name=\""
  const FILENAME: Bytes := "; filename=\""
  const CONTENT_TYPE: Bytes := "\r\nContent-Type: "

  // ----- Escaping -----

  function ReplaceAll(s: Bytes, c: char, code: Bytes): Bytes {
    if s == [] then [] else (if s[0] == c then code else [s[0]]) + ReplaceAll(s[1..], c, code)
  }

  /** `escape_multipart_name`. */
  function Escaped(s: Bytes): Bytes {
    ReplaceAll(ReplaceAll(ReplaceAll(s, '\r', "%0D"), '\n', "%0A"), '"', "%22")
  }

  function EscapedOne(c: char): Bytes {
    if c == '\r' then "%0D" else if c == '\n' then "%0A" else if c == '"' then "%22" else [c]
  }

  /** The three passes are one. */
  lemma {:induction false} EscapedByChar(s: Bytes)
    ensures Escaped(s) == if s == [] then [] else EscapedOne(s[0]) + Escaped(s[1..])
  {
    if s != [] {
      var c, t := s[0], s[1..];
      var a := ReplaceAll(t, '\r', "%0D");
      if c == '\r' {
        ReplaceAppend("%0D", a, '\n', "%0A");
        ReplaceAppend("%0D", ReplaceAll(a, '\n', "%0A"), '"', "%22");
        assert ReplaceAll("%0D", '\n', "%0A") == "%0D" && ReplaceAll("%0D", '"', "%22") == "%0D" by {
          Unreplaced("%0D", '\n', "%0A");
          Unreplaced("%0D", '"', "%22");
        }
      } else if c == '\n' {
        assert ([c] + a)[1..] == a;
        ReplaceAppend("%0A", ReplaceAll(a, '\n', "%0A"), '"', "%22");
        assert ReplaceAll("%0A", '"', "%22") == "%0A" by { Unreplaced("%0A", '"', "%22"); }
      } else {
        assert ([c] + a)[1..] == a;
        var b := ReplaceAll(a, '\n', "%0A");
        assert ([c] + b)[1..] == b;
      }
    }
  }

  lemma {:induction false} ReplaceAppend(s: Bytes, t: Bytes, c: char, code: Bytes)
    ensures ReplaceAll(s + t, c, code) == ReplaceAll(s, c, code) + ReplaceAll(t, c, code)
  {
    if s == [] {
      assert s + t == t;
    } else {
      ReplaceAppend(s[1..], t, c, code);
      DropOfConcat(s, t, 1);
      ConcatAssociates(if s[0] == c then code else [s[0]], ReplaceAll(s[1..], c, code), ReplaceAll(t, c, code));
    }
  }

  lemma {:induction false} Unreplaced(s: Bytes, c: char, code: Bytes)
    requires c !in s
    ensures ReplaceAll(s, c, code) == s
  {
    if s != [] { Unreplaced(s[1..], c, code); }
  }

  ghost predicate Quotable(s: Bytes) {
    '\r' !in s && '\n' !in s && '"' !in s
  }

  /** No escaped value can end a header or a quoted string. */
  lemma {:induction false} EscapedIsQuotable(s: Bytes)
    ensures Quotable(Escaped(s))
  {
    EscapedByChar(s);
    if s != [] { EscapedIsQuotable(s[1..]); }
  }

  /** What a reader that undoes the escapes makes of a value. */
  function Unescaped(s: Bytes): Bytes {
    if s == [] then []
    else if "%0D" <= s then "\r" + Unescaped(s[3..])
    else if "%0A" <= s then "\n" + Unescaped(s[3..])
    else if "%22" <= s then "\"" + Unescaped(s[3..])
    else [s[0]] + Unescaped(s[1..])
  }

  ghost predicate StartsEscaped(s: Bytes) {
    "%0D" <= s || "%0A" <= s || "%22" <= s
  }

  ghost predicate LooksEscaped(s: Bytes) {
    exists i :: 0 <= i <= |s| && StartsEscaped(s[i..])
  }

  /** The escape keeps `%`: it can be undone exactly when the value looked escaped nowhere. */
  lemma {:induction false} UnescapeUndoes(s: Bytes)
    ensures Unescaped(Escaped(s)) == s <==> !LooksEscaped(s)
    ensures |Unescaped(Escaped(s))| <= |s|
    decreases |s|
  {
    EscapedByChar(s);
    if s != [] {
      var t, e := s[1..], Escaped(s);
      UnescapeUndoes(t);
      LooksEscapedStep(s);
      if !Plain(s[0]) {
        UnescapeCode(s[0], Escaped(t));
      } else if StartsEscaped(e) {
        StartEscaped(s);
        UnescapeUndoes(s[3..]);
        UnescapeShrinks(e);
      } else {
        EscapedHead(s);
        if StartsEscaped(s) { StartEscaped(s); }
      }
    }
  }

  /** The names `%0D` and CR are written alike, and read as CR. */
  lemma TwoNamesAlike()
    ensures Escaped("%0D") == Escaped("\r") == "%0D" && Unescaped("%0D") == "\r"
  {
    EscapedByChar("%0D");
    assert "%0D"[1..] == "0D" && "0D"[1..] == "D" && "D"[1..] == [];
    EscapedByChar("0D");
    EscapedByChar("D");
    EscapedByChar([]);
    EscapedByChar("\r");
    assert "\r"[1..] == [] && "%0D"[3..] == [];
  }

  lemma UnescapeShrinks(e: Bytes)
    requires StartsEscaped(e)
    ensures |Unescaped(e)| == 1 + |Unescaped(e[3..])|
  {
  }

  lemma UnescapeCode(c: char, rest: Bytes)
    requires !Plain(c)
    ensures Unescaped(EscapedOne(c) + rest) == [c] + Unescaped(rest)
  {
    var code := EscapedOne(c);
    var e := code + rest;
    assert e[0] == code[0] && e[1] == code[1] && e[2] == code[2];
    assert code <= e && e[3..] == rest;
    if c == '\r' {
      assert "%0D" <= e;
    } else if c == '\n' {
      assert "%0A" <= e && !("%0D" <= e);
    } else {
      assert "%22" <= e && !("%0D" <= e) && !("%0A" <= e);
    }
  }

  lemma LooksEscapedStep(s: Bytes)
    requires s != []
    ensures LooksEscaped(s) <==> StartsEscaped(s) || LooksEscaped(s[1..])
  {
    assert s[0..] == s;
    if i :| 0 <= i <= |s| && StartsEscaped(s[i..]) {
      if i > 0 { assert s[1..][i - 1..] == s[i..]; }
    }
    if i :| 0 <= i <= |s[1..]| && StartsEscaped(s[1..][i..]) {
      assert s[1..][i..] == s[i + 1..];
    }
  }

  ghost predicate Plain(c: char) {
    c != '\r' && c != '\n' && c != '"'
  }

  lemma EscapedHead(s: Bytes)
    requires s != []
    ensures Escaped(s) != []
    ensures if Plain(s[0]) then Escaped(s)[0] == s[0] && Escaped(s)[1..] == Escaped(s[1..]) else Escaped(s)[0] == '%'
  {
    EscapedByChar(s);
  }

  /** A code at the front of an escaped value was there before, unless the escape put it there. */
  lemma StartEscaped(s: Bytes)
    requires s != [] && Plain(s[0]) && (StartsEscaped(Escaped(s)) || StartsEscaped(s))
    ensures |s| >= 3 && |Escaped(s)| >= 3 && StartsEscaped(s) && Escaped(s)[..3] == s[..3] &&
            Escaped(s)[3..] == Escaped(s[3..])
  {
    EscapedHead(s);
    var e, t := Escaped(s), s[1..];
    if t != [] {
      EscapedHead(t);
      assert e[1] == Escaped(t)[0];
      var u := t[1..];
      if u != [] {
        EscapedHead(u);
        assert e[2] == e[1..][1];
        assert u[0] == s[2] && t[0] == s[1] && u[1..] == s[3..];
        if Plain(t[0]) && Plain(u[0]) { assert e[3..] == Escaped(u)[1..]; }
      }
    }
  }

  // ----- Writing -----

  function TypeOf(contentType: Bytes): Bytes {
    if contentType == [] then "application/octet-stream" else contentType
  }

  function HeadEnd(v: Value): Bytes {
    match v
    case Text(_) => ""
    case File(_, contentType, filename) =>
      FILENAME + (Escaped(filename) + ("\"" + (CONTENT_TYPE + Escaped(TypeOf(contentType)))))
  }

  function Head(e: Entry): Bytes {
    DISPOSITION + (Escaped(e.name) + ("\"" + HeadEnd(e.value)))
  }

  function Content(e: Entry): Bytes {
    match e.value
    case Text(text) => text
    case File(data, _, _) => data
  }

  const BLANK: Bytes := "\r\n\r\n"

  function PartOf(e: Entry): Bytes {
    Head(e) + (BLANK + Content(e))
  }

  /** The delimiter of RFC 2046, with the line break that belongs to it. */
  function Delimiter(boundary: Bytes): Bytes {
    "\r\n--" + boundary
  }

  /** All that follows a delimiter. */
  function AfterDelimiter(entries: seq<Entry>, boundary: Bytes): Bytes {
    if entries == [] then "--\r\n"
    else CRLF + (PartOf(entries[0]) + (Delimiter(boundary) + AfterDelimiter(entries[1..], boundary)))
  }

  /** The close-delimiter of RFC 2046 and a line break stand last. */
  ghost predicate EndsClosed(body: Bytes, boundary: Bytes) {
    |body| >= |boundary| + 6 && body[|body| - |boundary| - 6..] == "--" + boundary + "--\r\n"
  }

  /** `to_multipart`. */
  method ToMultipart(entries: seq<Entry>, boundary: Bytes) returns (out: Bytes)
    ensures out == "--" + boundary + AfterDelimiter(entries, boundary)
    ensures EndsClosed(out, boundary)
    ensures '\r' !in boundary ==> (Read(out, boundary) == Some(AllSent(entries)) <==> Unambiguous(entries, boundary))
  {
    var dash := "--" + boundary;
    out := [];
    var i := 0;
    while i < |entries|
      invariant 0 <= i <= |entries|
      invariant out + (dash + AfterDelimiter(entries[i..], boundary)) == dash + AfterDelimiter(entries, boundary)
    {
      NextEntry(out, dash, entries, i, boundary);
      out := AppendEntry(out + dash, entries[i]);
      out := out + CRLF;
      i := i + 1;
    }
    assert entries[i..] == [];
    EndIs(out, dash, boundary);
    out := out + dash + "--\r\n";
    assert out == dash + AfterDelimiter(entries, boundary);
    AfterPrefix(dash, AfterDelimiter(entries, boundary));
    if '\r' !in boundary { ReadsBack(entries, boundary); }
  }

  lemma EndIs(s: Bytes, dash: Bytes, boundary: Bytes)
    requires dash == "--" + boundary
    ensures EndsClosed(s + dash + "--\r\n", boundary)
  {
    var out := s + dash + "--\r\n";
    assert |out| - |boundary| - 6 == |s|;
    assert out[|s|..] == "--" + boundary + "--\r\n";
  }

  lemma NextEntry(out: Bytes, dash: Bytes, entries: seq<Entry>, i: nat, boundary: Bytes)
    requires i < |entries| && dash == "--" + boundary
    ensures out + dash + (CRLF + PartOf(entries[i])) + CRLF + (dash + AfterDelimiter(entries[i + 1..], boundary))
         == out + (dash + AfterDelimiter(entries[i..], boundary))
  {
    assert entries[i..][1..] == entries[i + 1..];
    assert Delimiter(boundary) == CRLF + dash;
    EntryPieces(out, dash, CRLF, PartOf(entries[i]), AfterDelimiter(entries[i + 1..], boundary));
  }

  lemma EntryPieces<T>(o: seq<T>, a: seq<T>, b: seq<T>, c: seq<T>, d: seq<T>)
    ensures o + a + (b + c) + b + (a + d) == o + (a + (b + (c + ((b + a) + d))))
  {
  }

  method AppendEntry(out0: Bytes, e: Entry) returns (out: Bytes)
    ensures out == out0 + (CRLF + PartOf(e))
  {
    out := out0 + CRLF + DISPOSITION;
    out := out + Escaped(e.name) + "\"";
    match e.value {
      case Text(text) =>
        out := out + BLANK + text;
        TextPieces(out0, CRLF, DISPOSITION, Escaped(e.name), "\"", BLANK, text);
      case File(data, contentType, filename) =>
        ghost var start := out;
        out := out + FILENAME + Escaped(filename);
        out := out + "\"" + CONTENT_TYPE
               + Escaped(if contentType == "" then "application/octet-stream" else contentType);
        ghost var end := FILENAME + (Escaped(filename) + ("\"" + (CONTENT_TYPE + Escaped(TypeOf(contentType)))));
        FilePieces(start, FILENAME, Escaped(filename), "\"", CONTENT_TYPE, Escaped(TypeOf(contentType)));
        out := out + BLANK + data;
        HeadPieces(out0, CRLF, DISPOSITION, Escaped(e.name), "\"", end, BLANK, data);
    }
  }

  lemma TextPieces<T>(o: seq<T>, a: seq<T>, b: seq<T>, c: seq<T>, d: seq<T>, e: seq<T>, f: seq<T>)
    ensures o + a + b + c + d + e + f == o + (a + ((b + (c + (d + []))) + (e + f)))
  {
    assert d + [] == d;
  }

  lemma FilePieces<T>(o: seq<T>, a: seq<T>, b: seq<T>, c: seq<T>, d: seq<T>, e: seq<T>)
    ensures o + a + b + c + d + e == o + (a + (b + (c + (d + e))))
  {
  }

  lemma HeadPieces<T>(o: seq<T>, a: seq<T>, b: seq<T>, c: seq<T>, d: seq<T>, e: seq<T>, f: seq<T>, g: seq<T>)
    ensures o + a + b + c + d + e + f + g == o + (a + ((b + (c + (d + e))) + (f + g)))
  {
  }

  // ----- Reading -----

  ghost predicate At(hay: Bytes, needle: Bytes, i: nat) {
    i + |needle| <= |hay| && hay[i..i + |needle|] == needle
  }

  ghost predicate Occurs(hay: Bytes, needle: Bytes) {
    exists i :: At(hay, needle, i)
  }

  function Find(hay: Bytes, needle: Bytes): (r: Option<nat>)
    ensures r.None? ==> !Occurs(hay, needle)
    ensures r.Some? ==> At(hay, needle, r.value) && forall i :: 0 <= i < r.value ==> !At(hay, needle, i)
  {
    if needle <= hay then
      assert At(hay, needle, 0);
      Some(0)
    else if hay == [] then
      None
    else
      AtShifts(hay, needle);
      match Find(hay[1..], needle)
      case None => None
      case Some(i) => Some(i + 1)
  }

  lemma AtShifts(hay: Bytes, needle: Bytes)
    requires hay != [] && !(needle <= hay)
    ensures forall i: nat :: At(hay, needle, i) <==> i > 0 && At(hay[1..], needle, i - 1)
  {
    forall i: nat ensures At(hay, needle, i) <==> i > 0 && At(hay[1..], needle, i - 1) {
      if i > 0 && i + |needle| <= |hay| { assert hay[1..][i - 1..i - 1 + |needle|] == hay[i..i + |needle|]; }
    }
  }

  function After(prefix: Bytes, s: Bytes): (r: Option<Bytes>)
    ensures r.Some? <==> prefix <= s
    ensures r.Some? ==> s == prefix + r.value
  {
    if prefix <= s then Some(s[|prefix|..]) else None
  }

  /** What comes before the first `needle`, and what after it. */
  function Cut(s: Bytes, needle: Bytes): (r: Option<(Bytes, Bytes)>)
    requires needle != []
    ensures r.Some? ==> |r.value.1| < |s|
  {
    match Find(s, needle)
    case None => None
    case Some(i) => Some((s[..i], s[i + |needle|..]))
  }

  /** A part's headers, read as RFC 7578 sections 4.2 and 4.4 give them: the field `Content-Disposition`
      of type `form-data` with a `name`, and for a file a `filename` and the field `Content-Type`. */
  function ReadHead(head: Bytes, content: Bytes): Option<Entry> {
    match After("Content-Disposition: form-data; name=\"", head)
    case None => None
    case Some(afterName) =>
      match Cut(afterName, "\"")
      case None => None
      case Some(pieces) => ReadHeadEnd(pieces.0, pieces.1, content)
  }

  function ReadHeadEnd(name: Bytes, rest: Bytes, content: Bytes): Option<Entry> {
    if rest == "" then Some(Entry(name, Text(content)))
    else match After("; filename=\"", rest)
      case None => None
      case Some(afterFilename) =>
        match Cut(afterFilename, "\"")
        case None => None
        case Some(pieces) =>
          match After("\r\nContent-Type: ", pieces.1)
          case None => None
          case Some(contentType) => Some(Entry(name, File(content, contentType, pieces.0)))
  }

  /** Headers, a blank line, content. */
  function ReadPart(part: Bytes): Option<Entry> {
    match Cut(part, "\r\n\r\n")
    case None => None
    case Some(pieces) => ReadHead(pieces.0, pieces.1)
  }

  /** Part by part, RFC 2046 section 5.1.1: each ends at the first delimiter after it. */
  function ReadParts(rest: Bytes, boundary: Bytes): Option<seq<Entry>>
    decreases |rest|
  {
    if "--" <= rest then Some([])
    else match After("\r\n", rest)
      case None => None
      case Some(part) =>
        match Cut(part, "\r\n--" + boundary)
        case None => None
        case Some(pieces) => Joined(ReadPart(pieces.0), ReadParts(pieces.1, boundary))
  }

  function Joined(first: Option<Entry>, others: Option<seq<Entry>>): Option<seq<Entry>> {
    if first.Some? && others.Some? then Some([first.value] + others.value) else None
  }

  function Read(body: Bytes, boundary: Bytes): Option<seq<Entry>> {
    match After("--" + boundary, body)
    case None => None
    case Some(rest) => ReadParts(rest, boundary)
  }

  /** What a server is sent of an entry. */
  function Sent(e: Entry): Entry {
    match e.value
    case Text(text) => Entry(Escaped(e.name), Text(text))
    case File(data, contentType, filename) => Entry(Escaped(e.name),
        File(data, Escaped(if contentType == "" then "application/octet-stream" else contentType), Escaped(filename)))
  }

  function AllSent(entries: seq<Entry>): (r: seq<Entry>)
    ensures |r| == |entries| && forall i :: 0 <= i < |r| ==> r[i] == Sent(entries[i])
  {
    if entries == [] then [] else [Sent(entries[0])] + AllSent(entries[1..])
  }

  // ----- Every carriage return is accounted for -----

  ghost predicate CrSafe(s: Bytes) {
    forall i :: 0 <= i < |s| && s[i] == '\r' ==> i + 2 < |s| && s[i + 2] == 'C'
  }

  lemma CrSafeAppend(a: Bytes, b: Bytes)
    requires CrSafe(a) && CrSafe(b)
    ensures CrSafe(a + b)
  {
  }

  lemma LiteralsSafe()
    ensures CrSafe(DISPOSITION) && CrSafe(FILENAME) && CrSafe(CONTENT_TYPE)
  {
  }

  lemma HeadSafe(e: Entry)
    ensures CrSafe(Head(e))
  {
    LiteralsSafe();
    var name, end := Escaped(e.name), HeadEnd(e.value);
    EscapedIsQuotable(e.name);
    if e.value.File? {
      var contentType := Escaped(TypeOf(e.value.contentType));
      EscapedIsQuotable(TypeOf(e.value.contentType));
      EscapedIsQuotable(e.value.filename);
      CrSafeAppend(CONTENT_TYPE, contentType);
      CrSafeAppend("\"", CONTENT_TYPE + contentType);
      CrSafeAppend(Escaped(e.value.filename), "\"" + (CONTENT_TYPE + contentType));
      CrSafeAppend(FILENAME, Escaped(e.value.filename) + ("\"" + (CONTENT_TYPE + contentType)));
    }
    CrSafeAppend("\"", end);
    CrSafeAppend(name, "\"" + end);
    CrSafeAppend(DISPOSITION, name + ("\"" + end));
  }

  lemma AtChar(hay: Bytes, needle: Bytes, i: nat, k: nat)
    requires At(hay, needle, i) && k < |needle|
    ensures hay[i + k] == needle[k]
  {
    assert hay[i..i + |needle|][k] == hay[i + k];
  }

  lemma FindIs(hay: Bytes, needle: Bytes, k: nat)
    requires At(hay, needle, k) && forall i :: 0 <= i < k ==> !At(hay, needle, i)
    ensures Find(hay, needle) == Some(k)
  {
    assert Occurs(hay, needle);
    var i := Find(hay, needle).value;
    assert i == k;
  }

  /** A quoted string ends at its quote. */
  lemma FindQuote(s: Bytes, rest: Bytes)
    requires Quotable(s)
    ensures Find(s + ("\"" + rest), "\"") == Some(|s|)
  {
    var hay := s + ("\"" + rest);
    assert hay[|s|..|s| + 1] == "\"";
    forall i | 0 <= i < |s| ensures !At(hay, "\"", i) {
      if At(hay, "\"", i) { AtChar(hay, "\"", i, 0); }
    }
    FindIs(hay, "\"", |s|);
  }

  lemma CutsQuote(s: Bytes, rest: Bytes)
    requires Quotable(s)
    ensures Cut(s + ("\"" + rest), "\"") == Some((s, rest))
  {
    FindQuote(s, rest);
    AroundQuote(s, rest);
  }

  lemma ReadsHead(e: Entry)
    ensures ReadHead(Head(e), Content(e)) == Some(Sent(e))
  {
    var name, end := Escaped(e.name), HeadEnd(e.value);
    EscapedIsQuotable(e.name);
    HeadIs(name, end, Content(e));
    ReadsHeadEnd(name, e.value);
  }

  lemma HeadIs(name: Bytes, end: Bytes, content: Bytes)
    requires Quotable(name)
    ensures ReadHead(DISPOSITION + (name + ("\"" + end)), content) == ReadHeadEnd(name, end, content)
  {
    AfterPrefix(DISPOSITION, name + ("\"" + end));
    CutsQuote(name, end);
  }

  lemma ReadsHeadEnd(name: Bytes, v: Value)
    ensures var e := Entry(name, v);
            ReadHeadEnd(name, HeadEnd(v), Content(e)) == Some(Entry(name, Sent(e).value))
  {
    if v.File? {
      var filename, contentType := Escaped(v.filename), Escaped(TypeOf(v.contentType));
      EscapedIsQuotable(v.filename);
      AfterPrefix(FILENAME, filename + ("\"" + (CONTENT_TYPE + contentType)));
      CutsQuote(filename, CONTENT_TYPE + contentType);
      AfterPrefix(CONTENT_TYPE, contentType);
    }
  }

  lemma AfterPrefix(a: Bytes, b: Bytes)
    ensures a <= a + b && (a + b)[|a|..] == b
  {
  }

  lemma AroundQuote(a: Bytes, b: Bytes)
    ensures var s := a + ("\"" + b); s[..|a|] == a && s[|a| + 1..] == b
  {
  }

  /** The first blank line of a part, or of as much of a part as there is. */
  lemma FirstBlank(e: Entry, n: nat)
    requires n <= |PartOf(e)|
    ensures Find(PartOf(e)[..n], BLANK) == if n >= |Head(e)| + 4 then Some(|Head(e)|) else None
  {
    var p, k := PartOf(e), |Head(e)|;
    HeadSafe(e);
    forall i | 0 <= i < k ensures !At(p, BLANK, i) {
      if At(p, BLANK, i) {
        AtChar(p, BLANK, i, 0);
        AtChar(p, BLANK, i, 2);
      }
    }
    forall i: nat | At(p[..n], BLANK, i) ensures At(p, BLANK, i) {
      assert p[..n][i..i + 4] == p[i..i + 4];
    }
    assert p[k..k + 4] == BLANK;
    if n >= k + 4 {
      assert p[..n][k..k + 4] == p[k..k + 4];
      FindIs(p[..n], BLANK, k);
    }
  }

  lemma ReadsPart(e: Entry, n: nat)
    requires n <= |PartOf(e)|
    ensures ReadPart(PartOf(e)[..n]) == Some(Sent(e)) <==> n == |PartOf(e)|
  {
    FirstBlank(e, n);
    if n >= |Head(e)| + 4 {
      CutAt(e, n);
      ReadsHeadWith(e, Content(e)[..n - |Head(e)| - 4]);
    }
  }

  lemma CutAt(e: Entry, n: nat)
    requires |Head(e)| + 4 <= n <= |PartOf(e)|
    ensures PartOf(e)[..n][..|Head(e)|] == Head(e)
    ensures PartOf(e)[..n][|Head(e)| + 4..] == Content(e)[..n - |Head(e)| - 4]
  {
    CutPart(Head(e), BLANK, Content(e), n);
  }

  lemma ReadsHeadWith(e: Entry, content: Bytes)
    requires content <= Content(e)
    ensures ReadHead(Head(e), content) == Some(Sent(e)) <==> |content| == |Content(e)|
  {
    ReadsHead(e);
    ReadKeepsContent(Head(e), content);
    if |content| == |Content(e)| { assert content == Content(e); }
  }

  lemma CutPart<T>(head: seq<T>, blank: seq<T>, content: seq<T>, n: nat)
    requires |head| + |blank| <= n <= |head + (blank + content)|
    ensures (head + (blank + content))[..n][..|head|] == head
    ensures (head + (blank + content))[..n][|head| + |blank|..] == content[..n - |head| - |blank|]
  {
  }

  lemma ReadKeepsContent(head: Bytes, content: Bytes)
    ensures ReadHead(head, content).Some? ==> Content(ReadHead(head, content).value) == content
  {
  }

  /** In what follows a part the delimiter first occurs at its end, unless it occurs in the
      content or begins with the line break before it. */
  lemma DelimiterInPart(e: Entry, boundary: Bytes, rest: Bytes, i: nat)
    requires '\r' !in boundary && i < |PartOf(e)|
    ensures var d := Delimiter(boundary);
            At(PartOf(e) + (d + rest), d, i) <==> i >= |Head(e)| + 2 && At(CRLF + Content(e), d, i - |Head(e)| - 2)
  {
    var d, p, k := Delimiter(boundary), PartOf(e), |Head(e)|;
    var hay, q := p + (d + rest), CRLF + Content(e);
    assert p == (Head(e) + CRLF) + q;
    if At(hay, d, i) {
      NotInHead(e, boundary, rest, i);
      NotAcross(p, boundary, rest, i);
    }
    if i >= k + 2 && i + |d| <= |p| { PartShifts(e, d, rest, i); }
  }

  lemma PartShifts(e: Entry, d: Bytes, rest: Bytes, i: nat)
    requires |Head(e)| + 2 <= i && i + |d| <= |PartOf(e)|
    ensures At(PartOf(e) + (d + rest), d, i) <==> At(CRLF + Content(e), d, i - |Head(e)| - 2)
  {
    var q := CRLF + Content(e);
    AfterPrefix(Head(e) + CRLF, q);
    assert PartOf(e) == (Head(e) + CRLF) + q;
    ShiftedAt(Head(e) + CRLF, q, d + rest, d, i);
  }

  lemma NotInHead(e: Entry, boundary: Bytes, rest: Bytes, i: nat)
    requires At(PartOf(e) + (Delimiter(boundary) + rest), Delimiter(boundary), i)
    ensures i >= |Head(e)| + 2
  {
    var hay := PartOf(e) + (Delimiter(boundary) + rest);
    AtChar(hay, Delimiter(boundary), i, 0);
    AtChar(hay, Delimiter(boundary), i, 2);
    HeadSafe(e);
    assert Head(e) <= hay && hay[|Head(e)|..|Head(e)| + 4] == BLANK;
    HeadThenBlank(hay, Head(e), i);
  }

  lemma HeadThenBlank(hay: Bytes, head: Bytes, i: nat)
    requires CrSafe(head) && head <= hay && |head| + 4 <= |hay| && hay[|head|..|head| + 4] == BLANK
    requires i + 2 < |hay| && hay[i] == '\r' && hay[i + 2] == '-'
    ensures i >= |head| + 2
  {
    assert hay[|head| + 1] == hay[|head|..|head| + 4][1] && hay[|head| + 2] == hay[|head|..|head| + 4][2];
  }

  /** The delimiter does not overlap itself: it has one carriage return. */
  lemma NotAcross(p: Bytes, boundary: Bytes, rest: Bytes, i: nat)
    requires '\r' !in boundary && i < |p| && At(p + (Delimiter(boundary) + rest), Delimiter(boundary), i)
    ensures i + |Delimiter(boundary)| <= |p|
  {
    var d := Delimiter(boundary);
    if i + |d| > |p| {
      AtChar(p + (d + rest), d, i, |p| - i);
      OneReturn(boundary, |p| - i);
    }
  }

  lemma OneReturn(boundary: Bytes, k: nat)
    requires '\r' !in boundary && 0 < k < |Delimiter(boundary)|
    ensures Delimiter(boundary)[k] != '\r'
  {
  }

  lemma ShiftedAt(a: Bytes, q: Bytes, rest: Bytes, d: Bytes, i: nat)
    requires |a| <= i && i + |d| <= |a + q|
    ensures At((a + q) + rest, d, i) <==> At(q, d, i - |a|)
  {
    assert ((a + q) + rest)[i..i + |d|] == q[i - |a|..i - |a| + |d|];
  }

  /** No content could be taken for the end of its part. */
  ghost predicate Unambiguous(entries: seq<Entry>, boundary: Bytes) {
    forall i :: 0 <= i < |entries| ==> !Occurs(CRLF + Content(entries[i]), Delimiter(boundary))
  }

  /** The line break before a content counts: a content that opens like a delimiter is one. */
  lemma OpensLikeDelimiter(e: Entry, boundary: Bytes)
    requires "--" + boundary <= Content(e)
    ensures !Unambiguous([e], boundary)
  {
    var hay := CRLF + Content(e);
    assert hay[..|Delimiter(boundary)|] == CRLF + ("--" + boundary) == Delimiter(boundary);
    assert At(hay, Delimiter(boundary), 0);
    assert [e][0] == e;
  }

  lemma FindsDelimiter(e: Entry, boundary: Bytes, rest: Bytes)
    requires '\r' !in boundary
    ensures var d := Delimiter(boundary);
            var found := Find(PartOf(e) + (d + rest), d);
            found.Some? && found.value <= |PartOf(e)| && (found.value == |PartOf(e)| <==> !Occurs(CRLF + Content(e), d))
  {
    var d, p, k := Delimiter(boundary), PartOf(e), |Head(e)|;
    var hay := p + (d + rest);
    assert hay[|p|..|p| + |d|] == d;
    assert At(hay, d, |p|);
    forall i | 0 <= i < |p| ensures At(hay, d, i) <==> i >= k + 2 && At(CRLF + Content(e), d, i - k - 2) {
      DelimiterInPart(e, boundary, rest, i);
    }
    if i: nat :| At(CRLF + Content(e), d, i) {
      assert At(hay, d, i + k + 2);
    }
  }

  /** A reader gets back every entry - its kind, its escaped names, its exact bytes, in order -
      exactly when no content could be taken for the end of its part. */
  lemma {:induction false} ReadsBack(entries: seq<Entry>, boundary: Bytes)
    requires '\r' !in boundary
    ensures ReadParts(AfterDelimiter(entries, boundary), boundary) == Some(AllSent(entries)) <==>
            Unambiguous(entries, boundary)
  {
    if entries != [] {
      var e, more := entries[0], AfterDelimiter(entries[1..], boundary);
      var part, after := SplitsPart(e, boundary, more);
      ReadsFirst(PartOf(e) + (Delimiter(boundary) + more), boundary, part, after);
      ReadsBack(entries[1..], boundary);
      UnambiguousStep(entries, boundary);
      JoinedIs(ReadPart(part), ReadParts(after, boundary), Sent(e), AllSent(entries[1..]));
    }
  }

  lemma UnambiguousStep(entries: seq<Entry>, boundary: Bytes)
    requires entries != []
    ensures Unambiguous(entries, boundary) <==>
              !Occurs(CRLF + Content(entries[0]), Delimiter(boundary)) && Unambiguous(entries[1..], boundary)
  {
    assert forall i :: 0 < i < |entries| ==> entries[i] == entries[1..][i - 1];
  }

  lemma JoinedIs(first: Option<Entry>, others: Option<seq<Entry>>, e: Entry, es: seq<Entry>)
    ensures Joined(first, others) == Some([e] + es) <==> first == Some(e) && others == Some(es)
  {
    if first.Some? && others.Some? && [first.value] + others.value == [e] + es {
      assert ([first.value] + others.value)[0] == first.value && ([first.value] + others.value)[1..] == others.value;
      assert ([e] + es)[0] == e && ([e] + es)[1..] == es;
    }
  }

  lemma ReadsFirst(rest: Bytes, boundary: Bytes, part: Bytes, after: Bytes)
    requires Cut(rest, Delimiter(boundary)) == Some((part, after))
    ensures ReadParts(CRLF + rest, boundary) == Joined(ReadPart(part), ReadParts(after, boundary))
  {
    var all := CRLF + rest;
    AfterPrefix(CRLF, rest);
    assert all[0] == '\r' && !("--" <= all);
    assert all[2..] == rest;
  }

  /** One part read whole, or cut short; if whole, what follows is what was put there. */
  lemma SplitsPart(e: Entry, boundary: Bytes, more: Bytes) returns (part: Bytes, after: Bytes)
    requires '\r' !in boundary
    ensures Cut(PartOf(e) + (Delimiter(boundary) + more), Delimiter(boundary)) == Some((part, after))
    ensures ReadPart(part) == Some(Sent(e)) <==> !Occurs(CRLF + Content(e), Delimiter(boundary))
    ensures ReadPart(part) == Some(Sent(e)) ==> after == more
  {
    FindsDelimiter(e, boundary, more);
    var i := Find(PartOf(e) + (Delimiter(boundary) + more), Delimiter(boundary)).value;
    ReadsPart(e, i);
    part := PartOf(e)[..i];
    after := SplitAt(PartOf(e), boundary, more, i);
  }

  lemma SplitAt(p: Bytes, boundary: Bytes, more: Bytes, i: nat) returns (after: Bytes)
    requires i <= |p| && Find(p + (Delimiter(boundary) + more), Delimiter(boundary)) == Some(i)
    ensures Cut(p + (Delimiter(boundary) + more), Delimiter(boundary)) == Some((p[..i], after))
    ensures i == |p| ==> after == more
  {
    Pieces(p, Delimiter(boundary), more, i);
    after := (p + (Delimiter(boundary) + more))[i + |Delimiter(boundary)|..];
  }

  lemma Pieces<T>(p: seq<T>, d: seq<T>, more: seq<T>, i: nat)
    requires i <= |p|
    ensures (p + (d + more))[..i] == p[..i]
    ensures i == |p| ==> (p + (d + more))[i + |d|..] == more
  {
  }
}
