/**
  * `CSS.escape`, and the tokenizer of CSS Syntax Level 3 that has to read its output.
  *
  * Strings are sequences of UTF-16 code units; a half of a surrogate pair is a non-ASCII code
  * point to the tokenizer like any other.
  */
module CssEscape {
  import opened Common

  type Units = seq<Unit>

  const BACKSLASH: Unit := 0x5C
  const DASH: Unit := 0x2D
  const SPACE: Unit := 0x20
  const REPLACEMENT: Unit := 0xFFFD

  predicate IsDigit(u: Unit) {
    0x30 <= u <= 0x39
  }

  predicate IsLetter(u: Unit) {
    0x41 <= u <= 0x5A || 0x61 <= u <= 0x7A
  }

  predicate IsControl(u: Unit) {
    0x01 <= u <= 0x1F || u == 0x7F
  }

  // ----- Escaping -----

  function HexDigit(v: nat): (u: Unit)
    requires v < 16
    ensures HexValue(u) == Some(v)
  {
    if v < 10 then 0x30 + v else 0x61 + (v - 10)
  }

  /** `toString(16)`. */
  function Hex(n: nat): (h: Units)
    ensures |h| >= 1
  {
    if n < 16 then [HexDigit(n)] else Hex(n / 16) + [HexDigit(n % 16)]
  }

  /** It reads as the number; and it is in lower case, without leading zeros. */
  lemma {:induction false} HexIs(n: nat)
    ensures AllHex(Hex(n)) && HexNumber(Hex(n)) == n && (n < 256 ==> |Hex(n)| <= 2)
    ensures forall i :: 0 <= i < |Hex(n)| ==> 0x30 <= Hex(n)[i] <= 0x39 || 0x61 <= Hex(n)[i] <= 0x66
    ensures n > 0 ==> Hex(n)[0] != 0x30
  {
    if n >= 16 { HexIs(n / 16); }
  }

  function EscapedUnit(s: Units, i: nat): Units
    requires i < |s|
  {
    var u := s[i];
    if u == 0 then [REPLACEMENT]
    else if IsControl(u) || (i == 0 && IsDigit(u)) || (i == 1 && IsDigit(u) && s[0] == DASH) then
      [BACKSLASH] + Hex(u) + [SPACE]
    else if i == 0 && |s| == 1 && u == DASH then [BACKSLASH, u]
    else if IsIdent(u) then [u]
    else [BACKSLASH, u]
  }

  function EscapedFrom(s: Units, i: nat): Units
    requires i <= |s|
    decreases |s| - i
  {
    if i == |s| then [] else EscapedUnit(s, i) + EscapedFrom(s, i + 1)
  }

  function Escaped(s: Units): Units {
    EscapedFrom(s, 0)
  }

  /** The loop of `CSS.escape`; its output reads as one identifier, which is `s` with NUL replaced. */
  method Escape(s: Units) returns (out: Units)
    ensures out == Escaped(s)
    ensures s != [] ==> StartsIdent(out) && ReadIdent(out) == (Cleaned(s), [])
  {
    var first := if |s| > 0 then s[0] else 0;
    out := [];
    var i := 0;
    AlongAtOnce(s);
    while i < |s|
      invariant 0 <= i <= |s|
      invariant Along(s, out, i)
    {
      var piece := EscapeUnit(s, i, first);
      EscapedNext(out, s, i);
      out := out + piece;
      i := i + 1;
    }
    NothingMore(out, s);
    if s != [] { ReadsAlone(s); }
  }

  ghost predicate Along(s: Units, out: Units, i: nat)
    requires i <= |s|
  {
    out + EscapedFrom(s, i) == Escaped(s)
  }

  lemma AlongAtOnce(s: Units)
    ensures Along(s, [], 0)
  {
    assert [] + EscapedFrom(s, 0) == Escaped(s);
  }

  lemma EscapedNext(out: Units, s: Units, i: nat)
    requires i < |s| && Along(s, out, i)
    ensures Along(s, out + EscapedUnit(s, i), i + 1)
  {
    ConcatAssociates(out, EscapedUnit(s, i), EscapedFrom(s, i + 1));
  }

  lemma NothingMore(out: Units, s: Units)
    requires Along(s, out, |s|)
    ensures out == Escaped(s)
  {
    assert out + [] == out;
  }

  lemma ReadsAlone(s: Units)
    requires s != []
    ensures StartsIdent(Escaped(s)) && ReadIdent(Escaped(s)) == (Cleaned(s), [])
  {
    ReadsBack(s, []);
    assert Escaped(s) + [] == Escaped(s);
  }

  method EscapeUnit(s: Units, i: nat, first: Unit) returns (piece: Units)
    requires i < |s| && first == s[0]
    ensures piece == EscapedUnit(s, i)
  {
    var u := s[i];
    if u == 0 {
      piece := [REPLACEMENT];
    } else if (0x01 <= u <= 0x1F) || u == 0x7F
        || (i == 0 && 0x30 <= u <= 0x39)
        || (i == 1 && 0x30 <= u <= 0x39 && first == 0x2D) {
      piece := [BACKSLASH] + Hex(u) + [SPACE];
    } else if i == 0 && |s| == 1 && u == 0x2D {
      piece := [BACKSLASH, u];
    } else if u >= 0x80 || u == 0x2D || u == 0x5F
        || (0x30 <= u <= 0x39) || (0x41 <= u <= 0x5A) || (0x61 <= u <= 0x7A) {
      piece := [u];
    } else {
      piece := [BACKSLASH, u];
    }
  }

  // ----- Reading: CSS Syntax Level 3 -----

  predicate IsIdentStart(u: Unit) {
    0x41 <= u <= 0x5A || 0x61 <= u <= 0x7A || u >= 0x80 || u == 0x5F
  }

  predicate IsIdent(u: Unit) {
    IsIdentStart(u) || 0x30 <= u <= 0x39 || u == 0x2D
  }

  predicate IsNewline(u: Unit) {
    u == 0x0A || u == 0x0C || u == 0x0D
  }

  predicate IsWhitespace(u: Unit) {
    IsNewline(u) || u == 0x09 || u == 0x20
  }

  function HexValue(u: Unit): (v: Option<nat>)
    ensures v.Some? ==> v.value < 16
  {
    if 0x30 <= u <= 0x39 then Some(u - 0x30)
    else if 0x41 <= u <= 0x46 then Some(u - 0x41 + 10)
    else if 0x61 <= u <= 0x66 then Some(u - 0x61 + 10)
    else None
  }

  predicate AllHex(h: Units) {
    forall i :: 0 <= i < |h| ==> HexValue(h[i]).Some?
  }

  function HexNumber(h: Units): nat
    requires AllHex(h)
  {
    if h == [] then 0 else HexNumber(h[..|h| - 1]) * 16 + HexValue(h[|h| - 1]).value
  }

  /** How many hex digits a string opens with, up to `most`. */
  function HexRun(s: Units, most: nat): (n: nat)
    ensures n <= most && n <= |s| && AllHex(s[..n])
    ensures n < most && n < |s| ==> HexValue(s[n]).None?
  {
    if most == 0 || s == [] || HexValue(s[0]).None? then 0
    else
      var n := HexRun(s[1..], most - 1);
      assert s[..n + 1] == [s[0]] + s[1..][..n];
      n + 1
  }

  /** Section 4.3.8. */
  predicate ValidEscape(s: Units) {
    |s| > 0 && s[0] == 0x5C && (|s| > 1 ==> !IsNewline(s[1]))
  }

  /** Section 4.3.7, after the backslash: the code point, and what is left. */
  function ReadEscape(s: Units): (r: (nat, Units))
    ensures |r.1| <= |s|
  {
    if s == [] then (0xFFFD, [])
    else
      var n := HexRun(s, 6);
      if n == 0 then (s[0], s[1..])
      else
        var number := HexNumber(s[..n]);
        var rest := if n < |s| && IsWhitespace(s[n]) then s[n + 1..] else s[n..];
        (if number == 0 || 0xD800 <= number <= 0xDFFF || number > 0x10FFFF then 0xFFFD else number, rest)
  }

  /** Section 4.3.9. */
  predicate StartsIdent(s: Units) {
    |s| > 0 &&
    if s[0] == 0x2D then |s| > 1 && (IsIdentStart(s[1]) || s[1] == 0x2D || ValidEscape(s[1..]))
    else IsIdentStart(s[0]) || ValidEscape(s)
  }

  /** Section 4.3.11: the name, and what is left. */
  function ReadIdent(s: Units): (seq<nat>, Units)
    decreases |s|
  {
    if s == [] then ([], [])
    else if IsIdent(s[0]) then
      var r := ReadIdent(s[1..]);
      ([s[0]] + r.0, r.1)
    else if ValidEscape(s) then
      var e := ReadEscape(s[1..]);
      var r := ReadIdent(e.1);
      ([e.0] + r.0, r.1)
    else ([], s)
  }

  // ----- The round trip -----

  function Clean(u: Unit): nat {
    if u == 0 then 0xFFFD else u
  }

  function Cleaned(s: Units): (r: seq<nat>)
    ensures |r| == |s| && forall i :: 0 <= i < |s| ==> r[i] == Clean(s[i])
  {
    if s == [] then [] else [Clean(s[0])] + Cleaned(s[1..])
  }

  /** Where an identifier ends: at the end, or before what cannot go on with it. */
  ghost predicate EndsIdent(rest: Units) {
    rest == [] || (!IsIdent(rest[0]) && !ValidEscape(rest))
  }

  lemma HexThenSpace(h: Units, t: Units)
    requires AllHex(h) && 1 <= |h| <= 6
    ensures HexRun(h + [SPACE] + t, 6) == |h|
  {
    var s := h + [SPACE] + t;
    var n := HexRun(s, 6);
    assert s[|h|] == SPACE && forall i :: 0 <= i < |h| ==> s[i] == h[i];
    forall k | 0 <= k < n ensures HexValue(s[k]).Some? { assert s[..n][k] == s[k]; }
  }

  lemma ReadsHex(u: Unit, t: Units)
    requires 0 < u < 0x80
    ensures ReadEscape(Hex(u) + [SPACE] + t) == (u, t)
  {
    HexIs(u);
    HexThenSpace(Hex(u), t);
    var all := Hex(u) + [SPACE] + t;
    assert all[..|Hex(u)|] == Hex(u) && all[|Hex(u)| + 1..] == t;
  }

  /** A backslash and what it escapes. */
  lemma ReadsEscape(e: Units, u: Unit, t: Units)
    requires e != [] && !IsNewline(e[0]) && ReadEscape(e + t) == (u, t)
    ensures ReadIdent([BACKSLASH] + e + t) == ([u as nat] + ReadIdent(t).0, ReadIdent(t).1)
  {
    var all := [BACKSLASH] + e + t;
    ConcatAssociates([BACKSLASH], e, t);
    DropOfConcat([BACKSLASH], e + t, 1);
    assert all[1..] == [] + (e + t) == e + t;
    assert all[1] == (e + t)[0] == e[0];
    ReadIdentEscape(all, u, t);
  }

  lemma ReadIdentEscape(all: Units, u: nat, t: Units)
    requires |all| > 1 && all[0] == BACKSLASH && !IsNewline(all[1]) && ReadEscape(all[1..]) == (u, t)
    ensures ReadIdent(all) == ([u] + ReadIdent(t).0, ReadIdent(t).1)
  {
  }

  /** Whatever follows, one escaped unit reads as that unit. */
  lemma ReadsUnit(s: Units, i: nat, t: Units)
    requires i < |s|
    ensures ReadIdent(EscapedUnit(s, i) + t) == ([Clean(s[i])] + ReadIdent(t).0, ReadIdent(t).1)
  {
    var u, e := s[i], EscapedUnit(s, i);
    if e == [BACKSLASH] + Hex(u) + [SPACE] && 0 < u < 0x80 {
      ReadsHex(u, t);
      HexIs(u);
      assert HexValue(Hex(u)[0]).Some?;
      assert [BACKSLASH] + (Hex(u) + [SPACE]) == e;
      ReadsEscape(Hex(u) + [SPACE], u, t);
    } else if e == [BACKSLASH, u] && !IsControl(u) && HexValue(u).None? {
      assert ([u] + t)[1..] == t;
      assert [BACKSLASH] + [u] == e;
      ReadsEscape([u], u, t);
    } else {
      assert (e + t)[1..] == t;
    }
  }

  /** Whatever stands after the escape of `s[..i]` reads as it should. */
  ghost predicate ReadsWell(s: Units, i: nat, rest: Units)
    requires i <= |s|
  {
    ReadIdent(EscapedFrom(s, i) + rest) == (Cleaned(s[i..]), rest)
  }

  lemma ReadsNothing(s: Units, rest: Units)
    requires EndsIdent(rest)
    ensures ReadsWell(s, |s|, rest)
  {
    assert [] + rest == rest;
  }

  lemma {:induction false} ReadsFrom(s: Units, i: nat, rest: Units)
    requires i <= |s| && EndsIdent(rest)
    ensures ReadsWell(s, i, rest)
    decreases |s| - i
  {
    if i == |s| {
      ReadsNothing(s, rest);
    } else {
      ReadsFrom(s, i + 1, rest);
      ReadsStep(s, i, rest);
    }
  }

  lemma ReadsStep(s: Units, i: nat, rest: Units)
    requires i < |s| && ReadsWell(s, i + 1, rest)
    ensures ReadsWell(s, i, rest)
  {
    var later := EscapedFrom(s, i + 1);
    ConcatAssociates(EscapedUnit(s, i), later, rest);
    ReadsUnit(s, i, later + rest);
    assert s[i..][1..] == s[i + 1..];
  }

  lemma EscapedStartsIdent(s: Units, rest: Units)
    requires s != []
    ensures StartsIdent(Escaped(s) + rest)
  {
    ConcatAssociates(EscapedUnit(s, 0), EscapedFrom(s, 1), rest);
    if |s| > 1 {
      ConcatAssociates(EscapedUnit(s, 1), EscapedFrom(s, 2), rest);
      PiecesStart(s, EscapedFrom(s, 1) + rest, EscapedFrom(s, 2) + rest);
    } else {
      PiecesStart(s, EscapedFrom(s, 1) + rest, []);
    }
  }

  /** The first two units decide whether an identifier begins. */
  lemma PiecesStart(s: Units, rest: Units, later: Units)
    requires s != [] && (|s| > 1 ==> rest == EscapedUnit(s, 1) + later)
    ensures StartsIdent(EscapedUnit(s, 0) + rest)
  {
    var first := EscapedUnit(s, 0);
    var all := first + rest;
    UnitOpens(s, 0);
    assert all[0] == first[0];
    if |first| > 1 {
      assert all[1] == first[1];
    } else if |s| > 1 {
      var second := EscapedUnit(s, 1);
      UnitOpens(s, 1);
      assert all[1] == second[0];
      if |second| > 1 { assert all[2] == second[1]; }
    }
  }

  /** One unit escaped: itself, or a backslash and no line break. */
  lemma UnitOpens(s: Units, i: nat)
    requires i < |s|
    ensures var e := EscapedUnit(s, i);
            && e != [] && (|e| == 1 ==> IsIdent(e[0])) && (|e| > 1 ==> e[0] == 0x5C && !IsNewline(e[1]))
            && (i == 0 && |e| == 1 ==> IsIdentStart(e[0]) || (e[0] == 0x2D && |s| > 1))
            && (i == 1 && s[0] == 0x2D && |e| == 1 ==> IsIdentStart(e[0]) || e[0] == 0x2D)
            && (i == 0 && e == [0x2D] ==> s[0] == 0x2D)
  {
    HexIs(s[i]);
    assert HexValue(Hex(s[i])[0]).Some?;
  }

  /** Escaped and put before anything that cannot go on with an identifier, a name is read back
      whole, NUL replaced, and nothing after it is touched. */
  lemma ReadsBack(s: Units, rest: Units)
    requires s != [] && EndsIdent(rest)
    ensures StartsIdent(Escaped(s) + rest) && ReadIdent(Escaped(s) + rest) == (Cleaned(s), rest)
  {
    EscapedStartsIdent(s, rest);
    ReadsFrom(s, 0, rest);
    assert s[0..] == s;
  }

  /** The output with one unit left as it is. */
  ghost function EscapedBut(s: Units, bare: nat, i: nat): Units
    requires i <= |s|
    decreases |s| - i
  {
    if i == |s| then [] else (if i == bare then [s[i]] else EscapedUnit(s, i)) + EscapedBut(s, bare, i + 1)
  }

  /** A unit is left as it is exactly if it may stand in an identifier and the output then still starts one. */
  lemma BareWhereItMayBe(s: Units, i: nat)
    requires i < |s|
    ensures EscapedUnit(s, i) == [s[i]] <==> IsIdent(s[i]) && StartsIdent(EscapedBut(s, i, 0))
  {
    var all := EscapedBut(s, i, 0);
    if EscapedUnit(s, i) == [s[i]] {
      BareMayBe(s, i);
    } else if IsIdent(s[i]) {
      NotBare(s, i);
      if i == 0 {
        assert all[0] == s[0];
      } else {
        assert all[1] == s[1];
      }
    }
  }

  lemma BareMayBe(s: Units, i: nat)
    requires i < |s| && EscapedUnit(s, i) == [s[i]]
    ensures IsIdent(s[i]) && StartsIdent(EscapedBut(s, i, 0))
  {
    PiecesStart(s, EscapedBut(s, i, 1), if |s| > 1 then EscapedBut(s, i, 2) else []);
  }

  lemma NotBare(s: Units, i: nat)
    requires i < |s| && EscapedUnit(s, i) != [s[i]] && IsIdent(s[i])
    ensures if i == 0 then 0x30 <= s[0] <= 0x39 || (s == [0x2D]) else i == 1 && s[0] == 0x2D && 0x30 <= s[1] <= 0x39
    ensures i == 1 ==> EscapedBut(s, i, 0) == [0x2D] + EscapedBut(s, i, 1)
  {
  }

  /** Any other is escaped: a control or a digit by its number, in lower case and without leading zeros,
      the rest by the backslash alone; and NUL is replaced. */
  lemma EscapedHow(s: Units, i: nat)
    requires i < |s| && EscapedUnit(s, i) != [s[i]]
    ensures s[i] == 0 ==> EscapedUnit(s, i) == [0xFFFD]
    ensures 0 < s[i] < 0x20 || s[i] == 0x7F || 0x30 <= s[i] <= 0x39 ==>
              EscapedUnit(s, i) == [0x5C] + Hex(s[i]) + [0x20]
    ensures s[i] >= 0x20 && s[i] != 0x7F && !(0x30 <= s[i] <= 0x39) ==> EscapedUnit(s, i) == [0x5C, s[i]]
  {
  }

  lemma {:induction false} SameEscaped(s: Units, t: Units, i: nat)
    requires |s| == |t| && i <= |s| && forall k :: 0 <= k < |s| ==> Clean(s[k]) == Clean(t[k])
    ensures EscapedFrom(s, i) == EscapedFrom(t, i)
    decreases |s| - i
  {
    if i < |s| {
      SameUnit(s, t, i);
      SameEscaped(s, t, i + 1);
    }
  }

  lemma SameUnit(s: Units, t: Units, i: nat)
    requires i < |s| == |t| && Clean(s[i]) == Clean(t[i]) && Clean(s[0]) == Clean(t[0])
    ensures EscapedUnit(s, i) == EscapedUnit(t, i)
  {
  }

  /** Two names escape alike exactly when they differ in nothing but NUL against U+FFFD. */
  lemma EscapedAlike(s: Units, t: Units)
    ensures Escaped(s) == Escaped(t) <==> Cleaned(s) == Cleaned(t)
  {
    if Cleaned(s) == Cleaned(t) {
      assert |s| == |Cleaned(s)| == |t|;
      forall k | 0 <= k < |s| ensures Clean(s[k]) == Clean(t[k]) { assert Cleaned(s)[k] == Cleaned(t)[k]; }
      SameEscaped(s, t, 0);
    }
    ReadsFrom(s, 0, []);
    ReadsFrom(t, 0, []);
    assert s[0..] == s && t[0..] == t && Escaped(s) + [] == Escaped(s) && Escaped(t) + [] == Escaped(t);
  }
}
