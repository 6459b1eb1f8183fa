/**
  * `TextEncoder` and `TextDecoder`: UTF-16 code units to UTF-8, RFC 3629, and back.
  */
module Utf8 {
  import opened Common

  type Units = seq<Unit>

  const REPLACEMENT: Unit := 0xFFFD
  const BOM: Unit := 0xFEFF

  // ----- UTF-16 -----

  predicate IsHigh(u: int) {
    0xD800 <= u <= 0xDBFF
  }

  predicate IsLow(u: int) {
    0xDC00 <= u <= 0xDFFF
  }

  type Scalar = cp: int | 0 <= cp < 0xD800 || 0xE000 <= cp <= 0x10FFFF

  /** A surrogate without its other half. */
  predicate Lone(s: Units, i: nat)
    requires i < |s|
  {
    || (IsHigh(s[i]) && !(i + 1 < |s| && IsLow(s[i + 1])))
    || (IsLow(s[i]) && !(i > 0 && IsHigh(s[i - 1])))
  }

  ghost predicate WellFormed16(s: Units) {
    forall i :: 0 <= i < |s| ==> !Lone(s, i)
  }

  function Pair(hi: int, lo: int): Scalar
    requires IsHigh(hi) && IsLow(lo)
  {
    0x10000 + (hi - 0xD800) * 0x400 + (lo - 0xDC00)
  }

  /** The code point at the front, a lone surrogate standing for U+FFFD, and its length. */
  function First(s: Units): (r: (Scalar, nat))
    requires s != []
    ensures 1 <= r.1 <= 2 && r.1 <= |s|
  {
    if IsHigh(s[0]) && |s| > 1 && IsLow(s[1]) then (Pair(s[0], s[1]), 2)
    else if IsHigh(s[0]) || IsLow(s[0]) then (REPLACEMENT, 1)
    else (s[0], 1)
  }

  /** `String.fromCodePoint`. */
  function FromCodePoint(cp: Scalar): (s: Units)
    ensures 1 <= |s| <= 2 && First(s) == (cp, |s|) && WellFormed16(s)
  {
    if cp < 0x10000 then
      var u: Unit := cp;
      [u]
    else
      var hi: Unit, lo: Unit := 0xD800 + (cp - 0x10000) / 0x400, 0xDC00 + (cp - 0x10000) % 0x400;
      [hi, lo]
  }

  /** RFC 2781 section 2.1: the ten high bits of what exceeds U+FFFF come first, the ten low bits second. */
  lemma PairIs(cp: Scalar)
    ensures cp < 0x10000 ==> FromCodePoint(cp) == [cp]
    ensures cp >= 0x10000 ==>
      FromCodePoint(cp) == [0xD800 + (cp - 0x10000) / 1024, 0xDC00 + (cp - 0x10000) % 1024]
      && First(FromCodePoint(cp)) == (cp, 2)
  {
  }

  // ----- UTF-8, RFC 3629 -----

  function Lead1(cp: nat): Byte
    requires cp < 0x80
  {
    cp
  }

  function LeadByte(mark: nat, bits: nat): Byte
    requires mark + bits < 0x100
  {
    mark + bits
  }

  function TailByte(bits: nat): (b: Byte)
    ensures Tail(b)
  {
    0x80 + bits % 0x40
  }

  function Low6(b: Byte): (n: nat)
    ensures n < 0x40
  {
    b as int % 0x40
  }

  /** Section 3. */
  function EncodedScalar(cp: Scalar): (b: seq<Byte>)
    ensures 1 <= |b| <= 4
  {
    if cp < 0x80 then [Lead1(cp)]
    else if cp < 0x800 then [LeadByte(0xC0, cp / 0x40), TailByte(cp)]
    else if cp < 0x10000 then [LeadByte(0xE0, cp / 0x1000), TailByte(cp / 0x40), TailByte(cp)]
    else [LeadByte(0xF0, cp / 0x40000), TailByte(cp / 0x1000), TailByte(cp / 0x40), TailByte(cp)]
  }

  /** The bits of the table in section 3: six in each byte after the first, the high ones first. */
  lemma BitsOf(cp: Scalar)
    ensures var b := EncodedScalar(cp);
            && |b| == (if cp < 0x80 then 1 else if cp < 0x800 then 2 else if cp < 0x10000 then 3 else 4)
            && (forall i :: 1 <= i < |b| ==> 0x80 <= b[i] < 0xC0)
            && (|b| == 1 ==> cp == b[0])
            && (|b| == 2 ==> cp == (b[0] as int - 0xC0) * 64 + (b[1] as int - 0x80))
            && (|b| == 3 ==> cp == ((b[0] as int - 0xE0) * 64 + (b[1] as int - 0x80)) * 64 + (b[2] as int - 0x80))
            && (|b| == 4 ==> cp == (((b[0] as int - 0xF0) * 64 + (b[1] as int - 0x80)) * 64 + (b[2] as int - 0x80)) * 64
                                   + (b[3] as int - 0x80))
  {
    var q := cp / 0x40;
    assert cp / 0x1000 == q / 0x40 && cp / 0x40000 == q / 0x40 / 0x40;
  }

  predicate Tail(b: Byte) {
    0x80 <= b <= 0xBF
  }

  /** Section 4: how long the character at the front is, or 0 if there is none. */
  function CharLength(b: seq<Byte>): (n: nat)
    ensures n <= |b| && n <= 4
  {
    if |b| >= 1 && b[0] <= 0x7F then 1
    else if |b| >= 2 && 0xC2 <= b[0] <= 0xDF && Tail(b[1]) then 2
    else if |b| >= 3 && b[0] == 0xE0 && 0xA0 <= b[1] <= 0xBF && Tail(b[2]) then 3
    else if |b| >= 3 && 0xE1 <= b[0] <= 0xEC && Tail(b[1]) && Tail(b[2]) then 3
    else if |b| >= 3 && b[0] == 0xED && 0x80 <= b[1] <= 0x9F && Tail(b[2]) then 3
    else if |b| >= 3 && 0xEE <= b[0] <= 0xEF && Tail(b[1]) && Tail(b[2]) then 3
    else if |b| >= 4 && b[0] == 0xF0 && 0x90 <= b[1] <= 0xBF && Tail(b[2]) && Tail(b[3]) then 4
    else if |b| >= 4 && 0xF1 <= b[0] <= 0xF3 && Tail(b[1]) && Tail(b[2]) && Tail(b[3]) then 4
    else if |b| >= 4 && b[0] == 0xF4 && 0x80 <= b[1] <= 0x8F && Tail(b[2]) && Tail(b[3]) then 4
    else 0
  }

  ghost predicate WellFormed8(b: seq<Byte>) {
    b == [] || (CharLength(b) > 0 && WellFormed8(b[CharLength(b)..]))
  }

  /** UTF-8 of a string, its lone surrogates replaced. */
  function Encoded(s: Units): seq<Byte> {
    if s == [] then [] else EncodedScalar(First(s).0) + Encoded(s[First(s).1..])
  }

  // ----- TextEncoder -----

  /** `encode`: well-formed UTF-8 for any string, lone surrogates replaced. */
  method Encode(s: Units) returns (out: seq<Byte>)
    ensures out == Encoded(s)
    ensures WellFormed8(out) && Text(Repaired(s), out)
  {
    out := [];
    var i := 0;
    while i < |s|
      invariant 0 <= i <= |s|
      invariant out + Encoded(s[i..]) == Encoded(s)
    {
      var cp, step := NextScalar(s, i);
      assert s[i..][step..] == s[i + step..];
      var bytes := EncodeScalar(cp);
      ConcatAssociates(out, bytes, Encoded(s[i + step..]));
      out := out + bytes;
      i := i + step;
    }
    assert s[i..] == [] && out + [] == out;
    EncodedIsWellFormed(s);
    EncodedAsRepaired(s);
  }

  method NextScalar(s: Units, i: nat) returns (cp: Scalar, step: nat)
    requires i < |s|
    ensures (cp, step) == First(s[i..])
  {
    var u: int := s[i];
    if IsHigh(u) {
      var lo: int := if i + 1 < |s| then s[i + 1] else 0;
      if IsLow(lo) {
        return Pair(u, lo), 2;
      }
      return REPLACEMENT, 1;
    } else if IsLow(u) {
      return REPLACEMENT, 1;
    }
    return u, 1;
  }

  method EncodeScalar(cp: Scalar) returns (out: seq<Byte>)
    ensures out == EncodedScalar(cp)
  {
    if cp < 0x80 {
      out := [Lead1(cp)];
    } else if cp < 0x800 {
      out := [LeadByte(0xC0, cp / 0x40), TailByte(cp)];
    } else if cp < 0x10000 {
      out := [LeadByte(0xE0, cp / 0x1000), TailByte(cp / 0x40), TailByte(cp)];
    } else {
      out := [LeadByte(0xF0, cp / 0x40000), TailByte(cp / 0x1000), TailByte(cp / 0x40), TailByte(cp)];
    }
  }

  // ----- TextDecoder -----

  datatype Lead = Bad | Lead(length: nat, bits: nat)

  function LeadOf(b0: Byte): Lead {
    if b0 < 0x80 then Lead(1, b0)
    else if 0xC0 <= b0 < 0xE0 then Lead(2, b0 - 0xC0)
    else if 0xE0 <= b0 < 0xF0 then Lead(3, b0 - 0xE0)
    else if 0xF0 <= b0 < 0xF8 then Lead(4, b0 - 0xF0)
    else Bad
  }

  /** The code point of a sequence, by the decoder's arithmetic. */
  method Continue(b: seq<Byte>, lead: Lead) returns (ok: bool, cp: nat)
    requires lead.Lead? && 1 <= lead.length <= |b|
    ensures ok <==> forall k :: 1 <= k < lead.length ==> Tail(b[k])
    ensures ok ==> cp == Bits(lead.bits, b, lead.length)
  {
    ok, cp := true, lead.bits;
    var k := 1;
    while k < lead.length
      invariant 1 <= k <= lead.length
      invariant forall j :: 1 <= j < k ==> Tail(b[j])
      invariant cp == Bits(lead.bits, b, k)
    {
      if !Tail(b[k]) { return false, cp; }
      cp := cp * 0x40 + Low6(b[k]);
      k := k + 1;
    }
  }

  /** Six bits from each of the bytes after the first, below `high`. */
  function Bits(high: nat, b: seq<Byte>, n: nat): nat
    requires 1 <= n <= |b|
  {
    if n == 1 then high else Bits(high, b, n - 1) * 0x40 + Low6(b[n - 1])
  }

  /** What the decoder rejects after reading a sequence. */
  predicate Malformed(cp: nat, length: nat) {
    cp > 0x10FFFF || 0xD800 <= cp <= 0xDFFF || (length == 2 && cp < 0x80) || (length == 3 && cp < 0x800)
    || (length == 4 && cp < 0x10000)
  }

  function Stripped(s: Units, ignoreBOM: bool): Units {
    if !ignoreBOM && s != [] && s[0] == 0xFEFF then s[1..] else s
  }

  /** Bytes that are the UTF-8 of a well-formed string. */
  ghost predicate Text(s: Units, bytes: seq<Byte>) {
    WellFormed16(s) && Encoded(s) == bytes
  }

  /** `decode`. In fatal mode it accepts exactly well-formed bytes; in either mode those give the
      string they encode, without its byte order mark unless that is asked for. */
  method Decode(bytes: seq<Byte>, fatal: bool, ignoreBOM: bool) returns (r: Option<Units>)
    ensures r.None? <==> fatal && !WellFormed8(bytes)
    ensures WellFormed8(bytes) ==> r.Some? && exists s :: Text(s, bytes) && r.value == Stripped(s, ignoreBOM)
  {
    var out: Units := [];
    var i := 0;
    ghost var good := true;
    while i < |bytes|
      invariant 0 <= i <= |bytes|
      invariant good ==> Text(out, bytes[..i]) && (WellFormed8(bytes) <==> WellFormed8(bytes[i..]))
      invariant !good ==> !fatal && !WellFormed8(bytes)
    {
      ghost var rest := bytes[i..];
      var lead := LeadOf(bytes[i]);
      if lead.Bad? {
        good := false;
        if fatal { return None; }
        out := out + [REPLACEMENT];
        i := i + 1;
        continue;
      }
      if i + lead.length > |bytes| {
        good := false;
        if fatal { return None; }
        out := out + [REPLACEMENT];
        break;
      }
      var ok, cp := Continue(bytes[i..], lead);
      Grammar(rest, ok, cp);
      if !ok || Malformed(cp, lead.length) {
        good := false;
        if fatal { return None; }
        out := out + [REPLACEMENT];
        i := i + 1;
        continue;
      }
      if good { OneMore(out, bytes, i, cp, lead.length); }
      out := out + FromCodePoint(cp);
      i := i + lead.length;
    }
    if good {
      assert bytes[..i] == bytes && bytes[i..] == [];
      assert Text(out, bytes);
    }
    r := Some(if !ignoreBOM && |out| > 0 && out[0] == BOM then out[1..] else out);
  }

  /** The decoder's checks are the grammar. */
  lemma Grammar(b: seq<Byte>, ok: bool, cp: nat)
    requires b != [] && var lead := LeadOf(b[0]);
             && lead.Lead? && lead.length <= |b|
             && (ok <==> forall k :: 1 <= k < lead.length ==> Tail(b[k]))
             && (ok ==> cp == Bits(lead.bits, b, lead.length))
    ensures CharLength(b) > 0 <==> ok && !Malformed(cp, LeadOf(b[0]).length)
    ensures CharLength(b) > 0 ==>
              CharLength(b) == LeadOf(b[0]).length && EncodedScalar(cp) == b[..CharLength(b)]
  {
    match LeadOf(b[0]).length {
      case 1 =>
      case 2 => if ok { Grammar2(b, cp); }
      case 3 => if ok { Bits3(LeadOf(b[0]).bits, b); Grammar3(b, cp); }
      case _ => if ok { Bits4(LeadOf(b[0]).bits, b); Grammar4(b, cp); }
    }
  }

  lemma Bits3(high: nat, b: seq<Byte>)
    requires |b| >= 3 && Tail(b[1]) && Tail(b[2])
    ensures Bits(high, b, 3) == high * 0x1000 + Low6(b[1]) * 0x40 + Low6(b[2])
  {
    assert Bits(high, b, 2) == high * 0x40 + Low6(b[1]);
  }

  lemma Bits4(high: nat, b: seq<Byte>)
    requires |b| >= 4 && Tail(b[1]) && Tail(b[2]) && Tail(b[3])
    ensures Bits(high, b, 4) == high * 0x40000 + Low6(b[1]) * 0x1000 + Low6(b[2]) * 0x40 + Low6(b[3])
  {
    Bits3(high, b);
  }

  function High(b: seq<Byte>, mark: int): int
    requires b != []
  {
    b[0] as int - mark
  }

  lemma Grammar2(b: seq<Byte>, cp: nat)
    requires |b| >= 2 && 0xC0 <= b[0] < 0xE0 && Tail(b[1]) && cp == High(b, 0xC0) * 0x40 + Low6(b[1])
    ensures CharLength(b) > 0 <==> !Malformed(cp, 2)
    ensures CharLength(b) > 0 ==> CharLength(b) == 2 && EncodedScalar(cp) == b[..2]
  {
  }

  lemma Grammar3(b: seq<Byte>, cp: nat)
    requires |b| >= 3 && 0xE0 <= b[0] < 0xF0 && Tail(b[1]) && Tail(b[2])
    requires cp == High(b, 0xE0) * 0x1000 + Low6(b[1]) * 0x40 + Low6(b[2])
    ensures CharLength(b) > 0 <==> !Malformed(cp, 3)
    ensures CharLength(b) > 0 ==> CharLength(b) == 3 && EncodedScalar(cp) == b[..3]
  {
    var q := cp / 0x40;
    assert q == High(b, 0xE0) * 0x40 + Low6(b[1]) && cp % 0x40 == Low6(b[2]);
    assert cp / 0x1000 == q / 0x40;
  }

  lemma Grammar4(b: seq<Byte>, cp: nat)
    requires |b| >= 4 && 0xF0 <= b[0] < 0xF8 && Tail(b[1]) && Tail(b[2]) && Tail(b[3])
    requires cp == High(b, 0xF0) * 0x40000 + Low6(b[1]) * 0x1000 + Low6(b[2]) * 0x40 + Low6(b[3])
    ensures CharLength(b) > 0 <==> !Malformed(cp, 4)
    ensures CharLength(b) > 0 ==> CharLength(b) == 4 && EncodedScalar(cp) == b[..4]
  {
    var q := cp / 0x40;
    assert q == High(b, 0xF0) * 0x1000 + Low6(b[1]) * 0x40 + Low6(b[2]) && cp % 0x40 == Low6(b[3]);
    var p := q / 0x40;
    assert p == High(b, 0xF0) * 0x40 + Low6(b[1]) && q % 0x40 == Low6(b[2]);
    assert cp / 0x1000 == p && cp / 0x40000 == p / 0x40;
  }

  lemma OneMore(out: Units, bytes: seq<Byte>, i: nat, cp: Scalar, n: nat)
    requires i + n <= |bytes| && Text(out, bytes[..i])
    requires n == CharLength(bytes[i..]) > 0 && EncodedScalar(cp) == bytes[i..][..n]
    ensures Text(out + FromCodePoint(cp), bytes[..i + n])
    ensures WellFormed8(bytes[i..]) <==> WellFormed8(bytes[i + n..])
  {
    var c := FromCodePoint(cp);
    EncodedAppend(out, c);
    AppendKeeps(out, c);
    OneScalar(cp);
    assert bytes[..i + n] == bytes[..i] + bytes[i..][..n];
    assert bytes[i..][n..] == bytes[i + n..];
  }

  lemma OneScalar(cp: Scalar)
    ensures Encoded(FromCodePoint(cp)) == EncodedScalar(cp)
  {
    var c := FromCodePoint(cp);
    assert c[|c|..] == [];
    assert EncodedScalar(cp) + [] == EncodedScalar(cp);
  }

  lemma {:induction false} EncodedAppend(a: Units, b: Units)
    requires WellFormed16(a)
    ensures Encoded(a + b) == Encoded(a) + Encoded(b)
    decreases |a|
  {
    if a == [] {
      assert a + b == b;
    } else {
      var (cp, n) := First(a);
      FirstAppend(a, b);
      WellFormedTail(a);
      EncodedAppend(a[n..], b);
      DropOfConcat(a, b, n);
      ConcatAssociates(EncodedScalar(cp), Encoded(a[n..]), Encoded(b));
    }
  }

  lemma FirstAppend(a: Units, b: Units)
    requires a != [] && WellFormed16(a)
    ensures First(a + b) == First(a)
  {
    assert !Lone(a, 0);
  }

  lemma AppendKeeps(a: Units, b: Units)
    requires WellFormed16(a)
    ensures WellFormed16(b) ==> WellFormed16(a + b)
  {
    if WellFormed16(b) {
      forall i | 0 <= i < |a + b| ensures !Lone(a + b, i) {
        if i < |a| { assert !Lone(a, i); } else { assert !Lone(b, i - |a|); }
      }
    }
  }

  lemma WellFormedTail(s: Units)
    requires s != [] && WellFormed16(s)
    ensures WellFormed16(s[First(s).1..])
  {
    var n := First(s).1;
    assert !Lone(s, 0);
    forall i | 0 <= i < |s| - n ensures !Lone(s[n..], i) { assert !Lone(s, i + n); }
  }

  // ----- Round trips -----

  /** UTF-8 is a prefix code: what follows a character does not change it. */
  lemma CharLengthOfScalar(cp: Scalar, rest: seq<Byte>)
    ensures CharLength(EncodedScalar(cp) + rest) == |EncodedScalar(cp)|
  {
  }

  lemma BitsOfScalar(cp: Scalar)
    ensures var e := EncodedScalar(cp);
            LeadOf(e[0]).Lead? && LeadOf(e[0]).length == |e| && Bits(LeadOf(e[0]).bits, e, |e|) == cp
  {
    if cp < 0x800 {
    } else if cp < 0x10000 {
      BitsOfThree(cp);
    } else {
      BitsOfFour(cp);
    }
  }

  lemma BitsOfThree(cp: Scalar)
    requires 0x800 <= cp < 0x10000
    ensures var e := EncodedScalar(cp); LeadOf(e[0]) == Lead(3, cp / 0x1000) && Bits(cp / 0x1000, e, 3) == cp
  {
    Bits3(cp / 0x1000, EncodedScalar(cp));
    DivTwice(cp);
  }

  lemma BitsOfFour(cp: Scalar)
    requires 0x10000 <= cp
    ensures var e := EncodedScalar(cp); LeadOf(e[0]) == Lead(4, cp / 0x40000) && Bits(cp / 0x40000, e, 4) == cp
  {
    var q := cp / 0x40;
    var p := q / 0x40;
    Bits4(cp / 0x40000, EncodedScalar(cp));
    DivTwice(cp);
    assert cp == q * 0x40 + cp % 0x40 && q == p * 0x40 + q % 0x40;
    assert cp / 0x1000 == p && cp / 0x40000 == p / 0x40;
  }

  lemma DivTwice(n: nat)
    ensures n / 0x1000 == n / 0x40 / 0x40 && n / 0x40000 == n / 0x40 / 0x1000
  {
  }

  lemma ScalarInjective(a: Scalar, b: Scalar)
    requires EncodedScalar(a) == EncodedScalar(b)
    ensures a == b
  {
    BitsOfScalar(a);
    BitsOfScalar(b);
  }

  /** What is encoded is well-formed, whatever the string. */
  lemma {:induction false} EncodedIsWellFormed(s: Units)
    ensures WellFormed8(Encoded(s))
    decreases |s|
  {
    if s != [] {
      var (cp, n) := First(s);
      CharLengthOfScalar(cp, Encoded(s[n..]));
      EncodedIsWellFormed(s[n..]);
      assert Encoded(s)[|EncodedScalar(cp)|..] == Encoded(s[n..]);
    }
  }

  /** Bytes encode one string: so decoding what was encoded gives it back. */
  lemma {:induction false} OneText(s: Units, t: Units)
    requires WellFormed16(s) && WellFormed16(t) && Encoded(s) == Encoded(t)
    ensures s == t
    decreases |s|
  {
    if s != [] && t != [] {
      var a, b := First(s), First(t);
      CharLengthOfScalar(a.0, Encoded(s[a.1..]));
      CharLengthOfScalar(b.0, Encoded(t[b.1..]));
      var k := |EncodedScalar(a.0)|;
      assert Encoded(s)[..k] == EncodedScalar(a.0) && Encoded(t)[..k] == EncodedScalar(b.0);
      assert Encoded(s)[k..] == Encoded(s[a.1..]) && Encoded(t)[k..] == Encoded(t[b.1..]);
      ScalarInjective(a.0, b.0);
      FirstInjective(s, t);
      WellFormedTail(s);
      WellFormedTail(t);
      OneText(s[a.1..], t[b.1..]);
      assert s == s[..a.1] + s[a.1..] && t == t[..b.1] + t[b.1..];
    }
  }

  lemma FirstInjective(s: Units, t: Units)
    requires s != [] && t != [] && WellFormed16(s) && WellFormed16(t) && First(s).0 == First(t).0
    ensures First(s) == First(t) && s[..First(s).1] == t[..First(t).1]
  {
    assert !Lone(s, 0) && !Lone(t, 0);
  }

  /** The string with every lone surrogate replaced. */
  function Repaired(s: Units): (r: Units)
    ensures |r| == |s|
  {
    seq(|s|, i requires 0 <= i < |s| => if Lone(s, i) then 0xFFFD else s[i])
  }

  /** Lone surrogates, and nothing else, encode as U+FFFD. */
  lemma {:induction false} EncodedAsRepaired(s: Units)
    ensures WellFormed16(Repaired(s)) && Encoded(s) == Encoded(Repaired(s))
    decreases |s|
  {
    RepairedIsWellFormed(s);
    if s != [] {
      var n := First(s).1;
      FirstRepaired(s);
      RepairedTail(s);
      EncodedAsRepaired(s[n..]);
    }
  }

  lemma RepairedIsWellFormed(s: Units)
    ensures WellFormed16(Repaired(s))
  {
    var r := Repaired(s);
    forall i | 0 <= i < |r| ensures !Lone(r, i) {
      if IsHigh(s[i]) && !Lone(s, i) { assert !Lone(s, i + 1); }
      if IsLow(s[i]) && !Lone(s, i) { assert !Lone(s, i - 1); }
    }
  }

  lemma FirstRepaired(s: Units)
    requires s != []
    ensures First(Repaired(s)) == First(s)
  {
    if First(s).1 == 2 { assert !Lone(s, 0) && !Lone(s, 1); }
  }

  lemma RepairedTail(s: Units)
    requires s != []
    ensures Repaired(s)[First(s).1..] == Repaired(s[First(s).1..])
  {
    var n := First(s).1;
    forall i | 0 <= i < |s| - n ensures Lone(s[n..], i) <==> Lone(s, i + n) {}
  }

  /** Decoding what was encoded: the string itself, lone surrogates replaced. */
  lemma DecodesEncoded(s: Units, t: Units)
    requires Text(t, Encoded(s))
    ensures t == Repaired(s) && (t == s <==> WellFormed16(s))
  {
    EncodedAsRepaired(s);
    OneText(t, Repaired(s));
    if WellFormed16(s) { OneText(t, s); }
  }
}
