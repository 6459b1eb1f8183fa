/**
  * Base64, RFC 4648 sections 3.5 and 4, over the bytes of the text.
  *
  * Three bytes and four digits are the same twenty-four bits; a padded group has fewer bytes and
  * some low bits to spare.
  */
module Base64 {
  import opened Common

  type Text = seq<Byte>

  const PAD: Byte := '=' as int

  /** The alphabet, and its inverse. */
  function Digit(v: nat): (c: Byte)
    requires v < 64
    ensures ValueOf(c) == Some(v)
  {
    if v < 26 then 'A' as int + v
    else if v < 52 then 'a' as int + (v - 26)
    else if v < 62 then '0' as int + (v - 52)
    else if v == 62 then '+' as int
    else '/' as int
  }

  function ValueOf(c: Byte): (v: Option<nat>)
    ensures v.Some? ==> v.value < 64 && c != PAD
  {
    if 'A' as int <= c <= 'Z' as int then Some(c - 'A' as int)
    else if 'a' as int <= c <= 'z' as int then Some(c - 'a' as int + 26)
    else if '0' as int <= c <= '9' as int then Some(c - '0' as int + 52)
    else if c == '+' as int then Some(62)
    else if c == '/' as int then Some(63)
    else None
  }

  lemma ValueInjective(c: Byte, d: Byte)
    requires ValueOf(c).Some? && ValueOf(c) == ValueOf(d)
    ensures c == d
  {
  }

  /** RFC 4648, table 1. */
  const TABLE: string := "ABCDEFGHIJKLMNOPQRSTUVWXYZ" + "abcdefghijklmnopqrstuvwxyz" + "0123456789" + "+/"

  lemma UpperAt(v: nat)
    requires v < 26
    ensures "ABCDEFGHIJKLMNOPQRSTUVWXYZ"[v] as int == 'A' as int + v
  {
  }

  lemma LowerAt(v: nat)
    requires v < 26
    ensures "abcdefghijklmnopqrstuvwxyz"[v] as int == 'a' as int + v
  {
  }

  lemma TableAt(v: nat)
    requires v < 64
    ensures |TABLE| == 64 && 0 <= TABLE[v] as int < 0x100 && ValueOf(TABLE[v] as int) == Some(v)
  {
    if v < 26 {
      UpperAt(v);
    } else if v < 52 {
      LowerAt(v - 26);
    } else if v < 62 {
      assert TABLE[v] == "0123456789"[v - 52];
    }
  }

  lemma AlphabetIs(c: Byte)
    ensures ValueOf(c).Some? <==> c as char in TABLE
    ensures ValueOf(c).Some? ==> TABLE[ValueOf(c).value] == c as char && Digit(ValueOf(c).value) == c
  {
    if ValueOf(c).Some? {
      TableAt(ValueOf(c).value);
      ValueInjective(c, TABLE[ValueOf(c).value] as int);
    }
    if c as char in TABLE {
      var v :| 0 <= v < |TABLE| && TABLE[v] == c as char;
      TableAt(v);
    }
  }

  // ----- What a text means -----

  type Group = s: Text | |s| == 4 witness [0, 0, 0, 0]

  function Padding(g: Group): nat {
    if g[3] != PAD then 0 else if g[2] != PAD then 1 else if g[1] != PAD then 2 else if g[0] != PAD then 3 else 4
  }

  ghost predicate GroupOk(g: Group, last: bool) {
    Padding(g) <= 2 && (Padding(g) > 0 ==> last) && forall i :: 0 <= i < 4 - Padding(g) ==> ValueOf(g[i]).Some?
  }

  function GroupAt(s: Text, k: nat): Group
    requires 4 * k + 4 <= |s|
  {
    s[4 * k..4 * k + 4]
  }

  /** Groups of four alphabet characters; only the last may end in padding, at most two of it. */
  ghost predicate WellFormed(s: Text) {
    |s| % 4 == 0 && forall k :: 0 <= k < |s| / 4 ==> GroupOk(GroupAt(s, k), k == |s| / 4 - 1)
  }

  function Sextet(c: Byte): (v: nat)
    ensures v < 64
  {
    if ValueOf(c).Some? then ValueOf(c).value else 0
  }

  /** The twenty-four bits of a group, padding standing for zero. */
  function Bits(g: Group): (n: nat)
    ensures n < 0x1000000
  {
    Sextet(g[0]) * 0x40000 + Sextet(g[1]) * 0x1000 + Sextet(g[2]) * 0x40 + Sextet(g[3])
  }

  function Octet(b: seq<Byte>, i: nat): (n: nat)
    ensures n < 256
  {
    if i < |b| then b[i] else 0
  }

  /** Up to three bytes, in the high bits. */
  function Octets(b: seq<Byte>): nat
    requires |b| <= 3
  {
    Octet(b, 0) * 0x10000 + Octet(b, 1) * 0x100 + Octet(b, 2)
  }

  /** The bits below the last of `n` bytes, counted as a number. */
  function Spare(n: int): nat {
    if n >= 3 then 1 else if n == 2 then 0x100 else 0x10000
  }

  /** The group's bits are these bytes, then `0 <= unused < Spare(|b|)`. */
  ghost predicate GroupMeans(g: Group, b: seq<Byte>) {
    |b| == 3 - Padding(g) && Octets(b) <= Bits(g) < Octets(b) + Spare(|b|)
  }

  function ChunkAt(b: seq<Byte>, k: nat): (c: seq<Byte>)
    requires 3 * k <= |b|
    ensures |c| <= 3
  {
    if 3 * k + 3 <= |b| then b[3 * k..3 * k + 3] else b[3 * k..]
  }

  /** Group by group, three bytes at a time. */
  ghost predicate Means(s: Text, b: seq<Byte>) {
    |s| / 4 == (|b| + 2) / 3 && forall k :: 0 <= k < |s| / 4 ==> GroupMeans(GroupAt(s, k), ChunkAt(b, k))
  }

  /** The bits that no byte takes are zero. */
  ghost predicate Canonical(s: Text) {
    forall k :: 0 <= k < |s| / 4 ==> Bits(GroupAt(s, k)) % Spare(3 - Padding(GroupAt(s, k))) == 0
  }

  /** The canonical text of some bytes. */
  ghost predicate Encodes(b: seq<Byte>, s: Text) {
    WellFormed(s) && Means(s, b) && Canonical(s)
  }

  // ----- The two loops -----

  method Encode(bytes: seq<Byte>) returns (out: Text)
    ensures Encodes(bytes, out)
  {
    out := [];
    var i := 0;
    while i < |bytes|
      invariant i <= |bytes| && (i % 3 == 0 || i == |bytes|)
      invariant Encodes(bytes[..i], out)
    {
      var size := if |bytes| - i < 3 then |bytes| - i else 3;
      var chunk := bytes[i..i + size];
      var group := EncodeChunk(chunk);
      AppendGroup(out, bytes[..i], group, chunk);
      assert bytes[..i + size] == bytes[..i] + chunk;
      out := out + group;
      i := i + size;
    }
    assert bytes[..i] == bytes;
  }

  method EncodeChunk(chunk: seq<Byte>) returns (out: Group)
    requires 1 <= |chunk| <= 3
    ensures GroupOk(out, true) && GroupMeans(out, chunk) && Bits(out) == Octets(chunk)
  {
    var b0: nat, b1: nat, b2: nat := Octet(chunk, 0), Octet(chunk, 1), Octet(chunk, 2);
    var triple := b0 * 0x10000 + b1 * 0x100 + b2;
    SplitTriple(b0, b1, b2);
    var d0, d1, d2, d3 := triple / 0x40000 % 64, triple / 0x1000 % 64, triple / 0x40 % 64, triple % 64;
    out := [Digit(d0), Digit(d1), if |chunk| > 1 then Digit(d2) else PAD, if |chunk| > 2 then Digit(d3) else PAD];
    assert Sextet(out[0]) == d0 && Sextet(out[1]) == d1 && Sextet(out[2]) == d2 && Sextet(out[3]) == d3;
  }

  lemma SplitTriple(b0: nat, b1: nat, b2: nat)
    requires b0 < 256 && b1 < 256 && b2 < 256
    ensures var t := b0 * 0x10000 + b1 * 0x100 + b2;
            && (t / 0x40000 % 64) * 0x40000 + (t / 0x1000 % 64) * 0x1000 + (t / 0x40 % 64) * 0x40 + t % 64 == t
            && (b2 == 0 ==> t % 64 == 0) && (b2 == 0 && b1 == 0 ==> t / 0x40 % 64 == 0)
  {
    var t := b0 * 0x10000 + b1 * 0x100 + b2;
    FourDigits(t);
    if b2 == 0 { Multiple(t, b0 * 0x400 + b1 * 4); }
    if b2 == 0 && b1 == 0 { Multiple(t / 0x40, b0 * 16); }
  }

  lemma Multiple(t: nat, q: nat)
    requires t == 64 * q
    ensures t % 64 == 0 && t / 64 == q
  {
  }

  lemma FourDigits(t: nat)
    requires t < 0x1000000
    ensures (t / 0x40000 % 64) * 0x40000 + (t / 0x1000 % 64) * 0x1000 + (t / 0x40 % 64) * 0x40 + t % 64 == t
  {
    var q := t / 0x40;
    DivTwice(t);
    DivTwice(q);
    assert t == q * 64 + t % 64;
    assert q == q / 64 * 64 + q % 64;
    assert t / 0x40000 == q / 0x1000;
  }

  lemma DivTwice(t: nat)
    ensures t / 0x1000 == t / 0x40 / 0x40
  {
  }

  method Decode(input: Text) returns (bytes: Option<seq<Byte>>)
    ensures bytes.Some? <==> WellFormed(input)
    ensures bytes.Some? ==> Means(input, bytes.value)
  {
    if |input| % 4 != 0 { return None; }
    var out: seq<Byte> := [];
    var i := 0;
    while i < |input|
      invariant 0 <= i <= |input| && i % 4 == 0
      invariant Decoding(input, i, out)
    {
      var group := input[i..i + 4];
      assert group == GroupAt(input, i / 4);
      var chunk := DecodeGroup(group, i + 4 == |input|);
      if chunk.None? {
        assert !GroupOk(GroupAt(input, i / 4), i / 4 == |input| / 4 - 1);
        return None;
      }
      DecodeOne(input, i, out, chunk.value);
      out := out + chunk.value;
      i := i + 4;
    }
    assert input[..i] == input;
    return Some(out);
  }

  /** The groups before `i` are well-formed and mean what was put out. */
  ghost predicate Decoding(input: Text, i: nat, out: seq<Byte>) {
    && i <= |input| && WellFormed(input[..i]) && Means(input[..i], out)
    && (i < |input| ==> |out| % 3 == 0)
  }

  lemma DecodeOne(input: Text, i: nat, out: seq<Byte>, chunk: seq<Byte>)
    requires |input| % 4 == 0 && i % 4 == 0 && i + 4 <= |input| && Decoding(input, i, out)
    requires GroupOk(input[i..i + 4], i + 4 == |input|) && GroupMeans(input[i..i + 4], chunk)
    ensures Decoding(input, i + 4, out + chunk)
  {
    AppendGroup(input[..i], out, input[i..i + 4], chunk);
    assert input[..i + 4] == input[..i] + input[i..i + 4];
  }

  method DecodeGroup(group: Group, last: bool) returns (bytes: Option<seq<Byte>>)
    ensures bytes.Some? <==> GroupOk(group, last)
    ensures bytes.Some? ==> GroupMeans(group, bytes.value)
  {
    var padding := 0;
    while padding < 4 && group[3 - padding] == PAD
      invariant padding <= 4 && forall i :: 4 - padding <= i < 4 ==> group[i] == PAD
    {
      padding := padding + 1;
    }
    assert padding == Padding(group);
    if padding > 2 || (padding > 0 && !last) { return None; }
    var acc := 0;
    var index := 0;
    while index < 4
      invariant index <= 4 && acc == BitsUpTo(group, index)
      invariant forall i :: 0 <= i < index && i < 4 - padding ==> ValueOf(group[i]).Some?
    {
      var value := 0;
      if index < 4 - padding {
        match ValueOf(group[index]) {
          case None => return None;
          case Some(v) => value := v;
        }
      }
      acc := acc * 64 + value;
      index := index + 1;
    }
    AllBits(group);
    var out := TakeBytes(acc, 3 - padding);
    return Some(out);
  }

  lemma AllBits(g: Group)
    ensures BitsUpTo(g, 4) == Bits(g)
  {
    assert BitsUpTo(g, 1) == Sextet(g[0]);
    assert BitsUpTo(g, 2) == Sextet(g[0]) * 64 + Sextet(g[1]);
  }

  function ByteOf(acc: nat, shift: nat): Byte
    requires shift > 0
  {
    acc / shift % 0x100
  }

  const SHIFTS: seq<nat> := [0x10000, 0x100, 1]

  /** The high bytes of twenty-four bits. */
  method TakeBytes(acc: nat, n: nat) returns (out: seq<Byte>)
    requires acc < 0x1000000 && 1 <= n <= 3
    ensures |out| == n && Octets(out) <= acc < Octets(out) + Spare(n)
  {
    out := [];
    for i := 0 to n
      invariant |out| == i && forall j :: 0 <= j < i ==> out[j] == ByteOf(acc, SHIFTS[j])
    {
      out := out + [ByteOf(acc, SHIFTS[i])];
    }
    ThreeBytes(acc);
  }

  lemma ThreeBytes(acc: nat)
    requires acc < 0x1000000
    ensures var a, b, c := ByteOf(acc, 0x10000), ByteOf(acc, 0x100), ByteOf(acc, 1);
            acc == a * 0x10000 + b * 0x100 + c
  {
    assert acc / 0x10000 == acc / 0x100 / 0x100;
  }

  function BitsUpTo(g: Group, n: nat): nat
    requires n <= 4
  {
    if n == 0 then 0 else BitsUpTo(g, n - 1) * 64 + Sextet(g[n - 1])
  }

  lemma AppendGroup(s: Text, b: seq<Byte>, g: Group, c: seq<Byte>)
    requires WellFormed(s) && Means(s, b) && |b| % 3 == 0 && GroupOk(g, true) && GroupMeans(g, c)
    ensures WellFormed(s + g) && Means(s + g, b + c)
    ensures Canonical(s) && Bits(g) == Octets(c) ==> Canonical(s + g)
  {
    var n := |s| / 4;
    forall k | 0 <= k < n ensures GroupOk(GroupAt(s, k), false) {
      assert GroupMeans(GroupAt(s, k), ChunkAt(b, k)) && |ChunkAt(b, k)| == 3;
    }
    GroupsAppend(s, g);
    ChunksAppend(b, c, n);
    ExactIsCanonical(g, c);
  }

  lemma GroupsAppend(s: Text, g: Group)
    requires |s| % 4 == 0
    ensures |s + g| / 4 == |s| / 4 + 1
    ensures forall k :: 0 <= k <= |s| / 4 ==> GroupAt(s + g, k) == if k < |s| / 4 then GroupAt(s, k) else g
  {
  }

  lemma ChunksAppend(b: seq<Byte>, c: seq<Byte>, n: nat)
    requires |b| == 3 * n && |c| <= 3
    ensures forall k :: 0 <= k <= n ==> ChunkAt(b + c, k) == if k < n then ChunkAt(b, k) else c
  {
  }

  lemma ExactIsCanonical(g: Group, c: seq<Byte>)
    requires GroupMeans(g, c) && Padding(g) <= 2
    ensures Bits(g) == Octets(c) ==> Bits(g) % Spare(3 - Padding(g)) == 0
  {
    OctetsMultiple(c);
  }

  lemma OctetsMultiple(c: seq<Byte>)
    requires 1 <= |c| <= 3
    ensures Octets(c) % Spare(|c|) == 0
  {
    if |c| == 1 {
      assert Octets(c) == Octet(c, 0) * 0x10000;
    } else if |c| == 2 {
      assert Octets(c) == (Octet(c, 0) * 0x100 + Octet(c, 1)) * 0x100;
    }
  }

  // ----- Round trips -----

  /** Well-formed, said of the characters: a multiple of four, of the alphabet but for at most two
      trailing pads. */
  lemma WellFormedIs(s: Text)
    ensures WellFormed(s) <==> |s| % 4 == 0 && exists p :: 0 <= p <= 2 && AlphabetThenPads(s, p)
  {
    if s == [] {
      assert AlphabetThenPads(s, 0);
    } else if |s| % 4 == 0 {
      var last := GroupAt(s, |s| / 4 - 1);
      if WellFormed(s) {
        var p := Padding(last);
        forall i | 0 <= i < |s| ensures if i < |s| - p then ValueOf(s[i]).Some? else s[i] == PAD {
          assert s[i] == GroupAt(s, i / 4)[i % 4] && GroupOk(GroupAt(s, i / 4), i / 4 == |s| / 4 - 1);
        }
        assert AlphabetThenPads(s, p);
      }
      if p :| 0 <= p <= 2 && AlphabetThenPads(s, p) {
        assert forall j :: 0 <= j < 4 ==> last[j] == s[|s| - 4 + j];
        forall k | 0 <= k < |s| / 4 ensures GroupOk(GroupAt(s, k), k == |s| / 4 - 1) {
          assert forall j :: 0 <= j < 4 ==> GroupAt(s, k)[j] == s[4 * k + j];
        }
      }
    }
  }

  ghost predicate AlphabetThenPads(s: Text, p: nat) {
    p <= |s| && forall i :: 0 <= i < |s| ==> if i < |s| - p then ValueOf(s[i]).Some? else s[i] == PAD
  }

  /** Where the bits of the bytes stand: the first byte fills the first digit and the high bits of the
      second, and so on; the digits that no byte reaches are `=`. */
  lemma DigitsAre(g: Group, b: seq<Byte>)
    requires GroupOk(g, true) && GroupMeans(g, b)
    ensures 1 <= |b| <= 3 && ValueOf(g[0]) == Some(b[0] / 4) && ValueOf(g[1]).Some?
    ensures |b| == 1 ==> ValueOf(g[1]).value / 16 == b[0] % 4 && g[2] as char == '=' && g[3] as char == '='
    ensures |b| >= 2 ==> ValueOf(g[1]).value == b[0] % 4 * 16 + b[1] / 16 && ValueOf(g[2]).Some?
    ensures |b| == 2 ==> ValueOf(g[2]).value / 4 == b[1] % 16 && g[3] as char == '='
    ensures |b| == 3 ==> ValueOf(g[2]).value == b[1] % 16 * 4 + b[2] / 64 && ValueOf(g[3]) == Some(b[2] % 64)
  {
    var r := Bits(g) - Octets(b);
    if |b| == 1 {
      Regroup(g, b[0], r / 0x100, r % 0x100);
    } else if |b| == 2 {
      Regroup(g, b[0], b[1], r);
    } else {
      Regroup(g, b[0], b[1], b[2]);
    }
  }

  lemma Regroup(g: Group, a: Byte, b: Byte, c: Byte)
    requires Bits(g) == a * 0x10000 + b * 0x100 + c
    ensures Sextet(g[0]) == a / 4 && Sextet(g[1]) == a % 4 * 16 + b / 16
    ensures Sextet(g[2]) == b % 16 * 4 + c / 64 && Sextet(g[3]) == c % 64
  {
    RadixUnique(Sextet(g[0]), Sextet(g[1]), Sextet(g[2]), Sextet(g[3]),
                a / 4, a % 4 * 16 + b / 16, b % 16 * 4 + c / 64, c % 64);
  }

  lemma OctetsInjective(b: seq<Byte>, c: seq<Byte>, x: nat)
    requires |b| == |c| <= 3 && Octets(b) <= x < Octets(b) + Spare(|b|) && Octets(c) <= x < Octets(c) + Spare(|c|)
    ensures b == c
  {
  }

  lemma BitsInjective(g: Group, h: Group)
    requires GroupOk(g, true) && GroupOk(h, true) && Padding(g) == Padding(h) && Bits(g) == Bits(h)
    ensures g == h
  {
    RadixUnique(Sextet(g[0]), Sextet(g[1]), Sextet(g[2]), Sextet(g[3]), Sextet(h[0]), Sextet(h[1]), Sextet(h[2]),
        Sextet(h[3]));
    forall i | 0 <= i < 4 ensures g[i] == h[i] {
      assert Sextet(g[i]) == Sextet(h[i]);
      if i < 4 - Padding(g) { ValueInjective(g[i], h[i]); }
    }
  }

  lemma RadixUnique(a0: nat, a1: nat, a2: nat, a3: nat, b0: nat, b1: nat, b2: nat, b3: nat)
    requires a0 < 64 && a1 < 64 && a2 < 64 && a3 < 64 && b0 < 64 && b1 < 64 && b2 < 64 && b3 < 64
    requires a0 * 0x40000 + a1 * 0x1000 + a2 * 0x40 + a3 == b0 * 0x40000 + b1 * 0x1000 + b2 * 0x40 + b3
    ensures a0 == b0 && a1 == b1 && a2 == b2 && a3 == b3
  {
  }

  /** A text means one string of bytes: so decoding what was encoded gives it back. */
  lemma MeansOne(s: Text, b: seq<Byte>, c: seq<Byte>)
    requires WellFormed(s) && Means(s, b) && Means(s, c)
    ensures b == c
  {
    SameLength(s, b, c);
    forall i | 0 <= i < |b| ensures b[i] == c[i] {
      var k := i / 3;
      OctetsInjective(ChunkAt(b, k), ChunkAt(c, k), Bits(GroupAt(s, k)));
      assert b[i] == ChunkAt(b, k)[i % 3] && c[i] == ChunkAt(c, k)[i % 3];
    }
  }

  /** Any bytes, encoded and decoded, are those bytes. */
  method DecodeEncoded(bytes: seq<Byte>) returns (back: Option<seq<Byte>>)
    ensures back == Some(bytes)
  {
    var text := Encode(bytes);
    back := Decode(text);
    MeansOne(text, back.value, bytes);
  }

  lemma SameLength(s: Text, b: seq<Byte>, c: seq<Byte>)
    requires Means(s, b) && Means(s, c)
    ensures |b| == |c|
  {
    if |s| / 4 > 0 {
      var k := |s| / 4 - 1;
      assert |ChunkAt(b, k)| == 3 - Padding(GroupAt(s, k)) == |ChunkAt(c, k)|;
    }
  }

  /** Bytes have one canonical text: so encoding what was decoded gives back the text exactly
      when its unused bits are zero. */
  lemma EncodesOne(b: seq<Byte>, s: Text, t: Text)
    requires WellFormed(s) && Means(s, b) && Encodes(b, t)
    ensures s == t <==> Canonical(s)
  {
    if Canonical(s) {
      forall k | 0 <= k < |s| / 4 ensures GroupAt(s, k) == GroupAt(t, k) {
        var g, h := GroupAt(s, k), GroupAt(t, k);
        ExactBits(g, ChunkAt(b, k));
        ExactBits(h, ChunkAt(b, k));
        BitsInjective(g, h);
      }
      forall i | 0 <= i < |s| ensures s[i] == t[i] {
        assert s[i] == GroupAt(s, i / 4)[i % 4] && t[i] == GroupAt(t, i / 4)[i % 4];
      }
    }
  }

  lemma ExactBits(g: Group, c: seq<Byte>)
    requires GroupMeans(g, c) && Padding(g) <= 2 && Bits(g) % Spare(3 - Padding(g)) == 0
    ensures Bits(g) == Octets(c)
  {
    OctetsMultiple(c);
    if |c| == 1 { OneMultiple64K(Bits(g), Octets(c)); } else if |c| == 2 { OneMultiple256(Bits(g), Octets(c)); }
  }

  lemma OneMultiple256(x: nat, y: nat)
    requires y <= x < y + 0x100 && x % 0x100 == 0 && y % 0x100 == 0
    ensures x == y
  {
  }

  lemma OneMultiple64K(x: nat, y: nat)
    requires y <= x < y + 0x10000 && x % 0x10000 == 0 && y % 0x10000 == 0
    ensures x == y
  {
  }
}
