/** UTF-8 as RFC 3629 section 3 defines it, by a decoder that looks at the first byte, and what picojson's escapes
    become in it. UTF-16 pairs are those of RFC 2781 section 2. */
module Unicode {
  import opened Arith
  import opened Json
  import opened Types

  /** A code point that is no half of a pair. */
  predicate IsScalar(u: nat) {
    u < 0xd800 || 0xe000 <= u < 0x110000
  }

  /** A byte 10xxxxxx. */
  predicate IsContinuation(c: char) {
    0x80 <= c as int <= 0xbf
  }

  /** How many bytes a sequence has, from its first one: 0xxxxxxx, 110xxxxx, 1110xxxx, 11110xxx. */
  function LengthOf(first: char): nat {
    var b := first as int;
    if b <= 0x7f then 1 else if 0xc0 <= b <= 0xdf then 2 else if 0xe0 <= b <= 0xef then 3
    else if 0xf0 <= b <= 0xf7 then 4 else 0
  }

  /** The bits of the first byte that belong to the code point. */
  function FirstBits(first: char): nat
    requires LengthOf(first) > 0
  {
    match LengthOf(first)
    case 1 => first as int
    case 2 => first as int - 0xc0
    case 3 => first as int - 0xe0
    case _ => first as int - 0xf0
  }

  /** The first bits followed by six bits of each byte. */
  function Gather(bits: nat, more: string): nat
    requires forall k :: 0 <= k < |more| ==> IsContinuation(more[k])
    decreases |more|
  {
    if more == "" then bits else assert IsContinuation(more[0]); Gather(bits * 64 + (more[0] as int - 0x80), more[1..])
  }

  /** The smallest code point that needs so many bytes. */
  function Smallest(length: nat): nat {
    match length
    case 2 => 0x80
    case 3 => 0x800
    case 4 => 0x10000
    case _ => 0
  }

  /** The bytes are one whole sequence, in its shortest form, for a code point. */
  ghost predicate IsUtf8Of(s: string, u: nat) {
    && s != "" && |s| == LengthOf(s[0])
    && (forall k :: 1 <= k < |s| ==> IsContinuation(s[k]))
    && Gather(FirstBits(s[0]), s[1..]) == u && u >= Smallest(|s|)
  }

  lemma GatherOne(bits: nat, a: char)
    requires IsContinuation(a)
    ensures Gather(bits, [a]) == bits * 64 + (a as int - 0x80)
  {
    assert [a][1..] == "";
  }

  lemma GatherTwo(bits: nat, a: char, b: char)
    requires IsContinuation(a) && IsContinuation(b)
    ensures Gather(bits, [a, b]) == (bits * 64 + (a as int - 0x80)) * 64 + (b as int - 0x80)
  {
    GatherOne(bits * 64 + (a as int - 0x80), b);
    assert [a, b][1..] == [b];
  }

  lemma GatherThree(bits: nat, a: char, b: char, c: char)
    requires IsContinuation(a) && IsContinuation(b) && IsContinuation(c)
    ensures Gather(bits, [a, b, c]) ==
            ((bits * 64 + (a as int - 0x80)) * 64 + (b as int - 0x80)) * 64 + (c as int - 0x80)
  {
    GatherTwo(bits * 64 + (a as int - 0x80), b, c);
    assert [a, b, c][1..] == [b, c];
  }

  /** Decoding what the code appends for a code point gives the code point, in the shortest form. */
  lemma Utf8Decodes(u: nat)
    requires u < 0x110000
    ensures IsUtf8Of(Utf8(u), u) && Bytes(Utf8(u))
  {
    if u < 0x80 {
      assert Utf8(u)[1..] == "";
    } else if u < 0x800 {
      TwoBytesDecode(u);
    } else if u < 0x10000 {
      ThreeBytesDecode(u);
    } else {
      FourBytesDecode(u);
    }
  }

  lemma TwoBytesDecode(u: nat)
    requires 0x80 <= u < 0x800
    ensures IsUtf8Of(Utf8(u), u) && Bytes(Utf8(u))
  {
    hide Gather;
    var s := Utf8(u);
    GatherOne(u / 64, s[1]);
    assert s[1..] == [s[1]];
  }

  lemma ThreeBytesDecode(u: nat)
    requires 0x800 <= u < 0x10000
    ensures IsUtf8Of(Utf8(u), u) && Bytes(Utf8(u))
  {
    hide Gather;
    var s := Utf8(u);
    GatherTwo(u / 4096, s[1], s[2]);
    assert s[1..] == [s[1], s[2]];
  }

  /** Six bits at a time. */
  lemma FourParts(u: nat)
    requires u < 0x110000
    ensures ((u / 0x40000 * 64 + u / 4096 % 64) * 64 + u / 64 % 64) * 64 + u % 64 == u && u / 0x40000 <= 4
  {
    var a, b, c := u / 64, u / 4096, u / 0x40000;
    assert u == a * 64 + u % 64;
    assert b == a / 64 && a == b * 64 + a % 64;
    assert c == b / 64 && b == c * 64 + b % 64;
  }

  lemma FourBytesDecode(u: nat)
    requires 0x10000 <= u < 0x110000
    ensures IsUtf8Of(Utf8(u), u) && Bytes(Utf8(u))
  {
    hide Gather;
    var s := Utf8(u);
    FourParts(u);
    GatherThree(u / 0x40000, s[1], s[2], s[3]);
    assert s[1..] == [s[1], s[2], s[3]];
  }

  // ---------------------------------------------------------------------------------
  // Hexadecimal digits
  // ---------------------------------------------------------------------------------

  const LOWER: string := "0123456789abcdef"
  const UPPER: string := "0123456789ABCDEF"

  /** A character is a hexadecimal digit exactly if it is in one of the two lists, and its value is its place there. */
  lemma HexValueExactly(c: char, v: nat)
    ensures HexValue(c) == Some(v) <==> v < 16 && (c == LOWER[v] || c == UPPER[v])
  {
  }

  predicate IsQuad(d: string) {
    |d| == 4 && HexValue(d[0]).Some? && HexValue(d[1]).Some? && HexValue(d[2]).Some? && HexValue(d[3]).Some?
  }

  /** Four digits to the base of 16. */
  function QuadValue(d: string): (v: nat)
    requires IsQuad(d)
    ensures v < 0x10000
  {
    HexValue(d[0]).value * 0x1000 + HexValue(d[1]).value * 0x100 + HexValue(d[2]).value * 0x10 + HexValue(d[3]).value
  }

  lemma QuadReads(d: string, k: string)
    requires IsQuad(d)
    ensures QuadHex(d + k) == Some((QuadValue(d), k))
  {
    var t := d + k;
    var a, b, c, e := HexValue(d[0]).value, HexValue(d[1]).value, HexValue(d[2]).value, HexValue(d[3]).value;
    assert t[1..][1..][1..][1..] == k;
    assert Hex(t[1..][1..][1..], 1, (a * 16 + b) * 16 + c) == Some((((a * 16 + b) * 16 + c) * 16 + e, k));
    assert Hex(t[1..][1..], 2, a * 16 + b) == Hex(t[1..][1..][1..], 1, (a * 16 + b) * 16 + c);
    assert Hex(t[1..], 3, a) == Hex(t[1..][1..], 2, a * 16 + b);
    assert Hex(t, 4, 0) == Hex(t[1..], 3, a);
  }

  lemma QuadIsRead(t: string)
    requires QuadHex(t).Some?
    ensures |t| >= 4 && IsQuad(t[..4]) && QuadHex(t) == Some((QuadValue(t[..4]), t[4..]))
  {
    assert Hex(t, 4, 0).Some? && t != "" && HexValue(t[0]).Some?;
    var a := HexValue(t[0]).value;
    assert Hex(t[1..], 3, a).Some? && t[1..] != "" && HexValue(t[1..][0]).Some?;
    var b := HexValue(t[1..][0]).value;
    assert Hex(t[1..][1..], 2, a * 16 + b).Some? && t[1..][1..] != "" && HexValue(t[1..][1..][0]).Some?;
    var c := HexValue(t[1..][1..][0]).value;
    assert Hex(t[1..][1..][1..], 1, (a * 16 + b) * 16 + c).Some?;
    assert t[1..][1..][1..] != "" && HexValue(t[1..][1..][1..][0]).Some?;
    assert IsQuad(t[..4]) && t == t[..4] + t[4..];
    QuadReads(t[..4], t[4..]);
  }

  // ---------------------------------------------------------------------------------
  // Escapes
  // ---------------------------------------------------------------------------------

  predicate IsHigh(v: nat) {
    0xd800 <= v < 0xdc00
  }

  predicate IsLow(v: nat) {
    0xdc00 <= v < 0xe000
  }

  /** The code point of a pair. */
  function Paired(high: nat, low: nat): (u: nat)
    requires IsHigh(high) && IsLow(low)
    ensures 0x10000 <= u < 0x110000
  {
    0x10000 + (high - 0xd800) * 0x400 + (low - 0xdc00)
  }

  /** Every code point from 0x10000 on has exactly one pair. */
  lemma PairExactly(u: nat, high: nat, low: nat)
    requires 0x10000 <= u < 0x110000 && IsHigh(high) && IsLow(low)
    ensures Paired(high, low) == u <==>
            high == 0xd800 + (u - 0x10000) / 0x400 && low == 0xdc00 + (u - 0x10000) % 0x400
  {
    DivModUnique(high - 0xd800, low - 0xdc00, 0x400);
    DivModIdentity(u - 0x10000, 0x400);
  }

  /** One escape with four digits, in small letters, capitals or both, reads as the UTF-8 of its value; the halves of
      pairs alone do not read. */
  lemma QuadEscapeReads(d: string, k: string)
    requires IsQuad(d) && !IsHigh(QuadValue(d))
    ensures Codepoint(d + k) == if IsLow(QuadValue(d)) then None else Some((Utf8(QuadValue(d)), k))
    ensures !IsLow(QuadValue(d)) ==> IsUtf8Of(Utf8(QuadValue(d)), QuadValue(d))
  {
    QuadReads(d, k);
    Utf8Decodes(QuadValue(d));
  }

  /** Two escapes that make a pair read as the UTF-8 of its code point. */
  lemma PairEscapeReads(high: string, low: string, k: string)
    requires IsQuad(high) && IsQuad(low) && IsHigh(QuadValue(high)) && IsLow(QuadValue(low))
    ensures Codepoint(high + ("\\u" + (low + k))) == Some((Utf8(Paired(QuadValue(high), QuadValue(low))), k))
    ensures IsUtf8Of(Utf8(Paired(QuadValue(high), QuadValue(low))), Paired(QuadValue(high), QuadValue(low)))
  {
    hide Utf8, Hex, QuadHex, IsUtf8Of;
    QuadReads(high, "\\u" + (low + k));
    QuadReads(low, k);
    assert ("\\u" + (low + k))[2..] == low + k;
    Utf8Decodes(Paired(QuadValue(high), QuadValue(low)));
  }
}
