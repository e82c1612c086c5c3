/** Decoding of the two bitboard lines of a training record: the first 16
    characters of the line are read as a base-16 integer, and that integer
    is written out as 64 binary digits, most significant first, each digit
    becoming a 0.0 or 1.0 square of a plane. */
module Bitboard {

  import opened Wrappers
  import opened Text

  /** Characters read from a bitboard line. */
  const HexChars: nat := 16
  /** Squares of a decoded plane. */
  const PlaneBits: nat := 64

  function Pow2(n: nat): (r: nat)
    ensures r >= 1
  {
    if n == 0 then 1 else 2 * Pow2(n - 1)
  }

  lemma Pow2Add(a: nat, b: nat)
    ensures Pow2(a + b) == Pow2(a) * Pow2(b)
  {
    if a > 0 {
      Pow2Add(a - 1, b);
    }
  }

  lemma Widen(n: nat, k: nat, w: nat)
    requires n < Pow2(k) && k <= w
    ensures n < Pow2(w)
  {
    Pow2Add(k, w - k);
  }

  /** Bit k of n, counting from the least significant bit. */
  predicate BitSet(n: nat, k: nat) {
    if k == 0 then n % 2 == 1 else BitSet(n / 2, k - 1)
  }

  // ---------------------------------------------------------------------
  // Base-16 text

  predicate IsHexDigit(c: char) {
    ('0' <= c <= '9') || ('a' <= c <= 'f') || ('A' <= c <= 'F')
  }

  predicate IsHexString(s: string) {
    |s| > 0 && forall i :: 0 <= i < |s| ==> IsHexDigit(s[i])
  }

  function HexDigitValue(c: char): (d: nat)
    requires IsHexDigit(c)
    ensures d < 16
  {
    if '0' <= c <= '9' then c as nat - '0' as nat
    else if 'a' <= c <= 'f' then c as nat - 'a' as nat + 10
    else c as nat - 'A' as nat + 10
  }

  /** The integer written by a string of hex digits, most significant first. */
  function HexValue(s: string): (n: nat)
    requires forall i :: 0 <= i < |s| ==> IsHexDigit(s[i])
    ensures n < Pow2(4 * |s|)
  {
    if s == [] then 0
    else
      var init := s[..|s| - 1];
      assert Pow2(4 * |s|) == 16 * Pow2(4 * |init|) by {
        Pow2Add(4, 4 * |init|);
      }
      HexValue(init) * 16 + HexDigitValue(s[|s| - 1])
  }

  /** Base-16 parsing of a whole string after surrounding white space is
      removed; anything else but a non-empty run of hex digits is a
      parse error (None). */
  function ParseHex(s: string): (r: Option<nat>)
    ensures r.Some? <==> IsHexString(Strip(s))
    ensures r.Some? ==> r.value < Pow2(4 * |Strip(s)|)
  {
    var t := Strip(s);
    if IsHexString(t) then Some(HexValue(t)) else None
  }

  // ---------------------------------------------------------------------
  // Binary planes

  function Digit(b: bool): real {
    if b then 1.0 else 0.0
  }

  predicate IsBinaryPlane(p: seq<real>) {
    forall i :: 0 <= i < |p| ==> p[i] == 0.0 || p[i] == 1.0
  }

  /** n written with `width` binary digits, most significant first, each
      digit as 0.0 or 1.0 (the zero-padded binary rendering). */
  function BitPlane(n: nat, width: nat): (p: seq<real>)
    ensures |p| == width
  {
    if width == 0 then []
    else BitPlane(n / 2, width - 1) + [Digit(n % 2 == 1)]
  }

  /** Square i of the rendering is bit width - 1 - i of n. */
  lemma {:induction false} BitPlaneDigits(n: nat, width: nat)
    ensures IsBinaryPlane(BitPlane(n, width))
    ensures forall i :: 0 <= i < width ==> BitPlane(n, width)[i] == Digit(BitSet(n, width - 1 - i))
  {
    if width > 0 {
      BitPlaneDigits(n / 2, width - 1);
      var p := BitPlane(n, width);
      assert p[..width - 1] == BitPlane(n / 2, width - 1);
    }
  }

  /** The integer whose binary digits, most significant first, a 0/1 plane holds. */
  function PlaneValue(p: seq<real>): nat {
    if p == [] then 0
    else PlaneValue(p[..|p| - 1]) * 2 + (if p[|p| - 1] == 1.0 then 1 else 0)
  }

  lemma {:induction false} PlaneValueBound(p: seq<real>)
    ensures PlaneValue(p) < Pow2(|p|)
  {
    if p != [] {
      PlaneValueBound(p[..|p| - 1]);
    }
  }

  /** Reading the digits back gives the number, when it fits in the width. */
  lemma {:induction false} BitPlaneValue(n: nat, width: nat)
    requires n < Pow2(width)
    ensures PlaneValue(BitPlane(n, width)) == n
  {
    if width > 0 {
      var p := BitPlane(n, width);
      BitPlaneValue(n / 2, width - 1);
      assert p[..width - 1] == BitPlane(n / 2, width - 1);
    }
  }

  /** The same, for a number known to fit in fewer digits than written. */
  lemma WidePlaneValue(n: nat, k: nat, width: nat)
    requires n < Pow2(k) && k <= width
    ensures PlaneValue(BitPlane(n, width)) == n
  {
    Widen(n, k, width);
    BitPlaneValue(n, width);
  }

  /** Writing out the value of a 0/1 plane gives the plane back. */
  lemma {:induction false} PlaneValueBits(p: seq<real>)
    requires IsBinaryPlane(p)
    ensures BitPlane(PlaneValue(p), |p|) == p
  {
    if p != [] {
      var init := p[..|p| - 1];
      PlaneValueBits(init);
      var n := PlaneValue(p);
      assert n / 2 == PlaneValue(init);
    }
  }

  /** Bits at or above position m are clear in a number below 2^m. */
  lemma {:induction false} HighBitsClear(n: nat, m: nat, k: nat)
    requires n < Pow2(m) && k >= m
    ensures !BitSet(n, k)
  {
    if k > 0 {
      if m == 0 {
        assert n == 0;
        HighBitsClear(0, 0, k - 1);
      } else {
        HighBitsClear(n / 2, m - 1, k - 1);
      }
    }
  }

  /** Every bit below position w is set in 2^w - 1. */
  lemma {:induction false} AllOnesBits(w: nat, k: nat)
    requires k < w
    ensures BitSet(Pow2(w) - 1, k)
  {
    if k > 0 {
      assert (Pow2(w) - 1) / 2 == Pow2(w - 1) - 1;
      AllOnesBits(w - 1, k - 1);
    }
  }

  // ---------------------------------------------------------------------
  // Bitboard lines

  /** The characters of a line that are read: the first 16, or the whole
      line when it is shorter (slicing never fails). */
  function LeadingChars(line: string): (t: string)
    ensures |t| <= HexChars && t <= line
  {
    if |line| <= HexChars then line else line[..HexChars]
  }

  /** One bitboard line decoded to a 64-square plane, or None when its
      leading characters are not a base-16 number. */
  function DecodeBitboard(line: string): (r: Option<seq<real>>)
    ensures r.Some? ==> |r.value| == PlaneBits
  {
    match ParseHex(LeadingChars(line))
    case None => None
    case Some(n) => Some(BitPlane(n, PlaneBits))
  }

  /** A line is accepted exactly when its first 16 characters, with
      surrounding white space removed, are a non-empty run of hex digits. */
  lemma DecodeBitboardAccepts(line: string)
    ensures DecodeBitboard(line).Some? <==> IsHexString(Strip(LeadingChars(line)))
  {
  }

  /** Square i of a decoded bitboard is 1.0 exactly when bit 63 - i of the
      number is set, and the plane reads back as the number. */
  lemma DecodeBitboardDigits(line: string)
    requires DecodeBitboard(line).Some?
    ensures var n := HexValue(Strip(LeadingChars(line)));
      && IsBinaryPlane(DecodeBitboard(line).value)
      && PlaneValue(DecodeBitboard(line).value) == n
      && forall i :: 0 <= i < PlaneBits ==>
           DecodeBitboard(line).value[i] == Digit(BitSet(n, PlaneBits - 1 - i))
  {
    var t := Strip(LeadingChars(line));
    BitPlaneDigits(HexValue(t), PlaneBits);
    WidePlaneValue(HexValue(t), 4 * |t|, PlaneBits);
  }

  /** Fewer than 16 hex digits are padded on the left with zero bits: with
      k digits only the last 4k squares can be set. */
  lemma ShortHexLeftPadded(line: string, i: int)
    requires DecodeBitboard(line).Some?
    requires 0 <= i < PlaneBits - 4 * |Strip(LeadingChars(line))|
    ensures DecodeBitboard(line).value[i] == 0.0
  {
    var t := Strip(LeadingChars(line));
    DecodeBitboardDigits(line);
    HighBitsClear(HexValue(t), 4 * |t|, PlaneBits - 1 - i);
  }

  predicate AllF(s: string) {
    forall i :: 0 <= i < |s| ==> s[i] == 'F'
  }

  /** A run of k 'F' digits is the number 2^(4k) - 1. */
  lemma {:induction false} AllFHexValue(s: string)
    requires AllF(s)
    ensures HexValue(s) == Pow2(4 * |s|) - 1
  {
    if s != [] {
      var init := s[..|s| - 1];
      AllFHexValue(init);
      Pow2Add(4, 4 * |init|);
    }
  }

  /** A run of 'F' digits renders as ones only. */
  lemma OnesPlane(s: string)
    requires AllF(s)
    ensures BitPlane(HexValue(s), 4 * |s|) == seq(4 * |s|, _ => 1.0)
  {
    var w := 4 * |s|;
    AllFHexValue(s);
    AllOnesPlane(w);
    assert HexValue(s) == Pow2(w) - 1;
  }

  /** 2^w - 1 written with w binary digits is all ones. */
  lemma AllOnesPlane(w: nat)
    ensures BitPlane(Pow2(w) - 1, w) == seq(w, _ => 1.0)
  {
    var p := BitPlane(Pow2(w) - 1, w);
    BitPlaneDigits(Pow2(w) - 1, w);
    forall i | 0 <= i < w
      ensures p[i] == 1.0
    {
      AllOnesBits(w, w - 1 - i);
    }
  }

  /** A line that starts with sixteen 'F' digits decodes to 64 ones. */
  lemma AllFDecodesToOnes(line: string)
    requires |line| >= HexChars
    requires forall i :: 0 <= i < HexChars ==> line[i] == 'F'
    ensures DecodeBitboard(line) == Some(seq(PlaneBits, _ => 1.0))
  {
    var t := LeadingChars(line);
    assert AllF(t);
    StripUnchanged(t);
    DecodeBitboardAccepts(line);
    OnesPlane(t);
  }

  // ---------------------------------------------------------------------
  // The inverse direction: writing a plane as a bitboard line

  function HexDigitChar(d: nat): (c: char)
    requires d < 16
    ensures IsHexDigit(c) && HexDigitValue(c) == d
  {
    if d < 10 then ('0' as int + d) as char else ('A' as int + d - 10) as char
  }

  /** n as exactly k hex digits, most significant first. */
  function HexString(n: nat, k: nat): (s: string)
    ensures |s| == k
    ensures forall i :: 0 <= i < |s| ==> IsHexDigit(s[i])
  {
    if k == 0 then [] else HexString(n / 16, k - 1) + [HexDigitChar(n % 16)]
  }

  lemma {:induction false} HexStringValue(n: nat, k: nat)
    requires n < Pow2(4 * k)
    ensures HexValue(HexString(n, k)) == n
  {
    if k > 0 {
      var s := HexString(n, k);
      assert s[..k - 1] == HexString(n / 16, k - 1);
      Pow2Add(4, 4 * (k - 1));
      HexStringValue(n / 16, k - 1);
    }
  }

  /** A 64-square 0/1 plane rendered as the 16 hex digits of a bitboard line. */
  function EncodeBitboard(p: seq<real>): (line: string)
    requires |p| == PlaneBits
    ensures |line| == HexChars
  {
    PlaneValueBound(p);
    HexString(PlaneValue(p), HexChars)
  }

  /** Decoding an encoded plane gives the plane back, whatever follows the
      16 digits on the line (such as the line break). */
  lemma DecodeEncode(p: seq<real>, rest: string)
    requires |p| == PlaneBits && IsBinaryPlane(p)
    ensures DecodeBitboard(EncodeBitboard(p) + rest) == Some(p)
  {
    var hex := EncodeBitboard(p);
    var line := hex + rest;
    assert LeadingChars(line) == hex;
    StripUnchanged(hex);
    DecodeBitboardAccepts(line);
    PlaneValueBound(p);
    HexStringValue(PlaneValue(p), HexChars);
    PlaneValueBits(p);
  }
}
