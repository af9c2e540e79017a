/** Base64 as RFC 4648 section 4 defines it, the functions that the two Encode and the two Decode
    overloads compute, and the results that tie them together. */
module Base64 {
  import opened Octets

  const PAD: Octet := 61

  // ------------------------------------------------------------------ one group

  /** kBase64Alphabet: A to Z, a to z, 0 to 9, plus, slash. */
  function Alphabet(v: Octet): Octet
    requires v < 64
  {
    if v < 26 then v + 65 else if v < 52 then v + 71 else if v < 62 then v - 4 else if v == 62 then 43 else 47
  }

  /** b64_lookup. */
  function Lookup(c: Octet): Octet {
    if 65 <= c <= 90 then c - 65
    else if 97 <= c <= 122 then c - 71
    else if 48 <= c <= 57 then c + 4
    else if c == 43 then 62
    else if c == 47 then 63
    else 255
  }

  predicate IsDigit(c: Octet) { Lookup(c) < 64 }

  lemma AlphabetInverts(v: Octet, c: Octet)
    ensures v < 64 ==> Lookup(Alphabet(v)) == v && Alphabet(v) != PAD
    ensures Lookup(c) < 64 ==> Alphabet(Lookup(c)) == c
    ensures !IsDigit(PAD) && Lookup(0) == 255
  {
  }

  /** Table 1 of RFC 4648: the characters from A to Z, a to z, 0 to 9, plus and slash, by their ASCII codes. */
  lemma AlphabetIsTable()
    ensures [Alphabet(0), Alphabet(1), Alphabet(2), Alphabet(3), Alphabet(4), Alphabet(5), Alphabet(6), Alphabet(7),
             Alphabet(8), Alphabet(9), Alphabet(10), Alphabet(11), Alphabet(12), Alphabet(13), Alphabet(14), Alphabet(15),
             Alphabet(16), Alphabet(17), Alphabet(18), Alphabet(19), Alphabet(20), Alphabet(21), Alphabet(22), Alphabet(23),
             Alphabet(24), Alphabet(25), Alphabet(26), Alphabet(27), Alphabet(28), Alphabet(29), Alphabet(30), Alphabet(31),
             Alphabet(32), Alphabet(33), Alphabet(34), Alphabet(35), Alphabet(36), Alphabet(37), Alphabet(38), Alphabet(39),
             Alphabet(40), Alphabet(41), Alphabet(42), Alphabet(43), Alphabet(44), Alphabet(45), Alphabet(46), Alphabet(47),
             Alphabet(48), Alphabet(49), Alphabet(50), Alphabet(51), Alphabet(52), Alphabet(53), Alphabet(54), Alphabet(55),
             Alphabet(56), Alphabet(57), Alphabet(58), Alphabet(59), Alphabet(60), Alphabet(61), Alphabet(62), Alphabet(63)]
         == [65, 66, 67, 68, 69, 70, 71, 72, 73, 74, 75, 76, 77,
             78, 79, 80, 81, 82, 83, 84, 85, 86, 87, 88, 89, 90,
             97, 98, 99, 100, 101, 102, 103, 104, 105, 106, 107, 108, 109,
             110, 111, 112, 113, 114, 115, 116, 117, 118, 119, 120, 121, 122,
             48, 49, 50, 51, 52, 53, 54, 55, 56, 57, 43, 47]
  {
  }

  /** The four digits of three bytes, and the three bytes of four digits. */
  function Q0(a: Octet): (q: Octet)
    ensures q < 64
  {
    (a & 0xfc) >> 2
  }
  function Q1(a: Octet, b: Octet): (q: Octet)
    ensures q < 64
  {
    ((a & 0x03) << 4) + ((b & 0xf0) >> 4)
  }
  function Q2(b: Octet, c: Octet): (q: Octet)
    ensures q < 64
  {
    ((b & 0x0f) << 2) + ((c & 0xc0) >> 6)
  }
  function Q3(c: Octet): (q: Octet)
    ensures q < 64
  {
    c & 0x3f
  }

  function T0(w: Octet, x: Octet): Octet { (w << 2) + ((x & 0x30) >> 4) }
  function T1(x: Octet, y: Octet): Octet { ((x & 0x0f) << 4) + ((y & 0x3c) >> 2) }
  function T2(y: Octet, z: Octet): Octet { ((y & 0x03) << 6) + z }

  /** Packing is undone by unpacking. */
  lemma UnpackPacked(a: Octet, b: Octet, c: Octet)
    ensures T0(Q0(a), Q1(a, b)) == a && T1(Q1(a, b), Q2(b, c)) == b && T2(Q2(b, c), Q3(c)) == c
  {
  }

  /** Unpacking is undone by packing, where nothing follows only if the unused bits are zero. */
  lemma PackUnpacked(w: Octet, x: Octet, y: Octet, z: Octet)
    requires w < 64 && x < 64 && y < 64 && z < 64
    ensures Q0(T0(w, x)) == w && Q1(T0(w, x), T1(x, y)) == x && Q2(T1(x, y), T2(y, z)) == y && Q3(T2(y, z)) == z
    ensures Q1(T0(w, x), 0) == x <==> x & 15 == 0
    ensures Q2(T1(x, y), 0) == y <==> y & 3 == 0
  {
  }

  // ------------------------------------------------------------------ whole texts

  /** What a short last group is filled up with. */
  function At(s: seq<Octet>, i: nat): Octet { if i < |s| then s[i] else 0 }

  function FourDigits(a: Octet, b: Octet, c: Octet): (t: seq<Octet>)
    ensures |t| == 4
  {
    [Alphabet(Q0(a)), Alphabet(Q1(a, b)), Alphabet(Q2(b, c)), Alphabet(Q3(c))]
  }

  /** The digits of the first group, one more than it has bytes. */
  function GroupDigits(x: seq<Octet>): (t: seq<Octet>)
    requires x != []
    ensures |t| == if |x| < 3 then |x| + 1 else 4
  {
    var t := FourDigits(At(x, 0), At(x, 1), At(x, 2));
    if |x| < 3 then t[..|x| + 1] else t
  }

  function EncodeDigits(x: seq<Octet>): seq<Octet> {
    if x == [] then [] else GroupDigits(x) + if |x| > 3 then EncodeDigits(x[3..]) else []
  }

  function Pads(n: nat): (s: seq<Octet>)
    ensures |s| == n && forall i :: 0 <= i < n ==> s[i] == PAD
  {
    Repeat(PAD, n)
  }

  /** Padding that completes the last group of four. */
  function Missing(digits: nat): nat { (4 - digits % 4) % 4 }

  /** The text of `x`: its digits, and padding up to a whole group. */
  function EncodeText(x: seq<Octet>): seq<Octet> {
    var t := EncodeDigits(x);
    t + Pads(Missing(|t|))
  }

  /** The bytes of the first group, one less than it has digits. */
  function GroupBytes(t: seq<Octet>): (x: seq<Octet>)
    requires t != []
    ensures |x| == if |t| < 4 then |t| - 1 else 3
  {
    var w, x, y, z := Lookup(At(t, 0)), Lookup(At(t, 1)), Lookup(At(t, 2)), Lookup(At(t, 3));
    var b := [T0(w, x), T1(x, y), T2(y, z)];
    if |t| < 4 then b[..|t| - 1] else b
  }

  function DecodeDigits(t: seq<Octet>): seq<Octet> {
    if t == [] then [] else GroupBytes(t) + if |t| > 4 then DecodeDigits(t[4..]) else []
  }

  /** What comes before the first padding character. */
  function BeforePad(s: seq<Octet>): seq<Octet> {
    if s == [] || s[0] == PAD then [] else [s[0]] + BeforePad(s[1..])
  }

  function DecodeText(s: seq<Octet>): seq<Octet> { DecodeDigits(BeforePad(s)) }

  // --------------------------------------------------------------- the bits carried

  predicate Bit(b: Octet, weight: Octet) { b & weight != 0 }

  /** Bit `i` of a byte, the least significant one first. */
  predicate BitAt(b: Octet, i: nat) {
    if i == 0 then Bit(b, 1) else if i == 1 then Bit(b, 2) else if i == 2 then Bit(b, 4) else if i == 3 then Bit(b, 8)
    else if i == 4 then Bit(b, 16) else if i == 5 then Bit(b, 32) else if i == 6 then Bit(b, 64) else Bit(b, 128)
  }

  /** The low `n` bits, the most significant one first. */
  function LowBits(b: Octet, n: nat): (s: seq<bool>)
    ensures |s| == n
  {
    seq(n, k requires 0 <= k < n => BitAt(b, n - 1 - k))
  }

  function ByteBits(x: seq<Octet>): (s: seq<bool>)
    ensures |s| == 8 * |x|
  {
    if x == [] then [] else LowBits(x[0], 8) + ByteBits(x[1..])
  }

  function DigitBits(t: seq<Octet>): (s: seq<bool>)
    ensures |s| == 6 * |t|
  {
    if t == [] then [] else LowBits(Lookup(t[0]), 6) + DigitBits(t[1..])
  }

  function Unset(n: nat): seq<bool> { Repeat(false, n) }

  lemma DigitsShareBits(a: Octet, b: Octet, c: Octet)
    ensures Bit(Q0(a), 32) == Bit(a, 128) && Bit(Q0(a), 16) == Bit(a, 64) && Bit(Q0(a), 8) == Bit(a, 32)
    ensures Bit(Q0(a), 4) == Bit(a, 16) && Bit(Q0(a), 2) == Bit(a, 8) && Bit(Q0(a), 1) == Bit(a, 4)
    ensures Bit(Q1(a, b), 32) == Bit(a, 2) && Bit(Q1(a, b), 16) == Bit(a, 1) && Bit(Q1(a, b), 8) == Bit(b, 128)
    ensures Bit(Q1(a, b), 4) == Bit(b, 64) && Bit(Q1(a, b), 2) == Bit(b, 32) && Bit(Q1(a, b), 1) == Bit(b, 16)
    ensures Bit(Q2(b, c), 32) == Bit(b, 8) && Bit(Q2(b, c), 16) == Bit(b, 4) && Bit(Q2(b, c), 8) == Bit(b, 2)
    ensures Bit(Q2(b, c), 4) == Bit(b, 1) && Bit(Q2(b, c), 2) == Bit(c, 128) && Bit(Q2(b, c), 1) == Bit(c, 64)
    ensures Bit(Q3(c), 32) == Bit(c, 32) && Bit(Q3(c), 16) == Bit(c, 16) && Bit(Q3(c), 8) == Bit(c, 8)
    ensures Bit(Q3(c), 4) == Bit(c, 4) && Bit(Q3(c), 2) == Bit(c, 2) && Bit(Q3(c), 1) == Bit(c, 1)
  {
  }

  lemma BitsMove(a: Octet, b: Octet, c: Octet, k: nat)
    requires k < 6
    ensures BitAt(Q0(a), 5 - k) == BitAt(a, 7 - k)
    ensures BitAt(Q1(a, b), 5 - k) == if k < 2 then BitAt(a, 1 - k) else BitAt(b, 9 - k)
  {
    hide Bit, Q0, Q1;
    DigitsShareBits(a, b, c);
  }

  lemma MoreBitsMove(a: Octet, b: Octet, c: Octet, k: nat)
    requires k < 6
    ensures BitAt(Q2(b, c), 5 - k) == if k < 4 then BitAt(b, 3 - k) else BitAt(c, 11 - k)
    ensures BitAt(Q3(c), 5 - k) == BitAt(c, 5 - k)
  {
    hide Bit, Q2, Q3;
    DigitsShareBits(a, b, c);
  }

  lemma GroupBit(a: Octet, b: Octet, c: Octet, i: nat)
    requires i < 24
    ensures (LowBits(Q0(a), 6) + LowBits(Q1(a, b), 6) + LowBits(Q2(b, c), 6) + LowBits(Q3(c), 6))[i]
         == (LowBits(a, 8) + LowBits(b, 8) + LowBits(c, 8))[i]
  {
    hide BitAt, Q0, Q1, Q2, Q3;
    BitsMove(a, b, c, i % 6);
    MoreBitsMove(a, b, c, i % 6);
    if i < 6 {
    } else if i < 12 {
      assert i % 6 == i - 6;
    } else if i < 18 {
      assert i % 6 == i - 12;
    } else {
      assert i % 6 == i - 18;
    }
  }

  /** A group of 24 bits, cut into bytes and cut into digits. */
  lemma GroupBits(a: Octet, b: Octet, c: Octet)
    ensures LowBits(Q0(a), 6) + LowBits(Q1(a, b), 6) + LowBits(Q2(b, c), 6) + LowBits(Q3(c), 6)
         == LowBits(a, 8) + LowBits(b, 8) + LowBits(c, 8)
  {
    hide LowBits, Q0, Q1, Q2, Q3;
    forall i | 0 <= i < 24
      ensures (LowBits(Q0(a), 6) + LowBits(Q1(a, b), 6) + LowBits(Q2(b, c), 6) + LowBits(Q3(c), 6))[i]
           == (LowBits(a, 8) + LowBits(b, 8) + LowBits(c, 8))[i]
    {
      GroupBit(a, b, c, i);
    }
  }

  // ------------------------------------------------------------------- round trips

  lemma DigitOf(v: Octet)
    requires v < 64
    ensures IsDigit(Alphabet(v)) && Lookup(Alphabet(v)) == v
  {
    AlphabetInverts(v, 0);
  }

  lemma FourDigitsInvert(a: Octet, b: Octet, c: Octet)
    ensures var t := FourDigits(a, b, c);
      && Lookup(t[0]) == Q0(a) && Lookup(t[1]) == Q1(a, b) && Lookup(t[2]) == Q2(b, c) && Lookup(t[3]) == Q3(c)
      && IsDigit(t[0]) && IsDigit(t[1]) && IsDigit(t[2]) && IsDigit(t[3])
  {
    hide Alphabet, Lookup, IsDigit, Q0, Q1, Q2, Q3;
    DigitOf(Q0(a));
    DigitOf(Q1(a, b));
    DigitOf(Q2(b, c));
    DigitOf(Q3(c));
  }

  lemma GroupRoundTrip(x: seq<Octet>)
    requires x != []
    ensures GroupBytes(GroupDigits(x)) == if |x| < 3 then x else x[..3]
    ensures forall i :: 0 <= i < |GroupDigits(x)| ==> IsDigit(GroupDigits(x)[i])
  {
    hide Alphabet, Lookup, IsDigit, FourDigits, Q0, Q1, Q2, Q3, T0, T1, T2;
    var a, b, c := At(x, 0), At(x, 1), At(x, 2);
    FourDigitsInvert(a, b, c);
    UnpackPacked(a, b, c);
  }

  lemma {:induction false} DigitsRoundTrip(x: seq<Octet>)
    ensures DecodeDigits(EncodeDigits(x)) == x
    ensures forall i :: 0 <= i < |EncodeDigits(x)| ==> IsDigit(EncodeDigits(x)[i])
    ensures |EncodeDigits(x)| == |x| / 3 * 4 + if |x| % 3 == 0 then 0 else |x| % 3 + 1
  {
    hide Alphabet, Lookup, GroupDigits, GroupBytes;
    if x != [] {
      GroupRoundTrip(x);
      if |x| > 3 {
        DigitsRoundTrip(x[3..]);
        var t, g := EncodeDigits(x), GroupDigits(x);
        assert t[..4] == g && t[4..] == EncodeDigits(x[3..]);
        FirstGroup(t);
        assert x == x[..3] + x[3..];
      } else {
        assert EncodeDigits(x) == GroupDigits(x);
        assert DecodeDigits(GroupDigits(x)) == GroupBytes(GroupDigits(x));
      }
    }
  }

  lemma FirstGroup(t: seq<Octet>)
    requires |t| >= 4
    ensures GroupBytes(t) == GroupBytes(t[..4])
  {
  }

  lemma {:induction false} BeforePadOf(t: seq<Octet>, k: nat)
    requires PAD !in t
    ensures BeforePad(t + Pads(k)) == t
  {
    if t == [] {
      assert t + Pads(k) == Pads(k);
    } else {
      assert (t + Pads(k))[1..] == t[1..] + Pads(k);
      BeforePadOf(t[1..], k);
    }
  }

  /** The text without the padding characters that it ends in: those and nothing else are taken away,
      and none is left at the end. */
  function Stripped(s: seq<Octet>): (t: seq<Octet>)
    ensures |t| <= |s| && s == t + Pads(|s| - |t|)
    ensures t != [] ==> t[|t| - 1] != PAD
  {
    if s != [] && s[|s| - 1] == PAD then Stripped(s[..|s| - 1]) else s
  }

  /** Padding behind anything else than padding is stripped. */
  lemma {:induction false} StripsTo(t: seq<Octet>, k: nat)
    requires t != [] ==> t[|t| - 1] != PAD
    ensures Stripped(t + Pads(k)) == t
  {
    if k == 0 {
      assert t + Pads(0) == t;
    } else {
      assert (t + Pads(k))[..|t| + k - 1] == t + Pads(k - 1);
      StripsTo(t, k - 1);
    }
  }

  lemma StrippedOf(t: seq<Octet>, k: nat)
    requires PAD !in t
    ensures Stripped(t + Pads(k)) == t
  {
    assert t != [] ==> t[|t| - 1] in t;
    StripsTo(t, k);
  }

  lemma DigitsHaveNoPad(t: seq<Octet>)
    requires forall i :: 0 <= i < |t| ==> IsDigit(t[i])
    ensures PAD !in t
  {
    AlphabetInverts(0, 0);
  }

  /** Decoding undoes encoding, with the padding and without it. */
  lemma DecodeUndoesEncode(x: seq<Octet>)
    ensures DecodeText(EncodeText(x)) == x && DecodeText(Stripped(EncodeText(x))) == x
  {
    var t := EncodeDigits(x);
    DigitsRoundTrip(x);
    DigitsHaveNoPad(t);
    BeforePadOf(t, Missing(|t|));
    StrippedOf(t, Missing(|t|));
    BeforePadOf(t, 0);
    assert t + Pads(0) == t;
  }

  lemma ShortText(x: seq<Octet>)
    requires 1 <= |x| <= 3
    ensures EncodeText(x) == GroupDigits(x) + Pads(3 - |x|)
  {
    hide GroupDigits;
    assert EncodeDigits(x) == GroupDigits(x);
  }

  /** The texts of "f", "fo" and "foo", from section 10 of RFC 4648: one for each amount of padding. */
  lemma KnownTexts()
    ensures EncodeText([102]) == [90, 103, 61, 61]
    ensures EncodeText([102, 111]) == [90, 109, 56, 61]
    ensures EncodeText([102, 111, 111]) == [90, 109, 57, 118]
  {
    hide EncodeText, Alphabet;
    ShortText([102]);
    ShortText([102, 111]);
    ShortText([102, 111, 111]);
    AlphabetIsTable();
  }

  // -------------------------------------------------------------- canonical texts

  /** The bits of the last digit of a short group that no byte uses are zero. */
  predicate SpareBitsUnset(digits: nat, last: Octet) {
    (digits % 4 == 2 ==> Lookup(last) & 15 == 0) && (digits % 4 == 3 ==> Lookup(last) & 3 == 0)
  }

  predicate CanonicalDigits(t: seq<Octet>) {
    && (forall i :: 0 <= i < |t| ==> IsDigit(t[i]))
    && |t| % 4 != 1
    && (t != [] ==> SpareBitsUnset(|t|, t[|t| - 1]))
  }

  /** Section 3.5 of RFC 4648. */
  predicate Canonical(s: seq<Octet>) {
    var t := BeforePad(s);
    CanonicalDigits(t) && s == t + Pads(Missing(|t|))
  }

  lemma GroupRoundTripBack(t: seq<Octet>)
    requires 2 <= |t| <= 4 && CanonicalDigits(t)
    ensures GroupBytes(t) != [] && GroupDigits(GroupBytes(t)) == t
  {
    hide Alphabet, Lookup, Q0, Q1, Q2, Q3, T0, T1, T2;
    var w, x, y, z := Lookup(At(t, 0)), Lookup(At(t, 1)), Lookup(At(t, 2)), Lookup(At(t, 3));
    AlphabetInverts(0, t[0]);
    AlphabetInverts(0, t[1]);
    if |t| == 2 {
      PackUnpacked(w, x, 0, 0);
    } else {
      AlphabetInverts(0, t[2]);
      if |t| == 3 {
        PackUnpacked(w, x, y, 0);
      } else {
        AlphabetInverts(0, t[3]);
        PackUnpacked(w, x, y, z);
      }
    }
  }

  lemma {:induction false} DigitsRoundTripBack(t: seq<Octet>)
    requires CanonicalDigits(t)
    ensures EncodeDigits(DecodeDigits(t)) == t
  {
    hide Lookup, GroupDigits, GroupBytes;
    if t == [] {
    } else if |t| <= 4 {
      GroupRoundTripBack(t);
      assert DecodeDigits(t) == GroupBytes(t);
      assert EncodeDigits(GroupBytes(t)) == GroupDigits(GroupBytes(t));
    } else {
      var g, u := t[..4], t[4..];
      assert CanonicalDigits(g) && CanonicalDigits(u);
      FirstGroup(t);
      GroupRoundTripBack(g);
      DigitsRoundTripBack(u);
      var x := DecodeDigits(t);
      assert x[..3] == GroupBytes(g) && x[3..] == DecodeDigits(u);
      assert DecodeDigits(u) != [] by {
        assert EncodeDigits([]) == [];
      }
      SameFirstGroup(x);
      assert t == g + u;
    }
  }

  lemma GroupIsCanonical(x: seq<Octet>)
    requires 1 <= |x| <= 3
    ensures CanonicalDigits(GroupDigits(x))
  {
    hide Alphabet, Lookup, Q0, Q1, Q2, Q3;
    var a, b := At(x, 0), At(x, 1);
    GroupRoundTrip(x);
    AlphabetInverts(Q1(a, b), 0);
    AlphabetInverts(Q2(b, At(x, 2)), 0);
    UnusedBits(a, b);
  }

  lemma UnusedBits(a: Octet, b: Octet)
    ensures Q1(a, 0) & 15 == 0 && Q2(b, 0) & 3 == 0
  {
  }

  lemma SameSpareBits(digits: nat, last: Octet)
    ensures SpareBitsUnset(digits + 4, last) == SpareBitsUnset(digits, last)
  {
  }

  lemma {:induction false} EncodedDigitsAreCanonical(x: seq<Octet>)
    ensures CanonicalDigits(EncodeDigits(x))
  {
    hide GroupDigits, Lookup, IsDigit, SpareBitsUnset, DecodeDigits;
    DigitsRoundTrip(x);
    if x != [] && |x| <= 3 {
      GroupIsCanonical(x);
      assert EncodeDigits(x) == GroupDigits(x);
    } else if x != [] {
      var u := EncodeDigits(x[3..]);
      EncodedDigitsAreCanonical(x[3..]);
      DigitsRoundTrip(x[3..]);
      var t := EncodeDigits(x);
      assert t == GroupDigits(x) + u && t[|t| - 1] == u[|u| - 1];
      SameSpareBits(|u|, u[|u| - 1]);
    }
  }

  /** The canonical texts are exactly the encodings, and encoding undoes decoding on exactly those. */
  lemma CanonicalExactlyWhenEncoded(s: seq<Octet>)
    ensures Canonical(s) <==> EncodeText(DecodeText(s)) == s
  {
    if Canonical(s) {
      DigitsRoundTripBack(BeforePad(s));
    } else {
      EncodingIsCanonical(DecodeText(s));
    }
  }

  lemma EncodingIsCanonical(x: seq<Octet>)
    ensures Canonical(EncodeText(x))
  {
    var t := EncodeDigits(x);
    EncodedDigitsAreCanonical(x);
    DigitsHaveNoPad(t);
    BeforePadOf(t, Missing(|t|));
  }

  // -------------------------------------------------------------------- lengths

  function EncodedLength(length: nat): nat { (length + 2 - (length + 2) % 3) / 3 * 4 }

  lemma EncodedLengthIsExact(x: seq<Octet>)
    ensures |EncodeText(x)| == EncodedLength(|x|)
  {
    hide EncodeDigits;
    DigitsRoundTrip(x);
    GroupsWithPadding(|x| / 3, |x| % 3);
  }

  /** `3 * q + r` bytes. */
  lemma GroupsWithPadding(q: nat, r: nat)
    requires r < 3
    ensures var digits := 4 * q + if r == 0 then 0 else r + 1; digits + Missing(digits) == EncodedLength(3 * q + r)
  {
    assert (3 * q + r + 2) % 3 == (r + 2) % 3;
  }

  function TrailingPads(s: seq<Octet>): nat { |s| - |Stripped(s)| }

  /** DecodedLength, which may be negative. */
  function DecodedLength(s: seq<Octet>): int { 6 * |s| / 8 - TrailingPads(s) }

  /** Three bytes for each group of four digits, and one less than the digits of a short group. */
  function Emitted(digits: nat): nat { digits / 4 * 3 + if digits % 4 == 0 then 0 else digits % 4 - 1 }

  lemma {:induction false} DecodedCount(t: seq<Octet>)
    ensures |DecodeDigits(t)| == Emitted(|t|)
  {
    hide GroupBytes;
    if |t| > 4 {
      DecodedCount(t[4..]);
    }
  }

  /** Digits followed by padding: the computed length is the number of bytes that decoding emits if and
      only if there is at most the padding that completes a group; otherwise it is too small. */
  lemma DecodedLengthIsExactWithinAGroup(t: seq<Octet>, k: nat)
    requires PAD !in t
    ensures var s := t + Pads(k);
      && (k <= Missing(|t|) <==> |DecodeText(s)| == DecodedLength(s))
      && (k > Missing(|t|) <==> |DecodeText(s)| > DecodedLength(s))
  {
    hide DecodeDigits, Stripped;
    BeforePadOf(t, k);
    StrippedOf(t, k);
    DecodedCount(t);
    LengthsWithPadding(|t| / 4, |t| % 4, k);
  }

  /** `4 * q + r` digits and `k` padding characters. */
  lemma LengthsWithPadding(q: nat, r: nat, k: nat)
    requires r < 4
    ensures var computed, emitted := 6 * (4 * q + r + k) / 8 - k, 3 * q + if r == 0 then 0 else r - 1;
      if k <= (4 - r) % 4 then emitted == computed else emitted > computed
  {
    assert 6 * (4 * q + r + k) / 8 == 3 * q + 6 * (r + k) / 8;
  }

  /** Six bits a digit: what is emitted are the whole bytes. */
  lemma EmittedIsWholeBytes(digits: nat)
    ensures Emitted(digits) == 6 * digits / 8
  {
    var q, r := digits / 4, digits % 4;
    assert 6 * (4 * q + r) / 8 == 3 * q + 6 * r / 8;
  }

  /** For every text, `=` in the middle included: Decode finds the computed length in what it wrote, and
      returns true, exactly if the padding at the end stands for as many bytes as all that lies behind the
      first `=`, and writes past the computed length exactly if it stands for more. */
  lemma DecodedLengthIsExactWhen(s: seq<Octet>)
    ensures var m := |BeforePad(s)|;
      && (|DecodeText(s)| == DecodedLength(s) <==> 6 * |s| / 8 - 6 * m / 8 == TrailingPads(s))
      && (|DecodeText(s)| > DecodedLength(s) <==> 6 * |s| / 8 - 6 * m / 8 < TrailingPads(s))
  {
    hide DecodeDigits, BeforePad;
    DecodedCount(BeforePad(s));
    EmittedIsWholeBytes(|BeforePad(s)|);
  }

  /** A text without a digit that Decode accepts: `=B====` decodes to nothing, as computed. */
  lemma AcceptedWithoutDigits()
    ensures var s := [PAD, 66, PAD, PAD, PAD, PAD];
      Stripped(s) == [PAD, 66] && DecodeText(s) == [] && DecodedLength(s) == 0
  {
    var s: seq<Octet> := [PAD, 66, PAD, PAD, PAD, PAD];
    var t := [PAD, 66];
    StripsTo(t, 4);
    assert t + Pads(4) == s;
    assert BeforePad(s) == [];
  }

  /** Encoded texts, padded or stripped, meet what Decode asks of its input, and it returns true. */
  lemma EncodedTextsDecode(x: seq<Octet>)
    requires x != []
    ensures Stripped(EncodeText(x)) != [] && |DecodeText(EncodeText(x))| == DecodedLength(EncodeText(x))
    ensures var s := Stripped(EncodeText(x)); Stripped(s) == s && |DecodeText(s)| == DecodedLength(s)
  {
    hide DecodeText, DecodedLength, Stripped;
    var t := EncodeDigits(x);
    DigitsRoundTrip(x);
    DigitsHaveNoPad(t);
    StrippedOf(t, Missing(|t|));
    StrippedOf(t, 0);
    assert t + Pads(0) == t;
    DecodedLengthIsExactWithinAGroup(t, Missing(|t|));
    DecodedLengthIsExactWithinAGroup(t, 0);
  }

  lemma {:induction false} DigitBitsConcat(t: seq<Octet>, u: seq<Octet>)
    ensures DigitBits(t + u) == DigitBits(t) + DigitBits(u)
  {
    if t == [] {
      assert t + u == u;
    } else {
      assert (t + u)[1..] == t[1..] + u;
      DigitBitsConcat(t[1..], u);
    }
  }

  lemma {:induction false} ByteBitsConcat(x: seq<Octet>, y: seq<Octet>)
    ensures ByteBits(x + y) == ByteBits(x) + ByteBits(y)
  {
    if x == [] {
      assert x + y == y;
    } else {
      assert (x + y)[1..] == x[1..] + y;
      ByteBitsConcat(x[1..], y);
    }
  }

  lemma FourDigitsBits(a: Octet, b: Octet, c: Octet)
    ensures DigitBits(FourDigits(a, b, c)) == ByteBits([a, b, c])
  {
    hide Alphabet, Lookup, Q0, Q1, Q2, Q3, LowBits;
    AlphabetInverts(Q0(a), 0);
    AlphabetInverts(Q1(a, b), 0);
    AlphabetInverts(Q2(b, c), 0);
    AlphabetInverts(Q3(c), 0);
    GroupBits(a, b, c);
    var t := FourDigits(a, b, c);
    assert t[1..][1..] == t[2..] && t[2..][1..] == t[3..] && t[3..][1..] == [];
    assert DigitBits(t[3..]) == LowBits(Q3(c), 6);
    assert DigitBits(t[2..]) == LowBits(Q2(b, c), 6) + LowBits(Q3(c), 6);
    assert DigitBits(t) == LowBits(Q0(a), 6) + (LowBits(Q1(a, b), 6) + DigitBits(t[2..]));
    var x := [a, b, c];
    assert x[1..][1..] == x[2..] && x[2..][1..] == [];
    assert ByteBits(x[2..]) == LowBits(c, 8);
    assert ByteBits(x) == LowBits(a, 8) + (LowBits(b, 8) + LowBits(c, 8));
    Reassociate(LowBits(Q0(a), 6), LowBits(Q1(a, b), 6), LowBits(Q2(b, c), 6), LowBits(Q3(c), 6));
    Reassociate([], LowBits(a, 8), LowBits(b, 8), LowBits(c, 8));
    assert [] + LowBits(a, 8) == LowBits(a, 8);
  }

  lemma Reassociate<T>(p: seq<T>, q: seq<T>, r: seq<T>, s: seq<T>)
    ensures p + (q + (r + s)) == p + q + r + s
  {
  }

  lemma CutUnset(p: seq<bool>, n: nat, d: seq<bool>, e: seq<bool>)
    requires d + e == p + Unset(n) && |p| <= |d|
    ensures d == p + Unset(|d| - |p|)
  {
    assert d == (p + Unset(n))[..|d|];
  }

  lemma CutGroupBits(x: seq<Octet>, z: seq<Octet>, full: seq<Octet>, n: nat)
    requires |x| + |z| == 3 && |full| == 4 && n <= 4 && 8 * |x| <= 6 * n
    requires forall i :: 0 <= i < |z| ==> z[i] == 0
    requires DigitBits(full) == ByteBits(x + z)
    ensures DigitBits(full[..n]) == ByteBits(x) + Unset(6 * n - 8 * |x|)
  {
    hide DigitBits, ByteBits;
    assert full == full[..n] + full[n..];
    DigitBitsConcat(full[..n], full[n..]);
    ByteBitsConcat(x, z);
    ZeroBits(z);
    CutUnset(ByteBits(x), 8 * |z|, DigitBits(full[..n]), DigitBits(full[n..]));
  }

  lemma ShortGroupBits(x: seq<Octet>)
    requires 1 <= |x| <= 3
    ensures DigitBits(GroupDigits(x)) == ByteBits(x) + Unset(6 * |GroupDigits(x)| - 8 * |x|)
  {
    hide FourDigits, DigitBits, ByteBits;
    var a, b, c := At(x, 0), At(x, 1), At(x, 2);
    var full, z := FourDigits(a, b, c), [a, b, c][|x|..];
    FourDigitsBits(a, b, c);
    assert x + z == [a, b, c];
    CutGroupBits(x, z, full, |GroupDigits(x)|);
    assert GroupDigits(x) == full[..|GroupDigits(x)|];
  }

  lemma {:induction false} ZeroBits(y: seq<Octet>)
    requires forall i :: 0 <= i < |y| ==> y[i] == 0
    ensures ByteBits(y) == Unset(8 * |y|)
  {
    if y != [] {
      assert LowBits(0, 8) == Unset(8);
      ZeroBits(y[1..]);
    }
  }

  /** The digits spell the bits of the bytes, most significant bit first, and fewer than six unset bits. */
  lemma {:induction false} EncodeCarriesBits(x: seq<Octet>)
    ensures 0 <= 6 * |EncodeDigits(x)| - 8 * |x| < 6
    ensures DigitBits(EncodeDigits(x)) == ByteBits(x) + Unset(6 * |EncodeDigits(x)| - 8 * |x|)
  {
    hide GroupDigits, LowBits, Lookup, DecodeDigits;
    DigitsRoundTrip(x);
    if x != [] && |x| <= 3 {
      assert EncodeDigits(x) == GroupDigits(x);
      ShortGroupBits(x);
    } else if x != [] {
      var y, z := x[..3], x[3..];
      assert x == y + z;
      SameFirstGroup(x);
      ShortGroupBits(y);
      EncodeCarriesBits(z);
      DigitBitsConcat(GroupDigits(y), EncodeDigits(z));
      ByteBitsConcat(y, z);
      assert ByteBits(y) + Unset(0) == ByteBits(y);
    }
  }

  lemma SameFirstGroup(x: seq<Octet>)
    requires |x| >= 3
    ensures GroupDigits(x) == GroupDigits(x[..3])
  {
  }
}
