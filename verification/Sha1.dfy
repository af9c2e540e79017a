/** SHA-1 as FIPS 180-4 defines it, and the array implementation that pads the caller's buffer in
    place, expands each block into an 80-word schedule and compresses it. */
module Sha1 {
  import opened Octets

  type Word = bv32

  // ------------------------------------------------------------- word functions

  /** Circular left shift, section 3.2 of FIPS 180-4. */
  function CircularShift(n: nat, x: Word): Word
    requires n <= 32
  {
    (x << n) | (x >> (32 - n))
  }

  /** Ch, Parity, Maj and Parity, section 4.1.1. */
  function F(t: nat, x: Word, y: Word, z: Word): Word
    requires t < 80
  {
    if t < 20 then (x & y) ^ (!x & z)
    else if t < 40 then x ^ y ^ z
    else if t < 60 then (x & y) ^ (x & z) ^ (y & z)
    else x ^ y ^ z
  }

  /** Section 4.2.1. */
  function K(t: nat): Word
    requires t < 80
  {
    if t < 20 then 0x5a82_7999 else if t < 40 then 0x6ed9_eba1 else if t < 60 then 0x8f1b_bcdc else 0xca62_c1d6
  }

  /** The implementation's rotations: mask the bits that wrap around, shift the two parts. */
  function Rotl(bits: nat, a: Word): Word
    requires 0 < bits < 32
  {
    var c := ((1 as Word) << (32 - bits)) - 1;
    var d := !c;
    ((a & c) << bits) | ((a & d) >> (32 - bits))
  }

  function Rotr(bits: nat, a: Word): Word
    requires 0 < bits < 32
  {
    var c := ((1 as Word) << bits) - 1;
    var d := !c;
    ((a & d) >> bits) | ((a & c) << (32 - bits))
  }

  lemma RotlByFew(bits: nat, a: Word)
    requires 1 <= bits < 12
    ensures Rotl(bits, a) == CircularShift(bits, a)
  {
    match bits {
      case 1 => assert Rotl(1, a) == CircularShift(1, a); case 2 => assert Rotl(2, a) == CircularShift(2, a);
      case 3 => assert Rotl(3, a) == CircularShift(3, a); case 4 => assert Rotl(4, a) == CircularShift(4, a);
      case 5 => assert Rotl(5, a) == CircularShift(5, a); case 6 => assert Rotl(6, a) == CircularShift(6, a);
      case 7 => assert Rotl(7, a) == CircularShift(7, a); case 8 => assert Rotl(8, a) == CircularShift(8, a);
      case 9 => assert Rotl(9, a) == CircularShift(9, a); case 10 => assert Rotl(10, a) == CircularShift(10, a);
      case 11 => assert Rotl(11, a) == CircularShift(11, a);
    }
  }

  lemma RotlBySome(bits: nat, a: Word)
    requires 12 <= bits < 22
    ensures Rotl(bits, a) == CircularShift(bits, a)
  {
    match bits {
      case 12 => assert Rotl(12, a) == CircularShift(12, a); case 13 => assert Rotl(13, a) == CircularShift(13, a);
      case 14 => assert Rotl(14, a) == CircularShift(14, a); case 15 => assert Rotl(15, a) == CircularShift(15, a);
      case 16 => assert Rotl(16, a) == CircularShift(16, a); case 17 => assert Rotl(17, a) == CircularShift(17, a);
      case 18 => assert Rotl(18, a) == CircularShift(18, a); case 19 => assert Rotl(19, a) == CircularShift(19, a);
      case 20 => assert Rotl(20, a) == CircularShift(20, a); case 21 => assert Rotl(21, a) == CircularShift(21, a);
    }
  }

  lemma RotlByMany(bits: nat, a: Word)
    requires 22 <= bits < 32
    ensures Rotl(bits, a) == CircularShift(bits, a)
  {
    match bits {
      case 22 => assert Rotl(22, a) == CircularShift(22, a); case 23 => assert Rotl(23, a) == CircularShift(23, a);
      case 24 => assert Rotl(24, a) == CircularShift(24, a); case 25 => assert Rotl(25, a) == CircularShift(25, a);
      case 26 => assert Rotl(26, a) == CircularShift(26, a); case 27 => assert Rotl(27, a) == CircularShift(27, a);
      case 28 => assert Rotl(28, a) == CircularShift(28, a); case 29 => assert Rotl(29, a) == CircularShift(29, a);
      case 30 => assert Rotl(30, a) == CircularShift(30, a); case 31 => assert Rotl(31, a) == CircularShift(31, a);
    }
  }

  lemma RotlIsCircularShift(bits: nat, a: Word)
    requires 0 < bits < 32
    ensures Rotl(bits, a) == CircularShift(bits, a)
  {
    hide Rotl, CircularShift;
    if bits < 12 { RotlByFew(bits, a); } else if bits < 22 { RotlBySome(bits, a); } else { RotlByMany(bits, a); }
  }

  lemma RotrByFew(bits: nat, a: Word)
    requires 1 <= bits < 12
    ensures Rotr(bits, a) == CircularShift(32 - bits, a)
  {
    match bits {
      case 1 => assert Rotr(1, a) == CircularShift(31, a); case 2 => assert Rotr(2, a) == CircularShift(30, a);
      case 3 => assert Rotr(3, a) == CircularShift(29, a); case 4 => assert Rotr(4, a) == CircularShift(28, a);
      case 5 => assert Rotr(5, a) == CircularShift(27, a); case 6 => assert Rotr(6, a) == CircularShift(26, a);
      case 7 => assert Rotr(7, a) == CircularShift(25, a); case 8 => assert Rotr(8, a) == CircularShift(24, a);
      case 9 => assert Rotr(9, a) == CircularShift(23, a); case 10 => assert Rotr(10, a) == CircularShift(22, a);
      case 11 => assert Rotr(11, a) == CircularShift(21, a);
    }
  }

  lemma RotrBySome(bits: nat, a: Word)
    requires 12 <= bits < 22
    ensures Rotr(bits, a) == CircularShift(32 - bits, a)
  {
    match bits {
      case 12 => assert Rotr(12, a) == CircularShift(20, a); case 13 => assert Rotr(13, a) == CircularShift(19, a);
      case 14 => assert Rotr(14, a) == CircularShift(18, a); case 15 => assert Rotr(15, a) == CircularShift(17, a);
      case 16 => assert Rotr(16, a) == CircularShift(16, a); case 17 => assert Rotr(17, a) == CircularShift(15, a);
      case 18 => assert Rotr(18, a) == CircularShift(14, a); case 19 => assert Rotr(19, a) == CircularShift(13, a);
      case 20 => assert Rotr(20, a) == CircularShift(12, a); case 21 => assert Rotr(21, a) == CircularShift(11, a);
    }
  }

  lemma RotrByMany(bits: nat, a: Word)
    requires 22 <= bits < 32
    ensures Rotr(bits, a) == CircularShift(32 - bits, a)
  {
    match bits {
      case 22 => assert Rotr(22, a) == CircularShift(10, a); case 23 => assert Rotr(23, a) == CircularShift(9, a);
      case 24 => assert Rotr(24, a) == CircularShift(8, a); case 25 => assert Rotr(25, a) == CircularShift(7, a);
      case 26 => assert Rotr(26, a) == CircularShift(6, a); case 27 => assert Rotr(27, a) == CircularShift(5, a);
      case 28 => assert Rotr(28, a) == CircularShift(4, a); case 29 => assert Rotr(29, a) == CircularShift(3, a);
      case 30 => assert Rotr(30, a) == CircularShift(2, a); case 31 => assert Rotr(31, a) == CircularShift(1, a);
    }
  }

  lemma RotrIsCircularShift(bits: nat, a: Word)
    requires 0 < bits < 32
    ensures Rotr(bits, a) == CircularShift(32 - bits, a)
  {
    hide Rotr, CircularShift;
    if bits < 12 { RotrByFew(bits, a); } else if bits < 22 { RotrBySome(bits, a); } else { RotrByMany(bits, a); }
  }

  // -------------------------------------------------------------- specification

  /** Addition modulo 2^32. */
  function Plus(x: Word, y: Word): Word { x + y }

  datatype State = State(a: Word, b: Word, c: Word, d: Word, e: Word)

  /** Section 5.3.1. */
  const INITIAL := State(0x6745_2301, 0xefcd_ab89, 0x98ba_dcfe, 0x1032_5476, 0xc3d2_e1f0)

  /** Word `t` of a block, most significant byte first, section 3.1. */
  function BlockWord(block: seq<Octet>, t: nat): Word
    requires |block| == 64 && t < 16
  {
    ((block[4 * t] as Word) << 24) | ((block[4 * t + 1] as Word) << 16) | ((block[4 * t + 2] as Word) << 8)
          | (block[4 * t + 3] as Word)
  }

  function Mix(a: Word, b: Word, c: Word, d: Word): Word { a ^ b ^ c ^ d }

  /** The message schedule, step 1 of section 6.1.2. */
  ghost function W(block: seq<Octet>, t: nat): Word
    requires |block| == 64 && t < 80
  {
    if t < 16 then BlockWord(block, t)
    else CircularShift(1, Mix(W(block, t - 3), W(block, t - 8), W(block, t - 14), W(block, t - 16)))
  }

  /** Step 3 of section 6.1.2, once. */
  function Round(s: State, t: nat, w: Word): State
    requires t < 80
  {
    var temp := Plus(Plus(Plus(Plus(CircularShift(5, s.a), F(t, s.b, s.c, s.d)), s.e), K(t)), w);
    State(temp, s.a, CircularShift(30, s.b), s.c, s.d)
  }

  /** One round for each word of the schedule. */
  ghost function Rounds(s: State, w: seq<Word>): State
    requires |w| <= 80
  {
    if w == [] then s else var t := |w| - 1; Round(Rounds(s, w[..t]), t, w[t])
  }

  ghost function Schedule(block: seq<Octet>): (w: seq<Word>)
    requires |block| == 64
    ensures |w| == 80
  {
    seq(80, t requires 0 <= t < 80 => W(block, t))
  }

  function Add(h: State, s: State): State {
    State(Plus(s.a, h.a), Plus(s.b, h.b), Plus(s.c, h.c), Plus(s.d, h.d), Plus(s.e, h.e))
  }

  /** Steps 2 to 4 of section 6.1.2. */
  ghost function Compress(h: State, block: seq<Octet>): State
    requires |block| == 64
  {
    Add(h, Rounds(h, Schedule(block)))
  }

  /** The blocks of a padded message, first to last. */
  ghost function Blocks(m: seq<Octet>): State
    requires |m| % 64 == 0
    decreases |m|
  {
    if m == [] then INITIAL else Compress(Blocks(m[..|m| - 64]), m[|m| - 64..])
  }

  /** The byte of a number that counts multiples of `weight`. */
  function Place(n: nat, weight: nat): Octet
    requires weight > 0
  {
    (n / weight % 0x100) as Octet
  }

  /** The 64-bit big-endian length field. */
  function LengthField(n: nat): (s: seq<Octet>)
    ensures |s| == 8
  {
    [Place(n, 0x100_0000_0000_0000), Place(n, 0x1_0000_0000_0000), Place(n, 0x100_0000_0000), Place(n, 0x1_0000_0000),
     Place(n, 0x100_0000), Place(n, 0x1_0000), Place(n, 0x100), Place(n, 1)]
  }

  function PaddedLength(n: nat): nat { (n + 8) / 64 * 64 + 64 }

  /** Section 5.1.1: a one bit, the fewest zeros that make whole blocks, the bit length. */
  function Pad(m: seq<Octet>): seq<Octet> {
    PaddedLengthIsLeast(|m|);
    m + [0x80] + Repeat(0, PaddedLength(|m|) - |m| - 9) + LengthField(8 * |m|)
  }

  function WordBytes(w: Word): (s: seq<Octet>)
    ensures |s| == 4
  {
    [((w >> 24) & 0xff) as Octet, ((w >> 16) & 0xff) as Octet, ((w >> 8) & 0xff) as Octet, (w & 0xff) as Octet]
  }

  function StateBytes(h: State): (s: seq<Octet>)
    ensures |s| == 20
  {
    WordBytes(h.a) + WordBytes(h.b) + WordBytes(h.c) + WordBytes(h.d) + WordBytes(h.e)
  }

  lemma PaddedLengthIsLeast(n: nat)
    ensures PaddedLength(n) % 64 == 0 && n + 9 <= PaddedLength(n) < n + 9 + 64
  {
  }

  /** Whole blocks, and no more of them than the message, the marker and the length need. */
  lemma PadMakesBlocks(m: seq<Octet>)
    ensures |Pad(m)| == PaddedLength(|m|) && |Pad(m)| % 64 == 0
    ensures |m| + 9 <= |Pad(m)| < |m| + 9 + 64
  {
    hide LengthField, PaddedLength, Repeat;
    PaddedLengthIsLeast(|m|);
  }

  /** The message, a byte 0x80, zeros, and the number of bits in the last eight bytes, most significant first. */
  lemma PadLayout(m: seq<Octet>)
    ensures var p, k, n := Pad(m), |Pad(m)| - 8, 8 * |m|;
      && k > |m| && p[..|m|] == m && p[|m|] == 0x80 && (forall j :: |m| < j < k ==> p[j] == 0)
      && p[k] == (n / 0x100_0000_0000_0000 % 0x100) as Octet && p[k + 1] == (n / 0x1_0000_0000_0000 % 0x100) as Octet
      && p[k + 2] == (n / 0x100_0000_0000 % 0x100) as Octet && p[k + 3] == (n / 0x1_0000_0000 % 0x100) as Octet
      && p[k + 4] == (n / 0x100_0000 % 0x100) as Octet && p[k + 5] == (n / 0x1_0000 % 0x100) as Octet
      && p[k + 6] == (n / 0x100 % 0x100) as Octet && p[k + 7] == (n % 0x100) as Octet
  {
    hide PaddedLength;
    PadMakesBlocks(m);
    assert 8 * |m| / 1 == 8 * |m|;
  }

  ghost function Hash(m: seq<Octet>): (d: seq<Octet>)
    ensures |d| == 20
  {
    PadMakesBlocks(m);
    StateBytes(Blocks(Pad(m)))
  }

  // ------------------------------------------------------------- implementation

  /** A buffer that differs from `was` by the padding between its first `n` bytes and index `p`. */
  lemma Assembled<T>(was: seq<T>, now: seq<T>, n: nat, p: nat, one: T, zeros: seq<T>, field: seq<T>)
    requires n + 1 + |zeros| + |field| == p <= |was| == |now|
    requires forall j :: 0 <= j < n || p <= j < |was| ==> now[j] == was[j]
    requires now[n] == one
    requires forall j :: 0 <= j < |zeros| ==> now[n + 1 + j] == zeros[j]
    requires forall j :: 0 <= j < |field| ==> now[p - |field| + j] == field[j]
    ensures now == was[..n] + [one] + zeros + field + was[p..]
  {
    var q := p - |field|;
    assert now[..n] == was[..n];
    assert now[n + 1..q] == zeros;
    assert now[q..p] == field;
    assert now[p..] == was[p..];
    assert now == now[..n] + [now[n]] + now[n + 1..q] + now[q..p] + now[p..];
  }

  /** A length below 2^32 leaves the upper half of its field zero. */
  lemma ShortLength(n: nat)
    requires n < 0x1_0000_0000
    ensures forall j :: 0 <= j < 4 ==> LengthField(n)[j] == 0
    ensures LengthField(n)[4] == Place(n, 0x100_0000) && LengthField(n)[5] == Place(n, 0x1_0000)
    ensures LengthField(n)[6] == Place(n, 0x100) && LengthField(n)[7] == Place(n, 1)
  {
    assert n / 0x1_0000_0000 == 0 && n / 0x100_0000_0000 == 0;
    assert n / 0x1_0000_0000_0000 == 0 && n / 0x100_0000_0000_0000 == 0;
  }

  /** The smallest number of blocks that holds a message of `n` bytes, a marker and a length. */
  method CountBlocks(messageLength: nat) returns (numBlocks: nat)
    ensures numBlocks * 64 == PaddedLength(messageLength)
  {
    var paddedLength := messageLength + 8;
    paddedLength := paddedLength + 1;
    numBlocks := paddedLength / 64;
    var blockRemainder := paddedLength % 64;
    if blockRemainder > 0 {
      numBlocks := numBlocks + 1;
    }
  }

  /** The length field: four bytes are stored over zeros. */
  method WriteLength(message: array<Octet>, end: nat, l: nat)
    requires 8 <= end <= message.Length && l < 0x1_0000_0000
    requires forall j :: end - 8 <= j < end - 4 ==> message[j] == 0
    modifies message
    ensures forall j :: 0 <= j < end - 8 || end <= j < message.Length ==> message[j] == old(message[j])
    ensures forall j :: 0 <= j < 8 ==> message[end - 8 + j] == LengthField(l)[j]
  {
    hide Place, LengthField;
    message[end - 1] := Place(l, 1);
    message[end - 2] := Place(l, 0x100);
    message[end - 3] := Place(l, 0x1_0000);
    message[end - 4] := Place(l, 0x100_0000);
    ShortLength(l);
  }

  /** Zeros from `from` to `to`. */
  method ClearBytes(message: array<Octet>, from: nat, to: nat)
    requires from <= to <= message.Length
    modifies message
    ensures forall j :: 0 <= j < from || to <= j < message.Length ==> message[j] == old(message[j])
    ensures forall j :: from <= j < to ==> message[j] == 0
  {
    for i := from to to
      invariant forall j :: 0 <= j < from || i <= j < message.Length ==> message[j] == old(message[j])
      invariant forall j :: from <= j < i ==> message[j] == 0
    {
      message[i] := 0;
    }
  }

  /** Writes the padding behind the first `messageLength` bytes of the buffer. */
  method PadInPlace(message: array<Octet>, messageLength: nat) returns (numBlocks: nat)
    requires messageLength < 0x1000_0000 && PaddedLength(messageLength) <= message.Length
    modifies message
    ensures numBlocks * 64 == PaddedLength(messageLength)
    ensures message[..] == Pad(old(message[..messageLength])) + old(message[PaddedLength(messageLength)..])
  {
    hide LengthField, PaddedLength, Place;
    PaddedLengthIsLeast(messageLength);
    ghost var was := message[..];
    numBlocks := CountBlocks(messageLength);
    var l, end := messageLength * 8, numBlocks * 64;
    ClearBytes(message, messageLength, end);
    message[messageLength] := 0x80;
    WriteLength(message, end, l);
    Assembled(was, message[..], messageLength, end, 0x80, Repeat(0, end - messageLength - 9), LengthField(l));
  }

  /** A byte with the weight of its place in a word. */
  function Weighted(weight: Word, b: Octet): Word { weight * (b as Word) }

  /** The four bytes of a word, added up with their weights. */
  lemma BlockWordIsWeighted(block: seq<Octet>, t: nat)
    requires |block| == 64 && t < 16
    ensures BlockWord(block, t)
         == Plus(Plus(Plus(Weighted(0x100_0000, block[4 * t]), Weighted(0x1_0000, block[4 * t + 1])),
                      Weighted(0x100, block[4 * t + 2])),
                 Weighted(1, block[4 * t + 3]))
  {
  }

  method PrepareSchedule(message: array<Octet>, i: nat) returns (w: array<Word>)
    requires 64 * i + 64 <= message.Length
    ensures fresh(w) && w.Length == 80
    ensures forall t :: 0 <= t < 80 ==> w[t] == W(message[64 * i..64 * i + 64], t)
  {
    hide Plus, Weighted, BlockWord, Mix, Rotl, CircularShift;
    ghost var block := message[64 * i..64 * i + 64];
    w := new Word[80];
    for t := 0 to 80
      invariant forall j :: 0 <= j < t ==> w[j] == W(block, j)
    {
      if t < 16 {
        var at := i * 64 + t * 4;
        BlockWordIsWeighted(block, t);
        w[t] := Weighted(0x100_0000, message[at]);
        w[t] := Plus(w[t], Weighted(0x1_0000, message[at + 1]));
        w[t] := Plus(w[t], Weighted(0x100, message[at + 2]));
        w[t] := Plus(w[t], Weighted(1, message[at + 3]));
      } else {
        var mixed := Mix(w[t - 3], w[t - 8], w[t - 14], w[t - 16]);
        RotlIsCircularShift(1, mixed);
        w[t] := Rotl(1, mixed);
      }
    }
  }

  /** Eighty rounds over the working variables. */
  method RunRounds(s: State, w: array<Word>) returns (r: State)
    requires w.Length == 80
    ensures r == Rounds(s, w[..])
  {
    hide Rotl, CircularShift, F, K, Plus;
    var a, b, c, d, e := s.a, s.b, s.c, s.d, s.e;
    for t := 0 to 80
      invariant State(a, b, c, d, e) == Rounds(s, w[..t])
    {
      RotlIsCircularShift(5, a);
      RotlIsCircularShift(30, b);
      assert w[..t + 1][..t] == w[..t];
      var temp := Plus(Rotl(5, a), F(t, b, c, d));
      temp := Plus(temp, e);
      temp := Plus(temp, K(t));
      temp := Plus(temp, w[t]);
      e := d;
      d := c;
      c := Rotl(30, b);
      b := a;
      a := temp;
    }
    assert w[..80] == w[..];
    r := State(a, b, c, d, e);
  }

  method WriteWord(digest: array<Octet>, at: nat, x: Word)
    requires at + 4 <= digest.Length
    modifies digest
    ensures digest[..at + 4] == old(digest[..at]) + WordBytes(x)
    ensures forall j :: at + 4 <= j < digest.Length ==> digest[j] == old(digest[j])
  {
    ghost var head, bytes := digest[..at], WordBytes(x);
    digest[at + 3] := (x & 0xff) as Octet;
    digest[at + 2] := ((x >> 8) & 0xff) as Octet;
    digest[at + 1] := ((x >> 16) & 0xff) as Octet;
    digest[at] := ((x >> 24) & 0xff) as Octet;
    assert digest[at] == bytes[0] && digest[at + 1] == bytes[1] && digest[at + 2] == bytes[2] && digest[at + 3] == bytes[3];
    hide WordBytes;
    assert digest[..at] == head;
    assert digest[..at + 4] == head + bytes;
  }

  method WriteDigest(h: State, digest: array<Octet>)
    requires 20 <= digest.Length
    modifies digest
    ensures digest[..] == StateBytes(h) + old(digest[20..])
  {
    hide WordBytes;
    ghost var tail := digest[20..];
    assert digest[..0] + WordBytes(h.a) == WordBytes(h.a);
    WriteWord(digest, 0, h.a);
    WriteWord(digest, 4, h.b);
    WriteWord(digest, 8, h.c);
    WriteWord(digest, 12, h.d);
    WriteWord(digest, 16, h.e);
    assert digest[20..] == tail;
    assert digest[..] == digest[..20] + digest[20..];
  }

  lemma ScheduleIs(block: seq<Octet>, w: seq<Word>)
    requires |block| == 64 && |w| == 80 && forall t :: 0 <= t < 80 ==> w[t] == W(block, t)
    ensures w == Schedule(block)
  {
  }

  lemma NextBlock(m: seq<Octet>, i: nat)
    requires 64 * i + 64 <= |m|
    ensures Blocks(m[..64 * i + 64]) == Add(Blocks(m[..64 * i]), Rounds(Blocks(m[..64 * i]), Schedule(m[64 * i..64 * i + 64])))
  {
    var n := m[..64 * i + 64];
    assert n[..|n| - 64] == m[..64 * i];
    assert n[|n| - 64..] == m[64 * i..64 * i + 64];
  }

  /** One turn of the loop over the blocks. */
  method ProcessBlock(message: array<Octet>, i: nat, h: State) returns (r: State)
    requires 64 * i + 64 <= message.Length && h == Blocks(message[..64 * i])
    ensures r == Blocks(message[..64 * i + 64])
  {
    hide Rounds, Add, Schedule, W, Blocks;
    ghost var m := message[..];
    var w := PrepareSchedule(message, i);
    ghost var block := m[64 * i..64 * i + 64];
    assert message[64 * i..64 * i + 64] == block && message[..64 * i] == m[..64 * i]
          && message[..64 * i + 64] == m[..64 * i + 64];
    ScheduleIs(block, w[..]);
    NextBlock(m, i);
    var s := RunRounds(h, w);
    r := Add(h, s);
  }

  method ProcessBlocks(message: array<Octet>, numBlocks: nat) returns (h: State)
    requires 64 * numBlocks <= message.Length
    ensures h == Blocks(message[..64 * numBlocks])
  {
    h := INITIAL;
    assert message[..64 * 0] == [];
    for i := 0 to numBlocks
      invariant h == Blocks(message[..64 * i])
    {
      hide Blocks;
      h := ProcessBlock(message, i, h);
    }
  }

  /** SHA-1 of the first `messageLength` bytes of a buffer that has room for the padding.  The rest of
      the buffer does not matter and is left alone. */
  method Digest(message: array<Octet>, messageLength: nat, digest: array<Octet>)
    requires messageLength < 0x1000_0000 && PaddedLength(messageLength) <= message.Length
    requires 20 <= digest.Length && digest != message
    modifies message, digest
    ensures digest[..] == Hash(old(message[..messageLength])) + old(digest[20..])
    ensures message[..] == Pad(old(message[..messageLength])) + old(message[PaddedLength(messageLength)..])
  {
    hide Pad, Blocks, PaddedLength, StateBytes;
    PaddedLengthIsLeast(messageLength);
    ghost var m := message[..messageLength];
    PadMakesBlocks(m);
    var numBlocks := PadInPlace(message, messageLength);
    assert message[..64 * numBlocks] == Pad(m);
    var h := ProcessBlocks(message, numBlocks);
    WriteDigest(h, digest);
  }
}
