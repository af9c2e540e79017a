/** SHA-1 and HMAC-SHA-1 on the examples of their standards: "abc" from FIPS 180-2, appendix A.1, and case 2 of
    RFC 2202. */
module KnownAnswers {
  import opened Octets
  import opened Sha1
  import opened Hmac
  import opened Sha1Rounds
  import opened Sha1Traces

  // ------------------------------------------------------------------------------- bytes

  /** The last block of a short message, or of what stands behind whole blocks. */
  lemma LastBlock(m: seq<Octet>, from: nat)
    requires from % 64 == 0 && from <= |m| <= from + 55 && |m| < 8192
    ensures Pad(m) == m + [0x80] + Repeat(0, 61 - (|m| - from)) + [Place(8 * |m|, 0x100), Place(8 * |m|, 1)]
  {
    var n, zeros := 8 * |m|, 61 - (|m| - from);
    assert PaddedLength(|m|) == from + 64;
    assert n / 0x1_0000 == 0 && n / 0x100_0000 == 0;
    ShortLength(n);
    hide Place;
    assert LengthField(n) == Repeat(0, 6) + [Place(n, 0x100), Place(n, 1)];
    assert Repeat<Octet>(0, zeros) == Repeat(0, zeros - 6) + Repeat(0, 6);
  }

  /** A word from its bytes. */
  lemma WordOf(block: seq<Octet>, i: nat, a: Octet, b: Octet, c: Octet, d: Octet)
    requires |block| == 64 && i < 16
    requires block[4 * i] == a && block[4 * i + 1] == b && block[4 * i + 2] == c && block[4 * i + 3] == d
    ensures BlockWord(block, i) == ((a as Word) << 24) | ((b as Word) << 16) | ((c as Word) << 8) | (d as Word)
  {
  }

  const ABC: seq<Octet> := [0x61, 0x62, 0x63]

  lemma AbcBlock()
    ensures Holds(Pad(ABC), ABC_0.x)
  {
    hide BlockWord, Pad;
    LastBlock(ABC, 0);
    var b := Pad(ABC);
    assert b == ABC + [0x80] + Repeat(0, 58) + [0, 24];
    WordOf(b, 0, 0x61, 0x62, 0x63, 0x80);
    WordOf(b, 15, 0, 0, 0, 24);
    forall i | 1 <= i < 15 ensures BlockWord(b, i) == 0 { WordOf(b, i, 0, 0, 0, 0); }
    forall i | 0 <= i < 16 ensures BlockWord(b, i) == ABC_0.x.At(i) {}
  }

  lemma OneBlock(m: seq<Octet>)
    requires |Pad(m)| == 64
    ensures Hash(m) == StateBytes(Compress(INITIAL, Pad(m)))
  {
    hide Pad, Compress, StateBytes;
    PadMakesBlocks(m);
    var b := Pad(m);
    assert b[..0] == [] && b[0..] == b && Blocks([]) == INITIAL;
  }

  lemma TwoBlocks(m: seq<Octet>)
    requires |Pad(m)| == 128
    ensures Hash(m) == StateBytes(Compress(Compress(INITIAL, Pad(m)[..64]), Pad(m)[64..]))
  {
    hide Pad, Compress, StateBytes;
    PadMakesBlocks(m);
    var b := Pad(m);
    assert b[..64][..0] == [] && b[..64][0..] == b[..64] && Blocks([]) == INITIAL;
    assert Blocks(b[..64]) == Compress(INITIAL, b[..64]);
  }

  lemma BytesOf(w: Word, a: Octet, b: Octet, c: Octet, d: Octet)
    requires w == ((a as Word) << 24) | ((b as Word) << 16) | ((c as Word) << 8) | (d as Word)
    ensures WordBytes(w) == [a, b, c, d]
  {
  }

  /** Appendix A.1 of FIPS 180-2. */
  lemma HashOfAbc()
    ensures Hash([0x61, 0x62, 0x63])
         == [0xa9, 0x99, 0x3e, 0x36, 0x47, 0x06, 0x81, 0x6a, 0xba, 0x3e,
            0x25, 0x71, 0x78, 0x50, 0xc2, 0x6c, 0x9c, 0xd0, 0xd8, 0x9d]
  {
    hide Pad, Hash, Compress, BlockWord, WordBytes;
    AbcBlock();
    OneBlock(ABC);
    AbcCompresses(Pad(ABC));
    BytesOf(0xa999_3e36, 0xa9, 0x99, 0x3e, 0x36);
    BytesOf(0x4706_816a, 0x47, 0x06, 0x81, 0x6a);
    BytesOf(0xba3e_2571, 0xba, 0x3e, 0x25, 0x71);
    BytesOf(0x7850_c26c, 0x78, 0x50, 0xc2, 0x6c);
    BytesOf(0x9cd0_d89d, 0x9c, 0xd0, 0xd8, 0x9d);
  }

  // ------------------------------------------------------------------------- RFC 2202

  /** "Jefe", and "what do ya want for nothing?". */
  const KEY: seq<Octet> := [0x4a, 0x65, 0x66, 0x65]
  const TEXT: seq<Octet> :=
    [0x77, 0x68, 0x61, 0x74] + [0x20, 0x64, 0x6f, 0x20] + [0x79, 0x61, 0x20, 0x77] + [0x61, 0x6e, 0x74, 0x20]
    + [0x66, 0x6f, 0x72, 0x20] + [0x6e, 0x6f, 0x74, 0x68] + [0x69, 0x6e, 0x67, 0x3f]

  const INNER_HASH: seq<Octet> :=
    [0x98, 0x85, 0x12, 0x44] + [0x3a, 0xf9, 0x1c, 0x57] + [0xa3, 0x8c, 0xe2, 0xdc] + [0x8e, 0xc3, 0x87, 0x96]
    + [0x6c, 0x08, 0xde, 0xc4]

  lemma InnerBlock()
    ensures Holds(Xor(BlockKey(KEY), 0x36), INNER_0.x)
  {
    hide BlockWord;
    var b := Xor(BlockKey(KEY), 0x36);
    WordOf(b, 0, 0x7c, 0x53, 0x50, 0x53);
    forall i | 1 <= i < 16 ensures BlockWord(b, i) == 0x3636_3636 { WordOf(b, i, 0x36, 0x36, 0x36, 0x36); }
    forall i | 0 <= i < 16 ensures BlockWord(b, i) == INNER_0.x.At(i) {}
  }

  lemma OuterBlock()
    ensures Holds(Xor(BlockKey(KEY), 0x5c), OUTER_0.x)
  {
    hide BlockWord;
    var b := Xor(BlockKey(KEY), 0x5c);
    WordOf(b, 0, 0x16, 0x39, 0x3a, 0x39);
    forall i | 1 <= i < 16 ensures BlockWord(b, i) == 0x5c5c_5c5c { WordOf(b, i, 0x5c, 0x5c, 0x5c, 0x5c); }
    forall i | 0 <= i < 16 ensures BlockWord(b, i) == OUTER_0.x.At(i) {}
  }

  /** Four bytes as a word. */
  function Quad(s: seq<Octet>, i: nat): Word
    requires 4 * i + 4 <= |s|
  {
    ((s[4 * i] as Word) << 24) | ((s[4 * i + 1] as Word) << 16) | ((s[4 * i + 2] as Word) << 8) | (s[4 * i + 3] as Word)
  }

  /** The last block of a message of one block and `k` words more. */
  lemma TailBlock(head: seq<Octet>, t: seq<Octet>, k: nat, low: Octet, x: Window)
    requires |head| == 64 && |t| == 4 * k && k < 14 && Place(512 + 32 * k, 0x100) == 2 && Place(512 + 32 * k, 1) == low
    requires forall i :: 0 <= i < k ==> Quad(t, i) == x.At(i)
    requires x.At(k) == 0x8000_0000 && (forall i :: k < i < 15 ==> x.At(i) == 0) && x.At(15) == 0x200 | (low as Word)
    ensures |Pad(head + t)| == 128 && Pad(head + t)[..64] == head && Holds(Pad(head + t)[64..], x)
  {
    hide BlockWord, Pad, Quad, Place, Window.At;
    var m := head + t;
    LastBlock(m, 64);
    var b := Pad(m)[64..];
    assert Pad(m)[..64] == head && b == t + [0x80] + Repeat(0, 61 - 4 * k) + [2, low];
    forall i | 0 <= i < 16 ensures BlockWord(b, i) == x.At(i) {
      if i < k {
        QuadIs(t, i);
        WordOf(b, i, t[4 * i], t[4 * i + 1], t[4 * i + 2], t[4 * i + 3]);
      } else if i == k {
        WordOf(b, i, 0x80, 0, 0, 0);
      } else if i < 15 {
        WordOf(b, i, 0, 0, 0, 0);
      } else {
        WordOf(b, i, 0, 0, 2, low);
      }
    }
  }

  lemma QuadIs(s: seq<Octet>, i: nat)
    requires 4 * i + 4 <= |s|
    ensures Quad(s, i)
         == ((s[4 * i] as Word) << 24) | ((s[4 * i + 1] as Word) << 16) | ((s[4 * i + 2] as Word) << 8) | (s[4 * i + 3] as Word)
  {
  }

  lemma TextWords()
    ensures Quad(TEXT, 0) == 0x7768_6174 && Quad(TEXT, 1) == 0x2064_6f20 && Quad(TEXT, 2) == 0x7961_2077
    ensures Quad(TEXT, 3) == 0x616e_7420
  {
  }

  lemma MoreTextWords()
    ensures Quad(TEXT, 4) == 0x666f_7220 && Quad(TEXT, 5) == 0x6e6f_7468 && Quad(TEXT, 6) == 0x696e_673f
  {
  }

  lemma TextBlock(head: seq<Octet>)
    requires |head| == 64
    ensures |Pad(head + TEXT)| == 128 && Pad(head + TEXT)[..64] == head && Holds(Pad(head + TEXT)[64..], TEXT_0.x)
  {
    hide Quad, Pad, Holds;
    TextWords();
    MoreTextWords();
    TailBlock(head, TEXT, 7, 0xe0, TEXT_0.x);
  }

  lemma MacBlock(head: seq<Octet>)
    requires |head| == 64
    ensures |Pad(head + INNER_HASH)| == 128 && Pad(head + INNER_HASH)[..64] == head
    ensures Holds(Pad(head + INNER_HASH)[64..], MAC_0.x)
  {
    assert Quad(INNER_HASH, 0) == 0x9885_1244;
    assert Quad(INNER_HASH, 1) == 0x3af9_1c57;
    assert Quad(INNER_HASH, 2) == 0xa38c_e2dc;
    assert Quad(INNER_HASH, 3) == 0x8ec3_8796;
    assert Quad(INNER_HASH, 4) == 0x6c08_dec4;
    hide Quad, Pad, Holds;
    TailBlock(head, INNER_HASH, 5, 0xa0, MAC_0.x);
  }

  lemma InnerHash()
    ensures Hash(Xor(BlockKey(KEY), 0x36) + TEXT) == INNER_HASH
  {
    hide Pad, Hash, Compress, Holds, WordBytes, Xor, BlockKey;
    var block := Xor(BlockKey(KEY), 0x36);
    InnerBlock();
    TextBlock(block);
    TwoBlocks(block + TEXT);
    InnerCompresses(block);
    TextCompresses(Pad(block + TEXT)[64..]);
    BytesOf(0x9885_1244, 0x98, 0x85, 0x12, 0x44);
    BytesOf(0x3af9_1c57, 0x3a, 0xf9, 0x1c, 0x57);
    BytesOf(0xa38c_e2dc, 0xa3, 0x8c, 0xe2, 0xdc);
    BytesOf(0x8ec3_8796, 0x8e, 0xc3, 0x87, 0x96);
    BytesOf(0x6c08_dec4, 0x6c, 0x08, 0xde, 0xc4);
  }

  /** Case 2 of RFC 2202. */
  lemma MacOfJefe()
    ensures Mac(KEY, TEXT)
         == [0xef, 0xfc, 0xdf, 0x6a, 0xe5, 0xeb, 0x2f, 0xa2, 0xd2, 0x74,
             0x16, 0xd5, 0xf1, 0x84, 0xdf, 0x9c, 0x25, 0x9a, 0x7c, 0x79]
  {
    hide Pad, Hash, Compress, Holds, WordBytes, Xor, BlockKey;
    var block := Xor(BlockKey(KEY), 0x5c);
    InnerHash();
    OuterBlock();
    MacBlock(block);
    TwoBlocks(block + INNER_HASH);
    OuterCompresses(block);
    MacCompresses(Pad(block + INNER_HASH)[64..]);
    BytesOf(0xeffc_df6a, 0xef, 0xfc, 0xdf, 0x6a);
    BytesOf(0xe5eb_2fa2, 0xe5, 0xeb, 0x2f, 0xa2);
    BytesOf(0xd274_16d5, 0xd2, 0x74, 0x16, 0xd5);
    BytesOf(0xf184_df9c, 0xf1, 0x84, 0xdf, 0x9c);
    BytesOf(0x259a_7c79, 0x25, 0x9a, 0x7c, 0x79);
  }
}
