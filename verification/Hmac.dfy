/** HMAC-SHA-1 as FIPS 198-1 section 4 and RFC 2104 section 2 define it, and the implementation over
    fixed scratch arrays in which both nested hashes pad in place. */
module Hmac {
  import opened Octets
  import opened Sha1

  const MAX_MESSAGE_LENGTH: nat := 4096
  const BLOCK_SIZE: nat := 64

  // -------------------------------------------------------------- specification

  /** Steps 1 to 3: a long key is hashed, then zeros fill the block. */
  ghost function BlockKey(key: seq<Octet>): (k0: seq<Octet>)
    ensures |k0| == 64
  {
    var k := if |key| > 64 then Hash(key) else key;
    k + Repeat(0, 64 - |k|)
  }

  function Mask(x: Octet, pad: Octet): Octet { x ^ pad }

  function Xor(k0: seq<Octet>, pad: Octet): (r: seq<Octet>)
    ensures |r| == |k0|
  {
    seq(|k0|, i requires 0 <= i < |k0| => Mask(k0[i], pad))
  }

  /** Steps 4 to 9: H((K0 xor opad) || H((K0 xor ipad) || text)). */
  ghost function Mac(key: seq<Octet>, text: seq<Octet>): (mac: seq<Octet>)
    ensures |mac| == 20
  {
    var k0 := BlockKey(key);
    Hash(Xor(k0, 0x5c) + Hash(Xor(k0, 0x36) + text))
  }

  /** A key longer than a block stands for its hash. */
  lemma LongKeyIsItsHash(key: seq<Octet>, text: seq<Octet>)
    requires |key| > 64
    ensures Mac(key, text) == Mac(Hash(key), text)
  {
  }

  /** Zeros behind a key that stays within a block change nothing. */
  lemma ZeroExtendedKey(key: seq<Octet>, n: nat, text: seq<Octet>)
    requires |key| + n <= 64
    ensures Mac(key + Repeat(0, n), text) == Mac(key, text)
  {
    assert BlockKey(key + Repeat(0, n)) == BlockKey(key);
  }

  /** The scratch array of the inner hash has room for the block, the text and the padding up to 55
      bytes beyond the documented limit, and no further. */
  lemma ScratchFits(dataLength: nat)
    ensures MAX_MESSAGE_LENGTH + 128 == 4224 && (PaddedLength(64 + dataLength) <= 4224 <==> dataLength <= 4151)
    ensures PaddedLength(64 + 20) <= 64 + 128
  {
  }

  // ------------------------------------------------------------- implementation

  /** Steps 1 to 3.  A long key is hashed through `digest`, and is padded where it stands. */
  method DeriveBlockKey(key: array<Octet>, keyLength: nat, digest: array<Octet>) returns (k0: array<Octet>)
    requires keyLength <= key.Length && 20 <= digest.Length && digest != key
    requires keyLength > 64 ==> keyLength < 0x1000_0000 && PaddedLength(keyLength) <= key.Length
    modifies key, digest
    ensures fresh(k0) && k0[..] == BlockKey(old(key[..keyLength]))
    ensures digest[20..] == old(digest[20..])
    ensures key[..] == if keyLength > 64 then Pad(old(key[..keyLength])) + old(key[PaddedLength(keyLength)..]) else old(key[..])
  {
    k0 := new Octet[64];
    for i := 0 to 64
      invariant forall j :: 0 <= j < i ==> k0[j] == 0
      invariant key[..] == old(key[..]) && digest[..] == old(digest[..])
    {
      k0[i] := 0;
    }
    if keyLength != BLOCK_SIZE {
      if keyLength > BLOCK_SIZE {
        Digest(key, keyLength, digest);
        Copy(digest, 20, k0, 0);
      } else if keyLength < BLOCK_SIZE {
        Copy(key, keyLength, k0, 0);
      }
    } else {
      Copy(key, BLOCK_SIZE, k0, 0);
    }
  }

  /** The copying loops: `n` bytes of `from` to index `at` of `to`. */
  method Copy(from: array<Octet>, n: nat, to: array<Octet>, at: nat)
    requires n <= from.Length && at + n <= to.Length && from != to
    modifies to
    ensures to[at..at + n] == from[..n]
    ensures forall j :: 0 <= j < at || at + n <= j < to.Length ==> to[j] == old(to[j])
  {
    for i := 0 to n
      invariant forall j :: 0 <= j < i ==> to[at + j] == from[j]
      invariant forall j :: 0 <= j < at || at + n <= j < to.Length ==> to[j] == old(to[j])
    {
      to[i + at] := from[i];
    }
  }

  method XorArray(k0: array<Octet>, pad: Octet) returns (r: array<Octet>)
    requires k0.Length == 64
    ensures fresh(r) && r[..] == Xor(k0[..], pad)
  {
    hide Mask;
    r := new Octet[64];
    for i := 0 to 64
      invariant forall j :: 0 <= j < i ==> r[j] == Mask(k0[j], pad)
    {
      r[i] := Mask(k0[i], pad);
    }
  }

  lemma PaddedKeepsPrefix(m: seq<Octet>, buffer: seq<Octet>, rest: seq<Octet>)
    requires buffer == Pad(m) + rest
    ensures |buffer| >= |m| && buffer[..|m|] == m
  {
    PadMakesBlocks(m);
  }

  /** One nested hash: a block, then the first `n` bytes of `tail`, in a scratch array of `room` bytes. */
  method HashBlockAnd(block: array<Octet>, tail: array<Octet>, n: nat, room: nat, digest: array<Octet>)
    requires block.Length == 64 && n <= tail.Length && PaddedLength(64 + n) <= room && n < 0x100_0000
    requires 20 <= digest.Length && digest != block
    modifies digest
    ensures digest[..] == Hash(old(block[..] + tail[..n])) + old(digest[20..])
  {
    hide Pad, Hash;
    ghost var m := block[..] + tail[..n];
    var scratch := new Octet[room](_ => 0);
    Copy(block, 64, scratch, 0);
    Copy(tail, n, scratch, 64);
    assert scratch[..64 + n] == m by {
      assert scratch[..64] == block[..];
      assert scratch[..64 + n] == scratch[..64] + scratch[64..64 + n];
    }
    Digest(scratch, 64 + n, digest);
  }

  /** The message authentication code of the first `dataLength` bytes of `data` under the first
      `keyLength` bytes of `key`.  `digest` also carries the intermediate hashes. */
  method HmacSha1(key: array<Octet>, keyLength: nat, data: array<Octet>, dataLength: nat, digest: array<Octet>)
    requires keyLength <= key.Length && dataLength <= data.Length
    requires keyLength > 64 ==> keyLength < 0x1000_0000 && PaddedLength(keyLength) <= key.Length
    requires dataLength <= 4151
    requires 20 <= digest.Length && digest != key && digest != data
    requires keyLength <= 64 || key != data || dataLength <= keyLength
    modifies key, digest
    ensures digest[..] == Mac(old(key[..keyLength]), old(data[..dataLength])) + old(digest[20..])
    ensures key[..] == if keyLength > 64 then Pad(old(key[..keyLength])) + old(key[PaddedLength(keyLength)..]) else old(key[..])
  {
    hide Pad, Hash, BlockKey;
    ghost var k, text, tail := key[..keyLength], data[..dataLength], digest[20..];
    var k0 := DeriveBlockKey(key, keyLength, digest);
    if keyLength > 64 {
      PaddedKeepsPrefix(k, key[..], old(key[PaddedLength(keyLength)..]));
    }
    assert data[..dataLength] == text;
    ScratchFits(dataLength);
    var k0xorIpad := XorArray(k0, 0x36);
    HashBlockAnd(k0xorIpad, data, dataLength, MAX_MESSAGE_LENGTH + 128, digest);
    var step7data := XorArray(k0, 0x5c);
    assert digest[..20] == Hash(Xor(BlockKey(k), 0x36) + text);
    HashBlockAnd(step7data, digest, 20, 64 + 128, digest);
  }
}
