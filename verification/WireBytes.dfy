/** The wire format in bytes: what varints, fixed words and unknown fields look like, independent of the
    functions that read and write them. */
module WireBytes {
  import opened Octets
  import opened Wire
  import opened RecursionLimit

  // ---------------------------------------------------------------- varints

  lemma PowIsPositive(n: nat)
    ensures Pow128(n) > 0
  {
  }

  /** Dividing by 128 and then by a power is dividing by the next power. */
  lemma NextPower(v: nat, n: nat)
    ensures Pow128(n) > 0 && v / 128 / Pow128(n) == v / Pow128(n + 1)
  {
    PowIsPositive(n);
    DivideTwice(v, 128, Pow128(n));
  }

  lemma DivideTwice(v: nat, a: nat, b: nat)
    requires a > 0 && b > 0
    ensures a * b > 0 && v / a / b == v / (a * b)
  {
    var q, r := v / a / b, v / a % b;
    assert v == a * (b * q + r) + v % a;
    assert a * (b * q + r) == a * b * q + a * r;
    assert a * r + v % a < a * b by { Under(a, b, r, v % a); }
    Quotient(v, a * b, q, a * r + v % a);
  }

  lemma Under(a: nat, b: nat, r: nat, s: nat)
    requires r < b && s < a
    ensures a * r + s < a * b
  {
    assert a * (r + 1) <= a * b;
  }

  lemma Quotient(v: nat, d: nat, q: nat, r: nat)
    requires d > 0 && v == d * q + r && r < d
    ensures v / d == q
  {
    var p := v / d;
    assert v == d * p + v % d;
    if p < q {
      MultiplesGrow(d, p, q);
    } else if q < p {
      MultiplesGrow(d, q, p);
    }
  }

  lemma MultiplesGrow(d: nat, p: nat, q: nat)
    requires p < q
    ensures d * p + d <= d * q
  {
    assert d * (p + 1) <= d * q;
  }

  /** Byte `i` of a varint carries bits 7i to 7i+6 of the number, and its top bit says whether more follow;
      there are as many bytes as the number needs. */
  lemma {:induction false} VarintDigits(v: nat)
    ensures Pow128(0) == 1 && Pow128(1) == 128 && Pow128(2) == 0x4000 && forall i: nat :: Pow128(i) > 0
    ensures var s := WriteVarint(v);
      && v < Pow128(|s|) && (|s| > 1 ==> Pow128(|s| - 1) <= v)
      && forall i :: 0 <= i < |s| ==> s[i] == v / Pow128(i) % 128 + if i + 1 < |s| then 128 else 0
  {
    forall i: nat ensures Pow128(i) > 0 { PowIsPositive(i); }
    var s := WriteVarint(v);
    if v < 128 {
      assert s == [v] && v / Pow128(0) == v;
    } else {
      var t := WriteVarint(v / 128);
      VarintDigits(v / 128);
      assert s == [v % 128 + 128] + t;
      forall i | 0 <= i < |s| ensures s[i] == v / Pow128(i) % 128 + if i + 1 < |s| then 128 else 0 {
        if i == 0 {
          assert v / Pow128(0) == v;
        } else {
          assert s[i] == t[i - 1];
          NextPower(v, i - 1);
        }
      }
    }
  }

  /** Reading takes the bytes up to the first one below 128, ten at most. */
  lemma {:induction false} VarintRead(s: Bytes, k: nat, budget: nat)
    requires k < |s| && s[k] < 128 && forall i :: 0 <= i < k ==> s[i] >= 128
    ensures if k >= budget then ReadVarint(s, budget).Fail?
            else var r := ReadVarint(s, budget);
              && r.Got? && r.rest == s[k + 1..] && r.value < Pow128(k + 1)
              && forall i :: 0 <= i <= k ==> Pow128(i) > 0 && r.value / Pow128(i) % 128 == s[i] % 128
  {
    if budget > 0 {
      if k > 0 {
        var t := s[1..];
        VarintRead(t, k - 1, budget - 1);
        if k < budget {
          var v, w := ReadVarint(s, budget).value, ReadVarint(t, budget - 1).value;
          assert v == s[0] - 128 + 128 * w && v / 128 == w && v % 128 == s[0] % 128;
          assert t[k..] == s[k + 1..];
          forall i | 0 <= i <= k ensures Pow128(i) > 0 && v / Pow128(i) % 128 == s[i] % 128 {
            if i > 0 {
              NextPower(v, i - 1);
              assert s[i] == t[i - 1];
            }
          }
        }
      } else {
        assert Pow128(1) == 128 && Pow128(0) == 1;
      }
    }
  }

  /** A number is readable if and only if it ends within ten bytes. */
  lemma VarintWithinTen(s: Bytes)
    ensures ReadVarint(s).Got? <==> exists k :: 0 <= k < |s| && k < 10 && s[k] < 128
  {
    if k :| 0 <= k < |s| && s[k] < 128 {
      var j := FirstEnd(s, k);
      VarintRead(s, j, 10);
    } else {
      VarintUnread(s, 10);
    }
  }

  /** The first byte below 128. */
  lemma {:induction false} FirstEnd(s: Bytes, k: nat) returns (j: nat)
    requires k < |s| && s[k] < 128
    ensures j <= k && s[j] < 128 && forall i :: 0 <= i < j ==> s[i] >= 128
  {
    if i :| 0 <= i < k && s[i] < 128 { j := FirstEnd(s, i); } else { j := k; }
  }

  /** Without such a byte there is nothing to read. */
  lemma {:induction false} VarintUnread(s: Bytes, budget: nat)
    requires forall i :: 0 <= i < |s| ==> s[i] >= 128
    ensures ReadVarint(s, budget).Fail?
    decreases |s|
  {
    if s != [] && budget > 0 { VarintUnread(s[1..], budget - 1); }
  }

  // ------------------------------------------------------------ fixed words

  /** Fixed words stand with their least significant byte first. */
  lemma Fixed32Weights(v: nat)
    requires v < 0x1_0000_0000
    ensures var s: seq<int> := WriteFixed32(v);
      |s| == 4 && v == s[0] + 0x100 * s[1] + 0x1_0000 * s[2] + 0x100_0000 * s[3]
  {
    FourBytes(v);
  }

  lemma Fixed64Weights(v: nat)
    requires v < 0x1_0000_0000_0000_0000
    ensures var s: seq<int> := WriteFixed64(v);
      && |s| == 8
      && v == s[0] + 0x100 * s[1] + 0x1_0000 * s[2] + 0x100_0000 * s[3] + 0x1_0000_0000 * s[4]
              + 0x100_0000_0000 * s[5] + 0x1_0000_0000_0000 * s[6] + 0x100_0000_0000_0000 * s[7]
  {
    Fixed32Weights(v % TWO32);
    Fixed32Weights(v / TWO32);
  }

  /** Reading weighs any four or eight bytes so, and fails on fewer. */
  lemma FixedRead(s: Bytes)
    ensures var b: seq<int> := s;
      ReadFixed32(s) == if |s| < 4 then Fail else Got(b[0] + 0x100 * b[1] + 0x1_0000 * b[2] + 0x100_0000 * b[3], s[4..])
    ensures var b: seq<int> := s;
      ReadFixed64(s)
      == if |s| < 8 then Fail
         else Got(b[0] + 0x100 * b[1] + 0x1_0000 * b[2] + 0x100_0000 * b[3] + 0x1_0000_0000 * b[4]
                  + 0x100_0000_0000 * b[5] + 0x1_0000_0000_0000 * b[6] + 0x100_0000_0000_0000 * b[7], s[8..])
  {
    if |s| >= 8 {
      var t := s[4..];
      assert t[0] == s[4] && t[1] == s[5] && t[2] == s[6] && t[3] == s[7] && t[4..] == s[8..];
    }
  }

  // ---------------------------------------------------------------- strings

  /** A payload is as long as the low 32 bits of its prefix say, if that is an int and the bytes are there. */
  lemma StringRead(s: Bytes, v: nat, t: Bytes)
    requires ReadVarint(s) == Got(v, t)
    ensures var size := v % 0x1_0000_0000;
      ReadString(s) == if size < 0x8000_0000 && size <= |t| then Got(t[..size], t[size..]) else Fail
  {
  }

  // ---------------------------------------------------------- unknown fields

  /** The tag of an unknown field is eight times its number, plus 0 for a varint, 1 for eight bytes, 2 for a
      string, 3 for a group, which ends in a tag with 4, and 5 for four bytes. */
  lemma UnknownLayout(n: nat, v: nat, b: Bytes, us: seq<Unknown>)
    ensures WriteUnknown(UVarint(n, v)) == WriteVarint(8 * n) + WriteVarint(v)
    ensures WriteUnknown(UFixed64(n, v)) == WriteVarint(8 * n + 1) + WriteFixed64(v)
    ensures WriteUnknown(UString(n, b)) == WriteVarint(8 * n + 2) + (WriteVarint(|b|) + b)
    ensures WriteUnknown(UGroup(n, us)) == WriteVarint(8 * n + 3) + (WriteUnknowns(us) + WriteVarint(8 * n + 4))
    ensures WriteUnknown(UFixed32(n, v)) == WriteVarint(8 * n + 5) + WriteFixed32(v)
    ensures WriteUnknowns([]) == [] && WriteUnknowns([UVarint(n, v)] + us) == WriteUnknown(UVarint(n, v)) + WriteUnknowns(us)
  {
    assert ([UVarint(n, v)] + us)[1..] == us;
  }

  /** The other wire types cannot be skipped, and a group needs a unit of the budget. */
  lemma Unskippable(n: nat, s: Bytes, budget: nat)
    ensures SkipWithin(8 * n + 4, s, budget).Fail? && SkipWithin(8 * n + 6, s, budget).Fail?
    ensures SkipWithin(8 * n + 7, s, budget).Fail?
    ensures SkipWithin(8 * n + 3, s, 0).Fail?
  {
    assert WireType(8 * n + 3) == 3 && WireType(8 * n + 4) == 4 && WireType(8 * n + 6) == 6 && WireType(8 * n + 7) == 7;
    hide WireType, ReadVarint, ReadString, ReadFixed32, ReadFixed64;
  }
}
