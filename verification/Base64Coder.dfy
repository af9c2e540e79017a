/** The Encode and Decode loops: a carry buffer of three or four characters, a cursor into an output
    whose length was computed beforehand, and a result that compares the two. */
module Base64Coder {
  import opened Octets
  import opened Base64

  const INT_MAX: nat := 0x7fff_ffff

  /** std::string::resize. */
  function Resize(s: seq<Octet>, n: nat): (r: seq<Octet>)
    ensures |r| == n
  {
    if n <= |s| then s[..n] else s + seq(n - |s|, _ => 0)
  }

  // ------------------------------------------------------------------- encoding

  lemma {:induction false} EncodeAppend(y: seq<Octet>, g: seq<Octet>)
    requires |y| % 3 == 0 && 1 <= |g| <= 3
    ensures EncodeDigits(y + g) == EncodeDigits(y) + GroupDigits(g)
  {
    hide GroupDigits;
    if y == [] {
      assert y + g == g;
    } else {
      var z := y + g;
      assert z[3..] == y[3..] + g && z[..3] == y[..3];
      SameFirstGroup(z);
      SameFirstGroup(y);
      EncodeAppend(y[3..], g);
      if |y| == 3 {
        assert y[3..] == [];
      }
      assert GroupDigits(y) + (EncodeDigits(y[3..]) + GroupDigits(g)) == GroupDigits(y) + EncodeDigits(y[3..]) + GroupDigits(g);
    }
  }

  lemma NoDigits()
    ensures EncodeDigits([]) == [] && DecodeDigits([]) == []
  {
  }

  /** There is room for the digits of the next group, and for its padding. */
  lemma RoomForGroup(groups: nat, i: nat, length: nat)
    requires 1 <= i <= 3 && 3 * groups + i <= length && (i < 3 ==> 3 * groups + i == length)
    ensures 4 * groups + 4 <= EncodedLength(length) && (i < 3 ==> 4 * groups + 4 == EncodedLength(length))
  {
  }

  method A3ToA4(a4: array<Octet>, a3: array<Octet>)
    requires a4.Length == 4 && a3.Length == 3 && a3 != a4
    modifies a4
    ensures a4[0] == Q0(a3[0]) && a4[1] == Q1(a3[0], a3[1]) && a4[2] == Q2(a3[1], a3[2]) && a4[3] == Q3(a3[2])
  {
    a4[0] := Q0(a3[0]);
    a4[1] := Q1(a3[0], a3[1]);
    a4[2] := Q2(a3[1], a3[2]);
    a4[3] := Q3(a3[2]);
  }

  lemma DigitsOfFour(a: Octet, b: Octet, c: Octet)
    ensures var t := FourDigits(a, b, c);
      && Q0(a) < 64 && Q1(a, b) < 64 && Q2(b, c) < 64 && Q3(c) < 64
      && t[0] == Alphabet(Q0(a)) && t[1] == Alphabet(Q1(a, b)) && t[2] == Alphabet(Q2(b, c)) && t[3] == Alphabet(Q3(c))
  {
  }

  /** The digits of the bytes in the carry buffer, as many as asked for. */
  method PackGroup(a3: array<Octet>, a4: array<Octet>, i: nat, ghost g: seq<Octet>)
    requires a3.Length == 3 && a4.Length == 4 && a3 != a4 && 1 <= i <= 3 && g == a3[..i]
    requires forall j :: i <= j < 3 ==> a3[j] == 0
    modifies a4
    ensures forall j :: 0 <= j < i + 1 ==> a4[j] < 64 && Alphabet(a4[j]) == GroupDigits(g)[j]
  {
    hide Alphabet, Q0, Q1, Q2, Q3, FourDigits;
    ghost var t := FourDigits(a3[0], a3[1], a3[2]);
    assert At(g, 0) == a3[0] && At(g, 1) == a3[1] && At(g, 2) == a3[2];
    assert GroupDigits(g) == t[..i + 1];
    DigitsOfFour(a3[0], a3[1], a3[2]);
    A3ToA4(a4, a3);
  }

  /** The loop that writes `n` digits at the cursor of the output. */
  method WriteDigits(out: seq<Octet>, at: nat, a4: array<Octet>, n: nat, ghost digits: seq<Octet>)
    returns (r: seq<Octet>, end: nat)
    requires n <= 4 == a4.Length && at + n <= |out| && |digits| == n
    requires forall j :: 0 <= j < n ==> a4[j] < 64 && Alphabet(a4[j]) == digits[j]
    ensures |r| == |out| && end == at + n && r[..end] == out[..at] + digits
  {
    hide Alphabet;
    r, end := out, at;
    for j := 0 to n
      invariant |r| == |out| && end == at + j && r[..end] == out[..at] + digits[..j]
    {
      r := r[end := Alphabet(a4[j])];
      end := end + 1;
    }
    assert digits[..n] == digits;
  }

  /** Zeros behind what a carry buffer holds. */
  method ZeroFill(a: array<Octet>, carried: nat)
    requires carried <= a.Length
    modifies a
    ensures a[..carried] == old(a[..carried]) && forall k :: carried <= k < a.Length ==> a[k] == 0
  {
    for j := carried to a.Length
      invariant a[..carried] == old(a[..carried]) && forall k :: carried <= k < j ==> a[k] == 0
    {
      a[j] := 0;
    }
  }

  /** The end of the text: zeros fill the carry buffer, its digits are written, then padding. */
  method FinishText(out: seq<Octet>, at: nat, a3: array<Octet>, a4: array<Octet>, carried: nat, ghost y: seq<Octet>,
          ghost g: seq<Octet>)
    returns (r: seq<Octet>, end: nat)
    requires a3.Length == 3 && a4.Length == 4 && a3 != a4 && carried < 3 && g == a3[..carried]
    requires |y| % 3 == 0 && |out| == EncodedLength(|y + g|)
    requires at <= |out| && out[..at] == EncodeDigits(y)
    modifies a3, a4
    ensures r == EncodeText(y + g) && end == |r|
  {
    hide Alphabet, GroupDigits, EncodeDigits, EncodedLength, EncodeText;
    var i := carried;
    r, end := out, at;
    DigitsRoundTrip(y);
    if i > 0 {
      ZeroFill(a3, i);
      RoomForGroup(|y| / 3, i, |y + g|);
      PackGroup(a3, a4, i, g);
      EncodeAppend(y, g);
      r, end := WriteDigits(r, end, a4, i + 1, GroupDigits(g));
      ghost var t := EncodeDigits(y + g);
      while i < 3
        invariant i <= 3 && |r| == |out| && end == |out| - (3 - i) && |t| <= end
        invariant r[..|t|] == t && forall k :: |t| <= k < end ==> r[k] == PAD
      {
        r := r[end := PAD];
        end, i := end + 1, i + 1;
      }
    } else {
      assert y + g == y;
      GroupsWithPadding(|y| / 3, 0);
    }
    PaddedText(y + g, r);
  }

  /** Encode into a string.  Whatever the string held before is replaced. */
  method EncodeString(input: seq<Octet>, before: seq<Octet>) returns (ok: bool, out: seq<Octet>)
    requires EncodedLength(|input|) <= INT_MAX
    ensures ok && out == EncodeText(input)
  {
    hide Alphabet, GroupDigits, EncodeDigits, EncodedLength, EncodeText;
    ghost var n := EncodedLength(|input|);
    EncodedLengthIsExact(input);
    out := Resize(before, EncodedLength(|input|));
    var i, p, encLen, inputLen := 0, 0, 0, |input|;
    var a3, a4 := new Octet[3], new Octet[4];
    ghost var groups := 0;
    NoDigits();
    while inputLen > 0
      invariant 0 <= inputLen && p + inputLen == |input| && 0 <= i < 3 && p == 3 * groups + i && |out| == n
      invariant a3[..i] == input[3 * groups..p]
      invariant encLen == 4 * groups <= n && out[..encLen] == EncodeDigits(input[..3 * groups])
    {
      inputLen := inputLen - 1;
      ghost var carried := a3[..i];
      a3[i] := input[p];
      i, p := i + 1, p + 1;
      assert a3[..i] == carried + [input[p - 1]] == input[3 * groups..p];
      if i == 3 {
        ghost var y, g := input[..3 * groups], input[3 * groups..p];
        RoomForGroup(groups, 3, |input|);
        PackGroup(a3, a4, 3, g);
        out, encLen := WriteDigits(out, encLen, a4, 4, GroupDigits(g));
        EncodeAppend(y, g);
        assert input[..p] == y + g;
        i, groups := 0, groups + 1;
      }
    }
    ghost var y, g := input[..3 * groups], input[3 * groups..];
    assert input == y + g;
    out, encLen := FinishText(out, encLen, a3, a4, i, y, g);
    ok := encLen == |out|;
  }

  lemma PaddedText(x: seq<Octet>, s: seq<Octet>)
    requires |s| == EncodedLength(|x|) && |EncodeDigits(x)| <= |s| && s[..|EncodeDigits(x)|] == EncodeDigits(x)
    requires forall k :: |EncodeDigits(x)| <= k < |s| ==> s[k] == PAD
    ensures s == EncodeText(x)
  {
    EncodedLengthIsExact(x);
  }

  method WriteDigitsTo(out: array<Octet>, at: nat, a4: array<Octet>, n: nat, ghost digits: seq<Octet>) returns (end: nat)
    requires n <= 4 == a4.Length && at + n <= out.Length && |digits| == n && out != a4
    requires forall j :: 0 <= j < n ==> a4[j] < 64 && Alphabet(a4[j]) == digits[j]
    modifies out
    ensures end == at + n && out[..end] == old(out[..at]) + digits
    ensures forall k :: end <= k < out.Length ==> out[k] == old(out[k])
  {
    hide Alphabet;
    ghost var head := out[..at];
    end := at;
    for j := 0 to n
      invariant end == at + j && out[..end] == head + digits[..j]
      invariant forall k :: end <= k < out.Length ==> out[k] == old(out[k])
    {
      ghost var written := out[..end];
      out[end] := Alphabet(a4[j]);
      assert out[..end + 1] == written + [digits[j]];
      end := end + 1;
    }
    assert digits[..n] == digits;
  }

  method WritePads(out: array<Octet>, at: nat, carried: nat) returns (end: nat)
    requires carried <= 3 && at + 3 - carried <= out.Length
    modifies out
    ensures end == at + 3 - carried && forall k :: at <= k < end ==> out[k] == PAD
    ensures forall k :: 0 <= k < at || end <= k < out.Length ==> out[k] == old(out[k])
  {
    var i := carried;
    end := at;
    while i < 3
      invariant i <= 3 && end == at + i - carried
      invariant forall k :: at <= k < end ==> out[k] == PAD
      invariant forall k :: 0 <= k < at || end <= k < out.Length ==> out[k] == old(out[k])
    {
      out[end] := PAD;
      end, i := end + 1, i + 1;
    }
  }

  /** A group that the input ends in, filled up with zeros. */
  method ShortGroupTo(out: array<Octet>, at: nat, a3: array<Octet>, a4: array<Octet>, i: nat, ghost y: seq<Octet>,
          ghost g: seq<Octet>)
    returns (end: nat)
    requires a3.Length == 3 && a4.Length == 4 && a3 != a4 && a3 != out && a4 != out && 1 <= i < 3 && g == a3[..i]
    requires |y| % 3 == 0 && at + i + 1 <= out.Length && out[..at] == EncodeDigits(y)
    modifies a3, a4, out
    ensures end == at + i + 1 && out[..end] == EncodeDigits(y + g)
    ensures forall k :: end <= k < out.Length ==> out[k] == old(out[k])
  {
    hide Alphabet, GroupDigits, EncodeDigits;
    ZeroFill(a3, i);
    PackGroup(a3, a4, i, g);
    EncodeAppend(y, g);
    end := WriteDigitsTo(out, at, a4, i + 1, GroupDigits(g));
  }

  method FinishBuffer(out: array<Octet>, at: nat, a3: array<Octet>, a4: array<Octet>, carried: nat,
          ghost y: seq<Octet>, ghost g: seq<Octet>)
    returns (end: nat)
    requires a3.Length == 3 && a4.Length == 4 && a3 != a4 && a3 != out && a4 != out && carried < 3 && g == a3[..carried]
    requires |y| % 3 == 0 && at <= EncodedLength(|y + g|) <= out.Length && out[..at] == EncodeDigits(y)
    modifies a3, a4, out
    ensures end == EncodedLength(|y + g|) && out[..end] == EncodeText(y + g)
    ensures forall k :: end <= k < out.Length ==> out[k] == old(out[k])
  {
    hide Alphabet, EncodeDigits, EncodedLength, EncodeText;
    ghost var n, t := EncodedLength(|y + g|), EncodeDigits(y + g);
    end := at;
    DigitsRoundTrip(y);
    if carried > 0 {
      RoomForGroup(|y| / 3, carried, |y + g|);
      end := ShortGroupTo(out, at, a3, a4, carried, y, g);
      end := WritePads(out, end, carried);
    } else {
      assert y + g == y;
      GroupsWithPadding(|y| / 3, 0);
    }
    assert out[..n][..|t|] == t;
    PaddedText(y + g, out[..n]);
  }

  /** Encode into a buffer: nothing is written unless the whole text fits. */
  method EncodeBuffer(input: array<Octet>, inputLength: nat, out: array<Octet>, outLength: nat) returns (ok: bool)
    requires inputLength <= input.Length && outLength <= out.Length && input != out
    requires EncodedLength(inputLength) <= INT_MAX
    modifies out
    ensures ok == (EncodedLength(inputLength) <= outLength)
    ensures out[..] == if ok then EncodeText(input[..inputLength]) + old(out[EncodedLength(inputLength)..]) else old(out[..])
  {
    hide Alphabet, GroupDigits, EncodeDigits, EncodedLength, EncodeText;
    ghost var x := input[..inputLength];
    EncodedLengthIsExact(x);
    var encodedLength: nat := EncodedLength(inputLength);
    if outLength < encodedLength { return false; }
    var i, p, at, left := 0, 0, 0, inputLength;
    var a3, a4 := new Octet[3], new Octet[4];
    ghost var groups := 0;
    NoDigits();
    while left > 0
      invariant 0 <= left && p + left == inputLength && 0 <= i < 3 && p == 3 * groups + i
      invariant input[..inputLength] == x && a3[..i] == x[3 * groups..p]
      invariant at == 4 * groups <= encodedLength && out[..at] == EncodeDigits(x[..3 * groups])
      invariant forall k :: at <= k < out.Length ==> out[k] == old(out[k])
    {
      left := left - 1;
      ghost var carried := a3[..i];
      a3[i] := input[p];
      i, p := i + 1, p + 1;
      assert a3[..i] == carried + [x[p - 1]] == x[3 * groups..p];
      if i == 3 {
        ghost var y, g := x[..3 * groups], x[3 * groups..p];
        RoomForGroup(groups, 3, inputLength);
        PackGroup(a3, a4, 3, g);
        at := WriteDigitsTo(out, at, a4, 4, GroupDigits(g));
        EncodeAppend(y, g);
        assert x[..p] == y + g;
        i, groups := 0, groups + 1;
      }
    }
    ghost var y, g := x[..3 * groups], x[3 * groups..];
    assert x == y + g;
    at := FinishBuffer(out, at, a3, a4, i, y, g);
    ok := at == encodedLength;
    assert out[..] == out[..at] + out[at..];
  }

  // ------------------------------------------------------------------- decoding

  /** StripPadding. */
  method StripPadding(input: seq<Octet>) returns (r: seq<Octet>)
    ensures r == Stripped(input)
    ensures input == r + Pads(|input| - |r|) && (r != [] ==> r[|r| - 1] != PAD)
  {
    r := input;
    while r != [] && r[|r| - 1] == PAD
      invariant Stripped(r) == Stripped(input)
      decreases |r|
    {
      r := Resize(r, |r| - 1);
    }
  }

  lemma SomethingBeforePadding(s: seq<Octet>)
    requires s != [] && Stripped(s) != [] && s[|s| - 1] == PAD
    ensures |s| > 1
  {
    assert Stripped(s) == Stripped(s[..|s| - 1]);
  }

  /** Reading up to the first padding character: index `p` is there, or before it. */
  lemma {:induction false} PadEndsDigits(s: seq<Octet>, p: nat)
    requires p <= |s|
    ensures |BeforePad(s)| <= |s|
    ensures p < |s| && p <= |BeforePad(s)| ==> (s[p] == PAD <==> p == |BeforePad(s)|)
    ensures p < |BeforePad(s)| ==> BeforePad(s)[p] == s[p]
  {
    if s != [] && s[0] != PAD {
      PadEndsDigits(s[1..], if p == 0 then 0 else p - 1);
    }
  }

  lemma SliceGrows(t: seq<Octet>, from: nat, p: nat)
    requires from <= p < |t|
    ensures t[from..p + 1] == t[from..p] + [t[p]]
  {
  }

  lemma WrittenOver(s: seq<Octet>, blank: seq<Octet>, end: nat)
    requires end <= |s| == |blank| && forall k :: end <= k < |s| ==> s[k] == blank[k]
    ensures s == s[..end] + blank[end..]
  {
  }

  /** DecodedLength: the padding is counted from the end, which needs a character that stops the loop. */
  method ComputeDecodedLength(input: seq<Octet>) returns (n: int)
    requires Stripped(input) != [] && 6 * |input| <= INT_MAX
    ensures n == DecodedLength(input)
  {
    var numEq, it := 0, |input|;
    assert input[..it] == input;
    while input[it - 1] == PAD
      invariant 0 < it <= |input| && numEq == |input| - it && Stripped(input[..it]) == Stripped(input)
      decreases it
    {
      assert input[..it][..it - 1] == input[..it - 1];
      SomethingBeforePadding(input[..it]);
      numEq, it := numEq + 1, it - 1;
    }
    assert Stripped(input[..it]) == input[..it];
    n := 6 * |input| / 8 - numEq;
  }

  lemma {:induction false} DecodeAppend(y: seq<Octet>, g: seq<Octet>)
    requires |y| % 4 == 0 && 1 <= |g| <= 4
    ensures DecodeDigits(y + g) == DecodeDigits(y) + GroupBytes(g)
  {
    hide GroupBytes;
    if y == [] {
      assert y + g == g;
    } else {
      var z := y + g;
      assert z[4..] == y[4..] + g && z[..4] == y[..4];
      FirstGroup(z);
      FirstGroup(y);
      DecodeAppend(y[4..], g);
      if |y| == 4 {
        assert y[4..] == [];
      }
      assert GroupBytes(y) + (DecodeDigits(y[4..]) + GroupBytes(g)) == GroupBytes(y) + DecodeDigits(y[4..]) + GroupBytes(g);
    }
  }

  /** There is room for the bytes of the next group. */
  lemma RoomForBytes(groups: nat, i: nat, digits: nat)
    requires 1 <= i <= 4 && 4 * groups + i <= digits && (i < 4 ==> 4 * groups + i == digits)
    ensures if i < 4 then 3 * groups + i - 1 == Emitted(digits) else 3 * groups + 3 <= Emitted(digits)
  {
  }

  method A4ToA3(a3: array<Octet>, a4: array<Octet>)
    requires a4.Length == 4 && a3.Length == 3 && a3 != a4
    modifies a3
    ensures a3[0] == T0(a4[0], a4[1]) && a3[1] == T1(a4[1], a4[2]) && a3[2] == T2(a4[2], a4[3])
  {
    a3[0] := T0(a4[0], a4[1]);
    a3[1] := T1(a4[1], a4[2]);
    a3[2] := T2(a4[2], a4[3]);
  }

  /** The bytes of the digits in the carry buffer, which are looked up in place. */
  method UnpackGroup(a3: array<Octet>, a4: array<Octet>, i: nat, ghost g: seq<Octet>)
    requires a3.Length == 3 && a4.Length == 4 && a3 != a4 && 1 <= i <= 4 && g == a4[..i]
    requires forall j :: i <= j < 4 ==> a4[j] == 0
    modifies a3, a4
    ensures forall j :: 0 <= j < |GroupBytes(g)| ==> a3[j] == GroupBytes(g)[j]
  {
    hide Lookup, T0, T1, T2;
    ghost var was := a4[..];
    assert At(g, 0) == a4[0] && At(g, 1) == a4[1] && At(g, 2) == a4[2] && At(g, 3) == a4[3];
    for j := 0 to 4
      invariant forall k :: 0 <= k < 4 ==> a4[k] == if k < j then Lookup(was[k]) else was[k]
    {
      a4[j] := Lookup(a4[j]);
    }
    A4ToA3(a3, a4);
  }

  method WriteBytes(out: seq<Octet>, at: nat, a3: array<Octet>, n: nat, ghost bytes: seq<Octet>) returns (r: seq<Octet>, end: nat)
    requires n <= 3 == a3.Length && at + n <= |out| && |bytes| == n
    requires forall j :: 0 <= j < n ==> a3[j] == bytes[j]
    ensures |r| == |out| && end == at + n && r[..end] == out[..at] + bytes
    ensures forall k :: end <= k < |r| ==> r[k] == out[k]
  {
    r, end := out, at;
    for j := 0 to n
      invariant |r| == |out| && end == at + j && r[..end] == out[..at] + bytes[..j]
      invariant forall k :: end <= k < |r| ==> r[k] == out[k]
    {
      r := r[end := a3[j]];
      end := end + 1;
    }
    assert bytes[..n] == bytes;
  }

  /** The bytes of one group, short or full, go to the cursor of the output. */
  method EmitGroup(out: seq<Octet>, at: nat, a3: array<Octet>, a4: array<Octet>, i: nat, ghost y: seq<Octet>, ghost g: seq<Octet>)
    returns (r: seq<Octet>, end: nat)
    requires a3.Length == 3 && a4.Length == 4 && a3 != a4 && 1 <= i <= 4 && g == a4[..i]
    requires forall k :: i <= k < 4 ==> a4[k] == 0
    requires |y| % 4 == 0 && at + |GroupBytes(g)| <= |out| && out[..at] == DecodeDigits(y)
    modifies a3, a4
    ensures |r| == |out| && end == at + |GroupBytes(g)| && r[..end] == DecodeDigits(y + g)
    ensures forall k :: end <= k < |r| ==> r[k] == out[k]
  {
    hide GroupBytes, DecodeDigits;
    UnpackGroup(a3, a4, i, g);
    DecodeAppend(y, g);
    r, end := WriteBytes(out, at, a3, if i < 4 then i - 1 else 3, GroupBytes(g));
  }

  method FinishBytes(out: seq<Octet>, at: nat, a3: array<Octet>, a4: array<Octet>, carried: nat, ghost y: seq<Octet>,
          ghost g: seq<Octet>)
    returns (r: seq<Octet>, end: nat)
    requires a3.Length == 3 && a4.Length == 4 && a3 != a4 && carried < 4 && g == a4[..carried]
    requires |y| % 4 == 0 && at <= |out| && Emitted(|y + g|) <= |out| && out[..at] == DecodeDigits(y)
    modifies a3, a4
    ensures |r| == |out| && at <= end == Emitted(|y + g|) && r[..end] == DecodeDigits(y + g)
    ensures forall k :: end <= k < |r| ==> r[k] == out[k]
  {
    hide GroupBytes, DecodeDigits;
    r, end := out, at;
    DecodedCount(y);
    if carried > 0 {
      ZeroFill(a4, carried);
      RoomForBytes(|y| / 4, carried, |y + g|);
      r, end := EmitGroup(r, end, a3, a4, carried, y, g);
    } else {
      assert y + g == y;
    }
  }

  /** The next digit of `t` joins the carry buffer. */
  method CarryDigit(a4: array<Octet>, i: nat, c: Octet, ghost t: seq<Octet>, ghost from: nat)
    requires a4.Length == 4 && i < 4 && from + i < |t| && c == t[from + i] && a4[..i] == t[from..from + i]
    modifies a4
    ensures a4[..i + 1] == t[from..from + i + 1]
  {
    ghost var carried := a4[..i];
    a4[i] := c;
    SliceGrows(t, from, from + i);
    assert a4[..i + 1] == carried + [c];
  }

  lemma CutAt(t: seq<Octet>, groups: nat, p: nat)
    requires 4 * groups <= p <= |t|
    ensures t[..p] == t[..4 * groups] + t[4 * groups..p]
  {
  }

  /** The first `groups` groups of `t` stand decoded in `out`, up to `at`; behind them is what was there. */
  ghost predicate Decoded(t: seq<Octet>, groups: nat, out: seq<Octet>, blank: seq<Octet>, at: nat) {
    && 4 * groups <= |t| && at == 3 * groups <= |out| == |blank| && Emitted(|t|) <= |out|
    && out[..at] == DecodeDigits(t[..4 * groups])
    && forall k :: at <= k < |out| ==> out[k] == blank[k]
  }

  /** All of `t` stands decoded in `out`. */
  ghost predicate AllDecoded(t: seq<Octet>, out: seq<Octet>, blank: seq<Octet>, at: nat) {
    && at == Emitted(|t|) <= |out| == |blank|
    && out[..at] == DecodeDigits(t)
    && forall k :: at <= k < |out| ==> out[k] == blank[k]
  }

  lemma NothingDecoded(t: seq<Octet>, out: seq<Octet>)
    requires Emitted(|t|) <= |out|
    ensures Decoded(t, 0, out, out, 0)
  {
    NoDigits();
    assert t[..0] == [] && out[..0] == [];
  }

  method DecodeGroup(out: seq<Octet>, at: nat, a3: array<Octet>, a4: array<Octet>, ghost t: seq<Octet>,
          ghost groups: nat, ghost blank: seq<Octet>)
    returns (r: seq<Octet>, end: nat)
    requires a3.Length == 3 && a4.Length == 4 && a3 != a4
    requires Decoded(t, groups, out, blank, at) && 4 * groups + 4 <= |t| && a4[..4] == t[4 * groups..4 * groups + 4]
    modifies a3, a4
    ensures |r| == |out| && Decoded(t, groups + 1, r, blank, end)
  {
    hide GroupBytes, DecodeDigits, Emitted;
    ghost var y, g := t[..4 * groups], t[4 * groups..4 * groups + 4];
    CutAt(t, groups, 4 * groups + 4);
    RoomForBytes(groups, 4, |t|);
    r, end := EmitGroup(out, at, a3, a4, 4, y, g);
  }

  method DecodeRest(out: seq<Octet>, at: nat, a3: array<Octet>, a4: array<Octet>, i: nat, ghost t: seq<Octet>,
          ghost groups: nat, ghost blank: seq<Octet>)
    returns (r: seq<Octet>, end: nat)
    requires a3.Length == 3 && a4.Length == 4 && a3 != a4 && i < 4
    requires Decoded(t, groups, out, blank, at) && 4 * groups + i == |t| && a4[..i] == t[4 * groups..4 * groups + i]
    modifies a3, a4
    ensures AllDecoded(t, r, blank, end)
  {
    hide GroupBytes, DecodeDigits, Emitted;
    ghost var y, g := t[..4 * groups], t[4 * groups..4 * groups + i];
    CutAt(t, groups, |t|);
    assert t[..|t|] == t;
    r, end := FinishBytes(out, at, a3, a4, i, y, g);
  }

  /** The carry loop over the text, up to the first padding character. */
  method DecodeDigitsOf(input: seq<Octet>, blank: seq<Octet>, ghost t: seq<Octet>) returns (out: seq<Octet>, decLen: nat)
    requires t == BeforePad(input) && Emitted(|t|) <= |blank|
    ensures AllDecoded(t, out, blank, decLen)
  {
    hide Emitted, BeforePad, Decoded, AllDecoded;
    out, decLen := blank, 0;
    var i, p, inputLen := 0, 0, |input|;
    var a3, a4 := new Octet[3], new Octet[4];
    ghost var groups := 0;
    NothingDecoded(t, blank);
    PadEndsDigits(input, 0);
    while inputLen > 0
      invariant 0 <= inputLen && p + inputLen == |input| && 0 <= i < 4 && 4 * groups + i == p <= |t|
      invariant a4[..i] == t[4 * groups..4 * groups + i]
      invariant Decoded(t, groups, out, blank, decLen)
    {
      inputLen := inputLen - 1;
      PadEndsDigits(input, p);
      if input[p] == PAD { break; }
      CarryDigit(a4, i, input[p], t, 4 * groups);
      i, p := i + 1, p + 1;
      if i == 4 {
        out, decLen := DecodeGroup(out, decLen, a3, a4, t, groups, blank);
        i, groups := 0, groups + 1;
      }
    }
    out, decLen := DecodeRest(out, decLen, a3, a4, i, t, groups, blank);
  }

  /** Decode into a string.  The length is computed first; the caller must not pass more padding than
      completes a group, since the loop writes what the digits hold whatever the length is. */
  method DecodeString(input: seq<Octet>, before: seq<Octet>) returns (ok: bool, out: seq<Octet>)
    requires Stripped(input) != [] && 6 * |input| <= INT_MAX && |DecodeText(input)| <= DecodedLength(input)
    ensures ok == (|DecodeText(input)| == DecodedLength(input))
    ensures out == DecodeText(input) + Resize(before, DecodedLength(input))[|DecodeText(input)|..]
  {
    hide DecodeDigits, DecodedLength, Emitted, Resize, BeforePad, Stripped;
    ghost var t := BeforePad(input);
    DecodedCount(t);
    var n := ComputeDecodedLength(input);
    var blank := Resize(before, n);
    var decLen;
    out, decLen := DecodeDigitsOf(input, blank, t);
    ok := decLen == |out|;
    WrittenOver(out, blank, decLen);
  }

  method WriteBytesTo(out: array<Octet>, at: nat, a3: array<Octet>, n: nat, ghost bytes: seq<Octet>) returns (end: nat)
    requires n <= 3 == a3.Length && at + n <= out.Length && |bytes| == n && out != a3
    requires forall j :: 0 <= j < n ==> a3[j] == bytes[j]
    modifies out
    ensures end == at + n && out[..end] == old(out[..at]) + bytes
    ensures forall k :: end <= k < out.Length ==> out[k] == old(out[k])
  {
    ghost var head := out[..at];
    end := at;
    for j := 0 to n
      invariant end == at + j && out[..end] == head + bytes[..j]
      invariant forall k :: end <= k < out.Length ==> out[k] == old(out[k])
    {
      ghost var written := out[..end];
      out[end] := a3[j];
      assert out[..end + 1] == written + [bytes[j]];
      end := end + 1;
    }
    assert bytes[..n] == bytes;
  }

  method EmitGroupTo(out: array<Octet>, at: nat, a3: array<Octet>, a4: array<Octet>, i: nat, ghost y: seq<Octet>,
          ghost g: seq<Octet>)
    returns (end: nat)
    requires a3.Length == 3 && a4.Length == 4 && a3 != a4 && a3 != out && a4 != out && 1 <= i <= 4 && g == a4[..i]
    requires forall k :: i <= k < 4 ==> a4[k] == 0
    requires |y| % 4 == 0 && at + |GroupBytes(g)| <= out.Length && out[..at] == DecodeDigits(y)
    modifies a3, a4, out
    ensures end == at + |GroupBytes(g)| && out[..end] == DecodeDigits(y + g)
    ensures forall k :: end <= k < out.Length ==> out[k] == old(out[k])
  {
    hide GroupBytes, DecodeDigits;
    UnpackGroup(a3, a4, i, g);
    DecodeAppend(y, g);
    end := WriteBytesTo(out, at, a3, if i < 4 then i - 1 else 3, GroupBytes(g));
  }

  method FinishBytesTo(out: array<Octet>, at: nat, a3: array<Octet>, a4: array<Octet>, carried: nat,
          ghost y: seq<Octet>, ghost g: seq<Octet>)
    returns (end: nat)
    requires a3.Length == 3 && a4.Length == 4 && a3 != a4 && a3 != out && a4 != out && carried < 4 && g == a4[..carried]
    requires |y| % 4 == 0 && at <= Emitted(|y + g|) <= out.Length && out[..at] == DecodeDigits(y)
    modifies a3, a4, out
    ensures end == Emitted(|y + g|) && out[..end] == DecodeDigits(y + g)
    ensures forall k :: end <= k < out.Length ==> out[k] == old(out[k])
  {
    hide GroupBytes, DecodeDigits;
    end := at;
    DecodedCount(y);
    if carried > 0 {
      ZeroFill(a4, carried);
      RoomForBytes(|y| / 4, carried, |y + g|);
      end := EmitGroupTo(out, end, a3, a4, carried, y, g);
    } else {
      assert y + g == y;
    }
  }

  method DecodeGroupTo(out: array<Octet>, at: nat, a3: array<Octet>, a4: array<Octet>, ghost t: seq<Octet>,
          ghost groups: nat, ghost blank: seq<Octet>)
    returns (end: nat)
    requires a3.Length == 3 && a4.Length == 4 && a3 != a4 && a3 != out && a4 != out
    requires Decoded(t, groups, out[..], blank, at) && 4 * groups + 4 <= |t| && a4[..4] == t[4 * groups..4 * groups + 4]
    modifies a3, a4, out
    ensures Decoded(t, groups + 1, out[..], blank, end)
  {
    hide GroupBytes, DecodeDigits, Emitted;
    ghost var y, g := t[..4 * groups], t[4 * groups..4 * groups + 4];
    CutAt(t, groups, 4 * groups + 4);
    RoomForBytes(groups, 4, |t|);
    assert out[..at] == out[..][..at];
    end := EmitGroupTo(out, at, a3, a4, 4, y, g);
    assert out[..end] == out[..][..end];
  }

  method DecodeRestTo(out: array<Octet>, at: nat, a3: array<Octet>, a4: array<Octet>, i: nat, ghost t: seq<Octet>,
          ghost groups: nat, ghost blank: seq<Octet>)
    returns (end: nat)
    requires a3.Length == 3 && a4.Length == 4 && a3 != a4 && a3 != out && a4 != out && i < 4
    requires Decoded(t, groups, out[..], blank, at) && 4 * groups + i == |t| && a4[..i] == t[4 * groups..4 * groups + i]
    modifies a3, a4, out
    ensures AllDecoded(t, out[..], blank, end)
  {
    hide GroupBytes, DecodeDigits, Emitted;
    ghost var y, g := t[..4 * groups], t[4 * groups..4 * groups + i];
    CutAt(t, groups, |t|);
    assert t[..|t|] == t && out[..at] == out[..][..at];
    DecodedCount(y);
    DecodedCount(t);
    EmittedGrows(4 * groups, |t|);
    end := FinishBytesTo(out, at, a3, a4, i, y, g);
    assert out[..end] == out[..][..end];
  }

  lemma EmittedGrows(m: nat, n: nat)
    requires m <= n
    ensures Emitted(m) <= Emitted(n)
  {
    EmittedIsWholeBytes(m);
    EmittedIsWholeBytes(n);
  }

  /** The same loop over an array. */
  method DecodeDigitsTo(input: array<Octet>, inputLength: nat, out: array<Octet>, ghost t: seq<Octet>) returns (at: nat)
    requires inputLength <= input.Length && input != out
    requires t == BeforePad(input[..inputLength]) && Emitted(|t|) <= out.Length
    modifies out
    ensures AllDecoded(t, out[..], old(out[..]), at)
  {
    hide Emitted, BeforePad, Decoded, AllDecoded;
    ghost var x, blank := input[..inputLength], out[..];
    at := 0;
    var i, p, left := 0, 0, inputLength;
    var a3, a4 := new Octet[3], new Octet[4];
    ghost var groups := 0;
    NothingDecoded(t, blank);
    PadEndsDigits(x, 0);
    while left > 0
      invariant 0 <= left && p + left == inputLength && 0 <= i < 4 && 4 * groups + i == p <= |t|
      invariant input[..inputLength] == x && a4[..i] == t[4 * groups..4 * groups + i]
      invariant Decoded(t, groups, out[..], blank, at)
    {
      left := left - 1;
      assert input[p] == x[p];
      PadEndsDigits(x, p);
      if input[p] == PAD { break; }
      CarryDigit(a4, i, input[p], t, 4 * groups);
      i, p := i + 1, p + 1;
      if i == 4 {
        at := DecodeGroupTo(out, at, a3, a4, t, groups, blank);
        i, groups := 0, groups + 1;
      }
    }
    at := DecodeRestTo(out, at, a3, a4, i, t, groups, blank);
  }

  /** Decode into a buffer.  A computed length that does not fit, or that is negative and so becomes a
      huge unsigned number, ends the call at once; otherwise the digits must fit too. */
  method DecodeBuffer(input: array<Octet>, inputLength: nat, out: array<Octet>, outLength: nat) returns (ok: bool)
    requires inputLength <= input.Length && outLength <= out.Length && input != out
    requires Stripped(input[..inputLength]) != [] && 6 * inputLength <= INT_MAX
    requires 0 <= DecodedLength(input[..inputLength]) <= outLength ==> |DecodeText(input[..inputLength])| <= outLength
    modifies out
    ensures ok == (|DecodeText(input[..inputLength])| == DecodedLength(input[..inputLength]) <= outLength)
    ensures out[..] == if 0 <= DecodedLength(input[..inputLength]) <= outLength
                       then DecodeText(input[..inputLength]) + old(out[|DecodeText(input[..inputLength])|..]) else old(out[..])
  {
    hide DecodeDigits, DecodedLength, Emitted, BeforePad, Stripped;
    ghost var t, blank := BeforePad(input[..inputLength]), out[..];
    DecodedCount(t);
    var n := ComputeDecodedLength(input[..inputLength]);
    if n < 0 || outLength < n { return false; }
    var at := DecodeDigitsTo(input, inputLength, out, t);
    ok := at == n;
    WrittenOver(out[..], blank, at);
  }
}
