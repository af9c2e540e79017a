/** CodedInputStream over one flat buffer: a position, a limit and the flag that says whether the
    last tag read ran into that limit.  Each reader is specified by its functional counterpart on the
    bytes up to the limit. */
module CodedStream {
  import opened Octets
  import opened Wire
  import opened Codec
  import opened RecursionLimit

  /** `v << (7 * n)` without a bound on the width. */
  function Shift7(n: nat, v: nat): nat {
    if n == 0 then v else 128 * Shift7(n - 1, v)
  }

  lemma {:induction false} Shift7Adds(n: nat, low: nat, high: nat)
    ensures Shift7(n, low + 128 * high) == Shift7(n, low) + Shift7(n + 1, high)
  {
    if n > 0 {
      Shift7Adds(n - 1, low, high);
    }
  }

  /** A varint whose first `n` seven-bit groups are already in `value`. */
  function Above(value: nat, n: nat, r: Read<nat>): Read<nat> {
    match r
    case Fail => Fail
    case Got(v, rest) => Got(value + Shift7(n, v), rest)
  }

  lemma AboveStep(value: nat, n: nat, s: Bytes, budget: nat)
    requires s != [] && budget > 0
    ensures s[0] < 128 ==> Above(value, n, ReadVarint(s, budget)) == Got(value + Shift7(n, s[0]), s[1..])
    ensures s[0] >= 128 ==>
              Above(value, n, ReadVarint(s, budget))
              == Above(value + Shift7(n, s[0] - 128), n + 1, ReadVarint(s[1..], budget - 1))
  {
    var tail := ReadVarint(s[1..], budget - 1);
    if s[0] >= 128 && tail.Got? {
      Shift7Adds(n, s[0] - 128, tail.value);
    }
  }

  lemma AboveStepAt(value: nat, n: nat, s: Bytes)
    requires n < |s| && n < 10
    ensures Above(value, n, ReadVarint(s[n..], 10 - n))
         == if s[n] < 128 then Got(value + Shift7(n, s[n]), s[n + 1..])
            else Above(value + Shift7(n, s[n] - 128), n + 1, ReadVarint(s[n + 1..], 9 - n))
  {
    assert s[n..][1..] == s[n + 1..];
    AboveStep(value, n, s[n..], 10 - n);
  }

  /** Where the loop starts, and where it runs out of bytes or of groups. */
  lemma AboveEnds(value: nat, n: nat, s: Bytes)
    requires n <= |s| && n <= 10
    ensures Above(0, 0, ReadVarint(s[0..], 10)) == ReadVarint(s)
    ensures n == |s| || n == 10 ==> Above(value, n, ReadVarint(s[n..], 10 - n)) == Fail
  {
    assert s[0..] == s;
  }

  /** kDefaultTotalBytesLimit.  A stream over more bytes stops there once a limit was pushed or popped. */
  const TOTAL_BYTES_LIMIT: nat := 64 * 1024 * 1024

  class CodedInputStream {
    const data: Bytes
    var pos: nat
    var limit: nat
    var legitimateEnd: bool
    var lastTag: nat
    var recursionBudget: int

    ghost predicate Valid()
      reads this
    {
      pos <= limit <= |data| <= TOTAL_BYTES_LIMIT
    }

    /** In the middle of a parse: no end was seen, and the budget is not used up. */
    ghost predicate Ready()
      reads this
    {
      Valid() && !legitimateEnd && recursionBudget >= 0
    }

    /** The bytes still to be read under the current limit. */
    ghost function Rest(): (s: Bytes)
      requires Valid()
      reads this
      ensures |s| == limit - pos
    {
      data[pos..limit]
    }

    constructor (data: Bytes)
      requires |data| <= TOTAL_BYTES_LIMIT
      ensures Ready() && this.data == data && Rest() == data && recursionBudget == RECURSION_LIMIT
    {
      this.data := data;
      pos, limit, legitimateEnd, lastTag, recursionBudget := 0, |data|, false, 0, RECURSION_LIMIT;
      new;
      assert data[0..|data|] == data;
    }

    lemma RestAt(n: nat)
      requires Valid() && pos + n <= limit
      ensures Rest()[n..] == data[pos + n..limit] && Rest()[..n] == data[pos..pos + n]
    {
    }

    method Advance(n: nat)
      requires Valid() && pos + n <= limit
      modifies this`pos
      ensures Valid() && pos == old(pos) + n && Rest() == old(Rest())[n..]
    {
      RestAt(n);
      pos := pos + n;
    }

    /** The bytes of a varint in front of the position: at most ten, and not past the limit. */
    method ScanVarint() returns (ok: bool, value: nat, count: nat)
      requires Valid()
      ensures count <= |Rest()| && count <= 10
      ensures !ok ==> count == 10 || count == |Rest()|
      ensures ReadVarint(Rest()) == if ok then Got(value, Rest()[count..]) else Fail
    {
      hide ReadVarint, Above, Shift7;
      ghost var all := Rest();
      value, count := 0, 0;
      AboveEnds(0, 0, all);
      while pos + count < limit && count < 10
        invariant count <= |all| && count <= 10
        invariant ReadVarint(all) == Above(value, count, ReadVarint(all[count..], 10 - count))
      {
        var b := data[pos + count];
        assert b == all[count];
        AboveStepAt(value, count, all);
        if b < 128 {
          return true, value + Shift7(count, b), count + 1;
        }
        value, count := value + Shift7(count, b - 128), count + 1;
      }
      AboveEnds(value, count, all);
      ok := false;
    }

    /** ReadVarint64Slow, and ReadVarint64FromArray, which refuses an overlong varint in place. */
    method ReadVarintBytes() returns (ok: bool, value: nat)
      requires Valid()
      modifies this`pos
      ensures Valid()
      ensures match ReadVarint(old(Rest()))
              case Got(v, rest) => ok && value == v && Rest() == rest
              case Fail => !ok && pos == (if |old(Rest())| < 10 then limit else old(pos))
    {
      var count;
      ok, value, count := ScanVarint();
      if ok || count < 10 {
        Advance(count);
      }
    }

    method ReadLittleEndian32() returns (ok: bool, value: nat)
      requires Valid()
      modifies this`pos
      ensures Valid()
      ensures match ReadFixed32(old(Rest()))
              case Got(v, rest) => ok && value == v && Rest() == rest
              case Fail => !ok
    {
      if limit - pos < 4 { return false, 0; }
      var b0: int, b1: int, b2: int, b3: int := data[pos], data[pos + 1], data[pos + 2], data[pos + 3];
      Advance(4);
      return true, b0 + 0x100 * b1 + 0x1_0000 * b2 + 0x100_0000 * b3;
    }

    method ReadLittleEndian64() returns (ok: bool, value: nat)
      requires Valid()
      modifies this`pos
      ensures Valid()
      ensures match ReadFixed64(old(Rest()))
              case Got(v, rest) => ok && value == v && Rest() == rest
              case Fail => !ok
    {
      var low, high;
      ok, low := ReadLittleEndian32();
      if !ok { return false, 0; }
      ok, high := ReadLittleEndian32();
      if !ok { return false, 0; }
      return true, low + TWO32 * high;
    }

    /** ReadString into a string that holds `buffer`: on failure it still holds that, or as much of the
        payload as there was. */
    method ReadPayload(size: nat, buffer: Bytes) returns (ok: bool, value: Bytes)
      requires Valid()
      modifies this`pos
      ensures Valid()
      ensures ok == (size <= INT_MAX && size <= |old(Rest())|)
      ensures if ok then value == old(Rest())[..size] && Rest() == old(Rest())[size..]
              else value == if size > INT_MAX then buffer else old(Rest())
    {
      if size > INT_MAX { return false, buffer; }
      ok := size <= limit - pos;
      var n := if ok then size else limit - pos;
      RestAt(n);
      value := data[pos..pos + n];
      Advance(n);
    }

    /** ReadBytes and ReadString: a 32-bit length, then exactly that many bytes. */
    method ReadBytes(buffer: Bytes) returns (ok: bool, value: Bytes)
      requires Valid()
      modifies this`pos
      ensures Valid() && value == StringLeft(buffer, old(Rest()))
      ensures match ReadString(old(Rest()))
              case Got(b, rest) => ok && value == b && Rest() == rest
              case Fail => !ok
    {
      var length;
      value := buffer;
      ok, length := ReadVarintBytes();
      if ok {
        ok, value := ReadPayload(length % TWO32, buffer);
      }
    }

    /** ReadTag: 0 when there is no readable tag; only the limit itself is a legitimate end. */
    method ReadTag() returns (tag: nat)
      requires Valid() && !legitimateEnd
      modifies this`pos, this`legitimateEnd, this`lastTag
      ensures Valid() && legitimateEnd == (old(Rest()) == []) && lastTag == tag
      ensures (tag, Rest()) == NextTag(old(Rest()))
    {
      lastTag := 0;
      if pos == limit {
        legitimateEnd := true;
        return 0;
      }
      var ok, v := ReadVarintBytes();
      tag := if ok then v % TWO32 else 0;
      lastTag := tag;
    }

    /** ExpectTag for a one-byte tag: consumed only if it is the very next byte. */
    method ExpectTag(expected: Byte) returns (found: bool)
      requires Valid() && expected < 128
      modifies this`pos
      ensures Valid()
      ensures found == (old(Rest()) != [] && old(Rest())[0] == expected)
      ensures Rest() == if found then old(Rest())[1..] else old(Rest())
    {
      found := pos < limit && data[pos] == expected;
      if found {
        Advance(1);
      }
    }

    method ExpectAtEnd() returns (end: bool)
      requires Valid()
      modifies this`legitimateEnd, this`lastTag
      ensures end == (Rest() == [])
      ensures legitimateEnd == (end || old(legitimateEnd))
    {
      end := pos == limit;
      if end { legitimateEnd, lastTag := true, 0; }
    }

    /** PushLimit: never past the limit in force. */
    method PushLimit(length: int) returns (oldLimit: nat)
      requires Valid()
      modifies this`limit
      ensures Valid() && limit <= oldLimit == old(limit)
      ensures (Rest(), data[limit..oldLimit]) == Delimit(if length < 0 then INT_MAX + 1 else length, old(Rest()))
    {
      oldLimit := limit;
      var wanted := if 0 <= length <= INT_MAX - pos then pos + length else INT_MAX;
      RestAt(if wanted < oldLimit then wanted - pos else limit - pos);
      limit := if wanted < oldLimit then wanted else oldLimit;
    }

    method PopLimit(oldLimit: nat)
      requires Valid() && limit <= oldLimit <= |data|
      modifies this`limit, this`legitimateEnd
      ensures Valid() && limit == oldLimit && !legitimateEnd
    {
      limit, legitimateEnd := oldLimit, false;
    }

    method IncrementRecursionDepth() returns (ok: bool)
      modifies this`recursionBudget
      ensures recursionBudget == old(recursionBudget) - 1 && ok == (old(recursionBudget) > 0)
    {
      recursionBudget := recursionBudget - 1;
      ok := recursionBudget >= 0;
    }

    method DecrementRecursionDepth()
      modifies this`recursionBudget
      ensures recursionBudget == old(recursionBudget) + 1
    {
      recursionBudget := recursionBudget + 1;
    }

    /** WireFormat::SkipField, keeping the field, or what there was of it. */
    method SkipField(tag: nat) returns (ok: bool, added: seq<Unknown>)
      requires Ready()
      modifies this`pos, this`legitimateEnd, this`lastTag, this`recursionBudget
      ensures Valid() && (ok ==> recursionBudget == old(recursionBudget))
      ensures added == SkipLeft(tag, old(Rest()), old(recursionBudget))
      ensures match SkipWithin(tag, old(Rest()), old(recursionBudget))
              case Got(v, rest) => ok && Rest() == rest && !legitimateEnd
              case Fail => !ok
      decreases limit - pos, 1
    {
      hide MakeTag, FieldNumber, WireType, ReadVarint, ReadFixed32, ReadFixed64;
      var number, wireType := FieldNumber(tag), WireType(tag);
      added := [];
      if wireType == WIRETYPE_VARINT {
        var v;
        ok, v := ReadVarintBytes();
        if ok { added := [UVarint(number, v % TWO64)]; }
      } else if wireType == WIRETYPE_FIXED64 {
        var v;
        ok, v := ReadLittleEndian64();
        if ok { added := [UFixed64(number, v)]; }
      } else if wireType == WIRETYPE_LENGTH_DELIMITED {
        var length;
        ok, length := ReadVarintBytes();
        if ok {
          var b;
          ok, b := ReadPayload(length % TWO32, []);
          added := [UString(number, b)];
        }
      } else if wireType == WIRETYPE_START_GROUP {
        ok := IncrementRecursionDepth();
        if !ok { return; }
        var last, fields;
        ok, last, fields := SkipMessage(number);
        added := [UGroup(number, fields)];
        if !ok { return; }
        DecrementRecursionDepth();
        ok := last == MakeTag(number, WIRETYPE_END_GROUP);
      } else if wireType == WIRETYPE_FIXED32 {
        var v;
        ok, v := ReadLittleEndian32();
        if ok { added := [UFixed32(number, v)]; }
      } else {
        ok := false;
      }
    }

    /** WireFormat::SkipMessage: fields up to a zero or end-group tag, which is handed to the caller
        as the last tag seen. */
    method SkipMessage(ghost number: nat) returns (ok: bool, last: nat, fields: seq<Unknown>)
      requires Ready()
      modifies this`pos, this`legitimateEnd, this`lastTag, this`recursionBudget
      ensures Valid() && (ok ==> recursionBudget == old(recursionBudget))
      ensures fields == GroupLeft(number, old(Rest()), old(recursionBudget))
      ensures match GroupWithin(number, old(Rest()), old(recursionBudget))
              case Got(us, rest) => ok && last == MakeTag(number, WIRETYPE_END_GROUP) && Rest() == rest && !legitimateEnd
              case Fail => !ok || last != MakeTag(number, WIRETYPE_END_GROUP)
      decreases limit - pos, 0
    {
      hide WireType, ReadVarint, SkipWithin, SkipLeft;
      fields := [];
      ghost var all, budget := Rest(), recursionBudget;
      PrependNothing(GroupWithin(number, all, budget));
      assert [] + GroupLeft(number, all, budget) == GroupLeft(number, all, budget);
      while true
        invariant Ready() && limit - pos <= |all| && recursionBudget == budget
        invariant GroupWithin(number, all, budget) == Prepend(fields, GroupWithin(number, Rest(), budget))
        invariant GroupLeft(number, all, budget) == fields + GroupLeft(number, Rest(), budget)
        decreases limit - pos
      {
        ghost var before := Rest();
        last := ReadTag();
        if last == 0 { return true, 0, fields; }
        if WireType(last) == WIRETYPE_END_GROUP {
          assert fields + [] == fields;
          return true, last, fields;
        }
        var added;
        ok, added := SkipField(last);
        if !ok { return false, last, fields + added; }
        PrependStep(fields, added[0], number, before, budget);
        assert fields + ([added[0]] + GroupLeft(number, Rest(), budget)) == fields + added + GroupLeft(number, Rest(), budget);
        fields := fields + added;
      }
    }
  }

  /** A group's fields when `us` have already been read from it. */
  function Prepend(us: seq<Unknown>, r: Read<seq<Unknown>>): Read<seq<Unknown>> {
    match r
    case Fail => Fail
    case Got(vs, rest) => Got(us + vs, rest)
  }

  lemma PrependNothing(r: Read<seq<Unknown>>)
    ensures Prepend([], r) == r
  {
    if r.Got? { assert [] + r.value == r.value; }
  }

  lemma PrependStep(us: seq<Unknown>, u: Unknown, number: nat, s: Bytes, budget: nat)
    requires Wire.ReadTag(s).Got? && WireType(Wire.ReadTag(s).value) != WIRETYPE_END_GROUP
    requires SkipWithin(Wire.ReadTag(s).value, Wire.ReadTag(s).rest, budget).Got?
    requires u == SkipWithin(Wire.ReadTag(s).value, Wire.ReadTag(s).rest, budget).value
    ensures Prepend(us, GroupWithin(number, s, budget))
         == Prepend(us + [u], GroupWithin(number, SkipWithin(Wire.ReadTag(s).value, Wire.ReadTag(s).rest, budget).rest, budget))
  {
    var tail := GroupWithin(number, SkipWithin(Wire.ReadTag(s).value, Wire.ReadTag(s).rest, budget).rest, budget);
    if tail.Got? {
      assert us + ([u] + tail.value) == us + [u] + tail.value;
    }
  }
}
