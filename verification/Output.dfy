/** The two byte sinks of the serializers: a pointer into a preallocated array, and a stream. */
module Output {
  import opened Octets
  import opened Wire

  // ------------------------------------------------------------ into an array

  /** `bytes` stand in the array from `at` to `end`, and nothing else differs from `before`. */
  ghost predicate Wrote(before: seq<Byte>, after: seq<Byte>, at: nat, bytes: Bytes, end: nat) {
    && |before| == |after|
    && end == at + |bytes| <= |after|
    && after[at..end] == bytes
    && forall k :: 0 <= k < at || end <= k < |after| ==> after[k] == before[k]
  }

  lemma WroteThen(a: seq<Byte>, b: seq<Byte>, c: seq<Byte>, at: nat, x: Bytes, mid: nat, y: Bytes, end: nat)
    requires Wrote(a, b, at, x, mid) && Wrote(b, c, mid, y, end)
    ensures Wrote(a, c, at, x + y, end)
  {
    assert c[at..mid] == b[at..mid];
    assert c[at..end] == c[at..mid] + c[mid..end];
  }

  method PutByte(b: Byte, target: array<Byte>, at: nat) returns (end: nat)
    requires at < target.Length
    modifies target
    ensures Wrote(old(target[..]), target[..], at, [b], end)
  {
    target[at] := b;
    end := at + 1;
  }

  /** WriteVarint32ToArray: one byte a turn while more than seven bits remain. */
  method WriteVarintToArray(value: nat, target: array<Byte>, at: nat) returns (end: nat)
    requires at + |WriteVarint(value)| <= target.Length
    modifies target
    ensures Wrote(old(target[..]), target[..], at, WriteVarint(value), end)
  {
    hide WriteVarint;
    var v := value;
    ghost var s0 := target[..];
    ghost var head: Bytes := [];
    end := at;
    while v >= 0x80
      invariant Wrote(s0, target[..], at, head, end) && head + WriteVarint(v) == WriteVarint(value)
    {
      ghost var s1, mid := target[..], end;
      ghost var b: Byte := v % 128 + 128;
      FirstVarintByte(v);
      ConcatAssociative(head, [b], WriteVarint(v / 128));
      assert |head| + |WriteVarint(v)| == |WriteVarint(value)|;
      end := PutByte(v % 128 + 128, target, end);
      WroteThen(s0, s1, target[..], at, head, mid, [b], end);
      head, v := head + [b], v / 128;
    }
    ghost var s1, mid := target[..], end;
    FirstVarintByte(v);
    assert |head| + |WriteVarint(v)| == |WriteVarint(value)|;
    end := PutByte(v, target, end);
    WroteThen(s0, s1, target[..], at, head, mid, [v], end);
  }

  method WriteRawToArray(b: Bytes, target: array<Byte>, at: nat) returns (end: nat)
    requires at + |b| <= target.Length
    modifies target
    ensures Wrote(old(target[..]), target[..], at, b, end)
  {
    forall i | 0 <= i < |b| {
      target[at + i] := b[i];
    }
    end := at + |b|;
  }

  /** WriteStringWithSizeToArray. */
  method WriteStringToArray(b: Bytes, target: array<Byte>, at: nat) returns (end: nat)
    requires at + |WriteString(b)| <= target.Length
    modifies target
    ensures Wrote(old(target[..]), target[..], at, WriteString(b), end)
  {
    ghost var s0 := target[..];
    var mid := WriteVarintToArray(|b|, target, at);
    ghost var s1 := target[..];
    end := WriteRawToArray(b, target, mid);
    WroteThen(s0, s1, target[..], at, WriteVarint(|b|), mid, b, end);
  }

  /** WriteTagToArray followed by a payload that is at hand. */
  method WriteTaggedToArray(tag: nat, payload: Bytes, target: array<Byte>, at: nat) returns (end: nat)
    requires at + |WriteVarint(tag) + payload| <= target.Length
    modifies target
    ensures Wrote(old(target[..]), target[..], at, WriteVarint(tag) + payload, end)
  {
    ghost var s0 := target[..];
    var mid := WriteVarintToArray(tag, target, at);
    ghost var s1 := target[..];
    end := WriteRawToArray(payload, target, mid);
    WroteThen(s0, s1, target[..], at, WriteVarint(tag), mid, payload, end);
  }

  lemma {:induction false} UnknownsAppend(us: seq<Unknown>, u: Unknown)
    ensures WriteUnknowns(us + [u]) == WriteUnknowns(us) + WriteUnknown(u)
  {
    if us == [] {
      assert us + [u] == [u];
      assert WriteUnknowns([u][1..]) == [];
    } else {
      assert (us + [u])[1..] == us[1..] + [u];
      UnknownsAppend(us[1..], u);
    }
  }

  /** SerializeUnknownFieldsToArray. */
  method WriteUnknownsToArray(us: seq<Unknown>, target: array<Byte>, at: nat) returns (end: nat)
    requires at + |WriteUnknowns(us)| <= target.Length
    modifies target
    ensures Wrote(old(target[..]), target[..], at, WriteUnknowns(us), end)
    decreases us, 0
  {
    end := at;
    for i := 0 to |us|
      invariant Wrote(old(target[..]), target[..], at, WriteUnknowns(us[..i]), end)
      invariant end + |WriteUnknowns(us[i..])| == at + |WriteUnknowns(us)|
    {
      ghost var s := target[..];
      var mid := end;
      end := WriteUnknownToArray(us[i], target, mid);
      WroteThen(old(target[..]), s, target[..], at, WriteUnknowns(us[..i]), mid, WriteUnknown(us[i]), end);
      assert us[..i + 1] == us[..i] + [us[i]];
      UnknownsAppend(us[..i], us[i]);
      assert us[i..][1..] == us[i + 1..];
    }
    assert us[..|us|] == us;
  }

  method WriteUnknownToArray(u: Unknown, target: array<Byte>, at: nat) returns (end: nat)
    requires at + |WriteUnknown(u)| <= target.Length
    modifies target
    ensures Wrote(old(target[..]), target[..], at, WriteUnknown(u), end)
    decreases u, 2
  {
    ghost var s0 := target[..];
    var mid := WriteVarintToArray(UnknownTag(u), target, at);
    ghost var s1 := target[..];
    end := WritePayloadToArray(u, target, mid);
    WroteThen(s0, s1, target[..], at, WriteVarint(UnknownTag(u)), mid, WritePayload(u), end);
  }

  method WritePayloadToArray(u: Unknown, target: array<Byte>, at: nat) returns (end: nat)
    requires at + |WritePayload(u)| <= target.Length
    modifies target
    ensures Wrote(old(target[..]), target[..], at, WritePayload(u), end)
    decreases u, 1
  {
    match u {
      case UVarint(_, v) => end := WriteVarintToArray(v, target, at);
      case UFixed64(_, v) => end := WriteRawToArray(WriteFixed64(v), target, at);
      case UString(_, b) => end := WriteStringToArray(b, target, at);
      case UFixed32(_, v) => end := WriteRawToArray(WriteFixed32(v), target, at);
      case UGroup(n, us) =>
        ghost var s0 := target[..];
        var mid := WriteUnknownsToArray(us, target, at);
        ghost var s1 := target[..];
        end := WriteVarintToArray(MakeTag(n, WIRETYPE_END_GROUP), target, mid);
        WroteThen(s0, s1, target[..], at, WriteUnknowns(us), mid, WriteVarint(MakeTag(n, WIRETYPE_END_GROUP)), end);
    }
  }

  // ------------------------------------------------------------ onto a stream

  /** CodedOutputStream, seen as the bytes written so far and the room left in the current buffer.  How
      large the buffers are is up to the sink: `supply` gives their sizes. */
  class CodedOutputStream {
    const supply: nat -> nat
    var bytes: Bytes
    var room: nat
    var refreshed: nat

    constructor (supply: nat -> nat)
      ensures bytes == []
    {
      this.supply := supply;
      bytes, room, refreshed := [], supply(0), 1;
    }

    method WriteRaw(b: Bytes)
      modifies this
      ensures bytes == old(bytes) + b
    {
      bytes := bytes + b;
      if |b| <= room {
        room := room - |b|;
      } else {
        room, refreshed := supply(refreshed), refreshed + 1;
      }
    }

    /** A piece of the current buffer for the caller to fill, if that has so much room. */
    method GetDirectBufferForNBytesAndAdvance(size: nat) returns (buffer: array?<Byte>)
      modifies this`room
      ensures (buffer != null) == (size <= old(room))
      ensures buffer != null ==> fresh(buffer) && buffer.Length == size
    {
      if room < size { return null; }
      room := room - size;
      buffer := new Byte[size];
    }

    /** The piece is filled, and its contents stand in the stream. */
    method Filled(buffer: array<Byte>)
      modifies this`bytes
      ensures bytes == old(bytes) + buffer[..]
    {
      bytes := bytes + buffer[..];
    }

    /** WriteVarint64, slow path: the bytes are composed first, low group first. */
    method WriteVarint(value: nat)
      modifies this
      ensures bytes == old(bytes) + Wire.WriteVarint(value)
    {
      hide Wire.WriteVarint;
      var v := value;
      var composed: Bytes := [];
      while v > 0x7f
        invariant bytes == old(bytes) && composed + Wire.WriteVarint(v) == Wire.WriteVarint(value)
      {
        FirstVarintByte(v);
        ConcatAssociative(composed, [v % 128 + 128], Wire.WriteVarint(v / 128));
        composed, v := composed + [v % 128 + 128], v / 128;
      }
      FirstVarintByte(v);
      WriteRaw(composed + [v]);
    }

    method WriteString(b: Bytes)
      modifies this
      ensures bytes == old(bytes) + Wire.WriteString(b)
    {
      WriteVarint(|b|);
      WriteRaw(b);
      ConcatAssociative(old(bytes), Wire.WriteVarint(|b|), b);
    }

    method WriteTagged(tag: nat, payload: Bytes)
      modifies this
      ensures bytes == old(bytes) + (Wire.WriteVarint(tag) + payload)
    {
      WriteVarint(tag);
      WriteRaw(payload);
      ConcatAssociative(old(bytes), Wire.WriteVarint(tag), payload);
    }

    /** SerializeUnknownFields. */
    method WriteUnknowns(us: seq<Unknown>)
      modifies this
      ensures bytes == old(bytes) + Wire.WriteUnknowns(us)
      decreases us, 0
    {
      for i := 0 to |us|
        invariant bytes == old(bytes) + Wire.WriteUnknowns(us[..i])
      {
        WriteUnknown(us[i]);
        assert us[..i + 1] == us[..i] + [us[i]];
        UnknownsAppend(us[..i], us[i]);
        ConcatAssociative(old(bytes), Wire.WriteUnknowns(us[..i]), Wire.WriteUnknown(us[i]));
      }
      assert us[..|us|] == us;
    }

    method WriteUnknown(u: Unknown)
      modifies this
      ensures bytes == old(bytes) + Wire.WriteUnknown(u)
      decreases u, 2
    {
      WriteVarint(UnknownTag(u));
      WritePayload(u);
      ConcatAssociative(old(bytes), Wire.WriteVarint(UnknownTag(u)), Wire.WritePayload(u));
    }

    method WritePayload(u: Unknown)
      modifies this
      ensures bytes == old(bytes) + Wire.WritePayload(u)
      decreases u, 1
    {
      match u {
        case UVarint(_, v) => WriteVarint(v);
        case UFixed64(_, v) => WriteRaw(WriteFixed64(v));
        case UString(_, b) => WriteString(b);
        case UFixed32(_, v) => WriteRaw(WriteFixed32(v));
        case UGroup(n, us) =>
          WriteUnknowns(us);
          WriteVarint(MakeTag(n, WIRETYPE_END_GROUP));
          ConcatAssociative(old(bytes), Wire.WriteUnknowns(us), Wire.WriteVarint(MakeTag(n, WIRETYPE_END_GROUP)));
      }
    }
  }
}
