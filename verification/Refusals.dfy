/**
  How a decode fails.  An input that breaks off inside a field is reported as an
  unexpected end, whatever the field and however deeply it nests; ten continuation
  bytes in a row are an overflow; and a tag that no message may hold is named.
 */
module Refusals {
  import opened Bits
  import opened Varint
  import opened Skip
  import opened Decoder
  import opened Language

  // ----- varints

  /** The loop from the `n`th byte of a varint on. */
  lemma {:induction false} VarintFailsFrom(s: seq<byte>, i: nat, n: nat)
    requires i <= |s| && n <= 10
    ensures ParseVarint(s, i, 7 * n) == Err(IntOverflow) <==>
            i + (10 - n) <= |s| && forall k :: i <= k < i + (10 - n) ==> s[k] >= 128
    ensures ParseVarint(s, i, 7 * n) == Err(UnexpectedEOF) <==>
            |s| < i + (10 - n) && forall k :: i <= k < |s| ==> s[k] >= 128
    decreases 10 - n
  {
    if n < 10 && i < |s| && s[i] >= 128 {
      VarintFailsFrom(s, i + 1, n + 1);
    }
  }

  /** A varint overflows when ten bytes in a row are marked as not the last, and ends
      unexpectedly when fewer are left and all are so marked. */
  lemma VarintFails(s: seq<byte>, i: nat)
    requires i <= |s|
    ensures ParseVarint(s, i, 0) == Err(IntOverflow) <==>
            i + 10 <= |s| && forall k :: i <= k < i + 10 ==> s[k] >= 128
    ensures ParseVarint(s, i, 0) == Err(UnexpectedEOF) <==>
            |s| < i + 10 && forall k :: i <= k < |s| ==> s[k] >= 128
  {
    VarintFailsFrom(s, i, 0);
  }

  lemma {:induction false} VarintShapeFrom(v: seq<byte>, i: nat, n: nat)
    requires n <= 10 && ParseVarint(v, i, 7 * n).Ok? && ParseVarint(v, i, 7 * n).value.next == |v|
    ensures i < |v| <= i + (10 - n) && forall k :: i <= k < |v| - 1 ==> v[k] >= 128
    decreases 10 - n
  {
    if v[i] >= 128 {
      VarintShapeFrom(v, i + 1, n + 1);
    }
  }

  /** What is left of the input is a proper part of `b`, from its start. */
  predicate CutShort(s: seq<byte>, i: nat, b: seq<byte>) {
    i <= |s| && |s| - i < |b| && s[i..] == b[..|s| - i]
  }

  lemma VarintCut(s: seq<byte>, i: nat, v: seq<byte>)
    requires IsVarint(v) && CutShort(s, i, v)
    ensures ParseVarint(s, i, 0) == Err(UnexpectedEOF)
  {
    VarintShapeFrom(v, 0, 0);
    VarintFails(s, i);
    hide ParseVarint;
    forall k | i <= k < |s|
      ensures s[k] >= 128
    {
      assert s[k] == s[i..][k - i] == v[k - i];
    }
  }

  /** A cut runs through the first part, or through what follows it. */
  lemma CutOf(s: seq<byte>, i: nat, a: seq<byte>, b: seq<byte>)
    requires CutShort(s, i, a + b)
    ensures CutShort(s, i, a) || (At(s, i, a) && CutShort(s, i + |a|, b))
  {
    var n := |s| - i;
    var c := a + b;
    if n < |a| {
      assert c[..n] == a[..n];
    } else {
      assert s[i..i + |a|] == s[i..][..|a|] == c[..n][..|a|] == a;
      assert s[i + |a|..] == s[i..][|a|..] == c[..n][|a|..] == b[..n - |a|];
    }
  }

  // ----- skipped fields

  /** The scan ends unexpectedly; or, outside any group, beyond the end of the input, at
      `end` at the most. */
  predicate RunsOut(s: seq<byte>, r: Outcome<nat>, depth: nat, end: nat) {
    r == Err(UnexpectedEOF) || (depth == 0 && r.Ok? && |s| < r.value <= end)
  }

  lemma TagCut(s: seq<byte>, i: nat, tag: seq<byte>, depth: nat)
    requires IsVarint(tag) && CutShort(s, i, tag)
    ensures SkipFrom(s, i, depth) == Err(UnexpectedEOF)
  {
    hide ParseVarint;
    VarintCut(s, i, tag);
  }

  lemma TagAt(s: seq<byte>, i: nat, tag: seq<byte>)
    requires IsVarint(tag) && At(s, i, tag)
    ensures ReadTag(s, i) == Ok(Parsed(RawOf(tag) % TWO_64, i + |tag|)) && |tag| > 0
  {
    hide ParseVarint;
    VarintAt(s, i, tag);
  }

  /** A token that leads beyond the end ends the scan there. */
  lemma TokenBeyond(s: seq<byte>, i: nat, depth: nat, t: Token)
    requires i < |s| && ReadToken(s, i) == Ok(t) && |s| < t.next < TWO_63 && t.wireType !in {3, 4}
    ensures RunsOut(s, SkipFrom(s, i, depth), depth, t.next)
  {
    hide ReadToken;
  }

  /** A field of a fixed size. */
  lemma FixedCut(s: seq<byte>, i: nat, tag: seq<byte>, wireType: nat, size: nat, body: seq<byte>, depth: nat)
    requires IsTag(tag, wireType) && ((wireType == 1 && size == 8) || (wireType == 5 && size == 4)) && |body| == size
    requires CutShort(s, i, tag + body) && i + |tag| + size < TWO_63
    ensures RunsOut(s, SkipFrom(s, i, depth), depth, i + |tag| + size)
  {
    hide ParseVarint, SkipFrom;
    CutOf(s, i, tag, body);
    if CutShort(s, i, tag) {
      TagCut(s, i, tag, depth);
    } else {
      TagAt(s, i, tag);
      TokenBeyond(s, i, depth, Token(wireType, i + |tag| + size));
    }
  }

  lemma VarintFieldCut(s: seq<byte>, i: nat, tag: seq<byte>, value: seq<byte>, depth: nat)
    requires IsTag(tag, 0) && IsVarint(value) && CutShort(s, i, tag + value)
    ensures SkipFrom(s, i, depth) == Err(UnexpectedEOF)
  {
    hide ParseVarint;
    CutOf(s, i, tag, value);
    if CutShort(s, i, tag) {
      TagCut(s, i, tag, depth);
    } else {
      TagAt(s, i, tag);
      VarintCut(s, i + |tag|, value);
    }
  }

  lemma BytesFieldCut(s: seq<byte>, i: nat, tag: seq<byte>, length: seq<byte>, body: seq<byte>, depth: nat)
    requires IsTag(tag, 2) && IsVarint(length) && ToSigned64(RawOf(length)) == |body|
    requires CutShort(s, i, tag + (length + body)) && i + |tag| + |length| + |body| < TWO_63
    ensures RunsOut(s, SkipFrom(s, i, depth), depth, i + |tag| + |length| + |body|)
  {
    hide ParseVarint;
    CutOf(s, i, tag, length + body);
    if CutShort(s, i, tag) {
      TagCut(s, i, tag, depth);
    } else {
      TagAt(s, i, tag);
      CutOf(s, i + |tag|, length, body);
      if CutShort(s, i + |tag|, length) {
        VarintCut(s, i + |tag|, length);
      } else {
        VarintAt(s, i + |tag|, length);
        TokenBeyond(s, i, depth, Token(2, i + |tag| + |length| + |body|));
      }
    }
  }

  lemma SimpleCut(s: seq<byte>, i: nat, f: Field, depth: nat)
    requires WellFormed(f) && !f.GroupField? && CutShort(s, i, FieldBytes(f)) && i + |FieldBytes(f)| < TWO_63
    ensures RunsOut(s, SkipFrom(s, i, depth), depth, i + |FieldBytes(f)|)
  {
    hide SkipFrom, IsVarint, IsTag, CutShort;
    match f
    case VarintField(tag, value) => VarintFieldCut(s, i, tag, value, depth);
    case Fixed64Field(tag, body) => FixedCut(s, i, tag, 1, 8, body, depth);
    case BytesField(tag, length, body) =>
      assert tag + length + body == tag + (length + body);
      BytesFieldCut(s, i, tag, length, body, depth);
    case Fixed32Field(tag, body) => FixedCut(s, i, tag, 5, 4, body, depth);
  }

  /** A field that breaks off cannot be skipped. */
  lemma {:induction false} FieldCut(s: seq<byte>, i: nat, f: Field, depth: nat)
    requires WellFormed(f) && CutShort(s, i, FieldBytes(f)) && i + |FieldBytes(f)| < TWO_63
    ensures RunsOut(s, SkipFrom(s, i, depth), depth, i + |FieldBytes(f)|)
    decreases f
  {
    hide SkipFrom, ReadToken, IsTag, IsVarint;
    if f.GroupField? {
      var inner := AllBytes(f.fields);
      assert f.tag + inner + f.end == f.tag + (inner + f.end);
      CutOf(s, i, f.tag, inner + f.end);
      TagsAreVarints(f);
      if CutShort(s, i, f.tag) {
        TagCut(s, i, f.tag, depth);
      } else {
        ReadsTag(s, i, f.tag, 3);
        SkipTurn(s, i, depth, Token(3, i + |f.tag|));
        CutOf(s, i + |f.tag|, inner, f.end);
        if CutShort(s, i + |f.tag|, inner) {
          FieldsCut(s, i + |f.tag|, f.fields, depth + 1);
        } else {
          SkipsFields(s, i + |f.tag|, f.fields, depth + 1);
          TagCut(s, i + |f.tag| + |inner|, f.end, depth + 1);
        }
      }
    } else {
      SimpleCut(s, i, f, depth);
    }
  }

  lemma TagsAreVarints(f: Field)
    requires WellFormed(f) && f.GroupField?
    ensures IsVarint(f.tag) && IsVarint(f.end) && IsTag(f.tag, 3) && IsTag(f.end, 4)
  {}

  lemma {:induction false} FieldsCut(s: seq<byte>, i: nat, fs: Fields, depth: nat)
    requires AllWellFormed(fs) && CutShort(s, i, AllBytes(fs)) && i + |AllBytes(fs)| < TWO_63 && depth > 0
    ensures SkipFrom(s, i, depth) == Err(UnexpectedEOF)
    decreases fs
  {
    hide SkipFrom, ReadToken, WellFormed;
    match fs
    case NoFields =>
    case MoreFields(head, tail) =>
      CutOf(s, i, FieldBytes(head), AllBytes(tail));
      if CutShort(s, i, FieldBytes(head)) {
        FieldCut(s, i, head, depth);
      } else {
        SkipsField(s, i, head, depth);
        FieldsCut(s, i + |FieldBytes(head)|, tail, depth);
      }
  }

  // ----- messages

  lemma ItemCut(kind: int -> Kind, s: seq<byte>, i: nat, f: Field)
    requires Legal(kind, f) && CutShort(s, i, FieldBytes(f)) && i + |FieldBytes(f)| < TWO_63
    ensures ReadItem(kind, s, i) == Err(UnexpectedEOF)
  {
    hide Legal, FieldBytes, ReadItem, IsVarint, RawOf, At, CutShort, ReadTag, WellFormed;
    TagAndRest(kind, f);
    CutOf(s, i, f.tag, FieldBytes(f)[|f.tag|..]);
    if CutShort(s, i, f.tag) {
      ItemTagCut(kind, s, i, f.tag);
    } else {
      TagAt(s, i, f.tag);
      match kind(Number(f.tag))
      case Scalar => ScalarCut(kind, s, i, f);
      case Delimited => DelimitedCut(kind, s, i, f);
      case Unknown => ItemUnknownCut(kind, s, i, f);
    }
  }

  lemma TagAndRest(kind: int -> Kind, f: Field)
    requires Legal(kind, f)
    ensures IsVarint(f.tag) && |f.tag| <= |FieldBytes(f)| && FieldBytes(f) == f.tag + FieldBytes(f)[|f.tag|..]
  {
    TagFirst(f);
    hide FieldBytes;
  }

  lemma ItemTagCut(kind: int -> Kind, s: seq<byte>, i: nat, tag: seq<byte>)
    requires IsVarint(tag) && CutShort(s, i, tag)
    ensures ReadItem(kind, s, i) == Err(UnexpectedEOF)
  {
    hide ParseVarint;
    VarintCut(s, i, tag);
  }

  lemma ItemUnknownCut(kind: int -> Kind, s: seq<byte>, i: nat, f: Field)
    requires Legal(kind, f) && kind(Number(f.tag)) == Unknown
    requires CutShort(s, i, FieldBytes(f)) && i + |FieldBytes(f)| < TWO_63
    requires ReadTag(s, i) == Ok(Parsed(RawOf(f.tag) % TWO_64, i + |f.tag|))
    ensures ReadItem(kind, s, i) == Err(UnexpectedEOF)
  {
    TagFirst(f);
    hide ReadTag, ParseVarint, WellFormed, FieldBytes, ReadUnknown;
    UnknownCut(s, i, f);
  }

  lemma ScalarCut(kind: int -> Kind, s: seq<byte>, i: nat, f: Field)
    requires Legal(kind, f) && kind(Number(f.tag)) == Scalar && CutShort(s, i + |f.tag|, FieldBytes(f)[|f.tag|..])
    requires ReadTag(s, i) == Ok(Parsed(RawOf(f.tag) % TWO_64, i + |f.tag|))
    ensures ReadItem(kind, s, i) == Err(UnexpectedEOF)
  {
    hide ReadTag, ParseVarint;
    assert FieldBytes(f)[|f.tag|..] == f.value;
    VarintCut(s, i + |f.tag|, f.value);
  }

  lemma DelimitedCut(kind: int -> Kind, s: seq<byte>, i: nat, f: Field)
    requires Legal(kind, f) && kind(Number(f.tag)) == Delimited && CutShort(s, i + |f.tag|, FieldBytes(f)[|f.tag|..])
    requires ReadTag(s, i) == Ok(Parsed(RawOf(f.tag) % TWO_64, i + |f.tag|)) && i + |FieldBytes(f)| < TWO_63
    ensures ReadItem(kind, s, i) == Err(UnexpectedEOF)
  {
    hide ReadTag, ParseVarint, ReadSpan;
    assert FieldBytes(f)[|f.tag|..] == f.length + f.body;
    SpanCut(s, i + |f.tag|, f);
  }

  lemma SpanCut(s: seq<byte>, i: nat, f: Field)
    requires WellFormed(f) && f.BytesField? && CutShort(s, i, f.length + f.body) && i + |f.length| + |f.body| < TWO_63
    ensures ReadSpan(s, i) == Err(UnexpectedEOF)
  {
    hide ParseVarint;
    CutOf(s, i, f.length, f.body);
    if CutShort(s, i, f.length) {
      VarintCut(s, i, f.length);
    } else {
      VarintAt(s, i, f.length);
    }
  }

  lemma UnknownCut(s: seq<byte>, i: nat, f: Field)
    requires WellFormed(f) && CutShort(s, i, FieldBytes(f)) && i + |FieldBytes(f)| < TWO_63
    ensures ReadUnknown(s, i) == Err(UnexpectedEOF)
  {
    hide WellFormed, FieldBytes, SkipFrom;
    assert s[i..][0..] == s[i..];
    FieldCut(s[i..], 0, f, 0);
  }

  /** Decoding an input that begins with a whole message comes to where that one ends. */
  lemma {:induction false} DecodeComesTo<M>(sch: Schema<M>, a: seq<byte>, b: seq<byte>, i: nat, m: M)
    requires i <= |a| && |a + b| < TWO_63 && Decode(sch, a, i, m).Ok?
    ensures Decode(sch, a + b, i, m) == Decode(sch, a + b, |a|, Decode(sch, a, i, m).value)
    decreases |a| - i
  {
    hide ReadItem, Put;
    if i < |a| {
      var f := ReadItem(sch.kind, a, i).value;
      assert (a + b)[i..i + (f.next - i)] == a[i..f.next];
      ReadItemLocal(sch.kind, a, i, a + b, i);
      DecodeComesTo(sch, a, b, f.next, Put(sch, m, f.item).value);
    }
  }

  /** A message that breaks off inside a field, after any fields, ends unexpectedly. */
  lemma BreaksOff<M>(sch: Schema<M>, a: seq<byte>, f: Field, n: nat, from: M)
    requires |a| + |FieldBytes(f)| < TWO_63
    requires Decode(sch, a, 0, from).Ok? && Legal(sch.kind, f) && 0 < n < |FieldBytes(f)|
    ensures Decode(sch, a + FieldBytes(f)[..n], 0, from) == Err(UnexpectedEOF)
  {
    hide FieldBytes, ReadItem, Legal;
    var b := FieldBytes(f)[..n];
    DecodeComesTo(sch, a, b, 0, from);
    assert (a + b)[|a|..] == b;
    ItemCut(sch.kind, a + b, |a|, f);
  }

  // ----- tags

  /** A tag that no message of this kind may hold is refused by name: the end of a group
      that was not begun, a number out of range, or a known number with another wire type. */
  lemma TagRefused(kind: int -> Kind, s: seq<byte>, i: nat, tag: seq<byte>)
    requires i <= |s| && IsVarint(tag) && At(s, i, tag)
    ensures var n, wireType := Number(tag), WireType(RawOf(tag));
            && (wireType == 4 ==> ReadItem(kind, s, i) == Err(EndGroupOutsideGroup))
            && (wireType != 4 && n <= 0 ==> ReadItem(kind, s, i) == Err(IllegalTag(n)))
            && (wireType !in {0, 4} && n > 0 && kind(n) == Scalar ==> ReadItem(kind, s, i) == Err(WrongWireType(n, wireType)))
            && (wireType !in {2, 4} && n > 0 && kind(n) == Delimited ==> ReadItem(kind, s, i) == Err(WrongWireType(n, wireType)))
            && (wireType !in {0, 1, 2, 3, 4, 5} && n > 0 && kind(n) == Unknown ==>
                  ReadItem(kind, s, i) == Err(IllegalWireType(wireType)))
  {
    TagAt(s, i, tag);
    hide ParseVarint, ReadSpan, ReadTag;
    if WireType(RawOf(tag)) !in {0, 1, 2, 3, 4, 5} {
      assert At(s[i..], 0, tag) by { assert s[i..][0..|tag|] == s[i..i + |tag|]; }
      TagAt(s[i..], 0, tag);
    }
  }

  /** A length is refused exactly when it is negative as a 64-bit `int`. */
  lemma LengthRefused(s: seq<byte>, i: nat)
    requires i <= |s| && ParseVarint(s, i, 0).Ok?
    ensures ReadLength(s, i) == Err(InvalidLength) <==> ParseVarint(s, i, 0).value.raw % TWO_64 >= TWO_63
  {}

  /** The bytes of a delimited field are refused when they would reach beyond the range of
      a 64-bit index, and otherwise missing when they reach beyond the input. */
  lemma SpanRefused(s: seq<byte>, i: nat)
    requires ReadLength(s, i).Ok?
    ensures var end := ReadLength(s, i).value.next + ReadLength(s, i).value.raw;
            && (end >= TWO_63 ==> ReadSpan(s, i) == Err(InvalidLength))
            && (|s| < end < TWO_63 ==> ReadSpan(s, i) == Err(UnexpectedEOF))
            && (end <= |s| && end < TWO_63 ==> ReadSpan(s, i).Ok?)
  {}

  /** The end of a group that was not begun is no field. */
  lemma EndWithoutGroup(s: seq<byte>, i: nat, tag: seq<byte>)
    requires IsTag(tag, 4) && At(s, i, tag)
    ensures SkipFrom(s, i, 0) == Err(UnexpectedEndOfGroup)
  {
    ReadsTag(s, i, tag, 4);
    hide ReadToken;
  }
}
