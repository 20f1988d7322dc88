/**
  The decoding loop shared by all the generated `Unmarshal` methods.  A message
  type is described by which field numbers it knows and how each one is stored.
  A decode is reading the input as a list of items and folding the items into
  the message; what holds of concatenated and extended inputs follows from that.
 */
module Decoder {
  import opened Bits
  import opened Varint
  import opened Skip

  datatype Kind = Scalar | Delimited | Unknown

  datatype Item =
    | ScalarItem(fieldNum: int, raw: nat)
    | BytesItem(fieldNum: int, bytes: seq<byte>)
    | UnknownItem(fieldNum: int)

  datatype Found = Found(item: Item, next: nat)

  datatype Schema<!M> = Schema(
    kind: int -> Kind,
    setScalar: (M, int, nat) -> M,
    setBytes: (M, int, seq<byte>) -> Outcome<M>)

  datatype State<+M> = State(message: M, next: nat)

  /** The bytes of a length-delimited field whose length prefix is at `i`. */
  function ReadSpan(s: seq<byte>, i: nat): (r: Outcome<Parsed>)
    ensures r.Ok? ==> i < r.value.raw <= r.value.next <= |s|
  {
    match ReadLength(s, i)
    case Err(e) => Err(e)
    case Ok(length) =>
      if length.next + length.raw >= TWO_63 then Err(InvalidLength)
      else if length.next + length.raw > |s| then Err(UnexpectedEOF)
      else Ok(Parsed(length.next, length.next + length.raw))
  }

  /** Where an unknown field that starts at `i` ends. */
  function ReadUnknown(s: seq<byte>, i: nat): (r: Outcome<nat>)
    requires i <= |s|
    ensures r.Ok? ==> i < r.value <= |s|
  {
    match SkipFrom(s[i..], 0, 0)
    case Err(e) => Err(e)
    case Ok(n) =>
      if i + n >= TWO_63 then Err(InvalidLength)
      else if i + n > |s| then Err(UnexpectedEOF)
      else Ok(i + n)
  }

  /** The field at `i`: its tag, the checks on the tag, and its payload. */
  function ReadItem(kind: int -> Kind, s: seq<byte>, i: nat): (r: Outcome<Found>)
    requires i <= |s|
    ensures r.Ok? ==> i < r.value.next <= |s|
  {
    match ReadTag(s, i)
    case Err(e) => Err(e)
    case Ok(tag) =>
      var fieldNum, wireType := ToSigned32(tag.raw / 8), tag.raw % 8;
      if wireType == 4 then Err(EndGroupOutsideGroup)
      else if fieldNum <= 0 then Err(IllegalTag(fieldNum))
      else
        match kind(fieldNum)
        case Scalar =>
          if wireType != 0 then Err(WrongWireType(fieldNum, wireType))
          else (
            match ParseVarint(s, tag.next, 0)
            case Err(e) => Err(e)
            case Ok(p) => Ok(Found(ScalarItem(fieldNum, p.raw), p.next)))
        case Delimited =>
          if wireType != 2 then Err(WrongWireType(fieldNum, wireType))
          else (
            match ReadSpan(s, tag.next)
            case Err(e) => Err(e)
            case Ok(p) => Ok(Found(BytesItem(fieldNum, s[p.raw..p.next]), p.next)))
        case Unknown =>
          match ReadUnknown(s, i)
          case Err(e) => Err(e)
          case Ok(n) => Ok(Found(UnknownItem(fieldNum), n))
  }

  /** Stores one item. */
  function Put<M>(sch: Schema<M>, m: M, item: Item): Outcome<M> {
    match item
    case ScalarItem(fieldNum, raw) => Ok(sch.setScalar(m, fieldNum, raw))
    case BytesItem(fieldNum, bytes) => sch.setBytes(m, fieldNum, bytes)
    case UnknownItem(_) => Ok(m)
  }

  /** One turn of an `Unmarshal` loop. */
  function Step<M>(sch: Schema<M>, s: seq<byte>, i: nat, m: M): (r: Outcome<State<M>>)
    requires i <= |s|
    ensures r.Ok? ==> i < r.value.next <= |s|
  {
    match ReadItem(sch.kind, s, i)
    case Err(e) => Err(e)
    case Ok(found) =>
      match Put(sch, m, found.item)
      case Err(e) => Err(e)
      case Ok(m') => Ok(State(m', found.next))
  }

  /** `Unmarshal` into `m`, from index `i` to the end of the input. */
  function Decode<M>(sch: Schema<M>, s: seq<byte>, i: nat, m: M): Outcome<M>
    requires i <= |s|
    decreases |s| - i
  {
    if i == |s| then Ok(m)
    else
      match Step(sch, s, i, m)
      case Err(e) => Err(e)
      case Ok(st) => Decode(sch, s, st.next, st.message)
  }

  // ----- a decode is a list of items folded into the message

  function ReadAll(kind: int -> Kind, s: seq<byte>, i: nat): Outcome<seq<Item>>
    requires i <= |s|
    decreases |s| - i
  {
    if i == |s| then Ok([])
    else
      match ReadItem(kind, s, i)
      case Err(e) => Err(e)
      case Ok(found) =>
        match ReadAll(kind, s, found.next)
        case Err(e) => Err(e)
        case Ok(items) => Ok([found.item] + items)
  }

  function PutAll<M>(sch: Schema<M>, m: M, items: seq<Item>): Outcome<M> {
    if items == [] then Ok(m)
    else
      match Put(sch, m, items[0])
      case Err(e) => Err(e)
      case Ok(m') => PutAll(sch, m', items[1..])
  }

  /** A decode succeeds exactly when the whole input reads as items and every item
      can be stored, and then the result is the fold. */
  lemma {:induction false} DecodeIsFold<M>(sch: Schema<M>, s: seq<byte>, i: nat, m: M)
    requires i <= |s|
    ensures Decode(sch, s, i, m).Ok? <==>
            ReadAll(sch.kind, s, i).Ok? && PutAll(sch, m, ReadAll(sch.kind, s, i).value).Ok?
    ensures Decode(sch, s, i, m).Ok? ==>
              Decode(sch, s, i, m) == PutAll(sch, m, ReadAll(sch.kind, s, i).value)
    decreases |s| - i
  {
    hide ReadItem;
    if i < |s| && ReadItem(sch.kind, s, i).Ok? {
      var found := ReadItem(sch.kind, s, i).value;
      if Put(sch, m, found.item).Ok? {
        DecodeIsFold(sch, s, found.next, Put(sch, m, found.item).value);
      }
      if ReadAll(sch.kind, s, found.next).Ok? {
        var items := ReadAll(sch.kind, s, found.next).value;
        assert ([found.item] + items)[1..] == items;
      }
    }
  }

  lemma {:induction false} PutAllAppend<M>(sch: Schema<M>, m: M, xs: seq<Item>, ys: seq<Item>)
    ensures PutAll(sch, m, xs + ys) ==
            match PutAll(sch, m, xs) { case Err(e) => Err(e) case Ok(m') => PutAll(sch, m', ys) }
  {
    hide Put;
    if xs == [] {
      assert xs + ys == ys;
    } else {
      assert (xs + ys)[1..] == xs[1..] + ys;
      if Put(sch, m, xs[0]).Ok? {
        PutAllAppend(sch, Put(sch, m, xs[0]).value, xs[1..], ys);
      }
    }
  }

  // ----- reading an item depends only on the item's own bytes

  lemma ReadTagLocal(s: seq<byte>, i: nat, t: seq<byte>, k: nat, n: nat)
    requires ReadTag(s, i).Ok? && ReadTag(s, i).value.next <= n <= |s| && At(t, k, s[i..n])
    ensures var p := ReadTag(s, i).value;
            ReadTag(t, k) == Ok(Parsed(p.raw, k + (p.next - i))) && At(t, k + (p.next - i), s[p.next..n])
  {
    hide ParseVarint;
    var j := ReadTag(s, i).value.next;
    assert s[i..n] == s[i..j] + s[j..n];
    AtSplit(t, k, s[i..j], s[j..n]);
    ParseLocal(s, i, t, k, 0);
  }

  lemma ReadSpanLocal(s: seq<byte>, i: nat, t: seq<byte>, k: nat)
    requires ReadSpan(s, i).Ok? && |t| < TWO_63 && At(t, k, s[i..ReadSpan(s, i).value.next])
    ensures var p := ReadSpan(s, i).value;
            && ReadSpan(t, k) == Ok(Parsed(k + (p.raw - i), k + (p.next - i)))
            && t[k + (p.raw - i)..k + (p.next - i)] == s[p.raw..p.next]
  {
    hide ParseVarint;
    var p := ReadSpan(s, i).value;
    assert s[i..p.next] == s[i..p.raw] + s[p.raw..p.next];
    AtSplit(t, k, s[i..p.raw], s[p.raw..p.next]);
    ParseLocal(s, i, t, k, 0);
  }

  lemma ReadUnknownLocal(s: seq<byte>, i: nat, t: seq<byte>, k: nat)
    requires i <= |s| && ReadUnknown(s, i).Ok? && |t| < TWO_63 && At(t, k, s[i..ReadUnknown(s, i).value])
    ensures ReadUnknown(t, k) == Ok(k + (ReadUnknown(s, i).value - i))
  {
    hide SkipFrom;
    var n := ReadUnknown(s, i).value - i;
    assert s[i..][0..n] == s[i..i + n];
    assert t[k..][0..n] == t[k..k + n];
    SkipLocal(s[i..], 0, t[k..], 0);
  }

  lemma ReadItemLocal(kind: int -> Kind, s: seq<byte>, i: nat, t: seq<byte>, k: nat)
    requires i <= |s| && ReadItem(kind, s, i).Ok? && |t| < TWO_63
    requires At(t, k, s[i..ReadItem(kind, s, i).value.next])
    ensures var f := ReadItem(kind, s, i).value;
            ReadItem(kind, t, k) == Ok(Found(f.item, k + (f.next - i)))
  {
    hide ParseVarint, ReadTag, ReadSpan, ReadUnknown;
    var f := ReadItem(kind, s, i).value;
    var tag := ReadTag(s, i).value;
    assert tag.next <= f.next || kind(ToSigned32(tag.raw / 8)) == Unknown;
    match kind(ToSigned32(tag.raw / 8)) {
      case Scalar =>
        ReadTagLocal(s, i, t, k, f.next);
        ParseLocal(s, tag.next, t, k + (tag.next - i), 0);
      case Delimited =>
        ReadTagLocal(s, i, t, k, f.next);
        ReadSpanLocal(s, tag.next, t, k + (tag.next - i));
      case Unknown =>
        TagInsideUnknown(s, i);
        ReadTagLocal(s, i, t, k, f.next);
        ReadUnknownLocal(s, i, t, k);
    }
  }

  /** An unknown field is at least its tag long. */
  lemma TagInsideUnknown(s: seq<byte>, i: nat)
    requires i <= |s| && ReadTag(s, i).Ok? && ReadUnknown(s, i).Ok?
    ensures ReadTag(s, i).value.next <= ReadUnknown(s, i).value
  {
    hide ParseVarint;
    var n := ReadUnknown(s, i).value - i;
    var t := FirstToken(s[i..], 0, 0);
    var tail := s[i..];
    var j := ReadTag(tail, 0).value.next;
    assert tail[0..j] == s[i..i + j];
    ParseLocal(tail, 0, s, i, 0);
  }

  // ----- concatenated inputs

  lemma {:induction false} ReadAllPrefix(kind: int -> Kind, a: seq<byte>, b: seq<byte>, i: nat)
    requires i <= |a| && |a + b| < TWO_63 && ReadAll(kind, a, i).Ok?
    ensures ReadAll(kind, a + b, i).Ok? <==> ReadAll(kind, a + b, |a|).Ok?
    ensures ReadAll(kind, a + b, i).Ok? ==>
              ReadAll(kind, a + b, i).value == ReadAll(kind, a, i).value + ReadAll(kind, a + b, |a|).value
    decreases |a| - i
  {
    hide ReadItem;
    if i < |a| {
      var f := ReadItem(kind, a, i).value;
      assert (a + b)[i..i + (f.next - i)] == a[i..f.next];
      ReadItemLocal(kind, a, i, a + b, i);
      ReadAllPrefix(kind, a, b, f.next);
    }
  }

  lemma ShiftedSlice(a: seq<byte>, b: seq<byte>, i: nat, j: nat)
    requires i <= j <= |b|
    ensures (a + b)[|a| + i..|a| + j] == b[i..j]
  {}

  lemma {:induction false} ReadAllShift(kind: int -> Kind, a: seq<byte>, b: seq<byte>, i: nat)
    requires i <= |b| && |a + b| < TWO_63
    ensures ReadAll(kind, a + b, |a| + i).Ok? <==> ReadAll(kind, b, i).Ok?
    ensures ReadAll(kind, b, i).Ok? ==> ReadAll(kind, a + b, |a| + i) == ReadAll(kind, b, i)
    decreases |b| - i
  {
    hide ReadItem;
    var t, k := a + b, |a| + i;
    if i < |b| {
      if ReadItem(kind, b, i).Ok? {
        var j := ReadItem(kind, b, i).value.next;
        ShiftedSlice(a, b, i, j);
        assert k + (j - i) == |a| + j;
        ReadItemLocal(kind, b, i, t, k);
        ReadAllShift(kind, a, b, j);
      } else if ReadItem(kind, t, k).Ok? {
        var j := ReadItem(kind, t, k).value.next;
        ShiftedSlice(a, b, i, j - |a|);
        assert i + (j - k) == j - |a|;
        ReadItemLocal(kind, t, k, b, i);
      }
    }
  }

  /** Reading two inputs put together is reading the one and then the other. */
  lemma ReadAllConcat(kind: int -> Kind, a: seq<byte>, b: seq<byte>)
    requires |a + b| < TWO_63 && ReadAll(kind, a, 0).Ok?
    ensures ReadAll(kind, a + b, 0).Ok? <==> ReadAll(kind, b, 0).Ok?
    ensures ReadAll(kind, b, 0).Ok? ==>
              ReadAll(kind, a + b, 0) == Ok(ReadAll(kind, a, 0).value + ReadAll(kind, b, 0).value)
  {
    hide ReadAll;
    ReadAllPrefix(kind, a, b, 0);
    ReadAllShift(kind, a, b, 0);
  }

  /** Both fail, or both succeed with the same message. */
  ghost predicate SameResult<M>(r: Outcome<M>, q: Outcome<M>) {
    r.Ok? == q.Ok? && (r.Ok? ==> r == q)
  }

  /** Decoding a concatenation is decoding the second part into the result of the first. */
  lemma ConcatIsMerge<M>(sch: Schema<M>, a: seq<byte>, b: seq<byte>, m: M)
    requires |a + b| < TWO_63 && Decode(sch, a, 0, m).Ok?
    ensures SameResult(Decode(sch, a + b, 0, m), Decode(sch, b, 0, Decode(sch, a, 0, m).value))
  {
    hide Decode, ReadAll, PutAll;
    var x := Decode(sch, a, 0, m).value;
    DecodeIsFold(sch, a, 0, m);
    DecodeIsFold(sch, a + b, 0, m);
    DecodeIsFold(sch, b, 0, x);
    ReadAllConcat(sch.kind, a, b);
    if ReadAll(sch.kind, b, 0).Ok? {
      PutAllAppend(sch, m, ReadAll(sch.kind, a, 0).value, ReadAll(sch.kind, b, 0).value);
    }
  }

  // ----- unknown fields

  /** A field that a message of this kind does not know, with a legal number. */
  predicate IsUnknownField(kind: int -> Kind, f: Field) {
    WellFormed(f) && var num := ToSigned32((RawOf(f.tag) % TWO_64) / 8); num > 0 && kind(num) == Unknown
  }

  lemma TagFirst(f: Field)
    requires WellFormed(f)
    ensures |f.tag| <= |FieldBytes(f)| && FieldBytes(f)[..|f.tag|] == f.tag
    ensures IsVarint(f.tag) && WireType(RawOf(f.tag)) != 4
  {}

  lemma UnknownItemRead(kind: int -> Kind, f: Field)
    requires IsUnknownField(kind, f) && |FieldBytes(f)| < TWO_63
    ensures var num := ToSigned32((RawOf(f.tag) % TWO_64) / 8);
            ReadAll(kind, FieldBytes(f), 0) == Ok([UnknownItem(num)])
  {
    hide ParseVarint, SkipFrom, WellFormed, FieldBytes;
    var e := FieldBytes(f);
    TagFirst(f);
    assert e[0..|f.tag|] == f.tag;
    VarintAt(e, 0, f.tag);
    assert e[0..] == e && e[0..|e|] == e;
    SkipsField(e, 0, f, 0);
    assert ReadUnknown(e, 0) == Ok(|e|);
    var num := ToSigned32((RawOf(f.tag) % TWO_64) / 8);
    assert ReadItem(kind, e, 0) == Ok(Found(UnknownItem(num), |e|));
    assert ReadAll(kind, e, |e|) == Ok([]);
    assert [UnknownItem(num)] + [] == [UnknownItem(num)];
  }

  /** An unknown field between fields of a message changes nothing. */
  lemma UnknownFieldIsTransparent<M>(sch: Schema<M>, a: seq<byte>, f: Field, b: seq<byte>, m: M)
    requires |a + FieldBytes(f) + b| < TWO_63
    requires ReadAll(sch.kind, a, 0).Ok? && IsUnknownField(sch.kind, f)
    ensures SameResult(Decode(sch, a + FieldBytes(f) + b, 0, m), Decode(sch, a + b, 0, m))
  {
    hide Decode, ReadAll, PutAll, IsUnknownField, FieldBytes;
    var e := FieldBytes(f);
    assert a + e + b == a + (e + b);
    UnknownItemRead(sch.kind, f);
    ReadAllConcat(sch.kind, e, b);
    ReadAllConcat(sch.kind, a, e + b);
    ReadAllConcat(sch.kind, a, b);
    DecodeIsFold(sch, a + (e + b), 0, m);
    DecodeIsFold(sch, a + b, 0, m);
    if ReadAll(sch.kind, b, 0).Ok? {
      var xs, u, ys := ReadAll(sch.kind, a, 0).value, ReadAll(sch.kind, e, 0).value, ReadAll(sch.kind, b, 0).value;
      PutAllAppend(sch, m, xs, u + ys);
      PutAllAppend(sch, m, xs, ys);
      if PutAll(sch, m, xs).Ok? {
        PutUnknown(sch, PutAll(sch, m, xs).value, u[0], ys);
      }
    }
  }

  lemma PutUnknown<M>(sch: Schema<M>, m: M, u: Item, ys: seq<Item>)
    requires u.UnknownItem?
    ensures PutAll(sch, m, [u] + ys) == PutAll(sch, m, ys)
  {
    assert ([u] + ys)[1..] == ys;
  }
}
