/**
  What a decoder accepts and what it makes of it, without an index or a loop: the
  input is a list of fields of the grammar in `Skip`, each with a legal number and
  the wire type its number calls for, and the message is the fold of their payloads.
  For a group configuration the members nested in it are read in the same way.
 */
module Language {
  import opened Bits
  import opened Varint
  import opened Skip
  import opened Decoder
  import opened Messages

  function Number(tag: seq<byte>): int
    requires IsVarint(tag)
  {
    ToSigned32((RawOf(tag) % TWO_64) / 8)
  }

  /** A field that a decoder of this kind of message takes. */
  predicate Legal(kind: int -> Kind, f: Field) {
    && WellFormed(f)
    && Number(f.tag) > 0
    && match kind(Number(f.tag))
       case Scalar => f.VarintField?
       case Delimited => f.BytesField?
       case Unknown => true
  }

  predicate AllLegal(kind: int -> Kind, fs: Fields) {
    match fs
    case NoFields => true
    case MoreFields(head, tail) => Legal(kind, head) && AllLegal(kind, tail)
  }

  /** What a field says to the message. */
  function Says(kind: int -> Kind, f: Field): Item
    requires Legal(kind, f)
  {
    var n := Number(f.tag);
    match kind(n)
    case Scalar => ScalarItem(n, RawOf(f.value))
    case Delimited => BytesItem(n, f.body)
    case Unknown => UnknownItem(n)
  }

  function AllSay(kind: int -> Kind, fs: Fields): seq<Item>
    requires AllLegal(kind, fs)
  {
    match fs
    case NoFields => []
    case MoreFields(head, tail) => [Says(kind, head)] + AllSay(kind, tail)
  }

  // ----- a legal field is read as one item

  lemma FieldIsItem(kind: int -> Kind, s: seq<byte>, i: nat, f: Field)
    requires |s| < TWO_63 && Legal(kind, f) && At(s, i, FieldBytes(f))
    ensures |FieldBytes(f)| > 0
    ensures ReadItem(kind, s, i) == Ok(Found(Says(kind, f), i + |FieldBytes(f)|))
  {
    hide ParseVarint, ReadTag, ReadSpan, ReadUnknown, WellFormed;
    TagRead(s, i, f);
    match kind(Number(f.tag))
    case Scalar => ScalarRead(kind, s, i, f);
    case Delimited => DelimitedRead(kind, s, i, f);
    case Unknown => UnknownRead(s, i, f);
  }

  lemma TagRead(s: seq<byte>, i: nat, f: Field)
    requires WellFormed(f) && At(s, i, FieldBytes(f))
    ensures IsVarint(f.tag) && WireType(RawOf(f.tag)) != 4 && |FieldBytes(f)| > 0
    ensures ReadTag(s, i) == Ok(Parsed(RawOf(f.tag) % TWO_64, i + |f.tag|))
  {
    hide ParseVarint, WellFormed, FieldBytes;
    TagFirst(f);
    assert FieldBytes(f) == f.tag + FieldBytes(f)[|f.tag|..];
    AtSplit(s, i, f.tag, FieldBytes(f)[|f.tag|..]);
    VarintAt(s, i, f.tag);
  }

  lemma ScalarRead(kind: int -> Kind, s: seq<byte>, i: nat, f: Field)
    requires |s| < TWO_63 && Legal(kind, f) && At(s, i, FieldBytes(f)) && kind(Number(f.tag)) == Scalar
    requires ReadTag(s, i) == Ok(Parsed(RawOf(f.tag) % TWO_64, i + |f.tag|))
    ensures ReadItem(kind, s, i) == Ok(Found(Says(kind, f), i + |FieldBytes(f)|))
  {
    hide ParseVarint, ReadTag;
    AtSplit(s, i, f.tag, f.value);
    VarintAt(s, i + |f.tag|, f.value);
  }

  lemma DelimitedRead(kind: int -> Kind, s: seq<byte>, i: nat, f: Field)
    requires |s| < TWO_63 && Legal(kind, f) && At(s, i, FieldBytes(f)) && kind(Number(f.tag)) == Delimited
    requires ReadTag(s, i) == Ok(Parsed(RawOf(f.tag) % TWO_64, i + |f.tag|))
    ensures ReadItem(kind, s, i) == Ok(Found(Says(kind, f), i + |FieldBytes(f)|))
  {
    hide ParseVarint, ReadTag;
    AtSplit(s, i, f.tag + f.length, f.body);
    AtSplit(s, i, f.tag, f.length);
    VarintAt(s, i + |f.tag|, f.length);
  }

  lemma UnknownRead(s: seq<byte>, i: nat, f: Field)
    requires |s| < TWO_63 && WellFormed(f) && At(s, i, FieldBytes(f))
    ensures ReadUnknown(s, i) == Ok(i + |FieldBytes(f)|)
  {
    hide SkipFrom, WellFormed, FieldBytes;
    var n := |FieldBytes(f)|;
    assert s[i..][0..n] == s[i..i + n];
    SkipsField(s[i..], 0, f, 0);
  }

  // ----- an item is read from a legal field

  lemma ItemIsField(kind: int -> Kind, s: seq<byte>, i: nat) returns (f: Field)
    requires i <= |s| < TWO_63 && ReadItem(kind, s, i).Ok?
    ensures Legal(kind, f) && FieldBytes(f) == s[i..ReadItem(kind, s, i).value.next]
    ensures Says(kind, f) == ReadItem(kind, s, i).value.item
  {
    hide ParseVarint, WellFormed, FieldBytes;
    var n := ReadItem(kind, s, i).value.next;
    var tag := ReadTag(s, i).value;
    match kind(ToSigned32(tag.raw / 8)) {
      case Unknown => f := UnknownField(s, i);
      case _ => f := KnownField(kind, s, i);
    }
    assert At(s, i, FieldBytes(f));
    var item := ReadItem(kind, s, i).value.item;
    TagRead(s, i, f);
    assert Number(f.tag) == ToSigned32(tag.raw / 8);
    LegalKnown(kind, s, i, f);
    FieldIsItem(kind, s, i, f);
  }

  lemma LegalKnown(kind: int -> Kind, s: seq<byte>, i: nat, f: Field)
    requires i <= |s| && ReadItem(kind, s, i).Ok?
    requires WellFormed(f) && ReadTag(s, i) == Ok(Parsed(RawOf(f.tag) % TWO_64, i + |f.tag|))
    ensures Legal(kind, f)
  {
    hide ParseVarint, ReadTag, ReadSpan, ReadUnknown;
  }

  lemma UnknownField(s: seq<byte>, i: nat) returns (f: Field)
    requires i <= |s| < TWO_63 && ReadUnknown(s, i).Ok?
    ensures WellFormed(f) && FieldBytes(f) == s[i..ReadUnknown(s, i).value]
  {
    hide SkipFrom, WellFormed, FieldBytes;
    f := SkippedField(s[i..], 0);
    var n := ReadUnknown(s, i).value - i;
    assert s[i..][0..n] == s[i..i + n];
  }

  lemma KnownField(kind: int -> Kind, s: seq<byte>, i: nat) returns (f: Field)
    requires i <= |s| < TWO_63 && ReadItem(kind, s, i).Ok? && !ReadItem(kind, s, i).value.item.UnknownItem?
    ensures WellFormed(f) && FieldBytes(f) == s[i..ReadItem(kind, s, i).value.next]
  {
    hide ParseVarint, WellFormed, FieldBytes;
    assert ReadToken(s, i).Ok? && ReadToken(s, i).value == Token(ReadTag(s, i).value.raw % 8, ReadItem(kind, s, i).value.next);
    f := SimpleField(s, i);
  }

  // ----- the language of a decoder

  lemma {:induction false} FieldsAreItems(kind: int -> Kind, s: seq<byte>, i: nat, fs: Fields)
    requires i <= |s| < TWO_63 && AllLegal(kind, fs) && s[i..] == AllBytes(fs)
    ensures ReadAll(kind, s, i) == Ok(AllSay(kind, fs))
    decreases fs
  {
    hide ReadItem, Legal, Says, FieldBytes;
    match fs
    case NoFields =>
      assert i == |s|;
    case MoreFields(head, tail) =>
      var n := |FieldBytes(head)|;
      assert s[i..][..n] == FieldBytes(head) && s[i..][n..] == AllBytes(tail);
      assert s[i..i + n] == s[i..][..n] && s[i + n..] == s[i..][n..];
      FieldIsItem(kind, s, i, head);
      FieldsAreItems(kind, s, i + n, tail);
  }

  lemma {:induction false} ItemsAreFields(kind: int -> Kind, s: seq<byte>, i: nat) returns (fs: Fields)
    requires i <= |s| < TWO_63 && ReadAll(kind, s, i).Ok?
    ensures AllLegal(kind, fs) && AllBytes(fs) == s[i..]
    decreases |s| - i
  {
    hide ReadItem, Legal, Says, FieldBytes;
    if i == |s| {
      fs := NoFields;
    } else {
      var n := ReadItem(kind, s, i).value.next;
      var head := ItemIsField(kind, s, i);
      var tail := ItemsAreFields(kind, s, n);
      fs := MoreFields(head, tail);
      assert s[i..] == s[i..n] + s[n..];
    }
  }

  /** `b` is a list of legal fields that fold into `from` to give `m`. */
  ghost predicate Means<M>(sch: Schema<M>, b: seq<byte>, from: M, m: M) {
    exists fs :: AllLegal(sch.kind, fs) && AllBytes(fs) == b && PutAll(sch, from, AllSay(sch.kind, fs)) == Ok(m)
  }

  /** `Unmarshal` succeeds with `m` if and only if the whole input is a list of legal
      fields that folds to `m`; on every other input it ends with an error. */
  lemma DecodeIsMeaning<M>(sch: Schema<M>, b: seq<byte>, from: M, m: M)
    requires |b| < TWO_63
    ensures Decode(sch, b, 0, from) == Ok(m) <==> Means(sch, b, from, m)
  {
    hide Decode, ReadAll, PutAll, AllLegal, AllSay, AllBytes;
    assert b[0..] == b;
    DecodeIsFold(sch, b, 0, from);
    if Decode(sch, b, 0, from) == Ok(m) {
      var fs := ItemsAreFields(sch.kind, b, 0);
      FieldsAreItems(sch.kind, b, 0, fs);
    }
    if Means(sch, b, from, m) {
      var fs :| AllLegal(sch.kind, fs) && AllBytes(fs) == b && PutAll(sch, from, AllSay(sch.kind, fs)) == Ok(m);
      FieldsAreItems(sch.kind, b, 0, fs);
    }
  }

  // ----- nested messages, unfolded once more

  /** What items say to a group configuration; a member's bytes say what they mean as a
      member configuration. */
  ghost predicate Tells(m: GroupConfig, items: seq<Item>, r: GroupConfig)
    decreases |items|
  {
    if items == [] then r == m
    else
      match items[0]
      case ScalarItem(n, raw) => Tells(SetGroupConfig(m, n, raw), items[1..], r)
      case UnknownItem(_) => Tells(m, items[1..], r)
      case BytesItem(_, b) =>
        exists x :: Means(MemberConfigSchema(), b, NO_MEMBER, x) && Tells(m.(members := m.members + [x]), items[1..], r)
  }

  predicate Short(items: seq<Item>) {
    forall k :: 0 <= k < |items| && items[k].BytesItem? ==> |items[k].bytes| < TWO_63
  }

  lemma {:induction false} TellsIsFold(m: GroupConfig, items: seq<Item>, r: GroupConfig)
    requires Short(items)
    ensures PutAll(GroupConfigSchema(), m, items) == Ok(r) <==> Tells(m, items, r)
    decreases |items|
  {
    hide Means, Decode;
    if items != [] {
      var rest := items[1..];
      assert items[0].BytesItem? ==> |items[0].bytes| < TWO_63;
      match items[0]
      case ScalarItem(n, raw) => TellsIsFold(SetGroupConfig(m, n, raw), rest, r);
      case UnknownItem(_) => TellsIsFold(m, rest, r);
      case BytesItem(_, b) =>
        forall x
          ensures Decode(MemberConfigSchema(), b, 0, NO_MEMBER) == Ok(x) <==> Means(MemberConfigSchema(), b, NO_MEMBER, x)
        {
          DecodeIsMeaning(MemberConfigSchema(), b, NO_MEMBER, x);
        }
        if x :| Means(MemberConfigSchema(), b, NO_MEMBER, x) {
          TellsIsFold(m.(members := m.members + [x]), rest, r);
        }
    }
  }

  lemma {:induction false} FieldsAreShort(kind: int -> Kind, fs: Fields)
    requires AllLegal(kind, fs) && |AllBytes(fs)| < TWO_63
    ensures Short(AllSay(kind, fs))
    decreases fs
  {
    hide IsVarint;
    match fs
    case NoFields =>
    case MoreFields(head, tail) => FieldsAreShort(kind, tail);
  }

  /** For every input: `Unmarshal` of a group configuration gives `m` if and only if the
      input is a list of legal fields, and every member in it again one, that tell `m`. */
  lemma GroupConfigMeaning(b: seq<byte>, from: GroupConfig, m: GroupConfig)
    requires |b| < TWO_63
    ensures Decode(GroupConfigSchema(), b, 0, from) == Ok(m) <==>
            exists fs :: AllLegal(GroupConfigKind, fs) && AllBytes(fs) == b && Tells(from, AllSay(GroupConfigKind, fs), m)
  {
    hide Decode, PutAll, AllLegal, AllSay, AllBytes, Tells, Short;
    var sch := GroupConfigSchema();
    assert sch.kind == GroupConfigKind;
    DecodeIsMeaning(sch, b, from, m);
    if Means(sch, b, from, m) {
      var fs :| AllLegal(sch.kind, fs) && AllBytes(fs) == b && PutAll(sch, from, AllSay(sch.kind, fs)) == Ok(m);
      FieldsAreShort(GroupConfigKind, fs);
      TellsIsFold(from, AllSay(GroupConfigKind, fs), m);
      assert AllLegal(GroupConfigKind, fs);
    }
    if fs :| AllLegal(GroupConfigKind, fs) && AllBytes(fs) == b && Tells(from, AllSay(GroupConfigKind, fs), m) {
      FieldsAreShort(GroupConfigKind, fs);
      TellsIsFold(from, AllSay(GroupConfigKind, fs), m);
      assert AllLegal(sch.kind, fs);
    }
  }
}
