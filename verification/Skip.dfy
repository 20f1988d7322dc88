/**
  Skipping a field whose number the message does not know.  `SkipFrom` is the
  scanner; `Field` is an independent grammar of what a field looks like on the
  wire.  The scanner accepts exactly the grammar.
 */
module Skip {
  import opened Bits
  import opened Varint

  /** The wire type carried by a tag. */
  function WireType(raw: nat): nat {
    (raw % TWO_64) % 8
  }

  datatype Token = Token(wireType: nat, next: nat)

  /** Reads one tag at `i` and steps over what its wire type says follows. */
  function ReadToken(s: seq<byte>, i: nat): (r: Outcome<Token>)
    ensures r.Ok? ==> i < r.value.next
  {
    match ReadTag(s, i)
    case Err(e) => Err(e)
    case Ok(tag) =>
      var wireType := tag.raw % 8;
      if wireType == 0 then
        match ParseVarint(s, tag.next, 0)
        case Err(e) => Err(e)
        case Ok(p) => Ok(Token(0, p.next))
      else if wireType == 1 then Ok(Token(1, tag.next + 8))
      else if wireType == 2 then
        match ReadLength(s, tag.next)
        case Err(e) => Err(e)
        case Ok(p) => Ok(Token(2, p.next + p.raw))
      else if wireType == 3 || wireType == 4 then Ok(Token(wireType, tag.next))
      else if wireType == 5 then Ok(Token(5, tag.next + 4))
      else Err(IllegalWireType(wireType))
  }

  function DepthAfter(depth: nat, wireType: nat): nat
    requires wireType == 4 ==> depth > 0
  {
    if wireType == 3 then depth + 1 else if wireType == 4 then depth - 1 else depth
  }

  /** `skipProtocol` from index `i` on, inside `depth` open groups.  An index that
      would leave the range of a 64-bit `int` is a negative length to the code. */
  function SkipFrom(s: seq<byte>, i: nat, depth: nat): (r: Outcome<nat>)
    ensures r.Ok? ==> i < r.value
    decreases |s| - i
  {
    if i >= |s| then Err(UnexpectedEOF)
    else
      match ReadToken(s, i)
      case Err(e) => Err(e)
      case Ok(t) =>
        if t.wireType == 4 && depth == 0 then Err(UnexpectedEndOfGroup)
        else if t.next >= TWO_63 then Err(InvalidLength)
        else if DepthAfter(depth, t.wireType) == 0 then Ok(t.next)
        else SkipFrom(s, t.next, DepthAfter(depth, t.wireType))
  }

  // ----- the grammar of fields

  datatype Fields = NoFields | MoreFields(head: Field, tail: Fields)

  datatype Field =
    | VarintField(tag: seq<byte>, value: seq<byte>)
    | Fixed64Field(tag: seq<byte>, body: seq<byte>)
    | BytesField(tag: seq<byte>, length: seq<byte>, body: seq<byte>)
    | GroupField(tag: seq<byte>, fields: Fields, end: seq<byte>)
    | Fixed32Field(tag: seq<byte>, body: seq<byte>)

  /** `v` is one varint and nothing more. */
  predicate IsVarint(v: seq<byte>) {
    ParseVarint(v, 0, 0).Ok? && ParseVarint(v, 0, 0).value.next == |v|
  }

  function RawOf(v: seq<byte>): nat
    requires IsVarint(v)
  {
    ParseVarint(v, 0, 0).value.raw
  }

  /** A tag that announces wire type `wireType`. */
  predicate IsTag(v: seq<byte>, wireType: nat) {
    IsVarint(v) && WireType(RawOf(v)) == wireType
  }

  predicate WellFormed(f: Field) {
    match f
    case VarintField(tag, value) => IsTag(tag, 0) && IsVarint(value)
    case Fixed64Field(tag, body) => IsTag(tag, 1) && |body| == 8
    case BytesField(tag, length, body) =>
      IsTag(tag, 2) && IsVarint(length) && ToSigned64(RawOf(length)) == |body|
    case GroupField(tag, fields, end) => IsTag(tag, 3) && AllWellFormed(fields) && IsTag(end, 4)
    case Fixed32Field(tag, body) => IsTag(tag, 5) && |body| == 4
  }

  predicate AllWellFormed(fs: Fields) {
    match fs
    case NoFields => true
    case MoreFields(head, tail) => WellFormed(head) && AllWellFormed(tail)
  }

  function FieldBytes(f: Field): seq<byte> {
    match f
    case VarintField(tag, value) => tag + value
    case Fixed64Field(tag, body) => tag + body
    case BytesField(tag, length, body) => tag + length + body
    case GroupField(tag, fields, end) => tag + AllBytes(fields) + end
    case Fixed32Field(tag, body) => tag + body
  }

  function AllBytes(fs: Fields): seq<byte> {
    match fs
    case NoFields => []
    case MoreFields(head, tail) => FieldBytes(head) + AllBytes(tail)
  }

  /** `b` stands in `s` at `i`. */
  predicate At(s: seq<byte>, i: nat, b: seq<byte>) {
    i + |b| <= |s| && s[i..i + |b|] == b
  }

  lemma AtSplit(s: seq<byte>, i: nat, a: seq<byte>, b: seq<byte>)
    requires At(s, i, a + b)
    ensures At(s, i, a) && At(s, i + |a|, b)
  {
    var c := s[i..i + |a + b|];
    assert s[i..i + |a|] == c[..|a|] == a;
    assert s[i + |a|..i + |a| + |b|] == c[|a|..] == b;
  }

  lemma VarintAt(s: seq<byte>, i: nat, v: seq<byte>)
    requires IsVarint(v) && At(s, i, v)
    ensures ParseVarint(s, i, 0) == Ok(Parsed(RawOf(v), i + |v|))
  {
    assert v[0..|v|] == v;
    ParseLocal(v, 0, s, i, 0);
  }

  lemma VarintIn(s: seq<byte>, i: nat)
    requires ParseVarint(s, i, 0).Ok?
    ensures var p := ParseVarint(s, i, 0).value;
            IsVarint(s[i..p.next]) && RawOf(s[i..p.next]) == p.raw
  {
    var p := ParseVarint(s, i, 0).value;
    var v := s[i..p.next];
    assert v[0..p.next - i] == s[i..i + (p.next - i)];
    ParseLocal(s, i, v, 0, 0);
  }

  // ----- every well-formed field is skipped, and nothing more

  /** One turn of the scanner's loop. */
  lemma SkipTurn(s: seq<byte>, i: nat, depth: nat, t: Token)
    requires i < |s| && ReadToken(s, i) == Ok(t) && t.next < TWO_63
    requires t.wireType == 4 ==> depth > 0
    ensures SkipFrom(s, i, depth) ==
            if DepthAfter(depth, t.wireType) == 0 then Ok(t.next)
            else SkipFrom(s, t.next, DepthAfter(depth, t.wireType))
  {}

  /** A bracket tag is one token. */
  lemma ReadsTag(s: seq<byte>, i: nat, tag: seq<byte>, wireType: nat)
    requires wireType == 3 || wireType == 4
    requires IsTag(tag, wireType) && At(s, i, tag)
    ensures |tag| > 0 && i < |s| && ReadToken(s, i) == Ok(Token(wireType, i + |tag|))
  {
    hide ParseVarint;
    VarintAt(s, i, tag);
  }

  /** A field without brackets is one token. */
  lemma ReadsSimple(s: seq<byte>, i: nat, f: Field)
    requires WellFormed(f) && !f.GroupField? && At(s, i, FieldBytes(f))
    ensures i < |s| && ReadToken(s, i).Ok? && ReadToken(s, i).value.next == i + |FieldBytes(f)|
    ensures ReadToken(s, i).value.wireType !in {3, 4}
  {
    hide ParseVarint;
    match f
    case VarintField(tag, value) =>
      AtSplit(s, i, tag, value);
      VarintAt(s, i, tag);
      VarintAt(s, i + |tag|, value);
    case Fixed64Field(tag, body) =>
      AtSplit(s, i, tag, body);
      VarintAt(s, i, tag);
    case BytesField(tag, length, body) =>
      AtSplit(s, i, tag + length, body);
      AtSplit(s, i, tag, length);
      VarintAt(s, i, tag);
      VarintAt(s, i + |tag|, length);
    case Fixed32Field(tag, body) =>
      AtSplit(s, i, tag, body);
      VarintAt(s, i, tag);
  }

  /** A field inside open groups is stepped over; outside any group it is the answer. */
  lemma {:induction false} SkipsField(s: seq<byte>, i: nat, f: Field, depth: nat)
    requires |s| < TWO_63 && WellFormed(f) && At(s, i, FieldBytes(f))
    ensures |FieldBytes(f)| > 0
    ensures depth == 0 ==> SkipFrom(s, i, 0) == Ok(i + |FieldBytes(f)|)
    ensures depth > 0 ==> SkipFrom(s, i, depth) == SkipFrom(s, i + |FieldBytes(f)|, depth)
    decreases f
  {
    hide SkipFrom, ReadToken, IsTag;
    if f.GroupField? {
      var inner := AllBytes(f.fields);
      AtSplit(s, i, f.tag + inner, f.end);
      AtSplit(s, i, f.tag, inner);
      SkipsFields(s, i + |f.tag|, f.fields, depth + 1);
      SkipsBrackets(s, i, f.tag, |inner|, f.end, depth);
    } else {
      ReadsSimple(s, i, f);
      SkipTurn(s, i, depth, ReadToken(s, i).value);
    }
  }

  /** A group whose inside is stepped over is stepped over. */
  lemma SkipsBrackets(s: seq<byte>, i: nat, tag: seq<byte>, inner: nat, end: seq<byte>, depth: nat)
    requires |s| < TWO_63 && IsTag(tag, 3) && IsTag(end, 4)
    requires At(s, i, tag) && At(s, i + |tag| + inner, end)
    requires SkipFrom(s, i + |tag|, depth + 1) == SkipFrom(s, i + |tag| + inner, depth + 1)
    ensures |tag| > 0
    ensures var n := i + |tag| + inner + |end|;
            SkipFrom(s, i, depth) == if depth == 0 then Ok(n) else SkipFrom(s, n, depth)
  {
    hide SkipFrom, ReadToken, IsTag;
    var j := i + |tag|;
    var k := j + inner;
    ReadsTag(s, i, tag, 3);
    SkipTurn(s, i, depth, Token(3, j));
    ReadsTag(s, k, end, 4);
    SkipTurn(s, k, depth + 1, Token(4, k + |end|));
  }

  lemma {:induction false} SkipsFields(s: seq<byte>, i: nat, fs: Fields, depth: nat)
    requires |s| < TWO_63 && AllWellFormed(fs) && At(s, i, AllBytes(fs)) && depth > 0
    ensures SkipFrom(s, i, depth) == SkipFrom(s, i + |AllBytes(fs)|, depth)
    decreases fs
  {
    hide SkipFrom, ReadToken, IsTag, WellFormed;
    match fs
    case NoFields =>
    case MoreFields(head, tail) =>
      AtSplit(s, i, FieldBytes(head), AllBytes(tail));
      SkipsField(s, i, head, depth);
      SkipsFields(s, i + |FieldBytes(head)|, tail, depth);
  }

  // ----- everything skipped is a well-formed field

  /** A token that is not a group bracket is a field of the grammar. */
  lemma SimpleField(s: seq<byte>, i: nat) returns (f: Field)
    requires ReadToken(s, i).Ok?
    requires var t := ReadToken(s, i).value; t.wireType in {0, 1, 2, 5} && t.next <= |s|
    ensures WellFormed(f) && FieldBytes(f) == s[i..ReadToken(s, i).value.next]
  {
    hide ParseVarint;
    var t := ReadToken(s, i).value;
    var j := ParseVarint(s, i, 0).value.next;
    VarintIn(s, i);
    var tag := s[i..j];
    var rest := s[j..t.next];
    assert tag + rest == s[i..t.next];
    if t.wireType == 0 {
      VarintIn(s, j);
      f := VarintField(tag, rest);
    } else if t.wireType == 1 {
      f := Fixed64Field(tag, rest);
    } else if t.wireType == 5 {
      f := Fixed32Field(tag, rest);
    } else {
      VarintIn(s, j);
      var k := ParseVarint(s, j, 0).value.next;
      f := BytesField(tag, s[j..k], s[k..t.next]);
      assert FieldBytes(f) == s[i..t.next];
    }
  }

  /** The first token of a successful scan, and where the scan goes on. */
  lemma FirstToken(s: seq<byte>, i: nat, depth: nat) returns (t: Token)
    requires SkipFrom(s, i, depth).Ok? && SkipFrom(s, i, depth).value <= |s|
    ensures ReadToken(s, i) == Ok(t) && t.wireType in {0, 1, 2, 3, 4, 5}
    ensures t.wireType == 4 ==> depth > 0
    ensures i < t.next <= SkipFrom(s, i, depth).value
    ensures SkipFrom(s, i, depth) ==
            if DepthAfter(depth, t.wireType) == 0 then Ok(t.next)
            else SkipFrom(s, t.next, DepthAfter(depth, t.wireType))
  {
    t := ReadToken(s, i).value;
  }

  /** A bracket token is just its tag. */
  lemma TagToken(s: seq<byte>, i: nat)
    requires ReadToken(s, i).Ok? && ReadToken(s, i).value.wireType in {3, 4}
    ensures var t := ReadToken(s, i).value; t.next <= |s| && IsTag(s[i..t.next], t.wireType)
  {
    VarintIn(s, i);
  }

  /** What the scanner consumed from inside a group: its remaining fields and its end tag. */
  lemma {:induction false} GroupRest(s: seq<byte>, i: nat, depth: nat)
    returns (fs: Fields, end: seq<byte>, j: nat)
    requires depth > 0 && SkipFrom(s, i, depth).Ok? && SkipFrom(s, i, depth).value <= |s|
    ensures AllWellFormed(fs) && IsTag(end, 4)
    ensures i < j <= SkipFrom(s, i, depth).value && s[i..j] == AllBytes(fs) + end
    ensures depth == 1 ==> j == SkipFrom(s, i, depth).value
    ensures depth > 1 ==> SkipFrom(s, j, depth - 1) == SkipFrom(s, i, depth)
    decreases |s| - i
  {
    var t := FirstToken(s, i, depth);
    if t.wireType == 4 {
      TagToken(s, i);
      fs, end, j := NoFields, s[i..t.next], t.next;
      assert s[i..j] == [] + end;
    } else if t.wireType == 3 {
      TagToken(s, i);
      var inner, innerEnd, k := GroupRest(s, t.next, depth + 1);
      var f := GroupField(s[i..t.next], inner, innerEnd);
      var tail;
      tail, end, j := GroupRest(s, k, depth);
      Join3(s, i, t.next, k, AllBytes(inner), innerEnd);
      fs := MoreFields(f, tail);
      Join3(s, i, k, j, AllBytes(tail), end);
    } else {
      var f := SimpleField(s, i);
      var tail;
      tail, end, j := GroupRest(s, t.next, depth);
      fs := MoreFields(f, tail);
      Join3(s, i, t.next, j, AllBytes(tail), end);
    }
  }

  lemma Join3(s: seq<byte>, i: nat, j: nat, k: nat, b: seq<byte>, c: seq<byte>)
    requires i <= j <= k <= |s| && s[j..k] == b + c
    ensures s[i..k] == s[i..j] + b + c
  {
    assert s[i..k] == s[i..j] + s[j..k];
  }

  lemma {:induction false} SkippedField(s: seq<byte>, i: nat) returns (f: Field)
    requires SkipFrom(s, i, 0).Ok? && SkipFrom(s, i, 0).value <= |s|
    ensures WellFormed(f) && FieldBytes(f) == s[i..SkipFrom(s, i, 0).value]
  {
    var t := FirstToken(s, i, 0);
    if t.wireType == 3 {
      TagToken(s, i);
      var inner, end, j := GroupRest(s, t.next, 1);
      f := GroupField(s[i..t.next], inner, end);
      Join3(s, i, t.next, j, AllBytes(inner), end);
    } else {
      f := SimpleField(s, i);
    }
  }

  /** The scanner consumes `s[i..n]` if and only if those bytes are one field of the grammar. */
  lemma SkipIsGrammar(s: seq<byte>, i: nat, n: nat)
    requires |s| < TWO_63 && i <= n <= |s|
    ensures SkipFrom(s, i, 0) == Ok(n) <==> exists f :: WellFormed(f) && FieldBytes(f) == s[i..n]
  {
    hide SkipFrom, WellFormed, FieldBytes;
    if SkipFrom(s, i, 0) == Ok(n) {
      var f := SkippedField(s, i);
    }
    if f :| WellFormed(f) && FieldBytes(f) == s[i..n] {
      SkipsField(s, i, f, 0);
    }
  }

  /** What is skipped depends only on the bytes skipped. */
  lemma SkipLocal(s: seq<byte>, i: nat, t: seq<byte>, k: nat)
    requires SkipFrom(s, i, 0).Ok? && SkipFrom(s, i, 0).value <= |s| && |t| < TWO_63
    requires At(t, k, s[i..SkipFrom(s, i, 0).value])
    ensures SkipFrom(t, k, 0) == Ok(k + (SkipFrom(s, i, 0).value - i))
  {
    hide SkipFrom;
    var f := SkippedField(s, i);
    SkipsField(t, k, f, 0);
  }

  /** Steps over one tag and what follows it; a length is read as a 64-bit `int`. */
  method NextToken(data: seq<byte>, start: nat) returns (r: Outcome<Token>)
    requires start <= |data|
    ensures r == ReadToken(data, start)
  {
    var tag := DecodeTag(data, start);
    if tag.Err? {
      return Err(tag.error);
    }
    var i := tag.value.next;
    var wireType := tag.value.raw % 8;
    if wireType == 0 {
      var skipped := DecodeVarint(data, i, 64);
      if skipped.Err? {
        return Err(skipped.error);
      }
      i := skipped.value.next;
    } else if wireType == 1 {
      i := i + 8;
    } else if wireType == 2 {
      var length := DecodeLength(data, i);
      if length.Err? {
        return Err(length.error);
      }
      i := length.value.next + length.value.raw;
    } else if wireType == 5 {
      i := i + 4;
    } else if wireType != 3 && wireType != 4 {
      return Err(IllegalWireType(wireType));
    }
    return Ok(Token(wireType, i));
  }

  /** `skipProtocol`. */
  method SkipProtocol(data: seq<byte>) returns (r: Outcome<nat>)
    ensures r == SkipFrom(data, 0, 0)
  {
    var i: nat, depth: nat := 0, 0;
    while i < |data|
      invariant SkipFrom(data, 0, 0) == SkipFrom(data, i, depth)
      decreases |data| - i
    {
      var token := NextToken(data, i);
      if token.Err? {
        return Err(token.error);
      }
      i := token.value.next;
      if token.value.wireType == 3 {
        depth := depth + 1;
      } else if token.value.wireType == 4 {
        if depth == 0 {
          return Err(UnexpectedEndOfGroup);
        }
        depth := depth - 1;
      }
      if i >= TWO_63 {
        return Err(InvalidLength);
      }
      if depth == 0 {
        return Ok(i);
      }
    }
    return Err(UnexpectedEOF);
  }
}
