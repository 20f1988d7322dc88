/**
  Base-128 varints: what the encoder writes, how many bytes that takes, and what
  the decode loop reads back.
 */
module Varint {
  import opened Bits

  type byte = x: int | 0 <= x < 256

  /** The ways a message can fail to decode. */
  datatype WireError =
    | IntOverflow
    | UnexpectedEOF
    | InvalidLength
    | UnexpectedEndOfGroup
    | IllegalWireType(wireType: nat)
    | EndGroupOutsideGroup
    | IllegalTag(fieldNum: int)
    | WrongWireType(fieldNum: int, wireType: nat)

  datatype Outcome<+T> = Ok(value: T) | Err(error: WireError)

  /** A varint found in the input: the sum of its seven-bit groups, and the index after it. */
  datatype Parsed = Parsed(raw: nat, next: nat)

  /** The bytes of `v`, seven bits each, lowest first, all but the last marked. */
  function VarintBytes(v: nat): seq<byte> {
    if v < 128 then [v] else [v % 128 + 128] + VarintBytes(v / 128)
  }

  /** `sovProtocol`: the closed form for the size of a varint. */
  function Sov(x: nat): nat {
    (BitLen(BitOr(x, 1)) + 6) / 7
  }

  /** The closed form is the number of bytes written. */
  lemma {:induction false} SovIsLength(v: nat)
    ensures Sov(v) == |VarintBytes(v)| >= 1
  {
    if v == 0 {
      assert BitLen(1) == 1 + BitLen(0);
    } else {
      BitOrOne(v);
      if v < 128 {
        assert BitLen(v) >= 1;
        Pow2Words();
        BitLenAtMost(v, 7);
      } else {
        BitOrOne(v / 128);
        SovIsLength(v / 128);
        BitLenDropSeven(v);
      }
    }
  }

  lemma {:induction false} BitLenShift(v: nat, k: nat)
    requires v >= Pow2(k)
    ensures BitLen(v) == k + BitLen(v / Pow2(k))
  {
    if k > 0 {
      BitLenShift(v / 2, k - 1);
      DivDiv(v, Pow2(k - 1));
    }
  }

  lemma DivDiv(v: nat, p: nat)
    requires p > 0
    ensures (v / 2) / p == v / (2 * p)
  {
    var q, r := (v / 2) / p, (v / 2) % p;
    assert v / 2 == q * p + r;
    var n, rest := 2 * p, 2 * r + v % 2;
    assert v == q * n + rest by { assert 2 * (q * p) == q * n; }
    var d := v / n;
    assert v == d * n + v % n;
    if d < q {
      MulStep(d, q, n);
    } else if q < d {
      MulStep(q, d, n);
    }
  }

  lemma BitLenDropSeven(v: nat)
    requires v >= 128
    ensures BitLen(v) == 7 + BitLen(v / 128)
  {
    Pow2Words();
    BitLenShift(v, 7);
  }

  /** Every 64-bit value takes one to ten bytes. */
  lemma SovRange(v: uint64)
    ensures 1 <= Sov(v) <= 10
  {
    SovIsLength(v);
    Pow2Words();
    if v > 0 {
      BitOrOne(v);
      BitLenAtMost(v, 64);
    }
  }

  /** The decode loop from index `i` on, having read `shift` bits so far. */
  function ParseVarint(s: seq<byte>, i: nat, shift: nat): (r: Outcome<Parsed>)
    ensures r.Ok? ==> i < r.value.next <= |s| && 7 * (r.value.next - i) + shift <= 76
    ensures r.Err? ==> r.error in {IntOverflow, UnexpectedEOF}
    decreases 70 - shift
  {
    if shift >= 64 then Err(IntOverflow)
    else if i >= |s| then Err(UnexpectedEOF)
    else if s[i] < 128 then Ok(Parsed(s[i], i + 1))
    else
      match ParseVarint(s, i + 1, shift + 7)
      case Err(e) => Err(e)
      case Ok(p) => Ok(Parsed(s[i] % 128 + 128 * p.raw, p.next))
  }

  /** Reading back what was written, anywhere in the input. */
  lemma {:induction false} ParseWritten(s: seq<byte>, i: nat, v: nat, shift: nat)
    requires shift + 7 * Sov(v) <= 70
    requires i + Sov(v) <= |s| && s[i..i + Sov(v)] == VarintBytes(v)
    ensures ParseVarint(s, i, shift) == Ok(Parsed(v, i + Sov(v)))
    decreases v
  {
    hide Sov, Pow2;
    SovIsLength(v);
    var e := VarintBytes(v);
    assert s[i] == s[i..i + Sov(v)][0] == e[0];
    if v >= 128 {
      SovIsLength(v / 128);
      assert s[i + 1..i + Sov(v)] == s[i..i + Sov(v)][1..] == e[1..] == VarintBytes(v / 128);
      assert i + 1 + Sov(v / 128) == i + Sov(v);
      ParseWritten(s, i + 1, v / 128, shift + 7);
    }
  }

  /** Every 64-bit value is read back, and the reader stops right after it. */
  lemma VarintRoundTrip(before: seq<byte>, v: uint64, after: seq<byte>)
    ensures ParseVarint(before + VarintBytes(v) + after, |before|, 0) == Ok(Parsed(v, |before| + Sov(v)))
    ensures 1 <= Sov(v) <= 10
  {
    SovIsLength(v);
    SovRange(v);
    var s := before + VarintBytes(v) + after;
    assert s[|before|..|before| + Sov(v)] == VarintBytes(v);
    ParseWritten(s, |before|, v, 0);
  }

  /** A successful read depends on the bytes it consumed and on nothing else. */
  lemma {:induction false} ParseLocal(s: seq<byte>, i: nat, t: seq<byte>, k: nat, shift: nat)
    requires ParseVarint(s, i, shift).Ok?
    requires var n := ParseVarint(s, i, shift).value.next - i; k + n <= |t| && s[i..i + n] == t[k..k + n]
    ensures var p := ParseVarint(s, i, shift).value;
            ParseVarint(t, k, shift) == Ok(Parsed(p.raw, k + (p.next - i)))
    decreases 70 - shift
  {
    var n := ParseVarint(s, i, shift).value.next - i;
    assert s[i] == s[i..i + n][0] == t[k..k + n][0] == t[k];
    if s[i] >= 128 {
      assert s[i + 1..i + n] == s[i..i + n][1..] == t[k..k + n][1..] == t[k + 1..k + n];
      assert i + 1 + (n - 1) == i + n && k + 1 + (n - 1) == k + n;
      ParseLocal(s, i + 1, t, k + 1, shift + 7);
    }
  }

  /** What the loop has summed up, followed by what is still ahead. */
  ghost function Ahead(sum: nat, shift: nat, rest: Outcome<Parsed>): Outcome<Parsed> {
    match rest
    case Err(e) => Err(e)
    case Ok(p) => Ok(Parsed(sum + Pow2(shift) * p.raw, p.next))
  }

  /** The outcome of a decode loop whose accumulator is a word of `width` bits. */
  function Truncated(r: Outcome<Parsed>, width: nat): Outcome<Parsed> {
    match r
    case Err(e) => Err(e)
    case Ok(p) => Ok(Parsed(p.raw % Pow2(width), p.next))
  }

  lemma NextDigit(shift: nat)
    ensures Pow2(shift + 7) == 128 * Pow2(shift)
  {
    hide Pow2;
    Pow2Words();
    Pow2Sum(7, shift);
  }

  lemma AheadStep(sum: nat, shift: nat, d: nat, rest: Outcome<Parsed>)
    requires sum < Pow2(shift) && d < 128
    ensures sum + d * Pow2(shift) < Pow2(shift + 7)
    ensures rest.Ok? ==>
              Ahead(sum, shift, Ok(Parsed(d + 128 * rest.value.raw, rest.value.next)))
              == Ahead(sum + d * Pow2(shift), shift + 7, rest)
  {
    var p := Pow2(shift);
    NextDigit(shift);
    hide Pow2;
    MulStep(d, 128, p);
    if rest.Ok? {
      var raw := rest.value.raw;
      calc {
        p * (d + 128 * raw);
        (d + 128 * raw) * p;
        { Distribute(d, 128 * raw, p); }
        d * p + (128 * raw) * p;
        { assert (128 * raw) * p == (128 * p) * raw; }
        d * p + (128 * p) * raw;
      }
    }
  }

  /** What holds each time the decode loop is about to look at index `i`. */
  ghost predicate Decoding(data: seq<byte>, start: nat, width: nat, value: nat, i: nat, shift: nat, sum: nat) {
    && start <= i <= |data|
    && shift <= 70
    && sum < Pow2(shift)
    && value == sum % Pow2(width)
    && ParseVarint(data, start, 0) == Ahead(sum, shift, ParseVarint(data, i, shift))
  }

  /** One round of the decode loop. */
  lemma DecodeRound(data: seq<byte>, start: nat, width: nat, value: nat, i: nat, shift: nat, sum: nat)
    requires Decoding(data, start, width, value, i, shift, sum) && shift < 64 && i < |data|
    ensures var d := data[i] % 128;
            var value' := BitOr(value, Shl(d, shift, width));
            if data[i] < 128 then
              Ok(Parsed(value', i + 1)) == Truncated(ParseVarint(data, start, 0), width)
            else
              Decoding(data, start, width, value', i + 1, shift + 7, sum + d * Pow2(shift))
  {
    hide Pow2, BitOr, Shl;
    var d := data[i] % 128;
    OrShifted(sum, d, shift, width);
    if data[i] < 128 {
      assert Pow2(shift) * d == d * Pow2(shift);
    } else {
      AheadStep(sum, shift, d, ParseVarint(data, i + 1, shift + 7));
    }
  }

  lemma DecodingStarts(data: seq<byte>, start: nat, width: nat)
    requires start <= |data|
    ensures Decoding(data, start, width, 0, start, 0, 0)
  {
    assert Pow2(0) == 1;
  }

  /** Where the loop is, and how it ends when there is nothing more to read. */
  lemma DecodingStops(data: seq<byte>, start: nat, width: nat, value: nat, i: nat, shift: nat, sum: nat)
    requires Decoding(data, start, width, value, i, shift, sum)
    ensures i <= |data| && shift <= 70
    ensures shift >= 64 ==> Truncated(ParseVarint(data, start, 0), width) == Err(IntOverflow)
    ensures shift < 64 && i == |data| ==> Truncated(ParseVarint(data, start, 0), width) == Err(UnexpectedEOF)
  {
    hide Pow2;
  }

  /** The decode loop that the generated decoders repeat for every integer they
      read, with an accumulator of `width` bits. */
  method DecodeVarint(data: seq<byte>, start: nat, width: nat) returns (r: Outcome<Parsed>)
    requires start <= |data|
    ensures r == Truncated(ParseVarint(data, start, 0), width)
  {
    hide Pow2, BitOr, Shl, Decoding, ParseVarint, Truncated;
    DecodingStarts(data, start, width);
    var value: nat, i: nat, shift: nat := 0, start, 0;
    ghost var sum: nat := 0;
    while true
      invariant Decoding(data, start, width, value, i, shift, sum)
      decreases 70 - shift
    {
      DecodingStops(data, start, width, value, i, shift, sum);
      if shift >= 64 {
        return Err(IntOverflow);
      }
      if i >= |data| {
        return Err(UnexpectedEOF);
      }
      DecodeRound(data, start, width, value, i, shift, sum);
      var b := data[i];
      i := i + 1;
      value := BitOr(value, Shl(b % 128, shift, width));
      if b < 128 {
        return Ok(Parsed(value, i));
      }
      sum := sum + (b % 128) * Pow2(shift);
      shift := shift + 7;
      DecodingStops(data, start, width, value, i, shift, sum);
    }
  }

  /** A length prefix: a varint read as a Go `int`, refused when negative. */
  function ReadLength(s: seq<byte>, i: nat): (r: Outcome<Parsed>)
    ensures r.Ok? ==> i < r.value.next <= |s|
  {
    match ParseVarint(s, i, 0)
    case Err(e) => Err(e)
    case Ok(p) =>
      if ToSigned64(p.raw) < 0 then Err(InvalidLength) else Ok(Parsed(ToSigned64(p.raw), p.next))
  }

  method DecodeLength(data: seq<byte>, start: nat) returns (r: Outcome<Parsed>)
    requires start <= |data|
    ensures r == ReadLength(data, start)
  {
    var length := DecodeVarint(data, start, 64);
    if length.Err? {
      return Err(length.error);
    }
    NarrowWords(ParseVarint(data, start, 0).value.raw);
    var n := ToSigned64(length.value.raw);
    if n < 0 {
      return Err(InvalidLength);
    }
    return Ok(Parsed(n, length.value.next));
  }

  /** A tag: a varint read as a `uint64`. */
  function ReadTag(s: seq<byte>, i: nat): (r: Outcome<Parsed>)
    ensures r.Ok? ==> i < r.value.next <= |s|
  {
    match ParseVarint(s, i, 0)
    case Err(e) => Err(e)
    case Ok(p) => Ok(Parsed(p.raw % TWO_64, p.next))
  }

  method DecodeTag(data: seq<byte>, start: nat) returns (r: Outcome<Parsed>)
    requires start <= |data|
    ensures r == ReadTag(data, start)
  {
    r := DecodeVarint(data, start, 64);
    if r.Ok? {
      NarrowWords(ParseVarint(data, start, 0).value.raw);
    }
  }

  /** `uint8(v&0x7f | 0x80)`: the low seven bits, marked as not the last. */
  function Continued(v: nat): (b: byte)
    ensures b == v % 128 + 128
  {
    hide Pow2, BitOr;
    Pow2Words();
    BitOrDisjoint(v % 128, 1, 7);
    BitOr(v % 128, 128) % 256
  }

  /** One round of the encode loop: a byte is written, and the rest goes on. */
  lemma EncodeRound(written: seq<byte>, rest: nat)
    requires rest >= 128
    ensures written + VarintBytes(rest) == written + [Continued(rest)] + VarintBytes(rest / 128)
    ensures |VarintBytes(rest)| == 1 + |VarintBytes(rest / 128)| && |VarintBytes(rest / 128)| >= 1
  {
    hide Sov;
    SovIsLength(rest / 128);
  }

  /** `encodeVarintProtocol`: writes `v` so that it ends just before `offset`. */
  method EncodeVarint(a: array<byte>, offset: nat, v: uint64) returns (base: nat)
    requires Sov(v) <= offset <= a.Length
    modifies a
    ensures base == offset - Sov(v)
    ensures a[base..offset] == VarintBytes(v)
    ensures a[..base] == old(a[..base]) && a[offset..] == old(a[offset..])
  {
    hide Sov, Pow2;
    SovIsLength(v);
    base := offset - Sov(v);
    var i: nat, rest: nat := base, v;
    while rest >= 128
      invariant base <= i < offset
      invariant i + |VarintBytes(rest)| == offset
      invariant a[base..i] + VarintBytes(rest) == VarintBytes(v)
      invariant a[..base] == old(a[..base]) && a[offset..] == old(a[offset..])
      decreases rest
    {
      hide VarintBytes;
      ghost var written := a[base..i];
      EncodeRound(written, rest);
      a[i] := Continued(rest);
      assert a[base..i + 1] == written + [Continued(rest)];
      rest := rest / 128;
      i := i + 1;
    }
    ghost var written := a[base..i];
    a[i] := rest;
    assert a[base..offset] == written + [rest];
  }
}
