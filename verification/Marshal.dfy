/**
  The generated encoders and decoders.  An encoder fills its buffer from the end
  towards the front; a decoder moves an index through its input and stores each
  field as it meets it.  The buffer slice `dAtA[:end]` is an array and an `end`.
 */
module Marshal {
  import opened Bits
  import opened Varint
  import opened Skip
  import opened Decoder
  import opened Messages

  /** `s` with the part from `i` to `end` replaced. */
  function Splice(s: seq<byte>, i: nat, b: seq<byte>, end: nat): seq<byte>
    requires i <= end <= |s|
  {
    s[..i] + b + s[end..]
  }

  lemma SpliceBefore(s: seq<byte>, j: nat, b: seq<byte>, i: nat, c: seq<byte>, end: nat)
    requires j + |b| == i && i + |c| == end <= |s|
    ensures Splice(Splice(s, i, c, end), j, b, i) == Splice(s, j, b + c, end)
  {
    var t := Splice(s, i, c, end);
    assert t[..j] == s[..j];
    assert t[i..] == c + s[end..];
  }

  // ----- sizes

  method SizeMemberConfig(m: MemberConfig) returns (n: nat)
    ensures n == |MemberConfigBytes(m)|
  {
    n := 0;
    if m.memberID != 0 {
      SovIsLength(m.memberID);
      n := n + 1 + Sov(m.memberID);
    }
    var l := |m.host|;
    if l > 0 {
      SovIsLength(l);
      n := n + 1 + l + Sov(l);
    }
    if m.port != 0 {
      SovIsLength(ToUnsigned64(m.port));
      n := n + 1 + Sov(ToUnsigned64(m.port));
    }
  }

  lemma {:induction false} MembersBytesTake(ms: seq<MemberConfig>, k: nat)
    requires k < |ms|
    ensures MembersBytes(ms[..k + 1]) == MembersBytes(ms[..k]) + DelimitedBytes(0x22, MemberConfigBytes(ms[k]))
    decreases k
  {
    hide MemberConfigBytes, DelimitedBytes;
    if k == 0 {
      assert ms[..1][1..] == [];
    } else {
      assert ms[..k + 1][1..] == ms[1..][..k] && ms[..k][1..] == ms[1..][..k - 1];
      MembersBytesTake(ms[1..], k - 1);
    }
  }

  method SizeGroupConfig(m: GroupConfig) returns (n: nat)
    ensures n == |GroupConfigBytes(m)|
  {
    hide VarintBytes, MemberConfigBytes, Sov;
    n := 0;
    if m.groupID != 0 {
      SovIsLength(m.groupID);
      n := n + 1 + Sov(m.groupID);
    }
    if m.memberID != 0 {
      SovIsLength(m.memberID);
      n := n + 1 + Sov(m.memberID);
    }
    if m.role != 0 {
      SovIsLength(ToUnsigned64(m.role));
      n := n + 1 + Sov(ToUnsigned64(m.role));
    }
    ghost var scalars := n;
    for k := 0 to |m.members|
      invariant n == scalars + |MembersBytes(m.members[..k])|
    {
      var l := SizeMemberConfig(m.members[k]);
      MembersBytesTake(m.members, k);
      SovIsLength(l);
      n := n + 1 + l + Sov(l);
    }
    assert m.members[..|m.members|] == m.members;
  }

  method SizeRaftProposal(m: RaftProposal) returns (n: nat)
    ensures n == |RaftProposalBytes(m)|
  {
    n := 0;
    if m.term != 0 {
      SovIsLength(m.term);
      n := n + 1 + Sov(m.term);
    }
    if m.sequenceNum != 0 {
      SovIsLength(m.sequenceNum);
      n := n + 1 + Sov(m.sequenceNum);
    }
    var l := |m.data|;
    if l > 0 {
      SovIsLength(l);
      n := n + 1 + l + Sov(l);
    }
  }

  method SizeMemberEvent(m: MemberEvent) returns (n: nat)
    ensures n == |MemberEventBytes(m)|
  {
    n := 0;
    if m.groupID != 0 {
      SovIsLength(m.groupID);
      n := n + 1 + Sov(m.groupID);
    }
    if m.memberID != 0 {
      SovIsLength(m.memberID);
      n := n + 1 + Sov(m.memberID);
    }
  }

  method SizeLeaderUpdated(m: LeaderUpdatedEvent) returns (n: nat)
    ensures n == |LeaderUpdatedBytes(m)|
  {
    hide MemberEventBytes;
    var l := SizeMemberEvent(m.member);
    SovIsLength(l);
    n := 1 + l + Sov(l);
    if m.term != 0 {
      SovIsLength(m.term);
      n := n + 1 + Sov(m.term);
    }
    if m.leader != 0 {
      SovIsLength(m.leader);
      n := n + 1 + Sov(m.leader);
    }
  }

  // ----- encoders

  /** A varint that ends at `end`, and the tag in front of it. */
  method WriteTagged(a: array<byte>, end: nat, tag: byte, v: uint64) returns (i: nat)
    requires 1 + |VarintBytes(v)| <= end <= a.Length
    modifies a
    ensures i == end - (1 + |VarintBytes(v)|)
    ensures a[..] == Splice(old(a[..]), i, [tag] + VarintBytes(v), end)
  {
    SovIsLength(v);
    ghost var s := a[..];
    i := EncodeVarint(a, end, v);
    ghost var t := a[..];
    assert t == t[..i] + t[i..end] + t[end..];
    assert t[..i] == s[..i] && t[end..] == s[end..];
    assert t == Splice(s, i, VarintBytes(v), end);
    i := i - 1;
    a[i] := tag;
    assert a[..] == t[..i] + [tag] + t[i + 1..];
    assert a[..] == Splice(t, i, [tag], i + 1);
    SpliceBefore(s, i, [tag], i + 1, VarintBytes(v), end);
  }

  /** A scalar field, left out when zero. */
  method WriteScalar(a: array<byte>, end: nat, tag: byte, v: uint64) returns (i: nat)
    requires |ScalarBytes(tag, v)| <= end <= a.Length
    modifies a
    ensures i == end - |ScalarBytes(tag, v)|
    ensures a[..] == Splice(old(a[..]), i, ScalarBytes(tag, v), end)
  {
    i := end;
    if v != 0 {
      i := WriteTagged(a, end, tag, v);
    } else {
      assert a[..] == a[..end] + [] + a[end..];
    }
  }

  /** A string or bytes field, left out when empty: `copy` and then the length and tag. */
  method WriteOptional(a: array<byte>, end: nat, tag: byte, b: seq<byte>) returns (i: nat)
    requires |OptionalBytes(tag, b)| <= end <= a.Length && |b| < TWO_63
    modifies a
    ensures i == end - |OptionalBytes(tag, b)|
    ensures a[..] == Splice(old(a[..]), i, OptionalBytes(tag, b), end)
  {
    i := end;
    if |b| > 0 {
      i := i - |b|;
      ghost var s := a[..];
      var from := i;
      forall k | 0 <= k < |b| {
        a[from + k] := b[k];
      }
      assert a[..] == Splice(s, i, b, end);
      i := WriteTagged(a, i, tag, |b|);
      SpliceBefore(s, i, [tag] + VarintBytes(|b|), from, b, end);
    } else {
      assert a[..] == a[..end] + [] + a[end..];
    }
  }

  method MarshalMemberConfig(a: array<byte>, end: nat, m: MemberConfig) returns (n: nat)
    requires |MemberConfigBytes(m)| <= end <= a.Length && end < TWO_63
    modifies a
    ensures n == |MemberConfigBytes(m)|
    ensures a[..] == Splice(old(a[..]), end - n, MemberConfigBytes(m), end)
  {
    hide VarintBytes, ScalarBytes, OptionalBytes;
    HostFits(m);
    ghost var s := a[..];
    ghost var x, y, z := ScalarBytes(0x8, m.memberID), OptionalBytes(0x12, m.host), ScalarBytes(0x18, ToUnsigned64(m.port));
    var i3 := WriteScalar(a, end, 0x18, ToUnsigned64(m.port));
    var i2 := WriteOptional(a, i3, 0x12, m.host);
    SpliceBefore(s, i2, y, i3, z, end);
    var i1 := WriteScalar(a, i2, 0x8, m.memberID);
    SpliceBefore(s, i1, x, i2, y + z, end);
    assert x + (y + z) == x + y + z;
    return end - i1;
  }

  lemma HostFits(m: MemberConfig)
    ensures |m.host| <= |MemberConfigBytes(m)|
  {}

  lemma {:induction false} MembersBytesDrop(ms: seq<MemberConfig>, k: nat)
    requires k < |ms|
    ensures MembersBytes(ms[k..]) == DelimitedBytes(0x22, MemberConfigBytes(ms[k])) + MembersBytes(ms[k + 1..])
  {
    assert ms[k..][1..] == ms[k + 1..];
  }

  lemma {:induction false} MembersBytesSuffix(ms: seq<MemberConfig>, k: nat)
    requires k <= |ms|
    ensures |MembersBytes(ms[k..])| <= |MembersBytes(ms)|
    decreases k
  {
    hide DelimitedBytes;
    if k > 0 {
      MembersBytesDrop(ms, k - 1);
      MembersBytesSuffix(ms, k - 1);
    } else {
      assert ms[0..] == ms;
    }
  }

  /** One member of a group: the message, its length, and the tag in front. */
  method WriteMember(a: array<byte>, end: nat, m: MemberConfig) returns (i: nat)
    requires |DelimitedBytes(0x22, MemberConfigBytes(m))| <= end <= a.Length && end < TWO_63
    modifies a
    ensures i == end - |DelimitedBytes(0x22, MemberConfigBytes(m))|
    ensures a[..] == Splice(old(a[..]), i, DelimitedBytes(0x22, MemberConfigBytes(m)), end)
  {
    hide VarintBytes, MemberConfigBytes;
    ghost var s := a[..];
    var size := MarshalMemberConfig(a, end, m);
    i := WriteTagged(a, end - size, 0x22, size);
    SpliceBefore(s, i, [0x22] + VarintBytes(size), end - size, MemberConfigBytes(m), end);
  }

  method MarshalGroupConfig(a: array<byte>, end: nat, m: GroupConfig) returns (n: nat)
    requires |GroupConfigBytes(m)| <= end <= a.Length && end < TWO_63
    modifies a
    ensures n == |GroupConfigBytes(m)|
    ensures a[..] == Splice(old(a[..]), end - n, GroupConfigBytes(m), end)
  {
    hide VarintBytes, ScalarBytes, DelimitedBytes, MemberConfigBytes, MembersBytes;
    ghost var s := a[..];
    ghost var w, x := ScalarBytes(0x8, m.groupID), ScalarBytes(0x10, m.memberID);
    ghost var y, z := ScalarBytes(0x18, ToUnsigned64(m.role)), MembersBytes(m.members);
    var i := WriteMembers(a, end, m.members);
    var i3 := WriteScalar(a, i, 0x18, ToUnsigned64(m.role));
    SpliceBefore(s, i3, y, i, z, end);
    var i2 := WriteScalar(a, i3, 0x10, m.memberID);
    SpliceBefore(s, i2, x, i3, y + z, end);
    var i1 := WriteScalar(a, i2, 0x8, m.groupID);
    SpliceBefore(s, i1, w, i2, x + (y + z), end);
    assert w + (x + (y + z)) == w + x + y + z;
    return end - i1;
  }

  /** The members, last one first. */
  method WriteMembers(a: array<byte>, end: nat, ms: seq<MemberConfig>) returns (i: nat)
    requires |MembersBytes(ms)| <= end <= a.Length && end < TWO_63
    modifies a
    ensures i == end - |MembersBytes(ms)|
    ensures a[..] == Splice(old(a[..]), i, MembersBytes(ms), end)
  {
    ghost var s := a[..];
    i := end;
    var k := |ms|;
    assert s == s[..end] + [] + s[end..];
    while k > 0
      invariant 0 <= k <= |ms| && i <= end
      invariant i == end - |MembersBytes(ms[k..])|
      invariant a[..] == Splice(s, i, MembersBytes(ms[k..]), end)
    {
      hide DelimitedBytes, MemberConfigBytes;
      k := k - 1;
      MembersBytesDrop(ms, k);
      MembersBytesSuffix(ms, k);
      var next := WriteMember(a, i, ms[k]);
      SpliceBefore(s, next, DelimitedBytes(0x22, MemberConfigBytes(ms[k])), i, MembersBytes(ms[k + 1..]), end);
      i := next;
    }
    assert ms[0..] == ms;
  }

  method MarshalRaftProposal(a: array<byte>, end: nat, m: RaftProposal) returns (n: nat)
    requires |RaftProposalBytes(m)| <= end <= a.Length && end < TWO_63
    modifies a
    ensures n == |RaftProposalBytes(m)|
    ensures a[..] == Splice(old(a[..]), end - n, RaftProposalBytes(m), end)
  {
    hide VarintBytes, ScalarBytes, OptionalBytes;
    DataFits(m);
    ghost var s := a[..];
    ghost var x, y, z := ScalarBytes(0x8, m.term), ScalarBytes(0x10, m.sequenceNum), OptionalBytes(0x1a, m.data);
    var i3 := WriteOptional(a, end, 0x1a, m.data);
    var i2 := WriteScalar(a, i3, 0x10, m.sequenceNum);
    SpliceBefore(s, i2, y, i3, z, end);
    var i1 := WriteScalar(a, i2, 0x8, m.term);
    SpliceBefore(s, i1, x, i2, y + z, end);
    assert x + (y + z) == x + y + z;
    return end - i1;
  }

  lemma DataFits(m: RaftProposal)
    ensures |m.data| <= |RaftProposalBytes(m)|
  {}

  method MarshalMemberEvent(a: array<byte>, end: nat, m: MemberEvent) returns (n: nat)
    requires |MemberEventBytes(m)| <= end <= a.Length
    modifies a
    ensures n == |MemberEventBytes(m)|
    ensures a[..] == Splice(old(a[..]), end - n, MemberEventBytes(m), end)
  {
    hide VarintBytes, ScalarBytes;
    ghost var s := a[..];
    var i2 := WriteScalar(a, end, 0x10, m.memberID);
    var i1 := WriteScalar(a, i2, 0x8, m.groupID);
    SpliceBefore(s, i1, ScalarBytes(0x8, m.groupID), i2, ScalarBytes(0x10, m.memberID), end);
    return end - i1;
  }

  method MarshalLeaderUpdated(a: array<byte>, end: nat, m: LeaderUpdatedEvent) returns (n: nat)
    requires |LeaderUpdatedBytes(m)| <= end <= a.Length && end < TWO_63
    modifies a
    ensures n == |LeaderUpdatedBytes(m)|
    ensures a[..] == Splice(old(a[..]), end - n, LeaderUpdatedBytes(m), end)
  {
    hide VarintBytes, ScalarBytes, MemberEventBytes;
    ghost var s := a[..];
    ghost var x := DelimitedBytes(0xa, MemberEventBytes(m.member));
    ghost var y, z := ScalarBytes(0x10, m.term), ScalarBytes(0x18, m.leader);
    hide DelimitedBytes;
    var i3 := WriteScalar(a, end, 0x18, m.leader);
    var i2 := WriteScalar(a, i3, 0x10, m.term);
    SpliceBefore(s, i2, y, i3, z, end);
    var i1 := WriteMemberEvent(a, i2, m.member);
    SpliceBefore(s, i1, x, i2, y + z, end);
    assert x + (y + z) == x + y + z;
    return end - i1;
  }

  /** The embedded message, its length, and the tag in front. */
  method WriteMemberEvent(a: array<byte>, end: nat, m: MemberEvent) returns (i: nat)
    requires |DelimitedBytes(0xa, MemberEventBytes(m))| <= end <= a.Length && end < TWO_63
    modifies a
    ensures i == end - |DelimitedBytes(0xa, MemberEventBytes(m))|
    ensures a[..] == Splice(old(a[..]), i, DelimitedBytes(0xa, MemberEventBytes(m)), end)
  {
    hide VarintBytes, MemberEventBytes;
    ghost var s := a[..];
    var size := MarshalMemberEvent(a, end, m);
    i := WriteTagged(a, end - size, 0xa, size);
    SpliceBefore(s, i, [0xa] + VarintBytes(size), end - size, MemberEventBytes(m), end);
  }

  /** `Marshal`: a buffer of exactly `Size()` bytes, filled completely. */
  method MarshalProposal(m: RaftProposal) returns (b: seq<byte>)
    requires |RaftProposalBytes(m)| < TWO_63
    ensures b == RaftProposalBytes(m)
  {
    var size := SizeRaftProposal(m);
    var a := new byte[size];
    var n := MarshalRaftProposal(a, size, m);
    return a[..n];
  }

  // ----- decoders

  method DecodeSpan(data: seq<byte>, start: nat) returns (r: Outcome<Parsed>)
    requires start <= |data|
    ensures r == ReadSpan(data, start)
  {
    var length := DecodeLength(data, start);
    if length.Err? {
      return Err(length.error);
    }
    var post := length.value.next + length.value.raw;
    if post >= TWO_63 {
      return Err(InvalidLength);
    }
    if post > |data| {
      return Err(UnexpectedEOF);
    }
    return Ok(Parsed(length.value.next, post));
  }

  method DecodeUnknown(data: seq<byte>, start: nat) returns (r: Outcome<nat>)
    requires start <= |data|
    ensures r == ReadUnknown(data, start)
  {
    var skippy := SkipProtocol(data[start..]);
    if skippy.Err? {
      return Err(skippy.error);
    }
    if start + skippy.value >= TWO_63 {
      return Err(InvalidLength);
    }
    if start + skippy.value > |data| {
      return Err(UnexpectedEOF);
    }
    return Ok(start + skippy.value);
  }

  method UnmarshalMemberConfig(data: seq<byte>, into: MemberConfig) returns (r: Outcome<MemberConfig>)
    ensures r == Decode(MemberConfigSchema(), data, 0, into)
  {
    hide ParseVarint, ReadSpan, ReadUnknown, ReadTag;
    ghost var sch := MemberConfigSchema();
    var m, i: nat := into, 0;
    while i < |data|
      invariant i <= |data|
      invariant Decode(sch, data, 0, into) == Decode(sch, data, i, m)
      decreases |data| - i
    {
      var preIndex := i;
      var wire := DecodeTag(data, i);
      if wire.Err? {
        return Err(wire.error);
      }
      i := wire.value.next;
      var fieldNum, wireType := ToSigned32(wire.value.raw / 8), wire.value.raw % 8;
      if wireType == 4 {
        return Err(EndGroupOutsideGroup);
      }
      if fieldNum <= 0 {
        return Err(IllegalTag(fieldNum));
      }
      if fieldNum == 1 {
        if wireType != 0 {
          return Err(WrongWireType(fieldNum, wireType));
        }
        var v := DecodeVarint(data, i, 32);
        if v.Err? {
          return Err(v.error);
        }
        NarrowWords(ParseVarint(data, i, 0).value.raw);
        m, i := m.(memberID := v.value.raw), v.value.next;
      } else if fieldNum == 2 {
        if wireType != 2 {
          return Err(WrongWireType(fieldNum, wireType));
        }
        var span := DecodeSpan(data, i);
        if span.Err? {
          return Err(span.error);
        }
        m, i := m.(host := data[span.value.raw..span.value.next]), span.value.next;
      } else if fieldNum == 3 {
        if wireType != 0 {
          return Err(WrongWireType(fieldNum, wireType));
        }
        var v := DecodeVarint(data, i, 32);
        if v.Err? {
          return Err(v.error);
        }
        NarrowWords(ParseVarint(data, i, 0).value.raw);
        m, i := m.(port := ToSigned32(v.value.raw)), v.value.next;
      } else {
        var n := DecodeUnknown(data, preIndex);
        if n.Err? {
          return Err(n.error);
        }
        i := n.value;
      }
    }
    return Ok(m);
  }

  method UnmarshalGroupConfig(data: seq<byte>, into: GroupConfig) returns (r: Outcome<GroupConfig>)
    ensures r == Decode(GroupConfigSchema(), data, 0, into)
  {
    hide ParseVarint, ReadSpan, ReadUnknown, ReadTag;
    ghost var sch := GroupConfigSchema();
    var m, i: nat := into, 0;
    while i < |data|
      invariant i <= |data|
      invariant Decode(sch, data, 0, into) == Decode(sch, data, i, m)
      decreases |data| - i
    {
      var preIndex := i;
      var wire := DecodeTag(data, i);
      if wire.Err? {
        return Err(wire.error);
      }
      i := wire.value.next;
      var fieldNum, wireType := ToSigned32(wire.value.raw / 8), wire.value.raw % 8;
      if wireType == 4 {
        return Err(EndGroupOutsideGroup);
      }
      if fieldNum <= 0 {
        return Err(IllegalTag(fieldNum));
      }
      if fieldNum == 1 {
        if wireType != 0 {
          return Err(WrongWireType(fieldNum, wireType));
        }
        var v := DecodeVarint(data, i, 32);
        if v.Err? {
          return Err(v.error);
        }
        NarrowWords(ParseVarint(data, i, 0).value.raw);
        m, i := m.(groupID := v.value.raw), v.value.next;
      } else if fieldNum == 2 {
        if wireType != 0 {
          return Err(WrongWireType(fieldNum, wireType));
        }
        var v := DecodeVarint(data, i, 32);
        if v.Err? {
          return Err(v.error);
        }
        NarrowWords(ParseVarint(data, i, 0).value.raw);
        m, i := m.(memberID := v.value.raw), v.value.next;
      } else if fieldNum == 3 {
        if wireType != 0 {
          return Err(WrongWireType(fieldNum, wireType));
        }
        var v := DecodeVarint(data, i, 32);
        if v.Err? {
          return Err(v.error);
        }
        NarrowWords(ParseVarint(data, i, 0).value.raw);
        m, i := m.(role := ToSigned32(v.value.raw)), v.value.next;
      } else if fieldNum == 4 {
        if wireType != 2 {
          return Err(WrongWireType(fieldNum, wireType));
        }
        var span := DecodeSpan(data, i);
        if span.Err? {
          return Err(span.error);
        }
        var member := UnmarshalMemberConfig(data[span.value.raw..span.value.next], NO_MEMBER);
        if member.Err? {
          return Err(member.error);
        }
        m, i := m.(members := m.members + [member.value]), span.value.next;
      } else {
        var n := DecodeUnknown(data, preIndex);
        if n.Err? {
          return Err(n.error);
        }
        i := n.value;
      }
    }
    return Ok(m);
  }

  method UnmarshalRaftProposal(data: seq<byte>, into: RaftProposal) returns (r: Outcome<RaftProposal>)
    ensures r == Decode(RaftProposalSchema(), data, 0, into)
  {
    hide ParseVarint, ReadSpan, ReadUnknown, ReadTag;
    ghost var sch := RaftProposalSchema();
    var m, i: nat := into, 0;
    while i < |data|
      invariant i <= |data|
      invariant Decode(sch, data, 0, into) == Decode(sch, data, i, m)
      decreases |data| - i
    {
      var preIndex := i;
      var wire := DecodeTag(data, i);
      if wire.Err? {
        return Err(wire.error);
      }
      i := wire.value.next;
      var fieldNum, wireType := ToSigned32(wire.value.raw / 8), wire.value.raw % 8;
      if wireType == 4 {
        return Err(EndGroupOutsideGroup);
      }
      if fieldNum <= 0 {
        return Err(IllegalTag(fieldNum));
      }
      if fieldNum == 1 {
        if wireType != 0 {
          return Err(WrongWireType(fieldNum, wireType));
        }
        var v := DecodeVarint(data, i, 64);
        if v.Err? {
          return Err(v.error);
        }
        NarrowWords(ParseVarint(data, i, 0).value.raw);
        m, i := m.(term := v.value.raw), v.value.next;
      } else if fieldNum == 2 {
        if wireType != 0 {
          return Err(WrongWireType(fieldNum, wireType));
        }
        var v := DecodeVarint(data, i, 64);
        if v.Err? {
          return Err(v.error);
        }
        NarrowWords(ParseVarint(data, i, 0).value.raw);
        m, i := m.(sequenceNum := v.value.raw), v.value.next;
      } else if fieldNum == 3 {
        if wireType != 2 {
          return Err(WrongWireType(fieldNum, wireType));
        }
        var span := DecodeSpan(data, i);
        if span.Err? {
          return Err(span.error);
        }
        m, i := m.(data := data[span.value.raw..span.value.next]), span.value.next;
      } else {
        var n := DecodeUnknown(data, preIndex);
        if n.Err? {
          return Err(n.error);
        }
        i := n.value;
      }
    }
    return Ok(m);
  }

  method UnmarshalMemberEvent(data: seq<byte>, into: MemberEvent) returns (r: Outcome<MemberEvent>)
    ensures r == Decode(MemberEventSchema(), data, 0, into)
  {
    hide ParseVarint, ReadSpan, ReadUnknown, ReadTag;
    ghost var sch := MemberEventSchema();
    var m, i: nat := into, 0;
    while i < |data|
      invariant i <= |data|
      invariant Decode(sch, data, 0, into) == Decode(sch, data, i, m)
      decreases |data| - i
    {
      var preIndex := i;
      var wire := DecodeTag(data, i);
      if wire.Err? {
        return Err(wire.error);
      }
      i := wire.value.next;
      var fieldNum, wireType := ToSigned32(wire.value.raw / 8), wire.value.raw % 8;
      if wireType == 4 {
        return Err(EndGroupOutsideGroup);
      }
      if fieldNum <= 0 {
        return Err(IllegalTag(fieldNum));
      }
      if fieldNum == 1 {
        if wireType != 0 {
          return Err(WrongWireType(fieldNum, wireType));
        }
        var v := DecodeVarint(data, i, 32);
        if v.Err? {
          return Err(v.error);
        }
        NarrowWords(ParseVarint(data, i, 0).value.raw);
        m, i := m.(groupID := v.value.raw), v.value.next;
      } else if fieldNum == 2 {
        if wireType != 0 {
          return Err(WrongWireType(fieldNum, wireType));
        }
        var v := DecodeVarint(data, i, 32);
        if v.Err? {
          return Err(v.error);
        }
        NarrowWords(ParseVarint(data, i, 0).value.raw);
        m, i := m.(memberID := v.value.raw), v.value.next;
      } else {
        var n := DecodeUnknown(data, preIndex);
        if n.Err? {
          return Err(n.error);
        }
        i := n.value;
      }
    }
    return Ok(m);
  }

  method UnmarshalLeaderUpdated(data: seq<byte>, into: LeaderUpdatedEvent) returns (r: Outcome<LeaderUpdatedEvent>)
    ensures r == Decode(LeaderUpdatedSchema(), data, 0, into)
  {
    hide ParseVarint, ReadSpan, ReadUnknown, ReadTag;
    ghost var sch := LeaderUpdatedSchema();
    var m, i: nat := into, 0;
    while i < |data|
      invariant i <= |data|
      invariant Decode(sch, data, 0, into) == Decode(sch, data, i, m)
      decreases |data| - i
    {
      var preIndex := i;
      var wire := DecodeTag(data, i);
      if wire.Err? {
        return Err(wire.error);
      }
      i := wire.value.next;
      var fieldNum, wireType := ToSigned32(wire.value.raw / 8), wire.value.raw % 8;
      if wireType == 4 {
        return Err(EndGroupOutsideGroup);
      }
      if fieldNum <= 0 {
        return Err(IllegalTag(fieldNum));
      }
      if fieldNum == 1 {
        if wireType != 2 {
          return Err(WrongWireType(fieldNum, wireType));
        }
        var span := DecodeSpan(data, i);
        if span.Err? {
          return Err(span.error);
        }
        var member := UnmarshalMemberEvent(data[span.value.raw..span.value.next], m.member);
        if member.Err? {
          return Err(member.error);
        }
        m, i := m.(member := member.value), span.value.next;
      } else if fieldNum == 2 {
        if wireType != 0 {
          return Err(WrongWireType(fieldNum, wireType));
        }
        var v := DecodeVarint(data, i, 64);
        if v.Err? {
          return Err(v.error);
        }
        NarrowWords(ParseVarint(data, i, 0).value.raw);
        m, i := m.(term := v.value.raw), v.value.next;
      } else if fieldNum == 3 {
        if wireType != 0 {
          return Err(WrongWireType(fieldNum, wireType));
        }
        var v := DecodeVarint(data, i, 32);
        if v.Err? {
          return Err(v.error);
        }
        NarrowWords(ParseVarint(data, i, 0).value.raw);
        m, i := m.(leader := v.value.raw), v.value.next;
      } else {
        var n := DecodeUnknown(data, preIndex);
        if n.Err? {
          return Err(n.error);
        }
        i := n.value;
      }
    }
    return Ok(m);
  }
}
