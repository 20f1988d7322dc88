/**
  The messages of the node protocol that carry group configuration, proposals and
  leader events: their sizes, their bytes, and the schemas their decoders follow.
  Field numbers and wire types are those of protocol.proto.
 */
module Messages {
  import opened Bits
  import opened Varint
  import opened Decoder

  datatype MemberConfig = MemberConfig(memberID: uint32, host: seq<byte>, port: int32)

  datatype GroupConfig = GroupConfig(groupID: uint32, memberID: uint32, role: int32, members: seq<MemberConfig>)

  datatype RaftProposal = RaftProposal(term: uint64, sequenceNum: uint64, data: seq<byte>)

  datatype MemberEvent = MemberEvent(groupID: uint32, memberID: uint32)

  datatype LeaderUpdatedEvent = LeaderUpdatedEvent(member: MemberEvent, term: uint64, leader: uint32)

  const NO_MEMBER := MemberConfig(0, [], 0)
  const NO_GROUP := GroupConfig(0, 0, 0, [])
  const NO_PROPOSAL := RaftProposal(0, 0, [])
  const NO_MEMBER_EVENT := MemberEvent(0, 0)
  const NO_LEADER_EVENT := LeaderUpdatedEvent(NO_MEMBER_EVENT, 0, 0)

  // ----- bytes and sizes

  /** A varint field; zero is left out. */
  function ScalarBytes(tag: byte, v: uint64): seq<byte> {
    if v == 0 then [] else [tag] + VarintBytes(v)
  }

  /** A length-delimited field. */
  function DelimitedBytes(tag: byte, b: seq<byte>): seq<byte> {
    [tag] + VarintBytes(|b|) + b
  }

  /** A string or bytes field; the empty one is left out. */
  function OptionalBytes(tag: byte, b: seq<byte>): seq<byte> {
    if b == [] then [] else DelimitedBytes(tag, b)
  }

  function MemberConfigBytes(m: MemberConfig): seq<byte> {
    ScalarBytes(0x8, m.memberID) + OptionalBytes(0x12, m.host) + ScalarBytes(0x18, ToUnsigned64(m.port))
  }

  function MembersBytes(ms: seq<MemberConfig>): seq<byte> {
    if ms == [] then [] else DelimitedBytes(0x22, MemberConfigBytes(ms[0])) + MembersBytes(ms[1..])
  }

  function GroupConfigBytes(m: GroupConfig): seq<byte> {
    ScalarBytes(0x8, m.groupID) + ScalarBytes(0x10, m.memberID)
    + ScalarBytes(0x18, ToUnsigned64(m.role)) + MembersBytes(m.members)
  }

  function RaftProposalBytes(m: RaftProposal): seq<byte> {
    ScalarBytes(0x8, m.term) + ScalarBytes(0x10, m.sequenceNum) + OptionalBytes(0x1a, m.data)
  }

  function MemberEventBytes(m: MemberEvent): seq<byte> {
    ScalarBytes(0x8, m.groupID) + ScalarBytes(0x10, m.memberID)
  }

  /** The embedded message is written even when it is empty. */
  function LeaderUpdatedBytes(m: LeaderUpdatedEvent): seq<byte> {
    DelimitedBytes(0xa, MemberEventBytes(m.member)) + ScalarBytes(0x10, m.term) + ScalarBytes(0x18, m.leader)
  }

  // ----- what the decoders know and how they store it

  function MemberConfigKind(n: int): Kind {
    if n == 1 || n == 3 then Scalar else if n == 2 then Delimited else Unknown
  }

  function SetMemberConfig(m: MemberConfig, n: int, raw: nat): MemberConfig {
    if n == 1 then m.(memberID := raw % TWO_32) else m.(port := ToSigned32(raw))
  }

  function SetMemberConfigBytes(m: MemberConfig, n: int, b: seq<byte>): Outcome<MemberConfig> {
    Ok(m.(host := b))
  }

  function MemberConfigSchema(): Schema<MemberConfig> {
    Schema(MemberConfigKind, SetMemberConfig, SetMemberConfigBytes)
  }

  function GroupConfigKind(n: int): Kind {
    if n == 1 || n == 2 || n == 3 then Scalar else if n == 4 then Delimited else Unknown
  }

  function SetGroupConfig(m: GroupConfig, n: int, raw: nat): GroupConfig {
    if n == 1 then m.(groupID := raw % TWO_32)
    else if n == 2 then m.(memberID := raw % TWO_32)
    else m.(role := ToSigned32(raw))
  }

  /** Each occurrence of the repeated field appends a member decoded from scratch. */
  function SetGroupConfigBytes(m: GroupConfig, n: int, b: seq<byte>): Outcome<GroupConfig> {
    match Decode(MemberConfigSchema(), b, 0, NO_MEMBER)
    case Err(e) => Err(e)
    case Ok(member) => Ok(m.(members := m.members + [member]))
  }

  function GroupConfigSchema(): Schema<GroupConfig> {
    Schema(GroupConfigKind, SetGroupConfig, SetGroupConfigBytes)
  }

  function RaftProposalKind(n: int): Kind {
    if n == 1 || n == 2 then Scalar else if n == 3 then Delimited else Unknown
  }

  function SetRaftProposal(m: RaftProposal, n: int, raw: nat): RaftProposal {
    if n == 1 then m.(term := raw % TWO_64) else m.(sequenceNum := raw % TWO_64)
  }

  function SetRaftProposalBytes(m: RaftProposal, n: int, b: seq<byte>): Outcome<RaftProposal> {
    Ok(m.(data := b))
  }

  function RaftProposalSchema(): Schema<RaftProposal> {
    Schema(RaftProposalKind, SetRaftProposal, SetRaftProposalBytes)
  }

  function MemberEventKind(n: int): Kind {
    if n == 1 || n == 2 then Scalar else Unknown
  }

  function SetMemberEvent(m: MemberEvent, n: int, raw: nat): MemberEvent {
    if n == 1 then m.(groupID := raw % TWO_32) else m.(memberID := raw % TWO_32)
  }

  function SetMemberEventBytes(m: MemberEvent, n: int, b: seq<byte>): Outcome<MemberEvent> {
    Ok(m)
  }

  function MemberEventSchema(): Schema<MemberEvent> {
    Schema(MemberEventKind, SetMemberEvent, SetMemberEventBytes)
  }

  function LeaderUpdatedKind(n: int): Kind {
    if n == 2 || n == 3 then Scalar else if n == 1 then Delimited else Unknown
  }

  function SetLeaderUpdated(m: LeaderUpdatedEvent, n: int, raw: nat): LeaderUpdatedEvent {
    if n == 2 then m.(term := raw % TWO_64) else m.(leader := raw % TWO_32)
  }

  /** The embedded message is decoded into the one already there. */
  function SetLeaderUpdatedBytes(m: LeaderUpdatedEvent, n: int, b: seq<byte>): Outcome<LeaderUpdatedEvent> {
    match Decode(MemberEventSchema(), b, 0, m.member)
    case Err(e) => Err(e)
    case Ok(member) => Ok(m.(member := member))
  }

  function LeaderUpdatedSchema(): Schema<LeaderUpdatedEvent> {
    Schema(LeaderUpdatedKind, SetLeaderUpdated, SetLeaderUpdatedBytes)
  }

  // ----- the items of an encoded message

  /** `xs` are the items of `b`. */
  ghost predicate Items(kind: int -> Kind, b: seq<byte>, xs: seq<Item>) {
    ReadAll(kind, b, 0) == Ok(xs)
  }

  function ScalarItems(n: int, v: uint64): seq<Item> {
    if v == 0 then [] else [ScalarItem(n, v)]
  }

  function OptionalItems(n: int, b: seq<byte>): seq<Item> {
    if b == [] then [] else [BytesItem(n, b)]
  }

  lemma ItemsConcat(kind: int -> Kind, a: seq<byte>, xs: seq<Item>, b: seq<byte>, ys: seq<Item>)
    requires |a + b| < TWO_63 && Items(kind, a, xs) && Items(kind, b, ys)
    ensures Items(kind, a + b, xs + ys)
  {
    hide ReadAll;
    ReadAllConcat(kind, a, b);
  }

  /** A one-byte tag reads as its field number and wire type. */
  lemma ShortTag(s: seq<byte>, tag: byte)
    requires s != [] && s[0] == tag < 128
    ensures ReadTag(s, 0) == Ok(Parsed(tag, 1)) && ToSigned32(tag / 8) == tag / 8
  {
    assert ParseVarint(s, 0, 0) == Ok(Parsed(tag, 1));
  }

  lemma OneItem(kind: int -> Kind, s: seq<byte>, item: Item)
    requires s != [] && ReadItem(kind, s, 0) == Ok(Found(item, |s|))
    ensures Items(kind, s, [item])
  {
    hide ReadItem;
    assert ReadAll(kind, s, |s|) == Ok([]);
    assert [item] + [] == [item];
  }

  lemma ScalarItemsRead(kind: int -> Kind, tag: byte, v: uint64)
    requires 8 <= tag < 128 && tag % 8 == 0 && kind(tag / 8) == Scalar
    ensures Items(kind, ScalarBytes(tag, v), ScalarItems(tag / 8, v))
  {
    hide ParseVarint;
    if v != 0 {
      var s := ScalarBytes(tag, v);
      ShortTag(s, tag);
      VarintRoundTrip([tag], v, []);
      SovIsLength(v);
      assert [tag] + VarintBytes(v) + [] == s;
      OneItem(kind, s, ScalarItem(tag / 8, v));
    }
  }

  lemma LengthRead(s: seq<byte>, i: nat, n: nat, next: nat)
    requires ParseVarint(s, i, 0) == Ok(Parsed(n, next)) && n < TWO_63
    ensures ReadLength(s, i) == Ok(Parsed(n, next))
  {}

  lemma DelimitedItemRead(kind: int -> Kind, tag: byte, b: seq<byte>)
    requires 8 <= tag < 128 && tag % 8 == 2 && kind(tag / 8) == Delimited
    requires |DelimitedBytes(tag, b)| < TWO_63
    ensures Items(kind, DelimitedBytes(tag, b), [BytesItem(tag / 8, b)])
  {
    hide ParseVarint, VarintBytes, Sov, ReadUnknown, ReadTag, ReadLength;
    var s := DelimitedBytes(tag, b);
    ShortTag(s, tag);
    SovIsLength(|b|);
    VarintRoundTrip([tag], |b|, b);
    assert [tag] + VarintBytes(|b|) + b == s;
    var k := 1 + Sov(|b|);
    assert |s| == k + |b|;
    assert s[k..|s|] == b;
    LengthRead(s, 1, |b|, k);
    assert ReadSpan(s, 1) == Ok(Parsed(k, |s|));
    OneItem(kind, s, BytesItem(tag / 8, b));
  }

  lemma OptionalItemsRead(kind: int -> Kind, tag: byte, b: seq<byte>)
    requires 8 <= tag < 128 && tag % 8 == 2 && kind(tag / 8) == Delimited
    requires |OptionalBytes(tag, b)| < TWO_63
    ensures Items(kind, OptionalBytes(tag, b), OptionalItems(tag / 8, b))
  {
    hide ReadItem, DelimitedBytes;
    if b != [] {
      DelimitedItemRead(kind, tag, b);
    }
  }

  /** A message whose items are known decodes to their fold. */
  lemma DecodeItems<M>(sch: Schema<M>, b: seq<byte>, xs: seq<Item>, m: M)
    requires Items(sch.kind, b, xs)
    ensures SameResult(Decode(sch, b, 0, m), PutAll(sch, m, xs))
  {
    hide Decode, ReadAll, PutAll;
    DecodeIsFold(sch, b, 0, m);
  }

  // ----- round trips

  lemma MemberConfigItems(m: MemberConfig)
    requires |MemberConfigBytes(m)| < TWO_63
    ensures Items(MemberConfigKind, MemberConfigBytes(m),
                  ScalarItems(1, m.memberID) + OptionalItems(2, m.host) + ScalarItems(3, ToUnsigned64(m.port)))
  {
    hide Items, ScalarBytes, OptionalBytes, ScalarItems, OptionalItems;
    var k := MemberConfigKind;
    var a, b, c := ScalarBytes(0x8, m.memberID), OptionalBytes(0x12, m.host), ScalarBytes(0x18, ToUnsigned64(m.port));
    ScalarItemsRead(k, 0x8, m.memberID);
    OptionalItemsRead(k, 0x12, m.host);
    ScalarItemsRead(k, 0x18, ToUnsigned64(m.port));
    ItemsConcat(k, a, ScalarItems(1, m.memberID), b, OptionalItems(2, m.host));
    ItemsConcat(k, a + b, ScalarItems(1, m.memberID) + OptionalItems(2, m.host), c, ScalarItems(3, ToUnsigned64(m.port)));
  }

  /** Storing the items of one field. */
  lemma PutScalar<M>(sch: Schema<M>, m: M, n: int, v: uint64)
    ensures PutAll(sch, m, ScalarItems(n, v)) == Ok(if v == 0 then m else sch.setScalar(m, n, v))
  {
    if v != 0 {
      assert [ScalarItem(n, v)][1..] == [];
    }
  }

  lemma PutOptional<M>(sch: Schema<M>, m: M, n: int, b: seq<byte>)
    ensures PutAll(sch, m, OptionalItems(n, b)) == if b == [] then Ok(m) else sch.setBytes(m, n, b)
  {
    if b != [] {
      PutOne(sch, m, n, b);
    }
  }

  lemma PutOne<M>(sch: Schema<M>, m: M, n: int, b: seq<byte>)
    ensures PutAll(sch, m, [BytesItem(n, b)]) == sch.setBytes(m, n, b)
  {
    assert [BytesItem(n, b)][1..] == [];
    if sch.setBytes(m, n, b).Ok? {
      assert PutAll(sch, sch.setBytes(m, n, b).value, []) == sch.setBytes(m, n, b);
    }
  }

  lemma MemberConfigRoundTrip(m: MemberConfig)
    requires |MemberConfigBytes(m)| < TWO_63
    ensures Decode(MemberConfigSchema(), MemberConfigBytes(m), 0, NO_MEMBER) == Ok(m)
  {
    hide Decode, PutAll, Items, ReadAll, ScalarItems, OptionalItems, MemberConfigBytes;
    var sch := MemberConfigSchema();
    var xs, ys, zs := ScalarItems(1, m.memberID), OptionalItems(2, m.host), ScalarItems(3, ToUnsigned64(m.port));
    MemberConfigItems(m);
    DecodeItems(sch, MemberConfigBytes(m), xs + ys + zs, NO_MEMBER);
    PutAllAppend(sch, NO_MEMBER, xs + ys, zs);
    PutAllAppend(sch, NO_MEMBER, xs, ys);
    PutScalar(sch, NO_MEMBER, 1, m.memberID);
    var m1 := NO_MEMBER.(memberID := m.memberID);
    PutOptional(sch, m1, 2, m.host);
    var m2 := m1.(host := m.host);
    PutScalar(sch, m2, 3, ToUnsigned64(m.port));
    SignedRoundTrip(m.port);
  }

  lemma PutNothing<M>(sch: Schema<M>, m: M)
    ensures PutAll(sch, m, []) == Ok(m)
  {}

  function MemberItems(ms: seq<MemberConfig>): seq<Item> {
    if ms == [] then [] else [BytesItem(4, MemberConfigBytes(ms[0]))] + MemberItems(ms[1..])
  }

  lemma {:induction false} MemberItemsRead(ms: seq<MemberConfig>)
    requires |MembersBytes(ms)| < TWO_63
    ensures Items(GroupConfigKind, MembersBytes(ms), MemberItems(ms))
  {
    hide MemberConfigBytes, DelimitedBytes, ReadItem;
    if ms != [] {
      var b := MemberConfigBytes(ms[0]);
      DelimitedItemRead(GroupConfigKind, 0x22, b);
      MemberItemsRead(ms[1..]);
      ItemsConcat(GroupConfigKind, DelimitedBytes(0x22, b), [BytesItem(4, b)], MembersBytes(ms[1..]), MemberItems(ms[1..]));
    }
  }

  /** Storing the members of a group appends them in order. */
  lemma {:induction false} PutMembers(m: GroupConfig, ms: seq<MemberConfig>)
    requires |MembersBytes(ms)| < TWO_63
    ensures PutAll(GroupConfigSchema(), m, MemberItems(ms)) == Ok(m.(members := m.members + ms))
    decreases ms
  {
    hide MemberConfigBytes, Decode, PutAll, VarintBytes;
    if ms == [] {
      assert m.members + [] == m.members;
      PutNothing(GroupConfigSchema(), m);
    } else {
      var sch := GroupConfigSchema();
      var b := MemberConfigBytes(ms[0]);
      MemberConfigRoundTrip(ms[0]);
      PutAllAppend(sch, m, [BytesItem(4, b)], MemberItems(ms[1..]));
      PutOne(sch, m, 4, b);
      var m1 := m.(members := m.members + [ms[0]]);
      PutMembers(m1, ms[1..]);
      assert m.members + [ms[0]] + ms[1..] == m.members + ms;
    }
  }

  lemma GroupConfigItems(m: GroupConfig)
    requires |GroupConfigBytes(m)| < TWO_63
    ensures Items(GroupConfigKind, GroupConfigBytes(m),
                  ScalarItems(1, m.groupID) + ScalarItems(2, m.memberID)
                  + ScalarItems(3, ToUnsigned64(m.role)) + MemberItems(m.members))
  {
    hide Items, ScalarBytes, MembersBytes, ScalarItems, MemberItems;
    var k := GroupConfigKind;
    var a, b := ScalarBytes(0x8, m.groupID), ScalarBytes(0x10, m.memberID);
    var c, d := ScalarBytes(0x18, ToUnsigned64(m.role)), MembersBytes(m.members);
    var ws, xs := ScalarItems(1, m.groupID), ScalarItems(2, m.memberID);
    var ys, zs := ScalarItems(3, ToUnsigned64(m.role)), MemberItems(m.members);
    ScalarItemsRead(k, 0x8, m.groupID);
    ScalarItemsRead(k, 0x10, m.memberID);
    ScalarItemsRead(k, 0x18, ToUnsigned64(m.role));
    MemberItemsRead(m.members);
    ItemsConcat(k, a, ws, b, xs);
    ItemsConcat(k, a + b, ws + xs, c, ys);
    ItemsConcat(k, a + b + c, ws + xs + ys, d, zs);
  }

  /** What is written for a group configuration, with any number of members, is read back. */
  lemma GroupConfigRoundTrip(m: GroupConfig)
    requires |GroupConfigBytes(m)| < TWO_63
    ensures Decode(GroupConfigSchema(), GroupConfigBytes(m), 0, NO_GROUP) == Ok(m)
  {
    hide Decode, PutAll, Items, ReadAll, ScalarItems, MemberItems, VarintBytes;
    var sch := GroupConfigSchema();
    var ws, xs := ScalarItems(1, m.groupID), ScalarItems(2, m.memberID);
    var ys, zs := ScalarItems(3, ToUnsigned64(m.role)), MemberItems(m.members);
    GroupConfigItems(m);
    DecodeItems(sch, GroupConfigBytes(m), ws + xs + ys + zs, NO_GROUP);
    PutAllAppend(sch, NO_GROUP, ws + xs + ys, zs);
    PutAllAppend(sch, NO_GROUP, ws + xs, ys);
    PutAllAppend(sch, NO_GROUP, ws, xs);
    PutScalar(sch, NO_GROUP, 1, m.groupID);
    var m1 := NO_GROUP.(groupID := m.groupID);
    PutScalar(sch, m1, 2, m.memberID);
    var m2 := m1.(memberID := m.memberID);
    PutScalar(sch, m2, 3, ToUnsigned64(m.role));
    SignedRoundTrip(m.role);
    PutMembers(m2.(role := m.role), m.members);
    assert [] + m.members == m.members;
  }

  lemma RaftProposalItems(m: RaftProposal)
    requires |RaftProposalBytes(m)| < TWO_63
    ensures Items(RaftProposalKind, RaftProposalBytes(m),
                  ScalarItems(1, m.term) + ScalarItems(2, m.sequenceNum) + OptionalItems(3, m.data))
  {
    hide Items, ScalarBytes, OptionalBytes, ScalarItems, OptionalItems;
    var k := RaftProposalKind;
    var a, b, c := ScalarBytes(0x8, m.term), ScalarBytes(0x10, m.sequenceNum), OptionalBytes(0x1a, m.data);
    ScalarItemsRead(k, 0x8, m.term);
    ScalarItemsRead(k, 0x10, m.sequenceNum);
    OptionalItemsRead(k, 0x1a, m.data);
    ItemsConcat(k, a, ScalarItems(1, m.term), b, ScalarItems(2, m.sequenceNum));
    ItemsConcat(k, a + b, ScalarItems(1, m.term) + ScalarItems(2, m.sequenceNum), c, OptionalItems(3, m.data));
  }

  /** What `Propose` wraps is what `Update` unwraps. */
  lemma RaftProposalRoundTrip(m: RaftProposal)
    requires |RaftProposalBytes(m)| < TWO_63
    ensures Decode(RaftProposalSchema(), RaftProposalBytes(m), 0, NO_PROPOSAL) == Ok(m)
  {
    hide Decode, PutAll, Items, ReadAll, ScalarItems, OptionalItems, RaftProposalBytes;
    var sch := RaftProposalSchema();
    var xs, ys, zs := ScalarItems(1, m.term), ScalarItems(2, m.sequenceNum), OptionalItems(3, m.data);
    RaftProposalItems(m);
    DecodeItems(sch, RaftProposalBytes(m), xs + ys + zs, NO_PROPOSAL);
    PutAllAppend(sch, NO_PROPOSAL, xs + ys, zs);
    PutAllAppend(sch, NO_PROPOSAL, xs, ys);
    PutScalar(sch, NO_PROPOSAL, 1, m.term);
    var m1 := NO_PROPOSAL.(term := m.term);
    PutScalar(sch, m1, 2, m.sequenceNum);
    PutOptional(sch, m1.(sequenceNum := m.sequenceNum), 3, m.data);
  }

  /** The group's number is field 1 of a member event, the member's is field 2. */
  lemma MemberEventItems(m: MemberEvent)
    ensures |MemberEventBytes(m)| <= 22
    ensures Items(MemberEventKind, MemberEventBytes(m), ScalarItems(1, m.groupID) + ScalarItems(2, m.memberID))
  {
    hide Items, ScalarItems, VarintBytes, Sov;
    SovIsLength(m.groupID);
    SovRange(m.groupID);
    SovIsLength(m.memberID);
    SovRange(m.memberID);
    ScalarItemsRead(MemberEventKind, 0x8, m.groupID);
    ScalarItemsRead(MemberEventKind, 0x10, m.memberID);
    ItemsConcat(MemberEventKind, ScalarBytes(0x8, m.groupID), ScalarItems(1, m.groupID),
                ScalarBytes(0x10, m.memberID), ScalarItems(2, m.memberID));
  }

  lemma MemberEventRoundTrip(m: MemberEvent)
    ensures Decode(MemberEventSchema(), MemberEventBytes(m), 0, NO_MEMBER_EVENT) == Ok(m)
    ensures |MemberEventBytes(m)| <= 22
  {
    hide Decode, PutAll, Items, ReadAll, ScalarItems, MemberEventBytes;
    var sch := MemberEventSchema();
    var xs, ys := ScalarItems(1, m.groupID), ScalarItems(2, m.memberID);
    MemberEventItems(m);
    DecodeItems(sch, MemberEventBytes(m), xs + ys, NO_MEMBER_EVENT);
    PutAllAppend(sch, NO_MEMBER_EVENT, xs, ys);
    PutScalar(sch, NO_MEMBER_EVENT, 1, m.groupID);
    PutScalar(sch, NO_MEMBER_EVENT.(groupID := m.groupID), 2, m.memberID);
  }

  lemma LeaderUpdatedItems(m: LeaderUpdatedEvent)
    requires |LeaderUpdatedBytes(m)| < TWO_63
    ensures Items(LeaderUpdatedKind, LeaderUpdatedBytes(m),
                  [BytesItem(1, MemberEventBytes(m.member))] + ScalarItems(2, m.term) + ScalarItems(3, m.leader))
  {
    hide Items, ScalarBytes, DelimitedBytes, ScalarItems, MemberEventBytes;
    var k := LeaderUpdatedKind;
    var e := MemberEventBytes(m.member);
    var a, b, c := DelimitedBytes(0xa, e), ScalarBytes(0x10, m.term), ScalarBytes(0x18, m.leader);
    DelimitedItemRead(k, 0xa, e);
    ScalarItemsRead(k, 0x10, m.term);
    ScalarItemsRead(k, 0x18, m.leader);
    ItemsConcat(k, a, [BytesItem(1, e)], b, ScalarItems(2, m.term));
    ItemsConcat(k, a + b, [BytesItem(1, e)] + ScalarItems(2, m.term), c, ScalarItems(3, m.leader));
  }

  lemma LeaderUpdatedRoundTrip(m: LeaderUpdatedEvent)
    requires |LeaderUpdatedBytes(m)| < TWO_63
    ensures Decode(LeaderUpdatedSchema(), LeaderUpdatedBytes(m), 0, NO_LEADER_EVENT) == Ok(m)
  {
    hide Decode, PutAll, Items, ReadAll, ScalarItems, LeaderUpdatedBytes, MemberEventBytes;
    var sch := LeaderUpdatedSchema();
    var e := MemberEventBytes(m.member);
    var xs, ys, zs := [BytesItem(1, e)], ScalarItems(2, m.term), ScalarItems(3, m.leader);
    LeaderUpdatedItems(m);
    DecodeItems(sch, LeaderUpdatedBytes(m), xs + ys + zs, NO_LEADER_EVENT);
    PutAllAppend(sch, NO_LEADER_EVENT, xs + ys, zs);
    PutAllAppend(sch, NO_LEADER_EVENT, xs, ys);
    MemberEventRoundTrip(m.member);
    PutOne(sch, NO_LEADER_EVENT, 1, e);
    var m1 := NO_LEADER_EVENT.(member := m.member);
    PutScalar(sch, m1, 2, m.term);
    PutScalar(sch, m1.(term := m.term), 3, m.leader);
  }

  /** The numbers that the messages assign; every other field is unknown to them. */
  lemma AssignedNumbers(n: int)
    ensures MemberConfigKind(n) == Unknown <==> !(1 <= n <= 3)
    ensures GroupConfigKind(n) == Unknown <==> !(1 <= n <= 4)
    ensures RaftProposalKind(n) == Unknown <==> !(1 <= n <= 3)
    ensures MemberEventKind(n) == Unknown <==> !(1 <= n <= 2)
    ensures LeaderUpdatedKind(n) == Unknown <==> !(1 <= n <= 3)
  {}

  /** Default values take no bytes, an embedded message two. */
  lemma DefaultsWriteNothing()
    ensures MemberConfigBytes(NO_MEMBER) == [] && GroupConfigBytes(NO_GROUP) == [] && RaftProposalBytes(NO_PROPOSAL) == []
    ensures MemberEventBytes(NO_MEMBER_EVENT) == [] && LeaderUpdatedBytes(NO_LEADER_EVENT) == [0xa, 0]
  {
    assert NO_GROUP.members == [];
  }
}
