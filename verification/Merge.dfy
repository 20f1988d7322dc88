/**
  Concatenating two encoded messages merges them: the last occurrence of a scalar
  or bytes field wins, and repeated members accumulate.
 */
module Merge {
  import opened Bits
  import opened Varint
  import opened Decoder
  import opened Messages

  /** Every item is of the kind its field number has. */
  ghost predicate OfKind(kind: int -> Kind, xs: seq<Item>) {
    forall j :: 0 <= j < |xs| ==>
      && (xs[j].ScalarItem? ==> kind(xs[j].fieldNum) == Scalar)
      && (xs[j].BytesItem? ==> kind(xs[j].fieldNum) == Delimited)
      && (xs[j].UnknownItem? ==> kind(xs[j].fieldNum) == Unknown)
  }

  lemma {:induction false} ItemsAreOfKind(kind: int -> Kind, s: seq<byte>, i: nat)
    requires i <= |s| && ReadAll(kind, s, i).Ok?
    ensures OfKind(kind, ReadAll(kind, s, i).value)
    decreases |s| - i
  {
    if i < |s| {
      var f := ReadItem(kind, s, i).value;
      ItemIsOfKind(kind, s, i);
      ItemsAreOfKind(kind, s, f.next);
      hide ReadItem;
      var items := ReadAll(kind, s, f.next).value;
      assert ReadAll(kind, s, i).value == [f.item] + items;
    }
  }

  lemma ItemIsOfKind(kind: int -> Kind, s: seq<byte>, i: nat)
    requires i <= |s| && ReadItem(kind, s, i).Ok?
    ensures OfKind(kind, [ReadItem(kind, s, i).value.item])
  {}

  /** Field `n` occurs among the items. */
  predicate Present(xs: seq<Item>, n: int) {
    exists j :: 0 <= j < |xs| && xs[j].fieldNum == n
  }

  lemma PresentCons(x: Item, xs: seq<Item>, n: int)
    ensures Present([x] + xs, n) <==> x.fieldNum == n || Present(xs, n)
  {
    var ys := [x] + xs;
    assert ys[0] == x;
    if x.fieldNum != n && Present(ys, n) {
      var j :| 0 <= j < |ys| && ys[j].fieldNum == n;
      assert xs[j - 1] == ys[j];
    }
    if Present(xs, n) {
      var j :| 0 <= j < |xs| && xs[j].fieldNum == n;
      assert ys[j + 1] == xs[j];
    }
  }

  lemma NothingPresent()
    ensures forall n :: !Present([], n)
  {}

  /** A message decoded over `x` that would have been `y` when decoded from scratch. */
  function MergedGroup(x: GroupConfig, y: GroupConfig, xs: seq<Item>): GroupConfig {
    GroupConfig(
      if Present(xs, 1) then y.groupID else x.groupID,
      if Present(xs, 2) then y.memberID else x.memberID,
      if Present(xs, 3) then y.role else x.role,
      x.members + y.members)
  }

  /** From `x` and `z` to `r` and `q`, the same was said: present fields are now equal,
      absent ones are as before, and the same members were added. */
  ghost predicate SameSaid(xs: seq<Item>, x: GroupConfig, z: GroupConfig, r: GroupConfig, q: GroupConfig) {
    && (if Present(xs, 1) then r.groupID == q.groupID else r.groupID == x.groupID && q.groupID == z.groupID)
    && (if Present(xs, 2) then r.memberID == q.memberID else r.memberID == x.memberID && q.memberID == z.memberID)
    && (if Present(xs, 3) then r.role == q.role else r.role == x.role && q.role == z.role)
    && exists added :: r.members == x.members + added && q.members == z.members + added
  }

  lemma NothingSaid(x: GroupConfig, z: GroupConfig)
    ensures SameSaid([], x, z, x, z)
  {
    NothingPresent();
    assert x.members + [] == x.members && z.members + [] == z.members;
  }

  lemma PutOneGroup(item: Item, x: GroupConfig, z: GroupConfig)
    requires OfKind(GroupConfigKind, [item])
    ensures var sch := GroupConfigSchema();
            && (Put(sch, x, item).Ok? <==> Put(sch, z, item).Ok?)
            && (Put(sch, z, item).Ok? ==> SameSaid([item], x, z, Put(sch, x, item).value, Put(sch, z, item).value))
  {
    hide Decode;
    var sch := GroupConfigSchema();
    assert [item][0] == item;
    NothingPresent();
    assert [item] + [] == [item];
    PresentCons(item, [], 1);
    PresentCons(item, [], 2);
    PresentCons(item, [], 3);
    hide Present;
    if Put(sch, z, item).Ok? {
      var r, q := Put(sch, x, item).value, Put(sch, z, item).value;
      var added := r.members[|x.members|..];
      assert r.members == x.members + added && q.members == z.members + added;
    }
  }

  lemma SameSaidCons(item: Item, xs: seq<Item>, x: GroupConfig, z: GroupConfig,
                     x1: GroupConfig, z1: GroupConfig, r: GroupConfig, q: GroupConfig)
    requires SameSaid([item], x, z, x1, z1) && SameSaid(xs, x1, z1, r, q)
    ensures SameSaid([item] + xs, x, z, r, q)
  {
    NothingPresent();
    assert [item] + [] == [item];
    forall n: int
      ensures Present([item] + xs, n) <==> Present([item], n) || Present(xs, n)
    {
      PresentCons(item, xs, n);
      PresentCons(item, [], n);
    }
    hide Present;
    var first :| x1.members == x.members + first && z1.members == z.members + first;
    var rest :| r.members == x1.members + rest && q.members == z1.members + rest;
    assert r.members == x.members + (first + rest) && q.members == z.members + (first + rest);
  }

  /** Folding the same items over any two messages: what the items say is the same. */
  lemma {:induction false} PutAllGroup(x: GroupConfig, z: GroupConfig, xs: seq<Item>)
    requires OfKind(GroupConfigKind, xs)
    ensures PutAll(GroupConfigSchema(), x, xs).Ok? <==> PutAll(GroupConfigSchema(), z, xs).Ok?
    ensures PutAll(GroupConfigSchema(), z, xs).Ok? ==>
              SameSaid(xs, x, z, PutAll(GroupConfigSchema(), x, xs).value, PutAll(GroupConfigSchema(), z, xs).value)
    decreases |xs|
  {
    hide Put, SameSaid;
    var sch := GroupConfigSchema();
    if xs == [] {
      NothingSaid(x, z);
    } else {
      PutOneGroup(xs[0], x, z);
      if Put(sch, z, xs[0]).Ok? {
        var x1, z1 := Put(sch, x, xs[0]).value, Put(sch, z, xs[0]).value;
        PutAllGroup(x1, z1, xs[1..]);
        assert xs == [xs[0]] + xs[1..];
        if PutAll(sch, z, xs).Ok? {
          SameSaidCons(xs[0], xs[1..], x, z, x1, z1, PutAll(sch, x, xs).value, PutAll(sch, z, xs).value);
        }
      }
    }
  }

  /** If `a` and `b` each decode, `a + b` decodes to the one merged into the other. */
  lemma GroupConfigConcat(a: seq<byte>, b: seq<byte>)
    requires |a + b| < TWO_63
    requires Decode(GroupConfigSchema(), a, 0, NO_GROUP).Ok? && Decode(GroupConfigSchema(), b, 0, NO_GROUP).Ok?
    ensures ReadAll(GroupConfigKind, b, 0).Ok?
    ensures Decode(GroupConfigSchema(), a + b, 0, NO_GROUP) ==
            Ok(MergedGroup(Decode(GroupConfigSchema(), a, 0, NO_GROUP).value,
                           Decode(GroupConfigSchema(), b, 0, NO_GROUP).value,
                           ReadAll(GroupConfigKind, b, 0).value))
  {
    hide Decode, ReadAll, PutAll, Present;
    var sch := GroupConfigSchema();
    var x, y := Decode(sch, a, 0, NO_GROUP).value, Decode(sch, b, 0, NO_GROUP).value;
    ConcatIsMerge(sch, a, b, NO_GROUP);
    DecodeIsFold(sch, b, 0, NO_GROUP);
    DecodeIsFold(sch, b, 0, x);
    ItemsAreOfKind(GroupConfigKind, b, 0);
    var xs := ReadAll(GroupConfigKind, b, 0).value;
    PutAllGroup(x, NO_GROUP, xs);
    var r := PutAll(sch, x, xs).value;
    var added :| r.members == x.members + added && y.members == NO_GROUP.members + added;
    assert added == y.members;
  }

  function MergedProposal(x: RaftProposal, y: RaftProposal, xs: seq<Item>): RaftProposal {
    RaftProposal(
      if Present(xs, 1) then y.term else x.term,
      if Present(xs, 2) then y.sequenceNum else x.sequenceNum,
      if Present(xs, 3) then y.data else x.data)
  }

  lemma {:induction false} PutAllProposal(x: RaftProposal, z: RaftProposal, xs: seq<Item>)
    requires OfKind(RaftProposalKind, xs)
    ensures PutAll(RaftProposalSchema(), x, xs).Ok? && PutAll(RaftProposalSchema(), z, xs).Ok?
    ensures PutAll(RaftProposalSchema(), x, xs).value ==
            MergedProposal(x, PutAll(RaftProposalSchema(), z, xs).value, xs)
    decreases |xs|
  {
    if xs != [] {
      var sch := RaftProposalSchema();
      var x1, z1 := Put(sch, x, xs[0]).value, Put(sch, z, xs[0]).value;
      assert xs[0].UnknownItem? ==> RaftProposalKind(xs[0].fieldNum) == Unknown;
      PutAllProposal(x1, z1, xs[1..]);
      assert xs == [xs[0]] + xs[1..];
      PresentCons(xs[0], xs[1..], 1);
      PresentCons(xs[0], xs[1..], 2);
      PresentCons(xs[0], xs[1..], 3);
      hide Present;
      if !Present(xs[1..], xs[0].fieldNum) {
        // nothing later overrides this field, so it ends as this item left it
        PutAllProposal(z1, z1, xs[1..]);
      }
    }
  }

  lemma RaftProposalConcat(a: seq<byte>, b: seq<byte>)
    requires |a + b| < TWO_63
    requires Decode(RaftProposalSchema(), a, 0, NO_PROPOSAL).Ok? && Decode(RaftProposalSchema(), b, 0, NO_PROPOSAL).Ok?
    ensures ReadAll(RaftProposalKind, b, 0).Ok?
    ensures Decode(RaftProposalSchema(), a + b, 0, NO_PROPOSAL) ==
            Ok(MergedProposal(Decode(RaftProposalSchema(), a, 0, NO_PROPOSAL).value,
                              Decode(RaftProposalSchema(), b, 0, NO_PROPOSAL).value,
                              ReadAll(RaftProposalKind, b, 0).value))
  {
    hide Decode, ReadAll, PutAll, Present;
    var sch := RaftProposalSchema();
    var x := Decode(sch, a, 0, NO_PROPOSAL).value;
    ConcatIsMerge(sch, a, b, NO_PROPOSAL);
    DecodeIsFold(sch, b, 0, NO_PROPOSAL);
    DecodeIsFold(sch, b, 0, x);
    ItemsAreOfKind(RaftProposalKind, b, 0);
    PutAllProposal(x, NO_PROPOSAL, ReadAll(RaftProposalKind, b, 0).value);
  }
}
