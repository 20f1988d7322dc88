/**
  Repeated passes of the cluster reconciler come to rest.  Every write brings a
  bounded measure down, and at rest the cluster is what its specification asks for.
 */
module Fixpoint {
  import opened Bits
  import opened Options
  import opened Naming
  import opened Placement
  import opened Members
  import opened PartitionStatus
  import opened Reconcile

  // ----- names tell resources apart

  lemma PutGroupAt(w: World, g: nat, x: RaftGroup)
    ensures forall h: nat :: GroupAt(PutGroup(w, g, x), h) == if h == g then Some(x) else GroupAt(w, h)
    ensures forall h: nat, n: nat :: MemberAt(PutGroup(w, g, x), h, n) == MemberAt(w, h, n)
  {
    hide Numbered;
    forall h: nat | Group(w.spec, h) == Group(w.spec, g)
      ensures h == g
    {
      NumberedInjective(w.spec.name, g, w.spec.name, h);
    }
  }

  lemma PutMemberAt(w: World, g: nat, m: nat, x: RaftMember)
    ensures forall h: nat, n: nat ::
              MemberAt(PutMember(w, g, m, x), h, n) == if h == g && n == m then Some(x) else MemberAt(w, h, n)
    ensures forall h: nat :: GroupAt(PutMember(w, g, m, x), h) == GroupAt(w, h)
  {
    hide Numbered, MemberName, GroupName, NestedMemberName;
    forall h: nat, n: nat | Member(w.spec, h, n) == Member(w.spec, g, m)
      ensures h == g && n == m
    {
      NestedIsFlat(w.spec.name, g, m);
      NestedIsFlat(w.spec.name, h, n);
      MemberNameInjective(w.spec.name, g, m, w.spec.name, h, n);
    }
  }

  // ----- what is left to do

  /** How many writes a member still needs. */
  function MemberRank(w: World, g: nat, m: nat): nat {
    match MemberAt(w, g, m)
    case None => 4
    case Some(member) =>
      if member.pod !in w.pods || member.podUID != Some(w.pods[member.pod].uid) then 3
      else if !Stale(member, w.pods[member.pod]) then 0
      else if member.state != NotReady then 2
      else 1
  }

  function MembersRank(w: World, g: nat, k: nat): nat {
    if k == 0 then 0 else MembersRank(w, g, k - 1) + MemberRank(w, g, k)
  }

  /** The number of members of a group; a specification can make it negative, which is none. */
  function Count(s: Spec): nat {
    if s.NumMembers() <= 0 then 0 else s.NumMembers()
  }

  /** A group is done when it exists, its members need nothing, and its state is theirs. */
  predicate GroupDone(w: World, g: nat) {
    && GroupAt(w, g).Some?
    && MembersRank(w, g, Count(w.spec)) == 0
    && GroupAt(w, g).value.state == GroupState(w, g, Count(w.spec))
  }

  function GroupRank(w: World, g: nat): nat {
    MembersRank(w, g, Count(w.spec)) + (if GroupAt(w, g).Some? then 0 else 1) + (if GroupDone(w, g) then 0 else 1)
  }

  function GroupsRank(w: World, k: nat): nat {
    if k == 0 then 0 else GroupsRank(w, k - 1) + GroupRank(w, k)
  }

  predicate StateDone(w: World) {
    GroupsRank(w, w.spec.NumGroups()) == 0 && w.state == ClusterState(w, w.spec.NumGroups())
  }

  predicate AllDone(w: World) {
    && StateDone(w)
    && PartitionsUpTo(w, w.spec.NumGroups()).Some?
    && AllEquivalent(w.partitions, PartitionsUpTo(w, w.spec.NumGroups()).value)
  }

  /** The measure: the writes that are still to come, counted at their worst. */
  function Remaining(w: World): nat {
    GroupsRank(w, w.spec.NumGroups()) + (if StateDone(w) then 0 else 1) + (if AllDone(w) then 0 else 1)
  }

  function WriteBound(s: Spec): nat {
    s.NumGroups() * (2 + 4 * Count(s)) + 2
  }

  lemma {:induction false} MembersRankBound(w: World, g: nat, k: nat)
    ensures MembersRank(w, g, k) <= 4 * k
  {
    hide MemberAt;
    if k > 0 {
      MembersRankBound(w, g, k - 1);
    }
  }

  lemma {:induction false} GroupsRankBound(w: World, k: nat)
    ensures GroupsRank(w, k) <= k * (2 + 4 * Count(w.spec))
  {
    hide GroupDone, GroupAt, Count;
    var c := 2 + 4 * Count(w.spec);
    if k > 0 {
      GroupsRankBound(w, k - 1);
      MembersRankBound(w, k, Count(w.spec));
      Distribute(k - 1, 1, c);
    } else {
      assert 0 * c == 0;
    }
  }

  lemma RemainingBound(w: World)
    ensures Remaining(w) <= WriteBound(w.spec)
  {
    hide GroupsRank, StateDone, AllDone, Count;
    GroupsRankBound(w, w.spec.NumGroups());
  }

  // ----- frames

  /** Same specification and pods, and the same first `k` members of group `g`. */
  ghost predicate SameMembers(w: World, v: World, g: nat, k: nat) {
    v.spec == w.spec && v.pods == w.pods && forall m: nat :: 1 <= m <= k ==> MemberAt(v, g, m) == MemberAt(w, g, m)
  }

  lemma {:induction false} MembersSame(w: World, v: World, g: nat, k: nat)
    requires SameMembers(w, v, g, k)
    ensures MembersRank(v, g, k) == MembersRank(w, g, k) && GroupState(v, g, k) == GroupState(w, g, k)
  {
    hide MemberAt, Stale;
    if k > 0 {
      MembersSame(w, v, g, k - 1);
    }
  }

  lemma {:induction false} MembersDrop(w: World, v: World, g: nat, k: nat, m: nat)
    requires v.spec == w.spec && v.pods == w.pods && 1 <= m <= k
    requires forall n: nat :: 1 <= n <= k && n != m ==> MemberAt(v, g, n) == MemberAt(w, g, n)
    requires MemberRank(v, g, m) < MemberRank(w, g, m)
    ensures MembersRank(v, g, k) < MembersRank(w, g, k)
  {
    hide MemberAt, Stale;
    if k == m {
      MembersSame(w, v, g, k - 1);
    } else {
      MembersDrop(w, v, g, k - 1, m);
    }
  }

  ghost predicate SameGroup(w: World, v: World, g: nat) {
    SameMembers(w, v, g, Count(w.spec)) && GroupAt(v, g) == GroupAt(w, g)
  }

  lemma {:induction false} GroupsSame(w: World, v: World, k: nat)
    requires forall g: nat :: 1 <= g <= k ==> SameGroup(w, v, g)
    ensures GroupsRank(v, k) == GroupsRank(w, k) && ClusterState(v, k) == ClusterState(w, k)
  {
    hide GroupAt, MemberAt, SameMembers, Count;
    if k > 0 {
      GroupsSame(w, v, k - 1);
      assert SameGroup(w, v, k);
      SpecSame(w, v, k);
      MembersSame(w, v, k, Count(w.spec));
    }
  }

  lemma SpecSame(w: World, v: World, g: nat)
    requires SameGroup(w, v, g)
    ensures v.spec == w.spec
  {}

  lemma {:induction false} GroupsDrop(w: World, v: World, k: nat, g: nat)
    requires 1 <= g <= k && forall h: nat :: 1 <= h <= k && h != g ==> SameGroup(w, v, h)
    requires GroupRank(v, g) < GroupRank(w, g)
    ensures GroupsRank(v, k) < GroupsRank(w, k)
  {
    hide GroupAt, MemberAt, SameMembers, Count, GroupRank;
    if k == g {
      GroupsSame(w, v, k - 1);
    } else {
      GroupsDrop(w, v, k - 1, g);
      assert SameGroup(w, v, k);
      GroupSame(w, v, k);
    }
  }

  lemma GroupSame(w: World, v: World, g: nat)
    requires SameGroup(w, v, g)
    ensures GroupRank(v, g) == GroupRank(w, g)
  {
    hide GroupAt, MemberAt, Count;
    SpecSame(w, v, g);
    MembersSame(w, v, g, Count(w.spec));
  }

  /** Progress in one group is progress. */
  lemma RemainingDrop(w: World, v: World, g: nat)
    requires v.spec == w.spec && 1 <= g <= w.spec.NumGroups()
    requires forall h: nat :: 1 <= h <= w.spec.NumGroups() && h != g ==> SameGroup(w, v, h)
    requires GroupRank(v, g) < GroupRank(w, g)
    ensures Remaining(v) < Remaining(w)
  {
    hide GroupRank, GroupsRank, SameGroup, ClusterState, PartitionsUpTo, AllEquivalent;
    GroupsDrop(w, v, w.spec.NumGroups(), g);
  }

  // ----- what a pass does

  /** A member is left alone exactly when it needs nothing, and a write is progress. */
  lemma MemberProgress(w: World, g: nat, m: nat)
    requires w.spec.HasMember(g, m)
    ensures var p := MemberPass(w, g, m);
            && (p.result.Quiet? <==> MemberRank(w, g, m) == 0)
            && (p.result.Wrote? ==> p.result == Wrote(WroteMember(g, m)) && Remaining(p.world) < Remaining(w))
            && (!p.result.Wrote? ==> p.world == w)
  {
    hide Remaining, Member, MemberAt, PutMember;
    var p := MemberPass(w, g, m);
    if p.result.Wrote? {
      var x := if MemberAt(w, g, m).None? then NewMember(w.spec, g, m) else ReconciledMember(w, MemberAt(w, g, m).value).value;
      assert p.world == PutMember(w, g, m, x);
      PutMemberAt(w, g, m, x);
      MemberWritten(w, g, m, x);
    }
  }

  lemma MemberWritten(w: World, g: nat, m: nat, x: RaftMember)
    requires w.spec.HasMember(g, m)
    requires MemberAt(PutMember(w, g, m, x), g, m) == Some(x)
    requires match MemberAt(w, g, m) {
               case None => x.podUID == None
               case Some(member) => member.pod in w.pods && ReconciledMember(w, member) == Some(x)
             }
    ensures Remaining(PutMember(w, g, m, x)) < Remaining(w)
  {
    var v := PutMember(w, g, m, x);
    assert MemberRank(v, g, m) < MemberRank(w, g, m);
    PutMemberAt(w, g, m, x);
    assert v.spec == w.spec && v.pods == w.pods;
    hide MemberAt, GroupAt, PutMember, ReconciledMember, MemberRank, Remaining;
    MembersDrop(w, v, g, Count(w.spec), m);
    assert !GroupDone(w, g);
    RemainingDrop(w, v, g);
  }

  /** The walk over a group's members, from one whose predecessors need nothing. */
  lemma {:induction false} MembersProgress(w: World, g: nat, m: nat)
    requires 1 <= g <= w.spec.NumGroups() && 1 <= m <= Count(w.spec) + 1 && GroupAt(w, g).Some?
    requires MembersRank(w, g, m - 1) == 0
    ensures var p := MembersPass(w, g, m);
            && (p.result.Quiet? <==> GroupDone(w, g))
            && (p.result.Wrote? ==> Remaining(p.world) < Remaining(w))
            && (!p.result.Wrote? ==> p.world == w)
    decreases Count(w.spec) + 1 - m
  {
    hide Remaining, MemberAt, GroupAt, MemberPass, MemberRank, GroupState;
    if m <= w.spec.NumMembers() {
      MemberProgress(w, g, m);
      if MemberRank(w, g, m) == 0 {
        MembersProgress(w, g, m + 1);
      } else {
        RankStays(w, g, m, Count(w.spec));
      }
    } else if GroupAt(w, g).value.state != GroupState(w, g, m - 1) {
      GroupStateWritten(w, g);
    }
  }

  lemma {:induction false} RankStays(w: World, g: nat, m: nat, k: nat)
    requires 1 <= m <= k && MemberRank(w, g, m) > 0
    ensures MembersRank(w, g, k) > 0
  {
    hide MemberRank;
    if m < k {
      RankStays(w, g, m, k - 1);
    }
  }

  lemma GroupStateWritten(w: World, g: nat)
    requires 1 <= g <= w.spec.NumGroups() && GroupAt(w, g).Some? && MembersRank(w, g, Count(w.spec)) == 0
    requires GroupAt(w, g).value.state != GroupState(w, g, Count(w.spec))
    ensures Remaining(PutGroup(w, g, GroupAt(w, g).value.(state := GroupState(w, g, Count(w.spec))))) < Remaining(w)
  {
    var x := GroupAt(w, g).value.(state := GroupState(w, g, Count(w.spec)));
    var v := PutGroup(w, g, x);
    PutGroupAt(w, g, x);
    assert v.spec == w.spec && v.pods == w.pods;
    hide MemberAt, GroupAt, PutGroup, Remaining, GroupState, MembersRank;
    MembersSame(w, v, g, Count(w.spec));
    RemainingDrop(w, v, g);
  }

  lemma GroupProgress(w: World, g: nat)
    requires 1 <= g <= w.spec.NumGroups()
    ensures var p := GroupPass(w, g);
            && (p.result.Quiet? <==> GroupDone(w, g))
            && (p.result.Wrote? ==> Remaining(p.world) < Remaining(w))
            && (!p.result.Wrote? ==> p.world == w)
  {
    hide Remaining, MembersPass, GroupAt, PutGroup;
    if GroupAt(w, g).Some? {
      MembersProgress(w, g, 1);
    } else {
      var x := RaftGroup(Unset, Status.NO_STATUS);
      var v := PutGroup(w, g, x);
      PutGroupAt(w, g, x);
      PutGroupKeeps(w, g, x);
      hide MemberAt, GroupState, MembersRank;
      MembersSame(w, v, g, Count(w.spec));
      RemainingDrop(w, v, g);
    }
  }

  lemma PutGroupKeeps(w: World, g: nat, x: RaftGroup)
    ensures PutGroup(w, g, x).spec == w.spec && PutGroup(w, g, x).pods == w.pods
  {}

  lemma {:induction false} GroupsProgress(w: World, g: nat)
    requires 1 <= g <= w.spec.NumGroups() + 1 && GroupsRank(w, g - 1) == 0
    ensures var p := GroupsPass(w, g);
            && (p.result.Quiet? <==> StateDone(w))
            && (p.result.Wrote? ==> Remaining(p.world) < Remaining(w))
            && (!p.result.Wrote? ==> p.world == w)
    decreases w.spec.NumGroups() + 1 - g
  {
    hide GroupPass, ClusterState, MembersRank, GroupAt, AllDone, Count, GroupDone;
    if g <= w.spec.NumGroups() {
      GroupProgress(w, g);
      if GroupDone(w, g) {
        DoneRank(w, g);
        GroupsProgress(w, g + 1);
      } else {
        GroupRankStays(w, g, w.spec.NumGroups());
      }
    } else if w.state != ClusterState(w, g - 1) {
      StateWritten(w);
    }
  }

  lemma DoneRank(w: World, g: nat)
    ensures GroupRank(w, g) == 0 <==> GroupDone(w, g)
  {
    hide GroupState, MembersRank, GroupAt, Count;
  }

  lemma {:induction false} GroupRankStays(w: World, g: nat, k: nat)
    requires 1 <= g <= k && !GroupDone(w, g)
    ensures GroupsRank(w, k) > 0
  {
    hide GroupDone, GroupRank;
    DoneRank(w, g);
    if g < k {
      GroupRankStays(w, g, k - 1);
    }
  }

  lemma StateWritten(w: World)
    requires GroupsRank(w, w.spec.NumGroups()) == 0 && w.state != ClusterState(w, w.spec.NumGroups())
    ensures Remaining(w.(state := ClusterState(w, w.spec.NumGroups()))) < Remaining(w)
  {
    var v := w.(state := ClusterState(w, w.spec.NumGroups()));
    assert forall g: nat :: GroupAt(v, g) == GroupAt(w, g);
    assert forall g: nat, m: nat :: MemberAt(v, g, m) == MemberAt(w, g, m);
    hide MemberAt, GroupAt, GroupsRank, ClusterState, PartitionsUpTo;
    GroupsSame(w, v, w.spec.NumGroups());
  }

  lemma {:induction false} PartitionsInOrder(w: World, k: nat)
    requires PartitionsUpTo(w, k).Some?
    ensures InOrder(PartitionsUpTo(w, k).value) && |PartitionsUpTo(w, k).value| == k
    ensures forall j :: 0 <= j < k ==> PartitionOf(w, j + 1) == Some(PartitionsUpTo(w, k).value[j])
  {
    hide GroupAt, FollowerAddresses, MemberAddress;
    if k > 0 {
      PartitionsInOrder(w, k - 1);
    }
  }

  lemma {:induction false} AddressesSame(w: World, ps: seq<Partition>, names: seq<string>)
    ensures FollowerAddresses(w.(partitions := ps), names) == FollowerAddresses(w, names)
    decreases |names|
  {
    hide Address;
    if names != [] {
      AddressesSame(w, ps, names[..|names| - 1]);
    }
  }

  /** Publishing does not change what is to be published. */
  lemma {:induction false} PartitionsSame(w: World, ps: seq<Partition>, k: nat)
    ensures PartitionsUpTo(w.(partitions := ps), k) == PartitionsUpTo(w, k)
  {
    hide Address, FollowerAddresses;
    if k > 0 {
      PartitionsSame(w, ps, k - 1);
      if GroupAt(w, k).Some? {
        AddressesSame(w, ps, GroupAt(w, k).value.view.followers);
      }
    }
  }

  lemma StatusProgress(w: World)
    requires StateDone(w)
    ensures var p := StatusPass(w);
            && (p.result.Quiet? <==> AllDone(w))
            && (p.result.Wrote? ==> Remaining(p.world) < Remaining(w))
            && (!p.result.Wrote? ==> p.world == w)
  {
    if StatusPass(w).result.Wrote? {
      PartitionsWritten(w);
    }
  }

  lemma PartitionsWritten(w: World)
    requires StateDone(w) && PartitionsUpTo(w, w.spec.NumGroups()).Some?
    requires !AllEquivalent(w.partitions, PartitionsUpTo(w, w.spec.NumGroups()).value)
    ensures Remaining(w.(partitions := PartitionsUpTo(w, w.spec.NumGroups()).value)) < Remaining(w)
  {
    var k := w.spec.NumGroups();
    var ps := PartitionsUpTo(w, k).value;
    var v := w.(partitions := ps);
    assert forall g: nat :: GroupAt(v, g) == GroupAt(w, g);
    assert forall g: nat, m: nat :: MemberAt(v, g, m) == MemberAt(w, g, m);
    hide MemberAt, GroupAt, GroupsRank, ClusterState, PartitionsUpTo;
    GroupsSame(w, v, k);
    PartitionsSame(w, ps, k);
    PartitionsInOrder(w, k);
    assert AllEquivalent(ps, ps);
  }

  /** A pass writes at most one resource; a write makes progress, no write leaves
      everything as it is, and a pass is quiet exactly when all is done. */
  lemma PassProgress(w: World)
    ensures var p := ClusterPass(w);
            && (p.result.Quiet? <==> AllDone(w))
            && (p.result.Wrote? ==> Remaining(p.world) < Remaining(w))
            && (!p.result.Wrote? ==> p.world == w)
  {
    hide GroupsPass, StatusPass, Remaining, PartitionsUpTo, AllEquivalent, StateDone;
    GroupsProgress(w, 1);
    if StateDone(w) {
      StatusProgress(w);
    }
  }

  // ----- one write at most

  /** From `w` to `v`, the change named is the only one. */
  ghost predicate OnlyChange(w: World, v: World, change: Change) {
    match change
    case CreatedGroup(g) =>
      1 <= g <= w.spec.NumGroups() && GroupAt(w, g).None? && v == PutGroup(w, g, RaftGroup(Unset, Status.NO_STATUS))
    case WroteGroup(g) =>
      1 <= g <= w.spec.NumGroups() && GroupAt(w, g).Some? && exists state :: v == PutGroup(w, g, GroupAt(w, g).value.(state := state))
    case WroteMember(g, m) => w.spec.HasMember(g, m) && MemberPass(w, g, m).result.Wrote? && v == MemberPass(w, g, m).world
    case WroteState => v == w.(state := v.state)
    case WrotePartitions =>
      PartitionsUpTo(w, w.spec.NumGroups()) == Some(v.partitions) && v == w.(partitions := v.partitions)
  }

  lemma MemberPassReports(w: World, g: nat, m: nat)
    ensures w.spec.HasMember(g, m) && MemberPass(w, g, m).result.Wrote? ==>
              MemberPass(w, g, m).result == Wrote(WroteMember(g, m))
              && exists x :: MemberPass(w, g, m).world == PutMember(w, g, m, x)
  {
    hide MemberAt, PutMember, Stale;
  }

  lemma {:induction false} MembersWriteOne(w: World, g: nat, m: nat)
    requires 1 <= g <= w.spec.NumGroups() && m >= 1 && GroupAt(w, g).Some?
    ensures var p := MembersPass(w, g, m); p.result.Wrote? ==> OnlyChange(w, p.world, p.result.change)
    decreases w.spec.NumMembers() + 1 - m
  {
    hide GroupAt, MemberAt, PutGroup, PutMember, GroupState, ReconciledMember;
    MemberPassReports(w, g, m);
    if m <= w.spec.NumMembers() && MemberPass(w, g, m).result.Quiet? {
      MembersWriteOne(w, g, m + 1);
    }
  }

  lemma {:induction false} GroupsWriteOne(w: World, g: nat)
    requires 1 <= g <= w.spec.NumGroups() + 1
    ensures var p := GroupsPass(w, g); p.result.Wrote? ==> OnlyChange(w, p.world, p.result.change)
    decreases w.spec.NumGroups() + 1 - g
  {
    hide GroupAt, MembersPass, PutGroup, PutMember, ClusterState;
    if g <= w.spec.NumGroups() {
      if GroupAt(w, g).Some? {
        MembersWriteOne(w, g, 1);
      }
      if GroupPass(w, g).result.Quiet? {
        GroupsWriteOne(w, g + 1);
      }
    }
  }

  /** A pass that writes changes the one thing it reports, and nothing else. */
  lemma PassWritesOne(w: World)
    ensures var p := ClusterPass(w); p.result.Wrote? ==> OnlyChange(w, p.world, p.result.change)
  {
    hide GroupsPass, OnlyChange, PartitionsUpTo, AllEquivalent;
    GroupsWriteOne(w, 1);
    if GroupsPass(w, 1).result.Quiet? {
      StatusWritesOne(w);
    }
  }

  lemma StatusWritesOne(w: World)
    ensures var p := StatusPass(w); p.result.Wrote? ==> OnlyChange(w, p.world, p.result.change)
  {}

  // ----- repeated passes, everything else held fixed

  function Passes(w: World, n: nat): World {
    if n == 0 then w else ClusterPass(Passes(w, n - 1)).world
  }

  /** How many of the first `n` passes write. */
  function Writes(w: World, n: nat): nat {
    if n == 0 then 0
    else Writes(w, n - 1) + if ClusterPass(Passes(w, n - 1)).result.Wrote? then 1 else 0
  }

  lemma {:induction false} WritesUseUp(w: World, n: nat)
    ensures Writes(w, n) + Remaining(Passes(w, n)) <= Remaining(w)
  {
    hide ClusterPass, Remaining;
    if n > 0 {
      WritesUseUp(w, n - 1);
      PassProgress(Passes(w, n - 1));
    }
  }

  /** However often the reconciler runs, it writes no more than the bound. */
  lemma WritesBounded(w: World, n: nat)
    ensures Writes(w, n) <= WriteBound(w.spec)
    ensures w.spec.NumMembers() >= 0 ==> WriteBound(w.spec) == w.spec.NumGroups() * (2 + 4 * w.spec.NumMembers()) + 2
  {
    WritesUseUp(w, n);
    RemainingBound(w);
    hide Remaining;
  }

  lemma {:induction false} SplitPasses(w: World, n: nat)
    ensures Passes(w, n + 1) == Passes(ClusterPass(w).world, n)
  {
    hide ClusterPass;
    if n > 0 {
      SplitPasses(w, n - 1);
    }
  }

  lemma {:induction false} RestWithin(w: World) returns (n: nat)
    ensures n <= Remaining(w) && !ClusterPass(Passes(w, n)).result.Wrote?
    decreases Remaining(w)
  {
    hide ClusterPass, Remaining;
    PassProgress(w);
    if ClusterPass(w).result.Wrote? {
      n := RestWithin(ClusterPass(w).world);
      SplitPasses(w, n);
      n := n + 1;
    } else {
      n := 0;
    }
  }

  lemma {:induction false} RestStays(w: World, n: nat)
    requires !ClusterPass(w).result.Wrote?
    ensures Passes(w, n) == w
  {
    hide ClusterPass, Remaining;
    PassProgress(w);
    if n > 0 {
      RestStays(w, n - 1);
    }
  }

  /** From any state, a fixpoint is reached within the bound: a world that no further
      pass changes. */
  lemma FixpointReached(w: World) returns (n: nat)
    ensures n <= WriteBound(w.spec)
    ensures forall k: nat :: Passes(Passes(w, n), k) == Passes(w, n)
  {
    hide ClusterPass, Remaining, WriteBound;
    n := RestWithin(w);
    RemainingBound(w);
    forall k: nat
      ensures Passes(Passes(w, n), k) == Passes(w, n)
    {
      RestStays(Passes(w, n), k);
    }
  }
}
