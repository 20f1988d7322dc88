/**
  What a specification asks for and gets, on its own fields: which groups and members
  exist, of which type and on which pods; when a version is recorded; and what an
  unreachable node does to a pass.
 */
module Deployment {
  import opened Bits
  import opened Options
  import opened Naming
  import opened Placement
  import Status
  import opened Members
  import opened PartitionStatus
  import opened Reconcile
  import opened Fixpoint
  import opened Converged

  // ----- names and containers

  /** The reconciler's resources go by the names the event watchers look up. */
  lemma ResourceNames(s: Spec, g: nat, m: nat)
    ensures Group(s, g) == GroupName(s.name, g) && ParseNumbered(Group(s, g)) == Some((s.name, g))
    ensures Member(s, g, m) == MemberName(s.name, g, m) && ParseMemberName(Member(s, g, m)) == Some((s.name, g, m))
  {
    NumberedParses(s.name, g);
    NestedIsFlat(s.name, g, m);
    MemberNameParses(s.name, g, m);
  }

  /** The version is one more than the restarts of the first container of that name, in 32
      bits. */
  lemma {:induction false} VersionOfContainer(cs: seq<ContainerStatus>, k: nat)
    requires k < |cs| && cs[k].name == "atomix-consensus-node"
    requires forall j :: 0 <= j < k ==> cs[j].name != "atomix-consensus-node"
    ensures cs[k].restartCount < 0x7FFF_FFFF ==> ContainerVersion(cs) == cs[k].restartCount + 1
    ensures cs[k].restartCount == 0x7FFF_FFFF ==> ContainerVersion(cs) == -0x8000_0000
  {
    if k > 0 {
      assert cs[0].name != "atomix-consensus-node";
      VersionOfContainer(cs[1..], k - 1);
    }
  }

  /** And 0 without one. */
  lemma {:induction false} VersionOfNone(cs: seq<ContainerStatus>)
    requires forall j :: 0 <= j < |cs| ==> cs[j].name != "atomix-consensus-node"
    ensures ContainerVersion(cs) == 0
  {
    if cs != [] {
      VersionOfNone(cs[1..]);
    }
  }

  // ----- when a version is recorded

  /** If a member has a recorded version after a pass, then either nothing about it changed;
      or its pod is there and its node answered, the version is that of the container now
      running in the very pod the member refers to, and the member was marked not ready
      before. */
  lemma VersionRecorded(w: World, g: nat, m: nat)
    requires w.spec.HasMember(g, m)
    requires MemberAt(ClusterPass(w).world, g, m).Some? && MemberAt(ClusterPass(w).world, g, m).value.version.Some?
    ensures MemberAt(w, g, m).Some?
    ensures var x, y := MemberAt(w, g, m).value, MemberAt(ClusterPass(w).world, g, m).value;
            && y.pod == x.pod && y.podUID == x.podUID
            && (y.version == x.version
                || (&& x.pod in w.pods && w.pods[x.pod].reachable && x.podUID == Some(w.pods[x.pod].uid)
                    && y.version == Some(ContainerVersion(w.pods[x.pod].containers))
                    && (x.version.Some? ==> x.version.value < y.version.value)
                    && x.state == NotReady && y.state == NotReady))
  {
    hide ClusterPass, ContainerVersion;
    PassTouches(w, g, m);
    if ClusterPass(w).result == Wrote(WroteMember(g, m)) {
      MemberVersionRecorded(w, g, m);
    }
  }

  lemma MemberVersionRecorded(w: World, g: nat, m: nat)
    requires w.spec.HasMember(g, m) && MemberPass(w, g, m).result.Wrote?
    ensures MemberAt(MemberPass(w, g, m).world, g, m).Some?
    ensures var y := MemberAt(MemberPass(w, g, m).world, g, m).value;
            y.version.Some? ==>
              MemberAt(w, g, m).Some?
              && var x := MemberAt(w, g, m).value;
              && y.pod == x.pod && y.podUID == x.podUID
              && (y.version == x.version
                  || (&& x.pod in w.pods && w.pods[x.pod].reachable && x.podUID == Some(w.pods[x.pod].uid)
                      && y.version == Some(ContainerVersion(w.pods[x.pod].containers))
                      && (x.version.Some? ==> x.version.value < y.version.value)
                      && x.state == NotReady && y.state == NotReady))
  {
    var x := if MemberAt(w, g, m).None? then NewMember(w.spec, g, m) else ReconciledMember(w, MemberAt(w, g, m).value).value;
    PutMemberAt(w, g, m, x);
    hide Member, ContainerVersion, MemberAt;
  }

  /** No pass makes a member ready. */
  lemma PassMakesNobodyReady(w: World, g: nat, m: nat)
    requires w.spec.HasMember(g, m) && MemberReady(ClusterPass(w).world, g, m)
    ensures MemberReady(w, g, m)
  {
    hide ClusterPass, ContainerVersion;
    PassTouches(w, g, m);
    if ClusterPass(w).result == Wrote(WroteMember(g, m)) {
      var x := if MemberAt(w, g, m).None? then NewMember(w.spec, g, m) else ReconciledMember(w, MemberAt(w, g, m).value).value;
      PutMemberAt(w, g, m, x);
      hide Member, MemberAt;
    }
  }

  /** The member's version was recorded when the pod it refers to answered, and ran that
      version. */
  ghost predicate RecordedFrom(u: World, g: nat, m: nat, x: RaftMember)
    requires u.spec.HasMember(g, m)
  {
    && u.spec.PodName(g, m) in u.pods
    && var pod := u.pods[u.spec.PodName(g, m)];
    && pod.reachable && x.podUID == Some(pod.uid) && x.version == Some(ContainerVersion(pod.containers))
  }

  ghost predicate OnceRecorded(run: seq<Step>, w: World, g: nat, m: nat, x: RaftMember) {
    exists n: nat, u :: CameThrough(run, w, n, u) && u.spec.HasMember(g, m) && RecordedFrom(u, g, m, x)
  }

  lemma StillOnceRecorded(run: seq<Step>, v: World, a: Step, g: nat, m: nat, x: RaftMember)
    requires OnceRecorded(run, v, g, m, x)
    ensures OnceRecorded(run + [a], After(v, a), g, m, x)
  {
    hide CameThrough, RecordedFrom, After;
    var n: nat, u :| CameThrough(run, v, n, u) && u.spec.HasMember(g, m) && RecordedFrom(u, g, m, x);
    CameFarther(run, v, a, n, u);
  }

  /** In every run: a recorded version is one that was seen running in the pod the member
      refers to, at a point of the run at which its node answered. */
  lemma {:induction false} VersionWasSeen(run: seq<Step>, w: World, g: nat, m: nat)
    requires Reachable(run, w) && w.spec.HasMember(g, m)
    requires MemberAt(w, g, m).Some? && MemberAt(w, g, m).value.version.Some?
    ensures OnceRecorded(run, w, g, m, MemberAt(w, g, m).value)
    decreases |run|
  {
    hide After, Allowed, OnceRecorded, MemberAt;
    if run == [] {
      NothingYet(w, g, m);
    } else {
      var init, a := run[..|run| - 1], run[|run| - 1];
      var v :| Reachable(init, v) && Allowed(v, a) && w == After(v, a);
      assert run == init + [a];
      PartitionsKept(v, a);
      var y := MemberAt(w, g, m).value;
      VersionStep(init, v, a, g, m);
      var x := MemberAt(v, g, m).value;
      if y.version == x.version {
        VersionWasSeen(init, v, g, m);
        StillOnceRecorded(init, v, a, g, m, x);
        SameRecord(run, w, g, m, x, y);
      } else {
        RecordedNow(init, v, a, g, m, y);
      }
    }
  }

  lemma NothingYet(w: World, g: nat, m: nat)
    requires w == Empty(w.spec, w.namespace, w.domain, w.pods)
    ensures MemberAt(w, g, m).None?
  {}

  lemma SameRecord(run: seq<Step>, w: World, g: nat, m: nat, x: RaftMember, y: RaftMember)
    requires OnceRecorded(run, w, g, m, x) && x.version == y.version && x.podUID == y.podUID
    ensures OnceRecorded(run, w, g, m, y)
  {
    hide CameThrough;
    var n: nat, u :| CameThrough(run, w, n, u) && u.spec.HasMember(g, m) && RecordedFrom(u, g, m, x);
    assert RecordedFrom(u, g, m, y);
  }

  lemma RecordedNow(run: seq<Step>, v: World, a: Step, g: nat, m: nat, y: RaftMember)
    requires Reachable(run, v) && v.spec.HasMember(g, m) && RecordedFrom(v, g, m, y)
    ensures OnceRecorded(run + [a], After(v, a), g, m, y)
  {
    hide After;
    assert run[..|run|] == run;
    assert CameThrough(run, v, |run|, v);
    hide CameThrough, RecordedFrom;
    CameFarther(run, v, a, |run|, v);
  }

  /** A step that leaves a member with a version records it, or leaves version and pod alone. */
  lemma VersionStep(run: seq<Step>, v: World, a: Step, g: nat, m: nat)
    requires Reachable(run, v) && Allowed(v, a) && v.spec.HasMember(g, m)
    requires MemberAt(After(v, a), g, m).Some? && MemberAt(After(v, a), g, m).value.version.Some?
    ensures MemberAt(v, g, m).Some?
    ensures var x, y := MemberAt(v, g, m).value, MemberAt(After(v, a), g, m).value;
            y.podUID == x.podUID && (y.version == x.version || RecordedFrom(v, g, m, y))
  {
    hide ClusterPass, Reachable, ContainerVersion, Status.OnGroupEvent, Allowed;
    match a
    case ReconcilePass =>
      RunSound(run, v);
      VersionRecorded(v, g, m);
      SoundMember(v, g, m);
    case PodsChanged(pods) => SameMember(v, After(v, a), g, m);
    case MemberReported(h, n) =>
      if MemberAt(v, h, n).Some? {
        PutMemberAt(v, h, n, MemberAt(v, h, n).value.(state := ResourceState.Ready));
      }
    case GroupReported(h, e) =>
      if GroupAt(v, h).Some? {
        PutGroupAt(v, h, GroupAt(v, h).value.(view := Status.OnGroupEvent(GroupAt(v, h).value.view, e)));
      }
  }

  // ----- an unreachable node

  /** The pod of the member is missing; or the member needs a bootstrap that its node does
      not answer. */
  predicate Stuck(w: World, g: nat, m: nat) {
    && MemberAt(w, g, m).Some?
    && var x := MemberAt(w, g, m).value;
    && (x.pod !in w.pods
        || (var pod := w.pods[x.pod];
            && x.podUID == Some(pod.uid) && x.state == NotReady && !pod.reachable
            && (x.version.None? || x.version.value < ContainerVersion(pod.containers))))
  }

  /** A pass that comes to a member that is stuck fails, and leaves everything as it was. */
  lemma UnreachableFails(w: World, g: nat, m: nat)
    requires w.spec.HasMember(g, m) && GroupAt(w, g).Some? && Stuck(w, g, m)
    requires forall h: nat :: 1 <= h < g ==> GroupDone(w, h)
    requires forall n: nat :: 1 <= n < m ==> MemberRank(w, g, n) == 0
    ensures ClusterPass(w) == Pass(w, Failed)
  {
    hide GroupDone, MemberRank, StatusPass;
    GroupsComeTo(w, 1, g);
    MembersComeTo(w, g, 1, m);
    StuckFails(w, g, m);
  }

  lemma StuckFails(w: World, g: nat, m: nat)
    requires w.spec.HasMember(g, m) && Stuck(w, g, m)
    ensures MemberPass(w, g, m) == Pass(w, Failed)
  {
    hide ContainerVersion, MemberAt;
  }

  lemma {:induction false} GroupsComeTo(w: World, h: nat, g: nat)
    requires 1 <= h <= g <= w.spec.NumGroups() && forall i: nat :: 1 <= i < g ==> GroupDone(w, i)
    ensures GroupsPass(w, h) == GroupsPass(w, g)
    decreases g - h
  {
    hide GroupDone, GroupPass;
    if h < g {
      GroupProgress(w, h);
      GroupsComeTo(w, h + 1, g);
    }
  }

  lemma {:induction false} MembersComeTo(w: World, g: nat, n: nat, m: nat)
    requires 1 <= g <= w.spec.NumGroups() && GroupAt(w, g).Some? && 1 <= n <= m <= w.spec.NumMembers()
    requires forall i: nat :: 1 <= i < m ==> MemberRank(w, g, i) == 0
    ensures MembersPass(w, g, n) == MembersPass(w, g, m)
    decreases m - n
  {
    hide MemberRank, MemberPass, GroupAt;
    if n < m {
      MemberProgress(w, g, n);
      MembersComeTo(w, g, n + 1, m);
    }
  }

  // ----- what exists

  /** Every resource is one that the specification asks for. */
  ghost predicate OnlyAsked(w: World) {
    && (forall x :: x in w.groups ==> exists g: nat :: 1 <= g <= w.spec.NumGroups() && x == Group(w.spec, g))
    && (forall x :: x in w.members ==> exists g: nat, m: nat :: w.spec.HasMember(g, m) && x == Member(w.spec, g, m))
  }

  /** Every member is of the type it was created with. */
  ghost predicate Typed(w: World) {
    forall g: nat, m: nat :: w.spec.HasMember(g, m) && MemberAt(w, g, m).Some? ==>
      MemberAt(w, g, m).value.memberType == TypeOf(w.spec, m)
  }

  lemma PassOnlyAsked(w: World)
    requires OnlyAsked(w)
    ensures OnlyAsked(ClusterPass(w).world)
  {
    hide ClusterPass, MemberPass, GroupAt, Group, Member;
    PassWritesOne(w);
    PassProgress(w);
    var p := ClusterPass(w);
    if p.result.Wrote? && p.result.change.WroteMember? {
      MemberPassReports(w, p.result.change.g, p.result.change.m);
    }
  }

  lemma PassTyped(w: World)
    requires Typed(w)
    ensures Typed(ClusterPass(w).world)
  {
    hide ClusterPass;
    PassKeepsInputs(w);
    forall g: nat, m: nat | w.spec.HasMember(g, m) && MemberAt(ClusterPass(w).world, g, m).Some?
      ensures MemberAt(ClusterPass(w).world, g, m).value.memberType == TypeOf(w.spec, m)
    {
      PassTouches(w, g, m);
      if ClusterPass(w).result == Wrote(WroteMember(g, m)) {
        MemberPassTyped(w, g, m);
      }
    }
  }

  lemma MemberPassTyped(w: World, g: nat, m: nat)
    requires Typed(w) && w.spec.HasMember(g, m) && MemberPass(w, g, m).result.Wrote?
    ensures MemberAt(MemberPass(w, g, m).world, g, m).Some?
    ensures MemberAt(MemberPass(w, g, m).world, g, m).value.memberType == TypeOf(w.spec, m)
  {
    var x := if MemberAt(w, g, m).None? then NewMember(w.spec, g, m) else ReconciledMember(w, MemberAt(w, g, m).value).value;
    PutMemberAt(w, g, m, x);
    hide Member, ContainerVersion, MemberAt;
  }

  lemma StepAsked(w: World, a: Step)
    requires OnlyAsked(w) && Typed(w)
    ensures OnlyAsked(After(w, a)) && Typed(After(w, a))
  {
    hide ClusterPass, Group, Member, Status.OnGroupEvent, OnlyAsked, Typed;
    match a
    case ReconcilePass => PassOnlyAsked(w); PassTyped(w);
    case PodsChanged(pods) => SameAsked(w, After(w, a));
    case MemberReported(g, m) =>
      if MemberAt(w, g, m).Some? {
        ReportAsked(w, g, m);
      }
    case GroupReported(g, e) =>
      if GroupAt(w, g).Some? {
        GroupAsked(w, g, GroupAt(w, g).value.(view := Status.OnGroupEvent(GroupAt(w, g).value.view, e)));
      }
  }

  lemma SameAsked(w: World, v: World)
    requires OnlyAsked(w) && Typed(w) && v.spec == w.spec && v.groups == w.groups && v.members == w.members
    ensures OnlyAsked(v) && Typed(v)
  {
    hide Group, Member;
    assert forall g: nat, m: nat :: MemberAt(v, g, m) == MemberAt(w, g, m);
  }

  lemma ReportAsked(w: World, g: nat, m: nat)
    requires OnlyAsked(w) && Typed(w) && MemberAt(w, g, m).Some?
    ensures var v := PutMember(w, g, m, MemberAt(w, g, m).value.(state := ResourceState.Ready)); OnlyAsked(v) && Typed(v)
  {
    var x := MemberAt(w, g, m).value.(state := ResourceState.Ready);
    var v := PutMember(w, g, m, x);
    PutMemberAt(w, g, m, x);
    hide Group, Member;
    assert v.members.Keys == w.members.Keys && v.groups == w.groups && v.spec == w.spec;
    assert forall n :: n in v.members ==> n in w.members;
    hide MemberAt, PutMember;
  }

  lemma GroupAsked(w: World, g: nat, x: RaftGroup)
    requires OnlyAsked(w) && Typed(w) && GroupAt(w, g).Some?
    ensures OnlyAsked(PutGroup(w, g, x)) && Typed(PutGroup(w, g, x))
  {
    var v := PutGroup(w, g, x);
    PutGroupAt(w, g, x);
    hide Group, Member;
    assert v.groups.Keys == w.groups.Keys && v.members == w.members && v.spec == w.spec;
    assert forall n :: n in v.groups ==> n in w.groups;
    hide MemberAt, PutGroup;
  }

  /** In every run, nothing exists that the specification does not ask for. */
  lemma {:induction false} RunAsked(run: seq<Step>, w: World)
    requires Reachable(run, w)
    ensures OnlyAsked(w) && Typed(w)
    decreases |run|
  {
    hide After, Allowed, Group, Member;
    if run != [] {
      hide OnlyAsked, Typed;
      var last := |run| - 1;
      var v :| Reachable(run[..last], v) && Allowed(v, run[last]) && w == After(v, run[last]);
      RunAsked(run[..last], v);
      StepAsked(v, run[last]);
    } else {
      NothingAsked(w);
    }
  }

  lemma NothingAsked(w: World)
    requires w == Empty(w.spec, w.namespace, w.domain, w.pods)
    ensures OnlyAsked(w) && Typed(w)
  {
    assert forall g: nat, m: nat :: MemberAt(w, g, m).None?;
  }

  // ----- at rest, on the fields of the specification

  /** Zero stands for one. */
  function AtLeastOne(n: nat): nat { if n == 0 then 1 else n }

  /** Voting members: the quorum size, or one for each replica. */
  function Voters(s: Spec): int {
    match s.quorumSize { case None => AtLeastOne(s.replicas) case Some(q) => q }
  }

  /** Read replicas, or none. */
  function Readers(s: Spec): int {
    match s.readReplicas { case None => 0 case Some(n) => n }
  }

  ghost predicate Asked(s: Spec, g: nat, m: nat) {
    1 <= g <= AtLeastOne(s.groups) && 1 <= m <= Voters(s) + Readers(s)
  }

  lemma AskedIsHas(s: Spec, g: nat, m: nat)
    ensures s.HasMember(g, m) <==> Asked(s, g, m)
  {}

  /** When the cluster is at rest, exactly the groups and members asked for exist. */
  lemma RestIsAsAsked(run: seq<Step>, w: World)
    requires Reachable(run, w) && ClusterPass(w).result.Quiet?
    ensures forall name :: name in w.groups <==>
                           exists g: nat :: 1 <= g <= AtLeastOne(w.spec.groups) && name == GroupName(w.spec.name, g)
    ensures forall name :: name in w.members <==>
                           exists g: nat, m: nat :: Asked(w.spec, g, m) && name == MemberName(w.spec.name, g, m)
  {
    hide ClusterPass, Reachable, MemberSettled, Published, MemberReady, GroupName, MemberName;
    QuietMeansAtRest(run, w);
    RunAsked(run, w);
    forall g: nat, m: nat
      ensures Group(w.spec, g) == GroupName(w.spec.name, g) && Member(w.spec, g, m) == MemberName(w.spec.name, g, m)
      ensures w.spec.HasMember(g, m) <==> Asked(w.spec, g, m)
    {
      ResourceNames(w.spec, g, m);
      AskedIsHas(w.spec, g, m);
    }
    RestHas(w);
    hide Asked, Group, Member, AtRest;
    assert w.spec.NumGroups() == AtLeastOne(w.spec.groups);
    forall name
      ensures name in w.groups <==> exists g: nat :: 1 <= g <= AtLeastOne(w.spec.groups) && name == GroupName(w.spec.name, g)
    {
      if name in w.groups {
        var g: nat :| 1 <= g <= w.spec.NumGroups() && name == Group(w.spec, g);
        assert name == GroupName(w.spec.name, g);
      }
      if g: nat :| 1 <= g <= AtLeastOne(w.spec.groups) && name == GroupName(w.spec.name, g) {
        assert Group(w.spec, g) in w.groups;
      }
    }
    forall name
      ensures name in w.members <==> exists g: nat, m: nat :: Asked(w.spec, g, m) && name == MemberName(w.spec.name, g, m)
    {
      if name in w.members {
        var g: nat, m: nat :| w.spec.HasMember(g, m) && name == Member(w.spec, g, m);
        assert Asked(w.spec, g, m) && name == MemberName(w.spec.name, g, m);
      }
      if g: nat, m: nat :| Asked(w.spec, g, m) && name == MemberName(w.spec.name, g, m) {
        assert Member(w.spec, g, m) in w.members;
      }
    }
  }

  lemma RestHas(w: World)
    requires AtRest(w)
    ensures forall g: nat :: 1 <= g <= w.spec.NumGroups() ==> Group(w.spec, g) in w.groups
    ensures forall g: nat, m: nat :: w.spec.HasMember(g, m) ==> Member(w.spec, g, m) in w.members
  {
    hide Group, Member, Published, MemberReady;
    forall g: nat | 1 <= g <= w.spec.NumGroups()
      ensures Group(w.spec, g) in w.groups
    {
      assert GroupAt(w, g).Some?;
    }
    forall g: nat, m: nat | w.spec.HasMember(g, m)
      ensures Member(w.spec, g, m) in w.members
    {
      assert MemberSettled(w, g, m);
    }
  }

  /** In every run, a member votes if its number is within the quorum, and observes
      otherwise; and it is on the pod whose number is its place in the line of all
      members, modulo the replicas. */
  lemma MembersAsAsked(run: seq<Step>, w: World, g: nat, m: nat)
    requires Reachable(run, w) && Asked(w.spec, g, m) && MemberName(w.spec.name, g, m) in w.members
    ensures var x := w.members[MemberName(w.spec.name, g, m)];
            && x.memberType == (if m <= Voters(w.spec) then Voting else Observer)
            && (Voters(w.spec) + Readers(w.spec)) * g + (m - 1) >= 0
            && ParseNumbered(x.pod) ==
               Some((w.spec.name, ((Voters(w.spec) + Readers(w.spec)) * g + (m - 1)) % AtLeastOne(w.spec.replicas)))
  {
    hide Reachable, Numbered, MemberName;
    ResourceNames(w.spec, g, m);
    AskedIsHas(w.spec, g, m);
    RunAsked(run, w);
    RunSound(run, w);
    assert MemberAt(w, g, m) == Some(w.members[MemberName(w.spec.name, g, m)]);
    SoundMember(w, g, m);
    assert Voters(w.spec) + Readers(w.spec) == w.spec.NumMembers();
    Positive(w.spec.NumMembers(), g);
    NumberedParses(w.spec.name, w.spec.PodOrdinal(g, m));
    assert MemberAt(w, g, m).value.memberType == TypeOf(w.spec, m);
  }
}
