/**
  The cluster reconciler.  A pass walks the groups and members of a cluster in
  order and stops at the first thing it has to write, so a pass writes at most one
  group, member or cluster resource.  Resources live in maps keyed by their names;
  pods are given from outside.
 */
module Reconcile {
  import opened Bits
  import opened Options
  import opened Naming
  import opened Placement
  import Status
  import opened Members
  import opened PartitionStatus

  datatype ContainerStatus = ContainerStatus(name: string, restartCount: int32)

  /** A pod as the reconciler sees it, and whether its node answers a bootstrap request. */
  datatype Pod = Pod(uid: nat, containers: seq<ContainerStatus>, reachable: bool)

  datatype MemberType = Voting | Observer | Witness

  datatype RaftMember = RaftMember(
    pod: string, memberType: MemberType, podUID: Option<nat>, version: Option<int32>, state: ResourceState)

  datatype RaftGroup = RaftGroup(state: ResourceState, view: Status.GroupView)

  datatype World = World(
    spec: Spec, namespace: string, domain: string,
    pods: map<string, Pod>,
    groups: map<string, RaftGroup>,
    members: map<string, RaftMember>,
    state: ResourceState,
    partitions: seq<Partition>)

  const NODE_CONTAINER := "atomix-consensus-node"

  function Group(s: Spec, g: nat): string { GroupName(s.name, g) }

  function Member(s: Spec, g: nat, m: nat): string { NestedMemberName(GroupName(s.name, g), m) }

  function GroupAt(w: World, g: nat): Option<RaftGroup> {
    if Group(w.spec, g) in w.groups then Some(w.groups[Group(w.spec, g)]) else None
  }

  function MemberAt(w: World, g: nat, m: nat): Option<RaftMember> {
    if Member(w.spec, g, m) in w.members then Some(w.members[Member(w.spec, g, m)]) else None
  }

  // ----- one pass

  datatype Change =
    | CreatedGroup(g: nat)
    | WroteMember(g: nat, m: nat)
    | WroteGroup(g: nat)
    | WroteState
    | WrotePartitions

  /** A pass finds nothing to do, fails, or writes one thing. */
  datatype Result = Quiet | Failed | Wrote(change: Change)

  datatype Pass = Pass(world: World, result: Result)

  function PutGroup(w: World, g: nat, group: RaftGroup): World {
    w.(groups := w.groups[Group(w.spec, g) := group])
  }

  function PutMember(w: World, g: nat, m: nat, member: RaftMember): World {
    w.(members := w.members[Member(w.spec, g, m) := member])
  }

  function TypeOf(s: Spec, m: nat): MemberType {
    if m <= s.NumVotingMembers() then Voting else if m <= s.NumMembers() then Observer else Witness
  }

  function Increment32(x: int32): int32 {
    if x == 0x7FFF_FFFF then -0x8000_0000 else x + 1
  }

  /** One more than the restarts of the node's container; 0 when it is not listed. */
  function ContainerVersion(cs: seq<ContainerStatus>): int32 {
    if cs == [] then 0
    else if cs[0].name == NODE_CONTAINER then Increment32(cs[0].restartCount)
    else ContainerVersion(cs[1..])
  }

  predicate Stale(member: RaftMember, pod: Pod) {
    member.version.None? || ContainerVersion(pod.containers) > member.version.value
  }

  /** What becomes of an existing member: its new content, if there is anything to write. */
  function ReconciledMember(w: World, member: RaftMember): Option<RaftMember>
    requires member.pod in w.pods
  {
    var pod := w.pods[member.pod];
    if member.podUID != Some(pod.uid) then Some(member.(podUID := Some(pod.uid), version := None))
    else if !Stale(member, pod) then None
    else if member.state != NotReady then Some(member.(state := NotReady))
    else Some(member.(version := Some(ContainerVersion(pod.containers))))
  }

  /** The last write of a member is preceded by a bootstrap request to its node. */
  predicate NeedsBootstrap(w: World, member: RaftMember)
    requires member.pod in w.pods
  {
    var pod := w.pods[member.pod];
    member.podUID == Some(pod.uid) && Stale(member, pod) && member.state == NotReady
  }

  function NewMember(s: Spec, g: nat, m: nat): RaftMember
    requires s.HasMember(g, m)
  {
    RaftMember(s.PodName(g, m), TypeOf(s, m), None, None, Unset)
  }

  function MemberPass(w: World, g: nat, m: nat): Pass
    requires w.spec.HasMember(g, m)
  {
    match MemberAt(w, g, m)
    case None => Pass(PutMember(w, g, m, NewMember(w.spec, g, m)), Wrote(WroteMember(g, m)))
    case Some(member) =>
      if member.pod !in w.pods then Pass(w, Failed)
      else
        match ReconciledMember(w, member)
        case None => Pass(w, Quiet)
        case Some(updated) =>
          if NeedsBootstrap(w, member) && !w.pods[member.pod].reachable then Pass(w, Failed)
          else Pass(PutMember(w, g, m, updated), Wrote(WroteMember(g, m)))
  }

  /** The state a group is given by its first `k` members. */
  function GroupState(w: World, g: nat, k: nat): ResourceState {
    if k == 0 then ResourceState.Ready
    else if MemberAt(w, g, k).Some? && MemberAt(w, g, k).value.state == NotReady then NotReady
    else GroupState(w, g, k - 1)
  }

  /** The members of a group from `m` on, and then the group's own state. */
  function MembersPass(w: World, g: nat, m: nat): Pass
    requires 1 <= g <= w.spec.NumGroups() && m >= 1 && GroupAt(w, g).Some?
    decreases w.spec.NumMembers() + 1 - m
  {
    if m <= w.spec.NumMembers() then
      var p := MemberPass(w, g, m);
      if p.result.Quiet? then MembersPass(w, g, m + 1) else p
    else
      var group := GroupAt(w, g).value;
      var state := GroupState(w, g, m - 1);
      if group.state != state then Pass(PutGroup(w, g, group.(state := state)), Wrote(WroteGroup(g)))
      else Pass(w, Quiet)
  }

  function GroupPass(w: World, g: nat): Pass
    requires 1 <= g <= w.spec.NumGroups()
  {
    if GroupAt(w, g).None? then
      Pass(PutGroup(w, g, RaftGroup(Unset, Status.NO_STATUS)), Wrote(CreatedGroup(g)))
    else MembersPass(w, g, 1)
  }

  /** The state the cluster is given by its first `k` groups. */
  function ClusterState(w: World, k: nat): ResourceState {
    if k == 0 then ResourceState.Ready
    else if GroupAt(w, k).Some? && GroupAt(w, k).value.state == NotReady then NotReady
    else ClusterState(w, k - 1)
  }

  function GroupsPass(w: World, g: nat): Pass
    requires 1 <= g <= w.spec.NumGroups() + 1
    decreases w.spec.NumGroups() + 1 - g
  {
    if g <= w.spec.NumGroups() then
      var p := GroupPass(w, g);
      if p.result.Quiet? then GroupsPass(w, g + 1) else p
    else if w.state != ClusterState(w, g - 1) then Pass(w.(state := ClusterState(w, g - 1)), Wrote(WroteState))
    else Pass(w, Quiet)
  }

  // ----- the partitions to publish

  function MemberAddress(w: World, name: string): Option<string> {
    if name in w.members then Some(Address(w.namespace, w.spec.name, w.domain, w.members[name].pod)) else None
  }

  function FollowerAddresses(w: World, names: seq<string>): Option<seq<string>> {
    if names == [] then Some([])
    else
      match FollowerAddresses(w, names[..|names| - 1])
      case None => None
      case Some(before) =>
        match MemberAddress(w, names[|names| - 1])
        case None => None
        case Some(a) => Some(before + [a])
  }

  /** The leader and followers of a view by address; fails when a resource is missing. */
  function PartitionFrom(w: World, g: nat, view: Status.GroupView): Option<Partition> {
    if view.leader.Some? && MemberAddress(w, view.leader.value).None? then None
    else
      match FollowerAddresses(w, view.followers)
      case None => None
      case Some(followers) =>
        Some(Partition(g, if view.leader.Some? then MemberAddress(w, view.leader.value) else None, followers))
  }

  function PartitionOf(w: World, g: nat): Option<Partition> {
    if GroupAt(w, g).None? then None else PartitionFrom(w, g, GroupAt(w, g).value.view)
  }

  function PartitionsUpTo(w: World, k: nat): Option<seq<Partition>> {
    if k == 0 then Some([])
    else
      match PartitionsUpTo(w, k - 1)
      case None => None
      case Some(before) =>
        match PartitionOf(w, k)
        case None => None
        case Some(p) => Some(before + [p])
  }

  function StatusPass(w: World): Pass {
    match PartitionsUpTo(w, w.spec.NumGroups())
    case None => Pass(w, Failed)
    case Some(ps) =>
      if AllEquivalent(w.partitions, ps) then Pass(w, Quiet)
      else Pass(w.(partitions := ps), Wrote(WrotePartitions))
  }

  function ClusterPass(w: World): Pass {
    var p := GroupsPass(w, 1);
    if p.result.Quiet? then StatusPass(w) else p
  }

}
