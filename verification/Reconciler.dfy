/**
  The cluster reconciler as the code runs it: loops over groups and members that
  read and write the stored resources, each method tied to the pass it performs.
  Creating the config map, the stateful set and the services is not part of this.
 */
module Reconciler {
  import opened Bits
  import opened Options
  import opened Placement
  import Status
  import opened Members
  import opened PartitionStatus
  import opened Reconcile

  class ClusterReconciler {
    const spec: Spec
    const namespace: string
    const domain: string
    const pods: map<string, Pod>
    var groups: map<string, RaftGroup>
    var members: map<string, RaftMember>
    var state: ResourceState
    var partitions: seq<Partition>

    ghost function View(): World
      reads this
    {
      World(spec, namespace, domain, pods, groups, members, state, partitions)
    }

    constructor (w: World)
      ensures View() == w
    {
      spec, namespace, domain, pods := w.spec, w.namespace, w.domain, w.pods;
      groups, members, state, partitions := w.groups, w.members, w.state, w.partitions;
    }

    method ContainerVersionOf(cs: seq<ContainerStatus>) returns (version: int32)
      ensures version == ContainerVersion(cs)
    {
      version := 0;
      for k := 0 to |cs|
        invariant version == 0 && ContainerVersion(cs) == ContainerVersion(cs[k..])
      {
        if cs[k].name == NODE_CONTAINER {
          return Increment32(cs[k].restartCount);
        }
        assert cs[k..][1..] == cs[k + 1..];
      }
    }

    method UpdateMember(g: nat, m: nat, member: RaftMember)
      modifies this`members
      ensures View() == PutMember(old(View()), g, m, member)
    {
      members := members[Member(spec, g, m) := member];
    }

    method ReconcileMember(g: nat, m: nat) returns (result: Result)
      requires spec.HasMember(g, m)
      modifies this`members
      ensures var p := MemberPass(old(View()), g, m); View() == p.world && result == p.result
    {
      hide Member;
      var name := Member(spec, g, m);
      if name !in members {
        UpdateMember(g, m, NewMember(spec, g, m));
        return Wrote(WroteMember(g, m));
      }
      var member := members[name];
      if member.pod !in pods {
        return Failed;
      }
      var pod := pods[member.pod];
      if member.podUID == None || member.podUID.value != pod.uid {
        UpdateMember(g, m, member.(podUID := Some(pod.uid), version := None));
        return Wrote(WroteMember(g, m));
      }
      var version := ContainerVersionOf(pod.containers);
      if member.version == None || version > member.version.value {
        if member.state != NotReady {
          UpdateMember(g, m, member.(state := NotReady));
          return Wrote(WroteMember(g, m));
        }
        if !pod.reachable {
          return Failed;
        }
        UpdateMember(g, m, member.(version := Some(version)));
        return Wrote(WroteMember(g, m));
      }
      return Quiet;
    }

    method ReconcileMembers(g: nat) returns (result: Result)
      requires 1 <= g <= spec.NumGroups() && GroupAt(View(), g).Some?
      modifies this
      ensures var p := MembersPass(old(View()), g, 1); View() == p.world && result == p.result
    {
      hide Group, Member, MemberPass;
      var groupState := ResourceState.Ready;
      var m := 1;
      while m <= spec.NumMembers()
        invariant 1 <= m && (m == 1 || m <= spec.NumMembers() + 1) && View() == old(View())
        invariant MembersPass(View(), g, 1) == MembersPass(View(), g, m)
        invariant groupState == GroupState(View(), g, m - 1)
      {
        result := ReconcileMember(g, m);
        if !result.Quiet? {
          return;
        }
        QuietChangesNothing(old(View()), g, m);
        if members[Member(spec, g, m)].state == NotReady {
          groupState := NotReady;
        }
        m := m + 1;
      }
      var group := groups[Group(spec, g)];
      if group.state != groupState {
        groups := groups[Group(spec, g) := group.(state := groupState)];
        return Wrote(WroteGroup(g));
      }
      return Quiet;
    }

    method ReconcileGroup(g: nat) returns (result: Result)
      requires 1 <= g <= spec.NumGroups()
      modifies this
      ensures var p := GroupPass(old(View()), g); View() == p.world && result == p.result
    {
      hide Group, MembersPass;
      if Group(spec, g) !in groups {
        groups := groups[Group(spec, g) := RaftGroup(Unset, Status.NO_STATUS)];
        return Wrote(CreatedGroup(g));
      }
      result := ReconcileMembers(g);
    }

    method ReconcileGroups() returns (result: Result)
      modifies this
      ensures var p := GroupsPass(old(View()), 1); View() == p.world && result == p.result
    {
      hide Group, MembersPass;
      var clusterState := ResourceState.Ready;
      var g := 1;
      while g <= spec.NumGroups()
        invariant 1 <= g <= spec.NumGroups() + 1 && View() == old(View())
        invariant GroupsPass(View(), 1) == GroupsPass(View(), g)
        invariant clusterState == ClusterState(View(), g - 1)
      {
        QuietGroupChangesNothing(View(), g);
        result := ReconcileGroup(g);
        if !result.Quiet? {
          return;
        }
        if groups[Group(spec, g)].state == NotReady {
          clusterState := NotReady;
        }
        g := g + 1;
      }
      if state != clusterState {
        state := clusterState;
        return Wrote(WroteState);
      }
      return Quiet;
    }

    method AddressesOf(names: seq<string>) returns (r: Option<seq<string>>)
      ensures r == FollowerAddresses(View(), names)
    {
      var addresses := [];
      for k := 0 to |names|
        invariant FollowerAddresses(View(), names[..k]) == Some(addresses)
      {
        assert names[..k + 1][..k] == names[..k];
        if names[k] !in members {
          MissingFollower(View(), names, k + 1);
          return None;
        }
        addresses := addresses + [Address(namespace, spec.name, domain, members[names[k]].pod)];
      }
      assert names[..|names|] == names;
      return Some(addresses);
    }

    method GetPartitionStatuses() returns (r: Option<seq<Partition>>)
      ensures r == PartitionsUpTo(View(), spec.NumGroups())
    {
      hide Group, Address;
      var ps := [];
      for k := 0 to spec.NumGroups()
        invariant PartitionsUpTo(View(), k) == Some(ps)
      {
        var g := k + 1;
        if Group(spec, g) !in groups {
          MissingPartition(View(), g, spec.NumGroups());
          return None;
        }
        var view := groups[Group(spec, g)].view;
        var leader: Option<string> := None;
        if view.leader.Some? {
          if view.leader.value !in members {
            MissingPartition(View(), g, spec.NumGroups());
            return None;
          }
          leader := Some(Address(namespace, spec.name, domain, members[view.leader.value].pod));
        }
        var followers := AddressesOf(view.followers);
        if followers.None? {
          MissingPartition(View(), g, spec.NumGroups());
          return None;
        }
        ps := ps + [Partition(g, leader, followers.value)];
      }
      return Some(ps);
    }

    method ReconcileStatus() returns (result: Result)
      modifies this`partitions
      ensures var p := StatusPass(old(View())); View() == p.world && result == p.result
    {
      hide PartitionsUpTo, AllEquivalent;
      var ps := GetPartitionStatuses();
      if ps.None? {
        return Failed;
      }
      var equal := IsPartitionStatusesEqual(partitions, ps.value);
      if !equal {
        partitions := ps.value;
        return Wrote(WrotePartitions);
      }
      return Quiet;
    }

    method Reconcile() returns (result: Result)
      modifies this
      ensures var p := ClusterPass(old(View())); View() == p.world && result == p.result
    {
      hide GroupsPass, StatusPass;
      QuietGroupsChangeNothing(View(), 1);
      result := ReconcileGroups();
      if result.Quiet? {
        result := ReconcileStatus();
      }
    }
  }

  lemma QuietChangesNothing(w: World, g: nat, m: nat)
    requires w.spec.HasMember(g, m) && MemberPass(w, g, m).result.Quiet?
    ensures MemberPass(w, g, m).world == w && MemberAt(w, g, m).Some?
  {
    hide MemberAt;
  }

  lemma {:induction false} QuietMembersChangeNothing(w: World, g: nat, m: nat)
    requires 1 <= g <= w.spec.NumGroups() && m >= 1 && GroupAt(w, g).Some?
    ensures MembersPass(w, g, m).result.Quiet? ==> MembersPass(w, g, m).world == w
    decreases w.spec.NumMembers() + 1 - m
  {
    hide GroupAt, MemberPass;
    if m <= w.spec.NumMembers() {
      if MemberPass(w, g, m).result.Quiet? {
        QuietMembersChangeNothing(w, g, m + 1);
      }
    }
  }

  lemma QuietGroupChangesNothing(w: World, g: nat)
    requires 1 <= g <= w.spec.NumGroups()
    ensures GroupPass(w, g).result.Quiet? ==>
              GroupPass(w, g).world == w && GroupAt(w, g).Some?
  {
    hide GroupAt, MembersPass;
    if GroupAt(w, g).Some? {
      QuietMembersChangeNothing(w, g, 1);
    }
  }

  lemma {:induction false} QuietGroupsChangeNothing(w: World, g: nat)
    requires 1 <= g <= w.spec.NumGroups() + 1
    ensures GroupsPass(w, g).result.Quiet? ==> GroupsPass(w, g).world == w
    decreases w.spec.NumGroups() + 1 - g
  {
    hide GroupPass, ClusterState;
    if g <= w.spec.NumGroups() {
      if GroupPass(w, g).result.Quiet? {
        QuietGroupsChangeNothing(w, g + 1);
      }
    }
  }

  /** One missing follower leaves no list. */
  lemma {:induction false} MissingFollower(w: World, names: seq<string>, k: nat)
    requires k <= |names| && FollowerAddresses(w, names[..k]).None?
    ensures FollowerAddresses(w, names).None?
    decreases |names| - k
  {
    if k < |names| {
      assert names[..k + 1][..k] == names[..k];
      MissingFollower(w, names, k + 1);
    } else {
      assert names[..k] == names;
    }
  }

  lemma {:induction false} MissingPartition(w: World, g: nat, k: nat)
    requires 1 <= g <= k && PartitionOf(w, g).None?
    ensures PartitionsUpTo(w, k).None?
  {
    if g < k {
      MissingPartition(w, g, k - 1);
    }
  }
}
