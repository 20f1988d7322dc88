/**
  What the cluster looks like when the reconciler is at rest, in every world that
  its passes, the controller's event watchers and the comings and goings of pods
  can produce.
 */
module Converged {
  import opened Options
  import opened Placement
  import Status
  import opened Members
  import opened PartitionStatus
  import opened Reconcile
  import opened Fixpoint

  // ----- runs

  datatype Step =
    | ReconcilePass
    | PodsChanged(pods: map<string, Pod>)
    | MemberReported(g: nat, m: nat)
    | GroupReported(g: nat, e: Status.GroupEvent)

  function Empty(spec: Spec, namespace: string, domain: string, pods: map<string, Pod>): World {
    World(spec, namespace, domain, pods, map[], map[], Unset, [])
  }

  /** The names in an event are names of members of the group the event is about. */
  ghost predicate Allowed(w: World, a: Step) {
    a.GroupReported? ==>
      match a.e
      case Ready(name) => IsMemberOf(w.spec, a.g, name)
      case Led(_, leader) => leader.Some? ==> IsMemberOf(w.spec, a.g, leader.value)
  }

  ghost predicate IsMemberOf(s: Spec, g: nat, name: string) {
    exists m: nat :: s.HasMember(g, m) && name == Member(s, g, m)
  }

  function After(w: World, a: Step): World {
    match a
    case ReconcilePass => ClusterPass(w).world
    case PodsChanged(pods) => w.(pods := pods)
    case MemberReported(g, m) =>
      if MemberAt(w, g, m).Some? then PutMember(w, g, m, MemberAt(w, g, m).value.(state := ResourceState.Ready)) else w
    case GroupReported(g, e) =>
      if GroupAt(w, g).Some? then
        PutGroup(w, g, GroupAt(w, g).value.(view := Status.OnGroupEvent(GroupAt(w, g).value.view, e)))
      else w
  }

  /** `w` is reached from nothing but a specification and some pods. */
  ghost predicate Reachable(run: seq<Step>, w: World) {
    if run == [] then w == Empty(w.spec, w.namespace, w.domain, w.pods)
    else
      var last := |run| - 1;
      exists v :: Reachable(run[..last], v) && Allowed(v, run[last]) && w == After(v, run[last])
  }

  /** Where a world gets to by further steps. */
  function AfterAll(w: World, steps: seq<Step>): World {
    if steps == [] then w else After(AfterAll(w, steps[..|steps| - 1]), steps[|steps| - 1])
  }

  lemma AfterOneMore(w: World, steps: seq<Step>, a: Step)
    ensures AfterAll(w, steps + [a]) == After(AfterAll(w, steps), a)
  {
    hide After;
    assert (steps + [a])[..|steps|] == steps;
  }

  // ----- what every run keeps

  /** A member is on the pod it was placed on; and a version is only ever recorded for
      a member whose state is known. */
  ghost predicate MembersSound(w: World) {
    forall g: nat, m: nat :: w.spec.HasMember(g, m) && MemberAt(w, g, m).Some? ==> MemberSound(w.spec, g, m, MemberAt(w, g, m).value)
  }

  predicate MemberSound(s: Spec, g: nat, m: nat, x: RaftMember)
    requires s.HasMember(g, m)
  {
    x.pod == s.PodName(g, m) && (x.version.Some? ==> x.state == NotReady || x.state == ResourceState.Ready)
  }

  /** A group's status names its own members, each once. */
  ghost predicate GroupsSound(w: World) {
    forall g: nat :: GroupAt(w, g).Some? ==> ViewSound(w.spec, g, GroupAt(w, g).value.view)
  }

  ghost predicate ViewSound(s: Spec, g: nat, v: Status.GroupView) {
    Status.WellFormed(v) && forall x :: x in Status.Known(v) ==> IsMemberOf(s, g, x)
  }

  ghost predicate Sound(w: World) {
    MembersSound(w) && GroupsSound(w)
  }

  lemma PutMemberSound(w: World, g: nat, m: nat, x: RaftMember)
    requires Sound(w) && (w.spec.HasMember(g, m) ==> MemberSound(w.spec, g, m, x))
    ensures Sound(PutMember(w, g, m, x))
  {
    PutMemberAt(w, g, m, x);
    var v := PutMember(w, g, m, x);
    assert v.spec == w.spec && v.partitions == w.partitions;
    hide MemberAt, GroupAt, PutMember, MemberSound, ViewSound;
  }

  lemma PutGroupSound(w: World, g: nat, x: RaftGroup)
    requires Sound(w) && ViewSound(w.spec, g, x.view)
    ensures Sound(PutGroup(w, g, x))
  {
    PutGroupAt(w, g, x);
    var v := PutGroup(w, g, x);
    assert v.spec == w.spec && v.partitions == w.partitions;
    hide MemberAt, GroupAt, PutGroup, MemberSound, ViewSound;
  }

  lemma MemberPassSound(w: World, g: nat, m: nat)
    requires Sound(w) && w.spec.HasMember(g, m)
    ensures Sound(MemberPass(w, g, m).world)
  {
    hide Sound, PutMember, MemberAt;
    var p := MemberPass(w, g, m);
    if p.result.Wrote? {
      if MemberAt(w, g, m).None? {
        PutMemberSound(w, g, m, NewMember(w.spec, g, m));
      } else {
        var x := MemberAt(w, g, m).value;
        SoundMember(w, g, m);
        PutMemberSound(w, g, m, ReconciledMember(w, x).value);
      }
    }
  }

  lemma SoundMember(w: World, g: nat, m: nat)
    requires Sound(w) && w.spec.HasMember(g, m) && MemberAt(w, g, m).Some?
    ensures MemberSound(w.spec, g, m, MemberAt(w, g, m).value)
  {}

  lemma SoundGroup(w: World, g: nat)
    requires Sound(w) && GroupAt(w, g).Some?
    ensures ViewSound(w.spec, g, GroupAt(w, g).value.view)
  {}

  lemma {:induction false} MembersPassSound(w: World, g: nat, m: nat)
    requires Sound(w) && 1 <= g <= w.spec.NumGroups() && m >= 1 && GroupAt(w, g).Some?
    ensures Sound(MembersPass(w, g, m).world)
    decreases w.spec.NumMembers() + 1 - m
  {
    hide Sound, GroupAt, PutGroup, MemberPass, GroupState;
    if m <= w.spec.NumMembers() {
      MemberPassSound(w, g, m);
      MemberProgress(w, g, m);
      if MemberPass(w, g, m).result.Quiet? {
        MembersPassSound(w, g, m + 1);
      }
    } else {
      SoundGroup(w, g);
      PutGroupSound(w, g, GroupAt(w, g).value.(state := GroupState(w, g, m - 1)));
    }
  }

  lemma GroupPassSound(w: World, g: nat)
    requires Sound(w) && 1 <= g <= w.spec.NumGroups()
    ensures Sound(GroupPass(w, g).world)
  {
    hide Sound, GroupAt, PutGroup, MembersPass;
    if GroupAt(w, g).Some? {
      MembersPassSound(w, g, 1);
    } else {
      PutGroupSound(w, g, RaftGroup(Unset, Status.NO_STATUS));
    }
  }

  lemma {:induction false} GroupsPassSound(w: World, g: nat)
    requires Sound(w) && 1 <= g <= w.spec.NumGroups() + 1
    ensures Sound(GroupsPass(w, g).world)
    decreases w.spec.NumGroups() + 1 - g
  {
    hide Sound, GroupPass, ClusterState, Remaining;
    if g <= w.spec.NumGroups() {
      GroupPassSound(w, g);
      GroupProgress(w, g);
      if GroupPass(w, g).result.Quiet? {
        GroupsPassSound(w, g + 1);
      }
    } else {
      SetState(w, ClusterState(w, g - 1));
    }
  }

  lemma SetState(w: World, state: ResourceState)
    requires Sound(w)
    ensures Sound(w.(state := state))
  {
    var v := w.(state := state);
    assert forall g: nat :: GroupAt(v, g) == GroupAt(w, g);
    assert forall g: nat, m: nat :: MemberAt(v, g, m) == MemberAt(w, g, m);
    hide MemberAt, GroupAt, MemberSound, ViewSound;
  }

  // ----- the addresses of a sound group

  lemma {:induction false} FollowersAddressed(w: World, names: seq<string>)
    requires FollowerAddresses(w, names).Some?
    ensures var a := FollowerAddresses(w, names).value;
            |a| == |names| && forall k :: 0 <= k < |names| ==> MemberAddress(w, names[k]) == Some(a[k])
    decreases |names|
  {
    hide Address, MemberAddress;
    if names != [] {
      FollowersAddressed(w, names[..|names| - 1]);
    }
  }

  /** The address of a member, by name. */
  lemma AddressOfMember(w: World, g: nat, m: nat)
    requires Sound(w) && w.spec.HasMember(g, m)
    ensures MemberAddress(w, Member(w.spec, g, m)) ==
            if MemberAt(w, g, m).None? then None
            else Some(Address(w.namespace, w.spec.name, w.domain, w.spec.PodName(g, m)))
  {
    hide Address, Member;
    if MemberAt(w, g, m).Some? {
      SoundMember(w, g, m);
    }
  }

  lemma StatusPassSound(w: World)
    requires Sound(w)
    ensures Sound(StatusPass(w).world)
  {
    hide MemberAt, GroupAt, PartitionsUpTo, AllEquivalent;
    if StatusPass(w).result.Wrote? {
      SetPartitions(w, PartitionsUpTo(w, w.spec.NumGroups()).value);
    }
  }

  lemma SetPartitions(w: World, ps: seq<Partition>)
    requires Sound(w)
    ensures Sound(w.(partitions := ps))
  {
    var v := w.(partitions := ps);
    assert forall g: nat :: GroupAt(v, g) == GroupAt(w, g);
    assert forall g: nat, m: nat :: MemberAt(v, g, m) == MemberAt(w, g, m);
    hide MemberAt, GroupAt, MemberSound, ViewSound;
  }

  lemma ClusterPassSound(w: World)
    requires Sound(w)
    ensures Sound(ClusterPass(w).world)
  {
    hide Sound, GroupsPass, StatusPass, Remaining, StateDone;
    GroupsPassSound(w, 1);
    GroupsProgress(w, 1);
    StatusPassSound(w);
  }

  lemma ViewStaysSound(s: Spec, g: nat, v: Status.GroupView, e: Status.GroupEvent)
    requires ViewSound(s, g, v)
    requires match e
             case Ready(name) => IsMemberOf(s, g, name)
             case Led(_, leader) => leader.Some? ==> IsMemberOf(s, g, leader.value)
    ensures ViewSound(s, g, Status.OnGroupEvent(v, e))
  {
    hide IsMemberOf;
    match e
    case Ready(name) => Status.OnReadyKeeps(v, name);
    case Led(term, leader) => Status.OnLedKeeps(v, term, leader);
  }

  lemma StepSound(w: World, a: Step)
    requires Sound(w) && Allowed(w, a)
    ensures Sound(After(w, a))
  {
    hide Sound, ClusterPass, PutMember, PutGroup, MemberAt, GroupAt, IsMemberOf, ViewSound, Status.OnGroupEvent;
    match a
    case ReconcilePass => ClusterPassSound(w);
    case PodsChanged(pods) => SetPods(w, pods);
    case MemberReported(g, m) =>
      if MemberAt(w, g, m).Some? {
        if w.spec.HasMember(g, m) {
          SoundMember(w, g, m);
        }
        PutMemberSound(w, g, m, MemberAt(w, g, m).value.(state := ResourceState.Ready));
      }
    case GroupReported(g, e) =>
      if GroupAt(w, g).Some? {
        SoundGroup(w, g);
        ViewStaysSound(w.spec, g, GroupAt(w, g).value.view, e);
        PutGroupSound(w, g, GroupAt(w, g).value.(view := Status.OnGroupEvent(GroupAt(w, g).value.view, e)));
      }
  }

  lemma SetPods(w: World, pods: map<string, Pod>)
    requires Sound(w)
    ensures Sound(w.(pods := pods))
  {
    var v := w.(pods := pods);
    assert forall g: nat :: GroupAt(v, g) == GroupAt(w, g);
    assert forall g: nat, m: nat :: MemberAt(v, g, m) == MemberAt(w, g, m);
    hide MemberAt, GroupAt, MemberSound, ViewSound;
  }

  lemma {:induction false} RunSound(run: seq<Step>, w: World)
    requires Reachable(run, w)
    ensures Sound(w)
    decreases |run|
  {
    hide After, Allowed;
    if run == [] {
    } else {
      var last := |run| - 1;
      var v :| Reachable(run[..last], v) && Allowed(v, run[last]) && w == After(v, run[last]);
      RunSound(run[..last], v);
      StepSound(v, run[last]);
    }
  }

  // ----- where the published partitions come from

  /** `ps` is what the views `vs` of groups 1, 2, ... look like by address. */
  ghost predicate MadeFrom(w: World, ps: seq<Partition>, vs: seq<Status.GroupView>) {
    && |vs| == |ps|
    && forall k: nat :: k < |ps| ==> ViewSound(w.spec, k + 1, vs[k]) && PartitionFrom(w, k + 1, vs[k]) == Some(ps[k])
  }

  /** Group `g` has since forgotten nobody. */
  ghost predicate KnowsAll(w: World, g: nat, v: Status.GroupView) {
    GroupAt(w, g).Some? && Status.Known(v) <= Status.Known(GroupAt(w, g).value.view)
  }

  ghost predicate Behind(w: World, vs: seq<Status.GroupView>) {
    forall k: nat :: k < |vs| ==> KnowsAll(w, k + 1, vs[k])
  }

  /** What is published was made from the views `vs` of all groups, or nothing is yet. */
  ghost predicate PublishedBy(w: World, vs: seq<Status.GroupView>) {
    && (w.partitions == [] <==> vs == [])
    && (w.partitions != [] ==> |vs| == w.spec.NumGroups() && MadeFrom(w, w.partitions, vs) && Behind(w, vs))
  }

  /** Nothing that exists goes away, and no group forgets a member. */
  ghost predicate Grows(w: World, v: World) {
    && v.spec == w.spec && v.namespace == w.namespace && v.domain == w.domain
    && w.members.Keys <= v.members.Keys
    && forall g: nat :: GroupAt(w, g).Some? ==>
         GroupAt(v, g).Some? && Status.Known(GroupAt(w, g).value.view) <= Status.Known(GroupAt(v, g).value.view)
  }

  lemma PutMemberGrows(w: World, g: nat, m: nat, x: RaftMember)
    ensures Grows(w, PutMember(w, g, m, x))
  {
    PutMemberAt(w, g, m, x);
    hide GroupAt;
  }

  lemma PutGroupGrows(w: World, g: nat, x: RaftGroup)
    requires GroupAt(w, g).Some? ==> Status.Known(GroupAt(w, g).value.view) <= Status.Known(x.view)
    ensures Grows(w, PutGroup(w, g, x))
  {
    PutGroupAt(w, g, x);
    hide GroupAt;
  }

  lemma FieldsGrow(w: World, v: World)
    requires v.spec == w.spec && v.namespace == w.namespace && v.domain == w.domain
    requires v.members == w.members && v.groups == w.groups
    ensures Grows(w, v)
  {
    assert forall g: nat :: GroupAt(v, g) == GroupAt(w, g);
  }

  lemma PassGrows(w: World)
    ensures Grows(w, ClusterPass(w).world)
  {
    hide ClusterPass, PutMember, PutGroup, GroupAt, Grows;
    PassWritesOne(w);
    PassProgress(w);
    var p := ClusterPass(w);
    var v := p.world;
    if !p.result.Wrote? {
      FieldsGrow(w, v);
    } else {
      match p.result.change
      case CreatedGroup(g) =>
        PutGroupGrows(w, g, RaftGroup(Unset, Status.NO_STATUS));
      case WroteGroup(g) =>
        var state :| v == PutGroup(w, g, GroupAt(w, g).value.(state := state));
        PutGroupGrows(w, g, GroupAt(w, g).value.(state := state));
      case WroteMember(g, m) =>
        MemberPassReports(w, g, m);
        var x :| v == PutMember(w, g, m, x);
        PutMemberGrows(w, g, m, x);
      case WroteState => FieldsGrow(w, v);
      case WrotePartitions => FieldsGrow(w, v);
    }
  }

  lemma EventGrows(v: Status.GroupView, e: Status.GroupEvent)
    requires Status.WellFormed(v)
    ensures Status.Known(v) <= Status.Known(Status.OnGroupEvent(v, e))
  {
    match e
    case Ready(name) => Status.OnReadyKeeps(v, name);
    case Led(term, leader) => Status.OnLedKeeps(v, term, leader);
  }

  lemma StepGrows(w: World, a: Step)
    requires Sound(w) && Allowed(w, a)
    ensures Grows(w, After(w, a))
  {
    hide ClusterPass, PutMember, PutGroup, GroupAt, MemberAt, Grows, Status.OnGroupEvent, MembersSound, IsMemberOf;
    match a
    case ReconcilePass => PassGrows(w);
    case PodsChanged(pods) => FieldsGrow(w, w.(pods := pods));
    case MemberReported(g, m) =>
      if MemberAt(w, g, m).Some? {
        PutMemberGrows(w, g, m, MemberAt(w, g, m).value.(state := ResourceState.Ready));
      } else {
        FieldsGrow(w, w);
      }
    case GroupReported(g, e) =>
      if GroupAt(w, g).Some? {
        SoundGroup(w, g);
        EventGrows(GroupAt(w, g).value.view, e);
        PutGroupGrows(w, g, GroupAt(w, g).value.(view := Status.OnGroupEvent(GroupAt(w, g).value.view, e)));
      } else {
        FieldsGrow(w, w);
      }
  }

  /** An address once known stays what it is. */
  lemma AddressStays(w: World, v: World, g: nat, x: string)
    requires Sound(w) && Sound(v) && Grows(w, v) && IsMemberOf(w.spec, g, x) && MemberAddress(w, x).Some?
    ensures MemberAddress(v, x) == MemberAddress(w, x)
  {
    hide Address, Member, Sound;
    var m: nat :| w.spec.HasMember(g, m) && x == Member(w.spec, g, m);
    AddressOfMember(w, g, m);
    AddressOfMember(v, g, m);
  }

  lemma {:induction false} FollowersStay(w: World, v: World, g: nat, names: seq<string>)
    requires Sound(w) && Sound(v) && Grows(w, v) && FollowerAddresses(w, names).Some?
    requires forall x :: x in names ==> IsMemberOf(w.spec, g, x)
    ensures FollowerAddresses(v, names) == FollowerAddresses(w, names)
    decreases |names|
  {
    hide MemberAddress, Sound, Grows, IsMemberOf;
    if names != [] {
      FollowersStay(w, v, g, names[..|names| - 1]);
      assert names[|names| - 1] in names;
      AddressStays(w, v, g, names[|names| - 1]);
    }
  }

  lemma PartitionStays(w: World, v: World, g: nat, view: Status.GroupView)
    requires Sound(w) && Sound(v) && Grows(w, v) && ViewSound(w.spec, g, view) && PartitionFrom(w, g, view).Some?
    ensures PartitionFrom(v, g, view) == PartitionFrom(w, g, view)
  {
    hide MemberAddress, Sound, Grows, IsMemberOf;
    FollowersStay(w, v, g, view.followers);
    if view.leader.Some? {
      AddressStays(w, v, g, view.leader.value);
    }
  }

  lemma MadeStays(w: World, v: World, ps: seq<Partition>, vs: seq<Status.GroupView>)
    requires Sound(w) && Sound(v) && Grows(w, v) && MadeFrom(w, ps, vs)
    ensures MadeFrom(v, ps, vs)
  {
    hide Sound, PartitionFrom, ViewSound;
    forall k: nat | k < |ps|
      ensures ViewSound(v.spec, k + 1, vs[k]) && PartitionFrom(v, k + 1, vs[k]) == Some(ps[k])
    {
      PartitionStays(w, v, k + 1, vs[k]);
    }
  }

  /** The views of all groups as they are now. */
  function ViewsNow(w: World, n: nat): (r: seq<Status.GroupView>)
    ensures |r| == n
  {
    seq(n, (k: nat) => if GroupAt(w, k + 1).Some? then GroupAt(w, k + 1).value.view else Status.NO_STATUS)
  }

  lemma MadeNow(w: World, n: nat)
    requires Sound(w) && PartitionsUpTo(w, n).Some?
    ensures MadeFrom(w, PartitionsUpTo(w, n).value, ViewsNow(w, n)) && Behind(w, ViewsNow(w, n))
    ensures forall k: nat :: k < n ==> PartitionOf(w, k + 1) == Some(PartitionsUpTo(w, n).value[k])
  {
    hide PartitionsUpTo, PartitionFrom, ViewSound, Sound;
    PartitionsInOrder(w, n);
    var ps := PartitionsUpTo(w, n).value;
    forall k: nat | k < n
      ensures KnowsAll(w, k + 1, ViewsNow(w, n)[k]) && ViewSound(w.spec, k + 1, ViewsNow(w, n)[k])
      ensures PartitionFrom(w, k + 1, ViewsNow(w, n)[k]) == Some(ps[k])
    {
      assert PartitionOf(w, k + 1) == Some(ps[k]);
      SoundGroup(w, k + 1);
    }
  }

  /** One list of views is followed by another that knows at least as many members. */
  ghost predicate Followed(us: seq<Status.GroupView>, vs: seq<Status.GroupView>) {
    |us| == |vs| && forall k :: 0 <= k < |us| ==> Status.Known(us[k]) <= Status.Known(vs[k])
  }

  /** After every step, what is published comes from the same views or from later ones. */
  lemma PublishedStep(w: World, a: Step, us: seq<Status.GroupView>) returns (vs: seq<Status.GroupView>)
    requires Sound(w) && Allowed(w, a) && PublishedBy(w, us)
    ensures Sound(After(w, a)) && Grows(w, After(w, a)) && PublishedBy(After(w, a), vs)
    ensures us != [] ==> Followed(us, vs)
    ensures || (vs == us && After(w, a).partitions == w.partitions)
            || (PartitionsUpTo(w, w.spec.NumGroups()) == Some(After(w, a).partitions) && vs == ViewsNow(w, w.spec.NumGroups()))
  {
    hide Sound, MadeFrom, Grows, GroupAt, PartitionsUpTo, ClusterPass, Allowed, ViewsNow;
    StepSound(w, a);
    StepGrows(w, a);
    var v := After(w, a);
    if a.ReconcilePass? && ClusterPass(w).result == Wrote(WrotePartitions) {
      PassWritesOne(w);
      var n := w.spec.NumGroups();
      MadeNow(w, n);
      PartitionsInOrder(w, n);
      vs := ViewsNow(w, n);
      MadeStays(w, v, v.partitions, vs);
      if us != [] {
        BehindNow(w, us, n);
      }
    } else {
      PartitionsKept(w, a);
      vs := us;
      if us != [] {
        MadeStays(w, v, w.partitions, us);
      }
    }
    if vs != [] {
      BehindStays(w, v, vs);
    }
  }

  lemma BehindNow(w: World, us: seq<Status.GroupView>, n: nat)
    requires Behind(w, us) && |us| == n
    ensures Followed(us, ViewsNow(w, n))
  {
    hide GroupAt;
  }

  lemma BehindStays(w: World, v: World, vs: seq<Status.GroupView>)
    requires Grows(w, v) && Behind(w, vs)
    ensures Behind(v, vs)
  {
    hide GroupAt;
    forall k: nat | k < |vs|
      ensures KnowsAll(v, k + 1, vs[k])
    {
      assert KnowsAll(w, k + 1, vs[k]);
    }
  }

  lemma PartitionsKept(w: World, a: Step)
    ensures After(w, a).spec == w.spec
    ensures !(a.ReconcilePass? && ClusterPass(w).result == Wrote(WrotePartitions)) ==> After(w, a).partitions == w.partitions
  {
    hide ClusterPass, GroupAt, MemberAt, Status.OnGroupEvent;
    if a.ReconcilePass? {
      PassWritesOne(w);
      PassProgress(w);
    }
  }

  /** On its way to `w` the run came through a world whose groups had the views `vs`, and
      whose partitions by address were `ps`. */
  ghost predicate OnceCurrent(run: seq<Step>, w: World, ps: seq<Partition>, vs: seq<Status.GroupView>) {
    exists n: nat, u :: CameThrough(run, w, n, u)
                        && PartitionsUpTo(u, u.spec.NumGroups()) == Some(ps) && vs == ViewsNow(u, u.spec.NumGroups())
  }

  ghost predicate CameThrough(run: seq<Step>, w: World, n: nat, u: World) {
    n <= |run| && Reachable(run[..n], u) && w == AfterAll(u, run[n..])
  }

  lemma CameFarther(run: seq<Step>, v: World, a: Step, n: nat, u: World)
    requires CameThrough(run, v, n, u)
    ensures CameThrough(run + [a], After(v, a), n, u)
  {
    hide After, Reachable;
    assert (run + [a])[..n] == run[..n] && (run + [a])[n..] == run[n..] + [a];
    AfterOneMore(u, run[n..], a);
  }

  lemma StillOnceCurrent(run: seq<Step>, v: World, a: Step, ps: seq<Partition>, vs: seq<Status.GroupView>)
    requires OnceCurrent(run, v, ps, vs)
    ensures OnceCurrent(run + [a], After(v, a), ps, vs)
  {
    hide After, CameThrough, PartitionsUpTo, ViewsNow;
    var n: nat, u :| CameThrough(run, v, n, u)
                     && PartitionsUpTo(u, u.spec.NumGroups()) == Some(ps) && vs == ViewsNow(u, u.spec.NumGroups());
    CameFarther(run, v, a, n, u);
  }

  lemma CurrentNow(run: seq<Step>, v: World, a: Step)
    requires Reachable(run, v) && PartitionsUpTo(v, v.spec.NumGroups()).Some?
    ensures OnceCurrent(run + [a], After(v, a), PartitionsUpTo(v, v.spec.NumGroups()).value, ViewsNow(v, v.spec.NumGroups()))
  {
    hide After, PartitionsUpTo, ViewsNow;
    assert run[..|run|] == run;
    assert CameThrough(run, v, |run|, v);
    CameFarther(run, v, a, |run|, v);
  }

  lemma {:induction false} RunPublished(run: seq<Step>, w: World) returns (vs: seq<Status.GroupView>)
    requires Reachable(run, w)
    ensures Sound(w) && PublishedBy(w, vs)
    ensures w.partitions != [] ==> OnceCurrent(run, w, w.partitions, vs)
    decreases |run|
  {
    hide After, Allowed, Sound, MadeFrom, Behind, OnceCurrent, PartitionsUpTo, ViewsNow;
    if run == [] {
      vs := [];
      RunSound(run, w);
    } else {
      var init, a := run[..|run| - 1], run[|run| - 1];
      var v :| Reachable(init, v) && Allowed(v, a) && w == After(v, a);
      var us := RunPublished(init, v);
      vs := PublishedStep(v, a, us);
      assert run == init + [a];
      if PartitionsUpTo(v, v.spec.NumGroups()) == Some(w.partitions) && vs == ViewsNow(v, v.spec.NumGroups()) {
        CurrentNow(init, v, a);
      } else if w.partitions != [] {
        StillOnceCurrent(init, v, a, v.partitions, us);
      }
    }
  }

  // ----- the test is exact

  /** The address a name has in `w`. */
  function AddressIn(w: World, name: string): string {
    if MemberAddress(w, name).Some? then MemberAddress(w, name).value else ""
  }

  lemma PartitionAddressed(w: World, g: nat, v: Status.GroupView)
    requires PartitionFrom(w, g, v).Some?
    ensures PartitionFrom(w, g, v) == Some(Addressed(x => AddressIn(w, x), g, v))
  {
    hide MemberAddress;
    FollowersAddressed(w, v.followers);
    assert FollowerAddresses(w, v.followers).value == Mapped(x => AddressIn(w, x), v.followers);
  }

  /** The test is exact on two lists, the one made from views that the views of the
      other follow. */
  lemma ExactOnMade(w: World, ps: seq<Partition>, us: seq<Status.GroupView>, qs: seq<Partition>, vs: seq<Status.GroupView>)
    requires MadeFrom(w, ps, us) && MadeFrom(w, qs, vs) && Followed(us, vs)
    ensures InOrder(ps) && InOrder(qs)
    ensures AllEquivalent(ps, qs) <==> forall k :: 0 <= k < |ps| ==> Agree(ps[k], qs[k])
  {
    hide PartitionFrom, AddressIn, Addressed, Equivalent, Agree;
    forall k: nat | k < |ps|
      ensures ps[k].partitionID == k + 1 == qs[k].partitionID
      ensures Equivalent(ps[k], qs[k]) <==> Agree(ps[k], qs[k])
    {
      MadeOne(w, ps, us, k);
      MadeOne(w, qs, vs, k);
      ExactOnGrowth(x => AddressIn(w, x), k + 1, us[k], vs[k]);
    }
  }

  lemma MadeOne(w: World, ps: seq<Partition>, vs: seq<Status.GroupView>, k: nat)
    requires MadeFrom(w, ps, vs) && k < |ps|
    ensures Status.WellFormed(vs[k]) && ps[k].partitionID == k + 1
    ensures ps[k] == Addressed(x => AddressIn(w, x), k + 1, vs[k])
  {
    hide PartitionFrom, AddressIn;
    PartitionAddressed(w, k + 1, vs[k]);
  }

  /** In every reachable world of every specification, the published list passes the test
      against the current one if and only if they agree: no change of a leader or of
      followers goes unpublished, and nothing is published for nothing. */
  lemma StatusTestExact(run: seq<Step>, w: World)
    requires Reachable(run, w) && PartitionsUpTo(w, w.spec.NumGroups()).Some?
    ensures var ps := PartitionsUpTo(w, w.spec.NumGroups()).value;
            AllEquivalent(w.partitions, ps) <==>
            |w.partitions| == |ps| && forall k :: 0 <= k < |ps| ==> Agree(w.partitions[k], ps[k])
  {
    hide Reachable, Sound;
    var us := RunPublished(run, w);
    ExactInWorld(w, us);
  }

  lemma ExactInWorld(w: World, us: seq<Status.GroupView>)
    requires Sound(w) && PublishedBy(w, us) && PartitionsUpTo(w, w.spec.NumGroups()).Some?
    ensures var ps := PartitionsUpTo(w, w.spec.NumGroups()).value;
            && |ps| == w.spec.NumGroups()
            && (AllEquivalent(w.partitions, ps) <==>
                |w.partitions| == |ps| && forall k :: 0 <= k < |ps| ==> Agree(w.partitions[k], ps[k]))
  {
    hide Sound, MadeFrom, PartitionsUpTo, Agree, Equivalent, ViewsNow;
    var n := w.spec.NumGroups();
    PartitionsInOrder(w, n);
    MadeNow(w, n);
    if us != [] {
      BehindNow(w, us, n);
      ExactOnMade(w, w.partitions, us, PartitionsUpTo(w, n).value, ViewsNow(w, n));
    }
  }

  // ----- at rest

  lemma {:induction false} MembersQuiet(w: World, g: nat, k: nat, m: nat)
    requires MembersRank(w, g, k) == 0 && 1 <= m <= k
    ensures MemberRank(w, g, m) == 0
  {
    hide MemberRank;
    if m < k {
      MembersQuiet(w, g, k - 1, m);
    }
  }

  lemma {:induction false} GroupsQuiet(w: World, k: nat, g: nat)
    requires GroupsRank(w, k) == 0 && 1 <= g <= k
    ensures GroupDone(w, g)
  {
    hide GroupRank, GroupDone;
    DoneRank(w, k);
    if g < k {
      GroupsQuiet(w, k - 1, g);
    }
  }

  lemma {:induction false} GroupStateSpec(w: World, g: nat, k: nat)
    ensures GroupState(w, g, k) in {NotReady, ResourceState.Ready}
    ensures GroupState(w, g, k) == ResourceState.Ready <==>
            forall m: nat :: 1 <= m <= k && MemberAt(w, g, m).Some? ==> MemberAt(w, g, m).value.state != NotReady
  {
    hide MemberAt;
    if k > 0 {
      GroupStateSpec(w, g, k - 1);
    }
  }

  lemma {:induction false} ClusterStateSpec(w: World, k: nat)
    ensures ClusterState(w, k) in {NotReady, ResourceState.Ready}
    ensures ClusterState(w, k) == ResourceState.Ready <==>
            forall g: nat :: 1 <= g <= k && GroupAt(w, g).Some? ==> GroupAt(w, g).value.state != NotReady
  {
    hide GroupAt;
    if k > 0 {
      ClusterStateSpec(w, k - 1);
    }
  }

  /** The member exists, refers to the pod now running under its pod's name, and has
      recorded a version no older than that pod's container. */
  predicate MemberSettled(w: World, g: nat, m: nat)
    requires w.spec.HasMember(g, m)
  {
    && MemberAt(w, g, m).Some?
    && var x := MemberAt(w, g, m).value;
    && x.pod == w.spec.PodName(g, m) && x.pod in w.pods
    && x.podUID == Some(w.pods[x.pod].uid)
    && x.version.Some? && x.version.value >= ContainerVersion(w.pods[x.pod].containers)
    && (x.state == NotReady || x.state == ResourceState.Ready)
  }

  predicate MemberReady(w: World, g: nat, m: nat) {
    MemberAt(w, g, m).Some? && MemberAt(w, g, m).value.state == ResourceState.Ready
  }

  /** What is published of group `g` is its leader and its followers, in some order. */
  predicate Published(w: World, g: nat) {
    && 1 <= g <= |w.partitions| && PartitionOf(w, g).Some?
    && Agree(w.partitions[g - 1], PartitionOf(w, g).value)
  }

  ghost predicate AtRest(w: World) {
    && (forall g: nat, m: nat :: w.spec.HasMember(g, m) ==> MemberSettled(w, g, m))
    && (forall g: nat :: 1 <= g <= w.spec.NumGroups() ==>
          && GroupAt(w, g).Some?
          && GroupAt(w, g).value.state in {NotReady, ResourceState.Ready}
          && (GroupAt(w, g).value.state == ResourceState.Ready <==> forall m: nat :: w.spec.HasMember(g, m) ==> MemberReady(w, g, m)))
    && w.state in {NotReady, ResourceState.Ready}
    && (w.state == ResourceState.Ready <==> forall g: nat, m: nat :: w.spec.HasMember(g, m) ==> MemberReady(w, g, m))
    && |w.partitions| == w.spec.NumGroups()
    && (forall g: nat :: 1 <= g <= w.spec.NumGroups() ==> Published(w, g))
  }

  lemma SettledMember(w: World, g: nat, m: nat)
    requires Sound(w) && StateDone(w) && w.spec.HasMember(g, m)
    ensures MemberSettled(w, g, m)
  {
    hide ClusterState, GroupsRank, GroupState, MembersRank, Sound, MemberAt;
    GroupsQuiet(w, w.spec.NumGroups(), g);
    MembersQuiet(w, g, Count(w.spec), m);
    SoundMember(w, g, m);
  }

  lemma SettledGroup(w: World, g: nat)
    requires Sound(w) && StateDone(w) && 1 <= g <= w.spec.NumGroups()
    ensures GroupAt(w, g).Some? && GroupAt(w, g).value.state in {NotReady, ResourceState.Ready}
    ensures GroupAt(w, g).value.state == ResourceState.Ready <==> forall m: nat :: w.spec.HasMember(g, m) ==> MemberReady(w, g, m)
  {
    hide ClusterState, GroupsRank, GroupState, MembersRank, Sound, MemberAt, GroupAt, StateDone;
    GroupsDone(w, g);
    GroupStateSpec(w, g, Count(w.spec));
    forall m: nat | w.spec.HasMember(g, m)
      ensures MemberAt(w, g, m).Some? && (MemberReady(w, g, m) <==> MemberAt(w, g, m).value.state != NotReady)
    {
      SettledMember(w, g, m);
    }
    if forall m: nat :: w.spec.HasMember(g, m) ==> MemberReady(w, g, m) {
      forall m: nat | 1 <= m <= Count(w.spec) && MemberAt(w, g, m).Some?
        ensures MemberAt(w, g, m).value.state != NotReady
      {
        assert w.spec.HasMember(g, m);
      }
    }
  }

  lemma GroupsDone(w: World, g: nat)
    requires StateDone(w) && 1 <= g <= w.spec.NumGroups()
    ensures GroupDone(w, g)
  {
    GroupsQuiet(w, w.spec.NumGroups(), g);
  }

  lemma SettledState(w: World)
    requires Sound(w) && StateDone(w)
    ensures w.state in {NotReady, ResourceState.Ready}
    ensures w.state == ResourceState.Ready <==> forall g: nat, m: nat :: w.spec.HasMember(g, m) ==> MemberReady(w, g, m)
  {
    hide GroupsRank, GroupAt, MemberAt, Sound, MemberReady, ClusterState;
    var n := w.spec.NumGroups();
    ClusterStateSpec(w, n);
    forall g: nat | 1 <= g <= n
      ensures GroupAt(w, g).Some? && (GroupAt(w, g).value.state != NotReady <==> forall m: nat :: w.spec.HasMember(g, m) ==> MemberReady(w, g, m))
    {
      SettledGroup(w, g);
    }
    if w.state == ResourceState.Ready {
      forall g: nat, m: nat | w.spec.HasMember(g, m)
        ensures MemberReady(w, g, m)
      {
        assert GroupAt(w, g).value.state != NotReady;
      }
    }
  }

  lemma SettledPartitions(w: World, vs: seq<Status.GroupView>)
    requires Sound(w) && AllDone(w) && PublishedBy(w, vs)
    ensures |w.partitions| == w.spec.NumGroups() && forall g: nat :: 1 <= g <= w.spec.NumGroups() ==> Published(w, g)
  {
    hide PartitionsUpTo, PartitionOf, StateDone, MembersSound, GroupsSound, PublishedBy, AllEquivalent, Agree;
    var n := w.spec.NumGroups();
    var ps := PartitionsUpTo(w, n).value;
    ExactInWorld(w, vs);
    MadeNow(w, n);
    forall g: nat | 1 <= g <= n
      ensures Published(w, g)
    {
      assert PartitionOf(w, g - 1 + 1) == Some(ps[g - 1]);
    }
  }

  /** In every reachable world in which a pass finds nothing to do, everything the
      specification asks for exists, is current, and is reported truthfully. */
  lemma QuietMeansAtRest(run: seq<Step>, w: World)
    requires Reachable(run, w) && ClusterPass(w).result.Quiet?
    ensures AtRest(w)
  {
    hide ClusterPass, Reachable, Remaining, MemberSettled, MemberReady, Published, GroupAt, StateDone, Sound;
    RunSound(run, w);
    var vs := RunPublished(run, w);
    PassProgress(w);
    forall g: nat, m: nat | w.spec.HasMember(g, m)
      ensures MemberSettled(w, g, m)
    {
      SettledMember(w, g, m);
    }
    forall g: nat | 1 <= g <= w.spec.NumGroups()
      ensures GroupAt(w, g).Some? && GroupAt(w, g).value.state in {NotReady, ResourceState.Ready}
      ensures GroupAt(w, g).value.state == ResourceState.Ready <==> forall m: nat :: w.spec.HasMember(g, m) ==> MemberReady(w, g, m)
    {
      SettledGroup(w, g);
    }
    SettledState(w);
    SettledPartitions(w, vs);
  }

  // ----- and rest is reached

  /** Every pod the cluster needs exists, and its node answers. */
  ghost predicate PodsUp(w: World) {
    forall g: nat, m: nat {:trigger w.spec.HasMember(g, m)} :: w.spec.HasMember(g, m) ==>
      w.spec.PodName(g, m) in w.pods && w.pods[w.spec.PodName(g, m)].reachable
  }

  lemma {:induction false} MembersPassUp(w: World, g: nat, m: nat)
    requires Sound(w) && PodsUp(w) && 1 <= g <= w.spec.NumGroups() && m >= 1 && GroupAt(w, g).Some?
    ensures !MembersPass(w, g, m).result.Failed?
    decreases w.spec.NumMembers() + 1 - m
  {
    hide Sound, GroupAt, MemberAt, PutMember, PutGroup, GroupState, Remaining;
    if m <= w.spec.NumMembers() {
      assert w.spec.HasMember(g, m);
      if MemberAt(w, g, m).Some? {
        SoundMember(w, g, m);
      }
      MemberProgress(w, g, m);
      if MemberPass(w, g, m).result.Quiet? {
        MembersPassUp(w, g, m + 1);
      }
    }
  }

  lemma {:induction false} GroupsPassUp(w: World, g: nat)
    requires Sound(w) && PodsUp(w) && 1 <= g <= w.spec.NumGroups() + 1
    ensures !GroupsPass(w, g).result.Failed?
    decreases w.spec.NumGroups() + 1 - g
  {
    hide Sound, PodsUp, GroupAt, MembersPass, ClusterState, Remaining;
    if g <= w.spec.NumGroups() {
      if GroupAt(w, g).Some? {
        MembersPassUp(w, g, 1);
      }
      GroupProgress(w, g);
      if GroupPass(w, g).result.Quiet? {
        GroupsPassUp(w, g + 1);
      }
    }
  }

  lemma {:induction false} FollowersFound(w: World, g: nat, names: seq<string>)
    requires Sound(w) && StateDone(w) && forall x :: x in names ==> IsMemberOf(w.spec, g, x)
    ensures FollowerAddresses(w, names).Some?
    decreases |names|
  {
    hide Sound, StateDone, Address, Member, MemberAddress;
    if names != [] {
      var init, last := names[..|names| - 1], names[|names| - 1];
      FollowersFound(w, g, init);
      assert last in names;
      NameFound(w, g, last);
    }
  }

  lemma NameFound(w: World, g: nat, x: string)
    requires Sound(w) && StateDone(w) && IsMemberOf(w.spec, g, x)
    ensures MemberAddress(w, x).Some?
  {
    hide Sound, StateDone, Address, Member, MemberAt;
    var m: nat :| w.spec.HasMember(g, m) && x == Member(w.spec, g, m);
    SettledMember(w, g, m);
    AddressOfMember(w, g, m);
  }

  lemma {:induction false} PartitionsFound(w: World, k: nat)
    requires Sound(w) && StateDone(w) && k <= w.spec.NumGroups()
    ensures PartitionsUpTo(w, k).Some?
  {
    hide Sound, StateDone, GroupAt, FollowerAddresses, MemberAddress, IsMemberOf;
    if k > 0 {
      PartitionsFound(w, k - 1);
      SettledGroup(w, k);
      SoundGroup(w, k);
      var view := GroupAt(w, k).value.view;
      forall x | x in view.followers
        ensures IsMemberOf(w.spec, k, x)
      {
        assert x in Status.Known(view);
      }
      FollowersFound(w, k, view.followers);
      if view.leader.Some? {
        assert view.leader.value in Status.Known(view);
        NameFound(w, k, view.leader.value);
      }
    }
  }

  /** With all pods up, no pass fails. */
  lemma NeverFails(w: World)
    requires Sound(w) && PodsUp(w)
    ensures !ClusterPass(w).result.Failed?
  {
    hide Sound, PodsUp, GroupsPass, Remaining, PartitionsUpTo, AllEquivalent, StateDone;
    GroupsPassUp(w, 1);
    GroupsProgress(w, 1);
    if GroupsPass(w, 1).result.Quiet? {
      PartitionsFound(w, w.spec.NumGroups());
    }
  }

  /** Passes leave the specification and the pods alone. */
  lemma PassKeepsInputs(w: World)
    ensures ClusterPass(w).world.spec == w.spec && ClusterPass(w).world.pods == w.pods
  {
    hide GroupsPass, PartitionsUpTo, AllEquivalent;
    GroupsPassKeepsInputs(w, 1);
  }

  lemma {:induction false} GroupsPassKeepsInputs(w: World, g: nat)
    requires 1 <= g <= w.spec.NumGroups() + 1
    ensures GroupsPass(w, g).world.spec == w.spec && GroupsPass(w, g).world.pods == w.pods
    decreases w.spec.NumGroups() + 1 - g
  {
    hide GroupAt, MembersPass, ClusterState, Remaining;
    if g <= w.spec.NumGroups() {
      GroupProgress(w, g);
      if GroupAt(w, g).Some? {
        MembersPassKeepsInputs(w, g, 1);
      }
      if GroupPass(w, g).result.Quiet? {
        GroupsPassKeepsInputs(w, g + 1);
      }
    }
  }

  lemma {:induction false} MembersPassKeepsInputs(w: World, g: nat, m: nat)
    requires 1 <= g <= w.spec.NumGroups() && m >= 1 && GroupAt(w, g).Some?
    ensures MembersPass(w, g, m).world.spec == w.spec && MembersPass(w, g, m).world.pods == w.pods
    decreases w.spec.NumMembers() + 1 - m
  {
    hide GroupAt, MemberAt, GroupState, Remaining;
    if m <= w.spec.NumMembers() {
      MemberProgress(w, g, m);
      if MemberPass(w, g, m).result.Quiet? {
        MembersPassKeepsInputs(w, g, m + 1);
      }
    }
  }

  lemma {:induction false} PassesReachable(run: seq<Step>, w: World, n: nat) returns (longer: seq<Step>)
    requires Reachable(run, w) && PodsUp(w)
    ensures Reachable(longer, Passes(w, n)) && PodsUp(Passes(w, n))
  {
    hide ClusterPass;
    if n == 0 {
      longer := run;
    } else {
      var before := PassesReachable(run, w, n - 1);
      var v := Passes(w, n - 1);
      longer := before + [ReconcilePass];
      assert longer[..|longer| - 1] == before && longer[|longer| - 1] == ReconcilePass;
      assert Reachable(longer[..|longer| - 1], v) && Allowed(v, ReconcilePass) && Passes(w, n) == After(v, ReconcilePass);
      PassKeepsInputs(v);
    }
  }

  /** From any reachable world, with all pods up and everything else held fixed, the
      reconciler brings the cluster to rest, with no more writes than the bound. */
  lemma ReconcilerConverges(run: seq<Step>, w: World) returns (n: nat)
    requires Reachable(run, w) && PodsUp(w)
    ensures n <= WriteBound(w.spec)
    ensures AtRest(Passes(w, n)) && ClusterPass(Passes(w, n)).result.Quiet?
  {
    hide ClusterPass, Reachable, PodsUp, Remaining, WriteBound, AtRest, Sound;
    n := RestWithin(w);
    RemainingBound(w);
    var longer := PassesReachable(run, w, n);
    RunSound(longer, Passes(w, n));
    NeverFails(Passes(w, n));
    QuietMeansAtRest(longer, Passes(w, n));
  }

  // ----- what a report of readiness is worth

  /** A report does to a member what its status updater does to a status of that state. */
  lemma ReportIsUpdater(w: World, g: nat, m: nat, v: MemberView)
    requires MemberAt(w, g, m).Some? && v.state == MemberAt(w, g, m).value.state
    ensures MemberAt(After(w, MemberReported(g, m)), g, m) ==
            Some(MemberAt(w, g, m).value.(state := OnMemberReady(v).state))
  {
    PutMemberAt(w, g, m, MemberAt(w, g, m).value.(state := ResourceState.Ready));
  }

  /** The member is on its present pod and has recorded the version running there. */
  predicate MemberCurrent(w: World, g: nat, m: nat) {
    MemberAt(w, g, m).Some? && MemberRank(w, g, m) == 0
  }

  lemma PassKeepsReady(w: World, g: nat, m: nat)
    requires w.spec.HasMember(g, m) && MemberReady(w, g, m) && MemberCurrent(w, g, m)
    ensures var v := ClusterPass(w).world; MemberReady(v, g, m) && MemberCurrent(v, g, m)
  {
    hide ClusterPass, Stale;
    PassTouches(w, g, m);
    PassKeepsInputs(w);
  }

  /** No pass makes a member ready: it leaves it behind, or current and not ready. */
  lemma PassKeepsUnready(w: World, g: nat, m: nat)
    requires w.spec.HasMember(g, m) && MemberAt(w, g, m).Some? && !(MemberReady(w, g, m) && MemberCurrent(w, g, m))
    ensures var v := ClusterPass(w).world; MemberAt(v, g, m).Some? && !(MemberReady(v, g, m) && MemberCurrent(v, g, m))
  {
    hide ClusterPass, Stale;
    PassTouches(w, g, m);
    PassKeepsInputs(w);
    if ClusterPass(w).result == Wrote(WroteMember(g, m)) {
      MemberPassUnready(w, g, m);
    }
  }

  /** What a pass does to a member is what the member's own pass does, or nothing. */
  lemma PassTouches(w: World, g: nat, m: nat)
    requires w.spec.HasMember(g, m)
    ensures if ClusterPass(w).result == Wrote(WroteMember(g, m))
            then MemberPass(w, g, m).result.Wrote? && ClusterPass(w).world == MemberPass(w, g, m).world
            else MemberAt(ClusterPass(w).world, g, m) == MemberAt(w, g, m)
  {
    hide ClusterPass, MemberPass, PutMember, PutGroup, MemberAt, GroupAt;
    PassWritesOne(w);
    PassProgress(w);
    var p := ClusterPass(w);
    if p.result.Wrote? {
      match p.result.change
      case CreatedGroup(h) =>
        PutGroupAt(w, h, RaftGroup(Unset, Status.NO_STATUS));
      case WroteGroup(h) =>
        var state :| p.world == PutGroup(w, h, GroupAt(w, h).value.(state := state));
        PutGroupAt(w, h, GroupAt(w, h).value.(state := state));
      case WroteMember(h, n) =>
        MemberPassReports(w, h, n);
        var x :| p.world == PutMember(w, h, n, x);
        PutMemberAt(w, h, n, x);
      case WroteState => SameMember(w, p.world, g, m);
      case WrotePartitions => SameMember(w, p.world, g, m);
    }
  }

  lemma SameMember(w: World, v: World, g: nat, m: nat)
    requires v.spec == w.spec && v.members == w.members
    ensures MemberAt(v, g, m) == MemberAt(w, g, m)
  {}

  lemma MemberPassUnready(w: World, g: nat, m: nat)
    requires w.spec.HasMember(g, m) && MemberAt(w, g, m).Some? && MemberPass(w, g, m).result.Wrote?
    ensures var v := MemberPass(w, g, m).world; MemberAt(v, g, m).Some? && !(MemberReady(v, g, m) && MemberCurrent(v, g, m))
  {
    var x := MemberAt(w, g, m).value;
    PutMemberAt(w, g, m, ReconciledMember(w, x).value);
    hide Member, ContainerVersion;
  }

  lemma {:induction false} PassesKeepReport(w: World, g: nat, m: nat, n: nat)
    requires w.spec.HasMember(g, m) && MemberReady(w, g, m)
    ensures var v := Passes(w, n);
            && v.spec == w.spec && MemberAt(v, g, m).Some?
            && (MemberCurrent(w, g, m) <==> MemberReady(v, g, m) && MemberCurrent(v, g, m))
  {
    hide ClusterPass, MemberCurrent;
    if n > 0 {
      PassesKeepReport(w, g, m, n - 1);
      var v := Passes(w, n - 1);
      PassKeepsInputs(v);
      if MemberCurrent(w, g, m) {
        PassKeepsReady(v, g, m);
      } else {
        PassKeepsUnready(v, g, m);
      }
    }
  }

  /** A report that a member is ready still shows once the reconciler has come to rest, if
      and only if the member's present version was recorded before the report came.  One
      that comes earlier, such as between the bootstrap of a node and the write that
      records its version, is overwritten: the member stays not ready until its node
      reports again. */
  lemma ReportCountsExactly(run: seq<Step>, w: World, g: nat, m: nat) returns (n: nat)
    requires Reachable(run, w) && PodsUp(w) && w.spec.HasMember(g, m) && MemberAt(w, g, m).Some?
    ensures n <= WriteBound(w.spec)
    ensures var v := Passes(After(w, MemberReported(g, m)), n);
            && AtRest(v) && ClusterPass(v).result.Quiet?
            && (MemberReady(v, g, m) <==> MemberCurrent(w, g, m))
  {
    hide ClusterPass, Reachable, WriteBound, AtRest, After, PodsUp, MemberCurrent, MemberReady;
    var a := MemberReported(g, m);
    var w1 := After(w, a);
    Reported(w, g, m);
    var longer := run + [a];
    OneStepFarther(run, w, a);
    n := ReconcilerConverges(longer, w1);
    PassesKeepReport(w1, g, m, n);
    RestIsCurrent(Passes(w1, n), g, m);
  }

  lemma OneStepFarther(run: seq<Step>, w: World, a: Step)
    requires Reachable(run, w) && Allowed(w, a)
    ensures Reachable(run + [a], After(w, a))
  {
    hide After;
    assert (run + [a])[..|run + [a]| - 1] == run;
  }

  lemma Reported(w: World, g: nat, m: nat)
    requires MemberAt(w, g, m).Some?
    ensures var v := After(w, MemberReported(g, m));
            && v.spec == w.spec && (PodsUp(w) ==> PodsUp(v)) && Allowed(w, MemberReported(g, m))
            && MemberReady(v, g, m) && (MemberCurrent(v, g, m) <==> MemberCurrent(w, g, m))
  {
    PutMemberAt(w, g, m, MemberAt(w, g, m).value.(state := ResourceState.Ready));
    hide MemberAt, PutMember;
    assert After(w, MemberReported(g, m)) == PutMember(w, g, m, MemberAt(w, g, m).value.(state := ResourceState.Ready));
  }

  lemma RestIsCurrent(w: World, g: nat, m: nat)
    requires AtRest(w) && w.spec.HasMember(g, m)
    ensures MemberCurrent(w, g, m)
  {
    hide MemberAt, GroupAt, Published, MemberReady, ContainerVersion;
    assert MemberSettled(w, g, m);
  }
}
