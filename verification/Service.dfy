/**
  The two reconcilers together, from a store's specification to the configuration
  that clients read: the store reconciler creates the cluster and publishes its
  partitions, the cluster reconciler brings the cluster about, and the event
  watchers and pods do what they will in between.
 */
module Service {
  import opened Options
  import Status
  import opened Members
  import opened PartitionStatus
  import opened Reconcile
  import opened Fixpoint
  import opened Converged
  import opened Store

  /** Until the cluster is created, `world` holds its specification and the pods only. */
  datatype Service = Service(world: World, created: bool, state: ResourceState, config: Option<seq<PartitionConfig>>)

  datatype Event = ClusterStep(step: Step) | StoreStep

  function ViewOf(s: Service): StoreView {
    StoreView(if s.created then Some(ClusterStatus(s.world.state, s.world.partitions)) else None, s.state, s.config)
  }

  function AfterStore(s: Service): Service {
    var v := PassOf(ViewOf(s)).view;
    s.(created := v.cluster.Some?, state := v.state, config := v.config)
  }

  ghost predicate Possible(s: Service, e: Event) {
    match e
    case ClusterStep(step) => Allowed(s.world, step) && (step.ReconcilePass? ==> s.created)
    case StoreStep => true
  }

  function AfterEvent(s: Service, e: Event): Service {
    match e
    case ClusterStep(step) => s.(world := After(s.world, step))
    case StoreStep => AfterStore(s)
  }

  ghost predicate Runs(run: seq<Event>, s: Service) {
    if run == [] then
      && s.world == Empty(s.world.spec, s.world.namespace, s.world.domain, s.world.pods)
      && s == Service(s.world, false, Unset, None)
    else
      var last := |run| - 1;
      exists r :: Runs(run[..last], r) && Possible(r, run[last]) && s == AfterEvent(r, run[last])
  }

  // ----- every run is a run of the cluster

  lemma {:induction false} ClusterRun(run: seq<Event>, s: Service) returns (steps: seq<Step>)
    requires Runs(run, s)
    ensures Reachable(steps, s.world)
    decreases |run|
  {
    hide After, Allowed, AfterStore;
    if run == [] {
      steps := [];
    } else {
      var last := |run| - 1;
      var r :| Runs(run[..last], r) && Possible(r, run[last]) && s == AfterEvent(r, run[last]);
      var before := ClusterRun(run[..last], r);
      match run[last]
      case ClusterStep(step) =>
        steps := before + [step];
        assert steps[..|steps| - 1] == before && steps[|steps| - 1] == step;
      case StoreStep =>
        assert AfterStore(r).world == r.world by { WorldUntouched(r); }
        steps := before;
    }
  }

  lemma WorldUntouched(s: Service)
    ensures AfterStore(s).world == s.world
  {}

  // ----- what every run keeps

  /** Where everything comes from: what is published was made from the views `vs`; what
      the data store holds is `was`, made from views `us` that `vs` follow. */
  ghost predicate History(s: Service, was: seq<Partition>, us: seq<Status.GroupView>, vs: seq<Status.GroupView>) {
    && PublishedBy(s.world, vs)
    && (s.config.Some? ==> vs != [] && s.config == Some(ConfigOf(was)) && MadeFrom(s.world, was, us) && Followed(us, vs))
    && (s.state == ResourceState.Ready ==> s.config.Some?)
  }

  lemma StoreStepKeeps(s: Service, was: seq<Partition>, us: seq<Status.GroupView>, vs: seq<Status.GroupView>)
    returns (was': seq<Partition>, us': seq<Status.GroupView>)
    requires History(s, was, us, vs)
    ensures History(AfterStore(s), was', us', vs)
    ensures (was' == was && us' == us && AfterStore(s).config == s.config) || (was' == s.world.partitions && us' == vs)
  {
    hide MadeFrom, Behind, ConfigOf, SameConfigs;
    was', us' := was, us;
    var t := AfterStore(s);
    if t.config != s.config {
      was', us' := s.world.partitions, vs;
    }
  }

  lemma ClusterStepKeeps(s: Service, a: Step, was: seq<Partition>, us: seq<Status.GroupView>, vs: seq<Status.GroupView>)
    returns (vs': seq<Status.GroupView>)
    requires Sound(s.world) && Allowed(s.world, a) && History(s, was, us, vs)
    ensures Sound(After(s.world, a)) && History(s.(world := After(s.world, a)), was, us, vs')
  {
    hide MadeFrom, PublishedBy, ConfigOf, After, Allowed, Sound;
    vs' := PublishedStep(s.world, a, vs);
    if s.config.Some? {
      MadeStays(s.world, After(s.world, a), was, us);
      assert |vs'| > 0;
    }
  }

  /** Where a service gets to by further events. */
  function AfterEvents(s: Service, events: seq<Event>): Service {
    if events == [] then s else AfterEvent(AfterEvents(s, events[..|events| - 1]), events[|events| - 1])
  }

  /** On its way to `s` the run came through a state in which the cluster had published
      `ps`. */
  ghost predicate OncePublished(run: seq<Event>, s: Service, ps: seq<Partition>) {
    exists n: nat, r :: n <= |run| && Runs(run[..n], r) && s == AfterEvents(r, run[n..]) && r.world.partitions == ps
  }

  lemma StillOncePublished(run: seq<Event>, r: Service, e: Event, ps: seq<Partition>)
    requires OncePublished(run, r, ps)
    ensures OncePublished(run + [e], AfterEvent(r, e), ps)
  {
    hide AfterEvent, Runs;
    var n: nat, q :| n <= |run| && Runs(run[..n], q) && r == AfterEvents(q, run[n..]) && q.world.partitions == ps;
    var more := run + [e];
    assert more[..n] == run[..n] && more[n..] == run[n..] + [e];
    assert (run[n..] + [e])[..|run[n..]|] == run[n..];
    assert AfterEvents(q, more[n..]) == AfterEvent(r, e);
  }

  lemma PublishedNow(run: seq<Event>, r: Service)
    requires Runs(run, r)
    ensures OncePublished(run, r, r.world.partitions)
  {
    hide Runs;
    assert run[..|run|] == run && AfterEvents(r, run[|run|..]) == r;
  }

  /** In every run: what the data store holds is a complete list that the cluster had
      published at some point of the run. */
  lemma {:induction false} RunHistory(run: seq<Event>, s: Service)
    returns (was: seq<Partition>, us: seq<Status.GroupView>, vs: seq<Status.GroupView>)
    requires Runs(run, s)
    ensures Sound(s.world) && History(s, was, us, vs)
    ensures s.config.Some? ==> OncePublished(run, s, was)
    decreases |run|
  {
    hide After, Allowed, AfterStore, Sound, MadeFrom, Behind, OncePublished;
    if run == [] {
      was, us, vs := [], [], [];
      var steps := ClusterRun(run, s);
      RunSound(steps, s.world);
    } else {
      var init, e := run[..|run| - 1], run[|run| - 1];
      var r :| Runs(init, r) && Possible(r, e) && s == AfterEvent(r, e);
      was, us, vs := RunHistory(init, r);
      assert run == init + [e];
      if r.config.Some? {
        StillOncePublished(init, r, e, was);
      }
      match e
      case ClusterStep(step) => vs := ClusterStepKeeps(r, step, was, us, vs);
      case StoreStep =>
        WorldUntouched(r);
        PublishedNow(init, r);
        StillOncePublished(init, r, e, r.world.partitions);
        was, us := StoreStepKeeps(r, was, us, vs);
    }
  }

  /** The partitions the cluster reconciler makes never have the empty string for a
      leader, so the store's test on them is the cluster's own (`Store.SameTest`). */
  lemma {:induction false} LeadersAlwaysNamed(w: World, k: nat)
    requires PartitionsUpTo(w, k).Some?
    ensures LeadersNamed(PartitionsUpTo(w, k).value)
  {
    hide FollowerAddresses, AddressSuffix;
    if k > 0 {
      LeadersAlwaysNamed(w, k - 1);
      assert forall pod :: |Address(w.namespace, w.spec.name, w.domain, pod)| == |pod| + |AddressSuffix(w.namespace, w.spec.name, w.domain)|;
      SuffixNotEmpty(w);
    }
  }

  lemma SuffixNotEmpty(w: World)
    ensures |AddressSuffix(w.namespace, w.spec.name, w.domain)| > 0
  {}

  lemma MadeLeadersNamed(w: World, ps: seq<Partition>, vs: seq<Status.GroupView>)
    requires MadeFrom(w, ps, vs)
    ensures LeadersNamed(ps)
  {
    hide FollowerAddresses, AddressSuffix, ViewSound;
    SuffixNotEmpty(w);
    forall k | 0 <= k < |ps|
      ensures ps[k].leader != Some("")
    {
      assert PartitionFrom(w, k + 1, vs[k]) == Some(ps[k]);
    }
  }

  // ----- the store's test is exact

  /** Two entries tell clients the same: the leader, and the followers in some order. */
  predicate TellsSame(p: PartitionConfig, q: PartitionConfig) {
    p.partitionID == q.partitionID && p.leader == q.leader && multiset(p.followers) == multiset(q.followers)
  }

  /** The data store tells clients what the cluster has published. */
  predicate UpToDate(s: Service) {
    && s.config.Some? && |s.config.value| == |s.world.partitions|
    && forall k :: 0 <= k < |s.world.partitions| ==> TellsSame(s.config.value[k], ConfigOfPartition(s.world.partitions[k]))
  }

  /** In every run: the store's test passes if and only if the data store tells clients
      what is published; and it decides what the cluster's own test would decide on the
      list the data store was made from. */
  lemma StoreTestExact(run: seq<Event>, s: Service) returns (was: seq<Partition>)
    requires Runs(run, s) && s.config.Some?
    ensures s.config == Some(ConfigOf(was)) && OncePublished(run, s, was) && s.world.partitions != []
    ensures Current(s.config, s.world.partitions) <==> AllEquivalent(was, s.world.partitions)
    ensures Current(s.config, s.world.partitions) <==> UpToDate(s)
  {
    hide Runs, Sound, MadeFrom, AllEquivalent, SameConfigs, OncePublished;
    var us, vs;
    was, us, vs := RunHistory(run, s);
    hide ConfigOf;
    var ps := s.world.partitions;
    MadeLeadersNamed(s.world, was, us);
    MadeLeadersNamed(s.world, ps, vs);
    SameTest(was, ps);
    ExactOnMade(s.world, was, us, ps, vs);
    assert |was| == |ps| by { MadeLength(s.world, was, us); MadeLength(s.world, ps, vs); }
    SameToClients(was, ps);
  }

  lemma MadeLength(w: World, ps: seq<Partition>, vs: seq<Status.GroupView>)
    requires MadeFrom(w, ps, vs)
    ensures |ps| == |vs|
  {}

  /** What agrees tells clients the same, and the other way round. */
  lemma SameToClients(ps: seq<Partition>, qs: seq<Partition>)
    requires |ps| == |qs| && InOrder(ps) && InOrder(qs) && LeadersNamed(ps) && LeadersNamed(qs)
    ensures (forall k :: 0 <= k < |ps| ==> Agree(ps[k], qs[k])) <==>
            (forall k :: 0 <= k < |ps| ==> TellsSame(ConfigOf(ps)[k], ConfigOfPartition(qs[k])))
  {
    forall k | 0 <= k < |ps|
      ensures Agree(ps[k], qs[k]) <==> TellsSame(ConfigOf(ps)[k], ConfigOfPartition(qs[k]))
    {
      assert ps[k].partitionID == k + 1 == qs[k].partitionID;
    }
  }

  /** In every run: a store is declared ready only when the cluster is, and when the data
      store already tells clients exactly what is published. */
  lemma ReadyWhenServed(run: seq<Event>, s: Service)
    requires Runs(run, s) && s.state != ResourceState.Ready && AfterStore(s).state == ResourceState.Ready
    ensures s.created && s.world.state == ResourceState.Ready && s.world.partitions != []
    ensures UpToDate(AfterStore(s))
  {
    ReadyComesLast(ViewOf(s));
    hide Runs, UpToDate, PassOf;
    var was := StoreTestExact(run, s);
    assert AfterStore(s).config == s.config && AfterStore(s).world == s.world;
    SameUpToDate(s, AfterStore(s));
  }

  lemma SameUpToDate(s: Service, t: Service)
    requires t.config == s.config && t.world == s.world
    ensures UpToDate(t) <==> UpToDate(s)
  {}

  // ----- what clients are told, at rest

  predicate NoMoreToDo(s: Service) {
    s.created && ClusterPass(s.world).result.Quiet? && PassOf(ViewOf(s)).change.None?
  }

  /** The address of a member's pod. */
  function PodAddress(w: World, member: string): string {
    if member in w.members then Address(w.namespace, w.spec.name, w.domain, w.members[member].pod) else ""
  }

  /** Entry `g` of the data store is group `g`'s: its number, the address of the leader
      its status names or nothing if it names none, and those of its followers. */
  predicate Served(s: Service, g: nat) {
    && s.config.Some? && 1 <= g <= |s.config.value| && GroupAt(s.world, g).Some?
    && var c := s.config.value[g - 1];
    && var v := GroupAt(s.world, g).value.view;
    && c.partitionID == g
    && (c.leader == "" <==> v.leader.None?)
    && (v.leader.Some? ==> v.leader.value in s.world.members && c.leader == PodAddress(s.world, v.leader.value))
    && (forall x :: x in v.followers ==> x in s.world.members)
    && multiset(c.followers) == multiset(seq(|v.followers|, k requires 0 <= k < |v.followers| => PodAddress(s.world, v.followers[k])))
  }

  /** When neither reconciler has anything to do: clients are told each group's leader
      and followers, and the store is ready exactly when all members are. */
  lemma RestServes(run: seq<Event>, s: Service)
    requires Runs(run, s) && NoMoreToDo(s)
    ensures AtRest(s.world)
    ensures s.config.Some? && |s.config.value| == s.world.spec.NumGroups()
    ensures forall g: nat :: 1 <= g <= s.world.spec.NumGroups() ==> Served(s, g)
    ensures s.state == s.world.state
    ensures s.state == ResourceState.Ready <==> forall g: nat, m: nat :: s.world.spec.HasMember(g, m) ==> MemberReady(s.world, g, m)
  {
    hide ClusterPass, Runs, PassOf, Sound, MemberSettled, MemberReady, Published, GroupAt, Current, Served, TellsSame;
    var steps := ClusterRun(run, s);
    QuietMeansAtRest(steps, s.world);
    var was, us, vs := RunHistory(run, s);
    PublishedInOrder(s, vs);
    RestIsDone(s, vs);
    was := StoreTestExact(run, s);
    forall g: nat | 1 <= g <= s.world.spec.NumGroups()
      ensures Served(s, g)
    {
      assert Published(s.world, g);
      EntryServed(s, g);
    }
  }

  lemma PublishedInOrder(s: Service, vs: seq<Status.GroupView>)
    requires PublishedBy(s.world, vs)
    ensures InOrderIfAny(ViewOf(s))
  {
    hide ViewSound, PartitionFrom;
    var w := s.world;
    forall k: nat | k < |w.partitions|
      ensures w.partitions[k].partitionID == k + 1
    {
      MadeOne(w, w.partitions, vs, k);
    }
  }

  lemma RestIsDone(s: Service, vs: seq<Status.GroupView>)
    requires PublishedBy(s.world, vs) && AtRest(s.world) && s.created && PassOf(ViewOf(s)).change.None?
    ensures s.state == s.world.state && s.config.Some? && Current(s.config, s.world.partitions)
  {
    PublishedInOrder(s, vs);
    hide PassOf, Published, MemberSettled, MemberReady, GroupAt, SameConfigs, PublishedBy;
    StoreProgress(ViewOf(s));
  }

  lemma EntryServed(s: Service, g: nat)
    requires UpToDate(s) && 1 <= g <= |s.world.partitions| && Published(s.world, g)
    requires InOrder(s.world.partitions)
    ensures Served(s, g)
  {
    hide FollowerAddresses, MemberAddress, GroupAt, PodAddress;
    assert TellsSame(s.config.value[g - 1], ConfigOfPartition(s.world.partitions[g - 1]));
    assert s.world.partitions[g - 1].partitionID == g;
    PartitionInFields(s.world, g);
  }

  /** What a group looks like by address, on the fields of its status. */
  lemma PartitionInFields(w: World, g: nat)
    requires PartitionOf(w, g).Some?
    ensures GroupAt(w, g).Some?
    ensures var p, v := PartitionOf(w, g).value, GroupAt(w, g).value.view;
            && p.partitionID == g
            && (p.leader.None? <==> v.leader.None?) && p.leader != Some("")
            && (v.leader.Some? ==> v.leader.value in w.members && p.leader == Some(PodAddress(w, v.leader.value)))
            && (forall x :: x in v.followers ==> x in w.members)
            && p.followers == seq(|v.followers|, k requires 0 <= k < |v.followers| => PodAddress(w, v.followers[k]))
  {
    hide AddressSuffix;
    SuffixNotEmpty(w);
    var v := GroupAt(w, g).value.view;
    FollowersAddressed(w, v.followers);
    hide FollowerAddresses;
    var p := PartitionOf(w, g).value;
    forall k | 0 <= k < |v.followers|
      ensures v.followers[k] in w.members && p.followers[k] == PodAddress(w, v.followers[k])
    {
      assert MemberAddress(w, v.followers[k]) == Some(p.followers[k]);
    }
  }

  // ----- and rest is reached

  /** One pass of the store reconciler, `n` of the cluster's, and two more of the store's. */
  function Settled(s: Service, n: nat): Service {
    var s1 := AfterStore(s);
    AfterStore(AfterStore(s1.(world := Passes(s1.world, n))))
  }

  lemma {:induction false} PassesRun(run: seq<Event>, s: Service, n: nat) returns (longer: seq<Event>)
    requires Runs(run, s) && s.created
    ensures Runs(longer, s.(world := Passes(s.world, n)))
  {
    hide ClusterPass, AfterStore;
    if n == 0 {
      longer := run;
    } else {
      var before := PassesRun(run, s, n - 1);
      var r := s.(world := Passes(s.world, n - 1));
      longer := ExtendRun(before, r, ClusterStep(ReconcilePass));
    }
  }

  lemma ExtendRun(run: seq<Event>, s: Service, e: Event) returns (longer: seq<Event>)
    requires Runs(run, s) && Possible(s, e)
    ensures Runs(longer, AfterEvent(s, e))
  {
    hide AfterEvent, Possible;
    longer := run + [e];
    assert longer[..|longer| - 1] == run && longer[|longer| - 1] == e;
  }

  /** From any point of any run, with all pods up and everything else held fixed, the
      reconcilers settle within the bound, and what is served then is right. */
  lemma ServiceConverges(run: seq<Event>, s: Service) returns (n: nat, longer: seq<Event>)
    requires Runs(run, s) && PodsUp(s.world)
    ensures n <= WriteBound(s.world.spec)
    ensures Runs(longer, Settled(s, n)) && NoMoreToDo(Settled(s, n))
  {
    hide ClusterPass, Runs, PassOf, Sound, PodsUp, WriteBound, AtRest;
    var s1 := AfterStore(s);
    var run1 := ExtendRun(run, s, StoreStep);
    CreatedAfter(s);
    var steps := ClusterRun(run1, s1);
    n := ReconcilerConverges(steps, s1.world);
    var run2 := PassesRun(run1, s1, n);
    var s2 := s1.(world := Passes(s1.world, n));
    var steps2 := ClusterRun(run2, s2);
    var vs := RunPublished(steps2, s2.world);
    PublishedInOrder(s2, vs);
    var run3 := ExtendRun(run2, s2, StoreStep);
    longer := ExtendRun(run3, AfterStore(s2), StoreStep);
    TwoStorePasses(s2);
  }

  lemma CreatedAfter(s: Service)
    ensures AfterStore(s).created && AfterStore(s).world == s.world
  {}

  lemma TwoStorePasses(s: Service)
    requires s.created && InOrderIfAny(ViewOf(s))
    ensures var t := AfterStore(AfterStore(s));
            t.created && t.world == s.world && PassOf(ViewOf(t)).change.None?
  {
    hide PassOf, InOrderIfAny;
    var v := ViewOf(s);
    StoreProgress(v);
    StoreProgress(PassOf(v).view);
    assert ViewOf(AfterStore(s)) == PassOf(v).view == StorePasses(v, 1);
    assert ViewOf(AfterStore(AfterStore(s))) == StorePasses(v, 2);
    StoreRests(v, 2);
    StoreProgress(StorePasses(v, 2));
  }

  // ----- before the cluster is created

  /** Before its creation a cluster has nothing but a specification and pods; so what the
      store reconciler is said to create is what is there. */
  lemma {:induction false} NothingBeforeCreation(run: seq<Event>, s: Service)
    requires Runs(run, s)
    ensures !s.created ==> s.world == Empty(s.world.spec, s.world.namespace, s.world.domain, s.world.pods)
    decreases |run|
  {
    hide ClusterPass, Status.OnGroupEvent, PassOf;
    if run != [] {
      var last := |run| - 1;
      var r :| Runs(run[..last], r) && Possible(r, run[last]) && s == AfterEvent(r, run[last]);
      NothingBeforeCreation(run[..last], r);
      CreatedStays(r, run[last]);
      if !r.created && run[last].ClusterStep? {
        NothingToReport(r.world, run[last].step);
      }
    }
  }

  lemma CreatedStays(s: Service, e: Event)
    ensures s.created ==> AfterEvent(s, e).created
    ensures e.ClusterStep? ==> AfterEvent(s, e).created == s.created
    ensures e.StoreStep? ==> AfterEvent(s, e).world == s.world
  {
    hide After, ConfigOf, SameConfigs;
  }

  lemma NothingToReport(w: World, a: Step)
    requires w == Empty(w.spec, w.namespace, w.domain, w.pods) && !a.ReconcilePass?
    ensures var v := After(w, a); v == Empty(v.spec, v.namespace, v.domain, v.pods)
  {
    hide ClusterPass, Status.OnGroupEvent;
  }

  lemma StoreStepIsPass(run: seq<Event>, s: Service)
    requires Runs(run, s)
    ensures ViewOf(AfterStore(s)) == PassOf(ViewOf(s)).view
  {
    hide Runs;
    NothingBeforeCreation(run, s);
    ChangeIsReported(ViewOf(s));
    hide PassOf;
  }
}
