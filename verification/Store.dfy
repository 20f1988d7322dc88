/**
  The store reconciler: it creates the cluster of a store, publishes the cluster's
  partitions as the protocol configuration of a data store, and reports the
  cluster's state as the store's.  The JSON text of a configuration is taken for the
  configuration itself.
 */
module Store {
  import opened Options
  import opened Members
  import opened PartitionStatus

  /** A partition as clients are told of it; the empty string stands for no leader. */
  datatype PartitionConfig = PartitionConfig(partitionID: int, leader: string, followers: seq<string>)

  // ----- configurations

  function ConfigOfPartition(p: Partition): PartitionConfig {
    PartitionConfig(p.partitionID, if p.leader.Some? then p.leader.value else "", p.followers)
  }

  function ConfigOf(ps: seq<Partition>): (r: seq<PartitionConfig>)
    ensures |r| == |ps|
  {
    seq(|ps|, k requires 0 <= k < |ps| => ConfigOfPartition(ps[k]))
  }

  method GetProtocolConfig(ps: seq<Partition>) returns (config: seq<PartitionConfig>)
    ensures config == ConfigOf(ps)
    ensures LeadersNamed(ps) ==> PartitionsRead(config) == ps
  {
    ConfigReadsBack(ps);
    config := [];
    for k := 0 to |ps|
      invariant config == ConfigOf(ps)[..k]
    {
      var leader := "";
      if ps[k].leader.Some? {
        leader := ps[k].leader.value;
      }
      config := config + [PartitionConfig(ps[k].partitionID, leader, ps[k].followers)];
    }
  }

  /** What the test on two partitions decides; it does not look at their numbers. */
  predicate SameConfig(p: PartitionConfig, q: PartitionConfig) {
    p.leader == q.leader && Covers(p.followers, q.followers)
  }

  predicate SameConfigs(ps: seq<PartitionConfig>, qs: seq<PartitionConfig>) {
    && |ps| == |qs|
    && forall j, k :: 0 <= j < |ps| && 0 <= k < |qs| && ps[j].partitionID == qs[k].partitionID ==> SameConfig(ps[j], qs[k])
  }

  method IsPartitionConfigEqual(p: PartitionConfig, q: PartitionConfig) returns (equal: bool)
    ensures equal == SameConfig(p, q)
  {
    if p.leader == "" && q.leader != "" {
      return false;
    }
    if p.leader != "" && q.leader == "" {
      return false;
    }
    if p.leader != "" && q.leader != "" && p.leader != q.leader {
      return false;
    }
    if |p.followers| != |q.followers| {
      return false;
    }
    for k := 0 to |p.followers|
      invariant forall j :: 0 <= j < k ==> p.followers[j] in q.followers
    {
      if p.followers[k] !in q.followers {
        return false;
      }
    }
    return true;
  }

  method IsProtocolConfigEqual(ps: seq<PartitionConfig>, qs: seq<PartitionConfig>) returns (equal: bool)
    ensures equal == SameConfigs(ps, qs)
  {
    if |ps| != |qs| {
      return false;
    }
    for j := 0 to |ps|
      invariant forall i, k :: 0 <= i < j && 0 <= k < |qs| && ps[i].partitionID == qs[k].partitionID ==> SameConfig(ps[i], qs[k])
    {
      for k := 0 to |qs|
        invariant forall l :: 0 <= l < k && ps[j].partitionID == qs[l].partitionID ==> SameConfig(ps[j], qs[l])
      {
        if ps[j].partitionID == qs[k].partitionID {
          var equal := IsPartitionConfigEqual(ps[j], qs[k]);
          if !equal {
            return false;
          }
        }
      }
    }
    return true;
  }

  /** No leader's address is the empty string, which means that there is no leader. */
  predicate LeadersNamed(ps: seq<Partition>) {
    forall k :: 0 <= k < |ps| ==> ps[k].leader != Some("")
  }

  /** On configurations made from partitions, the store's test decides what the
      cluster's own test decides on the partitions. */
  lemma SameTest(ps: seq<Partition>, qs: seq<Partition>)
    requires LeadersNamed(ps) && LeadersNamed(qs)
    ensures SameConfigs(ConfigOf(ps), ConfigOf(qs)) <==> AllEquivalent(ps, qs)
  {
    var a, b := ConfigOf(ps), ConfigOf(qs);
    if |ps| == |qs| {
      forall j, k | 0 <= j < |ps| && 0 <= k < |qs| && ps[j].partitionID == qs[k].partitionID
        ensures SameConfig(a[j], b[k]) <==> Equivalent(ps[j], qs[k])
      {}
    }
  }

  /** What a client makes of a configuration. */
  function PartitionRead(c: PartitionConfig): Partition {
    Partition(c.partitionID, if c.leader == "" then None else Some(c.leader), c.followers)
  }

  function PartitionsRead(cs: seq<PartitionConfig>): seq<Partition> {
    if cs == [] then [] else PartitionsRead(cs[..|cs| - 1]) + [PartitionRead(cs[|cs| - 1])]
  }

  lemma {:induction false} ReadsEach(cs: seq<PartitionConfig>)
    ensures |PartitionsRead(cs)| == |cs|
    ensures forall k :: 0 <= k < |cs| ==> PartitionsRead(cs)[k] == PartitionRead(cs[k])
    decreases |cs|
  {
    if cs != [] {
      ReadsEach(cs[..|cs| - 1]);
    }
  }

  /** Clients read back the very partitions, number, leader and followers, if and only if
      no leader's address is the empty string. */
  lemma ConfigReadsBack(ps: seq<Partition>)
    ensures PartitionsRead(ConfigOf(ps)) == ps <==> LeadersNamed(ps)
  {
    var cs := ConfigOf(ps);
    ReadsEach(cs);
    forall k | 0 <= k < |ps|
      ensures PartitionsRead(cs)[k] == ps[k] <==> ps[k].leader != Some("")
    {
      assert cs[k] == ConfigOfPartition(ps[k]);
    }
  }

  // ----- one pass

  datatype ClusterStatus = ClusterStatus(state: ResourceState, partitions: seq<Partition>)

  /** What the store reconciler reads and writes: the cluster once it exists, the
      store's own state, and the configuration of the data store once that exists. */
  datatype StoreView = StoreView(cluster: Option<ClusterStatus>, state: ResourceState, config: Option<seq<PartitionConfig>>)

  datatype StoreChange = CreatedCluster | WroteState | CreatedDataStore | WroteConfig

  datatype StorePass = StorePass(view: StoreView, change: Option<StoreChange>)

  predicate Current(config: Option<seq<PartitionConfig>>, ps: seq<Partition>) {
    config.Some? && SameConfigs(config.value, ConfigOf(ps))
  }

  function PassOf(v: StoreView): StorePass {
    if v.cluster.None? then
      StorePass(v.(cluster := Some(ClusterStatus(Unset, []))), Some(CreatedCluster))
    else
      var cluster := v.cluster.value;
      if cluster.partitions == [] then StorePass(v, None)
      else if cluster.state == NotReady && v.state != NotReady then
        StorePass(v.(state := NotReady), Some(WroteState))
      else if v.config.None? then
        StorePass(v.(config := Some(ConfigOf(cluster.partitions))), Some(CreatedDataStore))
      else if !Current(v.config, cluster.partitions) then
        StorePass(v.(config := Some(ConfigOf(cluster.partitions))), Some(WroteConfig))
      else if cluster.state == ResourceState.Ready && v.state != ResourceState.Ready then
        StorePass(v.(state := ResourceState.Ready), Some(WroteState))
      else StorePass(v, None)
  }

  class StoreReconciler {
    var cluster: Option<ClusterStatus>
    var state: ResourceState
    var config: Option<seq<PartitionConfig>>

    ghost function View(): StoreView
      reads this
    {
      StoreView(cluster, state, config)
    }

    constructor ()
      ensures View() == StoreView(None, Unset, None)
    {
      cluster, state, config := None, Unset, None;
    }

    method Reconcile() returns (change: Option<StoreChange>)
      modifies this
      ensures var p := PassOf(old(View())); View() == p.view && change == p.change
    {
      hide SameConfigs, ConfigOf;
      if cluster.None? {
        cluster := Some(ClusterStatus(Unset, []));
        return Some(CreatedCluster);
      }
      if cluster.value.partitions == [] {
        return None;
      }
      if cluster.value.state == NotReady && state != NotReady {
        state := NotReady;
        return Some(WroteState);
      }
      if config.None? {
        var created := GetProtocolConfig(cluster.value.partitions);
        config := Some(created);
        return Some(CreatedDataStore);
      }
      var newConfig := GetProtocolConfig(cluster.value.partitions);
      var equal := IsProtocolConfigEqual(config.value, newConfig);
      if !equal {
        config := Some(newConfig);
        return Some(WroteConfig);
      }
      if cluster.value.state == ResourceState.Ready && state != ResourceState.Ready {
        state := ResourceState.Ready;
        return Some(WroteState);
      }
      return None;
    }
  }

  // ----- repeated passes

  lemma ConfigIsCurrent(ps: seq<Partition>)
    requires forall j, k :: 0 <= j < k < |ps| ==> ps[j].partitionID != ps[k].partitionID
    ensures Current(Some(ConfigOf(ps)), ps)
  {
    var c := ConfigOf(ps);
    forall j, k | 0 <= j < |c| && 0 <= k < |c| && c[j].partitionID == c[k].partitionID
      ensures SameConfig(c[j], c[k])
    {
      assert j == k;
    }
  }

  /** There is nothing left to do: the data store is up to date, and the store's state
      is the cluster's; or the cluster has published no partitions yet. */
  predicate StoreDone(v: StoreView) {
    && v.cluster.Some?
    && var c := v.cluster.value;
    && (c.partitions != [] ==>
          && Current(v.config, c.partitions)
          && (c.state == NotReady ==> v.state == NotReady)
          && (c.state == ResourceState.Ready ==> v.state == ResourceState.Ready))
  }

  /** The writes that are still to come. */
  function StoreRemaining(v: StoreView): (n: nat)
    ensures n <= 2
  {
    if v.cluster.None? then 1
    else if v.cluster.value.partitions == [] then 0
    else
      (if Current(v.config, v.cluster.value.partitions) then 0 else 1)
      + (if v.cluster.value.state != Unset && v.cluster.value.state != v.state then 1 else 0)
  }

  /** A pass finds nothing to do exactly when nothing is left to do; it then changes
      nothing, and otherwise there is one write less to come. */
  lemma StoreProgress(v: StoreView)
    requires InOrderIfAny(v)
    ensures PassOf(v).change.None? <==> StoreDone(v)
    ensures PassOf(v).change.None? ==> PassOf(v).view == v
    ensures PassOf(v).change.Some? ==> StoreRemaining(PassOf(v).view) == StoreRemaining(v) - 1
    ensures v.cluster.Some? ==> PassOf(v).view.cluster == v.cluster
    ensures InOrderIfAny(PassOf(v).view)
  {
    if v.cluster.Some? {
      ConfigIsCurrent(v.cluster.value.partitions);
    }
    hide SameConfigs, ConfigOf, InOrder;
  }

  predicate InOrderIfAny(v: StoreView) {
    v.cluster.Some? ==> InOrder(v.cluster.value.partitions)
  }

  function StorePasses(v: StoreView, n: nat): StoreView {
    if n == 0 then v else PassOf(StorePasses(v, n - 1)).view
  }

  /** While the cluster stays as it is, two passes are enough: from then on there is
      nothing left to do. */
  lemma {:induction false} StoreRests(v: StoreView, n: nat)
    requires InOrderIfAny(v)
    ensures InOrderIfAny(StorePasses(v, n)) && (v.cluster.Some? ==> StorePasses(v, n).cluster == v.cluster)
    ensures StoreRemaining(StorePasses(v, n)) <= (if n < 2 then 2 - n else 0) || StoreDone(StorePasses(v, n))
    ensures n >= 2 ==> StoreDone(StorePasses(v, n))
  {
    hide PassOf, StoreDone, StoreRemaining, InOrderIfAny;
    if n > 0 {
      StoreRests(v, n - 1);
      StoreProgress(StorePasses(v, n - 1));
      StoreProgress(StorePasses(v, n));
    }
  }

  /** A store is declared ready only when the cluster is, and when the data store
      already tells clients the partitions the cluster has published. */
  lemma ReadyComesLast(v: StoreView)
    requires v.state != ResourceState.Ready && PassOf(v).view.state == ResourceState.Ready
    ensures v.cluster.Some? && v.cluster.value.state == ResourceState.Ready && v.cluster.value.partitions != []
    ensures Current(v.config, v.cluster.value.partitions) && PassOf(v).view.config == v.config
  {}

  /** A pass writes one thing at most, and reports what it wrote. */
  lemma ChangeIsReported(v: StoreView)
    ensures var (w, change) := (PassOf(v).view, PassOf(v).change);
            && (change == Some(CreatedCluster) <==> v.cluster.None? && w.cluster == Some(ClusterStatus(Unset, [])))
            && (change == Some(CreatedDataStore) <==> v.config.None? && w.config.Some?)
            && (change == Some(WroteState) <==> w.state != v.state)
            && (change == Some(WroteConfig) ==> v.config.Some? && w.config.Some?)
            && (change != Some(CreatedCluster) ==> w.cluster == v.cluster)
            && (change !in {Some(CreatedDataStore), Some(WroteConfig)} ==> w.config == v.config)
            && (change.None? ==> w == v)
  {
    hide SameConfigs, ConfigOf;
  }

  /** A store whose cluster is not ready is marked so before clients are told anything new. */
  lemma NotReadyComesFirst(v: StoreView)
    requires v.cluster.Some? && v.cluster.value.state == NotReady
    ensures PassOf(v).view.config != v.config ==> v.state == NotReady
    ensures v.cluster.value.partitions != [] ==> PassOf(v).view.state == NotReady
  {
    hide SameConfigs, ConfigOf;
  }
}
