/**
  The cluster's published list of partitions, and the test that decides whether it
  has to be published again.  The test compares follower lists by length and
  one-way containment; this file says when that amounts to equality.
 */
module PartitionStatus {
  import opened Options
  import Status
  import opened Naming
  import opened Placement
  import opened Bits

  datatype Partition = Partition(partitionID: int, leader: Option<string>, followers: seq<string>)

  // ----- the test

  /** What the test on two partitions decides. */
  predicate Equivalent(p: Partition, q: Partition) {
    p.partitionID == q.partitionID && p.leader == q.leader && Covers(p.followers, q.followers)
  }

  /** Equally long, and everything in `s` is in `t`. */
  predicate Covers(s: seq<string>, t: seq<string>) {
    |s| == |t| && forall k :: 0 <= k < |s| ==> s[k] in t
  }

  /** What the test on two lists decides. */
  predicate AllEquivalent(ps: seq<Partition>, qs: seq<Partition>) {
    && |ps| == |qs|
    && forall j, k :: 0 <= j < |ps| && 0 <= k < |qs| && ps[j].partitionID == qs[k].partitionID ==> Equivalent(ps[j], qs[k])
  }

  method IsPartitionStatusEqual(p: Partition, q: Partition) returns (equal: bool)
    ensures equal == Equivalent(p, q)
  {
    if p.partitionID != q.partitionID {
      return false;
    }
    if p.leader.None? && q.leader.Some? {
      return false;
    }
    if p.leader.Some? && q.leader.None? {
      return false;
    }
    if p.leader.Some? && q.leader.Some? && p.leader.value != q.leader.value {
      return false;
    }
    if |p.followers| != |q.followers| {
      return false;
    }
    for k := 0 to |p.followers|
      invariant forall j :: 0 <= j < k ==> p.followers[j] in q.followers
    {
      if p.followers[k] !in q.followers {
        return false;
      }
    }
    return true;
  }

  method IsPartitionStatusesEqual(ps: seq<Partition>, qs: seq<Partition>) returns (equal: bool)
    ensures equal == AllEquivalent(ps, qs)
  {
    if |ps| != |qs| {
      return false;
    }
    for j := 0 to |ps|
      invariant forall i, k :: 0 <= i < j && 0 <= k < |qs| && ps[i].partitionID == qs[k].partitionID ==> Equivalent(ps[i], qs[k])
    {
      for k := 0 to |qs|
        invariant forall l :: 0 <= l < k && ps[j].partitionID == qs[l].partitionID ==> Equivalent(ps[j], qs[l])
      {
        if ps[j].partitionID == qs[k].partitionID {
          var equal := IsPartitionStatusEqual(ps[j], qs[k]);
          if !equal {
            return false;
          }
        }
      }
    }
    return true;
  }

  // ----- when the test is exact

  /** `s` without its element at `j`. */
  function Removed(s: seq<string>, j: nat): (r: seq<string>)
    requires j < |s|
    ensures |r| == |s| - 1
  {
    s[..j] + s[j + 1..]
  }

  /** Taking an element out of both, or putting it back, does not matter. */
  lemma RemovedPermutes(s: seq<string>, j: nat, t: seq<string>, k: nat)
    requires j < |s| && k < |t| && s[j] == t[k]
    ensures multiset(Removed(s, j)) == multiset(Removed(t, k)) <==> multiset(s) == multiset(t)
  {
    RemovedOne(s, j);
    RemovedOne(t, k);
    hide Removed;
    var a, b, x := multiset(Removed(s, j)), multiset(Removed(t, k)), multiset{s[j]};
    assert (a + x) - x == a && (b + x) - x == b;
  }

  lemma RemovedOne(s: seq<string>, j: nat)
    requires j < |s|
    ensures multiset(s) == multiset(Removed(s, j)) + multiset{s[j]}
  {
    assert s == s[..j] + [s[j]] + s[j + 1..];
  }

  /** Pigeonhole: a list without repetitions that fits into an equally long list fills it. */
  lemma {:induction false} CoversPermutes(s: seq<string>, t: seq<string>)
    requires Covers(s, t) && Status.Distinct(s)
    ensures multiset(s) == multiset(t)
    decreases |s|
  {
    if s == [] {
      assert t == [];
    } else {
      var j :| 0 <= j < |t| && t[j] == s[0];
      CoversStep(s, t, j);
      hide Covers, Status.Distinct, Removed;
      CoversPermutes(Removed(s, 0), Removed(t, j));
      RemovedPermutes(s, 0, t, j);
    }
  }

  /** Taking the first one out of one list, and its equal out of the other. */
  lemma CoversStep(s: seq<string>, t: seq<string>, j: nat)
    requires Covers(s, t) && Status.Distinct(s) && s != [] && j < |t| && t[j] == s[0]
    ensures Covers(Removed(s, 0), Removed(t, j)) && Status.Distinct(Removed(s, 0))
  {
    var s', t' := Removed(s, 0), Removed(t, j);
    assert s' == s[1..];
    forall k | 0 <= k < |s'|
      ensures s'[k] in t'
    {
      assert s'[k] == s[k + 1] && s[k + 1] in t;
      var i :| 0 <= i < |t| && t[i] == s[k + 1];
      assert i != j;
      assert t'[if i < j then i else i - 1] == t[i];
    }
  }

  lemma PermutationCovers(s: seq<string>, t: seq<string>)
    requires multiset(s) == multiset(t)
    ensures Covers(s, t)
  {
    assert |s| == |multiset(s)| == |multiset(t)| == |t|;
    forall k | 0 <= k < |s|
      ensures s[k] in t
    {
      assert s[k] in multiset(s);
    }
  }

  /** Two partitions agree: the same leader and the same followers in some order. */
  predicate Agree(p: Partition, q: Partition) {
    p.leader == q.leader && multiset(p.followers) == multiset(q.followers)
  }

  /** A list as the reconciler produces it: partitions 1, 2, ... in order. */
  predicate InOrder(ps: seq<Partition>) {
    forall k :: 0 <= k < |ps| ==> ps[k].partitionID == k + 1
  }

  /** On lists of the same groups, with no address twice in any list of followers, the
      test holds exactly when all partitions agree. */
  lemma AllEquivalentExact(ps: seq<Partition>, qs: seq<Partition>)
    requires InOrder(ps) && InOrder(qs)
    requires forall k :: 0 <= k < |ps| ==> Status.Distinct(ps[k].followers)
    ensures AllEquivalent(ps, qs) <==> |ps| == |qs| && forall k :: 0 <= k < |ps| ==> Agree(ps[k], qs[k])
  {
    if AllEquivalent(ps, qs) {
      forall k | 0 <= k < |ps|
        ensures Agree(ps[k], qs[k])
      {
        assert Equivalent(ps[k], qs[k]);
        CoversPermutes(ps[k].followers, qs[k].followers);
      }
    }
    if |ps| == |qs| && forall k :: 0 <= k < |ps| ==> Agree(ps[k], qs[k]) {
      forall k | 0 <= k < |ps|
        ensures Equivalent(ps[k], qs[k])
      {
        PermutationCovers(ps[k].followers, qs[k].followers);
      }
    }
  }

  // ----- the test along a run

  function Mapped(addr: string -> string, names: seq<string>): (r: seq<string>)
    ensures |r| == |names|
  {
    seq(|names|, k requires 0 <= k < |names| => addr(names[k]))
  }

  /** A group's view as it is published: every member by its address. */
  function Addressed(addr: string -> string, group: int, v: Status.GroupView): Partition {
    Partition(group, if v.leader.Some? then Some(addr(v.leader.value)) else None, Mapped(addr, v.followers))
  }

  lemma MappedRemoved(addr: string -> string, s: seq<string>, j: nat)
    requires j < |s|
    ensures Mapped(addr, s)[j] == addr(s[j]) && Mapped(addr, Removed(s, j)) == Removed(Mapped(addr, s), j)
  {}

  lemma {:induction false} MappedPermutes(addr: string -> string, s: seq<string>, t: seq<string>)
    requires multiset(s) == multiset(t)
    ensures multiset(Mapped(addr, s)) == multiset(Mapped(addr, t))
    decreases |s|
  {
    hide Mapped, Removed;
    PermutationCovers(s, t);
    if s == [] {
      assert t == s;
    } else {
      var j :| 0 <= j < |t| && t[j] == s[0];
      RemovedPermutes(s, 0, t, j);
      MappedPermutes(addr, Removed(s, 0), Removed(t, j));
      MappedRemoved(addr, s, 0);
      MappedRemoved(addr, t, j);
      RemovedPermutes(Mapped(addr, s), 0, Mapped(addr, t), j);
    }
  }

  /** Everybody the view knows, followers first. */
  function Everybody(v: Status.GroupView): seq<string> {
    v.followers + if v.leader.Some? then [v.leader.value] else []
  }

  /** Equally many members, all of them among those of a later view, are all of them. */
  lemma SameMembers(v: Status.GroupView, w: Status.GroupView)
    requires Status.WellFormed(v) && Status.Known(v) <= Status.Known(w)
    requires v.leader.Some? == w.leader.Some? && |v.followers| == |w.followers|
    ensures multiset(Everybody(v)) == multiset(Everybody(w))
  {
    var s, t := Everybody(v), Everybody(w);
    forall k | 0 <= k < |s|
      ensures s[k] in t
    {
      assert s[k] in Status.Known(v);
      assert s[k] in Status.Known(w);
      if s[k] in w.followers {
        var j :| 0 <= j < |w.followers| && w.followers[j] == s[k];
        assert t[j] == s[k];
      } else {
        assert t[|w.followers|] == s[k];
      }
    }
    CoversPermutes(s, t);
  }

  /** The test is exact on a view and a later one of the same group, which knows all
      that the first one knew: whatever the addresses, shared or not. */
  lemma ExactOnGrowth(addr: string -> string, group: int, v: Status.GroupView, w: Status.GroupView)
    requires Status.WellFormed(v) && Status.Known(v) <= Status.Known(w)
    ensures Equivalent(Addressed(addr, group, v), Addressed(addr, group, w)) <==>
            Agree(Addressed(addr, group, v), Addressed(addr, group, w))
  {
    var p, q := Addressed(addr, group, v), Addressed(addr, group, w);
    if Agree(p, q) {
      PermutationCovers(p.followers, q.followers);
    }
    if Equivalent(p, q) {
      SameMembers(v, w);
      hide Equivalent, Everybody, Mapped;
      MappedPermutes(addr, Everybody(v), Everybody(w));
      MappedEverybody(addr, v);
      MappedEverybody(addr, w);
      CancelTail(p.followers, q.followers, if p.leader.Some? then [p.leader.value] else []);
    }
  }

  lemma MappedEverybody(addr: string -> string, v: Status.GroupView)
    ensures Mapped(addr, Everybody(v)) ==
            Mapped(addr, v.followers) + if v.leader.Some? then [addr(v.leader.value)] else []
  {}

  lemma CancelTail(s: seq<string>, t: seq<string>, l: seq<string>)
    requires multiset(s + l) == multiset(t + l)
    ensures multiset(s) == multiset(t)
  {
    assert multiset(s) == multiset(s + l) - multiset(l);
    assert multiset(t) == multiset(t + l) - multiset(l);
  }

  /** Along every run of events, and for every assignment of addresses. */
  lemma ExactAlongRuns(addr: string -> string, group: int, v: Status.GroupView, es: seq<Status.GroupEvent>)
    requires Status.WellFormed(v)
    ensures var p, q := Addressed(addr, group, v), Addressed(addr, group, Status.GroupFold(v, es));
            Equivalent(p, q) <==> Agree(p, q)
  {
    Status.RunKeeps(v, es);
    ExactOnGrowth(addr, group, v, Status.GroupFold(v, es));
  }

  // ----- addresses of followers

  const API_PORT := 5678

  /** `%s.%s-hs.%s.svc.%s:5678`: the DNS name of a pod, with the port of its API. */
  function Address(namespace: string, cluster: string, domain: string, pod: string): string {
    pod + AddressSuffix(namespace, cluster, domain)
  }

  function AddressSuffix(namespace: string, cluster: string, domain: string): string {
    "." + cluster + "-hs" + "." + namespace + ".svc." + domain + ":" + Decimal(API_PORT)
  }

  lemma AddressInjective(namespace: string, cluster: string, domain: string, pod: string, pod': string)
    requires Address(namespace, cluster, domain, pod) == Address(namespace, cluster, domain, pod')
    ensures pod == pod'
  {
    hide AddressSuffix;
    var a, a' := Address(namespace, cluster, domain, pod), Address(namespace, cluster, domain, pod');
    assert |pod| == |pod'|;
    assert a[..|pod|] == pod && a'[..|pod'|] == pod';
  }

  datatype Endpoint = Endpoint(pod: string, cluster: string, namespace: string, domain: string, port: nat)

  /** Takes an address apart: the pod, the headless service of the cluster, the
      namespace, `svc`, the domain, and after a colon the port. */
  function ParseAddress(a: string): Option<Endpoint> {
    match SplitFirst(a, '.')
    case None => None
    case Some((pod, rest)) =>
      match SplitFirst(rest, '.')
      case None => None
      case Some((service, rest)) =>
        match SplitFirst(rest, '.')
        case None => None
        case Some((namespace, rest)) =>
          match SplitFirst(rest, '.')
          case None => None
          case Some((svc, rest)) =>
            match SplitFirst(rest, ':')
            case None => None
            case Some((domain, port)) =>
              if |service| < 3 || service[|service| - 3..] != "-hs" || svc != "svc" || ParseDecimal(port).None? then None
              else Some(Endpoint(pod, service[..|service| - 3], namespace, domain, ParseDecimal(port).value))
  }

  /** An address gives back its parts, when its labels have no dots and its domain no colon. */
  lemma AddressParses(namespace: string, cluster: string, domain: string, pod: string)
    requires '.' !in pod && '.' !in cluster && '.' !in namespace && ':' !in domain
    ensures ParseAddress(Address(namespace, cluster, domain, pod)) == Some(Endpoint(pod, cluster, namespace, domain, 5678))
  {
    var port := Decimal(API_PORT);
    var service := cluster + "-hs";
    var r4 := domain + [':'] + port;
    var r3 := "svc" + ['.'] + r4;
    var r2 := namespace + ['.'] + r3;
    var r1 := service + ['.'] + r2;
    hide Decimal, SplitFirst;
    assert Address(namespace, cluster, domain, pod) == pod + ['.'] + r1;
    SplitFirstOf(pod, '.', r1);
    SplitFirstOf(service, '.', r2);
    SplitFirstOf(namespace, '.', r3);
    SplitFirstOf("svc", '.', r4);
    SplitFirstOf(domain, ':', port);
    DecimalParses(API_PORT);
    assert service[|service| - 3..] == "-hs" && service[..|service| - 3] == cluster;
  }

  /** The addresses of a list of members of one group. */
  function Addresses(s: Spec, group: nat, members: seq<nat>, namespace: string, domain: string): (r: seq<string>)
    requires forall k :: 0 <= k < |members| ==> s.HasMember(group, members[k])
    ensures |r| == |members|
  {
    seq(|members|, k requires 0 <= k < |members| => Address(namespace, s.name, domain, s.PodName(group, members[k])))
  }

  /** With at least as many replicas as members, distinct members have distinct addresses. */
  lemma AddressesDistinct(s: Spec, group: nat, members: seq<nat>, namespace: string, domain: string)
    requires forall k :: 0 <= k < |members| ==> s.HasMember(group, members[k])
    requires Status.Distinct(members) && s.NumMembers() <= s.NumReplicas()
    ensures Status.Distinct(Addresses(s, group, members, namespace, domain))
  {
    hide Address, Decimal;
    var r := Addresses(s, group, members, namespace, domain);
    forall j, k | 0 <= j < k < |r|
      ensures r[j] != r[k]
    {
      var m, n := members[j], members[k];
      if m < n {
        DistinctPods(s, group, m, n);
      } else {
        DistinctPods(s, group, n, m);
      }
      if r[j] == r[k] {
        AddressInjective(namespace, s.name, domain, s.PodName(group, m), s.PodName(group, n));
      }
    }
  }

  // ----- a side remark: the comparison of followers, taken alone
  //
  // That the test is exact is owed to what it is applied to.  On any two lists of
  // members of a group, not one the successor of the other, comparing followers could
  // mistake one for the other.  No such two lists meet in the reconciler, where
  // `ExactAlongRuns` applies.

  /** Whether comparing the followers of a group never confuses two different lists. */
  ghost predicate FollowersTestExact(s: Spec, group: nat, namespace: string, domain: string) {
    forall ms: seq<nat>, ns: seq<nat> | IsFollowers(s, group, ms) && IsFollowers(s, group, ns) ::
      Covers(Addresses(s, group, ms, namespace, domain), Addresses(s, group, ns, namespace, domain)) <==>
      multiset(Addresses(s, group, ms, namespace, domain)) == multiset(Addresses(s, group, ns, namespace, domain))
  }

  /** Distinct members of the group. */
  predicate IsFollowers(s: Spec, group: nat, ms: seq<nat>) {
    Status.Distinct(ms) && forall k :: 0 <= k < |ms| ==> s.HasMember(group, ms[k])
  }

  /** On arbitrary lists the comparison of followers is exact if and only if there are at
      least as many replicas as members, or just one replica. */
  lemma FollowersTestExactness(s: Spec, group: nat, namespace: string, domain: string)
    requires 1 <= group <= s.NumGroups()
    ensures FollowersTestExact(s, group, namespace, domain) <==> s.NumMembers() <= s.NumReplicas() || s.NumReplicas() == 1
  {
    hide Address, Decimal;
    if s.NumMembers() <= s.NumReplicas() || s.NumReplicas() == 1 {
      forall ms: seq<nat>, ns: seq<nat> | IsFollowers(s, group, ms) && IsFollowers(s, group, ns)
        ensures Covers(Addresses(s, group, ms, namespace, domain), Addresses(s, group, ns, namespace, domain)) <==>
                multiset(Addresses(s, group, ms, namespace, domain)) == multiset(Addresses(s, group, ns, namespace, domain))
      {
        FollowersTestHolds(s, group, ms, ns, namespace, domain);
      }
    } else {
      FollowersTestFails(s, group, namespace, domain);
    }
  }

  lemma FollowersTestHolds(s: Spec, group: nat, ms: seq<nat>, ns: seq<nat>, namespace: string, domain: string)
    requires IsFollowers(s, group, ms) && IsFollowers(s, group, ns)
    requires s.NumMembers() <= s.NumReplicas() || s.NumReplicas() == 1
    ensures Covers(Addresses(s, group, ms, namespace, domain), Addresses(s, group, ns, namespace, domain)) <==>
            multiset(Addresses(s, group, ms, namespace, domain)) == multiset(Addresses(s, group, ns, namespace, domain))
  {
    hide Address, Decimal;
    var a, b := Addresses(s, group, ms, namespace, domain), Addresses(s, group, ns, namespace, domain);
    if multiset(a) == multiset(b) {
      PermutationCovers(a, b);
    }
    if Covers(a, b) {
      if s.NumReplicas() == 1 {
        forall k | 0 <= k < |a|
          ensures a[k] == b[k]
        {
          assert s.PodOrdinal(group, ms[k]) == 0 == s.PodOrdinal(group, ns[k]);
        }
        assert a == b;
      } else {
        AddressesDistinct(s, group, ms, namespace, domain);
        CoversPermutes(a, b);
      }
    }
  }

  /** With more members than replicas, and more than one replica: members 1 and R+1 share
      a pod, members 1 and 2 do not, and the test takes the two lists for the same. */
  lemma FollowersTestFails(s: Spec, group: nat, namespace: string, domain: string)
    requires 1 <= group <= s.NumGroups() && 1 < s.NumReplicas() < s.NumMembers()
    ensures !FollowersTestExact(s, group, namespace, domain)
  {
    hide Addresses;
    var ms: seq<nat>, ns: seq<nat> := [1, s.NumReplicas() + 1], [1, 2];
    var x, y := SharedPod(s, group, namespace, domain);
    var a, b := Addresses(s, group, ms, namespace, domain), Addresses(s, group, ns, namespace, domain);
    assert IsFollowers(s, group, ms) && IsFollowers(s, group, ns);
    assert Covers(a, b);
    assert multiset(a)[x] == 2 && multiset(b)[x] == 1;
  }

  lemma SharedPod(s: Spec, group: nat, namespace: string, domain: string) returns (x: string, y: string)
    requires 1 <= group <= s.NumGroups() && 1 < s.NumReplicas() < s.NumMembers()
    ensures x != y
    ensures Addresses(s, group, [1, s.NumReplicas() + 1], namespace, domain) == [x, x]
    ensures Addresses(s, group, [1, 2], namespace, domain) == [x, y]
  {
    hide Address, Decimal;
    var r := s.NumReplicas();
    SamePod(s, group, 1, r + 1);
    ModUnique(r, r, 1, 0);
    SamePod(s, group, 1, 2);
    ModUnique(1, r, 0, 1);
    x, y := Address(namespace, s.name, domain, s.PodName(group, 1)), Address(namespace, s.name, domain, s.PodName(group, 2));
    if x == y {
      AddressInjective(namespace, s.name, domain, s.PodName(group, 1), s.PodName(group, 2));
      NumberedInjective(s.name, s.PodOrdinal(group, 1), s.name, s.PodOrdinal(group, 2));
    }
  }
}
