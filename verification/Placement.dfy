/**
  Where the members of a cluster's groups run: `groups × members` laid round-robin
  over the replicas of a stateful set.
 */
module Placement {
  import opened Bits
  import opened Options
  import opened Naming

  /** The part of a cluster's specification that placement reads; the resource schema
      keeps the counts of replicas and groups from being negative, and zero means the
      default of one. */
  datatype Spec = Spec(name: string, replicas: nat, groups: nat, quorumSize: Option<int32>, readReplicas: Option<int32>) {
    function NumGroups(): (n: nat)
      ensures n > 0
    {
      if groups == 0 then 1 else groups
    }

    function NumReplicas(): (n: nat)
      ensures n > 0
    {
      if replicas == 0 then 1 else replicas
    }

    function NumVotingMembers(): int {
      if quorumSize.None? then NumReplicas() else quorumSize.value
    }

    function NumNonVotingMembers(): int {
      if readReplicas.None? then 0 else readReplicas.value
    }

    function NumMembers(): int { NumVotingMembers() + NumNonVotingMembers() }

    /** Whether `(group, member)` is one of the members the reconciler creates. */
    predicate HasMember(group: nat, member: nat) {
      1 <= group <= NumGroups() && 1 <= member <= NumMembers()
    }

    function PodOrdinal(group: nat, member: nat): (n: nat)
      requires HasMember(group, member)
      ensures n < NumReplicas()
    {
      (NumMembers() * group + (member - 1)) % NumReplicas()
    }

    function PodName(group: nat, member: nat): string
      requires HasMember(group, member)
    {
      Numbered(name, PodOrdinal(group, member))
    }
  }

  // ----- balance

  /** How many of the first `k` members of a group are on pod `p`. */
  function HostedOfGroup(s: Spec, group: nat, k: nat, p: nat): nat
    requires 1 <= group <= s.NumGroups() && k <= s.NumMembers()
  {
    if k == 0 then 0
    else HostedOfGroup(s, group, k - 1, p) + if s.PodOrdinal(group, k) == p then 1 else 0
  }

  /** How many members of the first `g` groups are on pod `p`. */
  function Hosted(s: Spec, g: nat, p: nat): nat
    requires g <= s.NumGroups() && s.NumMembers() >= 0
  {
    if g == 0 then 0 else Hosted(s, g - 1, p) + HostedOfGroup(s, g, s.NumMembers(), p)
  }

  /** How many of the numbers below `x` are `p` modulo `r`. */
  function Below(x: nat, r: nat, p: nat): nat
    requires p < r
  {
    (x + (r - 1 - p)) / r
  }

  lemma BelowStep(x: nat, r: nat, p: nat)
    requires p < r
    ensures Below(x + 1, r, p) == Below(x, r, p) + if x % r == p then 1 else 0
  {
    var q, m := x / r, x % r;
    assert x == q * r + m;
    var c := r - 1 - p;
    DivPlus(x + c, r, q, m + c);
    DivPlus(x + 1 + c, r, q, m + 1 + c);
  }

  lemma DivPlus(x: nat, n: nat, q: nat, m: nat)
    requires n > 0 && m < 2 * n && x == q * n + m
    ensures x / n == if m >= n then q + 1 else q
  {
    if m >= n {
      Distribute(q, 1, n);
      DivOf(x, n, q + 1, m - n);
    } else {
      DivOf(x, n, q, m);
    }
  }

  lemma DivOf(x: nat, n: nat, q: nat, m: int)
    requires n > 0 && 0 <= m < n && x == q * n + m
    ensures x / n == q
  {
    var d := x / n;
    assert x == d * n + x % n;
    if d < q {
      MulStep(d, q, n);
    } else if q < d {
      MulStep(q, d, n);
    }
  }

  /** The ordinals of a group are consecutive numbers modulo the replicas. */
  lemma {:induction false} HostedOfGroupCount(s: Spec, group: nat, k: nat, p: nat)
    requires 1 <= group <= s.NumGroups() && k <= s.NumMembers() && p < s.NumReplicas()
    ensures s.NumMembers() * group + k >= 0
    ensures HostedOfGroup(s, group, k, p) ==
            Below(s.NumMembers() * group + k, s.NumReplicas(), p) - Below(s.NumMembers() * group, s.NumReplicas(), p)
  {
    var start := s.NumMembers() * group;
    assert start >= 0;
    if k > 0 {
      HostedOfGroupCount(s, group, k - 1, p);
      assert s.PodOrdinal(group, k) == (start + k - 1) % s.NumReplicas();
      hide Below;
      BelowStep(start + k - 1, s.NumReplicas(), p);
    }
  }

  /** And so are the ordinals of all groups. */
  lemma {:induction false} HostedCount(s: Spec, g: nat, p: nat)
    requires g <= s.NumGroups() && s.NumMembers() >= 0 && p < s.NumReplicas()
    ensures s.NumMembers() * (g + 1) >= 0
    ensures Hosted(s, g, p) ==
            Below(s.NumMembers() * (g + 1), s.NumReplicas(), p) - Below(s.NumMembers(), s.NumReplicas(), p)
  {
    var m := s.NumMembers();
    assert m * (g + 1) == m * g + m >= 0;
    if g > 0 {
      HostedCount(s, g - 1, p);
      HostedOfGroupCount(s, g, m, p);
    } else {
      assert m * 1 == m;
    }
  }

  /** Division with remainder of a sum. */
  lemma DivModSum(x: nat, n: nat, r: nat) returns (carry: nat)
    requires r > 0
    ensures carry == (if x % r + n % r >= r then 1 else 0)
    ensures (x + n) / r == x / r + n / r + carry
    ensures (x + n) % r == if carry == 1 then x % r + n % r - r else x % r + n % r
  {
    carry := CarryOf(x, n, r, x / r, x % r, n / r, n % r);
  }

  lemma CarryOf(x: nat, n: nat, r: nat, q: nat, m: nat, e: nat, k: nat) returns (carry: nat)
    requires m < r && k < r && x == q * r + m && n == e * r + k
    ensures carry == (if m + k >= r then 1 else 0)
    ensures (x + n) / r == q + e + carry
    ensures (x + n) % r == if carry == 1 then m + k - r else m + k
  {
    SumOf(x, n, r, q, m, e, k);
    carry := if m + k >= r then 1 else 0;
    var rest := if m + k >= r then m + k - r else m + k;
    DivOf(x + n, r, q + e + carry, rest);
    ModUnique(x + n, r, q + e + carry, rest);
  }

  lemma SumOf(x: int, n: int, r: int, q: int, m: int, e: int, k: int)
    requires x == q * r + m && n == e * r + k
    ensures x + n == (q + e) * r + (m + k) && x + n == (q + e + 1) * r + (m + k - r)
  {
    Distribute(q, e, r);
    Distribute(q + e, 1, r);
  }

  /** Moving on by `d` keeps the residue exactly when `d` is a multiple. */
  lemma ResidueKept(x: nat, d: nat, r: nat)
    requires r > 0
    ensures (x + d) % r == x % r <==> d % r == 0
  {
    var carry := DivModSum(x, d, r);
  }

  lemma Ceiling(n: nat, r: nat)
    requires r > 0
    ensures (n + (r - 1)) / r == if n % r == 0 then n / r else n / r + 1
  {
    var carry := DivModSum(n, r - 1, r);
    DivOf(r - 1, r, 0, r - 1);
    ModUnique(r - 1, r, 0, r - 1);
  }

  /** A window of `n` numbers holds either the floor or the ceiling of `n / r` of a residue. */
  lemma WindowCount(a: nat, n: nat, r: nat, p: nat)
    requires p < r
    ensures n / r <= Below(a + n, r, p) - Below(a, r, p) <= (n + (r - 1)) / r
  {
    var x := a + (r - 1 - p);
    var carry := DivModSum(x, n, r);
    assert x + n == a + n + (r - 1 - p);
    Ceiling(n, r);
  }

  /** Every pod hosts the floor or the ceiling of `groups * members / replicas`, so no
      two pods differ by more than one. */
  lemma PlacementBalanced(s: Spec, p: nat, q: nat)
    requires s.NumMembers() >= 0 && p < s.NumReplicas() && q < s.NumReplicas()
    ensures var total := s.NumGroups() * s.NumMembers();
            total / s.NumReplicas() <= Hosted(s, s.NumGroups(), p) <= (total + (s.NumReplicas() - 1)) / s.NumReplicas()
    ensures -1 <= Hosted(s, s.NumGroups(), p) - Hosted(s, s.NumGroups(), q) <= 1
  {
    var m, g, r := s.NumMembers(), s.NumGroups(), s.NumReplicas();
    var total := g * m;
    assert m * (g + 1) == m + total;
    HostedCount(s, g, p);
    HostedCount(s, g, q);
    WindowCount(m, total, r, p);
    WindowCount(m, total, r, q);
    Ceiling(total, r);
  }

  // ----- the members of one group

  /** Two members of a group share a pod exactly when their numbers are congruent. */
  lemma SamePod(s: Spec, group: nat, m: nat, n: nat)
    requires s.HasMember(group, m) && s.HasMember(group, n) && m <= n
    ensures s.PodOrdinal(group, m) == s.PodOrdinal(group, n) <==> (n - m) % s.NumReplicas() == 0
  {
    var base, r := s.NumMembers() * group, s.NumReplicas();
    Positive(s.NumMembers(), group);
    assert s.PodOrdinal(group, m) == (base + (m - 1)) % r;
    assert s.PodOrdinal(group, n) == (base + (m - 1) + (n - m)) % r by { assert m - 1 + (n - m) == n - 1; }
    ResidueKept(base + (m - 1), n - m, r);
  }

  /** When there are at least as many replicas as members, no two members of a group
      share a pod. */
  lemma DistinctPods(s: Spec, group: nat, m: nat, n: nat)
    requires s.HasMember(group, m) && s.HasMember(group, n) && m < n && s.NumMembers() <= s.NumReplicas()
    ensures s.PodName(group, m) != s.PodName(group, n)
  {
    SamePod(s, group, m, n);
    ModUnique(n - m, s.NumReplicas(), 0, n - m);
    hide Decimal;
    if s.PodName(group, m) == s.PodName(group, n) {
      NumberedInjective(s.name, s.PodOrdinal(group, m), s.name, s.PodOrdinal(group, n));
    }
  }
}
