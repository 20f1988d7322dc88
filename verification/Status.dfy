/**
  The controller's view of a Raft group and of its members, kept up to date from
  the events of every member's node, which arrive in any interleaving.
 */
module Status {
  import opened Bits
  import opened Options
  import opened Naming

  /** A leader event as one member's node publishes it; leader 0 means none is known. */
  datatype LeaderEvent = LeaderEvent(group: uint32, member: uint32, term: uint64, leader: uint32)

  // ----- the status of a group

  datatype GroupView = GroupView(term: Option<uint64>, leader: Option<string>, followers: seq<string>)

  const NO_STATUS := GroupView(None, None, [])

  /** An event as the group's status sees it: members are known by name. */
  datatype GroupEvent = Ready(name: string) | Led(term: uint64, leader: Option<string>)

  function LeaderName(store: string, group: uint32, leader: uint32): Option<string> {
    if leader == 0 then None else Some(MemberName(store, group, leader))
  }

  /** Whether a leader event says something newer than what is recorded. */
  predicate Supersedes(term: Option<uint64>, leader: Option<string>, newTerm: uint64, newLeader: Option<string>) {
    term.None? || term.value < newTerm || (term.value == newTerm && leader.None? && newLeader.Some?)
  }

  /** `names` without the leader. */
  function Without(names: seq<string>, leader: Option<string>): seq<string> {
    if names == [] then []
    else
      var rest := Without(names[..|names| - 1], leader);
      var last := names[|names| - 1];
      if leader == Some(last) then rest else rest + [last]
  }

  function OnReady(v: GroupView, name: string): GroupView {
    if v.leader == Some(name) || name in v.followers then v
    else v.(followers := v.followers + [name])
  }

  function OnLed(v: GroupView, term: uint64, leader: Option<string>): GroupView {
    if !Supersedes(v.term, v.leader, term, leader) then v
    else
      var demoted := if v.leader.Some? && v.leader != leader then v.followers + [v.leader.value] else v.followers;
      GroupView(Some(term), leader, Without(demoted, leader))
  }

  function OnGroupEvent(v: GroupView, e: GroupEvent): GroupView {
    match e
    case Ready(name) => OnReady(v, name)
    case Led(term, leader) => OnLed(v, term, leader)
  }

  /** The reducer as the code runs it: it reports whether the status changed. */
  class GroupStatus {
    var term: Option<uint64>
    var leader: Option<string>
    var followers: seq<string>

    ghost function View(): GroupView
      reads this
    {
      GroupView(term, leader, followers)
    }

    constructor ()
      ensures View() == NO_STATUS
    {
      term, leader, followers := None, None, [];
    }

    method MemberReady(store: string, group: uint32, member: uint32) returns (changed: bool)
      modifies this
      ensures View() == OnReady(old(View()), MemberName(store, group, member))
      ensures changed <==> View() != old(View())
    {
      var name := MemberName(store, group, member);
      if leader == Some(name) {
        return false;
      }
      for k := 0 to |followers|
        invariant name !in followers[..k]
      {
        if followers[k] == name {
          return false;
        }
      }
      assert followers[..|followers|] == followers;
      followers := followers + [name];
      return true;
    }

    method LeaderUpdated(store: string, e: LeaderEvent) returns (changed: bool)
      modifies this
      ensures View() == OnLed(old(View()), e.term, LeaderName(store, e.group, e.leader))
      ensures changed <==> Supersedes(old(term), old(leader), e.term, LeaderName(store, e.group, e.leader))
    {
      if term == None || term.value < e.term || (term.value == e.term && leader == None && e.leader != 0) {
        var newLeader := LeaderName(store, e.group, e.leader);
        if leader.Some? && leader != newLeader {
          followers := followers + [leader.value];
        }
        var kept := [];
        for k := 0 to |followers|
          invariant kept == Without(followers[..k], newLeader)
        {
          assert followers[..k + 1][..k] == followers[..k];
          if newLeader != Some(followers[k]) {
            kept := kept + [followers[k]];
          }
        }
        assert followers[..|followers|] == followers;
        term, leader, followers := Some(e.term), newLeader, kept;
        return true;
      }
      return false;
    }
  }

  // ----- what every run keeps

  function GroupFold(v: GroupView, es: seq<GroupEvent>): GroupView {
    if es == [] then v else OnGroupEvent(GroupFold(v, es[..|es| - 1]), es[|es| - 1])
  }

  /** Every member the status mentions. */
  function Known(v: GroupView): set<string> {
    (set f | f in v.followers) + if v.leader.Some? then {v.leader.value} else {}
  }

  predicate Distinct<T(==)>(s: seq<T>) {
    forall j, k :: 0 <= j < k < |s| ==> s[j] != s[k]
  }

  /** The leader is not also a follower, and no follower is listed twice. */
  predicate WellFormed(v: GroupView) {
    Distinct(v.followers) && (v.leader.Some? ==> v.leader.value !in v.followers)
  }

  lemma {:induction false} WithoutSpec(names: seq<string>, leader: Option<string>)
    ensures forall x :: x in Without(names, leader) <==> x in names && leader != Some(x)
    ensures Distinct(names) ==> Distinct(Without(names, leader))
    decreases |names|
  {
    if names != [] {
      var init, last := names[..|names| - 1], names[|names| - 1];
      WithoutSpec(init, leader);
      assert names == init + [last];
      if Distinct(names) {
        assert Distinct(init);
        assert last !in init;
      }
    }
  }

  lemma OnReadyKeeps(v: GroupView, name: string)
    requires WellFormed(v)
    ensures WellFormed(OnReady(v, name)) && Known(OnReady(v, name)) == Known(v) + {name}
  {
    var w := OnReady(v, name);
    if w != v {
      assert w.followers == v.followers + [name];
    }
  }

  /** The new followers: the old ones and the old leader, without the new leader. */
  lemma DemotedFollowers(v: GroupView, leader: Option<string>)
    requires WellFormed(v)
    ensures var demoted := if v.leader.Some? && v.leader != leader then v.followers + [v.leader.value] else v.followers;
            && Distinct(Without(demoted, leader))
            && forall x :: x in Without(demoted, leader) <==>
                           (x in v.followers || v.leader == Some(x)) && leader != Some(x)
  {
    var demoted := if v.leader.Some? && v.leader != leader then v.followers + [v.leader.value] else v.followers;
    assert Distinct(demoted);
    WithoutSpec(demoted, leader);
  }

  lemma OnLedKeeps(v: GroupView, term: uint64, leader: Option<string>)
    requires WellFormed(v)
    ensures WellFormed(OnLed(v, term, leader))
    ensures Supersedes(v.term, v.leader, term, leader) ==>
              Known(OnLed(v, term, leader)) == Known(v) + if leader.Some? then {leader.value} else {}
  {
    if Supersedes(v.term, v.leader, term, leader) {
      DemotedFollowers(v, leader);
      hide Without, Distinct, Supersedes;
      var w := OnLed(v, term, leader);
      var all := Known(v) + if leader.Some? then {leader.value} else {};
      forall x
        ensures x in Known(w) <==> x in all
      {
        assert x in w.followers <==> (x in v.followers || v.leader == Some(x)) && leader != Some(x);
      }
    }
  }

  /** Along every run: the leader is not among the followers, the followers are
      distinct, the term does not decrease, and no member is ever forgotten. */
  lemma {:induction false} RunKeeps(v: GroupView, es: seq<GroupEvent>)
    requires WellFormed(v)
    ensures var w := GroupFold(v, es);
            && WellFormed(w) && Known(v) <= Known(w)
            && (v.term.Some? ==> w.term.Some? && v.term.value <= w.term.value)
    decreases |es|
  {
    if es != [] {
      RunKeeps(v, es[..|es| - 1]);
      var w := GroupFold(v, es[..|es| - 1]);
      match es[|es| - 1]
      case Ready(name) => OnReadyKeeps(w, name);
      case Led(term, leader) => OnLedKeeps(w, term, leader);
    }
  }

  /** Along every run, even one that reports two leaders for a term: while the term is the
      same, the first leader recorded for it stays. */
  lemma {:induction false} LeaderSticks(v: GroupView, es: seq<GroupEvent>)
    requires WellFormed(v) && v.term.Some? && v.leader.Some?
    requires GroupFold(v, es).term == v.term
    ensures GroupFold(v, es).leader == v.leader
    decreases |es|
  {
    if es != [] {
      RunKeeps(v, es[..|es| - 1]);
      var w := GroupFold(v, es[..|es| - 1]);
      RunKeeps(w, [es[|es| - 1]]);
      assert [es[|es| - 1]][..0] == [];
      if w.term == v.term {
        LeaderSticks(v, es[..|es| - 1]);
      }
    }
  }

  // ----- leadership does not depend on the order of events

  /** Both events name a leader of the same term. */
  predicate NameLeaders(d: GroupEvent, e: GroupEvent) {
    d.Led? && e.Led? && d.term == e.term && d.leader.Some? && e.leader.Some?
  }

  /** Election Safety, as far as the events tell. */
  predicate OneLeaderPerTerm(es: seq<GroupEvent>) {
    forall j, k :: 0 <= j < |es| && 0 <= k < |es| && NameLeaders(es[j], es[k]) ==> es[j].leader == es[k].leader
  }

  /** What the events say, read as a set: the greatest term, and its leader if any
      event of that term names one. */
  ghost predicate Leads(es: seq<GroupEvent>, term: Option<uint64>, leader: Option<string>) {
    && (forall k :: 0 <= k < |es| && es[k].Led? ==> term.Some? && es[k].term <= term.value)
    && (term.Some? ==> exists k :: 0 <= k < |es| && es[k].Led? && es[k].term == term.value)
    && (leader.Some? ==> term.Some? && Led(term.value, leader) in es)
    && (leader.None? ==> forall k :: 0 <= k < |es| && es[k].Led? && Some(es[k].term) == term ==> es[k].leader.None?)
  }

  lemma {:induction false} FoldLeads(es: seq<GroupEvent>)
    requires OneLeaderPerTerm(es)
    ensures var v := GroupFold(NO_STATUS, es); Leads(es, v.term, v.leader)
    decreases |es|
  {
    if es != [] {
      var init, last := es[..|es| - 1], es[|es| - 1];
      FoldLeads(init);
      assert es == init + [last];
      LeadsStep(init, last, GroupFold(NO_STATUS, init));
    }
  }

  lemma LeadsStep(init: seq<GroupEvent>, last: GroupEvent, v: GroupView)
    requires OneLeaderPerTerm(init + [last]) && Leads(init, v.term, v.leader)
    ensures var w := OnGroupEvent(v, last); Leads(init + [last], w.term, w.leader)
  {
    var es := init + [last];
    var w := OnGroupEvent(v, last);
    assert es[|init|] == last;
    assert forall k :: 0 <= k < |init| ==> es[k] == init[k];
    if w.term.Some? {
      if v.term == w.term {
        var k :| 0 <= k < |init| && init[k].Led? && init[k].term == v.term.value;
        assert es[k] == init[k];
      }
    }
    if v.leader.Some? {
      assert Led(v.term.value, v.leader) in es;
    }
  }

  /** The set of events determines who leads. */
  lemma LeadsUnique(es: seq<GroupEvent>, fs: seq<GroupEvent>,
                    t: Option<uint64>, l: Option<string>, t': Option<uint64>, l': Option<string>)
    requires forall e :: e in es <==> e in fs
    requires OneLeaderPerTerm(es) && Leads(es, t, l) && Leads(fs, t', l')
    ensures t == t' && l == l'
  {
    if t.Some? {
      var k :| 0 <= k < |es| && es[k].Led? && es[k].term == t.value;
      assert es[k] in fs;
    }
    if t'.Some? {
      var k :| 0 <= k < |fs| && fs[k].Led? && fs[k].term == t'.value;
      assert fs[k] in es;
    }
    assert t == t';
    if l.Some? {
      assert Led(t.value, l) in fs;
    }
    if l'.Some? {
      assert Led(t'.value, l') in es;
    }
  }

  /** Any two orders of the same events, however often each is delivered, end with
      the same term and leader. */
  lemma LeadershipOrderInsensitive(es: seq<GroupEvent>, fs: seq<GroupEvent>)
    requires forall e :: e in es <==> e in fs
    requires OneLeaderPerTerm(es)
    ensures GroupFold(NO_STATUS, es).term == GroupFold(NO_STATUS, fs).term
    ensures GroupFold(NO_STATUS, es).leader == GroupFold(NO_STATUS, fs).leader
  {
    forall j, k | 0 <= j < |fs| && 0 <= k < |fs| && NameLeaders(fs[j], fs[k])
      ensures fs[j].leader == fs[k].leader
    {
      assert fs[j] in es && fs[k] in es;
    }
    FoldLeads(es);
    FoldLeads(fs);
    var v, w := GroupFold(NO_STATUS, es), GroupFold(NO_STATUS, fs);
    LeadsUnique(es, fs, v.term, v.leader, w.term, w.leader);
  }

  // ----- and the set of known members?

  /** Members that reported ready are known; a known member reported ready or was named leader. */
  lemma {:induction false} KnownBounds(es: seq<GroupEvent>)
    ensures forall x :: Ready(x) in es ==> x in Known(GroupFold(NO_STATUS, es))
    ensures forall x :: x in Known(GroupFold(NO_STATUS, es)) ==> Ready(x) in es || Named(es, x)
    decreases |es|
  {
    if es != [] {
      var init, last := es[..|es| - 1], es[|es| - 1];
      KnownBounds(init);
      RunKeeps(NO_STATUS, init);
      assert es == init + [last];
      var v := GroupFold(NO_STATUS, init);
      if last.Ready? {
        OnReadyKeeps(v, last.name);
      } else {
        OnLedKeeps(v, last.term, last.leader);
      }
      assert es[|es| - 1] == last;
      forall x | Named(init, x)
        ensures Named(es, x)
      {
        var k :| 0 <= k < |init| && init[k].Led? && init[k].leader == Some(x);
        assert es[k] == init[k];
      }
    }
  }

  /** Some event names `x` as leader. */
  ghost predicate Named(es: seq<GroupEvent>, x: string) {
    exists k :: 0 <= k < |es| && es[k].Led? && es[k].leader == Some(x)
  }

  /** Some event names `x` as the leader of a term that no event goes beyond. */
  ghost predicate NamedLast(es: seq<GroupEvent>, x: string) {
    exists k :: 0 <= k < |es| && es[k].Led? && es[k].leader == Some(x)
                && forall j :: 0 <= j < |es| && es[j].Led? ==> es[j].term <= es[k].term
  }

  /** Every member ever named leader either reports ready itself or is the leader of the
      last term. */
  ghost predicate LeadersAccountedFor(es: seq<GroupEvent>) {
    forall x :: Named(es, x) ==> Ready(x) in es || NamedLast(es, x)
  }

  /** Who leads at the end can be read off the events. */
  lemma LeaderIsNamedLast(es: seq<GroupEvent>, x: string)
    requires OneLeaderPerTerm(es)
    ensures GroupFold(NO_STATUS, es).leader == Some(x) <==> NamedLast(es, x)
  {
    FoldLeads(es);
    var v := GroupFold(NO_STATUS, es);
    if v.leader == Some(x) {
      var k :| 0 <= k < |es| && es[k] == Led(v.term.value, v.leader);
    }
    if NamedLast(es, x) {
      var k :| 0 <= k < |es| && es[k].Led? && es[k].leader == Some(x)
               && forall j :: 0 <= j < |es| && es[j].Led? ==> es[j].term <= es[k].term;
      var j :| 0 <= j < |es| && es[j].Led? && es[j].term == v.term.value;
      assert es[k].term == v.term.value && v.leader.Some?;
      var i :| 0 <= i < |es| && es[i] == Led(v.term.value, v.leader);
      assert NameLeaders(es[i], es[k]);
    }
  }

  function MoveFirst(es: seq<GroupEvent>, k: nat): seq<GroupEvent>
    requires k < |es|
  {
    [es[k]] + (es[..k] + es[k + 1..])
  }

  lemma MoveFirstPermutes(es: seq<GroupEvent>, k: nat)
    requires k < |es|
    ensures multiset(MoveFirst(es, k)) == multiset(es)
  {
    assert es == es[..k] + ([es[k]] + es[k + 1..]);
  }

  lemma SameMultisetSameEvents(es: seq<GroupEvent>, fs: seq<GroupEvent>)
    requires multiset(es) == multiset(fs)
    ensures forall e :: e in es <==> e in fs
  {
    forall e
      ensures e in es <==> e in fs
    {
      assert e in es <==> e in multiset(es);
      assert e in fs <==> e in multiset(fs);
    }
  }

  lemma {:induction false} FoldPrepend(v: GroupView, e: GroupEvent, es: seq<GroupEvent>)
    ensures GroupFold(v, [e] + es) == GroupFold(OnGroupEvent(v, e), es)
    decreases |es|
  {
    var all := [e] + es;
    if es == [] {
      assert all[..0] == [];
    } else {
      assert all[..|all| - 1] == [e] + es[..|es| - 1];
      FoldPrepend(v, e, es[..|es| - 1]);
    }
  }

  /** Under a term at least as great as all that follow, the only leader that can
      still be added is that term's own. */
  lemma {:induction false} NothingAddedUnder(v: GroupView, es: seq<GroupEvent>, t: uint64, x: string)
    requires WellFormed(v) && v.term == Some(t) && x !in Known(v) && Ready(x) !in es
    requires forall k :: 0 <= k < |es| && es[k].Led? ==> es[k].term <= t && (es[k].term == t ==> es[k].leader != Some(x))
    ensures x !in Known(GroupFold(v, es)) && GroupFold(v, es).term == Some(t)
    decreases |es|
  {
    if es != [] {
      var init, last := es[..|es| - 1], es[|es| - 1];
      assert es[|es| - 1] in es;
      NothingAddedUnder(v, init, t, x);
      RunKeeps(v, init);
      var w := GroupFold(v, init);
      if last.Ready? {
        OnReadyKeeps(w, last.name);
      } else {
        OnLedKeeps(w, last.term, last.leader);
      }
    }
  }

  /** A leader's own event, if it comes first, makes it known. */
  lemma NamedFirst(es: seq<GroupEvent>, k: nat)
    requires k < |es| && es[k].Led? && es[k].leader.Some?
    ensures es[k].leader.value in Known(GroupFold(NO_STATUS, MoveFirst(es, k)))
  {
    hide GroupFold;
    var rest := es[..k] + es[k + 1..];
    FoldPrepend(NO_STATUS, es[k], rest);
    OnLedKeeps(NO_STATUS, es[k].term, es[k].leader);
    RunKeeps(OnGroupEvent(NO_STATUS, es[k]), rest);
  }

  /** An event of the greatest term, if it comes first, keeps every other leader unknown. */
  lemma TopFirst(es: seq<GroupEvent>, k: nat, x: string)
    requires k < |es| && es[k].Led? && es[k].leader != Some(x) && Ready(x) !in es
    requires forall j :: 0 <= j < |es| && es[j].Led? ==>
               es[j].term <= es[k].term && (es[j].term == es[k].term ==> es[j].leader != Some(x))
    ensures x !in Known(GroupFold(NO_STATUS, MoveFirst(es, k)))
  {
    hide GroupFold;
    var rest := es[..k] + es[k + 1..];
    FoldPrepend(NO_STATUS, es[k], rest);
    OnLedKeeps(NO_STATUS, es[k].term, es[k].leader);
    forall i | 0 <= i < |rest|
      ensures rest[i] in es
    {
      assert rest[i] == if i < k then es[i] else es[i + 1];
    }
    NothingAddedUnder(OnGroupEvent(NO_STATUS, es[k]), rest, es[k].term, x);
  }

  /** A leader that never reports ready and is superseded is known or not depending
      on whether its own event comes before the superseding one. */
  lemma ForgottenLeader(es: seq<GroupEvent>, x: string) returns (fs: seq<GroupEvent>)
    requires OneLeaderPerTerm(es) && Named(es, x) && Ready(x) !in es && !NamedLast(es, x)
    ensures multiset(fs) == multiset(es) && (x in Known(GroupFold(NO_STATUS, fs)) <==> x !in Known(GroupFold(NO_STATUS, es)))
  {
    hide GroupFold, MoveFirst, Known;
    FoldLeads(es);
    var v := GroupFold(NO_STATUS, es);
    var k: nat :| k < |es| && es[k].Led? && es[k].leader == Some(x);
    if x in Known(v) {
      k :| k < |es| && es[k].Led? && es[k].term == v.term.value;
      TopFirst(es, k, x);
    } else {
      NamedFirst(es, k);
    }
    fs := MoveFirst(es, k);
    MoveFirstPermutes(es, k);
  }

  /** The final set of known members is the same in every order of the events if and
      only if every member ever named leader reports ready or leads the last term. */
  lemma KnownOrderInsensitive(es: seq<GroupEvent>)
    requires OneLeaderPerTerm(es)
    ensures (forall fs :: multiset(fs) == multiset(es) ==> Known(GroupFold(NO_STATUS, fs)) == Known(GroupFold(NO_STATUS, es)))
            <==> LeadersAccountedFor(es)
  {
    if LeadersAccountedFor(es) {
      forall fs | multiset(fs) == multiset(es)
        ensures Known(GroupFold(NO_STATUS, fs)) == Known(GroupFold(NO_STATUS, es))
      {
        AccountedForKnown(es, fs);
      }
    } else {
      var x :| Named(es, x) && Ready(x) !in es && !NamedLast(es, x);
      var fs := ForgottenLeader(es, x);
      assert Known(GroupFold(NO_STATUS, fs)) != Known(GroupFold(NO_STATUS, es));
    }
  }

  lemma AccountedForKnown(es: seq<GroupEvent>, fs: seq<GroupEvent>)
    requires OneLeaderPerTerm(es) && LeadersAccountedFor(es) && multiset(fs) == multiset(es)
    ensures Known(GroupFold(NO_STATUS, fs)) == Known(GroupFold(NO_STATUS, es))
  {
    SameMultisetSameEvents(es, fs);
    LeadershipOrderInsensitive(es, fs);
    KnownBounds(es);
    KnownBounds(fs);
    var v, w := GroupFold(NO_STATUS, es), GroupFold(NO_STATUS, fs);
    forall x
      ensures x in Known(v) <==> x in Known(w)
    {
      LeaderIsNamedLast(es, x);
      if Named(es, x) {
        var k :| 0 <= k < |es| && es[k].Led? && es[k].leader == Some(x);
        assert es[k] in fs;
      }
      if Named(fs, x) {
        var k :| 0 <= k < |fs| && fs[k].Led? && fs[k].leader == Some(x);
        assert fs[k] in es;
        var j :| 0 <= j < |es| && es[j] == fs[k];
        assert Named(es, x);
      }
    }
  }

  /** Two leaders, one after the other, that never report ready: told in order, both are
      known; told the other way round, the first is not. */
  lemma TwoLeaders(a: string, b: string)
    requires a != b
    ensures var es, fs := [Led(1, Some(a)), Led(2, Some(b))], [Led(2, Some(b)), Led(1, Some(a))];
            && OneLeaderPerTerm(es) && !LeadersAccountedFor(es) && multiset(es) == multiset(fs)
            && Known(GroupFold(NO_STATUS, es)) == {a, b} && Known(GroupFold(NO_STATUS, fs)) == {b}
  {
    hide GroupFold, OnLed, LeadersAccountedFor, OneLeaderPerTerm, Known;
    var x, y := Led(1, Some(a)), Led(2, Some(b));
    LeaderUnaccounted(a, b);
    FoldTwo(x, y);
    FoldTwo(y, x);
    LedFromNothing(1, a);
    LedFromNothing(2, b);
    LeaderDemoted(a, b);
    KnownOfTwo(a, b);
    assert [x, y] == [x] + [y] && [y, x] == [y] + [x];
  }

  lemma KnownOfTwo(a: string, b: string)
    ensures Known(GroupView(Some(2), Some(b), [a])) == {a, b} && Known(GroupView(Some(2), Some(b), [])) == {b}
  {
    assert forall x :: x in [a] <==> x == a;
  }

  lemma LeaderUnaccounted(a: string, b: string)
    requires a != b
    ensures var es := [Led(1, Some(a)), Led(2, Some(b))]; OneLeaderPerTerm(es) && !LeadersAccountedFor(es)
  {
    var es := [Led(1, Some(a)), Led(2, Some(b))];
    assert es[0].leader == Some(a) && es[1].Led? && es[1].term == 2;
    assert Named(es, a) && !NamedLast(es, a) && Ready(a) !in es;
  }

  lemma LeaderDemoted(a: string, b: string)
    requires a != b
    ensures OnLed(GroupView(Some(1), Some(a), []), 2, Some(b)) == GroupView(Some(2), Some(b), [a])
    ensures OnLed(GroupView(Some(2), Some(b), []), 1, Some(a)) == GroupView(Some(2), Some(b), [])
  {
    assert [] + [a] == [a] && [a][..0] == [];
    assert Without([a], Some(b)) == [] + [a];
  }

  lemma FoldTwo(x: GroupEvent, y: GroupEvent)
    ensures GroupFold(NO_STATUS, [x, y]) == OnGroupEvent(OnGroupEvent(NO_STATUS, x), y)
  {
    hide OnGroupEvent;
    assert [x, y][..1] == [x] && [x][..0] == [];
    assert GroupFold(NO_STATUS, [x]) == OnGroupEvent(NO_STATUS, x);
  }

  lemma LedFromNothing(term: uint64, a: string)
    ensures OnGroupEvent(NO_STATUS, Led(term, Some(a))) == GroupView(Some(term), Some(a), [])
  {}
}
