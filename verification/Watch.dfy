/**
  The node's table of partitions and its watchers.  Publishing an event updates the
  partition it is about and sends the event to every watcher; a new watcher is
  first sent what the partitions currently know.  A channel is the sequence of
  everything sent on it.
 */
module Watch {
  import opened Bits
  import opened Options
  import opened Context
  import opened Naming
  import opened Status

  datatype Event =
    | LeaderUpdated(e: LeaderEvent)
    | MemberReady(group: uint32, member: uint32)
    | Unrelated(group: uint32)

  function EventGroup(ev: Event): uint32 {
    match ev
    case LeaderUpdated(e) => e.group
    case MemberReady(group, _) => group
    case Unrelated(group) => group
  }

  /** What a partition keeps of an event about its group. */
  function OnEvent(view: PartitionView, ev: Event): PartitionView {
    match ev
    case LeaderUpdated(e) => view.WithLeader(e.term, e.leader)
    case MemberReady(_, _) => view.(ready := true)
    case Unrelated(_) => view
  }

  /** What a new watcher is told of one partition. */
  function Replay(group: uint32, member: uint32, view: PartitionView): seq<Event> {
    (if view.term > 0 then [LeaderUpdated(LeaderEvent(group, member, view.term, view.leader))] else [])
    + (if view.ready then [MemberReady(group, member)] else [])
  }

  /** The events about one group, in order. */
  function ForGroup(evs: seq<Event>, group: uint32): seq<Event> {
    if evs == [] then []
    else
      var last := evs[|evs| - 1];
      ForGroup(evs[..|evs| - 1], group) + if EventGroup(last) == group then [last] else []
  }

  lemma {:induction false} ForGroupConcat(a: seq<Event>, b: seq<Event>, group: uint32)
    ensures ForGroup(a + b, group) == ForGroup(a, group) + ForGroup(b, group)
    decreases |b|
  {
    if b == [] {
      assert a + b == a;
    } else {
      assert (a + b)[..|a + b| - 1] == a + b[..|b| - 1];
      ForGroupConcat(a, b[..|b| - 1], group);
    }
  }

  lemma ReplayIsForGroup(g: uint32, member: uint32, view: PartitionView, group: uint32)
    ensures ForGroup(Replay(g, member, view), group) == if g == group then Replay(g, member, view) else []
  {
    var xs := if view.term > 0 then [LeaderUpdated(LeaderEvent(g, member, view.term, view.leader))] else [];
    var ys := if view.ready then [MemberReady(g, member)] else [];
    ForGroupConcat(xs, ys, group);
    OneEvent(xs, group);
    OneEvent(ys, group);
  }

  lemma NoEvents()
    ensures forall g: uint32 :: ForGroup([], g) == []
  {}

  lemma OneEvent(xs: seq<Event>, group: uint32)
    requires |xs| <= 1
    ensures ForGroup(xs, group) == if xs != [] && EventGroup(xs[0]) == group then xs else []
  {
    if xs != [] {
      assert xs[..0] == [];
      assert xs == [xs[0]];
    }
  }

  class Protocol {
    var partitions: map<uint32, Partition>
    var watchers: map<nat, seq<Event>>
    var watcherID: nat

    constructor ()
      ensures partitions == map[] && watchers == map[] && watcherID == 0
    {
      partitions, watchers, watcherID := map[], map[], 0;
    }

    /** A started state machine gets a context and a partition of its own. */
    method NewStateMachine(group: uint32, member: uint32) returns (context: ProtocolContext<nat>)
      modifies this
      ensures fresh(context) && context.State() == Registry(map[], 0)
      ensures group in partitions && fresh(partitions[group])
      ensures partitions == old(partitions)[group := partitions[group]]
      ensures partitions[group].memberID == member && partitions[group].View() == PartitionView(false, 0, 0)
      ensures watchers == old(watchers) && watcherID == old(watcherID)
    {
      context := new ProtocolContext<nat>();
      var partition := new Partition(member);
      partitions := partitions[group := partition];
    }

    method Publish(ev: Event)
      modifies this`watchers, partitions.Values
      ensures watchers.Keys == old(watchers.Keys)
      ensures forall id :: id in watchers ==> watchers[id] == old(watchers)[id] + [ev]
      ensures EventGroup(ev) in partitions ==>
                partitions[EventGroup(ev)].View() == OnEvent(old(partitions[EventGroup(ev)].View()), ev)
      ensures forall g :: g in partitions && (EventGroup(ev) in partitions ==> partitions[g] != partitions[EventGroup(ev)]) ==>
                partitions[g].View() == old(partitions[g].View())
    {
      match ev {
        case MemberReady(group, _) =>
          if group in partitions {
            partitions[group].SetReady();
          }
        case LeaderUpdated(e) =>
          if e.group in partitions {
            partitions[e.group].SetLeader(e.term, e.leader);
          }
        case Unrelated(_) =>
      }
      var todo := watchers.Keys;
      while todo != {}
        invariant todo <= watchers.Keys == old(watchers.Keys)
        invariant forall id :: id in watchers ==>
                    watchers[id] == old(watchers)[id] + if id in todo then [] else [ev]
        modifies this`watchers
        decreases todo
      {
        var id :| id in todo;
        watchers := watchers[id := watchers[id] + [ev]];
        todo := todo - {id};
      }
    }

    /** What is sent to a new watcher for one partition. */
    method ReplayPartition(g: uint32, partition: Partition) returns (sent: seq<Event>)
      ensures sent == Replay(g, partition.memberID, partition.View())
    {
      sent := [];
      var term, leader := partition.GetLeader();
      if term > 0 {
        sent := sent + [LeaderUpdated(LeaderEvent(g, partition.memberID, term, leader))];
      }
      if partition.ready {
        sent := sent + [MemberReady(g, partition.memberID)];
      }
    }

    /** The new watcher's channel holds, for each partition, what it knows, and nothing else;
        the partitions come in no particular order. */
    method Watch() returns (id: nat)
      modifies this`watchers, this`watcherID
      ensures id == old(watcherID) + 1 == watcherID
      ensures watchers.Keys == old(watchers.Keys) + {id}
      ensures forall other :: other in old(watchers) && other != id ==> watchers[other] == old(watchers)[other]
      ensures forall g: uint32 :: ForGroup(watchers[id], g) ==
                if g in partitions then Replay(g, partitions[g].memberID, partitions[g].View()) else []
    {
      NoEvents();
      hide Replay, ForGroup;
      watcherID := watcherID + 1;
      id := watcherID;
      var channel: seq<Event> := [];
      var todo := partitions.Keys;
      while todo != {}
        invariant todo <= partitions.Keys
        invariant watchers == old(watchers) && watcherID == id == old(watcherID) + 1
        invariant forall g: uint32 :: ForGroup(channel, g) ==
                    if g in partitions && g !in todo then Replay(g, partitions[g].memberID, partitions[g].View()) else []
        decreases todo
      {
        var g :| g in todo;
        var partition := partitions[g];
        var replay := ReplayPartition(g, partition);
        forall h: uint32
          ensures ForGroup(channel + replay, h) == ForGroup(channel, h) + if h == g then replay else []
        {
          ForGroupConcat(channel, replay, h);
          ReplayIsForGroup(g, partition.memberID, partition.View(), h);
        }
        channel := channel + replay;
        todo := todo - {g};
      }
      watchers := watchers[id := channel];
    }
  }

  // ----- a late watcher

  /** The events of one partition, in the words of the controller's reducer. */
  function Heard(store: string, evs: seq<Event>): seq<GroupEvent> {
    if evs == [] then []
    else
      var ev := evs[|evs| - 1];
      Heard(store, evs[..|evs| - 1]) +
      match ev
      case LeaderUpdated(e) => [Led(e.term, LeaderName(store, e.group, e.leader))]
      case MemberReady(group, member) => [Ready(MemberName(store, group, member))]
      case Unrelated(_) => []
  }

  /** A partition after all that was published since it was created. */
  function ViewAfter(evs: seq<Event>): PartitionView {
    if evs == [] then PartitionView(false, 0, 0) else OnEvent(ViewAfter(evs[..|evs| - 1]), evs[|evs| - 1])
  }

  /** A history of one member of one group: its terms never go back, and no term has
      two leaders. */
  ghost predicate Orderly(store: string, group: uint32, evs: seq<Event>) {
    && (forall k :: 0 <= k < |evs| ==> EventGroup(evs[k]) == group)
    && (forall j, k :: 0 <= j <= k < |evs| && evs[j].LeaderUpdated? && evs[k].LeaderUpdated? ==> evs[j].e.term <= evs[k].e.term)
    && OneLeaderPerTerm(Heard(store, evs))
  }

  /** What a watcher that arrives after `evs` is sent. */
  function Seen(group: uint32, member: uint32, evs: seq<Event>): seq<Event> {
    Replay(group, member, ViewAfter(evs))
  }

  predicate SameLeadership(v: GroupView, w: GroupView) {
    v.term == w.term && v.leader == w.leader
  }

  /** The exact condition: the partition's last term is not 0, and if its last word was
      "no leader" then no earlier event of that term had named one. */
  ghost predicate NothingDropped(evs: seq<Event>) {
    var view := ViewAfter(evs);
    (exists k :: 0 <= k < |evs| && evs[k].LeaderUpdated?) ==>
      && view.term > 0
      && (view.leader == 0 ==>
            forall k :: 0 <= k < |evs| && evs[k].LeaderUpdated? && evs[k].e.term == view.term ==> evs[k].e.leader == 0)
  }

  lemma {:induction false} HeardIs(store: string, evs: seq<Event>)
    ensures forall k :: 0 <= k < |evs| && evs[k].LeaderUpdated? ==>
              Led(evs[k].e.term, LeaderName(store, evs[k].e.group, evs[k].e.leader)) in Heard(store, evs)
    ensures forall g :: g in Heard(store, evs) && g.Led? ==>
              exists k :: 0 <= k < |evs| && evs[k].LeaderUpdated? && evs[k].e.term == g.term
                          && LeaderName(store, evs[k].e.group, evs[k].e.leader) == g.leader
    decreases |evs|
  {
    hide MemberName;
    if evs != [] {
      var init, last := evs[..|evs| - 1], evs[|evs| - 1];
      HeardIs(store, init);
      forall g | g in Heard(store, evs) && g.Led?
        ensures exists k :: 0 <= k < |evs| && evs[k].LeaderUpdated? && evs[k].e.term == g.term
                            && LeaderName(store, evs[k].e.group, evs[k].e.leader) == g.leader
      {
        if g in Heard(store, init) {
          var k :| 0 <= k < |init| && init[k].LeaderUpdated? && init[k].e.term == g.term
                   && LeaderName(store, init[k].e.group, init[k].e.leader) == g.leader;
          assert evs[k] == init[k];
        } else {
          assert evs[|evs| - 1] == last;
        }
      }
      forall k | 0 <= k < |evs| && evs[k].LeaderUpdated?
        ensures Led(evs[k].e.term, LeaderName(store, evs[k].e.group, evs[k].e.leader)) in Heard(store, evs)
      {
        if k < |init| {
          assert evs[k] == init[k];
        }
      }
    }
  }

  /** The partition remembers the last leader event, which is of the greatest term. */
  lemma {:induction false} ViewIsLast(evs: seq<Event>)
    requires forall j, k :: 0 <= j <= k < |evs| && evs[j].LeaderUpdated? && evs[k].LeaderUpdated? ==> evs[j].e.term <= evs[k].e.term
    ensures forall k :: 0 <= k < |evs| && evs[k].LeaderUpdated? ==> evs[k].e.term <= ViewAfter(evs).term
    ensures (exists k :: 0 <= k < |evs| && evs[k].LeaderUpdated?) ==>
              exists k :: 0 <= k < |evs| && evs[k].LeaderUpdated? && evs[k].e.term == ViewAfter(evs).term
                          && evs[k].e.leader == ViewAfter(evs).leader
    ensures !(exists k :: 0 <= k < |evs| && evs[k].LeaderUpdated?) ==> ViewAfter(evs).term == 0
    decreases |evs|
  {
    if evs != [] {
      var init, last := evs[..|evs| - 1], evs[|evs| - 1];
      ViewIsLast(init);
      assert evs[|evs| - 1] == last;
      if !last.LeaderUpdated? && exists k :: 0 <= k < |evs| && evs[k].LeaderUpdated? {
        var j :| 0 <= j < |evs| && evs[j].LeaderUpdated?;
        assert init[j].LeaderUpdated?;
        var k :| 0 <= k < |init| && init[k].LeaderUpdated? && init[k].e.term == ViewAfter(init).term
                 && init[k].e.leader == ViewAfter(init).leader;
        assert evs[k] == init[k];
      }
    }
  }

  /** The reducer over a replay. */
  lemma FoldReplay(store: string, group: uint32, member: uint32, view: PartitionView)
    ensures var v := GroupFold(NO_STATUS, Heard(store, Replay(group, member, view)));
            if view.term > 0 then v.term == Some(view.term) && v.leader == LeaderName(store, group, view.leader)
            else v.term == None && v.leader == None
  {
    hide MemberName, Heard, GroupFold;
    var led := if view.term > 0 then [LeaderUpdated(LeaderEvent(group, member, view.term, view.leader))] else [];
    FoldOneLed(store, led, group, member, view);
    if view.ready {
      HeardReady(store, led, group, member);
    } else {
      assert Replay(group, member, view) == led;
    }
  }

  /** Becoming ready at last changes neither term nor leader. */
  lemma HeardReady(store: string, evs: seq<Event>, group: uint32, member: uint32)
    ensures SameLeadership(GroupFold(NO_STATUS, Heard(store, evs + [MemberReady(group, member)])),
                           GroupFold(NO_STATUS, Heard(store, evs)))
  {
    hide MemberName;
    var all := evs + [MemberReady(group, member)];
    var h, r := Heard(store, evs), Ready(MemberName(store, group, member));
    assert all[..|all| - 1] == evs;
    assert Heard(store, all) == h + [r];
    hide Heard;
    assert (h + [r])[..|h + [r]| - 1] == h;
  }

  lemma FoldOneLed(store: string, evs: seq<Event>, group: uint32, member: uint32, view: PartitionView)
    requires evs == if view.term > 0 then [LeaderUpdated(LeaderEvent(group, member, view.term, view.leader))] else []
    ensures var v := GroupFold(NO_STATUS, Heard(store, evs));
            if view.term > 0 then v.term == Some(view.term) && v.leader == LeaderName(store, group, view.leader)
            else v.term == None && v.leader == None
  {
    hide MemberName;
    if view.term > 0 {
      assert evs[..0] == [];
      var led := Led(view.term, LeaderName(store, group, view.leader));
      assert Heard(store, evs) == [led];
      assert [led][..0] == [];
    }
  }

  /** Right after it arrives, the late watcher agrees with one that heard everything
      if and only if nothing was dropped. */
  lemma AgreesOnArrival(store: string, group: uint32, member: uint32, evs: seq<Event>)
    requires Orderly(store, group, evs)
    ensures SameLeadership(GroupFold(NO_STATUS, Heard(store, Seen(group, member, evs))), GroupFold(NO_STATUS, Heard(store, evs)))
            <==> NothingDropped(evs)
  {
    hide MemberName, Replay, Heard, GroupFold, ViewAfter;
    var view := ViewAfter(evs);
    var es := Heard(store, evs);
    var v := GroupFold(NO_STATUS, es);
    FoldReplay(store, group, member, view);
    HeardIs(store, evs);
    ViewIsLast(evs);
    FoldLeads(es);
    if k :| 0 <= k < |evs| && evs[k].LeaderUpdated? {
      assert Led(evs[k].e.term, LeaderName(store, evs[k].e.group, evs[k].e.leader)) in es;
      TermIsLast(store, evs, es, v, view);
      var j :| 0 <= j < |evs| && evs[j].LeaderUpdated? && evs[j].e.term == view.term && evs[j].e.leader == view.leader;
      LeaderIsLast(store, group, evs, es, v, view, j);
    } else {
      assert forall g :: g in es ==> !g.Led?;
      assert forall k :: 0 <= k < |es| ==> !es[k].Led?;
    }
  }

  lemma TermIsLast(store: string, evs: seq<Event>, es: seq<GroupEvent>, v: GroupView, view: PartitionView)
    requires es == Heard(store, evs) && Leads(es, v.term, v.leader)
    requires forall k :: 0 <= k < |evs| && evs[k].LeaderUpdated? ==> evs[k].e.term <= view.term
    requires exists k :: 0 <= k < |evs| && evs[k].LeaderUpdated? && evs[k].e.term == view.term
    ensures v.term == Some(view.term)
  {
    hide MemberName, Heard;
    HeardIs(store, evs);
    var j :| 0 <= j < |evs| && evs[j].LeaderUpdated? && evs[j].e.term == view.term;
    var led := Led(view.term, LeaderName(store, evs[j].e.group, evs[j].e.leader));
    assert led in es;
    var i :| 0 <= i < |es| && es[i] == led;
    var k :| 0 <= k < |es| && es[k].Led? && es[k].term == v.term.value;
    assert es[k] in es;
  }

  lemma LeaderIsLast(store: string, group: uint32, evs: seq<Event>, es: seq<GroupEvent>, v: GroupView, view: PartitionView, j: nat)
    requires es == Heard(store, evs) && Leads(es, v.term, v.leader) && v.term == Some(view.term)
    requires Orderly(store, group, evs)
    requires j < |evs| && evs[j].LeaderUpdated? && evs[j].e.term == view.term && evs[j].e.leader == view.leader
    ensures v.leader == LeaderName(store, group, view.leader) <==>
            (view.leader == 0 ==> forall k :: 0 <= k < |evs| && evs[k].LeaderUpdated? && evs[k].e.term == view.term ==> evs[k].e.leader == 0)
  {
    hide MemberName, Heard;
    HeardIs(store, evs);
    if view.leader != 0 {
      var led := Led(view.term, LeaderName(store, group, view.leader));
      assert led in es;
      var i :| 0 <= i < |es| && es[i] == led;
      assert v.leader.Some?;
      var k :| 0 <= k < |es| && es[k] == Led(view.term, v.leader);
      assert NameLeaders(es[i], es[k]);
    } else if v.leader.Some? {
      assert Led(view.term, v.leader) in es;
      var k :| 0 <= k < |evs| && evs[k].LeaderUpdated? && evs[k].e.term == view.term
               && LeaderName(store, evs[k].e.group, evs[k].e.leader) == v.leader;
      assert evs[k].e.leader != 0;
    } else {
      forall k | 0 <= k < |evs| && evs[k].LeaderUpdated? && evs[k].e.term == view.term
        ensures evs[k].e.leader == 0
      {
        var led := Led(view.term, LeaderName(store, evs[k].e.group, evs[k].e.leader));
        assert led in es;
        var i :| 0 <= i < |es| && es[i] == led;
      }
    }
  }

  /** Reducers that agree on the leadership go on agreeing. */
  lemma {:induction false} LeadershipDetermined(v: GroupView, w: GroupView, es: seq<GroupEvent>)
    requires SameLeadership(v, w)
    ensures SameLeadership(GroupFold(v, es), GroupFold(w, es))
    decreases |es|
  {
    if es != [] {
      LeadershipDetermined(v, w, es[..|es| - 1]);
    }
  }

  lemma {:induction false} FoldConcat(v: GroupView, es: seq<GroupEvent>, fs: seq<GroupEvent>)
    ensures GroupFold(v, es + fs) == GroupFold(GroupFold(v, es), fs)
    decreases |fs|
  {
    if fs == [] {
      assert es + fs == es;
    } else {
      assert (es + fs)[..|es + fs| - 1] == es + fs[..|fs| - 1];
      FoldConcat(v, es, fs[..|fs| - 1]);
    }
  }

  /** A watcher that arrives late ends with the same term and leader as one that heard
      the whole history, whatever is published afterwards, if and only if nothing was
      dropped before it came. */
  lemma LateWatcher(store: string, group: uint32, member: uint32, evs: seq<Event>)
    requires Orderly(store, group, evs)
    ensures NothingDropped(evs) <==>
            forall later :: SameLeadership(GroupFold(NO_STATUS, Heard(store, Seen(group, member, evs)) + later),
                                           GroupFold(NO_STATUS, Heard(store, evs) + later))
  {
    hide Heard, Seen, GroupFold, MemberName, NothingDropped, Orderly;
    var xs, ys := Heard(store, Seen(group, member, evs)), Heard(store, evs);
    AgreesOnArrival(store, group, member, evs);
    if NothingDropped(evs) {
      forall later
        ensures SameLeadership(GroupFold(NO_STATUS, xs + later), GroupFold(NO_STATUS, ys + later))
      {
        FoldConcat(NO_STATUS, xs, later);
        FoldConcat(NO_STATUS, ys, later);
        LeadershipDetermined(GroupFold(NO_STATUS, xs), GroupFold(NO_STATUS, ys), later);
      }
    } else {
      assert xs + [] == xs && ys + [] == ys;
    }
  }

  /** A member that steps down within its term is remembered by a watcher that saw it
      lead, and unknown to one that comes later. */
  lemma DroppedLeaderIsMissed(store: string)
    ensures var evs := [LeaderUpdated(LeaderEvent(1, 1, 1, 1)), LeaderUpdated(LeaderEvent(1, 1, 1, 0))];
            && !NothingDropped(evs)
            && GroupFold(NO_STATUS, Heard(store, evs)).leader == Some(MemberName(store, 1, 1))
            && GroupFold(NO_STATUS, Heard(store, Seen(1, 1, evs))).leader == None
  {
    hide MemberName, Heard, GroupFold, ViewAfter, NothingDropped;
    var a, b := LeaderUpdated(LeaderEvent(1, 1, 1, 1)), LeaderUpdated(LeaderEvent(1, 1, 1, 0));
    ViewOfTwo(a, b);
    LeaderDropped(a, b);
    HeardOfTwo(store, a.e, b.e);
    FoldTwo(Led(1, LeaderName(store, 1, 1)), Led(1, LeaderName(store, 1, 0)));
    FoldReplay(store, 1, 1, ViewAfter([a, b]));
  }

  lemma ViewOfTwo(a: Event, b: Event)
    ensures ViewAfter([a, b]) == OnEvent(OnEvent(PartitionView(false, 0, 0), a), b)
  {
    assert [a, b][..1] == [a] && [a][..0] == [];
    assert ViewAfter([a]) == OnEvent(PartitionView(false, 0, 0), a);
  }

  lemma LeaderDropped(a: Event, b: Event)
    requires a.LeaderUpdated? && b.LeaderUpdated? && a.e.term == b.e.term && a.e.leader != 0 && b.e.leader == 0
    ensures !NothingDropped([a, b])
  {
    ViewOfTwo(a, b);
    hide ViewAfter;
    assert [a, b][0] == a;
  }

  lemma HeardOfTwo(store: string, d: LeaderEvent, e: LeaderEvent)
    ensures Heard(store, [LeaderUpdated(d), LeaderUpdated(e)]) ==
            [Led(d.term, LeaderName(store, d.group, d.leader)), Led(e.term, LeaderName(store, e.group, e.leader))]
  {
    hide MemberName;
    var a, b := LeaderUpdated(d), LeaderUpdated(e);
    assert [a, b][..1] == [a] && [a][..0] == [];
    assert Heard(store, [a]) == [Led(d.term, LeaderName(store, d.group, d.leader))];
  }

  // ----- readiness

  /** A replay speaks of its own group and member only, and says that the member is ready
      if and only if the partition is. */
  lemma ReplayTells(group: uint32, member: uint32, view: PartitionView)
    ensures forall ev :: ev in Replay(group, member, view) ==>
              match ev
              case LeaderUpdated(e) => e == LeaderEvent(group, member, view.term, view.leader)
              case MemberReady(g, m) => g == group && m == member
              case Unrelated(_) => false
    ensures MemberReady(group, member) in Replay(group, member, view) <==> view.ready
    ensures LeaderUpdated(LeaderEvent(group, member, view.term, view.leader)) in Replay(group, member, view) <==> view.term > 0
  {
    var xs := if view.term > 0 then [LeaderUpdated(LeaderEvent(group, member, view.term, view.leader))] else [];
    var ys := if view.ready then [MemberReady(group, member)] else [];
    assert forall ev :: ev in Replay(group, member, view) <==> ev in xs || ev in ys;
  }

  /** A partition is ready once it has been told so, and stays ready. */
  lemma {:induction false} ViewIsReady(evs: seq<Event>)
    ensures ViewAfter(evs).ready <==> exists k :: 0 <= k < |evs| && evs[k].MemberReady?
    decreases |evs|
  {
    if evs != [] {
      var init, last := evs[..|evs| - 1], evs[|evs| - 1];
      ViewIsReady(init);
      assert evs == init + [last];
      if init != [] && ViewAfter(init).ready {
        var k :| 0 <= k < |init| && init[k].MemberReady?;
        assert evs[k] == init[k];
      }
      if last.MemberReady? {
        assert evs[|evs| - 1].MemberReady?;
      }
      if k :| 0 <= k < |evs| && evs[k].MemberReady? {
        assert last.MemberReady? || init[k].MemberReady?;
      }
    }
  }

  /** For every history of one member's partition: a late watcher is told that the member
      is ready if and only if the history says so. */
  lemma LateWatcherLearnsReady(group: uint32, member: uint32, evs: seq<Event>)
    ensures MemberReady(group, member) in Seen(group, member, evs) <==> exists k :: 0 <= k < |evs| && evs[k].MemberReady?
  {
    hide Replay, ViewAfter;
    ViewIsReady(evs);
    ReplayTells(group, member, ViewAfter(evs));
  }

  lemma {:induction false} HeardReadies(store: string, evs: seq<Event>)
    ensures forall g: uint32, m: uint32 :: MemberReady(g, m) in evs ==> Ready(MemberName(store, g, m)) in Heard(store, evs)
    decreases |evs|
  {
    hide MemberName;
    if evs != [] {
      HeardReadies(store, evs[..|evs| - 1]);
      assert evs == evs[..|evs| - 1] + [evs[|evs| - 1]];
    }
  }

  /** Whatever is published afterwards: a member that ever reported itself ready is known
      to the late watcher, as it is to an early one. */
  lemma LateWatcherKnowsReady(store: string, group: uint32, member: uint32, evs: seq<Event>, later: seq<GroupEvent>)
    requires MemberReady(group, member) in evs
    ensures MemberName(store, group, member) in Known(GroupFold(NO_STATUS, Heard(store, evs) + later))
    ensures MemberName(store, group, member) in Known(GroupFold(NO_STATUS, Heard(store, Seen(group, member, evs)) + later))
  {
    hide MemberName, Heard, Seen, GroupFold, Known;
    LateWatcherLearnsReady(group, member, evs);
    HeardReadies(store, evs);
    HeardReadies(store, Seen(group, member, evs));
    KnownBounds(Heard(store, evs) + later);
    KnownBounds(Heard(store, Seen(group, member, evs)) + later);
  }
}
