/**
  The status of each member beside the status of the group.  Every leader event is
  written to the member it came from and to the group, two writes that interleave
  with all others; this file says when the group's term and leader are the join of
  its members' terms and leaders.
 */
module Members {
  import opened Bits
  import opened Options
  import opened Naming
  import opened Status

  /** The state of a member, a group or a cluster; a resource starts with none. */
  datatype ResourceState = Unset | NotReady | Ready

  datatype Role = Leader | Follower

  datatype MemberView = MemberView(
    state: ResourceState, term: Option<uint64>, leader: Option<string>, role: Option<Role>, lastSnapshotIndex: Option<uint64>)

  function OnMemberReady(v: MemberView): MemberView {
    v.(state := ResourceState.Ready)
  }

  function OnMemberLed(v: MemberView, store: string, e: LeaderEvent): MemberView {
    var leader := LeaderName(store, e.group, e.leader);
    if !Supersedes(v.term, v.leader, e.term, leader) then v
    else
      v.(term := Some(e.term), leader := leader,
         role := Some(if e.leader != 0 && e.leader == e.member then Leader else Follower))
  }

  function OnSnapshot(v: MemberView, index: uint64): MemberView {
    if index > 0 && (v.lastSnapshotIndex.None? || index > v.lastSnapshotIndex.value)
    then v.(lastSnapshotIndex := Some(index)) else v
  }

  /** The updaters as the code runs them, each reporting whether the status is to be written. */
  class MemberStatus {
    var state: ResourceState
    var term: Option<uint64>
    var leader: Option<string>
    var role: Option<Role>
    var lastSnapshotIndex: Option<uint64>

    ghost function View(): MemberView
      reads this
    {
      MemberView(state, term, leader, role, lastSnapshotIndex)
    }

    constructor ()
      ensures View() == MemberView(Unset, None, None, None, None)
    {
      state, term, leader, role, lastSnapshotIndex := Unset, None, None, None, None;
    }

    method MemberReady() returns (changed: bool)
      modifies this
      ensures View() == OnMemberReady(old(View())) && (changed <==> View() != old(View()))
    {
      if state != ResourceState.Ready {
        state := ResourceState.Ready;
        return true;
      }
      return false;
    }

    method LeaderUpdated(store: string, e: LeaderEvent) returns (changed: bool)
      modifies this
      ensures View() == OnMemberLed(old(View()), store, e)
      ensures changed <==> Supersedes(old(term), old(leader), e.term, LeaderName(store, e.group, e.leader))
    {
      if term == None || term.value < e.term || (term.value == e.term && leader == None && e.leader != 0) {
        var newRole := Follower;
        if e.leader == 0 {
          leader := None;
        } else {
          leader := Some(MemberName(store, e.group, e.leader));
          if e.leader == e.member {
            newRole := Leader;
          }
        }
        term, role := Some(e.term), Some(newRole);
        return true;
      }
      return false;
    }

    method Snapshot(index: uint64) returns (changed: bool)
      modifies this
      ensures View() == OnSnapshot(old(View()), index) && (changed <==> View() != old(View()))
    {
      if index > 0 && (lastSnapshotIndex == None || index > lastSnapshotIndex.value) {
        lastSnapshotIndex := Some(index);
        return true;
      }
      return false;
    }
  }

  // ----- all members of one group

  /** One group of a store, from the creation of its resource on: the resources of its
      members, and its own status. */
  datatype Fleet = Fleet(store: string, group: uint32, members: map<uint32, MemberView>, status: GroupView)

  datatype NodeEvent =
    | MemberIsReady(member: uint32)
    | LeaderChanged(e: LeaderEvent)
    | SnapshotTaken(member: uint32, index: uint64)

  /** The reconciler creates a member; or a watcher writes an event to the member it is
      about, or to the group.  The two writes of an event are separate, and those of
      different watchers interleave. */
  datatype Write =
    | MemberCreated(member: uint32)
    | ToMember(e: NodeEvent)
    | ToGroup(e: NodeEvent)

  function WithMember(f: Fleet, m: uint32, v: MemberView): Fleet {
    f.(members := f.members[m := v])
  }

  const NEW_MEMBER := MemberView(Unset, None, None, None, None)

  /** A member whose resource does not exist is passed over; its group is not. */
  function OnWrite(f: Fleet, w: Write): Fleet {
    match w
    case MemberCreated(m) => if m in f.members then f else WithMember(f, m, NEW_MEMBER)
    case ToMember(MemberIsReady(m)) => if m in f.members then WithMember(f, m, OnMemberReady(f.members[m])) else f
    case ToMember(LeaderChanged(le)) =>
      if le.member in f.members then WithMember(f, le.member, OnMemberLed(f.members[le.member], f.store, le)) else f
    case ToMember(SnapshotTaken(m, index)) => if m in f.members then WithMember(f, m, OnSnapshot(f.members[m], index)) else f
    case ToGroup(MemberIsReady(m)) => f.(status := OnReady(f.status, MemberName(f.store, f.group, m)))
    case ToGroup(LeaderChanged(le)) => f.(status := OnLed(f.status, le.term, LeaderName(f.store, le.group, le.leader)))
    case ToGroup(SnapshotTaken(_, _)) => f
  }

  function AfterWrites(f: Fleet, ws: seq<Write>): Fleet {
    if ws == [] then f else OnWrite(AfterWrites(f, ws[..|ws| - 1]), ws[|ws| - 1])
  }

  /** Nothing has been heard of the group. */
  predicate Fresh(f: Fleet) {
    f.status == NO_STATUS && forall m :: m in f.members ==> f.members[m] == NEW_MEMBER
  }

  /** The leader events are of this group, and each term has the one leader `leaderOf`
      says (Election Safety). */
  predicate Genuine(f: Fleet, leaderOf: uint64 -> uint32, w: Write) {
    !w.MemberCreated? && w.e.LeaderChanged? ==>
      w.e.e.group == f.group && (w.e.e.leader != 0 ==> w.e.e.leader == leaderOf(w.e.e.term))
  }

  // ----- what a status says of the events it has heard

  /** The leader events written to the group. */
  function GroupHeard(ws: seq<Write>): set<LeaderEvent> {
    if ws == [] then {}
    else
      GroupHeard(ws[..|ws| - 1]) +
      match ws[|ws| - 1] { case ToGroup(LeaderChanged(le)) => {le} case _ => {} }
  }

  predicate HasResource(f: Fleet, ws: seq<Write>, m: uint32) {
    m in f.members || MemberCreated(m) in ws
  }

  /** The leader events written to members that had a resource by then. */
  function Recorded(f: Fleet, ws: seq<Write>): set<LeaderEvent> {
    if ws == [] then {}
    else
      var init := ws[..|ws| - 1];
      Recorded(f, init) +
      match ws[|ws| - 1]
      case ToMember(LeaderChanged(le)) => if HasResource(f, init, le.member) then {le} else {}
      case _ => {}
  }

  function MemberHeard(f: Fleet, ws: seq<Write>, m: uint32): set<LeaderEvent> {
    set le | le in Recorded(f, ws) && le.member == m
  }

  /** The greatest term of the events, and its leader if any event of that term names one. */
  ghost predicate Newest(les: set<LeaderEvent>, store: string, term: Option<uint64>, leader: Option<string>) {
    && (forall le :: le in les ==> term.Some? && le.term <= term.value)
    && (term.Some? ==> exists le :: le in les && le.term == term.value)
    && (leader.Some? ==>
          term.Some? && exists le :: le in les && le.term == term.value && le.leader != 0
                                     && leader == LeaderName(store, le.group, le.leader))
    && (leader.None? ==> forall le :: le in les && Some(le.term) == term ==> le.leader == 0)
  }

  lemma NewestStep(les: set<LeaderEvent>, store: string, term: Option<uint64>, leader: Option<string>, le: LeaderEvent)
    requires Newest(les, store, term, leader)
    ensures var name := LeaderName(store, le.group, le.leader);
            if Supersedes(term, leader, le.term, name) then Newest(les + {le}, store, Some(le.term), name)
            else Newest(les + {le}, store, term, leader)
  {
    hide MemberName;
    var name := LeaderName(store, le.group, le.leader);
    var all := les + {le};
    assert le in all;
    if !Supersedes(term, leader, le.term, name) {
      var x :| x in les && x.term == term.value;
      assert x in all;
      if leader.Some? {
        var y :| y in les && y.term == term.value && y.leader != 0 && leader == LeaderName(store, y.group, y.leader);
        assert y in all;
      }
    }
  }

  /** The members that exist; and every status, a member's or the group's, says the
      newest of what it has heard. */
  ghost predicate AllNewest(f: Fleet, ws: seq<Write>, g: Fleet) {
    && g.store == f.store && g.group == f.group
    && (forall m :: m in g.members <==> HasResource(f, ws, m))
    && Newest(GroupHeard(ws), f.store, g.status.term, g.status.leader)
    && (forall m :: m in g.members ==> Newest(MemberHeard(f, ws, m), f.store, g.members[m].term, g.members[m].leader))
  }

  lemma {:induction false} StatusIsNewest(f: Fleet, ws: seq<Write>)
    requires Fresh(f)
    ensures AllNewest(f, ws, AfterWrites(f, ws))
    decreases |ws|
  {
    hide MemberName, OnWrite;
    if ws != [] {
      var init, last := ws[..|ws| - 1], ws[|ws| - 1];
      StatusIsNewest(f, init);
      assert ws == init + [last];
      WriteNewest(f, init, AfterWrites(f, init), last);
    }
  }

  lemma WriteNewest(f: Fleet, ws: seq<Write>, g: Fleet, w: Write)
    requires AllNewest(f, ws, g)
    ensures AllNewest(f, ws + [w], OnWrite(g, w))
  {
    hide MemberName, AllNewest, OnWrite;
    match w
    case ToGroup(LeaderChanged(le)) => ToGroupNewest(f, ws, g, le);
    case ToMember(LeaderChanged(le)) => ToMemberNewest(f, ws, g, le);
    case MemberCreated(m) => CreatedNewest(f, ws, g, m);
    case _ => OtherNewest(f, ws, g, w);
  }

  /** What one more write adds to what has been heard. */
  lemma HeardStep(f: Fleet, ws: seq<Write>, w: Write)
    ensures GroupHeard(ws + [w]) ==
            if w.ToGroup? && w.e.LeaderChanged? then GroupHeard(ws) + {w.e.e} else GroupHeard(ws)
    ensures forall m :: MemberHeard(f, ws + [w], m) ==
                        if w.ToMember? && w.e.LeaderChanged? && w.e.e.member == m && HasResource(f, ws, m)
                        then MemberHeard(f, ws, m) + {w.e.e} else MemberHeard(f, ws, m)
    ensures forall m :: HasResource(f, ws + [w], m) <==> HasResource(f, ws, m) || w == MemberCreated(m)
  {
    assert (ws + [w])[..|ws|] == ws;
  }

  lemma ToGroupNewest(f: Fleet, ws: seq<Write>, g: Fleet, le: LeaderEvent)
    requires AllNewest(f, ws, g)
    ensures AllNewest(f, ws + [ToGroup(LeaderChanged(le))], OnWrite(g, ToGroup(LeaderChanged(le))))
  {
    hide MemberName, Newest, GroupHeard, MemberHeard, HasResource, LeaderName;
    HeardStep(f, ws, ToGroup(LeaderChanged(le)));
    NewestStep(GroupHeard(ws), f.store, g.status.term, g.status.leader, le);
  }

  lemma ToMemberNewest(f: Fleet, ws: seq<Write>, g: Fleet, le: LeaderEvent)
    requires AllNewest(f, ws, g)
    ensures AllNewest(f, ws + [ToMember(LeaderChanged(le))], OnWrite(g, ToMember(LeaderChanged(le))))
  {
    hide MemberName, Newest, GroupHeard, MemberHeard, HasResource, LeaderName;
    HeardStep(f, ws, ToMember(LeaderChanged(le)));
    if le.member in g.members {
      var v := g.members[le.member];
      NewestStep(MemberHeard(f, ws, le.member), f.store, v.term, v.leader, le);
    }
  }

  lemma CreatedNewest(f: Fleet, ws: seq<Write>, g: Fleet, m: uint32)
    requires AllNewest(f, ws, g)
    ensures AllNewest(f, ws + [MemberCreated(m)], OnWrite(g, MemberCreated(m)))
  {
    hide MemberName, Newest, GroupHeard, MemberHeard, HasResource, LeaderName;
    HeardStep(f, ws, MemberCreated(m));
    if !HasResource(f, ws, m) {
      NewMemberNewest(f, ws, m);
    }
  }

  lemma NewMemberNewest(f: Fleet, ws: seq<Write>, m: uint32)
    requires !HasResource(f, ws, m)
    ensures Newest(MemberHeard(f, ws, m), f.store, NEW_MEMBER.term, NEW_MEMBER.leader)
  {
    NothingRecorded(f, ws, m);
    assert MemberHeard(f, ws, m) == {};
  }

  lemma OtherNewest(f: Fleet, ws: seq<Write>, g: Fleet, w: Write)
    requires AllNewest(f, ws, g) && !w.MemberCreated? && !w.e.LeaderChanged?
    ensures AllNewest(f, ws + [w], OnWrite(g, w))
  {
    hide MemberName, Newest, GroupHeard, MemberHeard, HasResource, LeaderName;
    HeardStep(f, ws, w);
  }

  lemma {:induction false} NothingRecorded(f: Fleet, ws: seq<Write>, m: uint32)
    requires !HasResource(f, ws, m)
    ensures forall le :: le in Recorded(f, ws) ==> le.member != m
    decreases |ws|
  {
    if ws != [] {
      var init := ws[..|ws| - 1];
      NothingRecorded(f, init, m);
      assert forall x :: x in init ==> x in ws;
    }
  }

  lemma {:induction false} HeardIsWritten(f: Fleet, ws: seq<Write>)
    ensures forall le :: le in GroupHeard(ws) <==> ToGroup(LeaderChanged(le)) in ws
    ensures forall le :: le in Recorded(f, ws) ==> ToMember(LeaderChanged(le)) in ws
    decreases |ws|
  {
    if ws != [] {
      var init, last := ws[..|ws| - 1], ws[|ws| - 1];
      HeardIsWritten(f, init);
      assert ws == init + [last];
    }
  }

  // ----- roles and leaders, in every run

  /** A recorded leader is the leader of the recorded term. */
  predicate LeaderIsReal(f: Fleet, leaderOf: uint64 -> uint32, term: Option<uint64>, leader: Option<string>) {
    leader.Some? ==> term.Some? && leader == Some(MemberName(f.store, f.group, leaderOf(term.value)))
  }

  /** A member's role is Leader exactly when the leader it records is itself. */
  predicate RolesRight(f: Fleet) {
    forall m :: m in f.members ==>
      (f.members[m].role == Some(Leader) <==> f.members[m].leader == Some(MemberName(f.store, f.group, m)))
  }

  lemma WriteKeepsRoles(f: Fleet, leaderOf: uint64 -> uint32, w: Write)
    requires RolesRight(f) && Genuine(f, leaderOf, w)
    ensures RolesRight(OnWrite(f, w))
  {
    hide MemberName;
    match w
    case ToMember(LeaderChanged(le)) =>
      if le.leader != le.member && MemberName(f.store, f.group, le.leader) == MemberName(f.store, f.group, le.member) {
        MemberNameInjective(f.store, f.group, le.leader, f.store, f.group, le.member);
        assert false;
      }
    case _ =>
  }

  /** Every write of every event is genuine. */
  predicate AllGenuine(f: Fleet, leaderOf: uint64 -> uint32, ws: seq<Write>) {
    forall k :: 0 <= k < |ws| ==> Genuine(f, leaderOf, ws[k])
  }

  /** In every run of writes in any interleaving, finished or not, of members with
      resources or without: roles are right, and every recorded leader, a member's or
      the group's, is the leader of the recorded term. */
  lemma {:induction false} FleetRun(f: Fleet, leaderOf: uint64 -> uint32, ws: seq<Write>)
    requires Fresh(f) && AllGenuine(f, leaderOf, ws)
    ensures var g := AfterWrites(f, ws);
            && g.store == f.store && g.group == f.group && RolesRight(g)
            && LeaderIsReal(g, leaderOf, g.status.term, g.status.leader)
            && (forall m :: m in g.members ==> LeaderIsReal(g, leaderOf, g.members[m].term, g.members[m].leader))
    decreases |ws|
  {
    hide MemberName, OnWrite;
    StatusIsNewest(f, ws);
    HeardIsWritten(f, ws);
    var g := AfterWrites(f, ws);
    NewestIsReal(f, leaderOf, ws, GroupHeard(ws), g.status.term, g.status.leader);
    forall m | m in g.members
      ensures LeaderIsReal(g, leaderOf, g.members[m].term, g.members[m].leader)
    {
      NewestIsReal(f, leaderOf, ws, MemberHeard(f, ws, m), g.members[m].term, g.members[m].leader);
    }
    if ws != [] {
      FleetRun(f, leaderOf, ws[..|ws| - 1]);
      WriteKeepsRoles(AfterWrites(f, ws[..|ws| - 1]), leaderOf, ws[|ws| - 1]);
    }
  }

  lemma NewestIsReal(f: Fleet, leaderOf: uint64 -> uint32, ws: seq<Write>,
                     les: set<LeaderEvent>, term: Option<uint64>, leader: Option<string>)
    requires AllGenuine(f, leaderOf, ws) && Newest(les, f.store, term, leader)
    requires forall le :: le in les ==> ToGroup(LeaderChanged(le)) in ws || ToMember(LeaderChanged(le)) in ws
    ensures LeaderIsReal(f, leaderOf, term, leader)
  {
    hide MemberName;
    if leader.Some? {
      var le :| le in les && le.term == term.value && le.leader != 0 && leader == LeaderName(f.store, le.group, le.leader);
      var w := if ToGroup(LeaderChanged(le)) in ws then ToGroup(LeaderChanged(le)) else ToMember(LeaderChanged(le));
      var k :| 0 <= k < |ws| && ws[k] == w;
      assert Genuine(f, leaderOf, ws[k]);
    }
  }

  /** At most one member holds the role Leader for any one term. */
  lemma OneLeaderRole(f: Fleet, leaderOf: uint64 -> uint32, ws: seq<Write>, m: uint32, n: uint32)
    requires Fresh(f) && AllGenuine(f, leaderOf, ws)
    requires m in AfterWrites(f, ws).members && n in AfterWrites(f, ws).members
    ensures var g := AfterWrites(f, ws);
            g.members[m].role == g.members[n].role == Some(Leader) && g.members[m].term == g.members[n].term ==> m == n
  {
    hide MemberName, AfterWrites;
    FleetRun(f, leaderOf, ws);
    var g := AfterWrites(f, ws);
    if g.members[m].role == g.members[n].role == Some(Leader) && g.members[m].term == g.members[n].term {
      var l := leaderOf(g.members[m].term.value);
      assert g.members[m].leader == g.members[n].leader == Some(MemberName(f.store, f.group, l));
      MemberNameInjective(f.store, f.group, m, f.store, f.group, n);
    }
  }

  // ----- the group as the join of its members

  /** Every leader event that was written to its member was written to the group, and
      the other way round. */
  ghost predicate Completed(ws: seq<Write>) {
    forall le :: ToMember(LeaderChanged(le)) in ws <==> ToGroup(LeaderChanged(le)) in ws
  }

  /** No member is ahead of the group, and one that is level with it and knows a leader
      knows the group's. */
  ghost predicate GroupIsAhead(f: Fleet) {
    var t, l := f.status.term, f.status.leader;
    && (forall m :: m in f.members && f.members[m].term.Some? ==> t.Some? && f.members[m].term.value <= t.value)
    && (forall m :: m in f.members && t.Some? && f.members[m].term == t && f.members[m].leader.Some? ==> f.members[m].leader == l)
  }

  /** The group's term is the greatest of its members' terms, and its leader the one
      that some member of that term records. */
  ghost predicate GroupIsJoin(f: Fleet) {
    var t, l := f.status.term, f.status.leader;
    && GroupIsAhead(f)
    && (t.Some? ==> exists m :: m in f.members && f.members[m].term == t)
    && (l.Some? ==> exists m :: m in f.members && f.members[m].term == t && f.members[m].leader == l)
  }

  /** No leader event is of a greater term. */
  ghost predicate IsTop(ws: seq<Write>, le: LeaderEvent) {
    forall x :: ToGroup(LeaderChanged(x)) in ws ==> x.term <= le.term
  }

  /** Some event of the greatest term was recorded by a member that had a resource; and
      so was one that names the leader of that term, if any event does. */
  ghost predicate TopsRecorded(f: Fleet, ws: seq<Write>) {
    && ((exists le :: ToGroup(LeaderChanged(le)) in ws) ==> exists le :: le in Recorded(f, ws) && IsTop(ws, le))
    && ((exists le :: ToGroup(LeaderChanged(le)) in ws && IsTop(ws, le) && le.leader != 0) ==>
          exists le :: le in Recorded(f, ws) && IsTop(ws, le) && le.leader != 0)
  }

  /** Once every event is written to both, whether or not its member had a resource, no
      member is ahead of the group. */
  lemma GroupLeadsMembers(f: Fleet, leaderOf: uint64 -> uint32, ws: seq<Write>)
    requires Fresh(f) && AllGenuine(f, leaderOf, ws) && Completed(ws)
    ensures GroupIsAhead(AfterWrites(f, ws))
  {
    hide MemberName, AfterWrites;
    StatusIsNewest(f, ws);
    HeardIsWritten(f, ws);
    FleetRun(f, leaderOf, ws);
    var g := AfterWrites(f, ws);
    forall m | m in g.members && g.members[m].term.Some?
      ensures g.status.term.Some? && g.members[m].term.value <= g.status.term.value
      ensures g.members[m].term == g.status.term && g.members[m].leader.Some? ==> g.members[m].leader == g.status.leader
    {
      var le :| le in MemberHeard(f, ws, m) && le.term == g.members[m].term.value;
      assert le in GroupHeard(ws);
      if g.members[m].term == g.status.term && g.members[m].leader.Some? {
        var x :| x in MemberHeard(f, ws, m) && x.term == g.members[m].term.value && x.leader != 0;
        assert x in GroupHeard(ws);
      }
    }
  }

  /** And the group is the join of its members if and only if the newest events were
      recorded by members that had a resource. */
  lemma JoinExactly(f: Fleet, leaderOf: uint64 -> uint32, ws: seq<Write>)
    requires Fresh(f) && AllGenuine(f, leaderOf, ws) && Completed(ws)
    ensures GroupIsJoin(AfterWrites(f, ws)) <==> TopsRecorded(f, ws)
  {
    hide MemberName, AfterWrites;
    StatusIsNewest(f, ws);
    HeardIsWritten(f, ws);
    GroupLeadsMembers(f, leaderOf, ws);
    if GroupIsJoin(AfterWrites(f, ws)) {
      JoinRecords(f, ws);
    }
    if TopsRecorded(f, ws) {
      RecordsJoin(f, leaderOf, ws);
    }
  }

  lemma JoinRecords(f: Fleet, ws: seq<Write>)
    requires AllNewest(f, ws, AfterWrites(f, ws)) && GroupIsJoin(AfterWrites(f, ws))
    requires forall le :: le in GroupHeard(ws) <==> ToGroup(LeaderChanged(le)) in ws
    ensures TopsRecorded(f, ws)
  {
    hide MemberName, AfterWrites;
    var g := AfterWrites(f, ws);
    if le :| ToGroup(LeaderChanged(le)) in ws {
      assert le in GroupHeard(ws);
      var m :| m in g.members && g.members[m].term == g.status.term;
      var x :| x in MemberHeard(f, ws, m) && x.term == g.status.term.value;
      assert x in Recorded(f, ws) && IsTop(ws, x);
    }
    if le :| ToGroup(LeaderChanged(le)) in ws && IsTop(ws, le) && le.leader != 0 {
      assert le in GroupHeard(ws);
      var top :| top in GroupHeard(ws) && top.term == g.status.term.value;
      assert le.term == g.status.term.value && g.status.leader.Some?;
      var m :| m in g.members && g.members[m].term == g.status.term && g.members[m].leader == g.status.leader;
      var x :| x in MemberHeard(f, ws, m) && x.term == g.status.term.value && x.leader != 0;
      assert x in Recorded(f, ws) && IsTop(ws, x);
    }
  }

  lemma RecordsJoin(f: Fleet, leaderOf: uint64 -> uint32, ws: seq<Write>)
    requires Fresh(f) && AllGenuine(f, leaderOf, ws) && Completed(ws) && TopsRecorded(f, ws)
    requires GroupIsAhead(AfterWrites(f, ws))
    ensures GroupIsJoin(AfterWrites(f, ws))
  {
    hide MemberName, AfterWrites, AllGenuine, MemberHeard;
    StatusIsNewest(f, ws);
    HeardIsWritten(f, ws);
    var g := AfterWrites(f, ws);
    if g.status.term.Some? {
      var top := GroupTop(f, ws);
      var x :| x in Recorded(f, ws) && IsTop(ws, x);
      RecorderIsLevel(f, ws, x);
    }
    if g.status.leader.Some? {
      var top := GroupTop(f, ws);
      assert ToGroup(LeaderChanged(top)) in ws && IsTop(ws, top);
      var x :| x in Recorded(f, ws) && IsTop(ws, x) && x.leader != 0;
      RecorderIsLevel(f, ws, x);
    }
  }

  /** The event that gave the group its term, and its leader if it has one. */
  lemma GroupTop(f: Fleet, ws: seq<Write>) returns (top: LeaderEvent)
    requires Fresh(f) && AfterWrites(f, ws).status.term.Some?
    ensures var v := AfterWrites(f, ws).status;
            top in GroupHeard(ws) && IsTop(ws, top) && top.term == v.term.value && (v.leader.Some? ==> top.leader != 0)
  {
    hide AfterWrites, MemberName;
    StatusIsNewest(f, ws);
    HeardIsWritten(f, ws);
    var v := AfterWrites(f, ws).status;
    if v.leader.Some? {
      top :| top in GroupHeard(ws) && top.term == v.term.value && top.leader != 0;
    } else {
      top :| top in GroupHeard(ws) && top.term == v.term.value;
    }
  }

  /** A member that recorded an event of the greatest term is level with the group. */
  lemma RecorderIsLevel(f: Fleet, ws: seq<Write>, x: LeaderEvent)
    requires Fresh(f) && Completed(ws) && x in Recorded(f, ws) && IsTop(ws, x)
    requires GroupIsAhead(AfterWrites(f, ws)) && AfterWrites(f, ws).status.term.Some?
    ensures var g := AfterWrites(f, ws);
            && x.member in g.members && g.members[x.member].term == g.status.term
            && (x.leader != 0 ==> g.members[x.member].leader.Some?)
  {
    hide AfterWrites, MemberName;
    StatusIsNewest(f, ws);
    HeardIsWritten(f, ws);
    RecorderExists(f, ws, x);
    var top := GroupTop(f, ws);
    assert x in MemberHeard(f, ws, x.member);
  }

  lemma {:induction false} RecorderExists(f: Fleet, ws: seq<Write>, le: LeaderEvent)
    requires le in Recorded(f, ws)
    ensures HasResource(f, ws, le.member)
  {
    if !HasResource(f, ws, le.member) {
      NothingRecorded(f, ws, le.member);
    }
  }

  /** When every member is created before anything is written to it, as the reconciler
      sees to by bootstrapping a node only after, the group is the join of its members. */
  lemma CreatedFirstJoins(f: Fleet, leaderOf: uint64 -> uint32, ws: seq<Write>)
    requires Fresh(f) && AllGenuine(f, leaderOf, ws) && Completed(ws)
    requires forall k :: 0 <= k < |ws| && ws[k].ToMember? && ws[k].e.LeaderChanged? ==> HasResource(f, ws[..k], ws[k].e.e.member)
    ensures GroupIsJoin(AfterWrites(f, ws))
  {
    hide AfterWrites;
    StatusIsNewest(f, ws);
    HeardIsWritten(f, ws);
    AllAreRecorded(f, ws);
    var g := AfterWrites(f, ws);
    if le :| ToGroup(LeaderChanged(le)) in ws {
      assert le in GroupHeard(ws);
      var x :| x in GroupHeard(ws) && x.term == g.status.term.value;
      assert x in Recorded(f, ws) && IsTop(ws, x);
    }
    JoinExactly(f, leaderOf, ws);
  }

  lemma {:induction false} AllAreRecorded(f: Fleet, ws: seq<Write>)
    requires forall k :: 0 <= k < |ws| && ws[k].ToMember? && ws[k].e.LeaderChanged? ==> HasResource(f, ws[..k], ws[k].e.e.member)
    ensures forall le :: ToMember(LeaderChanged(le)) in ws ==> le in Recorded(f, ws)
    decreases |ws|
  {
    if ws != [] {
      var init, last := ws[..|ws| - 1], ws[|ws| - 1];
      forall k | 0 <= k < |init| && init[k].ToMember? && init[k].e.LeaderChanged?
        ensures HasResource(f, init[..k], init[k].e.e.member)
      {
        assert init[..k] == ws[..k] && init[k] == ws[k];
      }
      AllAreRecorded(f, init);
      assert ws == init + [last] && ws[|ws| - 1] == last;
    }
  }

  /** The event of a member that has no resource reaches the group alone. */
  lemma UnrecordedLeader(store: string, group: uint32, leaderOf: uint64 -> uint32)
    requires leaderOf(1) == 1
    ensures var f := Fleet(store, group, map[], NO_STATUS);
            var e := LeaderChanged(LeaderEvent(group, 1, 1, 1));
            var ws := [ToMember(e), ToGroup(e)];
            && Fresh(f) && AllGenuine(f, leaderOf, ws) && Completed(ws)
            && AfterWrites(f, ws).status.term == Some(1) && !GroupIsJoin(AfterWrites(f, ws))
  {
    hide MemberName;
    var f := Fleet(store, group, map[], NO_STATUS);
    var e := LeaderChanged(LeaderEvent(group, 1, 1, 1));
    var ws := [ToMember(e), ToGroup(e)];
    assert ws[..1] == [ToMember(e)] && ws[..1][..0] == [];
    assert AfterWrites(f, ws[..1]) == f;
    assert AfterWrites(f, ws) == OnWrite(f, ToGroup(e));
  }

  // ----- snapshots

  /** The positive snapshot indexes written to member `m` since it has a resource. */
  function Snapshots(f: Fleet, ws: seq<Write>, m: uint32): set<uint64> {
    if ws == [] then {}
    else
      var init := ws[..|ws| - 1];
      Snapshots(f, init, m) +
      match ws[|ws| - 1]
      case ToMember(SnapshotTaken(n, index)) => if n == m && index > 0 && HasResource(f, init, m) then {index} else {}
      case _ => {}
  }

  ghost predicate IsGreatest(s: set<uint64>, last: Option<uint64>) {
    if s == {} then last == None
    else last.Some? && last.value in s && forall x :: x in s ==> x <= last.value
  }

  lemma {:induction false} LastSnapshotIsGreatest(f: Fleet, ws: seq<Write>, m: uint32)
    requires Fresh(f)
    ensures var g := AfterWrites(f, ws);
            && (m in g.members <==> HasResource(f, ws, m))
            && (m !in g.members ==> Snapshots(f, ws, m) == {})
            && (m in g.members ==> IsGreatest(Snapshots(f, ws, m), g.members[m].lastSnapshotIndex))
    decreases |ws|
  {
    hide MemberName, OnReady, OnLed;
    if ws != [] {
      var init, last := ws[..|ws| - 1], ws[|ws| - 1];
      LastSnapshotIsGreatest(f, init, m);
      assert ws == init + [last];
    }
  }

  // ----- states and roles

  /** Member `m` reported itself ready when it had a resource to record it. */
  predicate ReportedReady(f: Fleet, ws: seq<Write>, m: uint32) {
    exists k :: 0 <= k < |ws| && ws[k] == ToMember(MemberIsReady(m)) && HasResource(f, ws[..k], m)
  }

  lemma ReportedReadyStep(f: Fleet, ws: seq<Write>, w: Write, m: uint32)
    ensures ReportedReady(f, ws + [w], m) <==>
            ReportedReady(f, ws, m) || (w == ToMember(MemberIsReady(m)) && HasResource(f, ws, m))
  {
    var all := ws + [w];
    assert all[..|ws|] == ws && all[|ws|] == w;
    forall k | 0 <= k < |ws|
      ensures all[k] == ws[k] && all[..k] == ws[..k]
    {}
    if ReportedReady(f, ws, m) {
      var k :| 0 <= k < |ws| && ws[k] == ToMember(MemberIsReady(m)) && HasResource(f, ws[..k], m);
      assert all[k] == ws[k];
    }
    if ReportedReady(f, all, m) {
      var k :| 0 <= k < |all| && all[k] == ToMember(MemberIsReady(m)) && HasResource(f, all[..k], m);
      assert k < |ws| ==> ws[k] == all[k];
    }
  }

  /** Along every run of writes: a member's state is Ready if and only if it reported
      itself ready since it has a resource, and is not set otherwise; and it has a role
      if and only if it has been told a term. */
  lemma {:induction false} ReadyExactly(f: Fleet, ws: seq<Write>, m: uint32)
    requires Fresh(f)
    ensures var g := AfterWrites(f, ws);
            && (m in g.members <==> HasResource(f, ws, m))
            && (m in g.members ==>
                  && g.members[m].state == (if ReportedReady(f, ws, m) then ResourceState.Ready else Unset)
                  && (g.members[m].role.Some? <==> g.members[m].term.Some?))
            && (m !in g.members ==> !ReportedReady(f, ws, m))
    decreases |ws|
  {
    hide MemberName, OnReady, OnLed, LeaderName;
    if ws != [] {
      var init, last := ws[..|ws| - 1], ws[|ws| - 1];
      ReadyExactly(f, init, m);
      assert ws == init + [last];
      ReportedReadyStep(f, init, last, m);
      hide ReportedReady;
    }
  }

  // ----- the group's status is the reducer's

  /** The events written to the group, in the words of its reducer. */
  function GroupEvents(f: Fleet, ws: seq<Write>): seq<GroupEvent> {
    if ws == [] then []
    else
      GroupEvents(f, ws[..|ws| - 1]) +
      match ws[|ws| - 1]
      case ToGroup(MemberIsReady(m)) => [GroupEvent.Ready(MemberName(f.store, f.group, m))]
      case ToGroup(LeaderChanged(le)) => [Led(le.term, LeaderName(f.store, le.group, le.leader))]
      case _ => []
  }

  /** Along every run of writes the group's status is the fold of its events, so all that
      is proved of the reducer holds of it. */
  lemma {:induction false} StatusIsFold(f: Fleet, ws: seq<Write>)
    requires f.status == NO_STATUS
    ensures var g := AfterWrites(f, ws);
            g.store == f.store && g.group == f.group && g.status == GroupFold(NO_STATUS, GroupEvents(f, ws))
    decreases |ws|
  {
    hide MemberName, OnReady, OnLed, LeaderName, GroupFold;
    NoEventsFold();
    if ws != [] {
      StatusIsFold(f, ws[..|ws| - 1]);
      var es := GroupEvents(f, ws[..|ws| - 1]);
      match ws[|ws| - 1]
      case ToGroup(MemberIsReady(m)) => FoldLast(es, GroupEvent.Ready(MemberName(f.store, f.group, m)));
      case ToGroup(LeaderChanged(le)) => FoldLast(es, Led(le.term, LeaderName(f.store, le.group, le.leader)));
      case _ => assert es + [] == es;
    }
  }

  lemma NoEventsFold()
    ensures GroupFold(NO_STATUS, []) == NO_STATUS
  {}

  lemma FoldLast(es: seq<GroupEvent>, e: GroupEvent)
    ensures GroupFold(NO_STATUS, es + [e]) == OnGroupEvent(GroupFold(NO_STATUS, es), e)
  {
    hide OnGroupEvent;
    assert (es + [e])[..|es + [e]| - 1] == es;
  }

  /** Every member whose readiness was written to the group is known to it. */
  lemma ReportedIsKnown(f: Fleet, ws: seq<Write>, m: uint32)
    requires f.status == NO_STATUS && ToGroup(MemberIsReady(m)) in ws
    ensures MemberName(f.store, f.group, m) in Known(AfterWrites(f, ws).status)
  {
    hide MemberName, Known, GroupFold;
    StatusIsFold(f, ws);
    ReadyIsWritten(f, ws, m);
    KnownBounds(GroupEvents(f, ws));
  }

  lemma {:induction false} ReadyIsWritten(f: Fleet, ws: seq<Write>, m: uint32)
    requires ToGroup(MemberIsReady(m)) in ws
    ensures GroupEvent.Ready(MemberName(f.store, f.group, m)) in GroupEvents(f, ws)
    decreases |ws|
  {
    hide MemberName;
    var init, last := ws[..|ws| - 1], ws[|ws| - 1];
    assert ws == init + [last];
    if last != ToGroup(MemberIsReady(m)) {
      ReadyIsWritten(f, init, m);
    }
  }
}
