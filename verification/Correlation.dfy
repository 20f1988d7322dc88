/**
  A Raft group as a system of steps, and the theorem that a client's stream only
  ever receives the output of the client's own proposal.

  Every start of a member's state machine creates a new context and partition: an
  incarnation.  A call to `Propose` runs in four steps that interleave with
  everything else: it reads the leader, takes a number, registers its stream, and
  submits its proposal.  An incarnation that has been replaced may still be in the
  middle of calls, and may begin new ones.  Raft is the environment.  It decides
  what is committed (a submitted proposal may be committed never, once or more
  often) and which leader each member is told of, under two assumptions that are
  the guard of the step `LeaderUpdated`:
    Election Safety: a term has at most one leader (section 5.2 and Figure 3 of
      the extended Raft paper, "In Search of an Understandable Consensus
      Algorithm");
    a restarted member does not lead a term an earlier incarnation of it led.

  `issued`, `ledTerms`, `elected`, `closed`, `delivered` and the `call` of an entry
  are history: no step that models the program looks at them.
 */
module Correlation {
  import opened Bits
  import opened Varint
  import opened Messages
  import opened Context
  import opened Options

  /** How far a call has come; a ticket is the count of numbers the context had issued. */
  datatype Stage = Begun | Numbered(ticket: nat) | Registered(ticket: nat) | Submitted(ticket: nat)

  datatype Call = Call(inc: nat, input: seq<byte>, term: uint64, stage: Stage) {
    predicate HasNumber() { !stage.Begun? }

    function Number(): uint64
      requires HasNumber()
    {
      stage.ticket % TWO_64
    }

    predicate HasStream() { stage.Registered? || stage.Submitted? }

    function Key(): StreamID
      requires HasNumber()
    {
      StreamID(term, Number())
    }

    function Proposal(): RaftProposal
      requires HasNumber()
    {
      RaftProposal(term, Number(), input)
    }
  }

  datatype Incarnation = Incarnation(
    member: uint32, view: PartitionView, context: Registry<nat>, applied: nat, issued: nat, ledTerms: set<uint64>)

  datatype Entry = Entry(bytes: seq<byte>, call: nat)

  /** At incarnation `inc`, the entry made by `call` was applied with this input and stream. */
  datatype Delivery = Delivery(inc: nat, call: nat, input: seq<byte>, stream: Option<nat>)

  datatype System = System(
    incs: seq<Incarnation>,
    current: map<uint32, nat>,
    calls: seq<Call>,
    log: seq<Entry>,
    elected: map<uint64, uint32>,
    closed: set<nat>,
    delivered: seq<Delivery>)

  const INITIAL := System([], map[], [], [], map[], {}, [])

  datatype Action =
    | Start(member: uint32, from: nat)
    | LeaderUpdated(member: uint32, term: uint64, leader: uint32)
    | Begin(inc: nat, input: seq<byte>)
    | TakeNumber(call: nat)
    | Register(call: nat)
    | Submit(call: nat)
    | Commit(call: nat)
    | Apply(inc: nat, parses: seq<byte> -> bool)
    | Close(call: nat)

  // ----- the steps

  /** The environment's assumption on telling `member` that `leader` leads `term`. */
  predicate LeaderAllowed(s: System, member: uint32, term: uint64, leader: uint32)
    requires member in s.current
  {
    && (leader != 0 && term in s.elected ==> s.elected[term] == leader)
    && (leader == member ==>
          forall j :: 0 <= j < |s.incs| && s.incs[j].member == member && term in s.incs[j].ledTerms ==>
            s.current[member] == j)
  }

  predicate Enabled(s: System, a: Action)
    requires InRange(s)
  {
    match a
    case Start(member, from) => member != 0 && from <= |s.log|
    case LeaderUpdated(member, term, leader) =>
      member in s.current && LeaderAllowed(s, member, term, leader)
    case Begin(inc, input) =>
      inc < |s.incs| && s.incs[inc].view.leader == s.incs[inc].member && Fits(input)
    case TakeNumber(call) => call < |s.calls| && s.calls[call].stage.Begun?
    case Register(call) => call < |s.calls| && s.calls[call].stage.Numbered?
    case Submit(call) => call < |s.calls| && s.calls[call].stage.Registered?
    case Commit(call) => call < |s.calls| && s.calls[call].stage.Submitted?
    case Apply(inc, _) => inc < |s.incs| && s.incs[inc].applied < |s.log|
    case Close(call) => call < |s.calls| && s.calls[call].HasStream()
  }

  /** Every reference points somewhere. */
  predicate InRange(s: System) {
    && (forall m :: m in s.current ==> s.current[m] < |s.incs| && s.incs[s.current[m]].member == m)
    && (forall c :: 0 <= c < |s.calls| ==> s.calls[c].inc < |s.incs|)
    && (forall e :: 0 <= e < |s.log| ==> s.log[e].call < |s.calls|)
  }

  function WithInc(s: System, i: nat, inc: Incarnation): System
    requires i < |s.incs|
  {
    s.(incs := s.incs[i := inc])
  }

  function WithContext(s: System, i: nat, context: Registry<nat>): System
    requires i < |s.incs|
  {
    WithInc(s, i, s.incs[i].(context := context))
  }

  function WithStage(s: System, c: nat, stage: Stage): System
    requires c < |s.calls|
  {
    s.(calls := s.calls[c := s.calls[c].(stage := stage)])
  }

  function Next(s: System, a: Action): System
    requires InRange(s) && Enabled(s, a)
  {
    match a
    case Start(member, from) =>
      var inc := Incarnation(member, PartitionView(false, 0, 0), Registry(map[], 0), from, 0, {});
      s.(incs := s.incs + [inc], current := s.current[member := |s.incs|])
    case LeaderUpdated(member, term, leader) =>
      var i := s.current[member];
      var inc := s.incs[i];
      var led := if leader == member then {term} else {};
      var s1 := WithInc(s, i, inc.(view := inc.view.WithLeader(term, leader), ledTerms := inc.ledTerms + led));
      if leader == 0 then s1 else s1.(elected := s.elected[term := leader])
    case Begin(inc, input) =>
      s.(calls := s.calls + [Call(inc, input, s.incs[inc].view.term, Begun)])
    case TakeNumber(call) =>
      var i := s.calls[call].inc;
      var inc := s.incs[i];
      WithStage(WithInc(s, i, inc.(context := inc.context.Numbered(), issued := inc.issued + 1)),
                call, Stage.Numbered(inc.issued + 1))
    case Register(call) =>
      var c := s.calls[call];
      WithStage(WithContext(s, c.inc, s.incs[c.inc].context.Added(c.Key(), call)),
                call, Registered(c.stage.ticket))
    case Submit(call) => WithStage(s, call, Submitted(s.calls[call].stage.ticket))
    case Commit(call) => s.(log := s.log + [Entry(RaftProposalBytes(s.calls[call].Proposal()), call)])
    case Apply(i, parses) =>
      var inc := s.incs[i];
      var entry := s.log[inc.applied];
      var outcome := Applied(inc.context, parses, entry.bytes);
      var s1 := WithInc(s, i, inc.(applied := inc.applied + 1));
      if outcome.None? then s1
      else s1.(delivered := s.delivered + [Delivery(i, entry.call, outcome.value.0, outcome.value.1)])
    case Close(call) =>
      var c := s.calls[call];
      WithContext(s, c.inc, s.incs[c.inc].context.Removed(c.Key())).(closed := s.closed + {call})
  }

  // ----- what every run keeps, however far the counters go

  /** A member takes itself for the leader only of a term it was told it leads, and
      that term is its own. */
  predicate LeadersKnown(s: System) {
    forall i :: 0 <= i < |s.incs| ==>
      var inc := s.incs[i];
      && inc.member != 0
      && (inc.view.leader == inc.member ==> inc.view.term in inc.ledTerms)
      && (forall t :: t in inc.ledTerms ==> t in s.elected && s.elected[t] == inc.member)
  }

  /** A term is led by one incarnation at most. */
  predicate TermsDisjoint(s: System) {
    forall i, j, t :: 0 <= i < |s.incs| && 0 <= j < |s.incs| && t in s.incs[i].ledTerms && t in s.incs[j].ledTerms ==>
      i == j
  }

  /** A call carries a term its incarnation led, and a ticket its context issued. */
  predicate CallsIssued(s: System)
    requires InRange(s)
  {
    && (forall i :: 0 <= i < |s.incs| ==> s.incs[i].context.sequenceNum == s.incs[i].issued % TWO_64)
    && (forall c :: 0 <= c < |s.calls| ==>
          var call := s.calls[c];
          && call.term in s.incs[call.inc].ledTerms
          && Fits(call.input)
          && (call.HasNumber() ==> 1 <= call.stage.ticket <= s.incs[call.inc].issued))
  }

  predicate SameTicket(x: Call, y: Call) {
    x.HasNumber() && y.HasNumber() && x.inc == y.inc && x.stage.ticket == y.stage.ticket
  }

  predicate TicketsDistinct(s: System) {
    forall c, d :: 0 <= c < |s.calls| && 0 <= d < |s.calls| && SameTicket(s.calls[c], s.calls[d]) ==> c == d
  }

  /** An entry of the log is the proposal of the call that made it. */
  predicate LogHonest(s: System)
    requires InRange(s)
  {
    forall e :: 0 <= e < |s.log| ==>
      var call := s.calls[s.log[e].call];
      call.stage.Submitted? && s.log[e].bytes == RaftProposalBytes(call.Proposal())
  }

  /** Whatever is registered is the open stream of a call of this incarnation, under
      the call's own key. */
  predicate RegistrySound(s: System)
    requires InRange(s)
  {
    && (forall i, id :: 0 <= i < |s.incs| && id in s.incs[i].context.streams ==>
          var c := s.incs[i].context.streams[id];
          c < |s.calls| && s.calls[c].inc == i && s.calls[c].HasStream() && s.calls[c].Key() == id && c !in s.closed)
    && (forall c :: c in s.closed ==> c < |s.calls| && s.calls[c].HasStream())
  }

  /** What was applied is the input of the call that made the entry; and a stream that
      was found is that of a call with the same key, at the same incarnation. */
  predicate DeliveredKeyed(s: System) {
    forall d :: 0 <= d < |s.delivered| ==>
      var x := s.delivered[d];
      && x.call < |s.calls| && x.input == s.calls[x.call].input && s.calls[x.call].HasNumber()
      && (x.stream.Some? ==>
            && x.stream.value < |s.calls| && s.calls[x.stream.value].HasNumber()
            && s.calls[x.stream.value].inc == x.inc == s.calls[x.call].inc
            && s.calls[x.stream.value].Key() == s.calls[x.call].Key())
  }

  predicate Core(s: System) {
    && InRange(s) && LeadersKnown(s) && TermsDisjoint(s) && CallsIssued(s) && TicketsDistinct(s)
    && LogHonest(s) && RegistrySound(s) && DeliveredKeyed(s)
  }

  // ----- when keys are unique

  /** The later of two calls of one incarnation and term got the number the earlier
      one had already: the counter has gone round in between. */
  predicate Repeats(earlier: Call, later: Call) {
    && earlier.HasNumber() && later.HasNumber()
    && earlier.inc == later.inc && earlier.term == later.term
    && earlier.stage.ticket < later.stage.ticket
    && (later.stage.ticket - earlier.stage.ticket) % TWO_64 == 0
  }

  predicate NoRepeat(s: System) {
    forall c, d :: 0 <= c < |s.calls| && 0 <= d < |s.calls| ==> !Repeats(s.calls[c], s.calls[d])
  }

  lemma CongruentTickets(x: nat, gap: nat)
    ensures (x + gap) % TWO_64 == x % TWO_64 <==> gap % TWO_64 == 0
  {}

  /** Across all members, restarts and terms: two calls have the same key if and only
      if one repeats the number of the other. */
  lemma KeysSharedExactly(s: System, c: nat, d: nat)
    requires Core(s) && c < |s.calls| && d < |s.calls| && c != d
    requires s.calls[c].HasNumber() && s.calls[d].HasNumber()
    ensures s.calls[c].Key() == s.calls[d].Key() <==>
            Repeats(s.calls[c], s.calls[d]) || Repeats(s.calls[d], s.calls[c])
    ensures s.calls[c].Key() == s.calls[d].Key() ==> s.calls[c].inc == s.calls[d].inc
  {
    hide LeadersKnown, LogHonest, RegistrySound, DeliveredKeyed, StreamsFound, MissedRight, NoRepeat,
         RaftProposalBytes, Fits, Applied;
    var x, y := s.calls[c], s.calls[d];
    assert x.term in s.incs[x.inc].ledTerms && y.term in s.incs[y.inc].ledTerms;
    assert !SameTicket(x, y);
    if x.stage.ticket <= y.stage.ticket {
      CongruentTickets(x.stage.ticket, y.stage.ticket - x.stage.ticket);
    } else {
      CongruentTickets(y.stage.ticket, x.stage.ticket - y.stage.ticket);
    }
  }

  /** While no number repeats within a term, two calls that hold the same key are one. */
  lemma KeysUnique(s: System, c: nat, d: nat)
    requires Core(s) && NoRepeat(s)
    requires c < |s.calls| && d < |s.calls| && s.calls[c].HasNumber() && s.calls[d].HasNumber()
    requires s.calls[c].Key() == s.calls[d].Key()
    ensures c == d
  {
    hide Core;
    if c != d {
      KeysSharedExactly(s, c, d);
    }
  }

  /** A number can only repeat when its context has issued more than 2^64 of them. */
  lemma NoRepeatWithin(s: System)
    requires Core(s) && forall i :: 0 <= i < |s.incs| ==> s.incs[i].issued <= TWO_64
    ensures NoRepeat(s)
  {
    hide LeadersKnown, TermsDisjoint, TicketsDistinct, LogHonest, RegistrySound, DeliveredKeyed, StreamsFound,
         MissedRight, RaftProposalBytes, Fits, Applied;
    forall c, d | 0 <= c < |s.calls| && 0 <= d < |s.calls|
      ensures !Repeats(s.calls[c], s.calls[d])
    {
      if s.calls[c].HasNumber() && s.calls[d].HasNumber() {
        assert 1 <= s.calls[c].stage.ticket && s.calls[d].stage.ticket <= TWO_64;
      }
    }
  }

  /** Every call whose client is still there finds its own stream. */
  predicate StreamsFound(s: System)
    requires InRange(s)
  {
    forall c :: 0 <= c < |s.calls| && s.calls[c].HasStream() && c !in s.closed ==>
      s.incs[s.calls[c].inc].context.Lookup(s.calls[c].Key()) == Some(c)
  }

  /** No stream was found only elsewhere, or after the client had gone. */
  predicate MissedRight(s: System)
    requires InRange(s)
  {
    forall d :: 0 <= d < |s.delivered| && s.delivered[d].stream.None? ==>
      var x := s.delivered[d];
      x.call < |s.calls| && (s.calls[x.call].inc != x.inc || x.call in s.closed)
  }

  predicate Inv(s: System) {
    Core(s) && StreamsFound(s) && MissedRight(s)
  }

  // ----- every step keeps the core

  /** Calls stay as they are, but for the stage they have reached. */
  lemma CallsStay(s: System, a: Action)
    requires InRange(s) && Enabled(s, a)
    ensures var t := Next(s, a);
            && |s.calls| <= |t.calls| && |s.incs| <= |t.incs| && s.closed <= t.closed
            && (forall c :: 0 <= c < |s.calls| ==> Stays(s.calls[c], t.calls[c]))
            && (!a.Apply? ==> t.delivered == s.delivered)
  {
    hide RaftProposalBytes, Fits, Applied;
  }

  predicate Stays(x: Call, y: Call) {
    && y.inc == x.inc && y.input == x.input && y.term == x.term
    && (x.HasNumber() ==> y.HasNumber() && y.stage.ticket == x.stage.ticket)
    && (x.HasStream() ==> y.HasStream())
  }

  /** Past deliveries stay right. */
  lemma HistoryStays(s: System, a: Action)
    requires InRange(s) && DeliveredKeyed(s) && Enabled(s, a) && !a.Apply?
    ensures DeliveredKeyed(Next(s, a))
    ensures InRange(Next(s, a)) && MissedRight(s) ==> MissedRight(Next(s, a))
  {
    CallsStay(s, a);
    hide Next, Enabled, InRange;
    var t := Next(s, a);
    forall d | 0 <= d < |t.delivered|
      ensures var x := t.delivered[d]; x.call < |s.calls| && Stays(s.calls[x.call], t.calls[x.call])
      ensures var x := t.delivered[d];
              x.stream.Some? ==> x.stream.value < |s.calls| && Stays(s.calls[x.stream.value], t.calls[x.stream.value])
    {}
  }

  lemma StartKeepsTermsAndLog(s: System, a: Action)
    requires Core(s) && a.Start? && Enabled(s, a)
    ensures InRange(Next(s, a)) && LeadersKnown(Next(s, a)) && TermsDisjoint(Next(s, a)) && LogHonest(Next(s, a))
  {
    hide CallsIssued, TicketsDistinct, RegistrySound, DeliveredKeyed, StreamsFound, MissedRight, NoRepeat,
         RaftProposalBytes, Fits, Applied;
  }

  lemma StartKeepsCalls(s: System, a: Action)
    requires Core(s) && a.Start? && Enabled(s, a)
    ensures InRange(Next(s, a)) && CallsIssued(Next(s, a)) && TicketsDistinct(Next(s, a))
  {
    hide TermsDisjoint, LogHonest, RegistrySound, DeliveredKeyed, StreamsFound, MissedRight, NoRepeat,
         RaftProposalBytes, Fits, Applied;
  }

  lemma StartKeepsStreams(s: System, a: Action)
    requires Core(s) && a.Start? && Enabled(s, a)
    ensures InRange(Next(s, a)) && RegistrySound(Next(s, a))
    ensures StreamsFound(s) ==> StreamsFound(Next(s, a))
  {
    hide LeadersKnown, TermsDisjoint, CallsIssued, TicketsDistinct, LogHonest, DeliveredKeyed, MissedRight,
         NoRepeat, RaftProposalBytes, Fits, Applied;
  }

  lemma LeaderUpdatedKeepsTermsAndLog(s: System, a: Action)
    requires Core(s) && a.LeaderUpdated? && Enabled(s, a)
    ensures InRange(Next(s, a)) && LeadersKnown(Next(s, a)) && TermsDisjoint(Next(s, a)) && LogHonest(Next(s, a))
  {
    hide CallsIssued, TicketsDistinct, RegistrySound, DeliveredKeyed, StreamsFound, MissedRight, NoRepeat,
         RaftProposalBytes, Fits, Applied;
  }

  lemma LeaderUpdatedKeepsCalls(s: System, a: Action)
    requires Core(s) && a.LeaderUpdated? && Enabled(s, a)
    ensures InRange(Next(s, a)) && CallsIssued(Next(s, a)) && TicketsDistinct(Next(s, a))
  {
    hide TermsDisjoint, LogHonest, RegistrySound, DeliveredKeyed, StreamsFound, MissedRight, NoRepeat,
         RaftProposalBytes, Fits, Applied;
  }

  lemma LeaderUpdatedKeepsStreams(s: System, a: Action)
    requires Core(s) && a.LeaderUpdated? && Enabled(s, a)
    ensures InRange(Next(s, a)) && RegistrySound(Next(s, a))
    ensures StreamsFound(s) ==> StreamsFound(Next(s, a))
  {
    hide LeadersKnown, TermsDisjoint, CallsIssued, TicketsDistinct, LogHonest, DeliveredKeyed, MissedRight,
         NoRepeat, RaftProposalBytes, Fits, Applied;
  }

  lemma BeginKeepsTermsAndLog(s: System, a: Action)
    requires Core(s) && a.Begin? && Enabled(s, a)
    ensures InRange(Next(s, a)) && LeadersKnown(Next(s, a)) && TermsDisjoint(Next(s, a)) && LogHonest(Next(s, a))
  {
    hide CallsIssued, TicketsDistinct, RegistrySound, DeliveredKeyed, StreamsFound, MissedRight, NoRepeat,
         RaftProposalBytes, Fits, Applied;
  }

  lemma BeginKeepsCalls(s: System, a: Action)
    requires Core(s) && a.Begin? && Enabled(s, a)
    ensures InRange(Next(s, a)) && CallsIssued(Next(s, a)) && TicketsDistinct(Next(s, a))
  {
    hide TermsDisjoint, LogHonest, RegistrySound, DeliveredKeyed, StreamsFound, MissedRight, NoRepeat,
         RaftProposalBytes, Fits, Applied;
  }

  lemma BeginKeepsStreams(s: System, a: Action)
    requires Core(s) && a.Begin? && Enabled(s, a)
    ensures InRange(Next(s, a)) && RegistrySound(Next(s, a))
    ensures StreamsFound(s) ==> StreamsFound(Next(s, a))
  {
    hide LeadersKnown, TermsDisjoint, CallsIssued, TicketsDistinct, LogHonest, DeliveredKeyed, MissedRight,
         NoRepeat, RaftProposalBytes, Fits, Applied;
  }

  lemma TakeNumberKeepsTermsAndLog(s: System, a: Action)
    requires Core(s) && a.TakeNumber? && Enabled(s, a)
    ensures InRange(Next(s, a)) && LeadersKnown(Next(s, a)) && TermsDisjoint(Next(s, a)) && LogHonest(Next(s, a))
  {
    hide CallsIssued, TicketsDistinct, RegistrySound, DeliveredKeyed, StreamsFound, MissedRight, NoRepeat,
         RaftProposalBytes, Fits, Applied;
  }

  lemma TakeNumberKeepsCalls(s: System, a: Action)
    requires Core(s) && a.TakeNumber? && Enabled(s, a)
    ensures InRange(Next(s, a)) && CallsIssued(Next(s, a)) && TicketsDistinct(Next(s, a))
  {
    hide TermsDisjoint, LogHonest, RegistrySound, DeliveredKeyed, StreamsFound, MissedRight, NoRepeat,
         RaftProposalBytes, Fits, Applied;
  }

  lemma TakeNumberKeepsStreams(s: System, a: Action)
    requires Core(s) && a.TakeNumber? && Enabled(s, a)
    ensures InRange(Next(s, a)) && RegistrySound(Next(s, a))
    ensures StreamsFound(s) ==> StreamsFound(Next(s, a))
  {
    hide LeadersKnown, TermsDisjoint, CallsIssued, TicketsDistinct, LogHonest, DeliveredKeyed, MissedRight,
         NoRepeat, RaftProposalBytes, Fits, Applied;
    var t := Next(s, a);
    assert a.call !in s.closed || a.Submit?;
    assert forall d :: 0 <= d < |s.calls| && d != a.call ==> t.calls[d] == s.calls[d];
    assert t.incs[s.calls[a.call].inc].context.streams == s.incs[s.calls[a.call].inc].context.streams;
  }

  lemma RegisterKeepsTermsAndLog(s: System, a: Action)
    requires Core(s) && a.Register? && Enabled(s, a)
    ensures InRange(Next(s, a)) && LeadersKnown(Next(s, a)) && TermsDisjoint(Next(s, a)) && LogHonest(Next(s, a))
  {
    hide CallsIssued, TicketsDistinct, RegistrySound, DeliveredKeyed, StreamsFound, MissedRight, NoRepeat,
         RaftProposalBytes, Fits, Applied;
  }

  lemma RegisterKeepsCalls(s: System, a: Action)
    requires Core(s) && a.Register? && Enabled(s, a)
    ensures InRange(Next(s, a)) && CallsIssued(Next(s, a)) && TicketsDistinct(Next(s, a))
  {
    hide TermsDisjoint, LogHonest, RegistrySound, DeliveredKeyed, StreamsFound, MissedRight, NoRepeat,
         RaftProposalBytes, Fits, Applied;
  }

  lemma SubmitKeepsTermsAndLog(s: System, a: Action)
    requires Core(s) && a.Submit? && Enabled(s, a)
    ensures InRange(Next(s, a)) && LeadersKnown(Next(s, a)) && TermsDisjoint(Next(s, a)) && LogHonest(Next(s, a))
  {
    hide CallsIssued, TicketsDistinct, RegistrySound, DeliveredKeyed, StreamsFound, MissedRight, NoRepeat,
         RaftProposalBytes, Fits, Applied;
  }

  lemma SubmitKeepsCalls(s: System, a: Action)
    requires Core(s) && a.Submit? && Enabled(s, a)
    ensures InRange(Next(s, a)) && CallsIssued(Next(s, a)) && TicketsDistinct(Next(s, a))
  {
    hide TermsDisjoint, LogHonest, RegistrySound, DeliveredKeyed, StreamsFound, MissedRight, NoRepeat,
         RaftProposalBytes, Fits, Applied;
  }

  lemma SubmitKeepsStreams(s: System, a: Action)
    requires Core(s) && a.Submit? && Enabled(s, a)
    ensures InRange(Next(s, a)) && RegistrySound(Next(s, a))
    ensures StreamsFound(s) ==> StreamsFound(Next(s, a))
  {
    hide LeadersKnown, TermsDisjoint, CallsIssued, TicketsDistinct, LogHonest, DeliveredKeyed, MissedRight,
         NoRepeat, RaftProposalBytes, Fits, Applied;
    var t := Next(s, a);
    assert a.call !in s.closed || a.Submit?;
    assert forall d :: 0 <= d < |s.calls| && d != a.call ==> t.calls[d] == s.calls[d];
    assert t.incs == s.incs && t.calls[a.call].Key() == s.calls[a.call].Key();
  }

  lemma CommitKeepsTermsAndLog(s: System, a: Action)
    requires Core(s) && a.Commit? && Enabled(s, a)
    ensures InRange(Next(s, a)) && LeadersKnown(Next(s, a)) && TermsDisjoint(Next(s, a)) && LogHonest(Next(s, a))
  {
    hide CallsIssued, TicketsDistinct, RegistrySound, DeliveredKeyed, StreamsFound, MissedRight, NoRepeat,
         RaftProposalBytes, Fits, Applied;
  }

  lemma CommitKeepsCalls(s: System, a: Action)
    requires Core(s) && a.Commit? && Enabled(s, a)
    ensures InRange(Next(s, a)) && CallsIssued(Next(s, a)) && TicketsDistinct(Next(s, a))
  {
    hide TermsDisjoint, LogHonest, RegistrySound, DeliveredKeyed, StreamsFound, MissedRight, NoRepeat,
         RaftProposalBytes, Fits, Applied;
  }

  lemma CommitKeepsStreams(s: System, a: Action)
    requires Core(s) && a.Commit? && Enabled(s, a)
    ensures InRange(Next(s, a)) && RegistrySound(Next(s, a))
    ensures StreamsFound(s) ==> StreamsFound(Next(s, a))
  {
    hide LeadersKnown, TermsDisjoint, CallsIssued, TicketsDistinct, LogHonest, DeliveredKeyed, MissedRight,
         NoRepeat, RaftProposalBytes, Fits, Applied;
  }

  lemma ApplyKeepsTermsAndLog(s: System, a: Action)
    requires Core(s) && a.Apply? && Enabled(s, a)
    ensures InRange(Next(s, a)) && LeadersKnown(Next(s, a)) && TermsDisjoint(Next(s, a)) && LogHonest(Next(s, a))
  {
    hide CallsIssued, TicketsDistinct, RegistrySound, DeliveredKeyed, StreamsFound, MissedRight, NoRepeat,
         RaftProposalBytes, Fits, Applied;
  }

  lemma ApplyKeepsCalls(s: System, a: Action)
    requires Core(s) && a.Apply? && Enabled(s, a)
    ensures InRange(Next(s, a)) && CallsIssued(Next(s, a)) && TicketsDistinct(Next(s, a))
  {
    hide TermsDisjoint, LogHonest, RegistrySound, DeliveredKeyed, StreamsFound, MissedRight, NoRepeat,
         RaftProposalBytes, Fits, Applied;
  }

  lemma CloseKeepsTermsAndLog(s: System, a: Action)
    requires Core(s) && a.Close? && Enabled(s, a)
    ensures InRange(Next(s, a)) && LeadersKnown(Next(s, a)) && TermsDisjoint(Next(s, a)) && LogHonest(Next(s, a))
  {
    hide CallsIssued, TicketsDistinct, RegistrySound, DeliveredKeyed, StreamsFound, MissedRight, NoRepeat,
         RaftProposalBytes, Fits, Applied;
  }

  lemma CloseKeepsCalls(s: System, a: Action)
    requires Core(s) && a.Close? && Enabled(s, a)
    ensures InRange(Next(s, a)) && CallsIssued(Next(s, a)) && TicketsDistinct(Next(s, a))
  {
    hide TermsDisjoint, LogHonest, RegistrySound, DeliveredKeyed, StreamsFound, MissedRight, NoRepeat,
         RaftProposalBytes, Fits, Applied;
  }

  /** Registering changes the stage of one call and one registry, and nothing else. */
  lemma RegisterFrame(s: System, a: Action)
    requires InRange(s) && a.Register? && Enabled(s, a)
    ensures var t := Next(s, a);
            var c := s.calls[a.call];
            && |t.incs| == |s.incs| && |t.calls| == |s.calls| && t.log == s.log && t.closed == s.closed && t.current == s.current
            && (forall d :: 0 <= d < |s.calls| && d != a.call ==> t.calls[d] == s.calls[d])
            && t.calls[a.call] == c.(stage := Registered(c.stage.ticket))
            && (forall j :: 0 <= j < |s.incs| ==> t.incs[j].member == s.incs[j].member)
            && (forall j :: 0 <= j < |s.incs| && j != c.inc ==> t.incs[j] == s.incs[j])
            && t.incs[c.inc].context.streams == s.incs[c.inc].context.streams[c.Key() := a.call]
  {}

  /** Whoever was registered under the key before is registered no longer; everybody
      else is. */
  lemma RegisterKeepsStreams(s: System, a: Action)
    requires Core(s) && a.Register? && Enabled(s, a)
    ensures InRange(Next(s, a)) && RegistrySound(Next(s, a))
  {
    hide LeadersKnown, TermsDisjoint, CallsIssued, TicketsDistinct, LogHonest, DeliveredKeyed, StreamsFound,
         MissedRight, NoRepeat, RaftProposalBytes, Fits, Applied;
    RegisterFrame(s, a);
    hide Next, Enabled;
    var t := Next(s, a);
    var key := s.calls[a.call].Key();
    assert a.call !in s.closed;
    forall i, id | 0 <= i < |t.incs| && id in t.incs[i].context.streams
      ensures var c := t.incs[i].context.streams[id];
              c < |t.calls| && t.calls[c].inc == i && t.calls[c].HasStream() && t.calls[c].Key() == id && c !in t.closed
    {
      if !(i == s.calls[a.call].inc && id == key) {
        assert s.incs[i].context.streams[id] == t.incs[i].context.streams[id];
      }
    }
  }

  /** Applying changes nothing a call or a registry can see, and records one delivery. */
  lemma ApplyFrame(s: System, a: Action)
    requires InRange(s) && a.Apply? && Enabled(s, a)
    ensures var t := Next(s, a);
            && t.calls == s.calls && t.log == s.log && t.closed == s.closed && t.current == s.current
            && |t.incs| == |s.incs|
            && (forall j :: 0 <= j < |s.incs| ==> t.incs[j].context == s.incs[j].context && t.incs[j].member == s.incs[j].member)
            && t.incs[a.inc].applied == s.incs[a.inc].applied + 1
    ensures var inc := s.incs[a.inc];
            var outcome := Applied(inc.context, a.parses, s.log[inc.applied].bytes);
            Next(s, a).delivered ==
              if outcome.None? then s.delivered
              else s.delivered + [Delivery(a.inc, s.log[inc.applied].call, outcome.value.0, outcome.value.1)]
  {
    hide Applied;
  }

  lemma ApplyKeepsStreams(s: System, a: Action)
    requires Core(s) && a.Apply? && Enabled(s, a)
    ensures InRange(Next(s, a)) && RegistrySound(Next(s, a))
    ensures StreamsFound(s) ==> StreamsFound(Next(s, a))
  {
    hide LeadersKnown, TermsDisjoint, CallsIssued, TicketsDistinct, LogHonest, DeliveredKeyed, MissedRight,
         NoRepeat, RaftProposalBytes, Fits, Applied;
    ApplyFrame(s, a);
    hide Next, Enabled;
  }

  /** Applying an entry hands on the input of the call that made it, if it parses, and
      whatever is registered under that call's key. */
  lemma AppliedLookup(s: System, i: nat, parses: seq<byte> -> bool)
    requires Core(s) && i < |s.incs| && s.incs[i].applied < |s.log|
    ensures var call := s.calls[s.log[s.incs[i].applied].call];
            && call.HasNumber()
            && Applied(s.incs[i].context, parses, s.log[s.incs[i].applied].bytes) ==
               if parses(call.input) then Some((call.input, s.incs[i].context.Lookup(call.Key()))) else None
  {
    hide LeadersKnown, TermsDisjoint, TicketsDistinct, RegistrySound, DeliveredKeyed, StreamsFound,
         MissedRight, NoRepeat, RaftProposalBytes, Fits, Applied;
    var call := s.calls[s.log[s.incs[i].applied].call];
    UnparsedProposal(s.incs[i].context, parses, call.Proposal());
    if parses(call.input) {
      AppliedProposal(s.incs[i].context, parses, call.Proposal());
    }
  }

  /** A stream that is found belongs to a call of the same key and incarnation. */
  lemma FoundByKey(s: System, i: nat, c: nat)
    requires Core(s) && i < |s.incs| && c < |s.calls| && s.calls[c].HasNumber()
    requires s.calls[c].Key() in s.incs[i].context.streams
    ensures var d := s.incs[i].context.streams[s.calls[c].Key()];
            && d < |s.calls| && s.calls[d].HasNumber() && d !in s.closed
            && s.calls[d].inc == i == s.calls[c].inc && s.calls[d].Key() == s.calls[c].Key()
  {
    hide LeadersKnown, TermsDisjoint, CallsIssued, TicketsDistinct, LogHonest, DeliveredKeyed, StreamsFound,
         MissedRight, NoRepeat, RaftProposalBytes, Fits, Applied;
    var d := s.incs[i].context.streams[s.calls[c].Key()];
    if d != c {
      KeysSharedExactly(s, c, d);
    }
  }

  lemma ApplyKeepsDelivered(s: System, a: Action)
    requires Core(s) && a.Apply? && Enabled(s, a)
    ensures DeliveredKeyed(Next(s, a))
  {
    hide LeadersKnown, TermsDisjoint, CallsIssued, TicketsDistinct, LogHonest, RegistrySound, StreamsFound,
         MissedRight, NoRepeat, RaftProposalBytes, Fits, Applied;
    AppliedLookup(s, a.inc, a.parses);
    ApplyFrame(s, a);
    hide Next;
    var c := s.log[s.incs[a.inc].applied].call;
    if s.calls[c].Key() in s.incs[a.inc].context.streams {
      FoundByKey(s, a.inc, c);
    }
  }

  /** Closing takes one key out of one registry, and nothing else. */
  lemma CloseFrame(s: System, a: Action)
    requires InRange(s) && a.Close? && Enabled(s, a)
    ensures var t := Next(s, a);
            var c := s.calls[a.call];
            && |t.incs| == |s.incs| && t.calls == s.calls && t.closed == s.closed + {a.call} && t.current == s.current && t.log == s.log
            && a.call < |s.calls| && c.HasStream()
            && (forall j :: 0 <= j < |s.incs| ==> t.incs[j].member == s.incs[j].member)
            && (forall j :: 0 <= j < |s.incs| && j != c.inc ==> t.incs[j] == s.incs[j])
            && t.incs[c.inc].context.streams == s.incs[c.inc].context.streams - {c.Key()}
  {}

  lemma CloseKeepsStreams(s: System, a: Action)
    requires Core(s) && a.Close? && Enabled(s, a)
    ensures InRange(Next(s, a)) && RegistrySound(Next(s, a))
  {
    hide LeadersKnown, TermsDisjoint, CallsIssued, TicketsDistinct, LogHonest, DeliveredKeyed, StreamsFound,
         MissedRight, NoRepeat, RaftProposalBytes, Fits, Applied;
    CloseFrame(s, a);
    hide Next, Enabled;
    var t := Next(s, a);
    forall i, id | 0 <= i < |t.incs| && id in t.incs[i].context.streams
      ensures var c := t.incs[i].context.streams[id];
              c < |t.calls| && t.calls[c].inc == i && t.calls[c].HasStream() && t.calls[c].Key() == id && c !in t.closed
    {
      assert id in s.incs[i].context.streams && s.incs[i].context.streams[id] == t.incs[i].context.streams[id];
    }
  }

  /** Every step keeps the core. */
  lemma StepKeepsCore(s: System, a: Action)
    requires Core(s) && Enabled(s, a)
    ensures Core(Next(s, a))
  {
    hide LeadersKnown, TermsDisjoint, CallsIssued, TicketsDistinct, LogHonest, RegistrySound, DeliveredKeyed,
         StreamsFound, MissedRight, NoRepeat, InRange, Next, Enabled;
    if a.Apply? {
      ApplyKeepsDelivered(s, a);
    } else {
      HistoryStays(s, a);
    }
    match a
    case Start(_, _) => StartKeepsTermsAndLog(s, a); StartKeepsCalls(s, a); StartKeepsStreams(s, a);
    case LeaderUpdated(_, _, _) => LeaderUpdatedKeepsTermsAndLog(s, a); LeaderUpdatedKeepsCalls(s, a); LeaderUpdatedKeepsStreams(s, a);
    case Begin(_, _) => BeginKeepsTermsAndLog(s, a); BeginKeepsCalls(s, a); BeginKeepsStreams(s, a);
    case TakeNumber(_) => TakeNumberKeepsTermsAndLog(s, a); TakeNumberKeepsCalls(s, a); TakeNumberKeepsStreams(s, a);
    case Register(_) => RegisterKeepsTermsAndLog(s, a); RegisterKeepsCalls(s, a); RegisterKeepsStreams(s, a);
    case Submit(_) => SubmitKeepsTermsAndLog(s, a); SubmitKeepsCalls(s, a); SubmitKeepsStreams(s, a);
    case Commit(_) => CommitKeepsTermsAndLog(s, a); CommitKeepsCalls(s, a); CommitKeepsStreams(s, a);
    case Apply(_, _) => ApplyKeepsTermsAndLog(s, a); ApplyKeepsCalls(s, a); ApplyKeepsStreams(s, a);
    case Close(_) => CloseKeepsTermsAndLog(s, a); CloseKeepsCalls(s, a); CloseKeepsStreams(s, a);
  }

  // ----- and, while no number repeats, every stream is found

  /** Registering hides no other call's stream. */
  lemma RegisterKeepsFound(s: System, a: Action)
    requires Core(s) && StreamsFound(s) && NoRepeat(s) && a.Register? && Enabled(s, a)
    ensures InRange(Next(s, a)) && StreamsFound(Next(s, a))
  {
    hide LeadersKnown, TermsDisjoint, CallsIssued, TicketsDistinct, LogHonest, DeliveredKeyed, MissedRight,
         NoRepeat, RaftProposalBytes, Fits, Applied;
    RegisterFrame(s, a);
    hide Next, Enabled;
    var t := Next(s, a);
    var key := s.calls[a.call].Key();
    forall c | 0 <= c < |t.calls| && t.calls[c].HasStream() && c !in t.closed
      ensures t.incs[t.calls[c].inc].context.Lookup(t.calls[c].Key()) == Some(c)
    {
      if c != a.call && s.calls[c].Key() == key {
        KeysUnique(s, c, a.call);
      }
    }
  }

  lemma CloseKeepsFound(s: System, a: Action)
    requires Core(s) && StreamsFound(s) && NoRepeat(s) && a.Close? && Enabled(s, a)
    ensures InRange(Next(s, a)) && StreamsFound(Next(s, a))
  {
    hide LeadersKnown, TermsDisjoint, CallsIssued, TicketsDistinct, LogHonest, DeliveredKeyed, MissedRight,
         NoRepeat, RaftProposalBytes, Fits, Applied;
    CloseFrame(s, a);
    hide Next, Enabled;
    var t := Next(s, a);
    forall c | 0 <= c < |t.calls| && t.calls[c].HasStream() && c !in t.closed
      ensures t.incs[t.calls[c].inc].context.Lookup(t.calls[c].Key()) == Some(c)
    {
      if s.calls[c].Key() == s.calls[a.call].Key() {
        KeysUnique(s, c, a.call);
      }
    }
  }

  /** Applying an entry finds the stream of the call that made it, if the call was made
      here and its client is still there, and nothing otherwise. */
  lemma AppliedEntry(s: System, i: nat, parses: seq<byte> -> bool)
    requires Inv(s) && NoRepeat(s) && i < |s.incs| && s.incs[i].applied < |s.log|
    ensures var c := s.log[s.incs[i].applied].call;
            var found := if s.calls[c].inc == i && c !in s.closed then Some(c) else None;
            Applied(s.incs[i].context, parses, s.log[s.incs[i].applied].bytes) ==
            if parses(s.calls[c].input) then Some((s.calls[c].input, found)) else None
  {
    hide LeadersKnown, TermsDisjoint, CallsIssued, TicketsDistinct, DeliveredKeyed, MissedRight, NoRepeat,
         RaftProposalBytes, Fits, Applied;
    AppliedLookup(s, i, parses);
    var c := s.log[s.incs[i].applied].call;
    var call := s.calls[c];
    assert call.stage.Submitted?;
    if call.Key() in s.incs[i].context.streams {
      FoundByKey(s, i, c);
      KeysUnique(s, c, s.incs[i].context.streams[call.Key()]);
    }
  }

  lemma ApplyKeepsMissed(s: System, a: Action)
    requires Inv(s) && NoRepeat(s) && a.Apply? && Enabled(s, a)
    ensures InRange(Next(s, a)) && MissedRight(Next(s, a))
  {
    hide LeadersKnown, TermsDisjoint, CallsIssued, TicketsDistinct, LogHonest, RegistrySound, DeliveredKeyed,
         StreamsFound, NoRepeat, RaftProposalBytes, Fits, Applied;
    AppliedEntry(s, a.inc, a.parses);
    ApplyFrame(s, a);
    hide Next;
  }

  /** Every step keeps the whole invariant, while no number repeats. */
  lemma StepKeeps(s: System, a: Action)
    requires Inv(s) && Enabled(s, a) && NoRepeat(s)
    ensures Inv(Next(s, a))
  {
    hide InRange, Next, Enabled, Core, StreamsFound, MissedRight, NoRepeat;
    StepKeepsCore(s, a);
    CoreInRange(s);
    CoreInRange(Next(s, a));
    if a.Apply? {
      ApplyKeepsMissed(s, a);
    } else {
      HistoryStays(s, a);
    }
    match a
    case Start(_, _) => StartKeepsStreams(s, a);
    case LeaderUpdated(_, _, _) => LeaderUpdatedKeepsStreams(s, a);
    case Begin(_, _) => BeginKeepsStreams(s, a);
    case TakeNumber(_) => TakeNumberKeepsStreams(s, a);
    case Register(_) => RegisterKeepsFound(s, a);
    case Submit(_) => SubmitKeepsStreams(s, a);
    case Commit(_) => CommitKeepsStreams(s, a);
    case Apply(_, _) => ApplyKeepsStreams(s, a);
    case Close(_) => CloseKeepsFound(s, a);
  }

  lemma CoreInRange(s: System)
    requires Core(s)
    ensures InRange(s) && DeliveredKeyed(s)
  {}

  // ----- the steps are those of the program

  /** A call whose four steps nothing interrupts. */
  function Uninterrupted(s: System, i: nat, input: seq<byte>): System
    requires InRange(s) && Enabled(s, Begin(i, input))
  {
    var c := |s.calls|;
    var s1 := Next(s, Begin(i, input));
    var s2 := Next(s1, TakeNumber(c));
    var s3 := Next(s2, Register(c));
    Next(s3, Submit(c))
  }

  /** The four steps do to the registry, and hand to Raft, what `Executor.Propose` does. */
  lemma ProposeIsFourSteps(s: System, i: nat, input: seq<byte>)
    requires InRange(s) && CallsIssued(s) && Enabled(s, Begin(i, input))
    ensures var t := Uninterrupted(s, i, input);
            var c := |s.calls|;
            var was := s.incs[i];
            var n := was.context.NextNumber();
            && |t.calls| == c + 1 && t.calls[c].stage.Submitted? && t.calls[..c] == s.calls && t.log == s.log
            && t.calls[c].Proposal() == RaftProposal(was.view.term, n, input)
            && |t.incs| == |s.incs| && t.incs[i].view == was.view
            && t.incs[i].context == was.context.Numbered().Added(StreamID(was.view.term, n), c)
            && forall j :: 0 <= j < |s.incs| && j != i ==> t.incs[j] == s.incs[j]
  {
    hide RaftProposalBytes, Applied, Fits;
  }

  // ----- runs

  /** `t` is reached from the empty system by the actions `run`, each enabled when taken. */
  ghost predicate Reaches(run: seq<Action>, t: System) {
    if run == [] then t == INITIAL
    else
      var last := |run| - 1;
      exists s :: Reaches(run[..last], s) && InRange(s) && Enabled(s, run[last]) && t == Next(s, run[last])
  }

  /** What every run keeps, with no bound on anything. */
  lemma {:induction false} CoreInvariant(run: seq<Action>, t: System)
    requires Reaches(run, t)
    ensures Core(t)
    decreases |run|
  {
    hide Next, Enabled, InRange, Core;
    if run == [] {
      InitialInv();
    } else {
      var last := |run| - 1;
      var s :| Reaches(run[..last], s) && InRange(s) && Enabled(s, run[last]) && t == Next(s, run[last]);
      CoreInvariant(run[..last], s);
      StepKeepsCore(s, run[last]);
    }
  }

  /** Repeats are never undone. */
  lemma NoRepeatBefore(s: System, a: Action)
    requires InRange(s) && Enabled(s, a) && NoRepeat(Next(s, a))
    ensures NoRepeat(s)
  {
    CallsStay(s, a);
    hide Next, Enabled;
    var t := Next(s, a);
    forall c, d | 0 <= c < |s.calls| && 0 <= d < |s.calls|
      ensures !Repeats(s.calls[c], s.calls[d])
    {
      assert Stays(s.calls[c], t.calls[c]) && Stays(s.calls[d], t.calls[d]);
      assert !Repeats(t.calls[c], t.calls[d]);
    }
  }

  lemma {:induction false} Invariant(run: seq<Action>, t: System)
    requires Reaches(run, t) && NoRepeat(t)
    ensures Inv(t)
    decreases |run|
  {
    hide Next, Enabled, NoRepeat, InRange, Inv;
    if run == [] {
      InitialInv();
    } else {
      var last := |run| - 1;
      var s :| Reaches(run[..last], s) && InRange(s) && Enabled(s, run[last]) && t == Next(s, run[last]);
      NoRepeatBefore(s, run[last]);
      Invariant(run[..last], s);
      StepKeeps(s, run[last]);
    }
  }

  lemma InitialInv()
    ensures Inv(INITIAL) && Core(INITIAL)
  {
    EmptyInv(INITIAL);
  }

  lemma EmptyInv(s: System)
    requires s.incs == [] && s.current == map[] && s.calls == [] && s.log == [] && s.closed == {} && s.delivered == []
    ensures Inv(s)
  {
    hide RaftProposalBytes, Fits, Applied;
  }

  /** In every run, with no bound on anything: a stream that an applied entry finds was
      registered at this very incarnation, by the call that created the entry or by
      one of the same term that repeats its number. */
  lemma DeliveredToKeyHolder(run: seq<Action>, t: System, d: nat)
    requires Reaches(run, t) && d < |t.delivered|
    ensures var x := t.delivered[d];
            && x.call < |t.calls| && x.input == t.calls[x.call].input
            && (x.stream.Some? ==>
                  && x.stream.value < |t.calls|
                  && t.calls[x.call].inc == t.calls[x.stream.value].inc == x.inc
                  && (x.stream.value == x.call
                      || Repeats(t.calls[x.call], t.calls[x.stream.value])
                      || Repeats(t.calls[x.stream.value], t.calls[x.call])))
  {
    hide Reaches, Core;
    CoreInvariant(run, t);
    CoreInRange(t);
    var x := t.delivered[d];
    if x.stream.Some? && x.stream.value != x.call {
      KeysSharedExactly(t, x.call, x.stream.value);
    }
  }

  /** In every run in which no number repeats within a term, whenever an incarnation
      applies an entry and finds a stream, the stream was registered by exactly the
      call that created the entry, at this very incarnation, and the input applied is
      that call's input. */
  lemma NobodyGetsAnothersOutput(run: seq<Action>, t: System, d: nat)
    requires Reaches(run, t) && NoRepeat(t) && d < |t.delivered|
    ensures var x := t.delivered[d];
            && x.call < |t.calls| && x.input == t.calls[x.call].input
            && (x.stream.Some? ==> x.stream.value == x.call && t.calls[x.call].inc == x.inc)
            && (x.stream.None? ==> t.calls[x.call].inc != x.inc || x.call in t.closed)
  {
    hide Reaches, Core;
    DeliveredToKeyHolder(run, t, d);
    Invariant(run, t);
  }

  /** In such a run, what applying the next entry would deliver at an incarnation is
      decided: the proposer's own stream there while it is open, and nothing elsewhere. */
  lemma NextDelivery(run: seq<Action>, t: System, i: nat, parses: seq<byte> -> bool)
    requires Reaches(run, t) && NoRepeat(t) && i < |t.incs| && t.incs[i].applied < |t.log|
    ensures InRange(t)
    ensures var c := t.log[t.incs[i].applied].call;
            var found := if t.calls[c].inc == i && c !in t.closed then Some(c) else None;
            Next(t, Apply(i, parses)).delivered ==
            t.delivered + if parses(t.calls[c].input) then [Delivery(i, c, t.calls[c].input, found)] else []
  {
    hide Reaches, NoRepeat, Next, Applied, RaftProposalBytes, Fits, Core, StreamsFound, MissedRight;
    Invariant(run, t);
    CoreInRange(t);
    AppliedEntry(t, i, parses);
    ApplyFrame(t, Apply(i, parses));
  }
}
