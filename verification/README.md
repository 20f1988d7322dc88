# Atomix consensus driver: a verified model

The driver runs partitions of a store as Raft groups.  On each node,
`node/pkg/consensus` wraps client input into proposals, applies committed entries
and publishes what happens; in the controller,
`controller/pkg/controller/consensus/v1beta1` creates groups and members as
resources, folds the nodes' events into their status, and publishes the result to
clients.  This project models those parts and proves what they are for.

## What is proved

- **A client only ever gets the output of its own proposal.**  `Context` holds the
  registry, the partition, the executor and the state machine as classes that
  update in place.  `Correlation` is the whole Raft group as a system of steps:
  members start and restart, leaders change, the four steps of a proposal
  interleave with everything, entries are committed late, twice or never, and are
  replayed.  In every run output goes to a holder of the entry's key, and unless the
  64-bit counter has repeated a number within a term, to the proposer alone.
  `CounterWrap` proves the converse, and exactly when a run that has led to two calls
  with one key goes on to hand the output of one to the client of the other.
- **The wire format.**  `Marshal` fills buffers from the end and decodes by index,
  loop for loop; `Messages` has the round trips; `Skip` proves that the scanner for
  unknown fields accepts exactly a grammar of nested fields, and `Language` that
  every `Unmarshal` accepts exactly lists of such fields and what it makes of
  them; `Refusals` says how an input that is cut short or malformed fails.  `Merge`
  proves that concatenation is merging.
- **The reducers.**  `Status`, `Members` and `Watch`: order of events does not
  matter for leadership; when it matters for the known members, when the group is
  the join of its members, and when a watcher that comes late is right, is said
  exactly, on the events.
- **Placement and reconciliation.**  `Placement`, `PartitionStatus`, `Reconcile`,
  `Reconciler`, `Fixpoint`, `Converged`, `Deployment`, `Store` and `Service`: balance, the
  measure, the fixpoint, and what holds there on the fields of the specification,
  ending with what clients read when both reconcilers have come to rest.  The one-way equality tests are exact in every run,
  even when members share pods, because a group never forgets a member.

## How the model is laid out

Code that updates things in place is a class or a method with loops (`Context`,
`Watch.Protocol`, `Marshal`, `Varint`, `Skip`, `Status.GroupStatus`,
`Members.MemberStatus`, `Reconciler`, `Store.StoreReconciler`).  Each such method is
tied by its `ensures` to a function on values, and the theorems are about those
functions.  A module is a file of the same name.

## Assumptions

These are about what surrounds the code.

- The pair written by `setLeader` and read by `getLeader` is written and read as
  one step.  The code uses two separate atomic words, and the correlation theorem
  depends on their not tearing.
- Raft is the environment of `Correlation`: one committed log; a term has one
  leader (Election Safety, section 5.2 and Figure 3 of the extended Raft paper); a
  restarted member does not lead a term it led before.  The last two are the guard
  of the step `LeaderUpdated`.
- Code under a lock is one step; a channel is the sequence of what was sent on it;
  `publish` calls do not overlap.
- Kubernetes is a set of maps from names to resources, read and written atomically.
- A pass of a reconciler is one step, the bootstrap of a node and the write of its
  version included.  A pass whose write would conflict with another's writes nothing,
  and is no step: an event that lands between the bootstrap and the write comes before
  the next pass.
- Events about a group name members of that group.
  The resource schema keeps counts of groups and replicas from being negative.
- Messages, and the payloads wrapped in proposals, have lengths that fit a 64-bit
  signed `int`.
- Which payloads the service can parse is a parameter of every single apply: any
  predicate on byte strings.
- Each write of an event, to its member or to its group, is one atomic step; the two
  writes of an event, and those of different watchers, interleave freely.

## Where the code falls short of what one might expect

Each is a lemma with an example, and the exact condition is proved beside it.

- `TwoLeaders`: a leader that never reports ready and is superseded is a known member
  in one order of the events and unknown in another (`KnownOrderInsensitive`).
- `UnrecordedLeader`: an event of a member that has no resource yet is recorded by the
  group alone, which is then ahead of its members (`JoinExactly`).  The reconciler
  creates a member before it bootstraps its node, which rules this out
  (`CreatedFirstJoins`).
- `DroppedLeaderIsMissed`: a member that reports its leader lost within a term is
  seen as led by an early watcher, and as leaderless by a late one (`LateWatcher`).
- `WrappedCounterMisdelivers`: a context that issues more than 2^64 numbers in one
  term gives a client another's output (`DeliveredToKeyHolder`, `CrossExactly`).
- `ReportCountsExactly`: a member that reports ready before the reconciler has recorded
  its version is written not ready again.  A node that is already running reports
  nothing when it is bootstrapped once more (`protocol.go:157-170`), so the member and
  its cluster stay not ready until something else makes the node report.

## Model

| member | source | states |
|---|---|---|
| `Context.ProtocolContext.AddStream` | node/pkg/consensus/context.go:29-41 | bumps the 64-bit counter, wrapping, and registers the stream under the term and the new number; nothing else in the registry changes |
| `Context.ProtocolContext.RemoveStream` | node/pkg/consensus/context.go:44-52 | takes out exactly the one key |
| `Context.ProtocolContext.GetStream` | node/pkg/consensus/context.go:55-66 | finds the stream registered under the key, and nothing for any other key |
| `Context.ProtocolContext.constructor` | node/pkg/consensus/context.go:15-19 | a new context has no streams and counts from zero |
| `Context.Partition.SetReady` | node/pkg/consensus/partition.go:39-41 | readiness is set and stays with the leader and term |
| `Context.Partition.SetLeader` | node/pkg/consensus/partition.go:47-50 | term and leader change together, as one step |
| `Context.Partition.GetLeader` | node/pkg/consensus/partition.go:52-54 | term and leader are read together, as one step |
| `Context.Executor.Propose` | node/pkg/consensus/partition.go:63-92 | a member that does not lead is refused with nothing registered or submitted; the leader registers the stream under its term and next number and submits exactly the encoding of that key and the input |
| `Context.StateMachine.Update` | node/pkg/consensus/statemachine.go:27-39 | an entry that does not decode changes nothing; any other hands its input to the service with the stream found under its key |
| `Context.AppliedProposal` | node/pkg/consensus/statemachine.go:27-36 | whatever registry it meets, applying what `Propose` encoded yields the very input and looks up the very key |
| `Correlation.KeysUnique` | node/pkg/consensus/context.go:29-36 | while no number repeats within a term, two calls of any members, restarts and terms with the same `(term, sequenceNum)` are one call |
| `Correlation.CoreInvariant` | node/pkg/consensus/partition.go:31-92 | in every run, with no bound on anything: a term is led by one incarnation, calls carry terms led and numbers issued there, the log holds the proposals of its calls, registries hold open streams under their own keys, and deliveries go to holders of the key |
| `Correlation.KeysSharedExactly` | node/pkg/consensus/context.go:29-36 | in every state a run reaches: two calls share a key if and only if they are of one incarnation and term, and the counter went round a whole number of times between them |
| `Correlation.NoRepeatWithin` | node/pkg/consensus/context.go:29-36 | in every state a run reaches in which no context has issued more than 2^64 numbers, no number repeats |
| `Correlation.ProposeIsFourSteps` | node/pkg/consensus/partition.go:63-92 | the four interleavable steps of a call, run together, do to the registry and hand to Raft what `Executor.Propose` does |
| `Correlation.AppliedLookup` | node/pkg/consensus/statemachine.go:27-39 | applying an entry hands on the input of the call that made it, if the service can parse it, with whatever is registered under that call's key |
| `Correlation.AppliedEntry` | node/pkg/consensus/statemachine.go:27-39 | and while no number repeats, that is the call's own stream if the call was made at this incarnation and is open, and none otherwise |
| `Correlation.StepKeepsCore` | node/pkg/consensus/partition.go:63-92 | every step (start, leader change, the four steps of a call, commit, apply, close) keeps the core of the invariant over all members |
| `Correlation.StepKeeps` | node/pkg/consensus/partition.go:63-92 | every step keeps the whole invariant, in which every open stream is found, while no number repeats |
| `Correlation.Invariant` | node/pkg/consensus/partition.go:31-92 | the whole invariant holds after every run in which no number repeats within a term |
| `Correlation.DeliveredToKeyHolder` | node/pkg/consensus/statemachine.go:27-39 | in every run, with no bound on anything: a stream that receives the output of an entry was registered at that incarnation, by the call that made the entry or by one of the same term that repeats its number |
| `Correlation.NobodyGetsAnothersOutput` | node/pkg/consensus/statemachine.go:27-39 | in every run in which no number repeats within a term: it was registered by the very call that made the entry, and the input applied is that call's; an entry finds no stream only elsewhere or after the client closed |
| `Correlation.NextDelivery` | node/pkg/consensus/context.go:55-66 | in every such run, what applying the next entry delivers is determined: the proposer's open stream at the proposer, nothing elsewhere |
| `CounterWrap.RepeatMisdelivers` | node/pkg/consensus/context.go:29-66 | the converse: wherever a run has led to two calls with one key, and one of them has still to register or something is registered under their key, that run can go on until the output of one of the two goes to another client |
| `CounterWrap.CrossExactly` | node/pkg/consensus/context.go:29-66 | it can go on to hand an entry of one of the two to the stream of the other if and only if one has still to register, or one is registered |
| `CounterWrap.GoneForGood` | node/pkg/consensus/context.go:44-66 | no step brings a stream that is out of the registry back into it |
| `CounterWrap.NothingMoreDelivered` | node/pkg/consensus/context.go:44-66 | in every continuation of a run, past deliveries stay and nothing more is delivered to a stream that is out of the registry |
| `CounterWrap.WrappedCounterMisdelivers` | node/pkg/consensus/context.go:29-41 | such a run: a context issues 2^64 + 1 numbers in one term, and the first client's output goes to the last client's stream |
| `Bits.BitOrDisjoint` | node/pkg/consensus/protocol.pb.go:3782-3795 | or-ing a shifted digit above the bits in use is addition |
| `Bits.OrShifted` | node/pkg/consensus/protocol.pb.go:3782-3795 | or-ing in a digit shifted within a 32 or 64-bit word keeps the accumulator equal to the true sum modulo the word, even when the shift drops bits |
| `Bits.SignedRoundTrip` | node/pkg/consensus/protocol.pb.go:4002-4015 | a signed 32-bit number, sign-extended to 64 bits, comes back from the low 32 |
| `Varint.SovIsLength` | node/pkg/consensus/protocol.pb.go:3770-3772 | the closed form for the size of a varint is the number of bytes the encoder writes |
| `Varint.SovRange` | node/pkg/consensus/protocol.pb.go:3770-3772 | every 64-bit value takes one to ten bytes |
| `Varint.EncodeVarint` | node/pkg/consensus/protocol.pb.go:3201-3211 | writes exactly the varint, ending just before the offset, and leaves the rest of the buffer alone |
| `Varint.DecodeVarint` | node/pkg/consensus/protocol.pb.go:3782-3795 | the loop with a 32 or 64-bit accumulator returns the encoded number modulo the word and the index after it, or the same error, for every input |
| `Varint.VarintRoundTrip` | node/pkg/consensus/protocol.pb.go:3201-3211 | every 64-bit value is read back, anywhere in the input, and the reader stops right after it |
| `Varint.ParseLocal` | node/pkg/consensus/protocol.pb.go:3782-3795 | a successful read depends on the bytes it consumed and nothing else |
| `Varint.DecodeLength` | node/pkg/consensus/protocol.pb.go:3868-3887 | a length is read as a signed 64-bit number and refused when negative |
| `Skip.SkipProtocol` | node/pkg/consensus/protocol.pb.go:6906-6983 | the loop with its depth counter computes the scanner, errors included |
| `Skip.SkipIsGrammar` | node/pkg/consensus/protocol.pb.go:6906-6983 | the scanner consumes a span if and only if the span is one well-formed field: varint, fixed, length-delimited, or a group of well-formed fields nested to any depth |
| `Skip.SkipsField` | node/pkg/consensus/protocol.pb.go:6906-6983 | every well-formed field is skipped, and nothing more |
| `Skip.SkippedField` | node/pkg/consensus/protocol.pb.go:6906-6983 | whatever is skipped is a well-formed field |
| `Skip.SkipLocal` | node/pkg/consensus/protocol.pb.go:6906-6983 | what is skipped depends only on the bytes skipped |
| `Decoder.DecodeIsFold` | node/pkg/consensus/protocol.pb.go:3776-3916 | a decode succeeds exactly when the whole input reads as items that can all be stored, and the result is their fold |
| `Decoder.ReadItemLocal` | node/pkg/consensus/protocol.pb.go:3776-3916 | reading a field depends only on the field's bytes, wherever they stand |
| `Decoder.ConcatIsMerge` | node/pkg/consensus/protocol.pb.go:3776-3916 | decoding a concatenation is decoding the second part into the result of the first |
| `Decoder.UnknownFieldIsTransparent` | node/pkg/consensus/protocol.pb.go:3896-3909 | a well-formed field with an unassigned number, between any fields of a message, changes nothing |
| `Language.DecodeIsMeaning` | node/pkg/consensus/protocol.pb.go:3776-3916 | for every input: `Unmarshal` gives `m` if and only if the input is a list of grammar fields with legal numbers and the right wire types whose payloads fold to `m` |
| `Language.GroupConfigMeaning` | node/pkg/consensus/protocol.pb.go:3776-3916 | the same for group configurations, with every nested member again read as a list of legal fields |
| `Language.FieldIsItem` | node/pkg/consensus/protocol.pb.go:3797-3895 | a legal field is read as one item, and the reader stops at its end |
| `Language.ItemIsField` | node/pkg/consensus/protocol.pb.go:3797-3895 | every item read is a legal field of the grammar |
| `Refusals.VarintFails` | node/pkg/consensus/protocol.pb.go:3782-3795 | a varint overflows if and only if ten bytes in a row are marked as not the last, and ends unexpectedly if and only if fewer are left and all are so marked |
| `Refusals.BreaksOff` | node/pkg/consensus/protocol.pb.go:3776-3916 | a message that breaks off inside a field, known or unknown, however deeply nested, after any other fields, is reported as an unexpected end |
| `Refusals.FieldCut` | node/pkg/consensus/protocol.pb.go:6906-6983 | a field that breaks off cannot be skipped: the scan ends unexpectedly or beyond the input |
| `Refusals.TagRefused` | node/pkg/consensus/protocol.pb.go:3796-3803 | the end of a group that was not begun, a number out of range, a known number with another wire type and an undefined wire type are each refused by name |
| `Refusals.SpanRefused` | node/pkg/consensus/protocol.pb.go:3881-3890 | a delimited field is refused when it would reach beyond a 64-bit index, and missing when it reaches beyond the input |
| `Refusals.LengthRefused` | node/pkg/consensus/protocol.pb.go:3881-3883 | a length is refused exactly when it is negative as a 64-bit `int` |
| `Refusals.EndWithoutGroup` | node/pkg/consensus/protocol.pb.go:6965-6969 | the end of a group that was not begun is not skipped |
| `Messages.MemberConfigRoundTrip` | node/pkg/consensus/protocol.pb.go:3917-4036 | every member configuration is read back as written, negative ports included |
| `Messages.GroupConfigRoundTrip` | node/pkg/consensus/protocol.pb.go:3776-3916 | every group configuration, with any number of members, is read back as written |
| `Messages.RaftProposalRoundTrip` | node/pkg/consensus/protocol.pb.go:4037-4158 | every proposal is read back as written |
| `Messages.MemberEventRoundTrip` | node/pkg/consensus/protocol.pb.go:5269-5356 | every member event is read back as written |
| `Messages.MemberEventItems` | node/pkg/consensus/protocol.pb.go:2608-2624 | the bytes of a member event are its group as field 1 and its member as field 2, each left out when zero |
| `Messages.AssignedNumbers` | node/pkg/consensus/protocol.pb.go:3776-3916 | each of the five messages knows exactly its assigned field numbers |
| `Messages.DefaultsWriteNothing` | node/pkg/consensus/protocol.pb.go:2707-2733 | default values take no bytes, an embedded message two |
| `Messages.LeaderUpdatedRoundTrip` | node/pkg/consensus/protocol.pb.go:5523-5643 | every leader event, with its embedded member event, is read back as written |
| `Merge.GroupConfigConcat` | node/pkg/consensus/protocol.pb.go:3776-3916 | decoding `a + b`: the scalars present in `b` win, and the members are those of `a` followed by those of `b` |
| `Merge.RaftProposalConcat` | node/pkg/consensus/protocol.pb.go:4037-4158 | decoding `a + b`: every field present in `b` wins |
| `Marshal.SizeMemberConfig` | node/pkg/consensus/protocol.pb.go:3236-3253 | the size is the exact number of bytes written |
| `Marshal.SizeGroupConfig` | node/pkg/consensus/protocol.pb.go:3212-3234 | the size is the exact number of bytes written, over all members |
| `Marshal.SizeRaftProposal` | node/pkg/consensus/protocol.pb.go:3255-3272 | the size is the exact number of bytes written |
| `Marshal.SizeMemberEvent` | node/pkg/consensus/protocol.pb.go:3542-3555 | the size is the exact number of bytes written |
| `Marshal.SizeLeaderUpdated` | node/pkg/consensus/protocol.pb.go:3579-3594 | the size is the exact number of bytes written |
| `Marshal.MarshalMemberConfig` | node/pkg/consensus/protocol.pb.go:1968-1991 | writes exactly the message at the end of the buffer slice, and leaves every other byte alone |
| `Marshal.MarshalGroupConfig` | node/pkg/consensus/protocol.pb.go:1916-1951 | the same, with the members written last to first behind their lengths and tags |
| `Marshal.WriteMembers` | node/pkg/consensus/protocol.pb.go:1921-1934 | the loop over the members writes them in order, back to front |
| `Marshal.MarshalRaftProposal` | node/pkg/consensus/protocol.pb.go:2008-2031 | writes exactly the message at the end of the buffer slice, and leaves every other byte alone |
| `Marshal.MarshalMemberEvent` | node/pkg/consensus/protocol.pb.go:2608-2624 | writes exactly the message at the end of the buffer slice, and leaves every other byte alone |
| `Marshal.MarshalLeaderUpdated` | node/pkg/consensus/protocol.pb.go:2707-2733 | the same, with the embedded message always written |
| `Marshal.MarshalProposal` | node/pkg/consensus/protocol.pb.go:1993-2001 | a buffer of `Size()` bytes is filled completely |
| `Marshal.DecodeUnknown` | node/pkg/consensus/protocol.pb.go:3896-3909 | an unknown field is skipped within the bounds of the input |
| `Marshal.UnmarshalMemberConfig` | node/pkg/consensus/protocol.pb.go:3917-4036 | the loop, with its 32-bit narrowing, computes the specified decode on every byte string, errors included |
| `Marshal.UnmarshalGroupConfig` | node/pkg/consensus/protocol.pb.go:3776-3916 | the same, decoding every nested member from scratch |
| `Marshal.UnmarshalRaftProposal` | node/pkg/consensus/protocol.pb.go:4037-4158 | the same, for proposals |
| `Marshal.UnmarshalMemberEvent` | node/pkg/consensus/protocol.pb.go:5269-5356 | the same, for member events |
| `Marshal.UnmarshalLeaderUpdated` | node/pkg/consensus/protocol.pb.go:5523-5643 | the same, decoding the embedded event into the one already there |
| `Watch.Protocol.NewStateMachine` | node/pkg/consensus/protocol.go:191-198 | a start replaces the group's partition by one that knows nothing, with an empty context of its own |
| `Watch.Protocol.Publish` | node/pkg/consensus/protocol.go:74-92 | the event reaches every watcher, and the partition of its group, and no other, takes it in |
| `Watch.Protocol.Watch` | node/pkg/consensus/protocol.go:111-146 | the new watcher's channel holds, for every partition, exactly what it knows; the other watchers see nothing |
| `Watch.AgreesOnArrival` | node/pkg/consensus/protocol.go:111-146 | on arrival a late watcher has the term and leader of one that heard everything, if and only if no leader was dropped within the last term (and that term is not 0) |
| `Watch.LateWatcher` | node/pkg/consensus/protocol.go:111-146 | the two agree after every continuation if and only if the same condition holds |
| `Watch.DroppedLeaderIsMissed` | node/pkg/consensus/protocol.go:111-146 | a member that loses its leader within a term: the late watcher reports none, the early one still reports it |
| `Watch.ReplayTells` | node/pkg/consensus/protocol.go:116-144 | a replay speaks of its own group and member only; it holds the leader event exactly when a term is known, and the ready event exactly when the partition is ready |
| `Watch.LateWatcherLearnsReady` | node/pkg/consensus/protocol.go:132-144 | for every history of a partition, a late watcher is told that the member is ready if and only if the history says so |
| `Watch.LateWatcherKnowsReady` | node/pkg/consensus/protocol.go:132-144 | whatever comes later, a member that ever reported itself ready is known to the fold of a late watcher, as to that of an early one |
| `Status.GroupStatus.MemberReady` | controller/pkg/controller/consensus/v1beta1/watcher.go:210-225 | adds the member to the followers unless it is known; reports a change exactly when there is one |
| `Status.GroupStatus.LeaderUpdated` | controller/pkg/controller/consensus/v1beta1/watcher.go:253-277 | a superseding event replaces term and leader, demotes the old leader and removes the new one from the followers; any other changes nothing |
| `Status.OnLedKeeps` | controller/pkg/controller/consensus/v1beta1/watcher.go:253-277 | the leader is no follower, followers are distinct, and the known members are those before and the new leader |
| `Status.RunKeeps` | controller/pkg/controller/consensus/v1beta1/watcher.go:210-277 | along every run: leader not among followers, followers distinct, term never falling, no member ever forgotten |
| `Status.LeaderSticks` | controller/pkg/controller/consensus/v1beta1/watcher.go:253-277 | along every run, even with two leaders reported for a term: while the term is the same, the leader first recorded for it stays |
| `Status.FoldLeads` | controller/pkg/controller/consensus/v1beta1/watcher.go:253-277 | under Election Safety the final term is the greatest named, and the leader that term's leader if any event named one |
| `Status.LeadershipOrderInsensitive` | controller/pkg/controller/consensus/v1beta1/watcher.go:253-277 | any order and any repetition of the same events ends in the same term and leader |
| `Status.LeaderIsNamedLast` | controller/pkg/controller/consensus/v1beta1/watcher.go:253-277 | under Election Safety a member leads at the end if and only if some event names it leader of a term that no event goes beyond |
| `Status.KnownOrderInsensitive` | controller/pkg/controller/consensus/v1beta1/watcher.go:210-277 | the set of known members is the same in every order of the events if and only if every member ever named leader reports ready, or is named leader of the last term: a condition on the events alone |
| `Status.ForgottenLeader` | controller/pkg/controller/consensus/v1beta1/watcher.go:253-277 | for every other list of events, an order that ends with different known members |
| `Status.TwoLeaders` | controller/pkg/controller/consensus/v1beta1/watcher.go:253-277 | such a list: leaders of terms 1 and 2 that never report ready |
| `Members.MemberStatus.MemberReady` | controller/pkg/controller/consensus/v1beta1/watcher.go:199-207 | sets the state to ready; reports a change exactly when there is one |
| `Members.MemberStatus.LeaderUpdated` | controller/pkg/controller/consensus/v1beta1/watcher.go:227-248 | a superseding event sets term, leader and role; any other changes nothing |
| `Members.MemberStatus.Snapshot` | controller/pkg/controller/consensus/v1beta1/watcher.go:316-327 | keeps the greatest positive index |
| `Members.FleetRun` | controller/pkg/controller/consensus/v1beta1/watcher.go:226-277 | along every run of writes to members and to the group, in any interleaving and with members that have no resource yet: roles are Leader exactly when a member's leader is itself, and every recorded leader is that of the recorded term |
| `Members.StatusIsNewest` | controller/pkg/controller/consensus/v1beta1/watcher.go:226-277 | every member's status, and the group's, is the greatest term it was told of and that term's leader if it was told one; a member is told nothing before its resource exists |
| `Members.ReadyExactly` | controller/pkg/controller/consensus/v1beta1/watcher.go:199-248 | along every run of writes: a member's state is ready if and only if it reported itself ready since it has a resource, and is not set otherwise; and it has a role if and only if it was told a term |
| `Members.StatusIsFold` | controller/pkg/controller/consensus/v1beta1/watcher.go:427-437 | along every run of writes the group's status is the fold of the events written to it, so what is proved of the reducer holds of it |
| `Members.ReportedIsKnown` | controller/pkg/controller/consensus/v1beta1/watcher.go:210-225 | every member whose readiness was written to the group is known to it |
| `Members.GroupLeadsMembers` | controller/pkg/controller/consensus/v1beta1/watcher.go:226-277 | once every event is written to both, no member is ahead of the group, and one that is level with it and knows a leader knows the group's |
| `Members.JoinExactly` | controller/pkg/controller/consensus/v1beta1/watcher.go:394-437 | and then the group's term and leader are the join of its members' if and only if the newest events, and a newest one that names a leader if there is any, were recorded by members that had a resource |
| `Members.CreatedFirstJoins` | controller/pkg/controller/consensus/v1beta1/cluster.go:615-749 | they are, whenever members are created before anything is written to them |
| `Members.UnrecordedLeader` | controller/pkg/controller/consensus/v1beta1/watcher.go:406-414 | they are not, when the only event is of a member without a resource: the group records what no member does |
| `Members.OneLeaderRole` | controller/pkg/controller/consensus/v1beta1/watcher.go:226-248 | no two members hold the role Leader for the same term |
| `Members.LastSnapshotIsGreatest` | controller/pkg/controller/consensus/v1beta1/watcher.go:316-369 | along every run, the recorded index is the greatest positive one written to the member since it has a resource, or absent |
| `Naming.NestedIsFlat` | controller/pkg/controller/consensus/v1beta1/watcher.go:397-400 | the name the reconciler creates a member under is the name the watcher looks up |
| `Naming.MemberNameParses` | controller/pkg/controller/consensus/v1beta1/watcher.go:397-400 | splitting at the last two dashes recovers store, group and member, for every store name |
| `Naming.MemberNameInjective` | controller/pkg/controller/consensus/v1beta1/watcher.go:397-400 | different stores, groups or members have different names |
| `Naming.NumberedParses` | controller/pkg/controller/consensus/v1beta1/watcher.go:430-433 | splitting at the last dash recovers a group's store and number |
| `Placement.PlacementBalanced` | controller/pkg/controller/consensus/v1beta1/cluster.go:853-883 | every pod hosts the floor or the ceiling of groups times members over replicas, and no two differ by more than one |
| `Placement.HostedCount` | controller/pkg/controller/consensus/v1beta1/cluster.go:914-917 | the pods of all groups' members are consecutive numbers modulo the replicas |
| `Placement.SamePod` | controller/pkg/controller/consensus/v1beta1/cluster.go:914-917 | two members of a group share a pod exactly when their numbers are congruent modulo the replicas |
| `Placement.DistinctPods` | controller/pkg/controller/consensus/v1beta1/cluster.go:914-917 | with at least as many replicas as members, the members of a group are on different pods |
| `PartitionStatus.IsPartitionStatusEqual` | controller/pkg/controller/consensus/v1beta1/cluster.go:781-803 | decides the one-way test on two partitions |
| `PartitionStatus.IsPartitionStatusesEqual` | controller/pkg/controller/consensus/v1beta1/cluster.go:767-779 | decides the test on two lists: equally long, and partitions of the same number pass |
| `PartitionStatus.CoversPermutes` | controller/pkg/controller/consensus/v1beta1/cluster.go:794-802 | pigeonhole: equally long and contained one way is a permutation, when nothing is listed twice |
| `PartitionStatus.AllEquivalentExact` | controller/pkg/controller/consensus/v1beta1/cluster.go:767-803 | on such lists the test holds if and only if all leaders are equal and all follower lists are permutations |
| `PartitionStatus.AddressesDistinct` | controller/pkg/controller/consensus/v1beta1/cluster.go:834-845 | with at least as many replicas as members, distinct followers have distinct addresses |
| `PartitionStatus.AddressParses` | controller/pkg/controller/consensus/v1beta1/cluster.go:910-912 | an address gives back pod, cluster, namespace, domain and the port 5678, when its labels have no dots and its domain no colon |
| `PartitionStatus.ExactOnGrowth` | controller/pkg/controller/consensus/v1beta1/cluster.go:781-803 | on a view of a group and a later one that has forgotten nobody, the test holds if and only if leader and followers agree, for every assignment of addresses, whether or not members share pods |
| `PartitionStatus.ExactAlongRuns` | controller/pkg/controller/consensus/v1beta1/cluster.go:781-803 | so it does between any view and what any events make of it |
| `PartitionStatus.FollowersTestExactness` | controller/pkg/controller/consensus/v1beta1/cluster.go:794-802 | a side remark: the comparison of followers alone, on arbitrary lists of members rather than on those the reconciler compares, is exact if and only if there are at least as many replicas as members, or just one replica |
| `Reconciler.ClusterReconciler.ReconcileMember` | controller/pkg/controller/consensus/v1beta1/cluster.go:615-749 | creates the member, follows its pod's identity, marks it not ready, or bootstraps it and records the version, in this order and one per pass; fails when the pod is missing or unreachable |
| `Reconciler.ClusterReconciler.ReconcileMembers` | controller/pkg/controller/consensus/v1beta1/cluster.go:593-613 | goes through the members in order, stops at the first write or failure, then writes the group's state if it differs |
| `Reconciler.ClusterReconciler.ReconcileGroup` | controller/pkg/controller/consensus/v1beta1/cluster.go:554-591 | creates a missing group, or goes on to its members |
| `Reconciler.ClusterReconciler.ReconcileGroups` | controller/pkg/controller/consensus/v1beta1/cluster.go:531-552 | goes through the groups in order, stops at the first write or failure, then writes the cluster's state if it differs |
| `Reconciler.ClusterReconciler.GetPartitionStatuses` | controller/pkg/controller/consensus/v1beta1/cluster.go:805-849 | every group's leader and followers by address; fails when a resource is missing |
| `Reconciler.ClusterReconciler.ReconcileStatus` | controller/pkg/controller/consensus/v1beta1/cluster.go:751-765 | writes the list of partitions exactly when it fails the test |
| `Reconciler.ClusterReconciler.Reconcile` | controller/pkg/controller/consensus/v1beta1/cluster.go:183-196 | one pass: the groups, and when they are quiet the partitions |
| `Fixpoint.PutMemberAt` | controller/pkg/controller/consensus/v1beta1/cluster.go:616-619 | writing one member changes that member and no other member or group, because names tell resources apart |
| `Deployment.ResourceNames` | controller/pkg/controller/consensus/v1beta1/cluster.go:555-558 | groups and members go by the names the event watchers look up, and those give back store, group and member |
| `Fixpoint.PassWritesOne` | controller/pkg/controller/consensus/v1beta1/cluster.go:183-196 | a pass that writes changes exactly the one resource it reports, a member as that member's own pass would |
| `Fixpoint.PassProgress` | controller/pkg/controller/consensus/v1beta1/cluster.go:183-196 | a pass is quiet if and only if nothing is left to do; a write brings the measure down; without a write nothing changes |
| `Fixpoint.WritesBounded` | controller/pkg/controller/consensus/v1beta1/cluster.go:531-613 | any number of passes write at most `G*(2+4M)+2` times |
| `Fixpoint.FixpointReached` | controller/pkg/controller/consensus/v1beta1/cluster.go:531-613 | within that many passes a world is reached that no pass changes |
| `Converged.RunSound` | controller/pkg/controller/consensus/v1beta1/cluster.go:670-747 | in every run of passes, events and pod changes: members are on their own pods, a recorded version implies a known state, statuses name own members once |
| `Converged.StepGrows` | controller/pkg/controller/consensus/v1beta1/cluster.go:531-765 | no step takes a resource away or makes a group forget a member |
| `Converged.RunPublished` | controller/pkg/controller/consensus/v1beta1/cluster.go:751-849 | in every run, the published list is, address by address, what the groups' statuses were in one world the run came through, and the groups still know everybody they knew then |
| `Converged.StatusTestExact` | controller/pkg/controller/consensus/v1beta1/cluster.go:767-849 | in every reachable world of every specification, the published list passes the test against the current one if and only if all leaders agree and all follower lists are permutations |
| `Converged.QuietMeansAtRest` | controller/pkg/controller/consensus/v1beta1/cluster.go:531-765 | in every reachable world where a pass is quiet: all groups and members exist, refer to their pods and are current; group and cluster are ready exactly when all members are; the published partitions are right |
| `Converged.NeverFails` | controller/pkg/controller/consensus/v1beta1/cluster.go:670-747 | with all pods there and reachable no pass fails |
| `Converged.ReconcilerConverges` | controller/pkg/controller/consensus/v1beta1/cluster.go:151-197 | from every reachable world with all pods up, such a rest is reached within the bound |
| `Converged.ReportCountsExactly` | controller/pkg/controller/consensus/v1beta1/cluster.go:693-747 | a report that a member is ready still shows when the reconciler has come to rest, if and only if the version now running had been recorded before the report came |
| `Converged.ReportIsUpdater` | controller/pkg/controller/consensus/v1beta1/watcher.go:199-207 | a ready report does to a member in the cluster what the member's status updater does |
| `Deployment.RestIsAsAsked` | controller/pkg/controller/consensus/v1beta1/cluster.go:853-883 | on the fields of the specification: at rest exactly the groups 1 to `groups` (1 when zero) exist, and in each exactly the members 1 to `q + n`, for a quorum size `q` (the replicas when absent, 1 when zero) and `n` read replicas (none when absent) |
| `Deployment.RunAsked` | controller/pkg/controller/consensus/v1beta1/cluster.go:531-591 | in every run, nothing exists that the specification does not ask for, and every member is of the type for its number |
| `Deployment.MembersAsAsked` | controller/pkg/controller/consensus/v1beta1/cluster.go:626-648 | in every run, on the fields of the specification: a member votes if its number is within the quorum and observes otherwise, and the number in its pod's name is its place among all members modulo the replicas |
| `Deployment.VersionRecorded` | controller/pkg/controller/consensus/v1beta1/cluster.go:670-747 | a member that has a version after a pass had that version and that pod before; or its pod was there and reachable, is the one it refers to, ran that very version, newer than any recorded, and the member was marked not ready first |
| `Deployment.VersionWasSeen` | controller/pkg/controller/consensus/v1beta1/cluster.go:670-747 | in every run, a recorded version was seen running in the pod the member refers to, at a point at which its node answered |
| `Deployment.VersionOfContainer` | controller/pkg/controller/consensus/v1beta1/cluster.go:685-691 | the version is one more than the restarts of the first container named `atomix-consensus-node`, in 32 bits |
| `Deployment.VersionOfNone` | controller/pkg/controller/consensus/v1beta1/cluster.go:685-691 | and 0 when there is none |
| `Deployment.PassMakesNobodyReady` | controller/pkg/controller/consensus/v1beta1/cluster.go:593-749 | no pass makes a member ready |
| `Deployment.UnreachableFails` | controller/pkg/controller/consensus/v1beta1/cluster.go:665-740 | a pass that comes to a member whose pod is missing, or that needs a bootstrap its node does not answer, fails and leaves everything as it was |
| `Store.GetProtocolConfig` | controller/pkg/controller/consensus/v1beta1/store.go:222-236 | the configuration is that of the partitions in order; read back, it gives the very partitions, when no leader's address is the empty string |
| `Store.ConfigReadsBack` | controller/pkg/controller/consensus/v1beta1/store.go:222-236 | a reader of the configuration gets every number, leader and follower list back if and only if no leader's address is the empty string |
| `Store.IsPartitionConfigEqual` | controller/pkg/controller/consensus/v1beta1/store.go:252-271 | decides the one-way test on two partitions |
| `Store.IsProtocolConfigEqual` | controller/pkg/controller/consensus/v1beta1/store.go:238-250 | decides the test on two configurations |
| `Store.SameTest` | controller/pkg/controller/consensus/v1beta1/store.go:238-271 | on configurations made from partitions it decides what the cluster's own test decides on the partitions |
| `Store.StoreReconciler.Reconcile` | controller/pkg/controller/consensus/v1beta1/store.go:87-220 | creates the cluster; waits for partitions; then writes not-ready, the data store, its configuration, or ready, in this order and one per pass |
| `Store.StoreProgress` | controller/pkg/controller/consensus/v1beta1/store.go:87-220 | a pass is quiet if and only if the data store is current and the state is the cluster's; any other pass leaves one write less to come |
| `Store.StoreRests` | controller/pkg/controller/consensus/v1beta1/store.go:87-220 | while the cluster stays as it is, two passes are enough |
| `Store.ReadyComesLast` | controller/pkg/controller/consensus/v1beta1/store.go:189-219 | a store is declared ready only when the cluster is and the data store is current |
| `Store.NotReadyComesFirst` | controller/pkg/controller/consensus/v1beta1/store.go:131-138 | a store whose cluster is not ready is marked so before clients are told anything new |
| `Store.ChangeIsReported` | controller/pkg/controller/consensus/v1beta1/store.go:87-220 | a pass writes one thing at most and reports it: a cluster without a status, a data store, its configuration or the state |
| `Service.LeadersAlwaysNamed` | controller/pkg/controller/consensus/v1beta1/cluster.go:821-832 | no partition the cluster reconciler makes has the empty string for a leader, so the store's test is the cluster's |
| `Service.RunHistory` | controller/pkg/controller/consensus/v1beta1/store.go:87-220 | in every run of both reconcilers: what the data store holds is a complete list that the cluster had published in one state the run came through; and a ready store has a data store |
| `Service.StoreTestExact` | controller/pkg/controller/consensus/v1beta1/store.go:238-271 | in every run: the store's test passes if and only if the data store tells clients what is published, and it decides what the cluster's test would decide on the list, once published, that the data store was made from |
| `Service.ReadyWhenServed` | controller/pkg/controller/consensus/v1beta1/store.go:173-219 | in every run: a store is declared ready only when the cluster is, and when the data store already tells clients exactly what is published |
| `Service.StoreStepIsPass` | controller/pkg/controller/consensus/v1beta1/store.go:103-127 | in every run, a pass of the store reconciler does to the world what is said of it; nothing is there before the cluster is created |
| `Service.RestServes` | controller/pkg/controller/consensus/v1beta1/store.go:87-220 | in every run, when both reconcilers are quiet: entry `g` read by clients has number `g`, the pod address of the leader that group's status names, or the empty string exactly when it names none, and those of its followers; and the store is ready exactly when every member is |
| `Service.ServiceConverges` | controller/pkg/controller/consensus/v1beta1/store.go:87-220 | from every point of every run, with all pods up, one store pass, at most `G*(2+4M)+2` cluster passes and two store passes lead there |

## Left out

- Correlation.NobodyGetsAnothersOutput: is about runs in which no number repeats within a term, because the 64-bit counter wraps; `DeliveredToKeyHolder` covers all runs, and `RepeatMisdelivers` shows what the others lead to.
- Torn reads of the leader and term pair, and overlapping updates of `watcherID`.
- Members.FleetRun: begins when the group's own resource exists; the reconciler creates it before any of its members.
- What is left in a message after a decode has failed, the difference between nil and empty bytes, UTF-8 in strings, and sizes that overflow an `int`.
- Varint.DecodeVarint: is stated for any width; the code uses 32 and 64.
- `Event` timestamps, the other event messages, the getters and the descriptor, which repeat the shapes covered.
- The Raft library, its snapshots, its truncation of leader and node numbers to 32 bits in `events.go`, and queries.
- The service's state machine and its streams beyond their identity and their close callback.
- Closing and removing watchers, the watcher goroutine, reconnection and back-off, finalizers of pods.
- Creation of config maps, stateful sets and services, images, labels, annotations, owner references, recorded events and `lastUpdated` times.
- The content of the bootstrap request a member's node is sent; only whether the node answers is modelled.
- Conflicts and failures of Kubernetes reads and writes other than a resource not being there.  A failed read of the cluster is taken by the store reconciler for a cluster without partitions.
- The JSON text of a data store's configuration, taken for the configuration itself.
- Changes of a specification after its cluster was created.
- `options.go`, `config.go`, `server.go`, `driver/` and the `main.go` files, which wire and configure.
