/**
  The stream registry shared by a partition's executor and its state machine, the
  partition's view of its leader, the executor that proposes, and the state
  machine that applies.  A client's output stream is any value of type `S`; the
  Raft host is the list of byte strings handed to it.
 */
module Context {
  import opened Bits
  import opened Varint
  import opened Decoder
  import opened Messages
  import opened Marshal
  import opened Options

  datatype StreamID = StreamID(term: uint64, sequenceNum: uint64)

  // ----- the registry, as a value

  datatype Registry<S> = Registry(streams: map<StreamID, S>, sequenceNum: uint64) {
    /** The number the counter hands out next; the counter wraps like the 64-bit word it is. */
    function NextNumber(): uint64 { (sequenceNum + 1) % TWO_64 }

    function Numbered(): Registry<S> { this.(sequenceNum := NextNumber()) }

    function Added(id: StreamID, stream: S): Registry<S> { this.(streams := streams[id := stream]) }

    function Removed(id: StreamID): Registry<S> { this.(streams := streams - {id}) }

    /** No entry stands for the stream that swallows everything sent to it. */
    function Lookup(id: StreamID): Option<S> {
      if id in streams then Some(streams[id]) else None
    }
  }

  class ProtocolContext<S> {
    var streams: map<StreamID, S>
    var sequenceNum: uint64

    ghost function State(): Registry<S>
      reads this
    {
      Registry(streams, sequenceNum)
    }

    constructor ()
      ensures State() == Registry(map[], 0)
    {
      streams, sequenceNum := map[], 0;
    }

    /** The counter is bumped first, then the stream is inserted under its number. */
    method AddStream(term: uint64, stream: S) returns (n: uint64)
      modifies this
      ensures n == old(State()).NextNumber()
      ensures State() == old(State()).Numbered().Added(StreamID(term, n), stream)
    {
      sequenceNum := (sequenceNum + 1) % TWO_64;
      n := sequenceNum;
      streams := streams[StreamID(term, n) := stream];
    }

    method RemoveStream(term: uint64, n: uint64)
      modifies this
      ensures State() == old(State()).Removed(StreamID(term, n))
    {
      streams := streams - {StreamID(term, n)};
    }

    method GetStream(term: uint64, n: uint64) returns (stream: Option<S>)
      ensures stream == State().Lookup(StreamID(term, n))
    {
      if StreamID(term, n) in streams {
        return Some(streams[StreamID(term, n)]);
      }
      return None;
    }
  }

  // ----- the partition

  /** What a partition knows about its Raft group. */
  datatype PartitionView = PartitionView(ready: bool, term: uint64, leader: uint32) {
    function WithLeader(newTerm: uint64, newLeader: uint32): PartitionView {
      this.(term := newTerm, leader := newLeader)
    }
  }

  class Partition {
    const memberID: uint32
    var ready: bool
    var leader: uint32
    var term: uint64

    ghost function View(): PartitionView
      reads this
    {
      PartitionView(ready, term, leader)
    }

    constructor (memberID: uint32)
      ensures this.memberID == memberID && View() == PartitionView(false, 0, 0)
    {
      this.memberID := memberID;
      ready, leader, term := false, 0, 0;
    }

    method SetReady()
      modifies this
      ensures View() == old(View()).(ready := true)
    {
      ready := true;
    }

    /** Both words are stored as one step. */
    method SetLeader(newTerm: uint64, newLeader: uint32)
      modifies this
      ensures View() == old(View()).WithLeader(newTerm, newLeader)
    {
      term := newTerm;
      leader := newLeader;
    }

    /** Both words are loaded as one step. */
    method GetLeader() returns (t: uint64, l: uint32)
      ensures t == View().term && l == View().leader
    {
      return term, leader;
    }
  }

  // ----- proposing and applying

  datatype ProposeError = Unavailable | RaftError(code: int)

  /** The Raft host: remembers what it was given, and answers as the cluster decides. */
  class RaftHost {
    var submitted: seq<seq<byte>>

    constructor ()
      ensures submitted == []
    {
      submitted := [];
    }

    method SyncPropose(b: seq<byte>, answer: Option<ProposeError>) returns (r: Option<ProposeError>)
      modifies this
      ensures submitted == old(submitted) + [b] && r == answer
    {
      submitted := submitted + [b];
      return answer;
    }
  }

  /** An encoded proposal is little longer than its payload. */
  lemma ProposalSize(p: RaftProposal)
    ensures |RaftProposalBytes(p)| <= |p.data| + |VarintBytes(|p.data|)| + 23
  {
    SovIsLength(p.term);
    SovRange(p.term);
    SovIsLength(p.sequenceNum);
    SovRange(p.sequenceNum);
  }

  /** A payload that leaves room for its wrapping in a 63-bit length. */
  predicate Fits(input: seq<byte>) {
    |input| + 33 < TWO_63
  }

  lemma ProposalFits(p: RaftProposal)
    requires Fits(p.data)
    ensures |RaftProposalBytes(p)| < TWO_63
  {
    ProposalSize(p);
    SovIsLength(|p.data|);
    SovRange(|p.data|);
  }

  class Executor<S> {
    const partition: Partition
    const host: RaftHost
    const streams: ProtocolContext<S>

    constructor (partition: Partition, host: RaftHost, streams: ProtocolContext<S>)
      ensures this.partition == partition && this.host == host && this.streams == streams
    {
      this.partition, this.host, this.streams := partition, host, streams;
    }

    /** A member that does not take itself for the leader refuses and changes nothing.
        The leader registers the stream under its term and a new number, and hands
        exactly one proposal carrying both to Raft.  A Raft error leaves the stream
        registered. */
    method Propose(input: seq<byte>, stream: S, answer: Option<ProposeError>) returns (r: Option<ProposeError>)
      requires Fits(input)
      modifies streams, host
      ensures partition.leader != partition.memberID ==>
                r == Some(Unavailable) && streams.State() == old(streams.State()) && host.submitted == old(host.submitted)
      ensures partition.leader == partition.memberID ==>
                var n := old(streams.State()).NextNumber();
                && r == answer
                && streams.State() == old(streams.State()).Numbered().Added(StreamID(partition.term, n), stream)
                && host.submitted == old(host.submitted) + [RaftProposalBytes(RaftProposal(partition.term, n, input))]
    {
      var term, leader := partition.GetLeader();
      if leader != partition.memberID {
        return Some(Unavailable);
      }
      var n := streams.AddStream(term, stream);
      var proposal := RaftProposal(term, n, input);
      ProposalFits(proposal);
      var b := MarshalProposal(proposal);
      r := host.SyncPropose(b, answer);
    }
  }

  /** What applying one log entry does: the error of a malformed entry, or the input
      handed to the service's state machine together with the stream found for it. */
  function Applied<S>(context: Registry<S>, parses: seq<byte> -> bool, b: seq<byte>): Option<(seq<byte>, Option<S>)> {
    match Decode(RaftProposalSchema(), b, 0, NO_PROPOSAL)
    case Err(_) => None
    case Ok(p) =>
      if parses(p.data) then Some((p.data, context.Lookup(StreamID(p.term, p.sequenceNum)))) else None
  }

  class StateMachine<S> {
    const protocol: ProtocolContext<S>
    /** The calls made to the service's state machine, which is not part of this model. */
    var proposed: seq<(seq<byte>, Option<S>)>

    constructor (protocol: ProtocolContext<S>)
      ensures this.protocol == protocol && proposed == []
    {
      this.protocol, proposed := protocol, [];
    }

    /** `parses` says which payloads are well-formed inputs of the service. */
    method Update(b: seq<byte>, parses: seq<byte> -> bool) returns (ok: bool)
      modifies this
      ensures ok == Applied(protocol.State(), parses, b).Some?
      ensures proposed == old(proposed) +
                if ok then [Applied(protocol.State(), parses, b).value] else []
    {
      var proposal := UnmarshalRaftProposal(b, NO_PROPOSAL);
      if proposal.Err? {
        return false;
      }
      var p := proposal.value;
      if !parses(p.data) {
        return false;
      }
      var stream := protocol.GetStream(p.term, p.sequenceNum);
      proposed := proposed + [(p.data, stream)];
      return true;
    }
  }

  /** Across the two: whatever context the entry meets, applying what `Propose` wrote
      under `(term, n)` hands on the client's own input and looks up `(term, n)`. */
  lemma AppliedProposal<S>(context: Registry<S>, parses: seq<byte> -> bool, p: RaftProposal)
    requires Fits(p.data) && parses(p.data)
    ensures Applied(context, parses, RaftProposalBytes(p)) ==
            Some((p.data, context.Lookup(StreamID(p.term, p.sequenceNum))))
  {
    ProposalFits(p);
    RaftProposalRoundTrip(p);
  }

  /** A payload the service cannot parse ends the application of the entry. */
  lemma UnparsedProposal<S>(context: Registry<S>, parses: seq<byte> -> bool, p: RaftProposal)
    requires Fits(p.data)
    ensures Applied(context, parses, RaftProposalBytes(p)).Some? <==> parses(p.data)
  {
    ProposalFits(p);
    RaftProposalRoundTrip(p);
  }
}
