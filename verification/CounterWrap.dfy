/**
  Where the guarantee of a private output ends.  A context numbers its calls with a
  64-bit counter, and `Correlation.NobodyGetsAnothersOutput` covers every run in
  which no number repeats within a term.  Here is the converse: wherever a run has
  led to a repeated number, with a stream still to be found under it, the run goes on
  to give a client the output of another's proposal.  Such runs exist, and one with
  2^64 + 1 calls in a term is followed to the end.
 */
module CounterWrap {
  import opened Bits
  import opened Varint
  import opened Messages
  import opened Context
  import opened Correlation
  import opened Options

  /** Member 1 leads term 1 and has begun `n` calls, numbered one after the other. */
  function Begun(n: nat): System {
    System([Incarnation(1, PartitionView(false, 1, 1), Registry(map[], n % TWO_64), 0, n, {1})],
           map[1 := 0], Calls(n), [], map[1 := 1], {}, [])
  }

  function Calls(n: nat): (r: seq<Call>)
    ensures |r| == n
  {
    seq(n, (k: nat) => Call(0, [], 1, Numbered(k + 1)))
  }

  function Anything(b: seq<byte>): bool { true }

  lemma Extend(run: seq<Action>, s: System, a: Action) returns (longer: seq<Action>)
    requires Reaches(run, s) && InRange(s) && Enabled(s, a)
    ensures run <= longer && Reaches(longer, Next(s, a))
  {
    hide Next, Enabled, InRange;
    longer := run + [a];
    assert longer[..|longer| - 1] == run && longer[|longer| - 1] == a;
  }

  lemma {:induction false} Numbering(n: nat) returns (run: seq<Action>)
    ensures Reaches(run, Begun(n))
  {
    if n == 0 {
      run := Elected();
    } else {
      hide RaftProposalBytes, Applied;
      run := Numbering(n - 1);
      var s := Begun(n - 1);
      run := Extend(run, s, Begin(0, []));
      var s1 := Next(s, Begin(0, []));
      run := Extend(run, s1, TakeNumber(n - 1));
      hide Reaches;
      NumberedNext(n);
    }
  }

  lemma Elected() returns (run: seq<Action>)
    ensures Reaches(run, Begun(0))
  {
    hide Reaches;
    Unstarted();
    run := Extend([], INITIAL, Start(1, 0));
    var s := Next(INITIAL, Start(1, 0));
    run := Extend(run, s, LeaderUpdated(1, 1, 1));
    var t := Next(s, LeaderUpdated(1, 1, 1));
    assert {} + {1} == {1};
    assert t.incs == Begun(0).incs;
    assert t.current == Begun(0).current && t.calls == Begun(0).calls && t.elected == Begun(0).elected;
  }

  lemma Unstarted()
    ensures Reaches([], INITIAL)
  {}

  lemma NumberedNext(n: nat)
    requires n > 0
    ensures Next(Next(Begun(n - 1), Begin(0, [])), TakeNumber(n - 1)) == Begun(n)
  {
    hide RaftProposalBytes, Applied;
    var s := Next(Begun(n - 1), Begin(0, []));
    assert s.calls == Calls(n - 1) + [Call(0, [], 1, Stage.Begun)];
    var t := Next(s, TakeNumber(n - 1));
    assert t.calls == Calls(n);
    assert t.incs == Begun(n).incs;
  }


  /** The first call is submitted and committed, the last takes its place in the
      registry, and the first one's entry is applied. */
  lemma WrappedCounterMisdelivers() returns (run: seq<Action>, t: System)
    ensures Reaches(run, t) && |t.incs| == 1 && t.incs[0].issued == TWO_64 + 1
    ensures t.delivered == [Delivery(0, 0, [], Some(TWO_64))]
  {
    hide Reaches, RaftProposalBytes, Applied;
    var last := TWO_64;
    var s := Begun(last + 1);
    run := Numbering(last + 1);
    run := Extend(run, s, Register(0));
    var s1 := Next(s, Register(0));
    run := Extend(run, s1, Submit(0));
    var s2 := Next(s1, Submit(0));
    run := Extend(run, s2, Commit(0));
    var s3 := Next(s2, Commit(0));
    run := Extend(run, s3, Register(last));
    var s4 := Next(s3, Register(last));
    run := Extend(run, s4, Apply(0, Anything));
    t := Next(s4, Apply(0, Anything));
    AppliedProposal(s4.incs[0].context, Anything, RaftProposal(1, 1, []));
  }

  // ----- every repeat can go wrong

  /** The stream of call `c` is registered under its key. */
  predicate Holds(s: System, c: nat)
    requires InRange(s) && c < |s.calls| && s.calls[c].HasNumber()
  {
    s.incs[s.calls[c].inc].context.Lookup(s.calls[c].Key()) == Some(c)
  }

  /** One of the two calls still has to register, or something is registered under their key. */
  predicate CanStillMeet(s: System, c: nat, d: nat)
    requires InRange(s) && c < |s.calls| && d < |s.calls| && s.calls[c].HasNumber()
  {
    || !s.calls[c].HasStream() || !s.calls[d].HasStream()
    || s.calls[c].Key() in s.incs[s.calls[c].inc].context.streams
  }

  lemma {:induction false} Drain(run: seq<Action>, s: System, i: nat, n: nat) returns (longer: seq<Action>, t: System)
    requires Reaches(run, s) && Core(s) && i < |s.incs| && s.incs[i].applied <= n <= |s.log|
    ensures run <= longer && Reaches(longer, t) && Core(t)
    ensures t.calls == s.calls && t.log == s.log && |t.incs| == |s.incs| && |s.delivered| <= |t.delivered|
    ensures t.incs[i].applied == n && t.incs[i].context == s.incs[i].context
    decreases n - s.incs[i].applied
  {
    hide Reaches, Core;
    longer, t := run, s;
    CoreInRange(s);
    if s.incs[i].applied < n {
      var a := Apply(i, Anything);
      ApplyFrame(s, a);
      StepKeepsCore(s, a);
      longer := Extend(run, s, a);
      hide Next;
      longer, t := Drain(longer, Next(s, a), i, n);
    }
  }

  /** With `y` registered under the key of the submitted call `x`, the next commit of
      `x` is delivered to `y`. */
  lemma MeetNow(run: seq<Action>, s: System, x: nat, y: nat) returns (longer: seq<Action>, t: System)
    requires Reaches(run, s) && Core(s) && x < |s.calls| && x != y && s.calls[x].stage.Submitted?
    requires s.incs[s.calls[x].inc].context.Lookup(s.calls[x].Key()) == Some(y)
    requires s.incs[s.calls[x].inc].applied <= |s.log|
    ensures run <= longer && Reaches(longer, t) && |s.delivered| < |t.delivered|
    ensures var z := t.delivered[|t.delivered| - 1]; z.call == x && z.stream == Some(y)
  {
    hide Reaches, Core, RaftProposalBytes, Applied;
    CoreInRange(s);
    var i := s.calls[x].inc;
    longer := Extend(run, s, Commit(x));
    StepKeepsCore(s, Commit(x));
    var s1 := Next(s, Commit(x));
    var s2;
    longer, s2 := Drain(longer, s1, i, |s.log|);
    CoreInRange(s2);
    AppliedLookup(s2, i, Anything);
    var a := Apply(i, Anything);
    ApplyFrame(s2, a);
    longer := Extend(longer, s2, a);
    t := Next(s2, a);
    assert t.delivered[|t.delivered| - 1] == Delivery(i, x, s.calls[x].input, Some(y));
  }

  lemma Submitting(run: seq<Action>, s: System, x: nat) returns (longer: seq<Action>, t: System)
    requires Reaches(run, s) && Core(s) && x < |s.calls| && s.calls[x].HasStream()
    ensures run <= longer && Reaches(longer, t) && Core(t) && t.delivered == s.delivered
    ensures |t.calls| == |s.calls| && t.calls[x].stage.Submitted?
    ensures t.incs == s.incs && t.log == s.log && forall c :: 0 <= c < |s.calls| ==> Stays(s.calls[c], t.calls[c])
    ensures forall c :: 0 <= c < |s.calls| && c != x ==> t.calls[c] == s.calls[c]
  {
    hide Reaches, Core, RaftProposalBytes, Applied;
    CoreInRange(s);
    longer, t := run, s;
    if s.calls[x].stage.Registered? {
      longer := Extend(run, s, Submit(x));
      StepKeepsCore(s, Submit(x));
      t := Next(s, Submit(x));
    }
  }

  lemma Registering(run: seq<Action>, s: System, y: nat) returns (longer: seq<Action>, t: System)
    requires Reaches(run, s) && Core(s) && y < |s.calls| && s.calls[y].stage.Numbered?
    ensures run <= longer && Reaches(longer, t) && Core(t) && t.delivered == s.delivered
    ensures |t.calls| == |s.calls| && |t.incs| == |s.incs| && t.calls[y].stage.Registered?
    ensures t.log == s.log && forall c :: 0 <= c < |s.calls| ==> Stays(s.calls[c], t.calls[c])
    ensures forall c :: 0 <= c < |s.calls| && c != y ==> t.calls[c] == s.calls[c]
    ensures s.calls[y].inc < |s.incs| && t.incs[s.calls[y].inc].context.Lookup(s.calls[y].Key()) == Some(y)
    ensures t.incs[s.calls[y].inc].applied == s.incs[s.calls[y].inc].applied
  {
    hide Reaches, Core, RaftProposalBytes, Applied;
    CoreInRange(s);
    longer := Extend(run, s, Register(y));
    StepKeepsCore(s, Register(y));
    t := Next(s, Register(y));
  }

  /** Wherever a run has led to two calls with one key, and they can still meet, it can
      go on until the output of one of them goes to another client. */
  lemma RepeatMisdelivers(run: seq<Action>, s: System, c: nat, d: nat) returns (longer: seq<Action>, t: System)
    requires Reaches(run, s) && InRange(s) && c < |s.calls| && d < |s.calls|
    requires Repeats(s.calls[c], s.calls[d]) && CanStillMeet(s, c, d)
    ensures run <= longer && Reaches(longer, t) && |s.delivered| < |t.delivered|
    ensures var z := t.delivered[|t.delivered| - 1];
            && z.call in {c, d} && z.stream.Some? && z.stream.value != z.call
            && (!s.calls[c].HasStream() || !s.calls[d].HasStream() || Holds(s, c) || Holds(s, d) ==> z.stream.value in {c, d})
  {
    hide Reaches, Core;
    CoreInvariant(run, s);
    AppliedInLog(run, s);
    KeysSharedExactly(s, c, d);
    longer, t := run, s;
    if s.calls[c].HasStream() && s.calls[d].HasStream() {
      FoundByKey(s, s.calls[c].inc, c);
      var owner := s.incs[s.calls[c].inc].context.streams[s.calls[c].Key()];
      var x := if owner == c then d else c;
      longer, t := Submitting(longer, t, x);
      longer, t := MeetNow(longer, t, x, owner);
    } else {
      var y := if s.calls[c].HasStream() then d else c;
      var x := if y == c then d else c;
      if !t.calls[x].HasStream() {
        longer, t := Registering(longer, t, x);
      }
      longer, t := Submitting(longer, t, x);
      longer, t := Registering(longer, t, y);
      longer, t := MeetNow(longer, t, x, y);
    }
  }

  /** Nobody applies what is not in the log. */
  lemma {:induction false} AppliedInLog(run: seq<Action>, t: System)
    requires Reaches(run, t)
    ensures forall i :: 0 <= i < |t.incs| ==> t.incs[i].applied <= |t.log|
    decreases |run|
  {
    hide RaftProposalBytes, Applied, Fits;
    if run != [] {
      var last := |run| - 1;
      var s :| Reaches(run[..last], s) && InRange(s) && Enabled(s, run[last]) && t == Next(s, run[last]);
      AppliedInLog(run[..last], s);
      AppliedStays(s, run[last]);
    }
  }

  lemma AppliedStays(s: System, a: Action)
    requires InRange(s) && Enabled(s, a) && forall i :: 0 <= i < |s.incs| ==> s.incs[i].applied <= |s.log|
    ensures var t := Next(s, a); forall i :: 0 <= i < |t.incs| ==> t.incs[i].applied <= |t.log|
  {
    hide RaftProposalBytes, Applied, Fits;
  }

  // ----- and calls that cannot meet any more never do

  /** A stream that is out of the registry does not get back in. */
  lemma GoneForGood(s: System, a: Action, c: nat)
    requires Core(s) && Enabled(s, a) && c < |s.calls| && s.calls[c].HasStream() && !Holds(s, c)
    ensures var t := Next(s, a); InRange(t) && c < |t.calls| && t.calls[c].HasStream() && !Holds(t, c)
  {
    hide Core, RaftProposalBytes, Fits, Applied;
    StepKeepsCore(s, a);
    CoreInRange(s);
    CoreInRange(Next(s, a));
    if a.Register? {
      RegisterFrame(s, a);
      hide Next, Enabled;
    } else if a.Close? {
      CloseFrame(s, a);
      hide Next, Enabled;
    } else if a.Apply? {
      ApplyFrame(s, a);
      hide Next, Enabled;
    }
  }

  /** A step delivers at most once, and never to a stream that is out of the registry. */
  lemma NotDeliveredTo(s: System, a: Action, c: nat)
    requires Core(s) && Enabled(s, a) && c < |s.calls| && s.calls[c].HasStream() && !Holds(s, c)
    ensures var t := Next(s, a);
            && s.delivered <= t.delivered
            && forall k :: |s.delivered| <= k < |t.delivered| ==> t.delivered[k].stream != Some(c)
  {
    hide Core;
    CoreInRange(s);
    if a.Apply? {
      AppliedLookup(s, a.inc, a.parses);
      ApplyFrame(s, a);
      hide Next;
      var e := s.log[s.incs[a.inc].applied].call;
      if s.calls[e].Key() in s.incs[a.inc].context.streams {
        FoundByKey(s, a.inc, e);
      }
    } else {
      CallsStay(s, a);
    }
  }

  /** A run leads to one state. */
  lemma {:induction false} Deterministic(run: seq<Action>, s: System, t: System)
    requires Reaches(run, s) && Reaches(run, t)
    ensures s == t
    decreases |run|
  {
    hide Next, Enabled, InRange;
    if run != [] {
      var last := |run| - 1;
      var u :| Reaches(run[..last], u) && InRange(u) && Enabled(u, run[last]) && s == Next(u, run[last]);
      var v :| Reaches(run[..last], v) && InRange(v) && Enabled(v, run[last]) && t == Next(v, run[last]);
      Deterministic(run[..last], u, v);
    }
  }

  /** In every continuation of a run, nothing more is ever delivered to a stream that is
      out of the registry. */
  lemma {:induction false} NothingMoreDelivered(run: seq<Action>, s: System, longer: seq<Action>, t: System, c: nat)
    requires Reaches(run, s) && InRange(s) && run <= longer && Reaches(longer, t)
    requires c < |s.calls| && s.calls[c].HasStream() && !Holds(s, c)
    ensures InRange(t) && c < |t.calls| && t.calls[c].HasStream() && !Holds(t, c)
    ensures s.delivered <= t.delivered
    ensures forall k :: |s.delivered| <= k < |t.delivered| ==> t.delivered[k].stream != Some(c)
    decreases |longer|
  {
    hide Next, Enabled, InRange, Core, Holds;
    if |longer| == |run| {
      assert longer == run;
      Deterministic(run, s, t);
    } else {
      var last := |longer| - 1;
      var u :| Reaches(longer[..last], u) && InRange(u) && Enabled(u, longer[last]) && t == Next(u, longer[last]);
      NothingMoreDelivered(run, s, longer[..last], u, c);
      CoreInvariant(longer[..last], u);
      GoneForGood(u, longer[last], c);
      NotDeliveredTo(u, longer[last], c);
    }
  }

  /** Between `s` and `t`, an entry of one of the calls was handed to the other's stream. */
  ghost predicate Crossed(s: System, t: System, c: nat, d: nat) {
    exists k :: |s.delivered| <= k < |t.delivered|
                && ((t.delivered[k].call == c && t.delivered[k].stream == Some(d))
                    || (t.delivered[k].call == d && t.delivered[k].stream == Some(c)))
  }

  /** Wherever a run has led to two calls with one key: it can go on to hand an entry of
      one to the stream of the other if and only if one of them has still to register,
      or one of them is registered. */
  lemma CrossExactly(run: seq<Action>, s: System, c: nat, d: nat)
    requires Reaches(run, s) && InRange(s) && c < |s.calls| && d < |s.calls| && Repeats(s.calls[c], s.calls[d])
    ensures (exists longer, t :: run <= longer && Reaches(longer, t) && Crossed(s, t, c, d)) <==>
            !s.calls[c].HasStream() || !s.calls[d].HasStream() || Holds(s, c) || Holds(s, d)
  {
    hide Reaches, InRange, Core;
    if !s.calls[c].HasStream() || !s.calls[d].HasStream() || Holds(s, c) || Holds(s, d) {
      CoreInvariant(run, s);
      KeysSharedExactly(s, c, d);
      var longer, t := RepeatMisdelivers(run, s, c, d);
      var z := t.delivered[|t.delivered| - 1];
      assert (z.call == c && z.stream == Some(d)) || (z.call == d && z.stream == Some(c));
      assert Crossed(s, t, c, d);
    } else {
      forall longer, t | run <= longer && Reaches(longer, t)
        ensures !Crossed(s, t, c, d)
      {
        NothingMoreDelivered(run, s, longer, t, c);
        NothingMoreDelivered(run, s, longer, t, d);
      }
    }
  }
}
