/** What a handler call may commit, apply, answer and put into the log. All handlers except a
    successful merge of a proposal are `Steady`; that one is `Merging`. */
module PaxosProgress {
  import opened Options
  import opened PancyDb
  import opened PaxosSpec
  import opened PaxosMachine
  import opened PaxosCluster
  import opened PaxosLeader
  import opened PaxosHandlers

  ghost predicate MachineKept(s: Rep, t: Rep, outs: seq<Output>) {
    MachineOk(s) ==> MachineOk(t) && forall o :: o in outs ==> Answers(t, o)
  }

  /** `extra` holds the client request being handled, if there is one. */
  ghost predicate Steady(s: Rep, t: Rep, outs: seq<Output>, extra: seq<Request>) {
    && t.id == s.id
    && s.log <= t.log && s.commit <= t.commit <= |t.log| && s.applied <= t.applied && |t.matchIndex| == t.n
    && (t.commit > s.commit ==> s.role == t.role == Leader && t.round == s.round && Committable(t, t.commit))
    && (forall o :: o in outs && o.ToReplica? && o.msg.Propose? ==>
          t.role == Leader && o.msg.round == t.round && o.msg.decide <= t.commit)
    && MachineKept(s, t, outs)
    && (forall k :: |s.log| <= k < |t.log| ==> t.log[k].req in s.queue + extra)
    && (forall r :: r in t.queue ==> r in s.queue + extra)
  }

  ghost predicate Merging(s: Rep, m: Message, t: Rep, outs: seq<Output>) {
    && m.Propose? && m.prevIndex <= |s.log| && m.round >= s.round && PrefixMatches(s, m.prevIndex, m.prevRound)
    && MergedInto(s, m, t, outs)
    && s.commit <= t.commit && s.applied <= t.applied
    && s.commit <= |s.log| && t.log[..s.commit] == s.log[..s.commit]
    && MachineKept(s, t, outs) && t.queue == []
  }

  lemma LedSteady(s: Rep, a: Rep, t: Rep, outs: seq<Output>, extra: seq<Request>)
    requires Shape(s) && s.role == Leader && Led(a, t, outs) && a.id == s.id
    requires a.log == s.log && a.commit == s.commit && a.applied == s.applied && a.machine == s.machine
    requires a.round == s.round && a.queue == s.queue + extra
    ensures Steady(s, t, outs, extra)
  {
    assert forall o :: o in outs ==> Quotes(t, o);
  }

  lemma ProbeSteady(s: Rep, m: Message)
    requires Shape(s) && m.Probe?
    ensures var (t, outs) := HandleProbe(s, m); Steady(s, t, outs, [])
  {
  }

  lemma AckSteady(s: Rep, m: Message)
    requires Shape(s) && m.Ack? && m.server < s.n && (s.role == Leader ==> NextOk(s))
    requires s.role == Leader && m.round == s.round && m.success ==> m.nextIndex <= |s.log| + 1
    ensures var (t, outs) := HandleAck(s, m); Steady(s, t, outs, [])
  {
    var (t, outs) := HandleAck(s, m);
    if m.round <= s.round && s.role == Leader && m.round == s.round {
      assert s.queue + [] == s.queue;
      if m.success {
        ResendLed(Matched(s, m), m.server);
        LedSteady(s, Matched(s, m), t, outs, []);
      } else {
        BackOffSteady(s, m);
      }
    }
  }

  lemma BackOffSteady(s: Rep, m: Message)
    requires Shape(s) && m.Ack? && m.server < s.n && s.role == Leader && NextOk(s) && m.round == s.round && !m.success
    ensures var (t, outs) := HandleAck(s, m); Steady(s, t, outs, [])
  {
    var (t, outs) := HandleAck(s, m);
    assert s.queue + [] == s.queue;
    var asked := if m.nextIndex == 0 then 1 else m.nextIndex;
    var held := s.nextIndex[m.server];
    var fallback := if asked < held then asked else if held > 1 then held - 1 else 1;
    var a := s.(nextIndex := s.nextIndex[m.server := Max(fallback, s.trim + 1)]);
    SendLed(a, m.server);
    LedSteady(s, a, t, outs, []);
  }

  lemma ClientSteady(s: Rep, req: Request)
    requires Shape(s) && (s.role == Leader ==> NextOk(s))
    ensures var (t, outs) := HandleClient(s, req); Steady(s, t, outs, [req])
  {
    var (t, outs) := HandleClient(s, req);
    if s.role == Leader {
      if req.serial in s.machine.cache {
        if MachineOk(s) { ReplayKeepsResponses(s.log[..s.applied], 0); }
      } else if req.serial !in s.busy {
        var a := s.(busy := s.busy + {req.serial}, queue := s.queue + [req]);
        if |a.queue| >= APPEND_BATCH_SIZE { FlushLed(a); } else { IdleLed(a); }
        LedSteady(s, a, t, outs, [req]);
      }
    }
  }

  /** Winning an election commits and applies nothing. */
  lemma BroadcastCommits(b: Rep, k: nat)
    requires k <= b.n && Shape(b) && NextOk(b) && b.role == Leader
    ensures var (t, o) := BroadcastTo(b, k);
            && t == b.(nextIndex := t.nextIndex)
            && forall x :: x in o ==> x.ToReplica? && x.msg.Propose? && x.msg.round == b.round && x.msg.decide <= b.commit
  {
    if k > 0 { BroadcastCommits(b, k - 1); }
  }

  lemma PrepareSteady(s: Rep, m: Message)
    requires Shape(s) && m.Prepare? && m.server < s.n
    ensures var (t, outs) := HandlePrepare(s, m); Steady(s, t, outs, [])
  {
    if m.round <= s.round && s.role == Candidate && m.round == s.round && m.promised && !s.prepareOk[m.server] {
      var a := s.(prepareOk := s.prepareOk[m.server := true]);
      if HasQuorum(a.n, |Promisers(a)|) { BroadcastCommits(BecomeLeader(a), a.n); }
    }
  }

  lemma TimeoutSteady(s: Rep)
    requires Shape(s) && (s.role == Leader ==> NextOk(s))
    ensures var (t, outs) := HandleTimeout(s); Steady(s, t, outs, [])
  {
    var (t, outs) := HandleTimeout(s);
    if s.role == Leader {
      if s.queue != [] { FlushLed(s); } else { BroadcastLed(s, s.n); }
      assert s.queue + [] == s.queue;
      LedSteady(s, s, t, outs, []);
    } else {
      StartProbeSteady(s);
    }
  }

  lemma StartProbeSteady(s: Rep)
    requires Shape(s) && s.role != Leader
    ensures var (t, outs) := StartProbe(s); Steady(s, t, outs, [])
  {
    var a := s.(role := Candidate, round := s.round + 1, leaderHint := s.id, promised := Some(s.id),
                prepareOk := Filled(s.n, false)[s.id := true]);
    var probe := Probe(a.round, a.id, |a.log|, RoundAt(a.log, |a.log|));
    ToPeersQuote(a, probe, a.n);
    if HasQuorum(s.n, 1) { BroadcastCommits(BecomeLeader(a), a.n); }
  }

  lemma ProposeProgress(s: Rep, m: Message)
    requires Shape(s) && m.Propose?
    ensures var (t, outs) := HandlePropose(s, m); Steady(s, t, outs, []) || Merging(s, m, t, outs)
  {
    var (t, outs) := HandlePropose(s, m);
    var f := BecomeFollower(s, m.round, m.leader);
    if m.round >= s.round && PrefixMatches(f, m.prevIndex, m.prevRound)
       && Merge(f.log, f.commit, m.prevIndex, m.entries).Merged? {
      MergedShape(s, m);
      MergedMachine(s, m, f, Merge(f.log, f.commit, m.prevIndex, m.entries).log);
    }
  }

  /** What a successful merge keeps of the machine, the committed prefix and the queue. */
  lemma MergedMachine(s: Rep, m: Message, f: Rep, log: seq<Entry>)
    requires Shape(s) && m.Propose? && m.prevIndex <= |s.log| && f == BecomeFollower(s, m.round, m.leader) && m.round >= s.round
    requires PrefixMatches(f, m.prevIndex, m.prevRound) && Merge(f.log, f.commit, m.prevIndex, m.entries) == Merged(log)
    ensures var (t, outs) := HandlePropose(s, m);
            && s.commit <= t.commit && s.applied <= t.applied && t.queue == []
            && s.commit <= |s.log| && s.commit <= |log| && log[..s.commit] == s.log[..s.commit]
            && MachineKept(s, t, outs)
  {
    var g := f.(log := log, commit := if m.decide > f.commit then Min(m.decide, |log|) else f.commit);
    MergeKeepsCommitted(f.log, f.commit, m.prevIndex, m.entries);
    ApplyKeeps(g);
    if MachineOk(s) {
      assert log[..s.applied] == log[..s.commit][..s.applied] == s.log[..s.commit][..s.applied] == s.log[..s.applied];
      ApplyCommittedOk(g);
    }
  }

  ghost function Extra(e: Event): seq<Request> {
    if e.Client? then [e.req] else []
  }

  /** The replica whose handler the event calls. */
  ghost function Target(e: Event): nat {
    match e
    case Deliver(p) => if p.ToReplica? then p.dst else 0
    case Drop(p) => 0
    case Client(i, _) => i
    case Timeout(i) => i
  }

  ghost predicate Progress(c: Cluster, e: Event, t: Rep, outs: seq<Output>)
    requires Target(e) < |c.reps| && (e.Deliver? ==> e.packet.ToReplica?)
  {
    var s := c.reps[Target(e)];
    t.id == Target(e) && (Steady(s, t, outs, Extra(e)) || (e.Deliver? && Merging(s, e.packet.msg, t, outs)))
  }

  lemma HandlerProgress(c: Cluster, e: Event)
    requires Inv(c) && Ready(c, e) && !e.Drop?
    ensures var (t, outs) := Handler(c, e); Progress(c, e, t, outs)
  {
    match e
    case Deliver(p) =>
      assert MessageOk(c, p);
      assert RepOk(c, p.dst);
      DeliverProgress(c, p);
    case Client(i, req) =>
      assert RepOk(c, i);
      ClientSteady(c.reps[i], req);
    case Timeout(i) =>
      assert RepOk(c, i);
      TimeoutSteady(c.reps[i]);
  }

  lemma DeliverProgress(c: Cluster, p: Output)
    requires |c.reps| == c.n && p.ToReplica? && p.dst < c.n && RepOk(c, p.dst) && MessageOk(c, p)
    ensures var s := c.reps[p.dst];
            var (t, outs) := HandleReplicaMessage(s, p.msg);
            t.id == p.dst && (Steady(s, t, outs, []) || Merging(s, p.msg, t, outs))
  {
    var s := c.reps[p.dst];
    match p.msg
    case Probe(_, _, _, _) => ProbeSteady(s, p.msg);
    case Prepare(_, _, _) => PrepareSteady(s, p.msg);
    case Propose(_, _, _, _, _, _, _) => ProposeProgress(s, p.msg);
    case Ack(_, _, _, _, _) => AckSteady(s, p.msg);
  }
}
