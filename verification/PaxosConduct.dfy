/** Two habits of every handler: only a leader answers clients for real, and nothing committed is
    left unapplied. */
module PaxosConduct {
  import opened Options
  import opened PancyDb
  import opened PaxosSpec
  import opened PaxosMachine
  import opened PaxosCluster
  import opened PaxosLeader
  import opened PaxosHandlers
  import opened PaxosProgress

  ghost predicate IsReply(o: Output) {
    o.ToClient? && !o.resp.Redirection?
  }

  ghost predicate Proper(s: Rep, t: Rep, outs: seq<Output>) {
    && (forall o :: o in outs && IsReply(o) ==> t.role == Leader)
    && (s.applied == s.commit ==> t.applied == t.commit)
  }

  // ----- what a leader sends and applies -----

  lemma FlushCatchesUp(s: Rep)
    requires Shape(s)
    ensures s.applied == s.commit ==> Flush(s).0.applied == Flush(s).0.commit
    decreases |s.queue|
  {
    if s.role == Leader && s.queue != [] {
      FlushBatchKeeps(s);
      AdvanceKeeps(Broadcast(AppendQueued(s)).0);
      FlushCatchesUp(FlushBatch(s).0);
    }
  }

  lemma ResendCatchesUp(s: Rep, server: nat)
    requires Shape(s) && server < s.n
    ensures var t := AdvanceAndResend(s, server).0; t.applied == t.commit
  {
    AdvanceKeeps(s);
  }

  /** A follower applies without answering. */
  lemma AppliesSilently(s: Rep)
    requires s.applied <= s.commit <= |s.log| && s.role != Leader
    ensures ApplyCommitted(s).1 == []
    decreases s.commit - s.applied
  {
    if s.applied < s.commit { AppliesSilently(ApplyNext(s).0); }
  }

  // ----- handler by handler -----

  lemma ProbeProper(s: Rep, m: Message)
    requires m.Probe?
    ensures var (t, outs) := HandleProbe(s, m); Proper(s, t, outs)
  {
  }

  lemma PrepareProper(s: Rep, m: Message)
    requires Shape(s) && m.Prepare? && m.server < s.n
    ensures var (t, outs) := HandlePrepare(s, m); Proper(s, t, outs)
  {
    if m.round <= s.round && s.role == Candidate && m.round == s.round && m.promised && !s.prepareOk[m.server] {
      var a := s.(prepareOk := s.prepareOk[m.server := true]);
      if HasQuorum(a.n, |Promisers(a)|) { BroadcastCommits(BecomeLeader(a), a.n); }
    }
  }

  lemma ProposeProper(s: Rep, m: Message)
    requires Shape(s) && m.Propose?
    ensures var (t, outs) := HandlePropose(s, m); Proper(s, t, outs)
  {
    if m.round >= s.round && PrefixMatches(s, m.prevIndex, m.prevRound)
       && Merge(s.log, s.commit, m.prevIndex, m.entries).Merged? {
      MergedShape(s, m);
      MergedSilently(s, m);
    }
  }

  lemma MergedSilently(s: Rep, m: Message)
    requires Shape(s) && m.Propose? && m.round >= s.round && PrefixMatches(s, m.prevIndex, m.prevRound)
    requires Merge(s.log, s.commit, m.prevIndex, m.entries).Merged?
    ensures forall o :: o in HandlePropose(s, m).1 ==> !IsReply(o)
  {
    var f := BecomeFollower(s, m.round, m.leader);
    var log := Merge(f.log, f.commit, m.prevIndex, m.entries).log;
    MergeKeepsCommitted(f.log, f.commit, m.prevIndex, m.entries);
    AppliesSilently(f.(log := log, commit := if m.decide > f.commit then Min(m.decide, |log|) else f.commit));
  }

  lemma AckProper(s: Rep, m: Message)
    requires Shape(s) && m.Ack? && m.server < s.n && (s.role == Leader ==> NextOk(s))
    requires s.role == Leader && m.round == s.round && m.success ==> m.nextIndex <= |s.log| + 1
    ensures var (t, outs) := HandleAck(s, m); Proper(s, t, outs)
  {
    if m.round == s.round && s.role == Leader && m.success {
      ResendLed(Matched(s, m), m.server);
      ResendCatchesUp(Matched(s, m), m.server);
    }
  }

  lemma ClientProper(s: Rep, req: Request)
    requires Shape(s) && (s.role == Leader ==> NextOk(s))
    ensures var (t, outs) := HandleClient(s, req); Proper(s, t, outs)
  {
    if s.role == Leader && req.serial !in s.machine.cache && req.serial !in s.busy {
      var a := s.(busy := s.busy + {req.serial}, queue := s.queue + [req]);
      if |a.queue| >= APPEND_BATCH_SIZE {
        FlushLed(a);
        FlushCatchesUp(a);
      }
    }
  }

  lemma TimeoutProper(s: Rep)
    requires Shape(s) && (s.role == Leader ==> NextOk(s))
    ensures var (t, outs) := HandleTimeout(s); Proper(s, t, outs)
  {
    if s.role != Leader {
      StartProbeProper(s);
    } else if s.queue != [] {
      FlushLed(s);
      FlushCatchesUp(s);
    } else {
      BroadcastLed(s, s.n);
    }
  }

  lemma StartProbeProper(s: Rep)
    requires Shape(s) && s.role != Leader
    ensures var (t, outs) := StartProbe(s); Proper(s, t, outs)
  {
    var a := s.(role := Candidate, round := s.round + 1, leaderHint := s.id, promised := Some(s.id),
                prepareOk := Filled(s.n, false)[s.id := true]);
    ToPeersQuote(a, Probe(a.round, a.id, |a.log|, RoundAt(a.log, |a.log|)), a.n);
    if HasQuorum(s.n, 1) { BroadcastCommits(BecomeLeader(a), a.n); }
  }

  lemma HandlerProper(c: Cluster, e: Event)
    requires Inv(c) && Ready(c, e) && !e.Drop?
    ensures Target(e) < |c.reps| && var (t, outs) := Handler(c, e); Proper(c.reps[Target(e)], t, outs)
  {
    match e
    case Deliver(p) =>
      assert MessageOk(c, p);
      assert RepOk(c, p.dst);
      DeliverProper(c, p);
    case Client(i, req) =>
      assert RepOk(c, i);
      ClientProper(c.reps[i], req);
    case Timeout(i) =>
      assert RepOk(c, i);
      TimeoutProper(c.reps[i]);
  }

  lemma DeliverProper(c: Cluster, p: Output)
    requires |c.reps| == c.n && p.ToReplica? && p.dst < c.n && RepOk(c, p.dst) && MessageOk(c, p)
    ensures var s := c.reps[p.dst]; var (t, outs) := HandleReplicaMessage(s, p.msg); Proper(s, t, outs)
  {
    var s := c.reps[p.dst];
    match p.msg
    case Probe(_, _, _, _) => ProbeProper(s, p.msg);
    case Prepare(_, _, _) => PrepareProper(s, p.msg);
    case Propose(_, _, _, _, _, _, _) => ProposeProper(s, p.msg);
    case Ack(_, _, _, _, _) => AckProper(s, p.msg);
  }
}
