/** Every handler of the replica keeps its replica, and what it sends, in order: the facts
    `Local` asks for, handler by handler, and with them the invariant over every step and run. */
module PaxosHandlers {
  import opened Options
  import opened PancyDb
  import opened PaxosSpec
  import opened PaxosCluster
  import opened PaxosInvariance
  import opened PaxosLeader

  // ----- replies that promise nothing -----

  ghost predicate Plain(n: nat, o: Output) {
    o.ToReplica? ==>
      && o.dst < n
      && ((o.msg.Prepare? && o.msg.server < n && !o.msg.promised) || (o.msg.Ack? && o.msg.server < n && !o.msg.success))
  }

  /** A replica that keeps its log retains what it acknowledged. */
  lemma SameLogRetains(c: Cluster, t: Rep, outs: seq<Output>)
    requires Inv(c) && t.id < |c.reps| && c.reps[t.id].round <= t.round && c.reps[t.id].log <= t.log
    requires t.role == Leader ==> StillLeads(c, c.reps[t.id], t) || t.round !in c.leaders
    ensures Retains(c, t, Observe(c, t, outs))
  {
    var s, d := c.reps[t.id], Observe(c, t, outs);
    ObserveExtends(c, t, outs);
    forall r: nat, k: nat | Acked(c, t.id, r, k)
      ensures Has(d, t.log, r, k) || Lost(d, r, k, t.round)
    {
      HasExtends(c, d, s.log, r, k);
      if Has(c, s.log, r, k) {
        assert t.log[..k] == s.log[..k];
      } else {
        LostExtends(c, d, r, k, s.round);
      }
    }
  }

  /** Nothing but soft state, or a step down into a higher round, and only plain replies. */
  ghost predicate Quiet(s: Rep, t: Rep) {
    && t.id == s.id && t.n == s.n && t.log == s.log && Shape(t)
    && (|| (t.round == s.round && t.promised == s.promised && t.role == s.role
            && (s.role == Leader ==> t.matchIndex == s.matchIndex && t.nextIndex == s.nextIndex)
            && (s.role == Candidate ==> t.prepareOk == s.prepareOk))
        || (t.round == s.round && t.promised == s.promised && s.role != Leader && t.role == Follower)
        || (t.round > s.round && t.promised == None && t.role == Follower))
  }

  lemma QuietLocal(c: Cluster, t: Rep, outs: seq<Output>)
    requires Inv(c) && t.id < |c.reps| && Quiet(c.reps[t.id], t)
    requires forall o :: o in outs ==> Plain(c.n, o)
    ensures Local(c, t, outs)
  {
    var s, d := c.reps[t.id], Observe(c, t, outs);
    assert RepOk(c, t.id);
    ObserveExtends(c, t, outs);
    GoodLogExtends(c, d, s.log);
    SameLogRetains(c, t, outs);
    if t.role == Leader { StillLeading(c, t, d); }
  }

  // ----- probes -----

  lemma ProbeLocal(c: Cluster, i: nat, m: Message)
    requires Inv(c) && i < c.n && m.Probe? && ToReplica(i, m) in c.sent
    requires RepOk(c, i) && MessageOk(c, ToReplica(i, m))
    ensures var (t, outs) := HandleProbe(c.reps[i], m); t.id == i && Local(c, t, outs)
  {
    var s := c.reps[i];
    var (t, outs) := HandleProbe(s, m);
    if m.round < s.round {
      QuietLocal(c, t, outs);
    } else {
      var f := if m.round > s.round then BecomeFollower(s, m.round, s.leaderHint) else s;
      if (f.promised == None || f.promised == Some(m.leader)) && UpToDate(f.log, m.lastIndex, m.lastRound) {
        GrantLocal(c, i, m, f);
      } else {
        QuietLocal(c, f, outs);
      }
    }
  }

  /** A promise: the first in its round for this replica, or a repetition of it. */
  lemma GrantLocal(c: Cluster, i: nat, m: Message, f: Rep)
    requires Inv(c) && i < c.n && m.Probe? && ToReplica(i, m) in c.sent
    requires RepOk(c, i) && MessageOk(c, ToReplica(i, m)) && m.round >= c.reps[i].round
    requires f == if m.round > c.reps[i].round then BecomeFollower(c.reps[i], m.round, c.reps[i].leaderHint) else c.reps[i]
    requires (f.promised == None || f.promised == Some(m.leader)) && UpToDate(f.log, m.lastIndex, m.lastRound)
    ensures Local(c, f.(promised := Some(m.leader), leaderHint := m.leader), [ToReplica(m.leader, Prepare(f.round, i, true))])
  {
    var s := c.reps[i];
    var t := f.(promised := Some(m.leader), leaderHint := m.leader);
    var outs := [ToReplica(m.leader, Prepare(f.round, i, true))];
    ObserveExtends(c, t, outs);
    if m.round > s.round { NoVoteAhead(c, i, m.round); }
    GrantAllowed(c, s, m, t, outs);
    GrantKeepsRest(c, s, t, outs);
  }

  lemma GrantAllowed(c: Cluster, s: Rep, m: Message, t: Rep, outs: seq<Output>)
    requires m.Probe? && s.id < |c.reps| == c.n && c.reps[s.id] == s && RepOk(c, s.id) && MessageOk(c, ToReplica(s.id, m))
    requires VoteOk(c, m.leader, m.round)
    requires t.id == s.id && t.log == s.log && t.promised == Some(m.leader) && s.round <= t.round == m.round
    requires t.round == s.round && s.promised.Some? ==> s.promised == t.promised
    requires UpToDate(s.log, m.lastIndex, m.lastRound)
    requires outs == [ToReplica(m.leader, Prepare(t.round, s.id, true))]
    requires forall w :: t.round > s.round && w == t.round ==> (s.id, w) !in c.votes
    ensures var d := Observe(c, t, outs);
            VoteAllowed(c, s, t, d) && forall o :: o in outs ==> MessageOk(d, o) && AckHonest(t, o, d)
  {
  }

  lemma GrantKeepsRest(c: Cluster, s: Rep, t: Rep, outs: seq<Output>)
    requires Inv(c) && t.id < |c.reps| && s == c.reps[t.id] && t.log == s.log && s.round <= t.round
    requires t.role == Leader ==> Shape(t) && s.role == Leader && t.n == s.n && t.round == s.round && t.promised == s.promised
                                  && t.matchIndex == s.matchIndex && t.nextIndex == s.nextIndex
    ensures var d := Observe(c, t, outs);
            && GoodLog(d, t.log) && Retains(c, t, d)
            && (t.role == Leader ==> StillLeads(c, s, t) && LeadingOk(d, t))
  {
    var d := Observe(c, t, outs);
    assert RepOk(c, t.id);
    ObserveExtends(c, t, outs);
    GoodLogExtends(c, d, s.log);
    SameLogRetains(c, t, outs);
    if t.role == Leader { StillLeading(c, t, d); }
  }

  lemma StillLeading(c: Cluster, t: Rep, d: Cluster)
    requires t.id < |c.reps| && RepOk(c, t.id) && Extends(c, d)
    requires var s := c.reps[t.id];
             && s.role == Leader && t.n == s.n && t.log == s.log && t.round == s.round && t.promised == s.promised
             && t.matchIndex == s.matchIndex && t.nextIndex == s.nextIndex
    requires t.round in d.leaders && d.leaders[t.round].log == t.log
    ensures LeadingOk(d, t)
  {
    forall p | 0 <= p < t.n && p != t.id && t.matchIndex[p] > 0 ensures Acked(d, p, t.round, t.matchIndex[p]) {
      AckedExtends(c, d, p, t.round, t.matchIndex[p]);
    }
  }

  /** Nobody has voted in, or led, a round it has not reached. */
  lemma NoVoteAhead(c: Cluster, i: nat, r: nat)
    requires Inv(c) && i < c.n && r > c.reps[i].round
    ensures (i, r) !in c.votes && (r in c.leaders ==> c.leaders[r].id != i)
  {
    assert (i, r) in c.votes ==> VoteOk(c, i, r);
    assert r in c.leaders ==> LeaderOk(c, r);
  }

  // ----- what a leader does -----

  /** `s` is the leader as it was, `a` as the message left it, `t` as the handler left it. */
  lemma LedLocal(c: Cluster, a: Rep, t: Rep, outs: seq<Output>)
    requires Inv(c) && t.id < |c.reps|
    requires var s := c.reps[t.id];
             s.role == Leader && a.log == s.log && a.round == s.round && a.promised == s.promised && a.n == s.n
    requires Led(a, t, outs)
    requires forall p :: 0 <= p < a.n && p != a.id && a.matchIndex[p] > 0 ==> Acked(c, p, a.round, a.matchIndex[p])
    ensures Local(c, t, outs)
  {
    var s, d := c.reps[t.id], Observe(c, t, outs);
    assert RepOk(c, t.id) && LeaderOk(c, t.round);
    ObserveExtends(c, t, outs);
    SameLogRetains(c, t, outs);
    forall k | 0 <= k < |t.log| ensures GoodEntry(d, t.log, k) {
      if k < |s.log| {
        GoodLogExtends(c, d, s.log);
        assert GoodEntry(d, s.log, k);
        assert t.log[..k + 1] == s.log[..k + 1];
      }
    }
    forall p | 0 <= p < t.n && p != t.id && t.matchIndex[p] > 0 ensures Acked(d, p, t.round, t.matchIndex[p]) {
      AckedExtends(c, d, p, a.round, a.matchIndex[p]);
    }
    forall o | o in outs ensures MessageOk(d, o) && AckHonest(t, o, d) {
      assert Quotes(t, o);
    }
  }

  // ----- acknowledgements, client requests, heartbeats -----

  lemma AckLocal(c: Cluster, i: nat, m: Message)
    requires Inv(c) && i < c.n && m.Ack? && ToReplica(i, m) in c.sent
    requires RepOk(c, i) && MessageOk(c, ToReplica(i, m))
    ensures var (t, outs) := HandleAck(c.reps[i], m); t.id == i && Local(c, t, outs)
  {
    var s := c.reps[i];
    var (t, outs) := HandleAck(s, m);
    if m.round > s.round || s.role != Leader || m.round != s.round {
      QuietLocal(c, t, outs);
    } else if m.success {
      AckSuccessLocal(c, i, m);
    } else {
      AckFailureLocal(c, i, m);
    }
  }

  lemma AckFailureLocal(c: Cluster, i: nat, m: Message)
    requires Inv(c) && i < c.n && m.Ack? && m.server < c.n && RepOk(c, i)
    requires c.reps[i].role == Leader && m.round == c.reps[i].round && !m.success
    ensures var (t, outs) := HandleAck(c.reps[i], m); t.id == i && Local(c, t, outs)
  {
    var s := c.reps[i];
    var (t, outs) := HandleAck(s, m);
    var asked := if m.nextIndex == 0 then 1 else m.nextIndex;
    var held := s.nextIndex[m.server];
    var fallback := if asked < held then asked else if held > 1 then held - 1 else 1;
    var a := s.(nextIndex := s.nextIndex[m.server := Max(fallback, s.trim + 1)]);
    SendLed(a, m.server);
    LedLocal(c, a, t, outs);
  }

  /** The leader as a successful acknowledgement leaves it, before acting on it. */
  ghost function Matched(s: Rep, m: Message): Rep
    requires m.Ack? && m.server < s.n == |s.matchIndex| == |s.nextIndex|
  {
    s.(matchIndex := s.matchIndex[m.server := Max(s.matchIndex[m.server], m.matchIndex)],
       nextIndex := s.nextIndex[m.server := Max(s.nextIndex[m.server], m.nextIndex)])
  }

  lemma AckSuccessLocal(c: Cluster, i: nat, m: Message)
    requires Inv(c) && i < c.n && m.Ack? && ToReplica(i, m) in c.sent
    requires RepOk(c, i) && MessageOk(c, ToReplica(i, m))
    requires c.reps[i].role == Leader && m.round == c.reps[i].round && m.success
    ensures var (t, outs) := AdvanceAndResend(Matched(c.reps[i], m), m.server); t.id == i && Local(c, t, outs)
  {
    var a := Matched(c.reps[i], m);
    forall p | 0 <= p < a.n && p != a.id && a.matchIndex[p] > 0 ensures Acked(c, p, a.round, a.matchIndex[p]) {
      if p == m.server && a.matchIndex[p] == m.matchIndex {
        assert IsAck(ToReplica(i, m), p, a.round, a.matchIndex[p]);
      }
    }
    ResendLed(a, m.server);
    var (t, outs) := AdvanceAndResend(a, m.server);
    LedLocal(c, a, t, outs);
  }

  lemma ClientLocal(c: Cluster, i: nat, req: Request)
    requires Inv(c) && i < c.n && RepOk(c, i)
    ensures var (t, outs) := HandleClient(c.reps[i], req); t.id == i && Local(c, t, outs)
  {
    var s := c.reps[i];
    var (t, outs) := HandleClient(s, req);
    if s.role != Leader || req.serial in s.machine.cache || req.serial in s.busy {
      QuietLocal(c, t, outs);
    } else {
      var a := s.(busy := s.busy + {req.serial}, queue := s.queue + [req]);
      if |a.queue| >= APPEND_BATCH_SIZE {
        FlushLed(a);
      }
      LedLocal(c, a, t, outs);
    }
  }

  // ----- elections -----

  lemma ToPeersQuote(s: Rep, m: Message, k: nat)
    requires k <= s.n
    ensures forall o :: o in ToPeers(s, m, k) ==> o.ToReplica? && o.dst < s.n && o.msg == m
  {
  }

  /** A candidate that has just counted a quorum takes over and sends its first proposals. */
  lemma WinLocal(c: Cluster, a: Rep, t: Rep, probes: seq<Output>, proposals: seq<Output>)
    requires Inv(c) && t.id < |c.reps| && c.reps[t.id].round <= t.round && t.log == c.reps[t.id].log
    requires t.round > 0 && a.id < a.n && a == BecomeLeader(a) && Led(a, t, proposals) && a.log == t.log && t.n == c.n
    requires forall p :: 0 <= p < a.n && p != a.id ==> a.matchIndex[p] == 0
    requires VoteAllowed(c, c.reps[t.id], t, Observe(c, t, probes + proposals))
    requires t.round == c.reps[t.id].round ==> c.reps[t.id].role != Leader
    requires NewlyLeads(c, c.reps[t.id], t, Observe(c, t, probes + proposals))
    requires forall o :: o in probes ==> MessageOk(Observe(c, t, probes + proposals), o) && o.ToReplica? && o.msg.Probe?
    ensures Local(c, t, probes + proposals)
  {
    var outs := probes + proposals;
    var s, d := c.reps[t.id], Observe(c, t, outs);
    assert RepOk(c, t.id);
    ObserveExtends(c, t, outs);
    GoodLogExtends(c, d, s.log);
    SameLogRetains(c, t, outs);
    forall o | o in outs ensures MessageOk(d, o) && AckHonest(t, o, d) {
      if o in proposals { assert Quotes(t, o); }
    }
  }

  /** Sets of replicas are no larger than the cluster ... */
  lemma SubsetOfRange(x: set<nat>, n: nat)
    requires forall e :: e in x ==> e < n
    ensures |x| <= n
  {
    if n == 0 {
      assert x == {};
    } else {
      SubsetOfRange(x - {n - 1}, n - 1);
    }
  }

  lemma SubsetSize(x: set<nat>, y: set<nat>)
    requires x <= y
    ensures |x| <= |y|
  {
    assert y == x + (y - x);
  }

  /** ... so two quorums share a replica. */
  lemma QuorumsMeet(x: set<nat>, y: set<nat>, n: nat)
    requires forall e :: e in x || e in y ==> e < n
    requires HasQuorum(n, |x|) && HasQuorum(n, |y|)
    ensures exists e :: e in x && e in y
  {
    SubsetOfRange(x + y, n);
    assert |x + y| == |x| + |y| - |x * y|;
    var e :| e in x * y;
  }

  /** A candidate holding a quorum of votes finds its round without a leader. */
  lemma CandidateUnopposed(c: Cluster, i: nat, supporters: set<nat>)
    requires Inv(c) && i < c.n && c.reps[i].role == Candidate && HasQuorum(c.n, |supporters|)
    requires forall v :: v in supporters ==> v < c.n && (v, c.reps[i].round) in c.votes
                                             && c.votes[(v, c.reps[i].round)].candidate == i
    ensures c.reps[i].round !in c.leaders
  {
    var r := c.reps[i].round;
    assert RepOk(c, i);
    if r in c.leaders {
      assert LeaderOk(c, r);
      assert forall v :: v in c.leaders[r].voters ==> VoterOk(c, v, r, c.leaders[r]);
      QuorumsMeet(supporters, c.leaders[r].voters, c.n);
    }
  }

  lemma PrepareLocal(c: Cluster, i: nat, m: Message)
    requires Inv(c) && i < c.n && m.Prepare? && ToReplica(i, m) in c.sent
    requires RepOk(c, i) && MessageOk(c, ToReplica(i, m))
    ensures var (t, outs) := HandlePrepare(c.reps[i], m); t.id == i && Local(c, t, outs)
  {
    var s := c.reps[i];
    var (t, outs) := HandlePrepare(s, m);
    if m.round > s.round || s.role != Candidate || m.round != s.round || !m.promised || s.prepareOk[m.server] {
      QuietLocal(c, t, outs);
    } else {
      var a := s.(prepareOk := s.prepareOk[m.server := true]);
      if HasQuorum(a.n, |Promisers(a)|) {
        QuorumLocal(c, a);
      } else {
        CountingLocal(c, a);
      }
    }
  }

  /** The promise that completes a quorum. */
  lemma QuorumLocal(c: Cluster, a: Rep)
    requires Inv(c) && a.id < c.n && Shape(a) && CandidateOk(c, a) && a.n == c.n
    requires a == c.reps[a.id].(prepareOk := a.prepareOk) && a.role == Candidate && HasQuorum(a.n, |Promisers(a)|)
    ensures var (t, outs) := Broadcast(BecomeLeader(a)); t.id == a.id && Local(c, t, outs)
  {
    var b := BecomeLeader(a);
    BroadcastLed(b, b.n);
    var (t, outs) := Broadcast(b);
    assert [] + outs == outs;
    QuorumSupports(c, a);
    assert BecomeLeader(b) == b;
    WinLocal(c, b, t, [], outs);
  }

  lemma QuorumSupports(c: Cluster, a: Rep)
    requires Inv(c) && a.id < c.n && Shape(a) && CandidateOk(c, a) && a.n == c.n
    requires a == c.reps[a.id].(prepareOk := a.prepareOk) && a.role == Candidate && HasQuorum(a.n, |Promisers(a)|)
    ensures a.round !in c.leaders && HasQuorum(c.n, |Supporters(c.n, c.votes, a.round, a.id)|)
  {
    CandidateUnopposed(c, a.id, Promisers(a));
    SubsetSize(Promisers(a), Supporters(c.n, c.votes, a.round, a.id));
  }

  /** One more promise, not yet a quorum. */
  lemma CountingLocal(c: Cluster, a: Rep)
    requires Inv(c) && a.id < |c.reps| && Shape(a) && CandidateOk(c, a)
    requires a == c.reps[a.id].(prepareOk := a.prepareOk) && a.role == Candidate
    ensures Local(c, a, [])
  {
    assert RepOk(c, a.id);
    var d := Observe(c, a, []);
    ObserveExtends(c, a, []);
    GoodLogExtends(c, d, a.log);
    SameLogRetains(c, a, []);
  }

  lemma StartProbeLocal(c: Cluster, i: nat)
    requires Inv(c) && i < c.n && c.reps[i].role != Leader && RepOk(c, i)
    ensures var (t, outs) := StartProbe(c.reps[i]); t.id == i && Local(c, t, outs)
  {
    var s := c.reps[i];
    var (t, outs) := StartProbe(s);
    var a := s.(role := Candidate, round := s.round + 1, leaderHint := s.id, promised := Some(s.id),
                prepareOk := Filled(s.n, false)[s.id := true]);
    var probe := Probe(a.round, a.id, |a.log|, RoundAt(a.log, |a.log|));
    var probes := ToPeers(a, probe, a.n);
    ToPeersQuote(a, probe, a.n);
    NoVoteAhead(c, i, a.round);
    if HasQuorum(s.n, 1) {
      LoneWinner(c, i, a, probes);
    } else {
      ProbingLocal(c, i, a, probes);
    }
  }

  /** An election that needs other replicas' promises. */
  lemma ProbingLocal(c: Cluster, i: nat, a: Rep, probes: seq<Output>)
    requires Inv(c) && i < c.n && RepOk(c, i) && c.reps[i].role != Leader
    requires a.id == i && a.n == c.n && a.role == Candidate && a.round == c.reps[i].round + 1 && a.promised == Some(i)
    requires a.log == c.reps[i].log && Shape(a) && a.prepareOk == Filled(a.n, false)[i := true]
    requires forall o :: o in probes ==> o.ToReplica? && o.dst < a.n
                                         && o.msg == Probe(a.round, a.id, |a.log|, RoundAt(a.log, |a.log|))
    ensures Local(c, a, probes)
  {
    var d := Observe(c, a, probes);
    NoVoteAhead(c, i, a.round);
    ObserveExtends(c, a, probes);
    GoodLogExtends(c, d, a.log);
    SameLogRetains(c, a, probes);
  }

  /** In a cluster of one the candidate's own promise is a quorum. */
  lemma LoneWinner(c: Cluster, i: nat, a: Rep, probes: seq<Output>)
    requires Inv(c) && i < c.n && RepOk(c, i) && HasQuorum(c.n, 1) && c.reps[i].role != Leader
    requires a.id == i && a.n == c.n && a.round == c.reps[i].round + 1 && a.promised == Some(i)
    requires a.log == c.reps[i].log && Shape(a) && (i, a.round) !in c.votes
    requires forall o :: o in probes ==> o.ToReplica? && o.dst < a.n
                                         && o.msg == Probe(a.round, a.id, |a.log|, RoundAt(a.log, |a.log|))
    ensures var (t, o) := Broadcast(BecomeLeader(a)); Local(c, t, probes + o)
  {
    var b := BecomeLeader(a);
    BroadcastLed(b, b.n);
    var (t, o) := Broadcast(b);
    var d := Observe(c, t, probes + o);
    NoVoteAhead(c, i, a.round);
    assert i in Supporters(c.n, d.votes, t.round, i);
    SubsetSize({i}, Supporters(c.n, d.votes, t.round, i));
    assert BecomeLeader(b) == b;
    WinLocal(c, b, t, probes, o);
  }

  lemma TimeoutLocal(c: Cluster, i: nat)
    requires Inv(c) && i < c.n && RepOk(c, i)
    ensures var (t, outs) := HandleTimeout(c.reps[i]); t.id == i && Local(c, t, outs)
  {
    var s := c.reps[i];
    var (t, outs) := HandleTimeout(s);
    if s.role == Leader {
      if s.queue != [] { FlushLed(s); } else { BroadcastLed(s, s.n); }
      LedLocal(c, s, t, outs);
    } else {
      StartProbeLocal(c, i);
    }
  }

  // ----- proposals -----

  /** Two good logs that agree on the round at one slot agree on everything up to it. */
  lemma LogMatching(c: Cluster, x: seq<Entry>, y: seq<Entry>, slot: nat)
    requires GoodLog(c, x) && GoodLog(c, y) && slot <= |x| && slot <= |y|
    requires slot > 0 ==> x[slot - 1].round == y[slot - 1].round
    ensures x[..slot] == y[..slot]
  {
    if slot > 0 {
      assert GoodEntry(c, x, slot - 1) && GoodEntry(c, y, slot - 1);
    }
  }

  lemma PrefixIsGood(c: Cluster, log: seq<Entry>, k: nat)
    requires GoodLog(c, log) && k <= |log|
    ensures GoodLog(c, log[..k])
  {
    forall j | 0 <= j < k ensures GoodEntry(c, log[..k], j) {
      assert GoodEntry(c, log, j);
      assert log[..k][..j + 1] == log[..j + 1];
    }
  }

  /** After a checked batch is merged the log agrees with the leader's through the batch; it is
      either the old log, or exactly the leader's prefix, and in the second case whatever of the
      old log is gone began with a slot where the two rounds differed. */
  ghost predicate Follows(log: seq<Entry>, merged: seq<Entry>, lead: seq<Entry>, got: nat) {
    && got <= |lead| && got <= |merged| && merged[..got] == lead[..got]
    && (merged == log
        || (merged == lead[..got]
            && (log <= merged || exists j: nat :: DivergesAt(log, lead, j) && j < got)))
  }

  ghost predicate DivergesAt(log: seq<Entry>, lead: seq<Entry>, j: nat) {
    j < |log| && j < |lead| && log[..j] == lead[..j] && log[j].round != lead[j].round
  }

  lemma MergeFollowsLeader(c: Cluster, log: seq<Entry>, commit: nat, lead: seq<Entry>, prev: nat, entries: seq<Entry>)
    requires GoodLog(c, log) && GoodLog(c, lead) && prev <= |log|
    requires prev + |entries| <= |lead| && entries == lead[prev..prev + |entries|]
    requires prev > 0 ==> log[prev - 1].round == lead[prev - 1].round
    requires Merge(log, commit, prev, entries).Merged?
    ensures Follows(log, Merge(log, commit, prev, entries).log, lead, prev + |entries|)
  {
    match FirstConflict(log, prev, entries, 0)
    case Some(i) =>
      ConflictFollows(c, log, lead, prev, entries, i);
    case None =>
      NoConflictFollows(c, log, lead, prev, entries);
  }

  lemma ConflictFollows(c: Cluster, log: seq<Entry>, lead: seq<Entry>, prev: nat, entries: seq<Entry>, i: nat)
    requires GoodLog(c, log) && GoodLog(c, lead) && prev <= |log|
    requires prev + |entries| <= |lead| && entries == lead[prev..prev + |entries|]
    requires prev > 0 ==> log[prev - 1].round == lead[prev - 1].round
    requires i < |entries| && prev + i < |log| && log[prev + i].round != entries[i].round
    requires forall k :: 0 <= k < i && prev + k < |log| ==> log[prev + k].round == entries[k].round
    ensures Follows(log, log[..prev + i] + entries[i..], lead, prev + |entries|)
  {
    if i > 0 { assert log[prev + i - 1].round == entries[i - 1].round; }
    LogMatching(c, log, lead, prev + i);
    Spliced(log, lead, prev, entries, prev + i);
    assert DivergesAt(log, lead, prev + i);
  }

  lemma NoConflictFollows(c: Cluster, log: seq<Entry>, lead: seq<Entry>, prev: nat, entries: seq<Entry>)
    requires GoodLog(c, log) && GoodLog(c, lead) && prev <= |log|
    requires prev + |entries| <= |lead| && entries == lead[prev..prev + |entries|]
    requires prev > 0 ==> log[prev - 1].round == lead[prev - 1].round
    requires forall k :: 0 <= k < |entries| && prev + k < |log| ==> log[prev + k].round == entries[k].round
    ensures Follows(log, if prev + |entries| <= |log| then log else log + entries[|log| - prev..], lead, prev + |entries|)
  {
    var got := prev + |entries|;
    var upto := if got <= |log| then got else |log|;
    if upto > prev { assert log[upto - 1].round == entries[upto - 1 - prev].round; }
    LogMatching(c, log, lead, upto);
    if got > |log| { ExtensionFollows(log, lead, prev, entries); }
  }

  lemma ExtensionFollows(log: seq<Entry>, lead: seq<Entry>, prev: nat, entries: seq<Entry>)
    requires prev <= |log| < prev + |entries| <= |lead| && entries == lead[prev..prev + |entries|]
    requires log[..|log|] == lead[..|log|]
    ensures log + entries[|log| - prev..] == lead[..prev + |entries|]
    ensures Follows(log, log + entries[|log| - prev..], lead, prev + |entries|)
  {
    Spliced(log, lead, prev, entries, |log|);
    assert log[..|log|] == log;
  }

  lemma Spliced(log: seq<Entry>, lead: seq<Entry>, prev: nat, entries: seq<Entry>, at: nat)
    requires prev <= at <= |log| && at <= prev + |entries| <= |lead| && entries == lead[prev..prev + |entries|]
    requires log[..at] == lead[..at]
    ensures log[..at] + entries[at - prev..] == lead[..prev + |entries|]
  {
  }

  lemma HasAt(c: Cluster, log: seq<Entry>, r: nat, k: nat, j: nat)
    requires Has(c, log, r, k) && j < k
    ensures log[j] == c.leaders[r].log[j]
  {
    assert log[..k][j] == c.leaders[r].log[..k][j];
  }

  /** What was acknowledged and is now gone, the leader whose batch replaced it never had. */
  lemma ReplacedWasLost(c: Cluster, log: seq<Entry>, merged: seq<Entry>, lead: nat, got: nat, r: nat, k: nat)
    requires lead in c.leaders && LeaderOk(c, lead) && r <= lead
    requires Follows(log, merged, c.leaders[lead].log, got)
    requires Has(c, log, r, k)
    ensures Has(c, merged, r, k) || (r < lead && !Has(c, c.leaders[lead].base, r, k))
  {
    var l := c.leaders[lead];
    if log <= merged {
      assert merged[..k] == log[..k];
    } else {
      var j: nat :| DivergesAt(log, l.log, j) && j < got;
      if k <= j {
        assert merged[..k] == l.log[..j][..k] == log[..j][..k] == log[..k];
      } else {
        HasAt(c, log, r, k, j);
        if Has(c, l.base, r, k) { HasAt(c, l.base, r, k, j); }
      }
    }
  }

  lemma MergeRetains(c: Cluster, t: Rep, outs: seq<Output>, lead: nat, got: nat)
    requires Inv(c) && t.id < |c.reps| && lead in c.leaders
    requires c.reps[t.id].round <= t.round == lead && t.role == Follower
    requires Follows(c.reps[t.id].log, t.log, c.leaders[lead].log, got)
    ensures Retains(c, t, Observe(c, t, outs))
  {
    var s, d := c.reps[t.id], Observe(c, t, outs);
    assert LeaderOk(c, lead);
    ObserveExtends(c, t, outs);
    forall r: nat, k: nat | Acked(c, t.id, r, k)
      ensures Has(d, t.log, r, k) || Lost(d, r, k, t.round)
    {
      HasExtends(c, d, t.log, r, k);
      if Has(c, s.log, r, k) {
        ReplacedWasLost(c, s.log, t.log, lead, got, r, k);
        if !Has(c, t.log, r, k) { LostExtends(c, d, r, k, t.round); }
      } else {
        LostExtends(c, d, r, k, s.round);
      }
    }
  }

  lemma FollowerLogOk(c: Cluster, s: Rep, merged: seq<Entry>, lead: nat, got: nat)
    requires lead in c.leaders && LeaderOk(c, lead) && GoodLog(c, s.log) && RoundsBelow(s.log, s.round + 1)
    requires s.round <= lead && Follows(s.log, merged, c.leaders[lead].log, got)
    ensures GoodLog(c, merged) && RoundsBelow(merged, lead + 1) && Has(c, merged, lead, got)
  {
    PrefixIsGood(c, c.leaders[lead].log, got);
  }

  lemma ProposeLocal(c: Cluster, i: nat, m: Message)
    requires Inv(c) && i < c.n && m.Propose? && ToReplica(i, m) in c.sent
    requires RepOk(c, i) && MessageOk(c, ToReplica(i, m))
    ensures var (t, outs) := HandlePropose(c.reps[i], m); t.id == i && Local(c, t, outs)
  {
    var s := c.reps[i];
    var (t, outs) := HandlePropose(s, m);
    assert LeaderOk(c, m.round);
    if m.round < s.round {
      QuietLocal(c, t, outs);
    } else {
      var f := BecomeFollower(s, m.round, m.leader);
      if !PrefixMatches(f, m.prevIndex, m.prevRound) || Merge(f.log, f.commit, m.prevIndex, m.entries).Blocked? {
        QuietLocal(c, t, outs);
      } else {
        MergedShape(s, m);
        MergedLocal(c, i, m, t, outs);
      }
    }
  }

  /** The successful branch of the handler, apart from what it applies. */
  ghost predicate MergedInto(s: Rep, m: Message, t: Rep, outs: seq<Output>)
    requires m.Propose? && m.prevIndex <= |s.log|
  {
    var got := m.prevIndex + |m.entries|;
    && Shape(t) && t.id == s.id && t.n == s.n && t.role == Follower && t.round == m.round
    && t.promised == (if m.round > s.round then None else s.promised)
    && Merge(s.log, s.commit, m.prevIndex, m.entries) == Merged(t.log)
    && t.applied == t.commit == (if m.decide > s.commit then Min(m.decide, |t.log|) else s.commit)
    && (forall o :: o in outs ==> o.ToClient? || o == ToReplica(m.leader, Ack(m.round, s.id, true, got, got + 1)))
  }

  lemma MergedShape(s: Rep, m: Message)
    requires Shape(s) && m.Propose? && m.round >= s.round
    requires PrefixMatches(s, m.prevIndex, m.prevRound)
    requires Merge(s.log, s.commit, m.prevIndex, m.entries).Merged?
    ensures var (t, outs) := HandlePropose(s, m); MergedInto(s, m, t, outs)
  {
    var f := BecomeFollower(s, m.round, m.leader);
    var log := Merge(f.log, f.commit, m.prevIndex, m.entries).log;
    var g := f.(log := log, commit := if m.decide > f.commit then Min(m.decide, |log|) else f.commit);
    MergeKeepsCommitted(f.log, f.commit, m.prevIndex, m.entries);
    ApplyKeeps(g);
    AppliedReplies(g);
  }

  lemma MergedLocal(c: Cluster, i: nat, m: Message, t: Rep, outs: seq<Output>)
    requires Inv(c) && i < c.n && m.Propose? && m.round >= c.reps[i].round
    requires RepOk(c, i) && MessageOk(c, ToReplica(i, m))
    requires PrefixMatches(c.reps[i], m.prevIndex, m.prevRound) && MergedInto(c.reps[i], m, t, outs)
    ensures t.id == i && Local(c, t, outs)
  {
    var got := m.prevIndex + |m.entries|;
    assert LeaderOk(c, m.round);
    MergedFollows(c, c.reps[i], m, t.log);
    FollowerLocal(c, t, outs, m.round, got, m.leader);
  }

  lemma MergedFollows(c: Cluster, s: Rep, m: Message, merged: seq<Entry>)
    requires m.Propose? && m.round in c.leaders && LeaderOk(c, m.round) && s.round <= m.round && m.prevIndex <= |s.log|
    requires GoodLog(c, s.log) && RoundsBelow(s.log, s.round + 1) && PrefixMatches(s, m.prevIndex, m.prevRound)
    requires Slice(c.leaders[m.round].log, m.prevIndex, m.prevRound, m.entries)
    requires Merge(s.log, s.commit, m.prevIndex, m.entries) == Merged(merged)
    ensures var got := m.prevIndex + |m.entries|;
            && Follows(s.log, merged, c.leaders[m.round].log, got)
            && GoodLog(c, merged) && RoundsBelow(merged, m.round + 1) && Has(c, merged, m.round, got)
  {
    var got := m.prevIndex + |m.entries|;
    MergeFollowsLeader(c, s.log, s.commit, c.leaders[m.round].log, m.prevIndex, m.entries);
    FollowerLogOk(c, s, merged, m.round, got);
  }

  lemma FollowerLocal(c: Cluster, t: Rep, outs: seq<Output>, lead: nat, got: nat, dst: nat)
    requires Inv(c) && t.id < c.n && RepOk(c, t.id) && dst < c.n && lead in c.leaders
    requires var s := c.reps[t.id];
             && Shape(t) && t.n == c.n && t.role == Follower && s.round <= t.round == lead
             && (s.role == Leader ==> s.round < lead)
             && t.promised == (if lead > s.round then None else s.promised)
             && Follows(s.log, t.log, c.leaders[lead].log, got)
    requires GoodLog(c, t.log) && RoundsBelow(t.log, lead + 1) && Has(c, t.log, lead, got)
    requires forall o :: o in outs ==> o.ToClient? || o == ToReplica(dst, Ack(lead, t.id, true, got, got + 1))
    ensures Local(c, t, outs)
  {
    var d := Observe(c, t, outs);
    ObserveExtends(c, t, outs);
    GoodLogExtends(c, d, t.log);
    HasExtends(c, d, t.log, lead, got);
    MergeRetains(c, t, outs, lead, got);
  }

  // ----- every step, every run -----

  /** Two states that differ only in what is in flight and what has been received. */
  ghost predicate SameButNet(c: Cluster, d: Cluster) {
    d == c.(net := d.net, received := d.received)
  }

  lemma NetLeavesReps(c: Cluster, d: Cluster, i: nat)
    requires SameButNet(c, d) && Extends(c, d) && i < |c.reps| && RepOk(c, i)
    ensures RepOk(d, i)
  {
    GoodLogExtends(c, d, c.reps[i].log);
    if c.reps[i].role == Leader { StillLeading(c, c.reps[i], d); }
  }

  lemma NetLeavesLeaders(c: Cluster, d: Cluster, r: nat)
    requires SameButNet(c, d) && Extends(c, d) && r in c.leaders && LeaderOk(c, r)
    ensures LeaderOk(d, r)
  {
    GoodLogExtends(c, d, c.leaders[r].log);
    assert forall v :: VoterOk(c, v, r, c.leaders[r]) ==> VoterOk(d, v, r, d.leaders[r]);
  }

  lemma NetLeavesRetention(c: Cluster, d: Cluster)
    requires SameButNet(c, d) && Extends(c, d) && RetainOk(c)
    ensures RetainOk(d)
  {
    forall s: nat, r: nat, k: nat | Acked(d, s, r, k)
      ensures && s < |d.reps| && r <= d.reps[s].round
              && (Has(d, d.reps[s].log, r, k) || Lost(d, r, k, d.reps[s].round))
    {
      assert Acked(c, s, r, k);
      HasExtends(c, d, c.reps[s].log, r, k);
      if Lost(c, r, k, c.reps[s].round) { LostExtends(c, d, r, k, c.reps[s].round); }
    }
  }

  lemma NetLeavesVoteRetention(c: Cluster, d: Cluster)
    requires SameButNet(c, d) && Extends(c, d) && VotesRetainOk(c)
    ensures VotesRetainOk(d)
  {
    forall s: nat, r: nat, k: nat, w: nat | Acked(d, s, r, k) && (s, w) in d.votes && r < w && !d.votes[(s, w)].late
      ensures Has(d, d.votes[(s, w)].log, r, k) || Lost(d, r, k, w - 1)
    {
      assert Acked(c, s, r, k);
      HasExtends(c, d, c.votes[(s, w)].log, r, k);
      if Lost(c, r, k, w - 1) { LostExtends(c, d, r, k, w - 1); }
    }
  }

  lemma ArriveKeepsInv(c: Cluster, e: Event)
    requires Inv(c)
    ensures Inv(Arrive(c, e)) && Extends(c, Arrive(c, e))
  {
    var d := Arrive(c, e);
    assert SameButNet(c, d) && Extends(c, d);
    forall i | 0 <= i < c.n ensures RepOk(d, i) { NetLeavesReps(c, d, i); }
    forall r | r in d.leaders ensures LeaderOk(d, r) { NetLeavesLeaders(c, d, r); }
    forall v, r | (v, r) in d.votes ensures VoteOk(d, v, r) { assert VoteOk(c, v, r); GoodLogExtends(c, d, c.votes[(v, r)].log); }
    forall p | p in d.sent ensures MessageOk(d, p) { assert MessageOk(c, p); }
    NetLeavesRetention(c, d);
    NetLeavesVoteRetention(c, d);
  }

  lemma HandlerLocal(c: Cluster, e: Event)
    requires Inv(c) && Ready(c, e) && !e.Drop?
    ensures var (t, outs) := Handler(c, e); t.id < |c.reps| && Local(Arrive(c, e), t, outs)
  {
    var b := Arrive(c, e);
    ArriveKeepsInv(c, e);
    match e
    case Deliver(p) =>
      assert RepOk(b, p.dst) && MessageOk(b, p);
      match p.msg {
        case Probe(_, _, _, _) => ProbeLocal(b, p.dst, p.msg);
        case Prepare(_, _, _) => PrepareLocal(b, p.dst, p.msg);
        case Propose(_, _, _, _, _, _, _) => ProposeLocal(b, p.dst, p.msg);
        case Ack(_, _, _, _, _) => AckLocal(b, p.dst, p.msg);
      }
    case Client(i, req) => assert RepOk(b, i); ClientLocal(b, i, req);
    case Timeout(i) => assert RepOk(b, i); TimeoutLocal(b, i);
  }

  /** The invariant holds after every step, whatever the schedule and whatever is lost. */
  lemma NextKeepsInv(c: Cluster, e: Event)
    requires Inv(c) && Ready(c, e)
    ensures Inv(Next(c, e)) && Extends(c, Next(c, e))
  {
    ArriveKeepsInv(c, e);
    if !e.Drop? {
      HandlerLocal(c, e);
      var (t, outs) := Handler(c, e);
      HandledKeepsInv(c, Arrive(c, e), t, outs);
    }
  }

  lemma HandledKeepsInv(c: Cluster, b: Cluster, t: Rep, outs: seq<Output>)
    requires Inv(b) && Extends(c, b) && t.id < |b.reps| && Local(b, t, outs)
    ensures Inv(Observe(b, t, outs)) && Extends(c, Observe(b, t, outs))
  {
    LocalKeepsInv(b, t, outs);
    ExtendsTrans(c, b, Observe(b, t, outs));
  }

  /** Every proposal ever sent carries consecutive slots, as the replica's append loop expects. */
  lemma ProposalsConsecutive(c: Cluster, p: Output)
    requires Inv(c) && p in c.sent && p.ToReplica? && p.msg.Propose?
    ensures Consecutive(p.msg.prevIndex, p.msg.entries)
  {
    assert MessageOk(c, p) && LeaderOk(c, p.msg.round);
    var lead := c.leaders[p.msg.round].log;
    forall i | 0 <= i < |p.msg.entries| ensures p.msg.entries[i].slot == p.msg.prevIndex + 1 + i {
      assert GoodEntry(c, lead, p.msg.prevIndex + i);
    }
  }
}
