/** Where a replica that does not lead sends its clients. */
module PaxosRedirect {
  import opened Options
  import opened PancyDb
  import opened PaxosSpec
  import opened PaxosCluster
  import opened PaxosLeader
  import opened PaxosInvariance
  import opened PaxosHandlers
  import opened PaxosProgress
  import opened PaxosSafety

  // ----- from one handler call to the next -----

  /** The only thing a client hears from the replica is to go to `target`. */
  ghost predicate RedirectsTo(s: Rep, target: nat) {
    forall req :: Shape(s) ==> HandleClient(s, req) == (s, [ToClient(Redirection(req.serial, Redirect, target))])
  }

  /** Whoever has heard a proposal of its own or a later round redirects to the leader that sent it,
      whether or not it could append the entries. */
  lemma ProposerIsTarget(s: Rep, m: Message)
    requires Shape(s) && m.Propose? && m.round >= s.round
    ensures RedirectsTo(HandlePropose(s, m).0, m.leader)
  {
    if PrefixMatches(s, m.prevIndex, m.prevRound) && Merge(s.log, s.commit, m.prevIndex, m.entries).Merged? {
      MergedShape(s, m);
      MergedHint(s, m);
    }
  }

  lemma MergedHint(s: Rep, m: Message)
    requires Shape(s) && m.Propose? && m.round >= s.round && PrefixMatches(s, m.prevIndex, m.prevRound)
    requires Merge(s.log, s.commit, m.prevIndex, m.entries).Merged?
    ensures var t := HandlePropose(s, m).0; t.leaderHint == m.leader && t.role == Follower && t.round == m.round
  {
    var f := BecomeFollower(s, m.round, m.leader);
    var log := Merge(f.log, f.commit, m.prevIndex, m.entries).log;
    MergeKeepsCommitted(f.log, f.commit, m.prevIndex, m.entries);
    ApplyKeeps(f.(log := log, commit := if m.decide > f.commit then Min(m.decide, |log|) else f.commit));
  }

  /** A follower that grants its vote redirects to the candidate. */
  lemma CandidateIsTarget(s: Rep, m: Message)
    requires Shape(s) && m.Probe?
    ensures var (t, outs) := HandleProbe(s, m);
            outs == [ToReplica(m.leader, Prepare(t.round, t.id, true))] && t.role == Follower ==> RedirectsTo(t, m.leader)
  {
  }

  /** A replica that stands for election redirects to itself until it hears from a leader or votes. */
  lemma CandidateTargetsItself(s: Rep)
    requires s.role == Candidate
    ensures RedirectsTo(s, s.id)
  {
  }

  // ----- what a handler does to the hint -----

  ghost predicate HintFrom(s: Rep, t: Rep, proposer: Option<(nat, nat)>) {
    && t.id == s.id && s.round <= t.round
    && (|| t.leaderHint == s.leaderHint
        || (t.leaderHint == t.id && t.role != Follower)
        || (t.promised == Some(t.leaderHint) && t.round > 0)
        || proposer == Some((t.round, t.leaderHint)))
  }

  ghost function Proposer(e: Event): Option<(nat, nat)> {
    if e.Deliver? && e.packet.ToReplica? && e.packet.msg.Propose? then Some((e.packet.msg.round, e.packet.msg.leader)) else None
  }

  lemma FlushHint(s: Rep)
    requires Shape(s)
    ensures var t := Flush(s).0; t.id == s.id && t.round == s.round && t.leaderHint == s.leaderHint
    decreases |s.queue|
  {
    if s.role == Leader && s.queue != [] {
      FlushBatchKeeps(s);
      FlushHint(FlushBatch(s).0);
    }
  }

  lemma ProbeHint(s: Rep, m: Message)
    requires Shape(s) && m.Probe? && m.round > 0
    ensures HintFrom(s, HandleProbe(s, m).0, None)
  {
  }

  lemma ProposeHint(s: Rep, m: Message)
    requires Shape(s) && m.Propose?
    ensures HintFrom(s, HandlePropose(s, m).0, Some((m.round, m.leader)))
  {
    if m.round >= s.round && PrefixMatches(s, m.prevIndex, m.prevRound)
       && Merge(s.log, s.commit, m.prevIndex, m.entries).Merged? {
      MergedShape(s, m);
      MergedHint(s, m);
    }
  }

  lemma AckHint(s: Rep, m: Message)
    requires Shape(s) && m.Ack? && m.server < s.n
    ensures HintFrom(s, HandleAck(s, m).0, None)
  {
    if m.round == s.round && s.role == Leader && m.success { AdvanceKeeps(Matched(s, m)); }
  }

  lemma ClientHint(s: Rep, req: Request)
    requires Shape(s)
    ensures HintFrom(s, HandleClient(s, req).0, None)
  {
    if s.role == Leader && req.serial !in s.machine.cache && req.serial !in s.busy {
      FlushHint(s.(busy := s.busy + {req.serial}, queue := s.queue + [req]));
    }
  }

  lemma TimeoutHint(s: Rep)
    requires Shape(s)
    ensures HintFrom(s, HandleTimeout(s).0, None)
  {
    if s.role == Leader && s.queue != [] { FlushHint(s); }
  }

  lemma HandlerHint(c: Cluster, e: Event)
    requires Inv(c) && Ready(c, e) && !e.Drop?
    ensures Target(e) < |c.reps| && HintFrom(c.reps[Target(e)], Handler(c, e).0, Proposer(e))
  {
    match e
    case Deliver(p) =>
      var s := c.reps[p.dst];
      assert MessageOk(c, p);
      match p.msg {
        case Probe(r, l, _, _) => assert VoteOk(c, l, r); ProbeHint(s, p.msg);
        case Prepare(_, _, _) =>
        case Propose(_, _, _, _, _, _, _) => ProposeHint(s, p.msg);
        case Ack(_, _, _, _, _) => AckHint(s, p.msg);
      }
    case Client(i, req) => ClientHint(c.reps[i], req);
    case Timeout(i) => TimeoutHint(c.reps[i]);
  }

  // ----- every run -----

  /** Replica h has led a round up to `top`, or replica i has voted for it in one. */
  ghost predicate Heard(c: Cluster, i: nat, h: nat, top: nat) {
    exists r: nat :: r <= top && HeardIn(c, i, h, r)
  }

  ghost predicate HeardIn(c: Cluster, i: nat, h: nat, r: nat) {
    (r in c.leaders && c.leaders[r].id == h) || ((i, r) in c.votes && c.votes[(i, r)].candidate == h)
  }

  ghost predicate Directed(c: Cluster) {
    forall i {:trigger c.reps[i]} :: 0 <= i < |c.reps| ==> Heard(c, i, c.reps[i].leaderHint, c.reps[i].round)
  }

  lemma HeardExtends(c: Cluster, d: Cluster, i: nat, h: nat, top: nat, higher: nat)
    requires Extends(c, d) && Heard(c, i, h, top) && top <= higher
    ensures Heard(d, i, h, higher)
  {
    var r: nat :| r <= top && HeardIn(c, i, h, r);
    assert HeardIn(d, i, h, r);
  }

  /** What a replica hears in the current step, it has heard of. */
  lemma MoverHeard(c: Cluster, d: Cluster, s: Rep, t: Rep, proposer: Option<(nat, nat)>)
    requires Held(d) && Extends(c, d) && t.id < d.n && d.reps[t.id] == t && HintFrom(s, t, proposer)
    requires Heard(c, t.id, s.leaderHint, s.round)
    requires proposer.Some? ==> proposer.value.0 in c.leaders && c.leaders[proposer.value.0].id == proposer.value.1
    ensures Heard(d, t.id, t.leaderHint, t.round)
  {
    assert Unfold(0);
    assert RepOk(d, t.id);
    if t.leaderHint == s.leaderHint {
      HeardExtends(c, d, t.id, s.leaderHint, s.round, t.round);
    } else {
      assert HeardIn(d, t.id, t.leaderHint, t.round);
    }
  }

  lemma ProposerLeads(c: Cluster, e: Event)
    requires Inv(c) && Ready(c, e)
    ensures Proposer(e).Some? ==> var (r, l) := Proposer(e).value; r in c.leaders && c.leaders[r].id == l
  {
    if e.Deliver? { assert MessageOk(c, e.packet); }
  }

  lemma MoverHint(c: Cluster, e: Event, d: Cluster) returns (t: Rep)
    requires Held(c) && StepsTo(c, e, d) && !e.Drop?
    ensures t.id < |c.reps| && d.reps == c.reps[t.id := t] && HintFrom(c.reps[t.id], t, Proposer(e))
    ensures Proposer(e).Some? ==> var (r, l) := Proposer(e).value; r in c.leaders && c.leaders[r].id == l
  {
    assert Unfold(0);
    t := Handler(c, e).0;
    HandlerProgress(c, e);
    HandlerHint(c, e);
    ProposerLeads(c, e);
  }

  lemma StepFacts(c: Cluster, e: Event, d: Cluster)
    requires Held(c) && StepsTo(c, e, d)
    ensures Held(d) && Extends(c, d) && (e.Drop? ==> d.reps == c.reps)
  {
    assert Unfold(0);
    StepKeeps(c, e, d);
  }

  lemma StepDirected(c: Cluster, e: Event, d: Cluster)
    requires Held(c) && Directed(c) && StepsTo(c, e, d)
    ensures Directed(d)
  {
    StepFacts(c, e, d);
    forall i | 0 <= i < |c.reps| ensures Heard(d, i, c.reps[i].leaderHint, c.reps[i].round) {
      HeardExtends(c, d, i, c.reps[i].leaderHint, c.reps[i].round, c.reps[i].round);
    }
    if !e.Drop? {
      var t := MoverHint(c, e, d);
      MoverHeard(c, d, c.reps[t.id], t, Proposer(e));
    }
  }

  ghost predicate KeyOfDirected(c: Cluster, n: nat) {
    true
  }

  /** Directed, kept folded. */
  ghost predicate DirectedHeld(c: Cluster) {
    forall n {:trigger KeyOfDirected(c, n)} :: KeyOfDirected(c, n) ==> Held(c) && Directed(c)
  }

  lemma StepDirectedHeld(c: Cluster, e: Event, d: Cluster)
    requires DirectedHeld(c) && StepsTo(c, e, d)
    ensures DirectedHeld(d)
  {
    assert KeyOfDirected(c, 0);
    StepHolds(c, e, d);
    StepDirected(c, e, d);
  }

  lemma InitialDirected(n: nat, leader: nat)
    requires leader < n
    ensures DirectedHeld(Initial(n, leader))
  {
    InitialHolds(n, leader);
    var c := Initial(n, leader);
    forall i: nat | i < n ensures Heard(c, i, leader, 0) { assert HeardIn(c, i, leader, 0); }
  }

  lemma {:induction false} RunDirected(n: nat, leader: nat, cs: seq<Cluster>, es: seq<Event>, i: nat)
    requires IsRun(n, leader, cs, es) && i < |cs|
    ensures DirectedHeld(cs[i])
  {
    if i == 0 {
      InitialDirected(n, leader);
    } else {
      RunDirected(n, leader, cs, es, i - 1);
      assert StepsTo(cs[i - 1], es[i - 1], cs[i - 1 + 1]);
      StepDirectedHeld(cs[i - 1], es[i - 1], cs[i]);
    }
  }

  /** In every state of every run a replica that does not lead redirects each client to one replica:
      a candidate to itself, a follower to one that has led a round no later than its own, or that it
      has voted for in one. */
  lemma RedirectsToKnown(n: nat, leader: nat, cs: seq<Cluster>, es: seq<Event>, i: nat, a: nat)
    requires IsRun(n, leader, cs, es) && i < |cs| && a < n
    ensures a < |cs[i].reps|
    ensures var s := cs[i].reps[a];
            s.role != Leader ==>
              exists target :: RedirectsTo(s, target) && if s.role == Candidate then target == a else Heard(cs[i], a, target, s.round)
  {
    RunDirected(n, leader, cs, es, i);
    assert KeyOfDirected(cs[i], 0);
    RunInv(n, leader, cs, es, i);
    var s := cs[i].reps[a];
    assert RepOk(cs[i], a);
    assert s.role != Leader ==> RedirectsTo(s, if s.role == Candidate then a else s.leaderHint);
  }
}
