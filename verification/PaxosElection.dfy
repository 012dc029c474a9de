/** That elections can be won: what a candidate and its voters do together. */
module PaxosElection {
  import opened Options
  import opened PancyDb
  import opened PaxosSpec
  import opened PaxosCluster
  import opened PaxosLeader
  import opened PaxosHandlers

  // ----- one campaign -----

  ghost function ProbeOf(c: Rep): Message {
    Probe(c.round, c.id, |c.log|, RoundAt(c.log, |c.log|))
  }

  /** Replica v handles the probe of candidate c, and what is left of the candidate handles its reply. */
  ghost function Canvassed(c: Rep, now: Rep, v: Rep): Rep {
    var reply := HandleProbe(v, ProbeOf(c)).1;
    if |reply| == 1 && reply[0].ToReplica? && reply[0].dst == c.id && Shape(now)
       && reply[0].msg.Prepare? && reply[0].msg.server < now.n
    then HandlePrepare(now, reply[0].msg).0
    else now
  }

  /** The candidate once it has canvassed these voters, one after the other. */
  ghost function Campaign(c: Rep, voters: seq<Rep>): Rep {
    if voters == [] then c else Canvassed(c, Campaign(c, voters[..|voters| - 1]), voters[|voters| - 1])
  }

  /** A replica whose log is no newer than that of s. */
  ghost predicate Supports(v: Rep, s: Rep) {
    UpToDate(v.log, |s.log|, RoundAt(s.log, |s.log|))
  }

  ghost function Backers(s: Rep, voters: seq<Rep>): set<nat> {
    if voters == [] then {s.id}
    else
      var v := voters[|voters| - 1];
      Backers(s, voters[..|voters| - 1]) + if Supports(v, s) then {v.id} else {}
  }

  /** Different replicas of one cluster, none of them s or of a round above that of s. */
  ghost predicate Electorate(s: Rep, voters: seq<Rep>) {
    && (forall i :: 0 <= i < |voters| ==>
          voters[i].n == s.n && voters[i].id < s.n && voters[i].id != s.id && voters[i].round <= s.round)
    && (forall i, j :: 0 <= i < j < |voters| ==> voters[i].id != voters[j].id)
  }

  lemma {:induction false} BackersAre(s: Rep, voters: seq<Rep>)
    ensures s.id in Backers(s, voters)
    ensures forall x :: x in Backers(s, voters) ==> x == s.id || exists i :: 0 <= i < |voters| && voters[i].id == x
  {
    if voters != [] {
      var init := voters[..|voters| - 1];
      BackersAre(s, init);
      forall x | x in Backers(s, voters) && x != s.id ensures exists i :: 0 <= i < |voters| && voters[i].id == x {
        if x in Backers(s, init) {
          var i :| 0 <= i < |init| && init[i].id == x;
          assert voters[i].id == x;
        } else {
          assert voters[|voters| - 1].id == x;
        }
      }
    }
  }

  /** The candidate before it has a quorum: promised by these replicas and no others. */
  ghost predicate Counting(c: Rep, now: Rep, backers: set<nat>) {
    && Shape(now) && now.role == Candidate && SameCandidate(c, now) && !HasQuorum(c.n, |backers|)
    && (forall p :: 0 <= p < now.n ==> (now.prepareOk[p] <==> p in backers)) && (forall p :: p in backers ==> p < now.n)
  }

  ghost predicate Won(c: Rep, now: Rep, backers: set<nat>) {
    Shape(now) && now.role == Leader && SameCandidate(c, now) && HasQuorum(c.n, |backers|)
  }

  ghost predicate SameCandidate(c: Rep, now: Rep) {
    now.id == c.id && now.n == c.n && now.round == c.round && now.log == c.log
  }

  /** A replica of an earlier round grants its vote exactly if its log is no newer. */
  lemma VoteCast(c: Rep, v: Rep)
    requires v.round < c.round
    ensures HandleProbe(v, ProbeOf(c)).1 == [ToReplica(c.id, Prepare(c.round, v.id, Supports(v, c)))]
  {
  }

  lemma VoteCounted(c: Rep, now: Rep, backers: set<nat>, v: nat, granted: bool)
    requires v < c.n && v !in backers && (Counting(c, now, backers) || Won(c, now, backers))
    ensures var more := backers + if granted then {v} else {};
            var t := HandlePrepare(now, Prepare(c.round, v, granted)).0;
            Counting(c, t, more) || Won(c, t, more)
  {
    var more := backers + if granted then {v} else {};
    var t := HandlePrepare(now, Prepare(c.round, v, granted)).0;
    if Counting(c, now, backers) && granted {
      var a := now.(prepareOk := now.prepareOk[v := true]);
      assert Promisers(a) == more;
      if HasQuorum(c.n, |more|) { TakesOver(c, a); }
    } else {
      assert t == now;
      if granted { assert |more| == |backers| + 1; } else { assert more == backers; }
    }
  }

  lemma TakesOver(c: Rep, a: Rep)
    requires Shape(a) && SameCandidate(c, a)
    ensures var t := Broadcast(BecomeLeader(a)).0; Shape(t) && t.role == Leader && SameCandidate(c, t)
  {
  }

  lemma CanvassCounts(c: Rep, now: Rep, v: Rep, backers: set<nat>)
    requires v.round < c.round && v.id < c.n && v.id !in backers && (Counting(c, now, backers) || Won(c, now, backers))
    ensures var more := backers + if Supports(v, c) then {v.id} else {};
            var t := Canvassed(c, now, v);
            Counting(c, t, more) || Won(c, t, more)
  {
    VoteCast(c, v);
    VoteCounted(c, now, backers, v.id, Supports(v, c));
  }

  lemma {:induction false} CampaignCounts(s: Rep, c: Rep, voters: seq<Rep>)
    requires Shape(c) && c.role == Candidate && c.id == s.id && c.n == s.n > 1 && c.log == s.log && c.round == s.round + 1
    requires c.prepareOk == Filled(s.n, false)[s.id := true] && Electorate(s, voters)
    ensures var t := Campaign(c, voters); Counting(c, t, Backers(s, voters)) || Won(c, t, Backers(s, voters))
  {
    if voters != [] {
      var init, v := voters[..|voters| - 1], voters[|voters| - 1];
      CampaignCounts(s, c, init);
      BackersAre(s, init);
      assert Supports(v, s) == Supports(v, c);
      CanvassCounts(c, Campaign(c, init), v, Backers(s, init));
    } else {
      StandsAlone(s, c);
    }
  }

  lemma StandsAlone(s: Rep, c: Rep)
    requires Shape(c) && c.role == Candidate && c.id == s.id && c.n > 1
    requires c.prepareOk == Filled(c.n, false)[s.id := true]
    ensures Counting(c, c, {s.id})
  {
  }

  /** The outcome of an election, exactly: a replica that stands and canvasses these voters leads the
      next round, with its log as it was, if and only if it and those of them whose logs are no newer
      than its own are a quorum; otherwise it goes on standing. */
  lemma ElectionExactly(s: Rep, voters: seq<Rep>)
    requires Shape(s) && s.n > 1 && s.role != Leader && Electorate(s, voters)
    ensures var t := Campaign(HandleTimeout(s).0, voters);
            && (t.role == Leader <==> HasQuorum(s.n, |Backers(s, voters)|))
            && t.role != Follower && t.round == s.round + 1 && t.log == s.log && t.id == s.id
  {
    var c := HandleTimeout(s).0;
    CampaignCounts(s, c, voters);
  }

  lemma {:induction false} PeersAsked(s: Rep, msg: Message, k: nat)
    ensures forall o :: o in ToPeers(s, msg, k) <==> o.ToReplica? && o.msg == msg && o.dst < k && o.dst != s.id
    ensures |ToPeers(s, msg, k)| == if s.id < k then k - 1 else k
  {
    if k > 0 { PeersAsked(s, msg, k - 1); }
  }

  /** A replica that stands sends its probe to every peer, once, and nothing else. */
  lemma EveryPeerAsked(s: Rep)
    requires Shape(s) && s.n > 1 && s.role != Leader
    ensures var (c, outs) := HandleTimeout(s);
            && (forall o :: o in outs <==> o.ToReplica? && o.msg == ProbeOf(c) && o.dst < s.n && o.dst != s.id)
            && |outs| == s.n - 1
  {
    var c := HandleTimeout(s).0;
    PeersAsked(c, ProbeOf(c), s.n);
  }

  // ----- somebody can always be elected -----

  /** Of any two replicas one supports the other, and support is passed on. */
  lemma SupportIsOrder(x: Rep, y: Rep, z: Rep)
    ensures Supports(x, y) || Supports(y, x)
    ensures Supports(x, y) && Supports(y, z) ==> Supports(x, z)
    ensures Supports(x, x)
  {
  }

  /** Among any replicas there is one that all of them support. */
  lemma {:induction false} NewestLog(reps: seq<Rep>) returns (b: nat)
    requires reps != []
    ensures b < |reps| && forall i :: 0 <= i < |reps| ==> Supports(reps[i], reps[b])
  {
    var last := |reps| - 1;
    SupportIsOrder(reps[last], reps[last], reps[last]);
    if last == 0 { return 0; }
    b := NewestLog(reps[..last]);
    var init := reps[..last];
    assert forall i :: 0 <= i < last ==> init[i] == reps[i];
    SupportIsOrder(reps[last], reps[b], reps[b]);
    if !Supports(reps[last], reps[b]) {
      forall i | 0 <= i < |reps| ensures Supports(reps[i], reps[last]) {
        if i < last {
          assert Supports(init[i], reps[b]);
          SupportIsOrder(reps[i], reps[b], reps[last]);
        }
      }
      b := last;
    }
  }

  function Without<T>(xs: seq<T>, b: nat): seq<T>
    requires b < |xs|
  {
    xs[..b] + xs[b + 1..]
  }

  /** All voters support the candidate: it has a backer for each, and itself. */
  lemma {:induction false} AllBack(s: Rep, voters: seq<Rep>)
    requires Electorate(s, voters) && forall i :: 0 <= i < |voters| ==> Supports(voters[i], s)
    ensures |Backers(s, voters)| == |voters| + 1
  {
    if voters != [] {
      var init, v := voters[..|voters| - 1], voters[|voters| - 1];
      AllBack(s, init);
      BackersAre(s, init);
      assert v.id !in Backers(s, init);
    }
  }

  /** Any majority of replicas of one round, none of them leading, has a member that becomes leader if
      it stands and canvasses the others. */
  lemma MajorityCanElect(reps: seq<Rep>) returns (b: nat)
    requires reps != [] && reps[0].n > 1 && HasQuorum(reps[0].n, |reps|)
    requires forall i :: 0 <= i < |reps| ==>
               Shape(reps[i]) && reps[i].n == reps[0].n && reps[i].round == reps[0].round && reps[i].role != Leader
    requires forall i, j :: 0 <= i < j < |reps| ==> reps[i].id != reps[j].id
    ensures b < |reps| && Campaign(HandleTimeout(reps[b]).0, Without(reps, b)).role == Leader
  {
    b := NewestLog(reps);
    var s, voters := reps[b], Without(reps, b);
    assert forall i :: 0 <= i < |voters| ==> voters[i] == reps[if i < b then i else i + 1];
    AllBack(s, voters);
    ElectionExactly(s, voters);
  }

  /** A vote once given is given again to the same candidate, and, in its round, to no other. */
  lemma VoteStands(v: Rep, m: Message, other: Message)
    requires m.Probe? && other.Probe? && other.round == m.round && other.leader != m.leader
    requires HandleProbe(v, m).1 == [ToReplica(m.leader, Prepare(m.round, v.id, true))]
    ensures HandleProbe(HandleProbe(v, m).0, m) == HandleProbe(v, m)
    ensures HandleProbe(HandleProbe(v, m).0, other).1 == [ToReplica(other.leader, Prepare(m.round, v.id, false))]
  {
  }

  // ----- an old round gives way -----

  /** A probe or a proposal of an old round is answered so that its sender follows in the newer round. */
  lemma OldRoundGivesWay(sender: Rep, v: Rep, m: Message)
    requires Shape(sender) && Shape(v) && v.id < sender.n && m.round < v.round && sender.round < v.round
    requires (m.Probe? && m.leader == sender.id) || (m.Propose? && m.leader == sender.id)
    ensures var (w, outs) := if m.Probe? then HandleProbe(v, m) else HandlePropose(v, m);
            && w == v && |outs| == 1 && outs[0].ToReplica? && outs[0].dst == sender.id
            && (outs[0].msg.Prepare? || outs[0].msg.Ack?) && outs[0].msg.server < sender.n
            && var t := HandleReplicaMessage(sender, outs[0].msg).0;
               t.role == Follower && t.round == v.round && t.promised == None && t.queue == [] && t.log == sender.log
  {
  }
}
