/** If the replica that moved leaves itself, and what it sent, in order, the whole cluster stays
    in order. `Local` collects what a handler has to establish about its own replica; everything
    else follows here once and for all, whatever the handler was. */
module PaxosInvariance {
  import opened Options
  import opened PaxosSpec
  import opened PaxosCluster

  /** History only grows. */
  ghost predicate Extends(c: Cluster, d: Cluster) {
    && d.n == c.n && |d.reps| == |c.reps| == c.n
    && (forall r :: r in c.leaders ==>
          && r in d.leaders && d.leaders[r].id == c.leaders[r].id && d.leaders[r].base == c.leaders[r].base
          && d.leaders[r].voters == c.leaders[r].voters && c.leaders[r].log <= d.leaders[r].log)
    && c.sent <= d.sent
    && (forall x :: x in c.votes ==> x in d.votes && d.votes[x] == c.votes[x])
    && (forall i :: 0 <= i < c.n ==> c.reps[i].round <= d.reps[i].round)
  }

  lemma ExtendsTrans(a: Cluster, b: Cluster, c: Cluster)
    requires Extends(a, b) && Extends(b, c)
    ensures Extends(a, c)
  {
    forall r | r in a.leaders ensures a.leaders[r].log <= c.leaders[r].log {
      assert a.leaders[r].log <= b.leaders[r].log <= c.leaders[r].log;
    }
  }

  lemma GoodLogExtends(c: Cluster, d: Cluster, log: seq<Entry>)
    requires Extends(c, d) && GoodLog(c, log)
    ensures GoodLog(d, log)
  {
    forall k | 0 <= k < |log| ensures GoodEntry(d, log, k) {
      assert GoodEntry(c, log, k);
    }
  }

  lemma HasExtends(c: Cluster, d: Cluster, log: seq<Entry>, r: nat, k: nat)
    requires Extends(c, d) && r in c.leaders && k <= |c.leaders[r].log|
    ensures Has(c, log, r, k) <==> Has(d, log, r, k)
  {
    assert c.leaders[r].log[..k] == d.leaders[r].log[..k];
  }

  lemma LostExtends(c: Cluster, d: Cluster, r: nat, k: nat, bound: nat)
    requires Extends(c, d) && r in c.leaders && k <= |c.leaders[r].log| && Lost(c, r, k, bound)
    ensures Lost(d, r, k, bound)
  {
    var q :| r < q <= bound && q in c.leaders && !Has(c, c.leaders[q].base, r, k);
    HasExtends(c, d, c.leaders[q].base, r, k);
  }

  lemma AckedExtends(c: Cluster, d: Cluster, s: nat, r: nat, k: nat)
    requires Extends(c, d) && Acked(c, s, r, k)
    ensures Acked(d, s, r, k)
  {
  }

  // ----- what a handler owes -----

  ghost predicate VoteAllowed(c: Cluster, s: Rep, t: Rep, d: Cluster) {
    && (t.round == s.round && s.promised.Some? ==> t.promised == s.promised)
    && (t.promised.Some? && t.round > 0 && (t.id, t.round) !in c.votes ==>
          && t.log == s.log && t.promised.value < c.n
          && (t.promised.value, t.round) in d.votes
          && var own := d.votes[(t.promised.value, t.round)];
             own.candidate == t.promised.value && UpToDate(t.log, |own.log|, RoundAt(own.log, |own.log|)))
  }

  ghost predicate StillLeads(c: Cluster, s: Rep, t: Rep) {
    && s.role == Leader && s.round == t.round && s.log <= t.log
    && forall k :: |s.log| <= k < |t.log| ==> t.log[k].round == t.round
  }

  ghost predicate NewlyLeads(c: Cluster, s: Rep, t: Rep, d: Cluster) {
    && t.round > 0 && t.round !in c.leaders && RoundsBelow(t.log, t.round)
    && (t.id, t.round) in d.votes && d.votes[(t.id, t.round)].log == t.log
    && d.votes[(t.id, t.round)].candidate == t.id
    && HasQuorum(c.n, |Supporters(c.n, d.votes, t.round, t.id)|)
  }

  ghost predicate Retains(c: Cluster, t: Rep, d: Cluster) {
    forall r: nat, k: nat :: Acked(c, t.id, r, k) ==> Has(d, t.log, r, k) || Lost(d, r, k, t.round)
  }

  ghost predicate AckHonest(t: Rep, o: Output, d: Cluster) {
    o.ToReplica? && o.msg.Ack? && o.msg.success ==>
      o.msg.server == t.id && o.msg.round == t.round && Has(d, t.log, o.msg.round, o.msg.matchIndex)
  }

  ghost predicate Local(c: Cluster, t: Rep, outs: seq<Output>)
    requires t.id < |c.reps|
  {
    var s, d := c.reps[t.id], Observe(c, t, outs);
    && t.n == c.n && Shape(t) && s.round <= t.round
    && GoodLog(d, t.log) && RoundsBelow(t.log, t.round + 1)
    && VoteAllowed(c, s, t, d)
    && (t.role == Leader ==> (StillLeads(c, s, t) || NewlyLeads(c, s, t, d)) && LeadingOk(d, t))
    && (s.role == Leader && s.round == t.round ==> t.role == Leader)
    && (t.role == Candidate ==> CandidateOk(d, t))
    && (forall o :: o in outs ==> MessageOk(d, o) && AckHonest(t, o, d))
    && Retains(c, t, d)
  }

  // ----- and what follows -----

  lemma ObserveExtends(c: Cluster, t: Rep, outs: seq<Output>)
    requires Inv(c) && t.id < |c.reps| && c.reps[t.id].round <= t.round
    requires t.role == Leader ==> StillLeads(c, c.reps[t.id], t) || t.round !in c.leaders
    ensures Extends(c, Observe(c, t, outs))
  {
    assert RepOk(c, t.id);
    var d := Observe(c, t, outs);
    forall r | r in c.leaders
      ensures && r in d.leaders && d.leaders[r].id == c.leaders[r].id && d.leaders[r].base == c.leaders[r].base
              && d.leaders[r].voters == c.leaders[r].voters && c.leaders[r].log <= d.leaders[r].log
    {
      assert LeaderOk(c, r);
    }
  }

  lemma OtherRepOk(c: Cluster, t: Rep, outs: seq<Output>, i: nat)
    requires Inv(c) && t.id < |c.reps| && Local(c, t, outs)
    requires i < c.n && i != t.id
    ensures RepOk(Observe(c, t, outs), i)
  {
    var d := Observe(c, t, outs);
    ObserveExtends(c, t, outs);
    var s := c.reps[i];
    assert RepOk(c, i) && RepOk(c, t.id);
    GoodLogExtends(c, d, s.log);
    if s.role == Leader {
      assert LeaderOk(c, s.round);
      assert d.leaders[s.round] == c.leaders[s.round];
      forall p | 0 <= p < s.n && p != s.id && s.matchIndex[p] > 0
        ensures Acked(d, p, s.round, s.matchIndex[p])
      {
        AckedExtends(c, d, p, s.round, s.matchIndex[p]);
      }
    }
  }

  lemma MovedRepOk(c: Cluster, t: Rep, outs: seq<Output>)
    requires Inv(c) && t.id < |c.reps| && Local(c, t, outs)
    ensures RepOk(Observe(c, t, outs), t.id)
  {
    var d := Observe(c, t, outs);
    var s := c.reps[t.id];
    assert RepOk(c, t.id);
    if (t.id, t.round) in c.votes {
      assert VoteOk(c, t.id, t.round);
    }
  }

  lemma LeadersOk(c: Cluster, t: Rep, outs: seq<Output>, r: nat)
    requires Inv(c) && t.id < |c.reps| && Local(c, t, outs)
    requires r in Observe(c, t, outs).leaders
    ensures LeaderOk(Observe(c, t, outs), r)
  {
    var d := Observe(c, t, outs);
    var s := c.reps[t.id];
    ObserveExtends(c, t, outs);
    assert RepOk(c, t.id);
    var l := d.leaders[r];
    if r in c.leaders {
      assert LeaderOk(c, r);
      GoodLogExtends(c, d, c.leaders[r].log);
      if r > 0 {
        assert forall v :: v in l.voters ==> VoterOk(c, v, r, c.leaders[r]) && VoterOk(d, v, r, l);
      }
    } else {
      forall v | v in l.voters ensures VoterOk(d, v, r, l) {
        NewVoterOk(c, t, outs, v);
      }
    }
  }

  lemma NewVoterOk(c: Cluster, t: Rep, outs: seq<Output>, v: nat)
    requires Inv(c) && t.id < |c.reps| && Local(c, t, outs)
    requires t.role == Leader && t.round !in c.leaders
    requires v in Supporters(c.n, Observe(c, t, outs).votes, t.round, t.id)
    ensures var d := Observe(c, t, outs); VoterOk(d, v, t.round, d.leaders[t.round])
  {
    assert RepOk(c, t.id);
    VotesOk(c, t, outs, v, t.round);
    if (v, t.round) in c.votes {
      assert VoteOk(c, v, t.round);
    }
  }

  lemma VotesOk(c: Cluster, t: Rep, outs: seq<Output>, v: nat, r: nat)
    requires Inv(c) && t.id < |c.reps| && Local(c, t, outs)
    requires (v, r) in Observe(c, t, outs).votes
    ensures VoteOk(Observe(c, t, outs), v, r)
  {
    var d := Observe(c, t, outs);
    ObserveExtends(c, t, outs);
    assert RepOk(c, t.id);
    if (v, r) in c.votes {
      assert VoteOk(c, v, r);
      GoodLogExtends(c, d, c.votes[(v, r)].log);
    }
  }

  lemma MessagesOk(c: Cluster, t: Rep, outs: seq<Output>, p: Output)
    requires Inv(c) && t.id < |c.reps| && Local(c, t, outs)
    requires p in Observe(c, t, outs).sent
    ensures MessageOk(Observe(c, t, outs), p)
  {
    ObserveExtends(c, t, outs);
    if p !in outs {
      assert MessageOk(c, p);
      SliceExtends(c, Observe(c, t, outs), p);
    }
  }

  lemma SliceExtends(c: Cluster, d: Cluster, p: Output)
    requires Extends(c, d) && MessageOk(c, p)
    ensures MessageOk(d, p)
  {
    if p.ToReplica? && p.msg.Propose? {
      var l, m := c.leaders[p.msg.round].log, d.leaders[p.msg.round].log;
      assert forall k :: 0 <= k < |l| ==> l[k] == m[k];
      assert m[p.msg.prevIndex..p.msg.prevIndex + |p.msg.entries|] == l[p.msg.prevIndex..p.msg.prevIndex + |p.msg.entries|];
    }
  }

  /** An acknowledgement not yet on record is one the moved replica can still honour. */
  lemma NewlyAcked(c: Cluster, t: Rep, outs: seq<Output>, s: nat, r: nat, k: nat)
    requires Inv(c) && t.id < |c.reps| && Local(c, t, outs)
    requires Acked(Observe(c, t, outs), s, r, k) && !Acked(c, s, r, k)
    ensures s == t.id && r == t.round && Has(Observe(c, t, outs), t.log, r, k)
  {
    var d := Observe(c, t, outs);
    ObserveExtends(c, t, outs);
    if s == d.leaders[r].id {
      LeaderNewlyAcked(c, t, outs, r, k);
    } else {
      var p :| p in d.sent && IsAck(p, s, r, k);
      if p in outs {
        AckNewlySent(c, t, outs, s, r, k, p);
      } else {
        OldAck(c, d, s, r, k, p);
      }
    }
  }

  /** A leader's own holding grows with its log. */
  lemma LeaderNewlyAcked(c: Cluster, t: Rep, outs: seq<Output>, r: nat, k: nat)
    requires Inv(c) && t.id < |c.reps| && Local(c, t, outs) && r in Observe(c, t, outs).leaders
    requires Acked(Observe(c, t, outs), Observe(c, t, outs).leaders[r].id, r, k)
    requires !Acked(c, Observe(c, t, outs).leaders[r].id, r, k)
    ensures Observe(c, t, outs).leaders[r].id == t.id && r == t.round && Has(Observe(c, t, outs), t.log, r, k)
  {
    var d := Observe(c, t, outs);
    assert RepOk(c, t.id);
    if r in c.leaders {
      assert LeaderOk(c, r);
    }
    assert r == t.round && d.leaders[r].log == t.log;
  }

  lemma AckNewlySent(c: Cluster, t: Rep, outs: seq<Output>, s: nat, r: nat, k: nat, p: Output)
    requires t.id < |c.reps| && Local(c, t, outs) && p in outs && IsAck(p, s, r, k)
    ensures s == t.id && r == t.round && Has(Observe(c, t, outs), t.log, t.round, k)
  {
    var d := Observe(c, t, outs);
    assert AckHonest(t, p, d);
    assert t.log[..k] == t.log[..p.msg.matchIndex][..k];
    assert d.leaders[t.round].log[..k] == d.leaders[t.round].log[..p.msg.matchIndex][..k];
  }

  lemma OldAck(c: Cluster, d: Cluster, s: nat, r: nat, k: nat, p: Output)
    requires Inv(c) && Extends(c, d) && p in c.sent && IsAck(p, s, r, k)
    ensures Acked(c, s, r, k)
  {
    assert MessageOk(c, p);
  }

  lemma RetentionOk(c: Cluster, t: Rep, outs: seq<Output>)
    requires Inv(c) && t.id < |c.reps| && Local(c, t, outs)
    ensures RetainOk(Observe(c, t, outs))
  {
    var d := Observe(c, t, outs);
    ObserveExtends(c, t, outs);
    assert RepOk(c, t.id);
    forall s: nat, r: nat, k: nat | Acked(d, s, r, k)
      ensures s < |d.reps| && r <= d.reps[s].round
      ensures Has(d, d.reps[s].log, r, k) || Lost(d, r, k, d.reps[s].round)
    {
      if !Acked(c, s, r, k) {
        NewlyAcked(c, t, outs, s, r, k);
      } else if s != t.id {
        HasExtends(c, d, c.reps[s].log, r, k);
        if Lost(c, r, k, c.reps[s].round) {
          LostExtends(c, d, r, k, c.reps[s].round);
        }
      }
    }
  }

  lemma VoteRetentionOk(c: Cluster, t: Rep, outs: seq<Output>)
    requires Inv(c) && t.id < |c.reps| && Local(c, t, outs)
    ensures VotesRetainOk(Observe(c, t, outs))
  {
    var d := Observe(c, t, outs);
    forall s: nat, r: nat, k: nat, w: nat | Acked(d, s, r, k) && (s, w) in d.votes && r < w && !d.votes[(s, w)].late
      ensures Has(d, d.votes[(s, w)].log, r, k) || Lost(d, r, k, w - 1)
    {
      VoteRetained(c, t, outs, s, r, k, w);
    }
  }

  lemma VoteRetained(c: Cluster, t: Rep, outs: seq<Output>, s: nat, r: nat, k: nat, w: nat)
    requires Inv(c) && t.id < |c.reps| && Local(c, t, outs)
    requires var d := Observe(c, t, outs); Acked(d, s, r, k) && (s, w) in d.votes && r < w && !d.votes[(s, w)].late
    ensures var d := Observe(c, t, outs); Has(d, d.votes[(s, w)].log, r, k) || Lost(d, r, k, w - 1)
  {
    var d := Observe(c, t, outs);
    ObserveExtends(c, t, outs);
    assert RepOk(c, t.id);
    VotesOk(c, t, outs, s, w);
    if !Acked(c, s, r, k) {
      NewlyAcked(c, t, outs, s, r, k);
      assert false;
    } else if (s, w) in c.votes {
      HasExtends(c, d, c.votes[(s, w)].log, r, k);
      if Lost(c, r, k, w - 1) {
        LostExtends(c, d, r, k, w - 1);
      }
    } else {
      HasExtends(c, d, t.log, r, k);
      if !Has(c, t.log, r, k) {
        var q :| r < q <= c.reps[s].round && q in c.leaders && !Has(c, c.leaders[q].base, r, k);
        assert q != w;
        HasExtends(c, d, c.leaders[q].base, r, k);
      }
    }
  }

  lemma LocalKeepsInv(c: Cluster, t: Rep, outs: seq<Output>)
    requires Inv(c) && t.id < |c.reps| && Local(c, t, outs)
    ensures Inv(Observe(c, t, outs)) && Extends(c, Observe(c, t, outs))
  {
    var d := Observe(c, t, outs);
    ObserveExtends(c, t, outs);
    forall i | 0 <= i < c.n ensures RepOk(d, i) {
      if i == t.id { MovedRepOk(c, t, outs); } else { OtherRepOk(c, t, outs, i); }
    }
    forall r | r in d.leaders ensures LeaderOk(d, r) { LeadersOk(c, t, outs, r); }
    forall v, r | (v, r) in d.votes ensures VoteOk(d, v, r) { VotesOk(c, t, outs, v, r); }
    forall p | p in d.sent ensures MessageOk(d, p) { MessagesOk(c, t, outs, p); }
    RetentionOk(c, t, outs);
    VoteRetentionOk(c, t, outs);
    forall p | p in d.net ensures p in d.sent {
      if p !in c.net { assert p in multiset(outs) && p in outs; }
    }
  }
}
