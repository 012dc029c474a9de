/** Real-time order: a request that arrives after a reply was sent is applied after it. */
module PaxosRealTime {
  import opened Options
  import opened PancyDb
  import opened PaxosSpec
  import opened PaxosMachine
  import opened PaxosCluster
  import opened PaxosInvariance
  import opened PaxosHandlers
  import opened PaxosProgress
  import opened PaxosSafety
  import opened PaxosAgreement
  import opened PaxosAuthority

  ghost predicate Known(received: set<nat>, log: seq<Entry>) {
    forall k :: 0 <= k < |log| ==> log[k].req.serial in received
  }

  ghost predicate QueueKnown(received: set<nat>, s: Rep) {
    Known(received, s.log) && forall q :: q in s.queue ==> q.serial in received
  }

  /** Nothing is in a log or a queue that no client ever sent. */
  ghost predicate OnlyReceived(c: Cluster) {
    && (forall i :: 0 <= i < |c.reps| ==> QueueKnown(c.received, c.reps[i]))
    && (forall r :: r in c.leaders ==> Known(c.received, c.leaders[r].log))
  }

  lemma SteadyKnown(received: set<nat>, s: Rep, t: Rep, outs: seq<Output>, extra: seq<Request>, now: set<nat>)
    requires QueueKnown(received, s) && Steady(s, t, outs, extra)
    requires received <= now && forall q :: q in extra ==> q.serial in now
    ensures QueueKnown(now, t)
  {
    forall k | 0 <= k < |t.log| ensures t.log[k].req.serial in now {
      if k < |s.log| { assert t.log[k] == s.log[k]; }
    }
  }

  lemma MergedKnown(c: Cluster, p: Output, t: Rep, outs: seq<Output>)
    requires Inv(c) && OnlyReceived(c) && p.ToReplica? && p.dst < c.n && MessageOk(c, p)
    requires t.id == p.dst && Merging(c.reps[p.dst], p.msg, t, outs)
    ensures QueueKnown(c.received, t)
  {
    var s, m := c.reps[p.dst], p.msg;
    assert RepOk(c, p.dst) && LeaderOk(c, m.round);
    MergedFollows(c, s, m, t.log);
    assert Known(c.received, c.leaders[m.round].log) && QueueKnown(c.received, s);
    FollowsKnown(c.received, s.log, t.log, c.leaders[m.round].log, m.prevIndex + |m.entries|);
  }

  lemma FollowsKnown(received: set<nat>, log: seq<Entry>, merged: seq<Entry>, lead: seq<Entry>, got: nat)
    requires Follows(log, merged, lead, got) && Known(received, log) && Known(received, lead) && got <= |lead|
    ensures Known(received, merged)
  {
    assert Known(received, lead[..got]);
  }

  lemma MoverKnown(c: Cluster, e: Event, t: Rep, outs: seq<Output>)
    requires Inv(c) && OnlyReceived(c) && Ready(c, e) && !e.Drop? && Target(e) < c.n
    requires Progress(c, e, t, outs)
    ensures QueueKnown(Arrive(c, e).received, t)
  {
    var s := c.reps[t.id];
    if Steady(s, t, outs, Extra(e)) {
      SteadyKnown(c.received, s, t, outs, Extra(e), Arrive(c, e).received);
    } else {
      assert MessageOk(c, e.packet);
      MergedKnown(c, e.packet, t, outs);
    }
  }

  lemma ObservedKnown(c: Cluster, t: Rep, outs: seq<Output>)
    requires OnlyReceived(c) && t.id < |c.reps| && QueueKnown(c.received, t)
    ensures OnlyReceived(Observe(c, t, outs))
  {
  }

  lemma StepKeepsKnown(c: Cluster, e: Event, d: Cluster)
    requires Inv(c) && OnlyReceived(c) && StepsTo(c, e, d)
    ensures OnlyReceived(d)
  {
    assert Unfold(0);
    var b := Arrive(c, e);
    assert OnlyReceived(b) by {
      assert forall i :: 0 <= i < |c.reps| ==> QueueKnown(c.received, c.reps[i]) && QueueKnown(b.received, b.reps[i]);
      assert forall r :: r in c.leaders ==> Known(c.received, c.leaders[r].log) && Known(b.received, b.leaders[r].log);
    }
    if !e.Drop? {
      var (t, outs) := Handler(c, e);
      HandlerProgress(c, e);
      MoverKnown(c, e, t, outs);
      ObservedKnown(b, t, outs);
    }
  }

  /** OnlyReceived, kept folded. */
  ghost predicate ReceivedHeld(c: Cluster) {
    forall n {:trigger Unfold(n)} :: Unfold(n) ==> OnlyReceived(c)
  }

  lemma StepReceived(c: Cluster, e: Event, d: Cluster)
    requires Held(c) && ReceivedHeld(c) && StepsTo(c, e, d)
    ensures ReceivedHeld(d)
  {
    assert Unfold(0);
    StepKeepsKnown(c, e, d);
  }

  lemma InitialReceived(n: nat, leader: nat)
    requires leader < n
    ensures ReceivedHeld(Initial(n, leader))
  {
  }

  lemma {:induction false} RunReceived(n: nat, leader: nat, cs: seq<Cluster>, es: seq<Event>, i: nat)
    requires IsRun(n, leader, cs, es) && i < |cs|
    ensures ReceivedHeld(cs[i])
  {
    if i == 0 {
      InitialReceived(n, leader);
    } else {
      RunReceived(n, leader, cs, es, i - 1);
      RunHolds(n, leader, cs, es, i - 1);
      assert StepsTo(cs[i - 1], es[i - 1], cs[i - 1 + 1]);
      StepReceived(cs[i - 1], es[i - 1], cs[i]);
    }
  }

  lemma RunKnown(n: nat, leader: nat, cs: seq<Cluster>, es: seq<Event>, i: nat)
    requires IsRun(n, leader, cs, es) && i < |cs|
    ensures OnlyReceived(cs[i])
  {
    RunReceived(n, leader, cs, es, i);
    assert Unfold(0);
  }

  // ----- order in real time -----

  /** A settled prefix agrees with every chosen prefix, as far as both reach. */
  lemma SettledFollowsChosen(c: Cluster, s: Rep, r: nat, k: nat)
    requires Inv(c) && s.commit <= |s.log| && Settled(c, s.log, s.commit) && Chosen(c, r, k)
    ensures forall q :: 0 <= q < k && q < s.commit ==> s.log[q] == c.leaders[r].log[q]
  {
    var lead := c.leaders[r].log;
    assert SettledBy(c, lead, k, r, k);
    var common := Min(s.commit, k);
    assert s.log[..common] == lead[..common] by {
      if s.commit <= k { SettledAgree(c, s.log, s.commit, lead, k); } else { SettledAgree(c, lead, k, s.log, s.commit); }
    }
    forall q | 0 <= q < k && q < s.commit ensures s.log[q] == lead[q] {
      assert s.log[..common][q] == lead[..common][q];
    }
  }

  /** What a reply stood on when it was sent: a chosen prefix of requests that had all arrived. */
  lemma RepliedFrom(n: nat, leader: nat, cs: seq<Cluster>, es: seq<Event>, i: nat, resp: Response)
    returns (r: nat, k: nat, p: nat)
    requires IsRun(n, leader, cs, es) && i < |cs| && ToClient(resp) in cs[i].sent && !resp.Redirection?
    ensures Chosen(cs[i], r, k) && Known(cs[i].received, cs[i].leaders[r].log)
    ensures p < k && cs[i].leaders[r].log[p].req.serial == resp.serial
  {
    RunAuthority(n, leader, cs, es, i);
    RunKnown(n, leader, cs, es, i);
    assert Justified(cs[i], ToClient(resp).resp);
    r, k :| JustifiedBy(cs[i], resp, r, k);
    var early := cs[i].leaders[r].log[..k];
    ReplayRemembers(early);
    p :| 0 <= p < |early| && early[p].req.serial == resp.serial;
  }

  /** If the reply had been sent before any copy of request x arrived, then in any later settled prefix x
      comes after it. */
  lemma SettledInOrder(n: nat, leader: nat, cs: seq<Cluster>, es: seq<Event>, i: nat, j: nat, s: Rep,
                       resp: Response, x: nat, slot: nat)
    requires IsRun(n, leader, cs, es) && i <= j < |cs| && s.commit <= |s.log| && Settled(cs[j], s.log, s.commit)
    requires ToClient(resp) in cs[i].sent && !resp.Redirection? && x !in cs[i].received
    requires slot < s.commit && s.log[slot].req.serial == x
    ensures exists p :: 0 <= p < slot && s.log[p].req.serial == resp.serial
  {
    var r, k, p := RepliedFrom(n, leader, cs, es, i, resp);
    var early := cs[i].leaders[r].log;
    RunInv(n, leader, cs, es, j);
    RunExtends(n, leader, cs, es, i, j);
    ChosenExtends(cs[i], cs[j], r, k);
    assert early <= cs[j].leaders[r].log;
    SettledFollowsChosen(cs[j], s, r, k);
    assert forall q :: 0 <= q < k && q < s.commit ==> s.log[q] == early[q];
    assert k <= slot;
    assert s.log[p] == early[p];
  }

  /** In every run: if the reply to `resp.serial` had been sent before any copy of request `x`
      arrived, then wherever a leader has applied `x`, it has applied `resp.serial` in an earlier slot. */
  lemma LeadersServeInOrder(n: nat, leader: nat, cs: seq<Cluster>, es: seq<Event>, i: nat, j: nat, b: nat,
                            resp: Response, x: nat, slot: nat)
    requires IsRun(n, leader, cs, es) && i <= j < |cs| && b < |cs[j].reps| && cs[j].reps[b].role == Leader
    requires ToClient(resp) in cs[i].sent && !resp.Redirection? && x !in cs[i].received
    requires slot < cs[j].reps[b].applied && slot < |cs[j].reps[b].log| && cs[j].reps[b].log[slot].req.serial == x
    ensures exists p :: 0 <= p < slot && cs[j].reps[b].log[p].req.serial == resp.serial
  {
    LeaderSettledLater(n, leader, cs, es, j, j, b);
    SettledInOrder(n, leader, cs, es, i, j, cs[j].reps[b], resp, x, slot);
  }

  /** The same on every replica, in runs in which followers commit only what their leader has. */
  lemma RealTimeOrder(n: nat, leader: nat, cs: seq<Cluster>, es: seq<Event>, i: nat, j: nat, b: nat,
                      resp: Response, x: nat, slot: nat)
    requires TruthfulRun(n, leader, cs, es) && i <= j < |cs| && b < |cs[j].reps|
    requires ToClient(resp) in cs[i].sent && !resp.Redirection? && x !in cs[i].received
    requires slot < cs[j].reps[b].applied && slot < |cs[j].reps[b].log| && cs[j].reps[b].log[slot].req.serial == x
    ensures exists p :: 0 <= p < slot && cs[j].reps[b].log[p].req.serial == resp.serial
  {
    SettledLater(n, leader, cs, es, j, j, b);
    SettledInOrder(n, leader, cs, es, i, j, cs[j].reps[b], resp, x, slot);
  }
}
