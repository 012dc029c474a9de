/** The exact condition under which replicas agree on what they have applied: that no follower ever
    commits an entry its proposing leader does not have. */
module PaxosExact {
  import opened Options
  import opened PancyDb
  import opened PaxosSpec
  import opened PaxosMachine
  import opened PaxosCluster
  import opened PaxosLeader
  import opened PaxosInvariance
  import opened PaxosHandlers
  import opened PaxosProgress
  import opened PaxosConduct
  import opened PaxosSafety
  import opened PaxosAgreement
  import opened PaxosAuthority

  /** Any two replicas hold the same entry at every slot both have applied. */
  ghost predicate Same(c: Cluster) {
    forall a, b :: 0 <= a < |c.reps| && 0 <= b < |c.reps| ==> SameApplied(c.reps[a], c.reps[b])
  }

  // ----- what a proposal promises, its sender has applied -----

  /** Whatever a proposal lets others commit, the leader of its round has committed itself. */
  ghost predicate Underwritten(c: Cluster, p: Output) {
    p.ToReplica? && p.msg.Propose? ==>
      && p.msg.round in c.leaders
      && var l, x := c.leaders[p.msg.round], p.msg.decide;
         && l.id < |c.reps| && x <= |l.log| && x <= |c.reps[l.id].log|
         && x <= c.reps[l.id].commit && c.reps[l.id].log[..x] == l.log[..x]
  }

  ghost predicate Prompt(c: Cluster) {
    && |c.reps| == c.n
    && (forall i :: 0 <= i < c.n ==> c.reps[i].applied == c.reps[i].commit)
    && (forall p :: p in c.sent ==> Underwritten(c, p))
  }

  lemma InitialPrompt(n: nat, leader: nat)
    requires leader < n
    ensures Prompt(Initial(n, leader))
  {
  }

  /** The committed prefix only grows. */
  ghost predicate KeepsCommitted(s: Rep, t: Rep) {
    s.commit <= |s.log| && s.commit <= t.commit <= |t.log| && t.log[..s.commit] == s.log[..s.commit]
  }

  lemma ProgressKeepsCommitted(c: Cluster, e: Event, t: Rep, outs: seq<Output>)
    requires Target(e) < |c.reps| && (e.Deliver? ==> e.packet.ToReplica?) && Progress(c, e, t, outs)
    requires c.reps[Target(e)].commit <= |c.reps[Target(e)].log|
    ensures KeepsCommitted(c.reps[Target(e)], t)
  {
  }

  lemma CommitsWithinLog(c: Cluster, i: nat)
    requires Held(c) && i < c.n
    ensures i < |c.reps| && c.reps[i].commit <= |c.reps[i].log| && c.reps[i].applied <= c.reps[i].commit
  {
    assert Unfold(0);
    assert RepOk(c, i);
  }

  /** What a step does to any one replica. */
  lemma StepKeepsCommitted(c: Cluster, e: Event, d: Cluster, i: nat)
    requires Held(c) && StepsTo(c, e, d) && i < c.n && |c.reps| == |d.reps| == c.n
    ensures KeepsCommitted(c.reps[i], d.reps[i])
    ensures c.reps[i].applied == c.reps[i].commit ==> d.reps[i].applied == d.reps[i].commit
  {
    CommitsWithinLog(c, i);
    if e.Drop? {
      DropMovesNobody(c, e, d);
    } else {
      var t, outs := Mover(c, e, d);
      if i == t.id {
        ProgressKeepsCommitted(c, e, t, outs);
        MoverProper(c, e, d, t.id);
      }
    }
  }

  lemma MoverProper(c: Cluster, e: Event, d: Cluster, i: nat)
    requires Held(c) && StepsTo(c, e, d) && !e.Drop? && i == Target(e) && i < |c.reps| && i < |d.reps|
    ensures c.reps[i].applied == c.reps[i].commit ==> d.reps[i].applied == d.reps[i].commit
  {
    assert Unfold(0);
    HandlerProgress(c, e);
    HandlerProper(c, e);
  }

  lemma StillUnderwritten(c: Cluster, e: Event, d: Cluster, p: Output)
    requires Held(c) && StepsTo(c, e, d) && Extends(c, d) && Underwritten(c, p)
    ensures Underwritten(d, p)
  {
    if p.ToReplica? && p.msg.Propose? {
      var l, x := c.leaders[p.msg.round], p.msg.decide;
      StepKeepsCommitted(c, e, d, l.id);
      var s, t := c.reps[l.id], d.reps[l.id];
      assert t.log[..x] == t.log[..s.commit][..x] == s.log[..s.commit][..x] == s.log[..x];
      assert d.leaders[p.msg.round].log[..x] == l.log[..x];
    }
  }

  lemma NewlyUnderwritten(c: Cluster, e: Event, d: Cluster, p: Output)
    requires Held(c) && Held(d) && Authority(c) && StepsTo(c, e, d) && Extends(c, d) && p in d.sent && p !in c.sent
    ensures Underwritten(d, p)
  {
    var t := NewOutput(c, e, d, p);
    if p.ToReplica? && p.msg.Propose? {
      LeadsOnRecord(d, t.id);
    }
  }

  lemma StepKeepsPrompt(c: Cluster, e: Event, d: Cluster)
    requires Held(c) && Held(d) && Authority(c) && Prompt(c) && StepsTo(c, e, d) && Extends(c, d)
    ensures Prompt(d)
  {
    forall i | 0 <= i < d.n ensures d.reps[i].applied == d.reps[i].commit { StepKeepsCommitted(c, e, d, i); }
    forall p | p in d.sent ensures Underwritten(d, p) {
      if p in c.sent { StillUnderwritten(c, e, d, p); } else { NewlyUnderwritten(c, e, d, p); }
    }
  }

  /** Prompt, kept folded. */
  ghost predicate PromptHeld(c: Cluster) {
    forall n {:trigger Unfold(n)} :: Unfold(n) ==> Prompt(c)
  }

  lemma StepPrompt(c: Cluster, e: Event, d: Cluster)
    requires Held(c) && Trusted(c) && PromptHeld(c) && StepsTo(c, e, d)
    ensures PromptHeld(d)
  {
    StepExtends(c, e, d);
    StepPromptPlain(c, e, d);
  }

  lemma StepExtends(c: Cluster, e: Event, d: Cluster)
    requires Held(c) && StepsTo(c, e, d)
    ensures Held(d) && Extends(c, d)
  {
    assert Unfold(0);
    StepKeeps(c, e, d);
  }

  lemma StepPromptPlain(c: Cluster, e: Event, d: Cluster)
    requires Held(c) && Held(d) && Trusted(c) && PromptHeld(c) && StepsTo(c, e, d) && Extends(c, d)
    ensures Prompt(d)
  {
    assert Unfold(0);
    StepKeepsPrompt(c, e, d);
  }

  lemma InitialPromptHeld(n: nat, leader: nat)
    requires leader < n
    ensures PromptHeld(Initial(n, leader))
  {
    InitialPrompt(n, leader);
  }

  lemma {:induction false} RunPrompt(n: nat, leader: nat, cs: seq<Cluster>, es: seq<Event>, i: nat)
    requires IsRun(n, leader, cs, es) && i < |cs|
    ensures PromptHeld(cs[i])
  {
    if i == 0 {
      InitialPromptHeld(n, leader);
    } else {
      RunPrompt(n, leader, cs, es, i - 1);
      RunStepFacts(n, leader, cs, es, i - 1);
      StepPrompt(cs[i - 1], es[i - 1], cs[i]);
    }
  }

  lemma RunStepFacts(n: nat, leader: nat, cs: seq<Cluster>, es: seq<Event>, i: nat)
    requires IsRun(n, leader, cs, es) && i < |es|
    ensures Held(cs[i]) && Trusted(cs[i]) && StepsTo(cs[i], es[i], cs[i + 1])
  {
    RunHolds(n, leader, cs, es, i);
    RunTrusted(n, leader, cs, es, i);
  }

  // ----- the exact condition -----

  /** A follower that commits an entry its leader lacks has at once applied something else than it. */
  lemma SameIsTruthful(c: Cluster, e: Event, d: Cluster)
    requires Held(c) && StepsTo(c, e, d) && Prompt(c) && Same(d)
    ensures Truthful(c, e)
  {
    if e.Deliver? && e.packet.ToReplica? && e.packet.msg.Propose? {
      var i, m := e.packet.dst, e.packet.msg;
      ProposalTaken(c, e, d, i, m);
      assert Underwritten(c, ToReplica(i, m));
      var l := c.leaders[m.round].id;
      assert SameApplied(d.reps[i], d.reps[l]);
      SameCommitsWith(c.reps[i], m, d.reps[i], d.reps[l], c.leaders[m.round].log);
    }
  }

  /** The delivery of a proposal moves its receiver, which is not its leader, and nobody else. */
  lemma ProposalTaken(c: Cluster, e: Event, d: Cluster, i: nat, m: Message)
    requires Held(c) && StepsTo(c, e, d) && e == Deliver(ToReplica(i, m)) && m.Propose?
    ensures ToReplica(i, m) in c.sent && m.round in c.leaders && c.leaders[m.round].id != i
    ensures i < |c.reps| && Shape(c.reps[i])
    ensures |d.reps| == |c.reps| && d.reps == c.reps[i := HandlePropose(c.reps[i], m).0]
  {
    assert Unfold(0);
    HandlerProgress(c, e);
    assert RepOk(c, i) && MessageOk(c, ToReplica(i, m));
  }

  lemma SameCommitsWith(s: Rep, m: Message, t: Rep, u: Rep, lead: seq<Entry>)
    requires Shape(s) && m.Propose? && t == HandlePropose(s, m).0 && SameApplied(t, u)
    requires m.decide <= |lead| && m.decide <= |u.log| && m.decide <= u.applied && u.log[..m.decide] == lead[..m.decide]
    ensures CommitsWith(s, m, lead)
  {
    if Accepts(s, m) && m.decide > s.commit {
      MergedShape(s, m);
      forall k | 0 <= k < t.commit ensures t.log[k] == lead[k] {
        assert u.log[..m.decide][k] == lead[..m.decide][k];
      }
    }
  }

  lemma SameStepIsTruthful(c: Cluster, e: Event, d: Cluster)
    requires Held(c) && StepsTo(c, e, d) && PromptHeld(c) && Same(d)
    ensures TruthfulStep(c, e)
  {
    assert Prompt(c) by { assert Unfold(0); }
    SameIsTruthful(c, e, d);
  }

  lemma TruthfulRunIsSame(n: nat, leader: nat, cs: seq<Cluster>, es: seq<Event>, i: nat)
    requires TruthfulRun(n, leader, cs, es) && i < |cs|
    ensures Same(cs[i])
  {
    forall a, b | 0 <= a < |cs[i].reps| && 0 <= b < |cs[i].reps| ensures SameApplied(cs[i].reps[a], cs[i].reps[b]) {
      StateMachineSafety(n, leader, cs, es, i, i, a, b);
    }
  }

  /** The exact condition of agreement, in every run: any two replicas hold, in every state, the same
      entries at all slots both have applied, if and only if no follower ever commits an entry its
      proposing leader does not have. */
  lemma StateMachineExactly(n: nat, leader: nat, cs: seq<Cluster>, es: seq<Event>)
    requires IsRun(n, leader, cs, es)
    ensures (forall i :: 0 <= i < |cs| ==> Same(cs[i])) <==> TruthfulRun(n, leader, cs, es)
  {
    if TruthfulRun(n, leader, cs, es) {
      forall i | 0 <= i < |cs| ensures Same(cs[i]) { TruthfulRunIsSame(n, leader, cs, es, i); }
    }
    if forall i :: 0 <= i < |cs| ==> Same(cs[i]) {
      forall k {:trigger es[k]} | 0 <= k < |es| ensures TruthfulStep(cs[k], es[k]) {
        RunStepFacts(n, leader, cs, es, k);
        RunPrompt(n, leader, cs, es, k);
        SameStepIsTruthful(cs[k], es[k], cs[k + 1]);
      }
    }
  }
}
