/** What the actions of a leader have in common: `Led(s, t, outs)` relates the leader before and
    after any mix of appending, sending, committing, applying and trimming. */
module PaxosLeader {
  import opened Options
  import opened PancyDb
  import opened PaxosSpec
  import opened PaxosMachine
  import opened PaxosCluster

  ghost predicate NextOk(s: Rep) {
    forall p :: 0 <= p < |s.nextIndex| ==> s.nextIndex[p] <= |s.log| + 1
  }

  /** A proposal that quotes the leader's log. */
  ghost predicate Quotes(t: Rep, o: Output) {
    o.ToReplica? ==>
      && o.dst < t.n && o.dst != t.id && o.msg.Propose? && o.msg.round == t.round && o.msg.leader == t.id
      && Slice(t.log, o.msg.prevIndex, o.msg.prevRound, o.msg.entries)
      && o.msg.decide <= t.commit
  }

  /** From `s` to `t` the leader only appended entries of its own round and sent quotations ... */
  ghost predicate LedCore(s: Rep, t: Rep, outs: seq<Output>) {
    && s.role == t.role == Leader
    && t.id == s.id && t.n == s.n && t.round == s.round && t.promised == s.promised
    && Shape(t) && NextOk(t) && s.commit <= t.commit
    && s.log <= t.log
    && (forall k :: |s.log| <= k < |t.log| ==> t.log[k].slot == k + 1 && t.log[k].round == t.round)
    && |s.matchIndex| == s.n
    && (forall p :: 0 <= p < t.n && p != t.id ==> t.matchIndex[p] == s.matchIndex[p])
    && (forall o :: o in outs ==> Quotes(t, o))
  }

  /** ... it appended only queued requests, committed only what a quorum holds, and answered
      clients only with what its machine remembers. */
  ghost predicate LedMore(s: Rep, t: Rep, outs: seq<Output>)
    requires |t.matchIndex| == t.n
  {
    && (s.commit < t.commit ==> Committable(t, t.commit))
    && (forall k :: |s.log| <= k < |t.log| ==> t.log[k].req in s.queue)
    && (forall r :: r in t.queue ==> r in s.queue)
    && s.applied <= t.applied
    && (MachineOk(s) ==> MachineOk(t) && forall o :: o in outs ==> Answers(t, o))
  }

  ghost predicate Led(s: Rep, t: Rep, outs: seq<Output>) {
    LedCore(s, t, outs) && LedMore(s, t, outs)
  }

  lemma LedChain(s: Rep, t: Rep, o: seq<Output>, u: Rep, p: seq<Output>)
    requires Shape(s) && Led(s, t, o) && Led(t, u, p)
    ensures Led(s, u, o + p)
  {
    LedCoreChain(s, t, o, u, p);
    LedMoreChain(s, t, o, u, p);
  }

  lemma LedMoreChain(s: Rep, t: Rep, o: seq<Output>, u: Rep, p: seq<Output>)
    requires Shape(s) && Led(s, t, o) && Led(t, u, p)
    ensures LedMore(s, u, o + p)
  {
    if s.commit < u.commit && t.commit == u.commit {
      SameHolders(t, u);
    }
    if MachineOk(s) {
      forall x | x in o + p ensures Answers(u, x) {
        if x in o { AnswersCarry(t, u, x); }
      }
    }
  }

  lemma SameHolders(t: Rep, u: Rep)
    requires t.id == u.id && t.n == u.n == |t.matchIndex| == |u.matchIndex| && t.round == u.round && t.log <= u.log
    requires t.commit == u.commit <= |t.log| && Committable(t, t.commit)
    requires forall p :: 0 <= p < t.n && p != t.id ==> u.matchIndex[p] == t.matchIndex[p]
    ensures Committable(u, u.commit)
  {
    assert Holders(u, u.commit) == Holders(t, t.commit);
  }

  lemma AnswersCarry(t: Rep, u: Rep, x: Output)
    requires MachineOk(t) && MachineOk(u) && t.applied <= u.applied && t.log <= u.log && Answers(t, x)
    ensures Answers(u, x)
  {
    assert u.log[..t.applied] == t.log[..t.applied];
    AnswersLater(t, u, x);
  }

  lemma LedCoreChain(s: Rep, t: Rep, o: seq<Output>, u: Rep, p: seq<Output>)
    requires LedCore(s, t, o) && LedCore(t, u, p)
    ensures LedCore(s, u, o + p)
  {
    forall x | x in o + p ensures Quotes(u, x) {
      if x in o && x.ToReplica? {
        assert Quotes(t, x);
        var a, b := x.msg.prevIndex, x.msg.prevIndex + |x.msg.entries|;
        assert t.log[a..b] == u.log[a..b];
      }
    }
  }

  lemma SendLed(s: Rep, peer: nat)
    requires Shape(s) && NextOk(s) && s.role == Leader && peer < s.n
    ensures var (t, o) := SendPropose(s, peer); Led(s, t, o)
  {
  }

  lemma IdleLed(s: Rep)
    requires Shape(s) && NextOk(s) && s.role == Leader
    ensures Led(s, s, [])
  {
  }

  lemma BroadcastLed(s: Rep, k: nat)
    requires Shape(s) && NextOk(s) && s.role == Leader && k <= s.n
    ensures var (t, o) := BroadcastTo(s, k); Led(s, t, o)
  {
    if k == 0 {
      IdleLed(s);
    } else {
      BroadcastLed(s, k - 1);
      BroadcastOneMore(s, k, BroadcastTo(s, k - 1).0, BroadcastTo(s, k - 1).1);
    }
  }

  lemma BroadcastOneMore(s: Rep, k: nat, t: Rep, o: seq<Output>)
    requires 0 < k <= s.n && Shape(s) && BroadcastTo(s, k - 1) == (t, o) && Led(s, t, o)
    ensures var (u, p) := BroadcastTo(s, k); Led(s, u, p)
  {
    SendLed(t, k - 1);
    SentChain(s, k, t, o, SendPropose(t, k - 1).0, SendPropose(t, k - 1).1);
  }

  lemma SentChain(s: Rep, k: nat, t: Rep, o: seq<Output>, u: Rep, p: seq<Output>)
    requires 0 < k <= s.n && Shape(s) && BroadcastTo(s, k - 1) == (t, o) && SendPropose(t, k - 1) == (u, p)
    requires Led(s, t, o) && Led(t, u, p)
    ensures var (v, q) := BroadcastTo(s, k); Led(s, v, q)
  {
    LedChain(s, t, o, u, p);
    BroadcastUnrolls(s, k, t, o, u, p);
  }

  lemma BroadcastUnrolls(s: Rep, k: nat, t: Rep, o: seq<Output>, u: Rep, p: seq<Output>)
    requires 0 < k <= s.n == |s.nextIndex| && BroadcastTo(s, k - 1) == (t, o) && SendPropose(t, k - 1) == (u, p)
    ensures BroadcastTo(s, k) == (u, o + p)
  {
  }

  lemma AppliedReplies(s: Rep)
    requires s.applied <= s.commit <= |s.log|
    ensures forall o :: o in ApplyCommitted(s).1 ==> o.ToClient?
    decreases s.commit - s.applied
  {
    if s.applied < s.commit {
      AppliedReplies(ApplyNext(s).0);
    }
  }

  lemma AdvanceLed(s: Rep)
    requires Shape(s) && NextOk(s) && s.role == Leader
    ensures var (t, o) := Advance(s); Led(s, t, o)
  {
    var u := UpdateCommit(s);
    AdvanceKeeps(s);
    AppliedReplies(u);
    CommitScanIsHighest(s, |s.log|);
    var t := Advance(s).0;
    if s.commit < t.commit { assert Holders(t, t.commit) == Holders(s, t.commit); }
    if MachineOk(s) {
      ApplyCommittedOk(u);
      ApplyKeeps(u);
    }
  }

  lemma AppendLed(s: Rep)
    requires Shape(s) && NextOk(s) && s.role == Leader
    ensures Led(s, AppendQueued(s), [])
  {
    var a := AppendQueued(s);
    assert a.log[..s.applied] == s.log[..s.applied];
  }

  lemma AppendBroadcastLed(s: Rep)
    requires Shape(s) && NextOk(s) && s.role == Leader
    ensures var (t, o) := Broadcast(AppendQueued(s)); Led(s, t, o) && Shape(t) && NextOk(t) && t.role == Leader
  {
    var a := AppendQueued(s);
    AppendLed(s);
    BroadcastLed(a, a.n);
    var (t, o) := Broadcast(a);
    LedChain(s, a, [], t, o);
    assert [] + o == o;
  }

  lemma FlushBatchLed(s: Rep)
    requires Shape(s) && NextOk(s) && s.role == Leader
    ensures var (t, o) := FlushBatch(s); Led(s, t, o)
  {
    AppendBroadcastLed(s);
    var (t, o) := Broadcast(AppendQueued(s));
    AdvanceLed(t);
    var (u, p) := Advance(t);
    LedChain(s, t, o, u, p);
  }

  lemma FlushLed(s: Rep)
    requires Shape(s) && NextOk(s) && s.role == Leader
    ensures var (t, o) := Flush(s); Led(s, t, o)
    decreases |s.queue|
  {
    if s.queue != [] {
      FlushBatchKeeps(s);
      FlushBatchLed(s);
      var (t, o) := FlushBatch(s);
      FlushLed(t);
      var (u, p) := Flush(t);
      LedChain(s, t, o, u, p);
    }
  }

  lemma ResendLed(s: Rep, server: nat)
    requires Shape(s) && NextOk(s) && s.role == Leader && server < s.n
    ensures var (t, o) := AdvanceAndResend(s, server); Led(s, t, o)
  {
    AdvanceKeeps(s);
    AdvanceLed(s);
    var (u, o) := Advance(s);
    if u.nextIndex[server] <= |u.log| {
      SendLed(u, server);
      var (v, p) := SendPropose(u, server);
      LedChain(s, u, o, v, p);
    }
  }
}
