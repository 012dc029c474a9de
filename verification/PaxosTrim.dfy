/** What the trim watermark leaves behind: in every state of every run all replicas hold, and agree
    on, whatever any of them has forgotten, so whoever leads can still repair everyone. */
module PaxosTrim {
  import opened Options
  import opened PancyDb
  import opened PaxosSpec
  import opened PaxosCluster
  import opened PaxosLeader
  import opened PaxosInvariance
  import opened PaxosHandlers
  import opened PaxosProgress
  import opened PaxosSafety
  import opened PaxosAgreement
  import opened PaxosAuthority

  // ----- one handler call -----

  /** A leader has forgotten all it may. */
  ghost predicate Tight(s: Rep) {
    |s.matchIndex| == s.n && forall x: nat :: Trimmable(s, x) ==> x <= s.trim
  }

  ghost predicate NoNewer(outs: seq<Output>, trim: nat) {
    forall o :: o in outs && o.ToReplica? && o.msg.Propose? ==> o.msg.trim <= trim
  }

  /** From s to t a leader learned more, and its watermark moved only to where it may. */
  ghost predicate Trims(s: Rep, t: Rep, outs: seq<Output>) {
    && s.role == t.role == Leader && t.n == s.n && |s.matchIndex| == |t.matchIndex| == s.n
    && s.commit <= t.commit && (forall p :: 0 <= p < s.n ==> Min(s.matchIndex[p], s.commit) <= t.matchIndex[p])
    && s.trim <= t.trim && (s.trim < t.trim ==> Trimmable(t, t.trim))
    && NoNewer(outs, t.trim)
  }

  lemma StaysTight(s: Rep, t: Rep)
    requires t.n == s.n && t.commit == s.commit && t.matchIndex == s.matchIndex && t.trim == s.trim
    ensures Tight(s) ==> Tight(t)
  {
    if Tight(s) {
      forall x: nat | Trimmable(t, x) ensures x <= t.trim { assert Trimmable(s, x); }
    }
  }

  lemma TrimsChain(s: Rep, t: Rep, o: seq<Output>, u: Rep, p: seq<Output>)
    requires Trims(s, t, o) && Trims(t, u, p)
    ensures Trims(s, u, o + p)
  {
  }

  lemma BroadcastTrims(s: Rep, k: nat)
    requires Shape(s) && s.role == Leader && k <= s.n
    ensures var (t, o) := BroadcastTo(s, k); Trims(s, t, o)
  {
    if k > 0 {
      BroadcastTrims(s, k - 1);
      var (t, o) := BroadcastTo(s, k - 1);
      var (u, p) := SendPropose(t, k - 1);
      TrimsChain(s, t, o, u, p);
    }
  }

  ghost predicate Answering(outs: seq<Output>) {
    forall o :: o in outs ==> o.ToClient?
  }

  lemma AppliesQuietly(s: Rep)
    requires s.applied <= s.commit <= |s.log|
    ensures Answering(ApplyCommitted(s).1)
    decreases s.commit - s.applied
  {
    if s.applied < s.commit { AppliesQuietly(ApplyNext(s).0); }
  }

  lemma AdvanceTrims(s: Rep)
    requires Shape(s) && s.role == Leader
    ensures var (t, o) := Advance(s); Trims(s, t, o) && Tight(t)
  {
    AdvanceKeeps(s);
    ApplyKeeps(UpdateCommit(s));
    AppliesQuietly(UpdateCommit(s));
    UpdateTrimIsLargest(ApplyCommitted(UpdateCommit(s)).0);
  }

  lemma FlushBatchTrims(s: Rep)
    requires Shape(s) && s.role == Leader
    ensures var (t, o) := FlushBatch(s); Trims(s, t, o) && Tight(t)
  {
    var a := AppendQueued(s);
    BroadcastTrims(a, a.n);
    var (b, o) := Broadcast(a);
    AdvanceTrims(b);
    var (t, p) := Advance(b);
    TrimsChain(a, b, o, t, p);
    assert Trims(s, a, []);
    TrimsChain(s, a, [], t, o + p);
    assert [] + (o + p) == o + p;
  }

  lemma FlushTrims(s: Rep)
    requires Shape(s) && s.role == Leader
    ensures var (t, o) := Flush(s); Trims(s, t, o) && (Tight(s) || s.queue != [] ==> Tight(t))
    decreases |s.queue|
  {
    if s.queue != [] {
      FlushBatchKeeps(s);
      FlushBatchTrims(s);
      var (t, o) := FlushBatch(s);
      FlushTrims(t);
      var (u, q) := Flush(t);
      TrimsChain(s, t, o, u, q);
    }
  }

  lemma ResendTrims(s: Rep, server: nat)
    requires Shape(s) && s.role == Leader && server < s.n
    ensures var (t, o) := AdvanceAndResend(s, server); Trims(s, t, o) && Tight(t)
  {
    AdvanceKeeps(s);
    AdvanceTrims(s);
  }

  /** What any handler does to the watermark: a leader moves it as far as it may, a follower not
      beyond `limit`, the watermark of the proposal it handles. */
  ghost predicate Retains(s: Rep, t: Rep, outs: seq<Output>, limit: nat) {
    && s.trim <= t.trim && |t.matchIndex| == t.n && NoNewer(outs, t.trim)
    && (s.trim < t.trim ==> if t.role == Leader then Trimmable(t, t.trim) else t.trim <= limit)
    && (t.role == Leader && (if s.role == Leader then Tight(s) else s.n > 1) ==> Tight(t))
  }

  lemma ProbeRetains(s: Rep, m: Message)
    requires Shape(s) && m.Probe?
    ensures var (t, outs) := HandleProbe(s, m); Retains(s, t, outs, 0)
  {
    if m.round == s.round { StaysTight(s, HandleProbe(s, m).0); }
  }

  /** Until a peer answers, a new leader may forget nothing more. */
  lemma TakeoverRetains(s: Rep)
    requires Shape(s)
    ensures var (t, o) := Broadcast(BecomeLeader(s)); NoNewer(o, s.trim) && t.trim == s.trim && |t.matchIndex| == t.n && (s.n > 1 ==> Tight(t))
  {
    var b := BecomeLeader(s);
    BroadcastTrims(b, b.n);
    if s.n > 1 {
      var peer := if s.id == 0 then 1 else 0;
      assert b.matchIndex[peer] == 0;
    }
  }

  lemma PrepareRetains(s: Rep, m: Message)
    requires Shape(s) && m.Prepare? && m.server < s.n
    ensures var (t, outs) := HandlePrepare(s, m); Retains(s, t, outs, 0)
  {
    if m.round <= s.round && s.role == Candidate && m.round == s.round && m.promised && !s.prepareOk[m.server] {
      TakeoverRetains(s.(prepareOk := s.prepareOk[m.server := true]));
    }
  }

  lemma ProposeRetains(s: Rep, m: Message)
    requires Shape(s) && m.Propose?
    ensures var (t, outs) := HandlePropose(s, m); Retains(s, t, outs, m.trim)
  {
    if m.round >= s.round && PrefixMatches(s, m.prevIndex, m.prevRound)
       && Merge(s.log, s.commit, m.prevIndex, m.entries).Merged? {
      MergedRetains(s, m);
    }
  }

  lemma MergedRetains(s: Rep, m: Message)
    requires Shape(s) && m.Propose? && m.round >= s.round && PrefixMatches(s, m.prevIndex, m.prevRound)
    requires Merge(s.log, s.commit, m.prevIndex, m.entries).Merged?
    ensures var (t, outs) := HandlePropose(s, m); Retains(s, t, outs, m.trim)
  {
    var f := BecomeFollower(s, m.round, m.leader);
    var log := Merge(f.log, f.commit, m.prevIndex, m.entries).log;
    MergeKeepsCommitted(f.log, f.commit, m.prevIndex, m.entries);
    var g := f.(log := log, commit := if m.decide > f.commit then Min(m.decide, |log|) else f.commit);
    ApplyKeeps(g);
    AppliesQuietly(g);
  }

  lemma AckRetains(s: Rep, m: Message)
    requires Shape(s) && m.Ack? && m.server < s.n
    ensures var (t, outs) := HandleAck(s, m); Retains(s, t, outs, 0)
  {
    if m.round == s.round && s.role == Leader && m.success {
      ResendTrims(Matched(s, m), m.server);
    } else if m.round <= s.round {
      StaysTight(s, HandleAck(s, m).0);
    }
  }

  lemma ClientRetains(s: Rep, req: Request)
    requires Shape(s)
    ensures var (t, outs) := HandleClient(s, req); Retains(s, t, outs, 0)
  {
    if s.role == Leader && req.serial !in s.machine.cache && req.serial !in s.busy {
      var a := s.(busy := s.busy + {req.serial}, queue := s.queue + [req]);
      StaysTight(s, a);
      if |a.queue| >= APPEND_BATCH_SIZE { FlushTrims(a); }
    }
  }

  lemma {:induction false} ProbesOnly(s: Rep, msg: Message, k: nat)
    requires msg.Probe?
    ensures NoNewer(ToPeers(s, msg, k), 0)
  {
    if k > 0 { ProbesOnly(s, msg, k - 1); }
  }

  lemma TimeoutRetains(s: Rep)
    requires Shape(s)
    ensures var (t, outs) := HandleTimeout(s); Retains(s, t, outs, 0)
  {
    if s.role != Leader {
      var a := s.(role := Candidate, round := s.round + 1, leaderHint := s.id, promised := Some(s.id),
                  prepareOk := Filled(s.n, false)[s.id := true]);
      ProbesOnly(a, Probe(a.round, a.id, |a.log|, RoundAt(a.log, |a.log|)), a.n);
      TakeoverRetains(a);
    } else if s.queue != [] {
      FlushTrims(s);
    } else {
      BroadcastTrims(s, s.n);
      StaysTight(s, Broadcast(s).0);
    }
  }

  /** The watermark of the proposal being handled, if there is one. */
  ghost function TrimSent(e: Event): nat {
    if e.Deliver? && e.packet.ToReplica? && e.packet.msg.Propose? then e.packet.msg.trim else 0
  }

  lemma HandlerRetains(c: Cluster, e: Event)
    requires Inv(c) && Ready(c, e) && !e.Drop?
    ensures Target(e) < |c.reps| && var (t, outs) := Handler(c, e); Retains(c.reps[Target(e)], t, outs, TrimSent(e))
  {
    match e
    case Deliver(p) =>
      var s := c.reps[p.dst];
      match p.msg {
        case Probe(_, _, _, _) => ProbeRetains(s, p.msg);
        case Prepare(_, _, _) => PrepareRetains(s, p.msg);
        case Propose(_, _, _, _, _, _, _) => ProposeRetains(s, p.msg);
        case Ack(_, _, _, _, _) => AckRetains(s, p.msg);
      }
    case Client(i, req) => ClientRetains(c.reps[i], req);
    case Timeout(i) => TimeoutRetains(c.reps[i]);
  }

  // ----- a cluster of one replica, which always leads and sends nothing -----

  lemma SendsNothing(s: Rep)
    requires Shape(s) && s.n == 1
    ensures Broadcast(s) == (s, [])
  {
    var none: seq<Output> := [];
    assert BroadcastTo(s, 0) == (s, none) && SendPropose(s, 0) == (s, none);
    assert none + none == none && BroadcastTo(s, 1) == (s, none + none);
  }

  lemma FlushAlone(s: Rep)
    requires Shape(s) && s.n == 1
    ensures Answering(Flush(s).1)
    decreases |s.queue|
  {
    if s.role == Leader && s.queue != [] {
      var a := AppendQueued(s);
      SendsNothing(a);
      AppliesQuietly(UpdateCommit(a));
      FlushBatchKeeps(s);
      FlushAlone(FlushBatch(s).0);
    }
  }

  /** One replica, always leading, that never hears from another. */
  ghost predicate Alone(c: Cluster) {
    c.n == 1 ==> |c.reps| == 1 && c.reps[0].role == Leader && NoPackets(c.sent)
  }

  ghost predicate NoPackets(sent: set<Output>) {
    forall o :: o in sent ==> o.ToClient?
  }

  lemma ClientAlone(s: Rep, req: Request)
    requires Shape(s) && s.n == 1 && s.role == Leader
    ensures var (t, outs) := HandleClient(s, req); t.role == Leader && Answering(outs)
  {
    var a := s.(busy := s.busy + {req.serial}, queue := s.queue + [req]);
    FlushAlone(a);
    FlushTrims(a);
  }

  lemma TimeoutAlone(s: Rep)
    requires Shape(s) && s.n == 1 && s.role == Leader
    ensures var (t, outs) := HandleTimeout(s); t.role == Leader && Answering(outs)
  {
    FlushAlone(s);
    FlushTrims(s);
    SendsNothing(s);
  }

  lemma HandlerAlone(c: Cluster, e: Event)
    requires Inv(c) && Alone(c) && c.n == 1 && Ready(c, e) && !e.Drop?
    ensures var (t, outs) := Handler(c, e); t.id == 0 && t.role == Leader && Answering(outs)
  {
    HandlerProgress(c, e);
    assert RepOk(c, 0);
    match e
    case Deliver(p) => assert false;
    case Client(i, req) => ClientAlone(c.reps[i], req);
    case Timeout(i) => TimeoutAlone(c.reps[i]);
  }

  lemma StepAlone(c: Cluster, e: Event, d: Cluster)
    requires Inv(c) && Alone(c) && StepsTo(c, e, d)
    ensures Alone(d)
  {
    assert Unfold(0);
    if c.n == 1 && !e.Drop? {
      HandlerAlone(c, e);
    }
  }

  // ----- what all replicas hold -----

  /** Every replica has acknowledged, in one round, slots up to x that were committed in or before it. */
  ghost predicate Shared(c: Cluster, x: nat) {
    x == 0 || exists w: nat :: SharedIn(c, x, w)
  }

  ghost predicate SharedIn(c: Cluster, x: nat, w: nat) {
    && w in c.leaders && x <= |c.leaders[w].log| && SettledUpTo(c, c.leaders[w].log, x, w)
    && forall p: nat :: p < c.n ==> Acked(c, p, w, x)
  }

  lemma SharedExtends(c: Cluster, d: Cluster, x: nat)
    requires Extends(c, d) && Shared(c, x)
    ensures Shared(d, x)
  {
    if x > 0 {
      var w: nat :| SharedIn(c, x, w);
      var l, m := c.leaders[w].log, d.leaders[w].log;
      SettledUpToExtends(c, d, l, x, w);
      SettledUpToLess(d, l, x, w, m, x);
      forall p: nat | p < d.n ensures Acked(d, p, w, x) { AckedExtends(c, d, p, w, x); }
      assert SharedIn(d, x, w);
    }
  }

  lemma SharedLess(c: Cluster, x: nat, y: nat)
    requires Shared(c, x) && y <= x
    ensures Shared(c, y)
  {
    if y > 0 {
      var w: nat :| SharedIn(c, x, w);
      var l := c.leaders[w].log;
      SettledUpToLess(c, l, x, w, l, y);
      forall p: nat | p < c.n ensures Acked(c, p, w, y) { AckedLess(c, p, w, x, y); }
      assert SharedIn(c, y, w);
    }
  }

  /** What was committed in or before round w, every later leader started with. */
  lemma LaterBaseHolds(c: Cluster, x: nat, w: nat, q: nat, r: nat, k: nat)
    requires Held(c) && w in c.leaders && x <= |c.leaders[w].log| && SettledIn(c, c.leaders[w].log, x, w, r, k)
    requires w < q && q in c.leaders
    ensures Has(c, c.leaders[q].base, w, x)
  {
    assert Unfold(0);
    LeaderCompleteness(c, r, k, q);
    assert c.leaders[q].base[..x] == c.leaders[r].log[..k][..x] == c.leaders[w].log[..x];
  }

  lemma NeverLost(c: Cluster, x: nat, w: nat, bound: nat)
    requires Held(c) && 0 < x && w in c.leaders && x <= |c.leaders[w].log| && SettledUpTo(c, c.leaders[w].log, x, w)
    ensures !Lost(c, w, x, bound)
  {
    var r: nat, k: nat :| SettledIn(c, c.leaders[w].log, x, w, r, k);
    forall q: nat | w < q <= bound && q in c.leaders ensures Has(c, c.leaders[q].base, w, x) {
      LaterBaseHolds(c, x, w, q, r, k);
    }
  }

  lemma SharedIsHeld(c: Cluster, x: nat, w: nat, p: nat)
    requires Held(c) && 0 < x && SharedIn(c, x, w) && p < c.n
    ensures p < |c.reps| && Has(c, c.reps[p].log, w, x)
  {
    assert Unfold(0);
    assert Acked(c, p, w, x);
    NeverLost(c, x, w, c.reps[p].round);
  }

  /** All replicas hold what is shared, and agree on it. */
  lemma SharedAgrees(c: Cluster, x: nat, a: nat, b: nat)
    requires Held(c) && Shared(c, x) && a < c.n && b < c.n
    ensures a < |c.reps| && b < |c.reps|
    ensures var l, m := c.reps[a].log, c.reps[b].log; x <= |l| && x <= |m| && l[..x] == m[..x]
  {
    if x > 0 {
      var w: nat :| SharedIn(c, x, w);
      SharedIsHeld(c, x, w, a);
      SharedIsHeld(c, x, w, b);
    } else {
      assert Unfold(0);
    }
  }

  // ----- one step -----

  ghost predicate Retained(c: Cluster) {
    && Alone(c)
    && (forall i :: 0 <= i < |c.reps| ==> Shared(c, c.reps[i].trim) && (c.reps[i].role == Leader ==> Tight(c.reps[i])))
    && RetainedProposals(c)
  }

  ghost predicate RetainedProposals(c: Cluster) {
    forall p :: p in c.sent && p.ToReplica? && p.msg.Propose? ==> Shared(c, p.msg.trim)
  }

  /** What a leader may forget, all replicas hold. */
  lemma TrimmableIsShared(d: Cluster, i: nat, x: nat)
    requires Held(d) && Authority(d) && i < d.n && d.reps[i].role == Leader && 0 < x
    requires |d.reps[i].matchIndex| == d.reps[i].n && Trimmable(d.reps[i], x)
    ensures Shared(d, x)
  {
    var t := d.reps[i];
    LeadsOnRecord(d, i);
    assert RepTrusted(d, i);
    SettledUpToLess(d, t.log, t.commit, t.round, t.log, x);
    forall p: nat | p < d.n ensures Acked(d, p, t.round, x) { PeerAcked(d, i, p, x); }
    assert SharedIn(d, x, t.round);
  }

  lemma PeerAcked(d: Cluster, i: nat, p: nat, x: nat)
    requires Held(d) && i < d.n && i < |d.reps| && d.reps[i].role == Leader && p < d.n && 0 < x
    requires |d.reps[i].matchIndex| == d.reps[i].n && Trimmable(d.reps[i], x)
    ensures Acked(d, p, d.reps[i].round, x)
  {
    assert Unfold(0);
    var t := d.reps[i];
    assert RepOk(d, i);
    if p != i { AckedLess(d, p, t.round, t.matchIndex[p], x); }
  }

  lemma LeadsOrMany(c: Cluster, i: nat)
    requires Held(c) && Alone(c) && i < c.n && i < |c.reps|
    ensures c.reps[i].role == Leader || c.reps[i].n > 1
  {
    assert Unfold(0);
    assert RepOk(c, i);
  }

  lemma MoverRetains(c: Cluster, e: Event, d: Cluster) returns (t: Rep, outs: seq<Output>)
    requires Held(c) && RetainedProposals(c) && StepsTo(c, e, d) && !e.Drop?
    ensures Shared(c, TrimSent(e)) && t.id < c.n == |c.reps| && d.reps == c.reps[t.id := t]
    ensures Retains(c.reps[t.id], t, outs, TrimSent(e)) && d.sent == c.sent + SetOf(outs)
  {
    assert Unfold(0);
    t, outs := Handler(c, e).0, Handler(c, e).1;
    HandlerProgress(c, e);
    HandlerRetains(c, e);
  }

  lemma StepRetained(c: Cluster, e: Event, d: Cluster)
    requires Held(c) && Held(d) && Authority(d) && Retained(c) && StepsTo(c, e, d) && Extends(c, d)
    ensures Retained(d)
  {
    AloneKept(c, e, d);
    forall i | 0 <= i < |c.reps| ensures Shared(d, c.reps[i].trim) { SharedExtends(c, d, c.reps[i].trim); }
    forall p | p in c.sent && p.ToReplica? && p.msg.Propose? ensures Shared(d, p.msg.trim) { SharedExtends(c, d, p.msg.trim); }
    if e.Drop? {
      DropKeepsAll(c, e, d);
    } else {
      var t, outs := MoverRetains(c, e, d);
      LeadsOrMany(c, t.id);
      SharedExtends(c, d, TrimSent(e));
      NewTrimShared(d, c.reps[t.id], t, outs, TrimSent(e));
      forall p | p in outs && p.ToReplica? && p.msg.Propose? ensures Shared(d, p.msg.trim) { SharedLess(d, t.trim, p.msg.trim); }
    }
  }

  lemma NewTrimShared(d: Cluster, s: Rep, t: Rep, outs: seq<Output>, limit: nat)
    requires Held(d) && Authority(d) && t.id < d.n && d.reps[t.id] == t
    requires Shared(d, s.trim) && Shared(d, limit) && Retains(s, t, outs, limit)
    ensures Shared(d, t.trim)
  {
    if s.trim == t.trim {
    } else if t.role == Leader {
      TrimmableIsShared(d, t.id, t.trim);
    } else {
      SharedLess(d, limit, t.trim);
    }
  }

  lemma AloneKept(c: Cluster, e: Event, d: Cluster)
    requires Held(c) && Alone(c) && StepsTo(c, e, d)
    ensures Alone(d)
  {
    assert Unfold(0);
    StepAlone(c, e, d);
  }

  lemma DropKeepsAll(c: Cluster, e: Event, d: Cluster)
    requires StepsTo(c, e, d) && e.Drop?
    ensures d.reps == c.reps && d.sent == c.sent
  {
    assert Unfold(0);
  }

  // ----- every run -----

  ghost predicate KeyOfRetained(c: Cluster, n: nat) {
    true
  }

  /** All that these theorems rest on, kept folded under a key of its own. */
  ghost predicate RetainedHeld(c: Cluster) {
    forall n {:trigger KeyOfRetained(c, n)} :: KeyOfRetained(c, n) ==> Held(c) && Trusted(c) && Retained(c)
  }

  lemma StepExtends(c: Cluster, e: Event, d: Cluster)
    requires Held(c) && StepsTo(c, e, d)
    ensures Extends(c, d)
  {
    assert Unfold(0);
    StepKeeps(c, e, d);
  }

  lemma TrustedHas(c: Cluster)
    requires Trusted(c)
    ensures Authority(c)
  {
    assert Unfold(0);
  }

  lemma StepRetainedHeld(c: Cluster, e: Event, d: Cluster)
    requires RetainedHeld(c) && StepsTo(c, e, d)
    ensures RetainedHeld(d)
  {
    assert KeyOfRetained(c, 0);
    assert Trusted(c);
    StepHolds(c, e, d);
    StepTrusted(c, e, d);
    StepExtends(c, e, d);
    TrustedHas(d);
    StepRetained(c, e, d);
  }

  lemma InitialRetained(n: nat, leader: nat)
    requires leader < n
    ensures RetainedHeld(Initial(n, leader))
  {
    InitialHolds(n, leader);
    InitialTrusted(n, leader);
  }

  lemma {:induction false} RunRetained(n: nat, leader: nat, cs: seq<Cluster>, es: seq<Event>, i: nat)
    requires IsRun(n, leader, cs, es) && i < |cs|
    ensures RetainedHeld(cs[i])
  {
    if i == 0 {
      InitialRetained(n, leader);
    } else {
      RunRetained(n, leader, cs, es, i - 1);
      assert StepsTo(cs[i - 1], es[i - 1], cs[i - 1 + 1]);
      StepRetainedHeld(cs[i - 1], es[i - 1], cs[i]);
    }
  }

  lemma HeldFacts(c: Cluster, a: nat)
    requires RetainedHeld(c) && a < c.n
    ensures Held(c) && a < |c.reps| && Shared(c, c.reps[a].trim) && c.reps[a].trim <= |c.reps[a].log|
    ensures c.reps[a].role == Leader ==> Tight(c.reps[a])
  {
    assert KeyOfRetained(c, 0);
    assert Unfold(0);
    assert RepOk(c, a);
  }

  /** In every state of every run: whatever replica a has forgotten, every replica p still has or
      had, the same entries at the same slots. No replica ever needs an entry another has trimmed
      without holding it itself. */
  lemma ForgottenIsHeld(n: nat, leader: nat, cs: seq<Cluster>, es: seq<Event>, i: nat, a: nat, p: nat)
    requires IsRun(n, leader, cs, es) && i < |cs| && a < n && p < n
    ensures a < |cs[i].reps| && p < |cs[i].reps|
    ensures var s, t := cs[i].reps[a], cs[i].reps[p];
            s.trim <= |s.log| && s.trim <= |t.log| && s.log[..s.trim] == t.log[..s.trim]
  {
    RunHolds(n, leader, cs, es, i);
    RunRetained(n, leader, cs, es, i);
    HeldFacts(cs[i], a);
    SharedAgrees(cs[i], cs[i].reps[a].trim, a, p);
  }

  /** Whoever leads can repair everyone: from the later of the two watermarks on the leader has all
      its entries in memory, and a proposal that starts there passes the other's append check. */
  lemma EveryoneRepairable(n: nat, leader: nat, cs: seq<Cluster>, es: seq<Event>, i: nat, a: nat, p: nat)
    requires IsRun(n, leader, cs, es) && i < |cs| && a < n && p < n
    ensures a < |cs[i].reps| && p < |cs[i].reps|
    ensures var s, t := cs[i].reps[a], cs[i].reps[p];
            var from := Max(s.trim, t.trim);
            from <= |s.log| && PrefixMatches(t, from, RoundAt(s.log, from))
  {
    ForgottenIsHeld(n, leader, cs, es, i, a, p);
    ForgottenIsHeld(n, leader, cs, es, i, p, a);
    var s, t := cs[i].reps[a], cs[i].reps[p];
    var from := Max(s.trim, t.trim);
    assert s.log[..from] == t.log[..from];
    if from > 0 { assert s.log[..from][from - 1] == t.log[..from][from - 1]; }
  }

  /** A leader's watermark, in every state of every run, is no lower than it could be: it has
      forgotten each slot that lies TRIM_RETENTION or more below its commit index and below what
      every replica is known to hold. */
  lemma LeadersTrimAll(n: nat, leader: nat, cs: seq<Cluster>, es: seq<Event>, i: nat, a: nat, x: nat)
    requires IsRun(n, leader, cs, es) && i < |cs| && a < n
    ensures a < |cs[i].reps|
    ensures var s := cs[i].reps[a];
            (&& s.role == Leader && x + TRIM_RETENTION <= s.commit
             && forall p :: 0 <= p < |s.matchIndex| ==> x + TRIM_RETENTION <= s.matchIndex[p])
            ==> x <= s.trim
  {
    RunHolds(n, leader, cs, es, i);
    RunRetained(n, leader, cs, es, i);
    HeldFacts(cs[i], a);
    var s := cs[i].reps[a];
    assert x + TRIM_RETENTION <= s.commit && (forall p :: 0 <= p < |s.matchIndex| ==> x + TRIM_RETENTION <= s.matchIndex[p])
           ==> |s.matchIndex| != s.n || Trimmable(s, x);
  }

  /** ... and when a replica that leads after a step moved its watermark in it, slots up to the
      watermark and TRIM_RETENTION more are committed and held by everyone. */
  lemma LeadersTrimOnlyThat(n: nat, leader: nat, cs: seq<Cluster>, es: seq<Event>, i: nat, a: nat)
    requires IsRun(n, leader, cs, es) && i + 1 < |cs| && a < n
    ensures a < |cs[i].reps| && a < |cs[i + 1].reps|
    ensures var s, t := cs[i].reps[a], cs[i + 1].reps[a];
            && s.trim <= t.trim
            && (t.role == Leader && s.trim < t.trim ==> t.trim + TRIM_RETENTION <= t.commit)
            && (t.role == Leader && s.trim < t.trim ==>
                  forall p :: 0 <= p < |t.matchIndex| ==> t.trim + TRIM_RETENTION <= t.matchIndex[p])
  {
    RunHolds(n, leader, cs, es, i);
    RunHolds(n, leader, cs, es, i + 1);
    RunRetained(n, leader, cs, es, i);
    assert StepsTo(cs[i], es[i], cs[i + 1]);
    StepTrimsOnly(cs[i], es[i], cs[i + 1], a);
  }

  lemma StepTrimsOnly(c: Cluster, e: Event, d: Cluster, a: nat)
    requires RetainedHeld(c) && StepsTo(c, e, d) && a < c.n
    ensures a < |c.reps| && a < |d.reps|
    ensures var s, t := c.reps[a], d.reps[a];
            && s.trim <= t.trim
            && (t.role == Leader && s.trim < t.trim ==> |t.matchIndex| == t.n && Trimmable(t, t.trim))
  {
    assert KeyOfRetained(c, 0);
    HeldFacts(c, a);
    if e.Drop? {
      DropKeepsAll(c, e, d);
    } else {
      var t, outs := MoverRetains(c, e, d);
    }
  }
}
