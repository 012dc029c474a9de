/** What holds in every run of the code as written, with the commit rule unguarded: leaders never
    lose a committed entry, so leaders agree with one another, and so do all the answers clients get.

    A follower may commit a stale entry, but its commit index is still no higher than what some
    quorum has acknowledged in a round it has reached. A replica that takes over in a later round
    started from a log that holds what was acknowledged (leader completeness), so its committed
    prefix is sound again; one that holds a stale entry below its commit index never takes over. */
module PaxosAuthority {
  import opened Options
  import opened PancyDb
  import opened PaxosSpec
  import opened PaxosMachine
  import opened PaxosCluster
  import opened PaxosLeader
  import opened PaxosInvariance
  import opened PaxosHandlers
  import opened PaxosProgress
  import opened PaxosConduct
  import opened PaxosSafety
  import opened PaxosAgreement

  // ----- the invariant -----

  /** At least d slots are chosen in some round up to `top`. */
  ghost predicate Reached(c: Cluster, d: nat, top: nat) {
    d == 0 || exists r: nat, k: nat :: ReachedBy(c, d, top, r, k)
  }

  ghost predicate ReachedBy(c: Cluster, d: nat, top: nat, r: nat, k: nat) {
    r <= top && d <= k && Chosen(c, r, k)
  }

  /** `Settled`, by a round up to `top`. */
  ghost predicate SettledUpTo(c: Cluster, log: seq<Entry>, d: nat, top: nat) {
    d == 0 || exists r: nat, k: nat :: SettledIn(c, log, d, top, r, k)
  }

  ghost predicate SettledIn(c: Cluster, log: seq<Entry>, d: nat, top: nat, r: nat, k: nat) {
    r <= top && SettledBy(c, log, d, r, k)
  }

  ghost predicate RepTrusted(c: Cluster, i: nat)
    requires i < |c.reps|
  {
    var s := c.reps[i];
    && MachineOk(s) && Reached(c, s.commit, s.round)
    && (s.role == Leader ==> SettledUpTo(c, s.log, s.commit, s.round))
  }

  /** What a proposal lets its receiver commit is settled in its leader's log. */
  ghost predicate Directs(c: Cluster, p: Output) {
    p.ToReplica? && p.msg.Propose? ==>
      p.msg.round in c.leaders && p.msg.decide <= |c.leaders[p.msg.round].log|
      && SettledUpTo(c, c.leaders[p.msg.round].log, p.msg.decide, p.msg.round)
  }

  ghost predicate Authority(c: Cluster) {
    && |c.reps| == c.n
    && (forall i :: 0 <= i < c.n ==> RepTrusted(c, i))
    && (forall p :: p in c.sent ==> Directs(c, p))
    && (forall p :: p in c.sent && p.ToClient? ==> Justified(c, p.resp))
  }

  lemma InitialAuthority(n: nat, leader: nat)
    requires leader < n
    ensures Authority(Initial(n, leader))
  {
  }

  lemma ReachedExtends(c: Cluster, d: Cluster, x: nat, top: nat, higher: nat)
    requires Extends(c, d) && Reached(c, x, top) && top <= higher
    ensures Reached(d, x, higher)
  {
    if x > 0 {
      var r: nat, k: nat :| ReachedBy(c, x, top, r, k);
      ChosenExtends(c, d, r, k);
      assert ReachedBy(d, x, higher, r, k);
    }
  }

  lemma SettledUpToExtends(c: Cluster, d: Cluster, log: seq<Entry>, x: nat, top: nat)
    requires Extends(c, d) && SettledUpTo(c, log, x, top)
    ensures SettledUpTo(d, log, x, top)
  {
    if x > 0 {
      var r: nat, k: nat :| SettledIn(c, log, x, top, r, k);
      ChosenExtends(c, d, r, k);
      assert c.leaders[r].log[..x] == d.leaders[r].log[..x];
      assert SettledIn(d, log, x, top, r, k);
    }
  }

  lemma SettledUpToLess(c: Cluster, log: seq<Entry>, x: nat, top: nat, other: seq<Entry>, y: nat)
    requires SettledUpTo(c, log, x, top) && y <= x <= |log| && y <= |other| && other[..y] == log[..y]
    ensures SettledUpTo(c, other, y, top)
  {
    if y > 0 {
      var r: nat, k: nat :| SettledIn(c, log, x, top, r, k);
      assert other[..y] == log[..x][..y] == c.leaders[r].log[..x][..y];
      assert SettledIn(c, other, y, top, r, k);
    }
  }

  lemma SettledUpToIsSettled(c: Cluster, log: seq<Entry>, d: nat, top: nat)
    requires SettledUpTo(c, log, d, top)
    ensures Settled(c, log, d)
  {
    if d > 0 {
      var r: nat, k: nat :| SettledIn(c, log, d, top, r, k);
      assert SettledBy(c, log, d, r, k);
    }
  }

  lemma SettledIsReached(c: Cluster, log: seq<Entry>, d: nat, top: nat)
    requires SettledUpTo(c, log, d, top)
    ensures Reached(c, d, top)
  {
    if d > 0 {
      var r: nat, k: nat :| SettledIn(c, log, d, top, r, k);
      assert ReachedBy(c, d, top, r, k);
    }
  }

  lemma ReachedLess(c: Cluster, d: nat, top: nat, e: nat)
    requires Reached(c, d, top) && e <= d
    ensures Reached(c, e, top)
  {
    if e > 0 {
      var r: nat, k: nat :| ReachedBy(c, d, top, r, k);
      assert ReachedBy(c, e, top, r, k);
    }
  }

  // ----- one step -----

  lemma LeadsOnRecord(c: Cluster, i: nat)
    requires Held(c) && i < c.n && i < |c.reps| && c.reps[i].role == Leader
    ensures var t := c.reps[i];
            t.round in c.leaders && c.leaders[t.round].log == t.log && c.leaders[t.round].id == i && t.commit <= |t.log|
  {
    assert Unfold(0);
    assert RepOk(c, i);
  }

  /** A leader of a recorded round has led it before. */
  lemma LedBefore(c: Cluster, d: Cluster, i: nat)
    requires Held(c) && Extends(c, d) && i < c.n && d.reps[i].role == Leader
    requires d.reps[i].round in c.leaders && d.leaders[d.reps[i].round].id == i
    ensures c.reps[i].role == Leader && c.reps[i].round == d.reps[i].round
  {
    assert Unfold(0);
    assert LeaderOk(c, d.reps[i].round);
  }

  /** The log of a later leader starts with what was chosen. */
  lemma LaterLeaderHolds(c: Cluster, r: nat, k: nat, w: nat, x: nat)
    requires Held(c) && Chosen(c, r, k) && r < w && w in c.leaders && x <= k
    ensures x <= |c.leaders[w].log| && c.leaders[w].log[..x] == c.leaders[r].log[..x]
  {
    assert Unfold(0);
    LeaderCompleteness(c, r, k, w);
    assert LeaderOk(c, w);
    assert c.leaders[w].log[..x] == c.leaders[w].base[..k][..x];
    assert c.leaders[r].log[..x] == c.leaders[r].log[..k][..x];
  }

  /** Taking over in a new round makes the committed prefix sound. */
  lemma TakingOverSettles(c: Cluster, d: Cluster, log: seq<Entry>, x: nat, top: nat, w: nat)
    requires Held(d) && Extends(c, d) && Reached(c, x, top) && top <= w && w !in c.leaders
    requires w in d.leaders && d.leaders[w].log == log
    ensures SettledUpTo(d, log, x, w)
  {
    if x > 0 {
      var r: nat, k: nat :| ReachedBy(c, x, top, r, k);
      ChosenExtends(c, d, r, k);
      LaterLeaderHolds(d, r, k, w, x);
      assert SettledIn(d, log, x, w, r, k);
    }
  }

  /** What a step may do to one replica's commit index. */
  ghost predicate Backs(c: Cluster, d: Cluster, s: Rep, t: Rep) {
    || t.commit == s.commit
    || (t.role == Leader && SettledUpTo(d, t.log, t.commit, t.round))
    || (t.role != Leader && Reached(d, t.commit, t.round))
  }

  lemma MoverBacks(c: Cluster, e: Event, d: Cluster, t: Rep, outs: seq<Output>)
    requires Held(d) && Extends(c, d) && Authority(c) && Ready(c, e) && !e.Drop? && PacketsSent(c)
    requires Target(e) < |c.reps| && (e.Deliver? ==> e.packet.ToReplica?)
    requires Progress(c, e, t, outs) && t.id < c.n && d.reps[t.id] == t
    ensures Backs(c, d, c.reps[t.id], t)
  {
    var s := c.reps[t.id];
    if t.commit != s.commit {
      if Steady(s, t, outs, Extra(e)) {
        LeaderCommits(d, t);
      } else {
        assert Directs(c, e.packet);
        MergeReaches(c, d, e.packet.msg, t.commit);
      }
    }
  }

  ghost predicate PacketsSent(c: Cluster) {
    forall p :: p in c.net ==> p in c.sent
  }

  lemma LeaderCommits(d: Cluster, t: Rep)
    requires Held(d) && t.id < d.n && t.id < |d.reps| && d.reps[t.id] == t && t.role == Leader
    requires 0 < t.commit <= |t.log| && |t.matchIndex| == t.n && Committable(t, t.commit)
    ensures SettledUpTo(d, t.log, t.commit, t.round)
  {
    assert Unfold(0);
    assert RepOk(d, t.id);
    CommittableIsChosen(d, t, t.commit);
    assert SettledIn(d, t.log, t.commit, t.round, t.round, t.commit);
  }

  lemma MergeReaches(c: Cluster, d: Cluster, m: Message, x: nat)
    requires Extends(c, d) && m.Propose? && m.round in c.leaders && x <= m.decide
    requires SettledUpTo(c, c.leaders[m.round].log, m.decide, m.round)
    ensures Reached(d, x, m.round)
  {
    SettledIsReached(c, c.leaders[m.round].log, m.decide, m.round);
    ReachedLess(c, m.decide, m.round, x);
    ReachedExtends(c, d, x, m.round, m.round);
  }

  lemma MoverTrusted(c: Cluster, e: Event, d: Cluster, t: Rep, outs: seq<Output>)
    requires Held(c) && Held(d) && Extends(c, d) && Authority(c) && Ready(c, e) && !e.Drop? && PacketsSent(c)
    requires Target(e) < |c.reps| && (e.Deliver? ==> e.packet.ToReplica?)
    requires Progress(c, e, t, outs) && t.id < c.n && d.reps[t.id] == t
    ensures RepTrusted(d, t.id)
  {
    var s := c.reps[t.id];
    assert RepTrusted(c, t.id);
    MoverBacks(c, e, d, t, outs);
    ReachedExtends(c, d, s.commit, s.round, t.round);
    if t.role == Leader {
      MoverSettled(c, d, s, t);
      SettledIsReached(d, t.log, t.commit, t.round);
    }
  }

  lemma MoverSettled(c: Cluster, d: Cluster, s: Rep, t: Rep)
    requires Held(c) && Held(d) && Extends(c, d) && t.id < c.n && c.reps[t.id] == s && d.reps[t.id] == t
    requires RepTrusted(c, t.id) && t.role == Leader && Backs(c, d, s, t)
    ensures SettledUpTo(d, t.log, t.commit, t.round)
  {
    if t.commit == s.commit {
      LeadsOnRecord(d, t.id);
      if t.round in c.leaders {
        LedBefore(c, d, t.id);
        LeadsOnRecord(c, t.id);
        SettledUpToExtends(c, d, s.log, s.commit, s.round);
        assert t.log[..s.commit] == s.log[..s.commit];
        SettledUpToLess(d, s.log, s.commit, s.round, t.log, s.commit);
      } else {
        TakingOverSettles(c, d, t.log, s.commit, s.round, t.round);
      }
    }
  }

  lemma OtherTrusted(c: Cluster, d: Cluster, i: nat)
    requires Extends(c, d) && i < c.n && d.reps[i] == c.reps[i] && RepTrusted(c, i)
    ensures RepTrusted(d, i)
  {
    var s := c.reps[i];
    ReachedExtends(c, d, s.commit, s.round, s.round);
    if s.role == Leader { SettledUpToExtends(c, d, s.log, s.commit, s.round); }
  }

  lemma DirectsExtends(c: Cluster, d: Cluster, p: Output)
    requires Extends(c, d) && Directs(c, p)
    ensures Directs(d, p)
  {
    if p.ToReplica? && p.msg.Propose? {
      var l, x, r := c.leaders[p.msg.round].log, p.msg.decide, p.msg.round;
      SettledUpToExtends(c, d, l, x, r);
      assert d.leaders[r].log[..x] == l[..x];
      SettledUpToLess(d, l, x, r, d.leaders[r].log, x);
    }
  }

  /** A leader's proposals and answers stand on its committed prefix. */
  lemma OutputTrusted(d: Cluster, t: Rep, p: Output)
    requires Held(d) && t.id < d.n && t.id < |d.reps| && d.reps[t.id] == t && RepTrusted(d, t.id)
    requires p.ToReplica? && p.msg.Propose? ==> t.role == Leader && p.msg.round == t.round && p.msg.decide <= t.commit
    requires IsReply(p) ==> t.role == Leader
    requires Answers(t, p)
    ensures Directs(d, p) && (p.ToClient? ==> Justified(d, p.resp))
  {
    if p.ToReplica? && p.msg.Propose? {
      LeadsOnRecord(d, t.id);
      SettledUpToLess(d, t.log, t.commit, t.round, t.log, p.msg.decide);
    }
    if IsReply(p) {
      ReplyTrusted(d, t, p);
    }
  }

  lemma ReplyTrusted(d: Cluster, t: Rep, p: Output)
    requires Held(d) && t.id < d.n && t.id < |d.reps| && d.reps[t.id] == t && RepTrusted(d, t.id)
    requires IsReply(p) && t.role == Leader && Answers(t, p)
    ensures Justified(d, p.resp)
  {
    assert Unfold(0);
    assert RepOk(d, t.id);
    SettledUpToIsSettled(d, t.log, t.commit, t.round);
    AnswersJustified(d, t, p);
  }

  /** What is known of a new output and the replica that sent it. */
  lemma NewOutput(c: Cluster, e: Event, d: Cluster, p: Output) returns (t: Rep)
    requires Held(c) && Authority(c) && StepsTo(c, e, d) && p in d.sent && p !in c.sent
    ensures t.id < |d.reps| && d.reps[t.id] == t && t.id < c.n
    ensures p.ToReplica? && p.msg.Propose? ==> t.role == Leader && p.msg.round == t.round && p.msg.decide <= t.commit
    ensures (IsReply(p) ==> t.role == Leader) && Answers(t, p)
  {
    assert Unfold(0);
    var outs := Handler(c, e).1;
    t := Handler(c, e).0;
    HandlerProgress(c, e);
    HandlerProper(c, e);
    assert RepTrusted(c, t.id);
    OutputFacts(c, e, t, outs, p);
  }

  /** What is known of the replica that moves; the others stay as they are. */
  lemma Mover(c: Cluster, e: Event, d: Cluster) returns (t: Rep, outs: seq<Output>)
    requires Held(c) && StepsTo(c, e, d) && !e.Drop?
    ensures Ready(c, e) && PacketsSent(c) && Target(e) < |c.reps| && (e.Deliver? ==> e.packet.ToReplica?)
    ensures Progress(c, e, t, outs) && t.id < c.n && t.id < |c.reps| && d.reps == c.reps[t.id := t]
  {
    assert Unfold(0);
    t, outs := Handler(c, e).0, Handler(c, e).1;
    HandlerProgress(c, e);
  }

  lemma StepRepTrusted(c: Cluster, e: Event, d: Cluster, i: nat)
    requires Held(c) && Held(d) && Authority(c) && StepsTo(c, e, d) && Extends(c, d) && i < d.n
    ensures RepTrusted(d, i)
  {
    assert RepTrusted(c, i);
    if e.Drop? {
      DropMovesNobody(c, e, d);
      OtherTrusted(c, d, i);
    } else {
      var t, outs := Mover(c, e, d);
      if i == t.id { MoverTrusted(c, e, d, t, outs); } else { OtherTrusted(c, d, i); }
    }
  }

  lemma DropMovesNobody(c: Cluster, e: Event, d: Cluster)
    requires StepsTo(c, e, d) && e.Drop?
    ensures d.reps == c.reps
  {
    assert Unfold(0);
  }

  lemma StepOutputTrusted(c: Cluster, e: Event, d: Cluster, p: Output)
    requires Held(c) && Held(d) && Authority(c) && StepsTo(c, e, d) && Extends(c, d) && p in d.sent && p !in c.sent
    ensures Directs(d, p) && (p.ToClient? ==> Justified(d, p.resp))
  {
    var t := NewOutput(c, e, d, p);
    StepRepTrusted(c, e, d, t.id);
    OutputTrusted(d, t, p);
  }

  lemma StepKeepsAuthority(c: Cluster, e: Event, d: Cluster)
    requires Held(c) && Held(d) && Authority(c) && StepsTo(c, e, d) && Extends(c, d)
    ensures Authority(d)
  {
    forall i | 0 <= i < d.n ensures RepTrusted(d, i) { StepRepTrusted(c, e, d, i); }
    forall p | p in d.sent ensures Directs(d, p) && (p.ToClient? ==> Justified(d, p.resp)) {
      if p in c.sent {
        DirectsExtends(c, d, p);
        if p.ToClient? { JustifiedExtends(c, d, p.resp); }
      } else {
        StepOutputTrusted(c, e, d, p);
      }
    }
  }

  // ----- every run -----

  /** Authority, kept folded. */
  ghost predicate Trusted(c: Cluster) {
    forall n {:trigger Unfold(n)} :: Unfold(n) ==> Authority(c)
  }

  lemma StepTrusted(c: Cluster, e: Event, d: Cluster)
    requires Held(c) && Trusted(c) && StepsTo(c, e, d)
    ensures Trusted(d)
  {
    assert Unfold(0);
    StepKeeps(c, e, d);
    StepKeepsAuthority(c, e, d);
  }

  lemma InitialTrusted(n: nat, leader: nat)
    requires leader < n
    ensures Trusted(Initial(n, leader))
  {
    InitialAuthority(n, leader);
  }

  lemma {:induction false} RunTrusted(n: nat, leader: nat, cs: seq<Cluster>, es: seq<Event>, i: nat)
    requires IsRun(n, leader, cs, es) && i < |cs|
    ensures Trusted(cs[i])
  {
    if i == 0 {
      InitialTrusted(n, leader);
    } else {
      RunTrusted(n, leader, cs, es, i - 1);
      RunHolds(n, leader, cs, es, i - 1);
      assert StepsTo(cs[i - 1], es[i - 1], cs[i - 1 + 1]);
      StepTrusted(cs[i - 1], es[i - 1], cs[i]);
    }
  }

  lemma RunAuthority(n: nat, leader: nat, cs: seq<Cluster>, es: seq<Event>, i: nat)
    requires IsRun(n, leader, cs, es) && i < |cs|
    ensures Authority(cs[i])
  {
    RunTrusted(n, leader, cs, es, i);
    assert Unfold(0);
  }

  /** What a leader has committed is settled for good. */
  lemma LeaderSettledLater(n: nat, leader: nat, cs: seq<Cluster>, es: seq<Event>, i: nat, j: nat, a: nat)
    requires IsRun(n, leader, cs, es) && i <= j < |cs| && a < |cs[i].reps| && cs[i].reps[a].role == Leader
    ensures var s := cs[i].reps[a]; Settled(cs[j], s.log, s.commit) && Shape(s) && MachineOk(s)
  {
    RunInv(n, leader, cs, es, i);
    RunAuthority(n, leader, cs, es, i);
    RunExtends(n, leader, cs, es, i, j);
    assert RepTrusted(cs[i], a) && RepOk(cs[i], a);
    var s := cs[i].reps[a];
    SettledUpToIsSettled(cs[i], s.log, s.commit, s.round);
    SettledExtends(cs[i], cs[j], s.log, s.commit);
  }

  /** Leaders agree, in every run: whatever two replicas have committed when they lead, in whatever
      rounds and at whatever moments, is the same as far as both reach; and one that has applied as
      much as the other has the same database and the same responses. */
  lemma LeadersAgree(n: nat, leader: nat, cs: seq<Cluster>, es: seq<Event>, i: nat, j: nat, a: nat, b: nat)
    requires IsRun(n, leader, cs, es) && i <= j < |cs| && a < |cs[i].reps| && b < |cs[j].reps|
    requires cs[i].reps[a].role == cs[j].reps[b].role == Leader
    ensures var s, t := cs[i].reps[a], cs[j].reps[b];
            && s.commit <= |s.log| && t.commit <= |t.log|
            && (forall k :: 0 <= k < s.commit && k < t.commit ==> s.log[k] == t.log[k])
            && (s.applied == t.applied ==> s.machine == t.machine)
  {
    var s, t := cs[i].reps[a], cs[j].reps[b];
    RunInv(n, leader, cs, es, j);
    LeaderSettledLater(n, leader, cs, es, i, j, a);
    LeaderSettledLater(n, leader, cs, es, j, j, b);
    if s.commit <= t.commit { SettledAgree(cs[j], s.log, s.commit, t.log, t.commit); }
    else { SettledAgree(cs[j], t.log, t.commit, s.log, s.commit); }
    SameMachines(s, t);
  }

  lemma SameMachines(s: Rep, t: Rep)
    requires Shape(s) && Shape(t) && MachineOk(s) && MachineOk(t)
    requires var common := Min(s.commit, t.commit); s.log[..common] == t.log[..common]
    ensures forall k :: 0 <= k < s.commit && k < t.commit ==> s.log[k] == t.log[k]
    ensures s.applied == t.applied ==> s.machine == t.machine
  {
    var common := Min(s.commit, t.commit);
    assert forall k :: 0 <= k < common ==> s.log[..common][k] == t.log[..common][k];
    if s.applied == t.applied {
      assert s.log[..s.applied] == s.log[..common][..s.applied] == t.log[..t.applied];
    }
  }

  /** Reply agreement, in every run: all real replies ever sent for one serial are equal. */
  lemma ReplyAgreement(n: nat, leader: nat, cs: seq<Cluster>, es: seq<Event>, j: nat, x: Response, y: Response)
    requires IsRun(n, leader, cs, es) && j < |cs|
    requires ToClient(x) in cs[j].sent && ToClient(y) in cs[j].sent
    requires !x.Redirection? && !y.Redirection? && x.serial == y.serial
    ensures x == y
  {
    RunInv(n, leader, cs, es, j);
    RunAuthority(n, leader, cs, es, j);
    var c := cs[j];
    assert Justified(c, ToClient(x).resp) && Justified(c, ToClient(y).resp);
    var r: nat, k: nat :| JustifiedBy(c, x, r, k);
    var w: nat, l: nat :| JustifiedBy(c, y, w, l);
    if r <= w { RepliesAgree(c, x, r, k, y, w, l); } else { RepliesAgree(c, y, w, l, x, r, k); }
  }

  lemma RepliesAgree(c: Cluster, x: Response, r: nat, k: nat, y: Response, w: nat, l: nat)
    requires Inv(c) && JustifiedBy(c, x, r, k) && JustifiedBy(c, y, w, l) && x.serial == y.serial && r <= w
    ensures x == y
  {
    ChosenComparable(c, r, k, w, l);
    var lead := c.leaders[w].log;
    if k <= l {
      assert lead[..l][..k] == lead[..k];
      ReplayKeepsResponses(lead[..l], k);
    } else {
      assert lead[..k][..l] == lead[..l];
      ReplayKeepsResponses(lead[..k], l);
    }
  }
}
