/** Agreement of what is committed, applied and answered.

    A follower caps its commit index at its last slot, not at the end of the batch it has just
    checked, so it may commit a stale tail that the batch said nothing about. What is
    committed is chosen exactly as long as no follower commits an entry its leader does not have
    (`BackedExactly`), and PaxosExact.dfy shows the same condition exact for the agreement of
    replicas on what they have applied.
    `CommitGuard` is what a follower can check for itself, and the weakest such check
    (`CommitGuardExact`). PaxosCounterexample.dfy shows that the code does not ensure it. */
module PaxosAgreement {
  import opened Options
  import opened PancyDb
  import opened PaxosSpec
  import opened PaxosMachine
  import opened PaxosCluster
  import opened PaxosLeader
  import opened PaxosInvariance
  import opened PaxosHandlers
  import opened PaxosProgress
  import opened PaxosSafety

  // ----- the commit guard, and that it is exact -----

  /** Where the follower's commit index ends up once `log` is the merged log. */
  ghost function NewCommit(s: Rep, m: Message, log: seq<Entry>): nat
    requires m.Propose?
  {
    if m.decide > s.commit then Min(m.decide, |log|) else s.commit
  }

  /** The new commit index stays within what was committed or just checked, or the log ends in an
      entry of the proposing leader's own round. */
  ghost predicate GuardOn(s: Rep, m: Message, log: seq<Entry>)
    requires m.Propose?
  {
    NewCommit(s, m, log) <= Max(s.commit, m.prevIndex + |m.entries|) || (log != [] && RoundAt(log, |log|) == m.round)
  }

  /** The proposal will be merged. */
  ghost predicate Accepts(s: Rep, m: Message)
    requires m.Propose?
  {
    && m.round >= s.round && PrefixMatches(s, m.prevIndex, m.prevRound) && m.prevIndex <= |s.log|
    && Merge(s.log, s.commit, m.prevIndex, m.entries).Merged?
  }

  /** The same, before the call: only a proposal that will be merged is constrained. */
  ghost predicate CommitGuard(s: Rep, m: Message)
    requires m.Propose?
  {
    Accepts(s, m) ==> GuardOn(s, m, Merge(s.log, s.commit, m.prevIndex, m.entries).log)
  }

  /** A log whose slots are numbered and whose rounds ascend, up to `top`. */
  ghost predicate Ordered(log: seq<Entry>, top: nat) {
    && (forall i :: 0 <= i < |log| ==> log[i].slot == i + 1 && log[i].round <= top)
    && (forall i, j :: 0 <= i < j < |log| ==> log[i].round <= log[j].round)
  }

  /** Entries of one round at one slot lie on equal prefixes. */
  ghost predicate Matching(log: seq<Entry>, lead: seq<Entry>) {
    forall k {:trigger log[k]} :: 0 <= k < |log| && k < |lead| && log[k].round == lead[k].round ==> log[..k + 1] == lead[..k + 1]
  }

  /** A leader's log that everything the follower can see is consistent with: the batch, what is
      committed, what this leader has sent before, and log matching in every round. */
  ghost predicate Plausible(s: Rep, m: Message, log: seq<Entry>, lead: seq<Entry>)
    requires m.Propose?
  {
    && Ordered(lead, m.round) && m.decide <= |lead|
    && Slice(lead, m.prevIndex, m.prevRound, m.entries)
    && s.commit <= |lead| && s.commit <= |log| && log[..s.commit] == lead[..s.commit]
    && (var got := m.prevIndex + |m.entries|; got <= |log| && log[..got] == lead[..got])
    && (forall k :: 0 <= k < |log| && log[k].round == m.round ==> k < |lead| && log[..k + 1] == lead[..k + 1])
    && Matching(log, lead)
  }

  ghost predicate AgreesThrough(log: seq<Entry>, lead: seq<Entry>, k: nat) {
    k <= |log| && k <= |lead| && log[..k] == lead[..k]
  }

  /** Under the guard the newly committed entries are the leader's. */
  lemma GuardSuffices(s: Rep, m: Message, log: seq<Entry>, lead: seq<Entry>)
    requires m.Propose? && Plausible(s, m, log, lead) && GuardOn(s, m, log)
    ensures AgreesThrough(log, lead, NewCommit(s, m, log))
  {
    var k, got := NewCommit(s, m, log), m.prevIndex + |m.entries|;
    if log != [] && RoundAt(log, |log|) == m.round {
      assert log[..|log| - 1 + 1] == lead[..|log| - 1 + 1];
      assert log[..k] == log[..|log|][..k] == lead[..|log|][..k];
    } else if k <= got {
      assert log[..k] == log[..got][..k] == lead[..got][..k];
    } else {
      assert log[..k] == log[..s.commit][..k] == lead[..s.commit][..k];
    }
  }

  /** Without it some plausible leader holds a different entry at the slot just committed. */
  lemma GuardNeeded(s: Rep, m: Message, log: seq<Entry>, actual: seq<Entry>) returns (lead: seq<Entry>)
    requires m.Propose? && Ordered(log, m.round) && Plausible(s, m, log, actual) && !GuardOn(s, m, log)
    ensures Plausible(s, m, log, lead) && !AgreesThrough(log, lead, NewCommit(s, m, log))
  {
    var k := NewCommit(s, m, log);
    var fill := seq(m.decide - (k - 1), i requires 0 <= i => Entry(k + i, m.round, log[k - 1].req));
    lead := log[..k - 1] + fill;
    assert forall i :: 0 <= i < |log| ==> log[i].round < m.round;
    assert |lead| == m.decide && lead[..k - 1] == log[..k - 1];
    RivalIsOrdered(log, lead, k, m.round);
    RivalFitsBatch(s, m, log, actual, lead, k);
    RivalMatches(log, lead, k, m.round);
    assert lead[..k][k - 1].round == m.round;
    assert log[..k][k - 1].round != m.round;
  }

  // A rival leader's log: the follower's below slot k, entries of round `top` from there on.

  lemma RivalIsOrdered(log: seq<Entry>, lead: seq<Entry>, k: nat, top: nat)
    requires Ordered(log, top) && 0 < k <= |log| && k <= |lead| && lead[..k - 1] == log[..k - 1]
    requires forall i :: k - 1 <= i < |lead| ==> lead[i].slot == i + 1 && lead[i].round == top
    ensures Ordered(lead, top)
  {
    assert forall i :: 0 <= i < k - 1 ==> lead[i] == lead[..k - 1][i] == log[..k - 1][i] == log[i];
  }

  lemma RivalMatches(log: seq<Entry>, lead: seq<Entry>, k: nat, top: nat)
    requires 0 < k <= |log| && k <= |lead| && lead[..k - 1] == log[..k - 1]
    requires forall i :: 0 <= i < |log| ==> log[i].round < top
    requires forall i :: k - 1 <= i < |lead| ==> lead[i].round == top
    ensures Matching(log, lead)
  {
    forall i | 0 <= i < |log| && i < |lead| && log[i].round == lead[i].round ensures log[..i + 1] == lead[..i + 1] {
      assert i < k - 1;
      assert log[..i + 1] == log[..k - 1][..i + 1] == lead[..k - 1][..i + 1];
    }
  }

  /** It agrees with all that was committed or checked. */
  lemma RivalFitsBatch(s: Rep, m: Message, log: seq<Entry>, actual: seq<Entry>, lead: seq<Entry>, k: nat)
    requires m.Propose? && Plausible(s, m, log, actual) && s.commit < k && m.prevIndex + |m.entries| < k
    requires k <= |log| && k <= |lead| && lead[..k - 1] == log[..k - 1]
    ensures s.commit <= |lead| && log[..s.commit] == lead[..s.commit]
    ensures var got := m.prevIndex + |m.entries|; got <= |log| && got <= |lead| && log[..got] == lead[..got]
    ensures Slice(lead, m.prevIndex, m.prevRound, m.entries)
  {
    var got := m.prevIndex + |m.entries|;
    assert lead[..s.commit] == lead[..k - 1][..s.commit] == log[..s.commit];
    assert lead[..got] == lead[..k - 1][..got] == log[..got];
    assert lead[m.prevIndex..got] == lead[..got][m.prevIndex..] == actual[..got][m.prevIndex..] == m.entries;
    if m.prevIndex > 0 {
      assert lead[..got][m.prevIndex - 1] == actual[..got][m.prevIndex - 1];
    }
  }

  /** The guard holds exactly when no leader consistent with what the follower sees could
      disagree with what it is about to commit. */
  lemma CommitGuardExact(s: Rep, m: Message, log: seq<Entry>, actual: seq<Entry>)
    requires m.Propose? && Ordered(log, m.round) && Plausible(s, m, log, actual)
    ensures GuardOn(s, m, log) <==>
            forall lead :: Plausible(s, m, log, lead) ==> AgreesThrough(log, lead, NewCommit(s, m, log))
  {
    if GuardOn(s, m, log) {
      forall lead | Plausible(s, m, log, lead) ensures AgreesThrough(log, lead, NewCommit(s, m, log)) {
        GuardSuffices(s, m, log, lead);
      }
    } else {
      var lead := GuardNeeded(s, m, log, actual);
    }
  }

  // ----- settled prefixes -----

  /** The first d entries of `log` are part of a chosen prefix. */
  ghost predicate Settled(c: Cluster, log: seq<Entry>, d: nat) {
    d == 0 || exists r: nat, k: nat :: SettledBy(c, log, d, r, k)
  }

  ghost predicate SettledBy(c: Cluster, log: seq<Entry>, d: nat, r: nat, k: nat) {
    Chosen(c, r, k) && d <= k && d <= |log| && log[..d] == c.leaders[r].log[..d]
  }

  lemma SettledExtends(c: Cluster, d: Cluster, log: seq<Entry>, x: nat)
    requires Extends(c, d) && Settled(c, log, x)
    ensures Settled(d, log, x)
  {
    if x > 0 {
      var r: nat, k: nat :| SettledBy(c, log, x, r, k);
      ChosenExtends(c, d, r, k);
      assert c.leaders[r].log[..x] == d.leaders[r].log[..x];
      assert SettledBy(d, log, x, r, k);
    }
  }

  lemma SettledLess(c: Cluster, log: seq<Entry>, x: nat, other: seq<Entry>, y: nat)
    requires Settled(c, log, x) && y <= x <= |log| && y <= |other| && other[..y] == log[..y]
    ensures Settled(c, other, y)
  {
    if y > 0 {
      var r: nat, k: nat :| SettledBy(c, log, x, r, k);
      assert other[..y] == log[..x][..y] == c.leaders[r].log[..x][..y];
      assert SettledBy(c, other, y, r, k);
    }
  }

  /** Chosen prefixes are prefixes of one another. */
  lemma ChosenComparable(c: Cluster, r: nat, k: nat, w: nat, l: nat)
    requires Inv(c) && Chosen(c, r, k) && Chosen(c, w, l) && r <= w
    ensures k <= |c.leaders[w].log| && c.leaders[w].log[..k] == c.leaders[r].log[..k]
  {
    if r < w {
      LeaderCompleteness(c, r, k, w);
      assert LeaderOk(c, w);
      assert c.leaders[w].log[..k] == c.leaders[w].base[..k];
    }
  }

  /** Two settled prefixes agree as far as both reach. */
  lemma SettledAgree(c: Cluster, x: seq<Entry>, d: nat, y: seq<Entry>, e: nat)
    requires Inv(c) && Settled(c, x, d) && Settled(c, y, e) && d <= e && d <= |x| && e <= |y|
    ensures x[..d] == y[..d]
  {
    if d > 0 {
      var r: nat, k: nat :| SettledBy(c, x, d, r, k);
      var w: nat, l: nat :| SettledBy(c, y, e, w, l);
      if r <= w {
        ChosenComparable(c, r, k, w, l);
        PrefixChain(x, y, c.leaders[r].log, c.leaders[w].log, d, e, k);
      } else {
        ChosenComparable(c, w, l, r, k);
        PrefixChain(x, y, c.leaders[r].log, c.leaders[w].log, d, e, l);
      }
    }
  }

  lemma PrefixChain(x: seq<Entry>, y: seq<Entry>, a: seq<Entry>, b: seq<Entry>, d: nat, e: nat, k: nat)
    requires d <= e && d <= k && d <= |x| && e <= |y| && k <= |a| && k <= |b| && e <= |b|
    requires x[..d] == a[..d] && y[..e] == b[..e] && a[..k] == b[..k]
    ensures x[..d] == y[..d]
  {
    assert a[..d] == a[..k][..d] == b[..k][..d] == b[..e][..d] == y[..e][..d];
  }

  // ----- the agreement invariant -----

  ghost predicate Decides(c: Cluster, p: Output) {
    p.ToReplica? && p.msg.Propose? ==>
      p.msg.round in c.leaders && p.msg.decide <= |c.leaders[p.msg.round].log|
      && Settled(c, c.leaders[p.msg.round].log, p.msg.decide)
  }

  ghost predicate RepAgrees(c: Cluster, i: nat)
    requires i < |c.reps|
  {
    Settled(c, c.reps[i].log, c.reps[i].commit) && MachineOk(c.reps[i])
  }

  /** A real answer is what the machine remembers after some chosen prefix. */
  ghost predicate Justified(c: Cluster, resp: Response) {
    resp.Redirection? || exists r: nat, k: nat :: JustifiedBy(c, resp, r, k)
  }

  ghost predicate JustifiedBy(c: Cluster, resp: Response, r: nat, k: nat) {
    && Chosen(c, r, k)
    && var m := Replay(c.leaders[r].log[..k]); resp.serial in m.cache && m.cache[resp.serial] == resp
  }

  ghost predicate Agreement(c: Cluster) {
    && |c.reps| == c.n
    && (forall i :: 0 <= i < c.n ==> RepAgrees(c, i))
    && (forall p :: p in c.sent ==> Decides(c, p))
    && (forall p :: p in c.sent && p.ToClient? ==> Justified(c, p.resp))
  }

  ghost predicate Guarded(c: Cluster, e: Event) {
    e.Deliver? && e.packet.ToReplica? && e.packet.msg.Propose? && e.packet.dst < |c.reps| ==>
      CommitGuard(c.reps[e.packet.dst], e.packet.msg)
  }

  /** What `s` commits on accepting `m` is in the leader's log. */
  ghost predicate CommitsWith(s: Rep, m: Message, lead: seq<Entry>)
    requires m.Propose?
  {
    Accepts(s, m) && m.decide > s.commit ==>
      var log := Merge(s.log, s.commit, m.prevIndex, m.entries).log; AgreesThrough(log, lead, NewCommit(s, m, log))
  }

  /** A follower that takes this step commits no entry its leader does not have. */
  ghost predicate Truthful(c: Cluster, e: Event) {
    e.Deliver? && e.packet.ToReplica? && e.packet.msg.Propose? && e.packet.dst < |c.reps| && e.packet.msg.round in c.leaders ==>
      CommitsWith(c.reps[e.packet.dst], e.packet.msg, c.leaders[e.packet.msg.round].log)
  }

  lemma InitialAgreement(n: nat, leader: nat)
    requires leader < n
    ensures Agreement(Initial(n, leader))
  {
  }

  lemma JustifiedExtends(c: Cluster, d: Cluster, resp: Response)
    requires Extends(c, d) && Justified(c, resp)
    ensures Justified(d, resp)
  {
    if !resp.Redirection? {
      var r: nat, k: nat :| JustifiedBy(c, resp, r, k);
      ChosenExtends(c, d, r, k);
      assert c.leaders[r].log[..k] == d.leaders[r].log[..k];
      assert JustifiedBy(d, resp, r, k);
    }
  }

  lemma AnswersJustified(d: Cluster, t: Rep, o: Output)
    requires Shape(t) && MachineOk(t) && Settled(d, t.log, t.commit) && o.ToClient? && Answers(t, o)
    ensures Justified(d, o.resp)
  {
    if !o.resp.Redirection? {
      assert t.applied > 0;
      var r: nat, k: nat :| SettledBy(d, t.log, t.commit, r, k);
      var chosen := d.leaders[r].log[..k];
      assert chosen[..t.applied] == d.leaders[r].log[..t.commit][..t.applied] == t.log[..t.commit][..t.applied] == t.log[..t.applied];
      ReplayKeepsResponses(chosen, t.applied);
      assert JustifiedBy(d, o.resp, r, k);
    }
  }

  lemma DecidesExtends(c: Cluster, d: Cluster, p: Output)
    requires Extends(c, d) && Decides(c, p)
    ensures Decides(d, p)
  {
    if p.ToReplica? && p.msg.Propose? {
      var l := c.leaders[p.msg.round].log;
      var x := p.msg.decide;
      SettledExtends(c, d, l, x);
      assert d.leaders[p.msg.round].log[..x] == l[..x];
      SettledLess(d, l, x, d.leaders[p.msg.round].log, x);
    }
  }

  // ----- one step -----

  lemma MergeSettles(c: Cluster, i: nat, m: Message, t: Rep, outs: seq<Output>)
    requires Inv(c) && i < c.n && ToReplica(i, m) in c.sent && RepOk(c, i) && MessageOk(c, ToReplica(i, m))
    requires Agreement(c) && RepAgrees(c, i) && Merging(c.reps[i], m, t, outs)
    requires m.round in c.leaders && CommitsWith(c.reps[i], m, c.leaders[m.round].log)
    requires Decides(c, ToReplica(i, m))
    ensures Settled(c, t.log, t.commit)
  {
    var s, lead := c.reps[i], c.leaders[m.round].log;
    if m.decide <= s.commit || m.decide == 0 {
      SettledLess(c, s.log, s.commit, t.log, s.commit);
    } else {
      assert t.log[..t.commit] == lead[..t.commit];
      SettledLess(c, lead, m.decide, t.log, t.commit);
    }
  }

  /** The follower's real leader is plausible, so a guarded step is truthful. */
  lemma GuardedIsTruthful(c: Cluster, e: Event)
    requires Inv(c) && Agreement(c) && Ready(c, e) && Guarded(c, e)
    ensures Truthful(c, e)
  {
    if e.Deliver? && e.packet.ToReplica? && e.packet.msg.Propose? {
      var i, m := e.packet.dst, e.packet.msg;
      assert RepOk(c, i) && RepAgrees(c, i) && MessageOk(c, ToReplica(i, m)) && Decides(c, ToReplica(i, m));
      GuardCommitsWith(c, i, m);
    }
  }

  lemma GuardCommitsWith(c: Cluster, i: nat, m: Message)
    requires Inv(c) && i < c.n && RepOk(c, i) && MessageOk(c, ToReplica(i, m)) && RepAgrees(c, i)
    requires m.Propose? && Decides(c, ToReplica(i, m)) && CommitGuard(c.reps[i], m)
    ensures CommitsWith(c.reps[i], m, c.leaders[m.round].log)
  {
    var s := c.reps[i];
    if Accepts(s, m) && m.decide > s.commit {
      var log := Merge(s.log, s.commit, m.prevIndex, m.entries).log;
      MergeKeepsCommitted(s.log, s.commit, m.prevIndex, m.entries);
      LeaderIsPlausible(c, i, m, log);
      GuardSuffices(s, m, log, c.leaders[m.round].log);
    }
  }

  lemma LeaderIsPlausible(c: Cluster, i: nat, m: Message, log: seq<Entry>)
    requires Inv(c) && i < c.n && RepOk(c, i) && MessageOk(c, ToReplica(i, m))
    requires RepAgrees(c, i) && m.Propose? && Decides(c, ToReplica(i, m))
    requires var s := c.reps[i];
             && m.prevIndex <= |s.log| && s.round <= m.round && PrefixMatches(s, m.prevIndex, m.prevRound)
             && Merge(s.log, s.commit, m.prevIndex, m.entries) == Merged(log)
             && s.commit < m.decide && s.commit <= |s.log| && s.commit <= |log| && log[..s.commit] == s.log[..s.commit]
    ensures Plausible(c.reps[i], m, log, c.leaders[m.round].log)
  {
    var s, lead, got := c.reps[i], c.leaders[m.round].log, m.prevIndex + |m.entries|;
    assert LeaderOk(c, m.round);
    SettledAgree(c, s.log, s.commit, lead, m.decide);
    MergedAgainst(c, s, m, log);
    LeaderIsOrdered(c, m.round);
    forall k | 0 <= k < |log| && log[k].round == m.round ensures k < |lead| && log[..k + 1] == lead[..k + 1] {
      assert GoodEntry(c, log, k);
    }
    forall k | 0 <= k < |log| && k < |lead| && log[k].round == lead[k].round ensures log[..k + 1] == lead[..k + 1] {
      LogMatching(c, log, lead, k + 1);
    }
  }

  lemma MergedAgainst(c: Cluster, s: Rep, m: Message, log: seq<Entry>)
    requires m.Propose? && m.round in c.leaders && LeaderOk(c, m.round) && s.round <= m.round
    requires GoodLog(c, s.log) && RoundsBelow(s.log, s.round + 1) && m.prevIndex <= |s.log|
    requires PrefixMatches(s, m.prevIndex, m.prevRound)
    requires Slice(c.leaders[m.round].log, m.prevIndex, m.prevRound, m.entries)
    requires Merge(s.log, s.commit, m.prevIndex, m.entries) == Merged(log)
    ensures GoodLog(c, log)
    ensures var got := m.prevIndex + |m.entries|; got <= |log| && log[..got] == c.leaders[m.round].log[..got]
  {
    var lead, got := c.leaders[m.round].log, m.prevIndex + |m.entries|;
    MergeFollowsLeader(c, s.log, s.commit, lead, m.prevIndex, m.entries);
    FollowerLogOk(c, s, log, m.round, got);
  }

  lemma LeaderIsOrdered(c: Cluster, r: nat)
    requires Inv(c) && r in c.leaders && LeaderOk(c, r)
    ensures Ordered(c.leaders[r].log, r)
  {
    GoodIsOrdered(c, c.leaders[r].log, r);
  }

  lemma GoodIsOrdered(c: Cluster, log: seq<Entry>, top: nat)
    requires Inv(c) && GoodLog(c, log) && RoundsBelow(log, top + 1)
    ensures Ordered(log, top)
  {
    forall i | 0 <= i < |log| ensures log[i].slot == i + 1 { assert GoodEntry(c, log, i); }
    forall i, j | 0 <= i < j < |log| ensures log[i].round <= log[j].round { RoundsAscend(c, log, i, j); }
  }

  /** A replica other than a merging follower: its commit index is old, or a quorum stands behind it. */
  lemma SteadySettles(c: Cluster, d: Cluster, s: Rep, t: Rep, outs: seq<Output>, extra: seq<Request>)
    requires Inv(d) && Extends(c, d) && s.commit <= |s.log| && Settled(c, s.log, s.commit) && Steady(s, t, outs, extra)
    requires t.id < d.n && d.reps[t.id] == t && RepOk(d, t.id)
    ensures Settled(d, t.log, t.commit)
  {
    if t.commit > s.commit {
      CommittableIsChosen(d, t, t.commit);
      assert SettledBy(d, t.log, t.commit, t.round, t.commit);
    } else {
      SettledExtends(c, d, s.log, s.commit);
      assert t.log[..s.commit] == s.log[..s.commit];
      SettledLess(d, s.log, s.commit, t.log, s.commit);
    }
  }

  lemma MoverSettles(c: Cluster, e: Event, d: Cluster, t: Rep, outs: seq<Output>)
    requires Inv(c) && Inv(d) && Extends(c, d) && Agreement(c) && Ready(c, e) && !e.Drop? && Truthful(c, e)
    requires (t, outs) == Handler(c, e) && Progress(c, e, t, outs) && t.id < c.n && d.reps[t.id] == t
    ensures Settled(d, t.log, t.commit) && MachineKept(c.reps[t.id], t, outs)
  {
    var s := c.reps[t.id];
    assert RepOk(c, t.id) && RepAgrees(c, t.id);
    if e.Deliver? && Merging(s, e.packet.msg, t, outs) {
      assert MessageOk(c, e.packet) && Decides(c, e.packet);
      MergeSettles(c, t.id, e.packet.msg, t, outs);
      SettledExtends(c, d, t.log, t.commit);
    } else {
      assert RepOk(d, t.id);
      SteadySettles(c, d, s, t, outs, Extra(e));
    }
  }

  lemma NewDecides(d: Cluster, t: Rep, outs: seq<Output>, p: Output)
    requires Inv(d) && t.id < d.n && d.reps[t.id] == t && Settled(d, t.log, t.commit) && p in outs
    requires p.ToReplica? && p.msg.Propose? ==> t.role == Leader && p.msg.round == t.round && p.msg.decide <= t.commit
    ensures Decides(d, p)
  {
    assert RepOk(d, t.id);
    if p.ToReplica? && p.msg.Propose? {
      SettledLess(d, t.log, t.commit, t.log, p.msg.decide);
    }
  }

  lemma StepKeepsAgreement(c: Cluster, e: Event, d: Cluster)
    requires Inv(c) && Agreement(c) && StepsTo(c, e, d) && Truthful(c, e) && Inv(d) && Extends(c, d)
    ensures Agreement(d)
  {
    forall i | 0 <= i < d.n ensures RepAgrees(d, i) { StepRepAgrees(c, e, d, i); }
    forall p | p in d.sent ensures Decides(d, p) && (p.ToClient? ==> Justified(d, p.resp)) {
      if p in c.sent {
        DecidesExtends(c, d, p);
        if p.ToClient? { JustifiedExtends(c, d, p.resp); }
      } else {
        StepOutputAgrees(c, e, d, p);
      }
    }
  }

  lemma StepRepAgrees(c: Cluster, e: Event, d: Cluster, i: nat)
    requires Inv(c) && Agreement(c) && StepsTo(c, e, d) && Truthful(c, e) && Inv(d) && Extends(c, d) && i < d.n
    ensures RepAgrees(d, i)
  {
    assert Unfold(0);
    assert RepAgrees(c, i);
    if e.Drop? {
      SettledExtends(c, d, c.reps[i].log, c.reps[i].commit);
    } else {
      var (t, outs) := Handler(c, e);
      HandlerProgress(c, e);
      if i == t.id {
        MoverSettles(c, e, d, t, outs);
      } else {
        SettledExtends(c, d, c.reps[i].log, c.reps[i].commit);
      }
    }
  }

  lemma StepOutputAgrees(c: Cluster, e: Event, d: Cluster, p: Output)
    requires Inv(c) && Agreement(c) && StepsTo(c, e, d) && Truthful(c, e) && Inv(d) && Extends(c, d)
    requires p in d.sent && p !in c.sent
    ensures Decides(d, p) && (p.ToClient? ==> Justified(d, p.resp))
  {
    assert Unfold(0);
    var (t, outs) := Handler(c, e);
    HandlerProgress(c, e);
    assert RepAgrees(c, t.id);
    MoverSettles(c, e, d, t, outs);
    OutputFacts(c, e, t, outs, p);
    OutputAgrees(d, t, outs, p);
  }

  lemma OutputFacts(c: Cluster, e: Event, t: Rep, outs: seq<Output>, p: Output)
    requires Target(e) < |c.reps| && (e.Deliver? ==> e.packet.ToReplica?) && Progress(c, e, t, outs) && p in outs
    requires MachineOk(c.reps[t.id])
    ensures p.ToReplica? && p.msg.Propose? ==> t.role == Leader && p.msg.round == t.round && p.msg.decide <= t.commit
    ensures MachineOk(t) && Answers(t, p)
  {
  }

  lemma OutputAgrees(d: Cluster, t: Rep, outs: seq<Output>, p: Output)
    requires Inv(d) && t.id < d.n && d.reps[t.id] == t && Settled(d, t.log, t.commit) && p in outs
    requires p.ToReplica? && p.msg.Propose? ==> t.role == Leader && p.msg.round == t.round && p.msg.decide <= t.commit
    requires MachineOk(t) && Answers(t, p)
    ensures Decides(d, p) && (p.ToClient? ==> Justified(d, p.resp))
  {
    NewDecides(d, t, outs, p);
    assert RepOk(d, t.id);
    if p.ToClient? { AnswersJustified(d, t, p); }
  }

  // ----- runs -----

  /** Every follower that commits agrees with its leader on what it commits. */
  ghost predicate TruthfulRun(n: nat, leader: nat, cs: seq<Cluster>, es: seq<Event>) {
    IsRun(n, leader, cs, es) && forall i {:trigger es[i]} :: 0 <= i < |es| ==> TruthfulStep(cs[i], es[i])
  }

  /** Every accepted proposal meets the guard. */
  ghost predicate GuardedRun(n: nat, leader: nat, cs: seq<Cluster>, es: seq<Event>) {
    IsRun(n, leader, cs, es) && forall i {:trigger es[i]} :: 0 <= i < |es| ==> GuardedStep(cs[i], es[i])
  }

  // The same on one step, and agreement, kept folded.

  ghost predicate Agreed(c: Cluster) {
    forall n {:trigger Unfold(n)} :: Unfold(n) ==> Agreement(c)
  }

  ghost predicate TruthfulStep(c: Cluster, e: Event) {
    forall n {:trigger Unfold(n)} :: Unfold(n) ==> Truthful(c, e)
  }

  ghost predicate GuardedStep(c: Cluster, e: Event) {
    forall n {:trigger Unfold(n)} :: Unfold(n) ==> Guarded(c, e)
  }

  /** Every committed prefix is part of what a quorum has acknowledged to the leader of some round. */
  ghost predicate Backed(c: Cluster) {
    forall i :: 0 <= i < |c.reps| ==> Settled(c, c.reps[i].log, c.reps[i].commit)
  }

  lemma StepAgreed(c: Cluster, e: Event, d: Cluster)
    requires Held(c) && Agreed(c) && StepsTo(c, e, d) && TruthfulStep(c, e)
    ensures Agreed(d)
  {
    assert Unfold(0);
    StepKeeps(c, e, d);
    StepKeepsAgreement(c, e, d);
  }

  lemma InitialAgreed(n: nat, leader: nat)
    requires leader < n
    ensures Agreed(Initial(n, leader))
  {
    InitialAgreement(n, leader);
  }

  lemma {:induction false} RunAgreed(n: nat, leader: nat, cs: seq<Cluster>, es: seq<Event>, i: nat)
    requires IsRun(n, leader, cs, es) && i < |cs|
    requires forall k {:trigger es[k]} :: 0 <= k < i ==> TruthfulStep(cs[k], es[k])
    ensures Agreed(cs[i])
  {
    if i == 0 {
      InitialAgreed(n, leader);
    } else {
      RunAgreed(n, leader, cs, es, i - 1);
      RunHolds(n, leader, cs, es, i - 1);
      assert StepsTo(cs[i - 1], es[i - 1], cs[i - 1 + 1]);
      StepAgreed(cs[i - 1], es[i - 1], cs[i]);
    }
  }

  lemma RunAgreement(n: nat, leader: nat, cs: seq<Cluster>, es: seq<Event>, i: nat)
    requires TruthfulRun(n, leader, cs, es) && i < |cs|
    ensures Agreement(cs[i])
  {
    RunAgreed(n, leader, cs, es, i);
    assert Unfold(0);
  }

  // Conversely, a step that leaves every committed prefix backed was truthful.

  lemma BackedIsTruthful(c: Cluster, e: Event, d: Cluster)
    requires Inv(c) && Agreement(c) && StepsTo(c, e, d) && Inv(d) && Extends(c, d) && Backed(d)
    ensures Truthful(c, e)
  {
    if e.Deliver? && e.packet.ToReplica? && e.packet.msg.Propose? {
      var i, m := e.packet.dst, e.packet.msg;
      ProposalDelivered(c, e, d, i, m);
      DecidesExtends(c, d, ToReplica(i, m));
      BackedCommitsWith(c, d, i, m);
    }
  }

  /** What the delivery of a proposal comes to. */
  lemma ProposalDelivered(c: Cluster, e: Event, d: Cluster, i: nat, m: Message)
    requires Inv(c) && Agreement(c) && StepsTo(c, e, d) && e == Deliver(ToReplica(i, m)) && m.Propose?
    ensures i < |c.reps| && Shape(c.reps[i]) && Decides(c, ToReplica(i, m))
    ensures i < |d.reps| && d.reps[i] == HandlePropose(c.reps[i], m).0
  {
    assert Unfold(0);
    HandlerProgress(c, e);
    assert RepOk(c, i);
  }

  lemma BackedCommitsWith(c: Cluster, d: Cluster, i: nat, m: Message)
    requires Inv(d) && Extends(c, d) && Backed(d) && i < |c.reps| && i < |d.reps| && Shape(c.reps[i]) && m.Propose?
    requires d.reps[i] == HandlePropose(c.reps[i], m).0
    requires m.round in c.leaders && m.decide <= |c.leaders[m.round].log| && Decides(d, ToReplica(i, m))
    ensures CommitsWith(c.reps[i], m, c.leaders[m.round].log)
  {
    var t := d.reps[i];
    assert Settled(d, t.log, t.commit);
    if Accepts(c.reps[i], m) && m.decide > c.reps[i].commit {
      MergedShape(c.reps[i], m);
      BackedCommit(c, d, i, m, t);
    }
  }

  lemma BackedCommit(c: Cluster, d: Cluster, i: nat, m: Message, t: Rep)
    requires Inv(d) && Extends(c, d) && m.Propose? && m.round in c.leaders && m.decide <= |c.leaders[m.round].log|
    requires Decides(d, ToReplica(i, m)) && Settled(d, t.log, t.commit) && t.commit == Min(m.decide, |t.log|)
    ensures AgreesThrough(t.log, c.leaders[m.round].log, t.commit)
  {
    var lead, later := c.leaders[m.round].log, d.leaders[m.round].log;
    SettledAgree(d, t.log, t.commit, later, m.decide);
    assert lead <= later;
    assert lead[..t.commit] == later[..t.commit];
  }

  /** The step is guarded, or leaves every committed prefix backed; kept folded. */
  ghost predicate SafeStep(c: Cluster, e: Event, d: Cluster) {
    forall n {:trigger Unfold(n)} :: Unfold(n) ==> Guarded(c, e) || Backed(d)
  }

  lemma SafeStepIsTruthful(c: Cluster, e: Event, d: Cluster)
    requires Held(c) && Agreed(c) && StepsTo(c, e, d) && SafeStep(c, e, d)
    ensures TruthfulStep(c, e)
  {
    assert Unfold(0);
    if Guarded(c, e) {
      GuardedIsTruthful(c, e);
    } else {
      StepKeeps(c, e, d);
      BackedIsTruthful(c, e, d);
    }
  }

  lemma TruthfulAt(n: nat, leader: nat, cs: seq<Cluster>, es: seq<Event>, i: nat)
    requires IsRun(n, leader, cs, es) && i < |es| && SafeStep(cs[i], es[i], cs[i + 1])
    requires forall k {:trigger es[k]} :: 0 <= k < i ==> TruthfulStep(cs[k], es[k])
    ensures TruthfulStep(cs[i], es[i])
  {
    RunAgreed(n, leader, cs, es, i);
    RunHolds(n, leader, cs, es, i);
    assert StepsTo(cs[i], es[i], cs[i + 1]);
    SafeStepIsTruthful(cs[i], es[i], cs[i + 1]);
  }

  lemma {:induction false} SafePrefixIsTruthful(n: nat, leader: nat, cs: seq<Cluster>, es: seq<Event>, i: nat)
    requires IsRun(n, leader, cs, es) && i <= |es|
    requires forall k {:trigger es[k]} :: 0 <= k < |es| ==> SafeStep(cs[k], es[k], cs[k + 1])
    ensures forall k {:trigger es[k]} :: 0 <= k < i ==> TruthfulStep(cs[k], es[k])
  {
    if i > 0 {
      SafePrefixIsTruthful(n, leader, cs, es, i - 1);
      TruthfulAt(n, leader, cs, es, i - 1);
    }
  }

  lemma GuardedStepIsSafe(c: Cluster, e: Event, d: Cluster)
    requires GuardedStep(c, e)
    ensures SafeStep(c, e, d)
  {
    assert Unfold(0);
  }

  /** A run in which every accepted proposal meets the guard is safe. */
  lemma GuardedRunIsTruthful(n: nat, leader: nat, cs: seq<Cluster>, es: seq<Event>)
    requires GuardedRun(n, leader, cs, es)
    ensures TruthfulRun(n, leader, cs, es)
  {
    forall k {:trigger es[k]} | 0 <= k < |es| ensures SafeStep(cs[k], es[k], cs[k + 1]) {
      GuardedStepIsSafe(cs[k], es[k], cs[k + 1]);
    }
    SafePrefixIsTruthful(n, leader, cs, es, |es|);
  }

  /** The exact condition of safety over runs: every replica's committed prefix is, in every state, part of
      what a quorum has acknowledged, if and only if no follower ever commits an entry its leader lacks. */
  lemma BackedExactly(n: nat, leader: nat, cs: seq<Cluster>, es: seq<Event>)
    requires IsRun(n, leader, cs, es)
    ensures (forall i :: 0 <= i < |cs| ==> Backed(cs[i])) <==> TruthfulRun(n, leader, cs, es)
  {
    if TruthfulRun(n, leader, cs, es) {
      forall i | 0 <= i < |cs| ensures Backed(cs[i]) { AgreementIsBacked(n, leader, cs, es, i); }
    }
    if forall i :: 0 <= i < |cs| ==> Backed(cs[i]) {
      SafePrefixIsTruthful(n, leader, cs, es, |es|);
    }
  }

  lemma AgreementIsBacked(n: nat, leader: nat, cs: seq<Cluster>, es: seq<Event>, i: nat)
    requires TruthfulRun(n, leader, cs, es) && i < |cs|
    ensures Backed(cs[i])
  {
    RunAgreement(n, leader, cs, es, i);
    forall a | 0 <= a < |cs[i].reps| ensures Settled(cs[i], cs[i].reps[a].log, cs[i].reps[a].commit) {
      assert RepAgrees(cs[i], a);
    }
  }

  /** What any state of a run shows settled is settled for good. */
  lemma SettledLater(n: nat, leader: nat, cs: seq<Cluster>, es: seq<Event>, i: nat, j: nat, a: nat)
    requires TruthfulRun(n, leader, cs, es) && i <= j < |cs| && a < |cs[i].reps|
    ensures var s := cs[i].reps[a]; Settled(cs[j], s.log, s.commit) && Shape(s) && MachineOk(s)
  {
    RunInv(n, leader, cs, es, i);
    RunAgreement(n, leader, cs, es, i);
    RunExtends(n, leader, cs, es, i, j);
    assert RepAgrees(cs[i], a) && RepOk(cs[i], a);
    SettledExtends(cs[i], cs[j], cs[i].reps[a].log, cs[i].reps[a].commit);
  }

  lemma SettledLogsAgree(n: nat, leader: nat, cs: seq<Cluster>, es: seq<Event>, i: nat, j: nat, a: nat, b: nat)
    requires TruthfulRun(n, leader, cs, es) && i <= j < |cs| && a < |cs[i].reps| && b < |cs[j].reps|
    ensures var s, t := cs[i].reps[a], cs[j].reps[b];
            && Shape(s) && Shape(t) && MachineOk(s) && MachineOk(t)
            && var common := Min(s.commit, t.commit); s.log[..common] == t.log[..common]
  {
    var s, t := cs[i].reps[a], cs[j].reps[b];
    RunInv(n, leader, cs, es, j);
    SettledLater(n, leader, cs, es, i, j, a);
    SettledLater(n, leader, cs, es, j, j, b);
    if s.commit <= t.commit { SettledAgree(cs[j], s.log, s.commit, t.log, t.commit); }
    else { SettledAgree(cs[j], t.log, t.commit, s.log, s.commit); }
  }

  /** The same entry at every slot both have applied. */
  ghost predicate SameApplied(s: Rep, t: Rep) {
    forall k :: 0 <= k < s.applied && k < t.applied ==> k < |s.log| && k < |t.log| && s.log[k] == t.log[k]
  }

  /** State-machine safety: whatever two replicas have applied, at any two moments of a truthful
      run, they agree on every slot both have applied; and a replica that has applied as much as
      another has the same database and the same responses. */
  lemma StateMachineSafety(n: nat, leader: nat, cs: seq<Cluster>, es: seq<Event>, i: nat, j: nat, a: nat, b: nat)
    requires TruthfulRun(n, leader, cs, es) && i <= j < |cs| && a < |cs[i].reps| && b < |cs[j].reps|
    ensures var s, t := cs[i].reps[a], cs[j].reps[b];
            SameApplied(s, t) && (s.applied == t.applied ==> s.machine == t.machine)
  {
    var s, t := cs[i].reps[a], cs[j].reps[b];
    SettledLogsAgree(n, leader, cs, es, i, j, a, b);
    var common := Min(s.commit, t.commit);
    assert forall k :: 0 <= k < common ==> s.log[..common][k] == t.log[..common][k];
    if s.applied == t.applied {
      assert s.log[..s.applied] == s.log[..common][..s.applied] == t.log[..t.applied];
    }
  }
}
