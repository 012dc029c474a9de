/** The safety theorems: election safety, log matching and leader completeness for every run. */
module PaxosSafety {
  import opened Options
  import opened PancyDb
  import opened PaxosSpec
  import opened PaxosCluster
  import opened PaxosLeader
  import opened PaxosInvariance
  import opened PaxosHandlers
  import opened PaxosProgress

  // ----- runs -----

  ghost predicate Moves(c: Cluster, e: Event, d: Cluster) {
    Ready(c, e) && d == Next(c, e)
  }

  /** `Moves`, kept folded. */
  ghost predicate StepsTo(c: Cluster, e: Event, d: Cluster) {
    forall n {:trigger Unfold(n)} :: Unfold(n) ==> Moves(c, e, d)
  }

  /** `Inv`, kept folded. */
  ghost predicate Held(c: Cluster) {
    forall n {:trigger Unfold(n)} :: Unfold(n) ==> Inv(c)
  }

  ghost predicate IsRun(n: nat, leader: nat, cs: seq<Cluster>, es: seq<Event>) {
    && leader < n && |cs| == |es| + 1 && cs[0] == Initial(n, leader)
    && forall i {:trigger es[i]} :: 0 <= i < |es| ==> StepsTo(cs[i], es[i], cs[i + 1])
  }

  lemma StepKeeps(c: Cluster, e: Event, d: Cluster)
    requires Inv(c) && StepsTo(c, e, d)
    ensures Inv(d) && Extends(c, d)
  {
    assert Unfold(0);
    NextKeepsInv(c, e);
  }

  lemma StepHolds(c: Cluster, e: Event, d: Cluster)
    requires Held(c) && StepsTo(c, e, d)
    ensures Held(d) && d.n == c.n
  {
    assert Unfold(0);
    StepKeeps(c, e, d);
  }

  lemma InitialHolds(n: nat, leader: nat)
    requires leader < n
    ensures Held(Initial(n, leader)) && Initial(n, leader).n == n
  {
    InitialInv(n, leader);
  }

  lemma {:induction false} RunHolds(n: nat, leader: nat, cs: seq<Cluster>, es: seq<Event>, i: nat)
    requires IsRun(n, leader, cs, es) && i < |cs|
    ensures Held(cs[i]) && cs[i].n == n
  {
    if i == 0 {
      InitialHolds(n, leader);
    } else {
      RunHolds(n, leader, cs, es, i - 1);
      assert StepsTo(cs[i - 1], es[i - 1], cs[i - 1 + 1]);
      StepHolds(cs[i - 1], es[i - 1], cs[i]);
    }
  }

  lemma RunInv(n: nat, leader: nat, cs: seq<Cluster>, es: seq<Event>, i: nat)
    requires IsRun(n, leader, cs, es) && i < |cs|
    ensures Inv(cs[i]) && cs[i].n == n
  {
    RunHolds(n, leader, cs, es, i);
    assert Unfold(0);
  }

  lemma ExtendsSelf(c: Cluster)
    requires |c.reps| == c.n
    ensures Extends(c, c)
  {
  }

  lemma RunStep(n: nat, leader: nat, cs: seq<Cluster>, es: seq<Event>, i: nat)
    requires IsRun(n, leader, cs, es) && i < |es|
    ensures Extends(cs[i], cs[i]) && Extends(cs[i], cs[i + 1])
  {
    RunInv(n, leader, cs, es, i);
    ExtendsSelf(cs[i]);
    StepKeeps(cs[i], es[i], cs[i + 1]);
  }

  /** History is never rewritten between two states of a run. */
  lemma {:induction false} RunExtends(n: nat, leader: nat, cs: seq<Cluster>, es: seq<Event>, i: nat, j: nat)
    requires IsRun(n, leader, cs, es) && i <= j < |cs|
    ensures Extends(cs[i], cs[j])
    decreases j - i
  {
    if i == j {
      RunInv(n, leader, cs, es, i);
      ExtendsSelf(cs[i]);
    } else {
      RunExtends(n, leader, cs, es, i, j - 1);
      RunStep(n, leader, cs, es, j - 1);
      ExtendsTrans(cs[i], cs[j - 1], cs[j]);
    }
  }

  // ----- election safety -----

  /** Every round has at most one leader over the whole run, the appointed round 0 included. */
  lemma ElectionSafety(n: nat, leader: nat, cs: seq<Cluster>, es: seq<Event>, i: nat, j: nat, a: nat, b: nat)
    requires IsRun(n, leader, cs, es) && i <= j < |cs| && a < |cs[i].reps| && b < |cs[j].reps|
    requires cs[i].reps[a].role == Leader && cs[j].reps[b].role == Leader
    requires cs[i].reps[a].round == cs[j].reps[b].round
    ensures a == b
  {
    RunInv(n, leader, cs, es, i);
    RunInv(n, leader, cs, es, j);
    RunExtends(n, leader, cs, es, i, j);
    assert RepOk(cs[i], a) && RepOk(cs[j], b);
  }

  // ----- log matching -----

  /** Entries of one round at one slot, in any two replicas at any two moments, lie on equal prefixes. */
  lemma LogMatchingSafety(n: nat, leader: nat, cs: seq<Cluster>, es: seq<Event>, i: nat, j: nat, a: nat, b: nat, slot: nat)
    requires IsRun(n, leader, cs, es) && i <= j < |cs| && a < |cs[i].reps| && b < |cs[j].reps|
    requires var x, y := cs[i].reps[a].log, cs[j].reps[b].log;
             1 <= slot <= |x| && slot <= |y| && x[slot - 1].round == y[slot - 1].round
    ensures cs[i].reps[a].log[..slot] == cs[j].reps[b].log[..slot]
  {
    RunInv(n, leader, cs, es, i);
    RunInv(n, leader, cs, es, j);
    RunExtends(n, leader, cs, es, i, j);
    assert RepOk(cs[i], a) && RepOk(cs[j], b);
    GoodLogExtends(cs[i], cs[j], cs[i].reps[a].log);
    LogMatching(cs[j], cs[i].reps[a].log, cs[j].reps[b].log, slot);
  }

  // ----- leader completeness -----

  /** A quorum has acknowledged slot k, an entry of round r, to the leader of round r. */
  ghost predicate Chosen(c: Cluster, r: nat, k: nat) {
    && r in c.leaders && 0 < k <= |c.leaders[r].log| && c.leaders[r].log[k - 1].round == r
    && exists q: set<nat> :: ChosenBy(c, r, k, q)
  }

  ghost predicate ChosenBy(c: Cluster, r: nat, k: nat, q: set<nat>) {
    HasQuorum(c.n, |q|) && forall s :: s in q ==> s < c.n && Acked(c, s, r, k)
  }

  lemma ChosenExtends(c: Cluster, d: Cluster, r: nat, k: nat)
    requires Extends(c, d) && Chosen(c, r, k)
    ensures Chosen(d, r, k)
  {
    var q :| ChosenBy(c, r, k, q);
    forall s | s in q ensures s < d.n && Acked(d, s, r, k) { AckedExtends(c, d, s, r, k); }
    assert ChosenBy(d, r, k, q);
  }

  /** Rounds never decrease along a good log. */
  lemma RoundsAscend(c: Cluster, log: seq<Entry>, i: nat, j: nat)
    requires Inv(c) && GoodLog(c, log) && i <= j < |log|
    ensures log[i].round <= log[j].round
  {
    var q := log[j].round;
    assert GoodEntry(c, log, j);
    assert LeaderOk(c, q);
    assert log[..j + 1][i] == c.leaders[q].log[..j + 1][i];
  }

  /** The candidate's log was up to date for a voter that held the first k entries of round r. */
  lemma UpToDateHolds(c: Cluster, r: nat, k: nat, w: nat, x: seq<Entry>)
    requires Inv(c) && r < w && w in c.leaders && r in c.leaders && 0 < k <= |c.leaders[r].log|
    requires c.leaders[r].log[k - 1].round == r
    requires GoodLog(c, x) && Has(c, x, r, k)
    requires var y := c.leaders[w].base; UpToDate(x, |y|, RoundAt(y, |y|))
    requires forall q :: r < q < w && q in c.leaders ==> Has(c, c.leaders[q].base, r, k)
    ensures Has(c, c.leaders[w].base, r, k)
  {
    var y := c.leaders[w].base;
    BaseIsGood(c, w);
    TipNotBelow(c, r, k, x);
    var p, q := x[|x| - 1].round, RoundAt(y, |y|);
    assert GoodEntry(c, x, |x| - 1);
    assert p <= q && y != [];
    assert GoodEntry(c, y, |y| - 1);
    if p == q {
      LongerHolds(c, r, k, x, y);
    } else {
      LaterTipHolds(c, r, k, y);
    }
  }

  /** A log that holds an entry of round r has a tip of that round or a later one. */
  lemma TipNotBelow(c: Cluster, r: nat, k: nat, x: seq<Entry>)
    requires Inv(c) && GoodLog(c, x) && 0 < k && Has(c, x, r, k) && c.leaders[r].log[k - 1].round == r
    ensures x != [] && r <= x[|x| - 1].round
  {
    HasAt(c, x, r, k, k - 1);
    RoundsAscend(c, x, k - 1, |x| - 1);
  }

  /** What a log holds, a longer one that ends in the same round holds too. */
  lemma LongerHolds(c: Cluster, r: nat, k: nat, x: seq<Entry>, y: seq<Entry>)
    requires Inv(c) && GoodLog(c, x) && GoodLog(c, y) && Has(c, x, r, k)
    requires 0 < |x| <= |y| && x[|x| - 1].round == y[|y| - 1].round
    ensures Has(c, y, r, k)
  {
    LogMatching(c, x, y, |x|) by { SameRoundLonger(c, x, y); }
    assert y[..k] == y[..|x|][..k] == x[..k];
  }

  lemma BaseIsGood(c: Cluster, w: nat)
    requires Inv(c) && w in c.leaders
    ensures GoodLog(c, c.leaders[w].base)
  {
    var l := c.leaders[w];
    assert LeaderOk(c, w);
    PrefixIsGood(c, l.log, |l.base|);
    assert l.log[..|l.base|] == l.base;
  }

  /** Of two good logs that end in the same round the shorter is a prefix of the longer. */
  lemma SameRoundLonger(c: Cluster, x: seq<Entry>, y: seq<Entry>)
    requires GoodLog(c, x) && GoodLog(c, y) && 0 < |x| <= |y| && x[|x| - 1].round == y[|y| - 1].round
    ensures x[|x| - 1].round == y[|x| - 1].round
  {
    var q := x[|x| - 1].round;
    assert GoodEntry(c, x, |x| - 1) && GoodEntry(c, y, |y| - 1);
    assert x[|x| - 1] == c.leaders[q].log[..|x|][|x| - 1];
    assert y[|x| - 1] == c.leaders[q].log[..|y|][|x| - 1];
  }

  /** A log whose tip is from a later round that started with those entries holds them too. */
  lemma LaterTipHolds(c: Cluster, r: nat, k: nat, y: seq<Entry>)
    requires Inv(c) && GoodLog(c, y) && y != [] && r in c.leaders && k <= |c.leaders[r].log|
    requires var q := y[|y| - 1].round; r < q && q in c.leaders && Has(c, c.leaders[q].base, r, k)
    ensures Has(c, y, r, k)
  {
    var q := y[|y| - 1].round;
    var l := c.leaders[q];
    assert LeaderOk(c, q) && LeaderOk(c, r);
    assert GoodEntry(c, y, |y| - 1);
    assert forall i :: 0 <= i < |y| ==> y[i] == l.log[i] by { assert y == l.log[..|y|]; }
    assert forall i :: 0 <= i < k ==> l.log[i] == c.leaders[r].log[i] by { assert l.base[..k] == l.log[..k]; }
    assert forall i :: 0 <= i < |c.leaders[r].log| ==> c.leaders[r].log[i].round <= r;
    assert k < |y|;
  }

  /** What a quorum has acknowledged, the leader of every later round started with. */
  lemma {:induction false} LeaderCompleteness(c: Cluster, r: nat, k: nat, w: nat)
    requires Inv(c) && Chosen(c, r, k) && r < w && w in c.leaders
    ensures Has(c, c.leaders[w].base, r, k)
    decreases w
  {
    var q :| ChosenBy(c, r, k, q);
    var l := c.leaders[w];
    assert LeaderOk(c, w);
    forall v | v in l.voters ensures v < c.n { assert VoterOk(c, v, w, l); }
    QuorumsMeet(q, l.voters, c.n);
    var v :| v in q && v in l.voters;
    assert VoterOk(c, v, w, l) && Acked(c, v, r, k);
    assert VoteOk(c, v, w);
    forall u | r < u < w && u in c.leaders ensures Has(c, c.leaders[u].base, r, k) { LeaderCompleteness(c, r, k, u); }
    assert Has(c, c.votes[(v, w)].log, r, k) || Lost(c, r, k, w - 1);
    UpToDateHolds(c, r, k, w, c.votes[(v, w)].log);
  }

  /** When a leader finds a slot committable, that slot is chosen. */
  lemma CommittableIsChosen(c: Cluster, s: Rep, k: nat)
    requires Inv(c) && s.id < c.n && s == c.reps[s.id] && s.role == Leader && 0 < k <= |s.log|
    requires |s.matchIndex| == s.n && Committable(s, k)
    ensures Chosen(c, s.round, k)
  {
    assert RepOk(c, s.id);
    var q := Holders(s, k);
    forall v | v in q ensures v < c.n && Acked(c, v, s.round, k) {
      if v != s.id { assert Acked(c, v, s.round, s.matchIndex[v]); AckedLess(c, v, s.round, s.matchIndex[v], k); }
    }
    assert ChosenBy(c, s.round, k, q);
  }

  lemma AckedLess(c: Cluster, s: nat, r: nat, k: nat, j: nat)
    requires Acked(c, s, r, k) && j <= k
    ensures Acked(c, s, r, j)
  {
    if s != c.leaders[r].id {
      var p :| p in c.sent && IsAck(p, s, r, k);
      assert IsAck(p, s, r, j);
    }
  }

  /** Leader completeness over runs: once the leader of a round has advanced its commit index to
      slot k, every leader of a later round, in every state of the run, holds the same k entries. */
  lemma CommittedEntriesSurvive(n: nat, leader: nat, cs: seq<Cluster>, es: seq<Event>, i: nat, a: nat, j: nat, b: nat)
    requires IsRun(n, leader, cs, es) && i + 1 < |cs| && j < |cs|
    requires a < |cs[i].reps| && a < |cs[i + 1].reps| && b < |cs[j].reps|
    requires cs[i + 1].reps[a].role == Leader
    requires cs[i].reps[a].commit < cs[i + 1].reps[a].commit
    requires cs[j].reps[b].role == Leader && cs[j].reps[b].round > cs[i + 1].reps[a].round
    ensures var k := cs[i + 1].reps[a].commit;
            && k <= |cs[i + 1].reps[a].log| && k <= |cs[j].reps[b].log|
            && cs[j].reps[b].log[..k] == cs[i + 1].reps[a].log[..k]
  {
    var late := if i + 1 <= j then j else i + 1;
    RunInv(n, leader, cs, es, late);
    CommitStaysChosen(n, leader, cs, es, i, a, late);
    LeaderStaysOnRecord(n, leader, cs, es, j, b, late);
    var r, w, k := cs[i + 1].reps[a].round, cs[j].reps[b].round, cs[i + 1].reps[a].commit;
    LeaderCompleteness(cs[late], r, k, w);
    SamePrefix(cs[late].leaders[w].base, cs[j].reps[b].log, cs[i + 1].reps[a].log, cs[late].leaders[r].log, k);
  }

  /** A leader's commit, seen from any later state. */
  lemma CommitStaysChosen(n: nat, leader: nat, cs: seq<Cluster>, es: seq<Event>, i: nat, a: nat, z: nat)
    requires IsRun(n, leader, cs, es) && i + 1 <= z < |cs| && a < |cs[i].reps| && a < |cs[i + 1].reps|
    requires cs[i + 1].reps[a].role == Leader && cs[i].reps[a].commit < cs[i + 1].reps[a].commit
    ensures var s := cs[i + 1].reps[a];
            Chosen(cs[z], s.round, s.commit) && s.commit <= |s.log| && s.log <= cs[z].leaders[s.round].log
  {
    RunCommitIsChosen(n, leader, cs, es, i, a);
    LeaderStaysOnRecord(n, leader, cs, es, i + 1, a, z);
    RunExtends(n, leader, cs, es, i + 1, z);
    ChosenExtends(cs[i + 1], cs[z], cs[i + 1].reps[a].round, cs[i + 1].reps[a].commit);
  }

  lemma RunCommitIsChosen(n: nat, leader: nat, cs: seq<Cluster>, es: seq<Event>, i: nat, a: nat)
    requires IsRun(n, leader, cs, es) && i + 1 < |cs| && a < |cs[i].reps| && a < |cs[i + 1].reps|
    requires cs[i + 1].reps[a].role == Leader && cs[i].reps[a].commit < cs[i + 1].reps[a].commit
    ensures var s := cs[i + 1].reps[a]; Chosen(cs[i + 1], s.round, s.commit) && s.commit <= |s.log|
  {
    RunInv(n, leader, cs, es, i);
    RunInv(n, leader, cs, es, i + 1);
    LeaderCommitIsChosen(cs[i], es[i], cs[i + 1], a);
    assert RepOk(cs[i + 1], a);
  }

  /** A leader's log, seen from any later state. */
  lemma LeaderStaysOnRecord(n: nat, leader: nat, cs: seq<Cluster>, es: seq<Event>, j: nat, b: nat, z: nat)
    requires IsRun(n, leader, cs, es) && j <= z < |cs| && b < |cs[j].reps| && cs[j].reps[b].role == Leader
    ensures var w := cs[j].reps[b].round;
            w in cs[z].leaders && cs[z].leaders[w].base <= cs[j].reps[b].log <= cs[z].leaders[w].log
  {
    RunInv(n, leader, cs, es, j);
    RunExtends(n, leader, cs, es, j, z);
    assert RepOk(cs[j], b);
    assert LeaderOk(cs[j], cs[j].reps[b].round);
  }

  lemma SamePrefix(base: seq<Entry>, x: seq<Entry>, y: seq<Entry>, z: seq<Entry>, k: nat)
    requires base <= x && y <= z && k <= |base| && k <= |y| && base[..k] == z[..k]
    ensures x[..k] == y[..k]
  {
    assert base[..k] == x[..k] && y[..k] == z[..k];
  }

  /** A leader's commit index moves only to a slot that a quorum has acknowledged. */
  lemma LeaderCommitIsChosen(c: Cluster, e: Event, d: Cluster, a: nat)
    requires Inv(c) && StepsTo(c, e, d) && a < c.n && Inv(d) && d.n == c.n
    requires d.reps[a].role == Leader && c.reps[a].commit < d.reps[a].commit
    ensures Chosen(d, d.reps[a].round, d.reps[a].commit)
  {
    if !e.Drop? {
      AdvancedByQuorum(c, e, d, a);
      CommittableIsChosen(d, d.reps[a], d.reps[a].commit);
    } else {
      assert d.reps == c.reps by { assert Unfold(0); }
    }
  }

  lemma AdvancedByQuorum(c: Cluster, e: Event, d: Cluster, a: nat)
    requires Inv(c) && StepsTo(c, e, d) && !e.Drop? && a < c.n && a < |d.reps| && c.reps[a].commit < d.reps[a].commit
    requires d.reps[a].role == Leader
    ensures var t := d.reps[a]; t.id == a && 0 < t.commit <= |t.log| && |t.matchIndex| == t.n && Committable(t, t.commit)
  {
    assert Unfold(0);
    var (t, outs) := Handler(c, e);
    HandlerProgress(c, e);
    assert a == t.id;
  }
}
