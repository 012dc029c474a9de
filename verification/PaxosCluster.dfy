/** The cluster as a transition system, and the invariant every run keeps.

    One step is one handler call of one replica (each replica runs a single coroutine), a lost
    message, a client request arriving or a timer expiring. Messages in flight form a multiset:
    they may be delayed and reordered without bound, or dropped, but never forged or duplicated.

    Besides the replicas and the network a cluster state carries history: every output ever
    produced, the vote each replica cast in each round, and for each round that has had a leader
    the log that leader started from and the log it has now. */
module PaxosCluster {
  import opened Options
  import opened PancyDb
  import opened PaxosSpec

  /** `log` is the voter's log when it first promised; `late` says the round already had a leader. */
  datatype Vote = Vote(candidate: nat, log: seq<Entry>, late: bool)

  datatype Leadership = Leadership(id: nat, base: seq<Entry>, log: seq<Entry>, voters: set<nat>)

  datatype Cluster = Cluster(
    n: nat, reps: seq<Rep>, net: multiset<Output>,
    sent: set<Output>, votes: map<(nat, nat), Vote>, leaders: map<nat, Leadership>, received: set<nat>)

  datatype Event = Deliver(packet: Output) | Drop(packet: Output) | Client(at: nat, req: Request) | Timeout(at: nat)

  ghost function Initial(n: nat, leader: nat): Cluster
    requires leader < n
  {
    Cluster(n, seq(n, i requires 0 <= i < n => InitialRep(i, n, leader)), multiset{}, {}, map[],
            map[0 := Leadership(leader, [], [], {})], {})
  }

  // ----- history -----

  ghost function NewVotes(c: Cluster, t: Rep): map<(nat, nat), Vote> {
    if t.promised.Some? && t.round > 0 && (t.id, t.round) !in c.votes then
      c.votes[(t.id, t.round) := Vote(t.promised.value, t.log, t.round in c.leaders)]
    else c.votes
  }

  ghost function Supporters(n: nat, votes: map<(nat, nat), Vote>, round: nat, id: nat): set<nat> {
    set v | 0 <= v < n && (v, round) in votes && votes[(v, round)].candidate == id
  }

  ghost function NewLeaders(c: Cluster, t: Rep): map<nat, Leadership> {
    if t.role != Leader then c.leaders
    else if t.round in c.leaders then c.leaders[t.round := c.leaders[t.round].(log := t.log)]
    else c.leaders[t.round := Leadership(t.id, t.log, t.log, Supporters(c.n, NewVotes(c, t), t.round, t.id))]
  }

  ghost function SetOf(outs: seq<Output>): set<Output> {
    set o | o in outs
  }

  /** Replica `t.id` has moved to state `t`, producing `outs`. */
  ghost function Observe(c: Cluster, t: Rep, outs: seq<Output>): Cluster
    requires t.id < |c.reps|
  {
    c.(reps := c.reps[t.id := t], net := c.net + multiset(outs), sent := c.sent + SetOf(outs),
       votes := NewVotes(c, t), leaders := NewLeaders(c, t))
  }

  ghost predicate Enabled(c: Cluster, e: Event) {
    match e
    case Deliver(p) => p in c.net && p.ToReplica?
    case Drop(p) => p in c.net
    case Client(i, _) => i < c.n
    case Timeout(i) => i < c.n
  }

  /** The handlers' own preconditions; `InvMakesReady` shows that they hold in every run. */
  ghost predicate Ready(c: Cluster, e: Event) {
    && Enabled(c, e)
    && match e
       case Deliver(p) =>
         && p.dst < |c.reps| && Shape(c.reps[p.dst]) && c.reps[p.dst].id == p.dst
         && (p.msg.Prepare? || p.msg.Ack? ==> p.msg.server < c.reps[p.dst].n)
       case Drop(p) => true
       case Client(i, _) => i < |c.reps| && Shape(c.reps[i]) && c.reps[i].id == i
       case Timeout(i) => i < |c.reps| && Shape(c.reps[i]) && c.reps[i].id == i
  }

  /** The handler call that event `e` is. */
  ghost function Handler(c: Cluster, e: Event): (Rep, seq<Output>)
    requires Ready(c, e) && !e.Drop?
  {
    match e
    case Deliver(p) => HandleReplicaMessage(c.reps[p.dst], p.msg)
    case Client(i, req) => HandleClient(c.reps[i], req)
    case Timeout(i) => HandleTimeout(c.reps[i])
  }

  /** The state before the handler runs: the message has left the network, the request has arrived. */
  ghost function Arrive(c: Cluster, e: Event): Cluster {
    match e
    case Deliver(p) => c.(net := c.net - multiset{p})
    case Drop(p) => c.(net := c.net - multiset{p})
    case Client(_, req) => c.(received := c.received + {req.serial})
    case Timeout(_) => c
  }

  ghost function Next(c: Cluster, e: Event): Cluster
    requires Ready(c, e)
  {
    if e.Drop? then Arrive(c, e)
    else
      var (t, outs) := Handler(c, e);
      if t.id < |c.reps| then Observe(Arrive(c, e), t, outs) else c
  }

  // ----- the invariant -----

  ghost predicate GoodEntry(c: Cluster, log: seq<Entry>, k: nat)
    requires k < |log|
  {
    var q := log[k].round;
    && log[k].slot == k + 1
    && q in c.leaders && k < |c.leaders[q].log|
    && log[..k + 1] == c.leaders[q].log[..k + 1]
  }

  /** Log matching, in its strong form: below every entry lies exactly what lay below it in the
      log of the leader of its round. */
  ghost predicate GoodLog(c: Cluster, log: seq<Entry>) {
    forall k :: 0 <= k < |log| ==> GoodEntry(c, log, k)
  }

  ghost predicate RoundsBelow(log: seq<Entry>, bound: nat) {
    forall k :: 0 <= k < |log| ==> log[k].round < bound
  }

  ghost predicate IsAck(p: Output, s: nat, r: nat, k: nat) {
    p.ToReplica? && p.msg.Ack? && p.msg.success && p.msg.server == s && p.msg.round == r && k <= p.msg.matchIndex
  }

  /** Replica `s` once told that in round r it held the leader's log up to slot k, or is that leader. */
  ghost predicate Acked(c: Cluster, s: nat, r: nat, k: nat) {
    && r in c.leaders && k <= |c.leaders[r].log|
    && (s == c.leaders[r].id || exists p :: p in c.sent && IsAck(p, s, r, k))
  }

  /** `log` holds the first k entries of the log of round r's leader. */
  ghost predicate Has(c: Cluster, log: seq<Entry>, r: nat, k: nat) {
    r in c.leaders && k <= |c.leaders[r].log| && k <= |log| && log[..k] == c.leaders[r].log[..k]
  }

  /** Some leader of a round in (r, bound] started without those k entries. */
  ghost predicate Lost(c: Cluster, r: nat, k: nat, bound: nat) {
    exists q :: r < q <= bound && q in c.leaders && !Has(c, c.leaders[q].base, r, k)
  }

  ghost predicate RepOk(c: Cluster, i: nat)
    requires i < |c.reps|
  {
    var s := c.reps[i];
    && s.id == i && s.n == c.n && Shape(s)
    && GoodLog(c, s.log) && RoundsBelow(s.log, s.round + 1)
    && (s.round > 0 ==> (s.promised.Some? <==> (i, s.round) in c.votes))
    && (s.round > 0 && s.promised.Some? ==> c.votes[(i, s.round)].candidate == s.promised.value)
    && (s.role == Leader ==> LeadingOk(c, s))
    && (s.role == Candidate ==> CandidateOk(c, s))
  }

  ghost predicate LeadingOk(c: Cluster, s: Rep)
    requires s.id < s.n == |s.matchIndex| == |s.nextIndex|
  {
    && s.promised == Some(s.id)
    && s.round in c.leaders && c.leaders[s.round].id == s.id && c.leaders[s.round].log == s.log
    && (forall p :: 0 <= p < s.n ==> s.nextIndex[p] <= |s.log| + 1)
    && (forall p :: 0 <= p < s.n && p != s.id && s.matchIndex[p] > 0 ==> Acked(c, p, s.round, s.matchIndex[p]))
  }

  ghost predicate CandidateOk(c: Cluster, s: Rep)
    requires |s.prepareOk| == s.n
  {
    && s.round > 0 && s.promised == Some(s.id)
    && (s.id, s.round) in c.votes && c.votes[(s.id, s.round)].log == s.log
    && RoundsBelow(s.log, s.round)
    && (s.round in c.leaders ==> c.leaders[s.round].id != s.id)
    && (forall p :: 0 <= p < s.n && s.prepareOk[p] ==>
          (p, s.round) in c.votes && c.votes[(p, s.round)].candidate == s.id)
  }

  ghost predicate VoterOk(c: Cluster, v: nat, r: nat, l: Leadership) {
    && v < c.n && (v, r) in c.votes
    && c.votes[(v, r)].candidate == l.id && !c.votes[(v, r)].late
    && UpToDate(c.votes[(v, r)].log, |l.base|, RoundAt(l.base, |l.base|))
  }

  ghost predicate LeaderOk(c: Cluster, r: nat)
    requires r in c.leaders
  {
    var l := c.leaders[r];
    && l.id < c.n == |c.reps| && l.base <= l.log && GoodLog(c, l.log)
    && RoundsBelow(l.base, r)
    && (forall k :: |l.base| <= k < |l.log| ==> l.log[k].round == r)
    && r <= c.reps[l.id].round
    && (r == c.reps[l.id].round ==> c.reps[l.id].role == Leader)
    && (r > 0 ==> HasQuorum(c.n, |l.voters|) && forall v :: v in l.voters ==> VoterOk(c, v, r, l))
  }

  ghost predicate VoteOk(c: Cluster, v: nat, r: nat)
    requires (v, r) in c.votes
  {
    var vote := c.votes[(v, r)];
    && v < c.n == |c.reps| && 0 < r <= c.reps[v].round
    && GoodLog(c, vote.log)
    && (vote.late ==> r in c.leaders)
    && vote.candidate < c.n && (vote.candidate, r) in c.votes
    && var own := c.votes[(vote.candidate, r)];
       own.candidate == vote.candidate && UpToDate(vote.log, |own.log|, RoundAt(own.log, |own.log|))
  }

  ghost predicate MessageOk(c: Cluster, p: Output) {
    p.ToReplica? ==>
      && p.dst < c.n == |c.reps|
      && match p.msg
         case Probe(r, l, index, round) =>
           && l < c.n && (l, r) in c.votes && c.votes[(l, r)].candidate == l
           && index == |c.votes[(l, r)].log| && round == RoundAt(c.votes[(l, r)].log, index)
         case Prepare(r, v, promised) =>
           && v < c.n && (promised ==> (v, r) in c.votes && c.votes[(v, r)].candidate == p.dst)
         case Propose(r, l, prev, prevRound, decide, trim, entries) =>
           && r in c.leaders && c.leaders[r].id == l && l != p.dst
           && Slice(c.leaders[r].log, prev, prevRound, entries)
         case Ack(r, v, success, index, next) =>
           && v < c.n
           && (success ==> r in c.leaders && index <= |c.leaders[r].log| && next == index + 1)
  }

  /** `entries` are what follows slot `prev` in `log`. */
  ghost predicate Slice(log: seq<Entry>, prev: nat, prevRound: nat, entries: seq<Entry>) {
    && prev + |entries| <= |log| && entries == log[prev..prev + |entries|]
    && prevRound == RoundAt(log, prev)
  }

  /** What a replica has acknowledged it still holds, unless a later leader started without it. */
  ghost predicate RetainOk(c: Cluster) {
    forall s: nat, r: nat, k: nat :: Acked(c, s, r, k) ==>
      && s < |c.reps| && r <= c.reps[s].round
      && (Has(c, c.reps[s].log, r, k) || Lost(c, r, k, c.reps[s].round))
  }

  /** ... and still held it in each later round it voted in. */
  ghost predicate VotesRetainOk(c: Cluster) {
    forall s: nat, r: nat, k: nat, w: nat :: Acked(c, s, r, k) && (s, w) in c.votes && r < w && !c.votes[(s, w)].late ==>
      Has(c, c.votes[(s, w)].log, r, k) || Lost(c, r, k, w - 1)
  }

  ghost predicate Inv(c: Cluster) {
    && |c.reps| == c.n > 0 && 0 in c.leaders
    && (forall i :: 0 <= i < c.n ==> RepOk(c, i))
    && (forall r :: r in c.leaders ==> LeaderOk(c, r))
    && (forall v, r :: (v, r) in c.votes ==> VoteOk(c, v, r))
    && (forall p :: p in c.sent ==> MessageOk(c, p))
    && RetainOk(c) && VotesRetainOk(c)
    && (forall p :: p in c.net ==> p in c.sent)
  }

  lemma InitialInv(n: nat, leader: nat)
    requires leader < n
    ensures Inv(Initial(n, leader))
  {
  }

  lemma InvMakesReady(c: Cluster, e: Event)
    requires Inv(c) && Enabled(c, e)
    ensures Ready(c, e)
  {
    match e
    case Deliver(p) => assert MessageOk(c, p); assert RepOk(c, p.dst);
    case Client(i, _) => assert RepOk(c, i);
    case Timeout(i) => assert RepOk(c, i);
    case Drop(_) =>
  }
}
