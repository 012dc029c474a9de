/** A run of three replicas, with no message forged or duplicated, in which two of them apply
    different requests at slot 17: the commit rule of pset4/pt-paxos.cc:784-786 is not safe.

    Replica 0, the appointed leader, replicates slots 1 to 16. Replica 1 wins round 1, commits a
    request at slot 17 with replica 2 and answers its client. Only now does another request reach
    replica 0, which still believes to lead round 0 and keeps it at slot 17. Replica 2 wins round 2
    and sends seventeen heartbeats to replica 0, which refuses them all; the seventeen
    refusals make the leader back off to the start of the log. Its next batch of sixteen entries
    matches replica 0's log, and replica 0 commits through slot 17: its own, stale entry. */
module PaxosCounterexample {
  import opened Options
  import opened PancyDb
  import opened PaxosSpec
  import opened PaxosCluster
  import opened PaxosLeader
  import opened PaxosHandlers
  import opened PaxosProgress
  import opened PaxosSafety
  import opened PaxosAgreement
  import opened PaxosPending
  import opened PaxosMachine
  import opened DocOps
  import opened Codec

  ghost function Old(k: nat): Request { Get(k, "") }

  ghost function Shared(k: nat): seq<Entry> {
    seq(k, i requires 0 <= i => Entry(i + 1, 0, Old(i + 1)))
  }

  /** A client commits the insertion of one character into document d. */
  ghost const EDIT := Put(17, OpKey("d", 0, 1), Serialize(Insert(0, "a")), -1)

  ghost const STALE := Entry(17, 0, EDIT)
  ghost const FRESH := Entry(17, 1, Old(100))

  /** A replica of the three that has applied all it has committed and trimmed nothing. */
  ghost predicate Looks(s: Rep, id: nat, role: Role, round: nat, promised: Option<nat>, log: seq<Entry>, commit: nat) {
    && Shape(s) && s.id == id && s.n == 3 && s.role == role && s.round == round && s.promised == promised
    && s.log == log && s.commit == s.applied == commit && s.trim == 0
  }

  ghost predicate AllOnes(xs: seq<nat>, low: nat) {
    forall i :: 0 <= i < |xs| ==> low <= xs[i]
  }

  // ----- single handler calls -----

  lemma OneMorePeer(s: Rep, k: nat, o: seq<Output>, p: seq<Output>)
    requires 0 < k <= s.n == |s.nextIndex| && BroadcastTo(s, k - 1) == (s, o) && SendPropose(s, k - 1) == (s, p)
    ensures BroadcastTo(s, k) == (s, o + p)
  {
  }

  // What is sent to one peer, and to the first k peers; kept folded, each fact with its own key.

  ghost predicate KeyOfSends(s: Rep, p: nat, n: nat) {
    true
  }

  ghost predicate Sends(s: Rep, p: nat, o: seq<Output>)
    requires p < s.n == |s.nextIndex|
  {
    forall n {:trigger KeyOfSends(s, p, n)} :: KeyOfSends(s, p, n) ==> SendPropose(s, p) == (s, o)
  }

  ghost predicate KeyOfSpread(s: Rep, k: nat, n: nat) {
    true
  }

  ghost predicate Spread(s: Rep, k: nat, o: seq<Output>)
    requires k <= s.n == |s.nextIndex|
  {
    forall n {:trigger KeyOfSpread(s, k, n)} :: KeyOfSpread(s, k, n) ==> BroadcastTo(s, k) == (s, o)
  }

  lemma SpreadNone(s: Rep)
    requires s.n == |s.nextIndex|
    ensures Spread(s, 0, [])
  {
  }

  lemma SpreadOne(s: Rep, k: nat, o: seq<Output>, p: seq<Output>)
    requires 0 < k <= s.n == |s.nextIndex| && Spread(s, k - 1, o) && Sends(s, k - 1, p)
    ensures Spread(s, k, o + p)
  {
    assert KeyOfSpread(s, k - 1, 0) && KeyOfSends(s, k - 1, 0);
    OneMorePeer(s, k, o, p);
  }

  lemma SendsSilently(s: Rep, p: nat) returns (o: seq<Output>)
    requires p < s.n == |s.nextIndex| && s.role == Leader && s.trim == 0 && AllOnes(s.nextIndex, 1)
    ensures Sends(s, p, o)
  {
    SilentProposal(s, p);
    o := SendPropose(s, p).1;
  }

  lemma {:induction false} SpreadAll(s: Rep, k: nat) returns (o: seq<Output>)
    requires k <= s.n == |s.nextIndex| && s.role == Leader && s.trim == 0 && AllOnes(s.nextIndex, 1)
    ensures Spread(s, k, o)
  {
    if k == 0 {
      o := [];
      SpreadNone(s);
    } else {
      o := SpreadAll(s, k - 1);
      var p := SendsSilently(s, k - 1);
      SpreadOne(s, k, o, p);
      o := o + p;
    }
  }

  lemma {:induction false} SpreadTo(s: Rep, k: nat, p: nat, m: Output) returns (o: seq<Output>)
    requires p < k <= s.n == |s.nextIndex| && s.role == Leader && s.trim == 0 && AllOnes(s.nextIndex, 1)
    requires Sends(s, p, [m])
    ensures Spread(s, k, o) && m in o
  {
    if p < k - 1 {
      o := SpreadTo(s, k - 1, p, m);
      var q := SendsSilently(s, k - 1);
      SpreadOne(s, k, o, q);
      o := o + q;
    } else {
      o := SpreadAll(s, k - 1);
      SpreadOne(s, k, o, [m]);
      o := o + [m];
    }
  }

  lemma SilentBroadcast(s: Rep, k: nat)
    requires k <= s.n == |s.nextIndex| && s.role == Leader && s.trim == 0 && AllOnes(s.nextIndex, 1)
    ensures BroadcastTo(s, k).0 == s
    ensures forall p :: 0 <= p < k && p != s.id ==>
              |SendPropose(s, p).1| == 1
              && SendPropose(s, p).1[0] in BroadcastTo(s, k).1
  {
    var all := SpreadAll(s, k);
    Unspread(s, k, all);
    forall p | 0 <= p < k && p != s.id
      ensures |SendPropose(s, p).1| == 1 && SendPropose(s, p).1[0] in BroadcastTo(s, k).1
    {
      SilentProposal(s, p);
      var o := SpreadTo(s, k, p, SendPropose(s, p).1[0]);
      Unspread(s, k, o);
    }
  }

  lemma Unspread(s: Rep, k: nat, o: seq<Output>)
    requires k <= s.n == |s.nextIndex| && Spread(s, k, o)
    ensures BroadcastTo(s, k) == (s, o)
  {
    assert KeyOfSpread(s, k, 0);
  }

  lemma SilentProposal(s: Rep, p: nat)
    requires p < s.n == |s.nextIndex| && s.role == Leader && s.trim == 0 && AllOnes(s.nextIndex, 1)
    ensures SendPropose(s, p).0 == s && (p != s.id ==> |SendPropose(s, p).1| == 1)
  {
    assert s.nextIndex[p := s.nextIndex[p]] == s.nextIndex;
  }

  /** A leader that knows of no follower holding slots above its commit index advances nothing. */
  lemma NothingToAdvance(s: Rep)
    requires Shape(s) && s.n == 3 && s.role == Leader && s.applied == s.commit && s.commit <= TRIM_RETENTION
    requires forall p :: 0 <= p < 3 && p != s.id ==> s.matchIndex[p] <= s.commit
    ensures Advance(s) == (s, [])
  {
    CommitScanIsHighest(s, |s.log|);
    forall k | s.commit < k ensures !Committable(s, k) { assert Holders(s, k) == {s.id}; }
  }

  lemma QuietFlush(s: Rep)
    requires Shape(s) && s.n == 3 && s.role == Leader && s.applied == s.commit && s.commit <= TRIM_RETENTION && s.trim == 0
    requires 0 < |s.queue| <= 16 && AllOnes(s.nextIndex, 1)
    requires forall p :: 0 <= p < 3 && p != s.id ==> s.matchIndex[p] <= s.commit
    ensures var a := AppendQueued(s);
            && Flush(s).0 == a && a.queue == []
            && forall p :: 0 <= p < 3 && p != s.id ==> SendPropose(a, p).1[0] in Flush(s).1
  {
    var a := AppendQueued(s);
    SilentBroadcast(a, 3);
    NothingToAdvance(a);
    var (b, o) := FlushBatch(s);
    assert b == a && o == Broadcast(a).1 + [];
    FlushBatchKeeps(s);
    assert Flush(b) == (b, []);
    assert Flush(s).1 == o + [];
  }

  /** Accepting with no trim request: only the commit index and what it applies change. */
  lemma AcceptedKeeps(g: Rep, m: Message)
    requires Shape(g) && m.Propose? && m.trim <= g.trim && g.applied == g.commit
    ensures var (t, commit) := (Accepted(g, m).0, if m.decide > g.commit then Min(m.decide, |g.log|) else g.commit);
            && t == g.(commit := commit, applied := commit, machine := t.machine, inFlight := t.inFlight, busy := t.busy)
            && (commit == g.commit ==> t == g)
            && (g.role == Follower && g.inFlight == map[] ==> t.busy == g.busy)
  {
    var h := g.(commit := if m.decide > g.commit then Min(m.decide, |g.log|) else g.commit);
    ApplyKeeps(h);
    FollowerKeepsBusy(h);
  }

  lemma FollowerKeepsBusy(s: Rep)
    requires s.applied <= s.commit <= |s.log|
    ensures s.role == Follower ==> ApplyCommitted(s).0.busy == s.busy
    decreases s.commit - s.applied
  {
    if s.applied < s.commit { FollowerKeepsBusy(ApplyNext(s).0); }
  }

  /** A follower that accepts a batch. */
  lemma Accepts(s: Rep, id: nat, role: Role, round: nat, promised: Option<nat>, log: seq<Entry>, commit: nat,
                m: Message, merged: seq<Entry>)
    requires Looks(s, id, role, round, promised, log, commit) && m.Propose? && m.trim == 0 && m.round >= round
    requires PrefixMatches(s, m.prevIndex, m.prevRound) && m.prevIndex <= |log|
    requires Merge(log, commit, m.prevIndex, m.entries) == Merged(merged)
    ensures var (t, outs) := HandlePropose(s, m);
            var got := m.prevIndex + |m.entries|;
            && Looks(t, id, Follower, m.round, if m.round > round then None else promised, merged,
                     if m.decide > commit then Min(m.decide, |merged|) else commit)
            && ToReplica(m.leader, Ack(m.round, id, true, got, got + 1)) in outs
            && t.queue == [] && t.busy == {} && (t.commit == commit ==> t.machine == s.machine)
  {
    var f := BecomeFollower(s, m.round, m.leader);
    MergeKeepsCommitted(log, commit, m.prevIndex, m.entries);
    AcceptedKeeps(f.(log := merged), m);
    assert HandlePropose(s, m) == AppendChecked(f, m);
  }

  // ----- runs, one event at a time -----

  /** A run and what its last state looks like. */
  ghost predicate At(cs: seq<Cluster>, es: seq<Event>) {
    IsRun(3, 0, cs, es) && |cs[|cs| - 1].reps| == 3 == cs[|cs| - 1].n
  }

  ghost function Now(cs: seq<Cluster>): Cluster
    requires cs != []
  {
    cs[|cs| - 1]
  }

  /** `d` is `c` after replica `t.id` has moved to `t`, taking `taken` from the network and adding `outs`. */
  ghost predicate Moved(c: Cluster, d: Cluster, t: Rep, taken: multiset<Output>, outs: seq<Output>) {
    t.id < |c.reps| && d.reps == c.reps[t.id := t] && d.net == c.net - taken + multiset(outs)
  }

  ghost predicate CanTake(s: Rep, e: Event) {
    && !e.Drop? && Shape(s) && s.id == Target(e)
    && (e.Deliver? ==> e.packet.ToReplica? && (e.packet.msg.Prepare? || e.packet.msg.Ack? ==> e.packet.msg.server < s.n))
  }

  /** What a replica does with an event. */
  ghost function Answer(s: Rep, e: Event): (Rep, seq<Output>)
    requires CanTake(s, e)
  {
    match e
    case Deliver(p) => HandleReplicaMessage(s, p.msg)
    case Client(_, req) => HandleClient(s, req)
    case Timeout(_) => HandleTimeout(s)
  }

  /** The event takes the replica from s to t with these outputs. Kept folded, so that the run is put
      together without looking into the handlers again. */
  ghost predicate Gives(s: Rep, e: Event, t: Rep, outs: seq<Output>) {
    forall n {:trigger Unfold(n)} :: Unfold(n) ==> CanTake(s, e) && Answer(s, e) == (t, outs)
  }

  lemma Take(s: Rep, e: Event) returns (t: Rep, outs: seq<Output>)
    requires CanTake(s, e)
    ensures Gives(s, e, t, outs) && (t, outs) == Answer(s, e)
  {
    t, outs := Answer(s, e).0, Answer(s, e).1;
  }

  lemma Act(cs: seq<Cluster>, es: seq<Event>, e: Event, t: Rep, outs: seq<Output>) returns (ds: seq<Cluster>, fs: seq<Event>)
    requires At(cs, es) && Enabled(Now(cs), e) && !e.Drop?
    requires Target(e) < 3 && Gives(Now(cs).reps[Target(e)], e, t, outs)
    ensures At(ds, fs) && cs < ds
    ensures t.id == Target(e) && Moved(Now(cs), Now(ds), t, if e.Deliver? then multiset{e.packet} else multiset{}, outs)
    ensures Now(ds).received == Now(cs).received + (if e.Client? then {e.req.serial} else {})
    ensures Now(cs).sent <= Now(ds).sent && forall o :: o in outs ==> o in Now(ds).sent
  {
    RunHolds(3, 0, cs, es, |cs| - 1);
    var d := OneStep(Now(cs), e, t, outs);
    ds, fs := cs + [d], es + [e];
    RunGrows(cs, es, e, d);
  }

  lemma OneStep(c: Cluster, e: Event, t: Rep, outs: seq<Output>) returns (d: Cluster)
    requires Held(c) && Enabled(c, e) && !e.Drop? && |c.reps| == 3 == c.n
    requires Target(e) < 3 && Gives(c.reps[Target(e)], e, t, outs)
    ensures StepsTo(c, e, d) && |d.reps| == 3 == d.n && t.id == Target(e)
    ensures Moved(c, d, t, if e.Deliver? then multiset{e.packet} else multiset{}, outs)
    ensures d.received == c.received + (if e.Client? then {e.req.serial} else {})
    ensures c.sent <= d.sent && forall o :: o in outs ==> o in d.sent
  {
    StepReady(c, e, t, outs);
    d := Observe(Arrive(c, e), t, outs);
  }

  lemma StepReady(c: Cluster, e: Event, t: Rep, outs: seq<Output>)
    requires Held(c) && Enabled(c, e) && !e.Drop? && |c.reps| == 3 == c.n
    requires Target(e) < 3 && Gives(c.reps[Target(e)], e, t, outs)
    ensures t.id == Target(e) && StepsTo(c, e, Observe(Arrive(c, e), t, outs))
  {
    assert Unfold(0);
    InvMakesReady(c, e);
    HandlerProgress(c, e);
  }

  lemma RunGrows(cs: seq<Cluster>, es: seq<Event>, e: Event, d: Cluster)
    requires At(cs, es) && StepsTo(Now(cs), e, d) && |d.reps| == 3 == d.n
    ensures At(cs + [d], es + [e])
  {
    var ds, fs := cs + [d], es + [e];
    forall i {:trigger fs[i]} | 0 <= i < |fs| ensures StepsTo(ds[i], fs[i], ds[i + 1]) {
      if i < |es| { assert StepsTo(cs[i], es[i], cs[i + 1]) by { assert es[i] == fs[i]; } }
    }
  }

  /** Before the edit arrives. */
  ghost predicate Early(cs: seq<Cluster>, es: seq<Event>) {
    At(cs, es) && EDIT.serial !in Now(cs).received
  }

  lemma ActEarly(cs: seq<Cluster>, es: seq<Event>, e: Event, t: Rep, outs: seq<Output>)
    returns (ds: seq<Cluster>, fs: seq<Event>)
    requires Early(cs, es) && Enabled(Now(cs), e) && !e.Drop? && (e.Client? ==> e.req.serial != EDIT.serial)
    requires Target(e) < 3 && Gives(Now(cs).reps[Target(e)], e, t, outs)
    ensures Early(ds, fs) && forall o :: o in outs ==> o in Now(ds).sent
    ensures t.id == Target(e) && Moved(Now(cs), Now(ds), t, if e.Deliver? then multiset{e.packet} else multiset{}, outs)
  {
    ds, fs := Act(cs, es, e, t, outs);
  }

  /** Serial 100 has been answered, and the edit has not arrived. */
  ghost predicate Answered(c: Cluster) {
    EDIT.serial !in c.received && exists resp :: ToClient(resp) in c.sent && !resp.Redirection? && resp.serial == 100
  }

  /** After that. */
  ghost predicate Late(cs: seq<Cluster>, es: seq<Event>) {
    At(cs, es) && exists i :: 0 <= i < |cs| && Answered(cs[i])
  }

  lemma ActLate(cs: seq<Cluster>, es: seq<Event>, e: Event, t: Rep, outs: seq<Output>)
    returns (ds: seq<Cluster>, fs: seq<Event>)
    requires Late(cs, es) && Enabled(Now(cs), e) && !e.Drop?
    requires Target(e) < 3 && Gives(Now(cs).reps[Target(e)], e, t, outs)
    ensures Late(ds, fs)
    ensures t.id == Target(e) && Moved(Now(cs), Now(ds), t, if e.Deliver? then multiset{e.packet} else multiset{}, outs)
  {
    var i :| 0 <= i < |cs| && Answered(cs[i]);
    ds, fs := Act(cs, es, e, t, outs);
    assert ds[i] == cs[i];
  }

  ghost function QueueOf(k: nat): seq<Request> {
    seq(k, i requires 0 <= i => Old(i + 1))
  }

  /** Nothing applied, nothing known of the followers. */
  ghost predicate Fresh(s: Rep) {
    s.machine.cache == map[] && |s.matchIndex| == 3 == |s.nextIndex| && s.id < 3 && AllOnes(s.nextIndex, 1)
    && forall p :: 0 <= p < 3 && p != s.id ==> s.matchIndex[p] == 0
  }

  /** The appointed leader with requests waiting. */
  ghost predicate Queued(s: Rep, log: seq<Entry>, queue: seq<Request>, top: nat) {
    && Looks(s, 0, Leader, 0, Some(0), log, 0) && Fresh(s) && s.queue == queue
    && s.nextIndex[1] == s.nextIndex[2] == 1
    && forall x :: x in s.busy ==> x <= top
  }

  ghost predicate Start(c: Cluster, s: Rep) {
    |c.reps| == 3 && c.reps[0] == s && c.reps[1] == InitialRep(1, 3, 0) && c.reps[2] == InitialRep(2, 3, 0)
  }

  lemma Enqueue(s: Rep, log: seq<Entry>, queue: seq<Request>, top: nat, req: Request)
    requires Queued(s, log, queue, top) && req.serial > top && |queue| < 16
    ensures var a := s.(busy := s.busy + {req.serial}, queue := queue + [req]);
            && Queued(a, log, queue + [req], req.serial)
            && HandleClient(s, req) == if |queue| == 15 then Flush(a) else (a, [])
  {
  }

  lemma TakesRequest(s: Rep, log: seq<Entry>, queue: seq<Request>, top: nat, req: Request) returns (t: Rep, outs: seq<Output>)
    requires Queued(s, log, queue, top) && req.serial > top && |queue| < 15
    ensures Gives(s, Client(0, req), t, outs) && Queued(t, log, queue + [req], req.serial)
  {
    Enqueue(s, log, queue, top, req);
    t, outs := Take(s, Client(0, req));
  }

  lemma Fill(k: nat) returns (cs: seq<Cluster>, es: seq<Event>)
    requires k < 16
    ensures Early(cs, es) && Start(Now(cs), Now(cs).reps[0]) && Queued(Now(cs).reps[0], [], QueueOf(k), k)
  {
    if k == 0 {
      cs, es := [Initial(3, 0)], [];
      assert QueueOf(0) == [];
    } else {
      var bs, ds := Fill(k - 1);
      var t, outs := TakesRequest(Now(bs).reps[0], [], QueueOf(k - 1), k - 1, Old(k));
      cs, es := ActEarly(bs, ds, Client(0, Old(k)), t, outs);
      assert QueueOf(k - 1) + [Old(k)] == QueueOf(k);
    }
  }

  ghost function FirstBatch(p: nat): Output {
    ToReplica(p, Propose(0, 0, 0, 0, 0, 0, Shared(16)))
  }

  lemma FlushSixteen(a: Rep)
    requires Queued(a, [], QueueOf(16), 16) && a.nextIndex[1] == a.nextIndex[2] == 1
    ensures Queued(Flush(a).0, Shared(16), [], 16)
    ensures FirstBatch(1) in Flush(a).1 && FirstBatch(2) in Flush(a).1
  {
    QuietFlush(a);
    var b := AppendQueued(a);
    AppendSixteen(a);
    FirstBatchSent(b, 1);
    FirstBatchSent(b, 2);
  }

  lemma AppendSixteen(a: Rep)
    requires Queued(a, [], QueueOf(16), 16)
    ensures Queued(AppendQueued(a), Shared(16), [], 16) && AppendQueued(a).nextIndex[1..] == a.nextIndex[1..]
  {
    forall i | 0 <= i < 16 ensures NewEntries(a, 16)[i] == Shared(16)[i] { }
    assert [] + NewEntries(a, 16) == Shared(16);
    assert a.queue[16..] == [];
  }

  lemma FirstBatchSent(b: Rep, p: nat)
    requires Queued(b, Shared(16), [], 16) && 1 <= p < 3 && b.nextIndex[p] == 1
    ensures SendPropose(b, p).1 == [FirstBatch(p)]
  {
    assert Batch(Shared(16), 0) == Shared(16);
  }

  ghost predicate Flushes(a: Rep, t: Rep, outs: seq<Output>) {
    forall n {:trigger Unfold(n)} :: Unfold(n) ==> Shape(a) && Flush(a) == (t, outs)
  }

  lemma FlushSixteenth(a: Rep) returns (t: Rep, outs: seq<Output>)
    requires Queued(a, [], QueueOf(16), 16)
    ensures Flushes(a, t, outs) && Queued(t, Shared(16), [], 16)
    ensures FirstBatch(1) in outs && FirstBatch(2) in outs
  {
    FlushSixteen(a);
    t, outs := Flush(a).0, Flush(a).1;
  }

  lemma SixteenthFlushes(s: Rep, a: Rep, req: Request, t: Rep, outs: seq<Output>)
    requires Queued(s, [], s.queue, 15) && |s.queue| == 15 && req.serial == 16
    requires a == s.(busy := s.busy + {16}, queue := s.queue + [req]) && Flushes(a, t, outs)
    ensures Gives(s, Client(0, req), t, outs)
  {
    assert Unfold(0);
    Enqueue(s, [], s.queue, 15, req);
  }

  lemma TakesSixteenth(s: Rep) returns (t: Rep, outs: seq<Output>)
    requires Queued(s, [], QueueOf(15), 15)
    ensures Gives(s, Client(0, Old(16)), t, outs) && Queued(t, Shared(16), [], 16)
    ensures FirstBatch(1) in outs && FirstBatch(2) in outs
  {
    var a := s.(busy := s.busy + {16}, queue := QueueOf(15) + [Old(16)]);
    assert QueueOf(15) + [Old(16)] == QueueOf(16);
    t, outs := FlushSixteenth(a);
    SixteenthFlushes(s, a, Old(16), t, outs);
  }

  lemma SixteenAppended() returns (cs: seq<Cluster>, es: seq<Event>)
    ensures Early(cs, es) && Start(Now(cs), Now(cs).reps[0]) && Queued(Now(cs).reps[0], Shared(16), [], 16)
    ensures FirstBatch(1) in Now(cs).net && FirstBatch(2) in Now(cs).net
  {
    var bs, ds := Fill(15);
    var t, outs := TakesSixteenth(Now(bs).reps[0]);
    cs, es := ActEarly(bs, ds, Client(0, Old(16)), t, outs);
  }

  // ----- the first sixteen slots reach both followers, the seventeenth reaches nobody -----

  ghost function L0(): seq<Entry> { Shared(16) + [STALE] }
  ghost function L1(): seq<Entry> { Shared(16) + [FRESH] }

  /** A follower with an empty machine and nothing pending. */
  ghost predicate Blank(s: Rep) {
    s.machine.cache == map[] && s.queue == [] && s.busy == {}
  }

  lemma TakeFirstBatch(p: nat, s: Rep) returns (t: Rep, outs: seq<Output>)
    requires 1 <= p < 3 && s == InitialRep(p, 3, 0)
    ensures Gives(s, Deliver(FirstBatch(p)), t, outs) && Looks(t, p, Follower, 0, None, Shared(16), 0) && Blank(t)
  {
    var m := FirstBatch(p).msg;
    EmptyHasNoConflict(m.entries, 0);
    assert [] + m.entries[0..] == Shared(16);
    Accepts(s, p, Follower, 0, None, [], 0, m, Shared(16));
    t, outs := Take(s, Deliver(FirstBatch(p)));
  }

  lemma EmptyHasNoConflict(entries: seq<Entry>, i: nat)
    requires i <= |entries|
    ensures FirstConflict([], 0, entries, i) == None
  {
  }

  lemma BothHaveSixteen() returns (cs: seq<Cluster>, es: seq<Event>)
    ensures Early(cs, es) && Queued(Now(cs).reps[0], Shared(16), [], 16) && FollowersHaveSixteen(Now(cs))
  {
    cs, es := SixteenAppended();
    var t, outs := TakeFirstBatch(1, Now(cs).reps[1]);
    cs, es := ActEarly(cs, es, Deliver(FirstBatch(1)), t, outs);
    var u, more := TakeFirstBatch(2, Now(cs).reps[2]);
    cs, es := ActEarly(cs, es, Deliver(FirstBatch(2)), u, more);
  }

  ghost predicate FollowersHaveSixteen(c: Cluster)
    requires |c.reps| == 3
  {
    forall p :: 1 <= p < 3 ==> Looks(c.reps[p], p, Follower, 0, None, Shared(16), 0) && Blank(c.reps[p])
  }

  // ----- elections -----

  /** A replica asks for votes ... */
  lemma Campaign(s: Rep, id: nat, round: nat, promised: Option<nat>, log: seq<Entry>, commit: nat)
    returns (t: Rep, outs: seq<Output>)
    requires Looks(s, id, Follower, round, promised, log, commit)
    ensures Gives(s, Timeout(id), t, outs)
    ensures Looks(t, id, Candidate, round + 1, Some(id), log, commit) && t.prepareOk == Filled(3, false)[id := true]
    ensures t.machine == s.machine && t.queue == s.queue && t.busy == s.busy
    ensures var probe := Probe(round + 1, id, |log|, RoundAt(log, |log|));
            forall p :: 0 <= p < 3 && p != id ==> ToReplica(p, probe) in outs
  {
    var c := s.(role := Candidate, round := s.round + 1, leaderHint := s.id, promised := Some(s.id),
                prepareOk := Filled(s.n, false)[s.id := true]);
    ToPeersReach(c, Probe(round + 1, id, |log|, RoundAt(log, |log|)), 3);
    t, outs := Take(s, Timeout(id));
  }

  lemma ToPeersReach(s: Rep, m: Message, k: nat)
    ensures forall p :: 0 <= p < k && p != s.id ==> ToReplica(p, m) in ToPeers(s, m, k)
  {
  }

  /** ... another grants it ... */
  lemma Grants(s: Rep, id: nat, role: Role, round: nat, promised: Option<nat>, log: seq<Entry>, commit: nat, m: Message)
    returns (t: Rep, outs: seq<Output>)
    requires Looks(s, id, role, round, promised, log, commit) && m.Probe? && m.round > round
    requires UpToDate(log, m.lastIndex, m.lastRound)
    ensures Gives(s, Deliver(ToReplica(id, m)), t, outs)
    ensures Looks(t, id, Follower, m.round, Some(m.leader), log, commit)
    ensures outs == [ToReplica(m.leader, Prepare(m.round, id, true))]
  {
    t, outs := Take(s, Deliver(ToReplica(id, m)));
  }

  /** ... and with two promises of three it leads. */
  lemma Wins(s: Rep, id: nat, round: nat, log: seq<Entry>, commit: nat, v: nat) returns (t: Rep, outs: seq<Output>)
    requires Looks(s, id, Candidate, round, Some(id), log, commit) && s.prepareOk == Filled(3, false)[id := true]
    requires v < 3 && v != id
    ensures Gives(s, Deliver(ToReplica(id, Prepare(round, v, true))), t, outs)
    ensures Looks(t, id, Leader, round, Some(id), log, commit)
    ensures t.nextIndex == Filled(3, |log| + 1) && t.matchIndex == Filled(3, 0)[id := |log|]
    ensures t.machine == s.machine && t.queue == s.queue && t.busy == s.busy
    ensures forall p :: 0 <= p < 3 && p != id ==> SendPropose(t, p).1[0] in outs
  {
    var a := s.(prepareOk := s.prepareOk[v := true]);
    assert Promisers(a) == {id, v};
    var b := BecomeLeader(a);
    assert b.nextIndex == Filled(3, |log| + 1);
    SilentBroadcast(b, 3);
    t, outs := Take(s, Deliver(ToReplica(id, Prepare(round, v, true))));
  }

  ghost const PROBE1 := ToReplica(2, Probe(1, 1, 16, 0))
  ghost const GRANT1 := ToReplica(1, Prepare(1, 2, true))

  /** Replica 1 has called an election; replica 2's vote is `vote`. */
  ghost predicate RoundOneOpen(c: Cluster, vote: bool)
    requires |c.reps| == 3
  {
    && Queued(c.reps[0], Shared(16), [], 16)
    && Looks(c.reps[1], 1, Candidate, 1, Some(1), Shared(16), 0) && Blank(c.reps[1])
    && c.reps[1].prepareOk == Filled(3, false)[1 := true]
    && (if vote then Looks(c.reps[2], 2, Follower, 1, Some(1), Shared(16), 0) && GRANT1 in c.net
        else Looks(c.reps[2], 2, Follower, 0, None, Shared(16), 0) && PROBE1 in c.net)
  }

  lemma LastRounds()
    ensures RoundAt(Shared(16), 16) == 0 && RoundAt(L0(), 17) == 0 && RoundAt(L1(), 17) == 1
    ensures |Shared(16)| == 16 && |L0()| == |L1()| == 17
  {
  }

  lemma RoundOneCalled() returns (cs: seq<Cluster>, es: seq<Event>)
    ensures Early(cs, es) && RoundOneOpen(Now(cs), false)
  {
    cs, es := BothHaveSixteen();
    var t, outs := Campaign(Now(cs).reps[1], 1, 0, None, Shared(16), 0);
    LastRounds();
    cs, es := ActEarly(cs, es, Timeout(1), t, outs);
  }

  lemma RoundOneGranted() returns (cs: seq<Cluster>, es: seq<Event>)
    ensures Early(cs, es) && RoundOneOpen(Now(cs), true)
  {
    cs, es := RoundOneCalled();
    LastRounds();
    var t, outs := Grants(Now(cs).reps[2], 2, Follower, 0, None, Shared(16), 0, PROBE1.msg);
    cs, es := ActEarly(cs, es, Deliver(PROBE1), t, outs);
  }

  lemma RoundOneWon() returns (cs: seq<Cluster>, es: seq<Event>)
    ensures Early(cs, es) && Queued(Now(cs).reps[0], Shared(16), [], 16)
    ensures var a := Now(cs).reps[1];
            Looks(a, 1, Leader, 1, Some(1), Shared(16), 0) && Blank(a)
            && a.nextIndex == Filled(3, 17) && a.matchIndex == Filled(3, 0)[1 := 16]
    ensures Looks(Now(cs).reps[2], 2, Follower, 1, Some(1), Shared(16), 0)
  {
    cs, es := RoundOneGranted();
    var t, outs := Wins(Now(cs).reps[1], 1, 1, Shared(16), 0, 2);
    cs, es := ActEarly(cs, es, Deliver(GRANT1), t, outs);
  }

  // ----- another request is committed at slot 17 -----

  ghost const OFFER := ToReplica(2, Propose(1, 1, 16, 0, 0, 0, [FRESH]))

  lemma FreshEntry(s: Rep)
    requires Looks(s, 1, Leader, 1, Some(1), Shared(16), 0) && s.queue == [Old(100)]
    requires s.nextIndex == Filled(3, 17) && s.matchIndex == Filled(3, 0)[1 := 16]
    ensures var a := AppendQueued(s);
            && Looks(a, 1, Leader, 1, Some(1), L1(), 0)
            && a.nextIndex == Filled(3, 17)[1 := 18] && a.matchIndex == Filled(3, 0)[1 := 17]
            && SendPropose(a, 2).1[0] == OFFER
  {
    var a := AppendQueued(s);
    assert s.log + NewEntries(s, 1) == L1();
    assert Batch(L1(), 16) == [FRESH];
  }

  lemma FlushFresh(s: Rep) returns (t: Rep, outs: seq<Output>)
    requires Looks(s, 1, Leader, 1, Some(1), Shared(16), 0) && s.queue == [Old(100)]
    requires s.nextIndex == Filled(3, 17) && s.matchIndex == Filled(3, 0)[1 := 16]
    ensures Gives(s, Timeout(1), t, outs)
    ensures Looks(t, 1, Leader, 1, Some(1), L1(), 0) && t.queue == []
    ensures t.nextIndex == Filled(3, 17)[1 := 18] && t.matchIndex == Filled(3, 0)[1 := 17] && OFFER in outs
  {
    QuietFlush(s);
    FreshEntry(s);
    t, outs := Take(s, Timeout(1));
  }

  lemma TakesFresh(s: Rep) returns (t: Rep, outs: seq<Output>)
    requires Looks(s, 1, Leader, 1, Some(1), Shared(16), 0) && Blank(s)
    requires s.nextIndex == Filled(3, 17) && s.matchIndex == Filled(3, 0)[1 := 16]
    ensures Gives(s, Client(1, Old(100)), t, outs)
    ensures Looks(t, 1, Leader, 1, Some(1), Shared(16), 0) && t.queue == [Old(100)]
    ensures t.nextIndex == Filled(3, 17) && t.matchIndex == Filled(3, 0)[1 := 16]
  {
    t, outs := Take(s, Client(1, Old(100)));
  }

  lemma FreshQueued() returns (cs: seq<Cluster>, es: seq<Event>)
    ensures Early(cs, es) && Queued(Now(cs).reps[0], Shared(16), [], 16)
    ensures var a := Now(cs).reps[1];
            Looks(a, 1, Leader, 1, Some(1), Shared(16), 0) && a.queue == [Old(100)]
            && a.nextIndex == Filled(3, 17) && a.matchIndex == Filled(3, 0)[1 := 16]
    ensures Looks(Now(cs).reps[2], 2, Follower, 1, Some(1), Shared(16), 0)
  {
    cs, es := RoundOneWon();
    var t, outs := TakesFresh(Now(cs).reps[1]);
    cs, es := ActEarly(cs, es, Client(1, Old(100)), t, outs);
  }

  lemma FreshOffered() returns (cs: seq<Cluster>, es: seq<Event>)
    ensures Early(cs, es) && Queued(Now(cs).reps[0], Shared(16), [], 16)
    ensures var a := Now(cs).reps[1];
            Looks(a, 1, Leader, 1, Some(1), L1(), 0) && a.queue == []
            && a.nextIndex == Filled(3, 17)[1 := 18] && a.matchIndex == Filled(3, 0)[1 := 17]
    ensures Looks(Now(cs).reps[2], 2, Follower, 1, Some(1), Shared(16), 0) && OFFER in Now(cs).net
  {
    cs, es := FreshQueued();
    var t, outs := FlushFresh(Now(cs).reps[1]);
    cs, es := ActEarly(cs, es, Timeout(1), t, outs);
  }

  ghost const VOTE := ToReplica(1, Ack(1, 2, true, 17, 18))

  lemma TakeOffer(s: Rep) returns (t: Rep, outs: seq<Output>)
    requires Looks(s, 2, Follower, 1, Some(1), Shared(16), 0)
    ensures Gives(s, Deliver(OFFER), t, outs) && Looks(t, 2, Follower, 1, Some(1), L1(), 0) && VOTE in outs
  {
    assert FirstConflict(Shared(16), 16, [FRESH], 0) == None;
    assert Shared(16) + [FRESH][0..] == L1();
    Accepts(s, 2, Follower, 1, Some(1), Shared(16), 0, OFFER.msg, L1());
    t, outs := Take(s, Deliver(OFFER));
  }

  /** The leader learns of its quorum. */
  lemma QuorumAck(s: Rep) returns (t: Rep, outs: seq<Output>)
    requires Looks(s, 1, Leader, 1, Some(1), L1(), 0) && s.queue == []
    requires s.nextIndex == Filled(3, 17)[1 := 18] && s.matchIndex == Filled(3, 0)[1 := 17]
    ensures Gives(s, Deliver(VOTE), t, outs)
    ensures Looks(t, 1, Leader, 1, Some(1), L1(), 17) && t.queue == [] && t.nextIndex == Filled(3, 17)[1 := 18][2 := 18]
  {
    var a := Matched(s, VOTE.msg);
    assert Holders(a, 17) == {1, 2};
    assert CommitScan(a, 17) == 17;
    ApplyKeeps(UpdateCommit(a));
    var u := Advance(a).0;
    assert u.commit == 17 && u.nextIndex[2] == 18;
    t, outs := Take(s, Deliver(VOTE));
  }

  lemma OfferTaken() returns (cs: seq<Cluster>, es: seq<Event>)
    ensures Early(cs, es) && Queued(Now(cs).reps[0], Shared(16), [], 16)
    ensures var a := Now(cs).reps[1];
            Looks(a, 1, Leader, 1, Some(1), L1(), 0) && a.queue == []
            && a.nextIndex == Filled(3, 17)[1 := 18] && a.matchIndex == Filled(3, 0)[1 := 17]
    ensures Looks(Now(cs).reps[2], 2, Follower, 1, Some(1), L1(), 0) && VOTE in Now(cs).net
  {
    cs, es := FreshOffered();
    var t, outs := TakeOffer(Now(cs).reps[2]);
    cs, es := ActEarly(cs, es, Deliver(OFFER), t, outs);
  }

  lemma FreshCommitted() returns (cs: seq<Cluster>, es: seq<Event>)
    ensures Early(cs, es) && Queued(Now(cs).reps[0], Shared(16), [], 16)
    ensures var a := Now(cs).reps[1];
            Looks(a, 1, Leader, 1, Some(1), L1(), 17) && a.queue == [] && a.nextIndex == Filled(3, 17)[1 := 18][2 := 18]
    ensures Looks(Now(cs).reps[2], 2, Follower, 1, Some(1), L1(), 0)
  {
    cs, es := OfferTaken();
    var t, outs := QuorumAck(Now(cs).reps[1]);
    cs, es := ActEarly(cs, es, Deliver(VOTE), t, outs);
  }

  // ----- the client asks again and is answered -----

  lemma NoRedirections(log: seq<Entry>)
    ensures forall x :: x in PaxosMachine.Replay(log).cache ==> !PaxosMachine.Replay(log).cache[x].Redirection?
  {
    if log != [] { NoRedirections(log[..|log| - 1]); }
  }

  /** What replica 1 remembers for serial 100. */
  lemma Remembers(cs: seq<Cluster>, es: seq<Event>) returns (resp: Response)
    requires At(cs, es) && Looks(Now(cs).reps[1], 1, Leader, 1, Some(1), L1(), 17)
    ensures var cache := Now(cs).reps[1].machine.cache; 100 in cache && cache[100] == resp
    ensures !resp.Redirection? && resp.serial == 100
  {
    var s := Now(cs).reps[1];
    RunPending(3, 0, cs, es, |cs| - 1);
    assert MachineOk(s) && s.log[..17] == L1() == s.log;
    assert L1()[16].req.serial == 100;
    ReplayRemembers(L1());
    NoRedirections(L1());
    ReplayKeepsResponses(L1(), 0);
    resp := s.machine.cache[100];
  }

  lemma Repeats(s: Rep, resp: Response) returns (t: Rep, outs: seq<Output>)
    requires Shape(s) && s.id == 1 && s.role == Leader && 100 in s.machine.cache && s.machine.cache[100] == resp
    ensures Gives(s, Client(1, Old(100)), t, outs) && t == s && outs == [ToClient(resp)]
  {
    t, outs := Take(s, Client(1, Old(100)));
  }

  lemma FreshAnswered() returns (cs: seq<Cluster>, es: seq<Event>)
    ensures Late(cs, es) && Queued(Now(cs).reps[0], Shared(16), [], 16)
    ensures var a := Now(cs).reps[1];
            Looks(a, 1, Leader, 1, Some(1), L1(), 17) && a.queue == [] && a.nextIndex == Filled(3, 17)[1 := 18][2 := 18]
    ensures Looks(Now(cs).reps[2], 2, Follower, 1, Some(1), L1(), 0)
  {
    cs, es := FreshCommitted();
    var resp := Remembers(cs, es);
    var t, outs := Repeats(Now(cs).reps[1], resp);
    cs, es := ActEarly(cs, es, Client(1, Old(100)), t, outs);
    assert ToClient(resp) in Now(cs).sent;
    assert Answered(cs[|cs| - 1]);
  }

  // ----- the edit arrives and stays with replica 0 -----

  lemma FlushStale(s: Rep) returns (t: Rep, outs: seq<Output>)
    requires Queued(s, Shared(16), [EDIT], 17)
    ensures Gives(s, Timeout(0), t, outs) && Looks(t, 0, Leader, 0, Some(0), L0(), 0)
  {
    QuietFlush(s);
    StaleEntry(s);
    t, outs := Take(s, Timeout(0));
  }

  lemma StaleEntry(s: Rep)
    requires Queued(s, Shared(16), [EDIT], 17)
    ensures AppendQueued(s).log == L0()
  {
    assert s.log + NewEntries(s, 1) == L0();
  }

  /** Everyone else as `FreshAnswered` leaves them. */
  ghost predicate RoundOneDone(c: Cluster)
    requires |c.reps| == 3
  {
    var a := c.reps[1];
    && Looks(a, 1, Leader, 1, Some(1), L1(), 17) && a.queue == [] && a.nextIndex == Filled(3, 17)[1 := 18][2 := 18]
    && Looks(c.reps[2], 2, Follower, 1, Some(1), L1(), 0)
  }

  lemma StaleQueued() returns (cs: seq<Cluster>, es: seq<Event>)
    ensures Late(cs, es) && Queued(Now(cs).reps[0], Shared(16), [EDIT], 17) && RoundOneDone(Now(cs))
  {
    cs, es := FreshAnswered();
    var t, outs := TakesRequest(Now(cs).reps[0], Shared(16), [], 16, EDIT);
    assert [] + [EDIT] == [EDIT];
    cs, es := ActLate(cs, es, Client(0, EDIT), t, outs);
  }

  lemma StaleAppended() returns (cs: seq<Cluster>, es: seq<Event>)
    ensures Late(cs, es) && Looks(Now(cs).reps[0], 0, Leader, 0, Some(0), L0(), 0) && RoundOneDone(Now(cs))
  {
    cs, es := StaleQueued();
    var t, outs := FlushStale(Now(cs).reps[0]);
    cs, es := ActLate(cs, es, Timeout(0), t, outs);
  }

  // ----- replica 2 learns of the commit -----

  ghost const TIDINGS := ToReplica(2, Propose(1, 1, 17, 1, 17, 0, []))

  /** An idle leader's broadcast tells the follower of the commit. */
  lemma SpreadsTidings(s: Rep) returns (t: Rep, outs: seq<Output>)
    requires Looks(s, 1, Leader, 1, Some(1), L1(), 17) && s.queue == [] && s.nextIndex == Filled(3, 17)[1 := 18][2 := 18]
    ensures Gives(s, Timeout(1), t, outs) && Looks(t, 1, Leader, 1, Some(1), L1(), 17) && TIDINGS in outs
  {
    SilentBroadcast(s, 3);
    LastRounds();
    assert SendPropose(s, 2).1[0] == TIDINGS;
    t, outs := Take(s, Timeout(1));
  }

  lemma TakeTidings(s: Rep) returns (t: Rep, outs: seq<Output>)
    requires Looks(s, 2, Follower, 1, Some(1), L1(), 0)
    ensures Gives(s, Deliver(TIDINGS), t, outs) && Looks(t, 2, Follower, 1, Some(1), L1(), 17) && t.queue == []
  {
    LastRounds();
    Accepts(s, 2, Follower, 1, Some(1), L1(), 0, TIDINGS.msg, L1());
    t, outs := Take(s, Deliver(TIDINGS));
  }

  lemma TidingsSpread() returns (cs: seq<Cluster>, es: seq<Event>)
    ensures Late(cs, es) && Looks(Now(cs).reps[0], 0, Leader, 0, Some(0), L0(), 0)
    ensures Looks(Now(cs).reps[1], 1, Leader, 1, Some(1), L1(), 17)
    ensures Looks(Now(cs).reps[2], 2, Follower, 1, Some(1), L1(), 0) && TIDINGS in Now(cs).net
  {
    cs, es := StaleAppended();
    var t, outs := SpreadsTidings(Now(cs).reps[1]);
    cs, es := ActLate(cs, es, Timeout(1), t, outs);
  }

  lemma CommitSpread() returns (cs: seq<Cluster>, es: seq<Event>)
    ensures Late(cs, es) && Looks(Now(cs).reps[0], 0, Leader, 0, Some(0), L0(), 0)
    ensures Looks(Now(cs).reps[1], 1, Leader, 1, Some(1), L1(), 17)
    ensures Looks(Now(cs).reps[2], 2, Follower, 1, Some(1), L1(), 17) && Now(cs).reps[2].queue == []
  {
    cs, es := TidingsSpread();
    var t, outs := TakeTidings(Now(cs).reps[2]);
    cs, es := ActLate(cs, es, Deliver(TIDINGS), t, outs);
  }

  // ----- a later leader backs off too far -----

  ghost const HEARTBEAT := ToReplica(0, Propose(2, 2, 17, 1, 17, 0, []))
  ghost const REFUSAL := ToReplica(2, Ack(2, 0, false, 17, 17))
  ghost const BACKED_OFF := ToReplica(0, Propose(2, 2, 0, 0, 17, 0, Shared(16)))

  ghost predicate Leading(s: Rep, next: nat) {
    Looks(s, 2, Leader, 2, Some(2), L1(), 17) && s.queue == [] && AllOnes(s.nextIndex, 1) && s.nextIndex[0] == next
  }

  ghost predicate Stuck(s: Rep) {
    Looks(s, 0, Leader, 0, Some(0), L0(), 0) || Looks(s, 0, Follower, 2, None, L0(), 0)
  }

  ghost const PROBE2 := ToReplica(1, Probe(2, 2, 17, 1))
  ghost const GRANT2 := ToReplica(2, Prepare(2, 1, true))

  /** Replica 2 has called an election; replica 1's vote is `vote`. */
  ghost predicate RoundTwoOpen(c: Cluster, vote: bool)
    requires |c.reps| == 3
  {
    && Stuck(c.reps[0])
    && Looks(c.reps[2], 2, Candidate, 2, Some(2), L1(), 17) && c.reps[2].queue == []
    && c.reps[2].prepareOk == Filled(3, false)[2 := true]
    && (if vote then Looks(c.reps[1], 1, Follower, 2, Some(2), L1(), 17) && GRANT2 in c.net
        else Looks(c.reps[1], 1, Leader, 1, Some(1), L1(), 17) && PROBE2 in c.net)
  }

  lemma RoundTwoCalled() returns (cs: seq<Cluster>, es: seq<Event>)
    ensures Late(cs, es) && RoundTwoOpen(Now(cs), false)
  {
    cs, es := CommitSpread();
    var t, outs := Campaign(Now(cs).reps[2], 2, 1, Some(1), L1(), 17);
    LastRounds();
    cs, es := ActLate(cs, es, Timeout(2), t, outs);
  }

  lemma RoundTwoGranted() returns (cs: seq<Cluster>, es: seq<Event>)
    ensures Late(cs, es) && RoundTwoOpen(Now(cs), true)
  {
    cs, es := RoundTwoCalled();
    LastRounds();
    var t, outs := Grants(Now(cs).reps[1], 1, Leader, 1, Some(1), L1(), 17, PROBE2.msg);
    cs, es := ActLate(cs, es, Deliver(PROBE2), t, outs);
  }

  /** Replica 2 leads round 2, its `next` for replica 0; so many heartbeats and refusals are in flight. */
  ghost predicate Repairing(c: Cluster, next: nat, heartbeats: nat)
    requires |c.reps| == 3
  {
    && Stuck(c.reps[0]) && Looks(c.reps[1], 1, Follower, 2, Some(2), L1(), 17)
    && Leading(c.reps[2], next) && c.net[HEARTBEAT] >= heartbeats
  }

  lemma SendsHeartbeat(s: Rep)
    requires Leading(s, 18)
    ensures SendPropose(s, 0).1 == [HEARTBEAT]
  {
    LastRounds();
  }

  lemma WinsRoundTwo(s: Rep) returns (t: Rep, outs: seq<Output>)
    requires Looks(s, 2, Candidate, 2, Some(2), L1(), 17) && s.queue == [] && s.prepareOk == Filled(3, false)[2 := true]
    ensures Gives(s, Deliver(GRANT2), t, outs) && Leading(t, 18) && HEARTBEAT in outs
  {
    t, outs := Wins(s, 2, 2, L1(), 17, 1);
    SendsHeartbeat(t);
  }

  lemma RoundTwoWon() returns (cs: seq<Cluster>, es: seq<Event>)
    ensures Late(cs, es) && Repairing(Now(cs), 18, 1)
  {
    cs, es := RoundTwoGranted();
    var t, outs := WinsRoundTwo(Now(cs).reps[2]);
    cs, es := ActLate(cs, es, Deliver(GRANT2), t, outs);
  }

  lemma Beats(s: Rep) returns (t: Rep, outs: seq<Output>)
    requires Leading(s, 18)
    ensures Gives(s, Timeout(2), t, outs) && Leading(t, 18) && HEARTBEAT in outs
  {
    SilentBroadcast(s, 3);
    SendsHeartbeat(s);
    t, outs := Take(s, Timeout(2));
  }

  lemma OneMoreBeat(bs: seq<Cluster>, ds: seq<Event>, k: nat) returns (cs: seq<Cluster>, es: seq<Event>)
    requires Late(bs, ds) && Repairing(Now(bs), 18, k)
    ensures Late(cs, es) && Repairing(Now(cs), 18, k + 1)
  {
    var t, outs := Beats(Now(bs).reps[2]);
    cs, es := ActLate(bs, ds, Timeout(2), t, outs);
    assert multiset(outs)[HEARTBEAT] >= 1;
  }

  /** k + 1 heartbeats, none of them delivered yet. */
  lemma Heartbeats(k: nat) returns (cs: seq<Cluster>, es: seq<Event>)
    ensures Late(cs, es) && Repairing(Now(cs), 18, k + 1)
  {
    if k == 0 {
      cs, es := RoundTwoWon();
    } else {
      cs, es := Heartbeats(k - 1);
      cs, es := OneMoreBeat(cs, es, k);
    }
  }

  /** Replica 0 refuses a heartbeat: its slot 17 is from round 0, the leader's from round 1. */
  lemma Refuses(s: Rep) returns (t: Rep, outs: seq<Output>)
    requires Stuck(s)
    ensures Gives(s, Deliver(HEARTBEAT), t, outs) && Stuck(t) && outs == [REFUSAL]
  {
    LastRounds();
    t, outs := Take(s, Deliver(HEARTBEAT));
  }

  /** The leader, its `next` for replica 0 at k. */
  ghost function Aimed(s: Rep, k: nat): Rep
    requires s.nextIndex != []
  {
    s.(nextIndex := s.nextIndex[0 := k])
  }

  lemma AimsLower(s: Rep, next: nat)
    requires Leading(s, next) && 1 < next <= 18
    ensures HandleAck(s, REFUSAL.msg) == SendPropose(Aimed(s, next - 1), 0) && Leading(Aimed(s, next - 1), next - 1)
  {
  }

  lemma SendsFrom(s: Rep, next: nat)
    requires Leading(s, next) && 0 < next
    ensures SendPropose(s, 0).0 == s && (next == 1 ==> SendPropose(s, 0).1 == [BACKED_OFF])
  {
    SilentProposal(s, 0);
    if next == 1 {
      FirstMessage(s, L1(), Batch(L1(), 0));
      ResentBatch();
    }
  }

  lemma FirstMessage(s: Rep, log: seq<Entry>, batch: seq<Entry>)
    requires 0 < |s.nextIndex| == s.n && s.nextIndex[0] == 1 && s.trim == 0 && s.role == Leader && s.id == s.round == 2 && s.commit == 17
    requires s.log == log && batch == Batch(log, 0)
    ensures SendPropose(s, 0).1 == [ToReplica(0, Propose(2, 2, 0, 0, 17, 0, batch))]
  {
  }

  lemma ResentBatch()
    ensures Batch(L1(), 0) == Shared(16)
  {
    LastRounds();
    FrontPart(Shared(16), [FRESH]);
  }

  lemma FrontPart(a: seq<Entry>, b: seq<Entry>)
    ensures (a + b)[0..|a|] == a
  {
  }

  /** Each refusal makes the leader step back one slot; from slot 1 it resends the first batch. */
  lemma BacksOff(s: Rep, next: nat) returns (t: Rep, outs: seq<Output>)
    requires Leading(s, next) && 1 < next <= 18
    ensures Gives(s, Deliver(REFUSAL), t, outs) && Leading(t, next - 1) && (next == 2 ==> BACKED_OFF in outs)
  {
    AimsLower(s, next);
    SendsFrom(Aimed(s, next - 1), next - 1);
    t, outs := Take(s, Deliver(REFUSAL));
  }

  lemma OneRefusal(next: nat, beats: nat, bs: seq<Cluster>, ds: seq<Event>) returns (cs: seq<Cluster>, es: seq<Event>)
    requires Late(bs, ds) && Repairing(Now(bs), next, beats + 1) && 1 < next <= 18
    ensures Late(cs, es) && Repairing(Now(cs), next, beats) && REFUSAL in Now(cs).net
  {
    var t, outs := Refuses(Now(bs).reps[0]);
    cs, es := ActLate(bs, ds, Deliver(HEARTBEAT), t, outs);
  }

  lemma OneStepBack(next: nat, beats: nat, bs: seq<Cluster>, ds: seq<Event>) returns (cs: seq<Cluster>, es: seq<Event>)
    requires Late(bs, ds) && Repairing(Now(bs), next, beats) && REFUSAL in Now(bs).net && 1 < next <= 18
    ensures Late(cs, es) && Repairing(Now(cs), next - 1, beats) && (next == 2 ==> BACKED_OFF in Now(cs).net)
  {
    var t, outs := BacksOff(Now(bs).reps[2], next);
    cs, es := ActLate(bs, ds, Deliver(REFUSAL), t, outs);
    assert HEARTBEAT != REFUSAL;
  }

  lemma BackOff(k: nat) returns (cs: seq<Cluster>, es: seq<Event>)
    requires k <= 17
    ensures Late(cs, es) && Repairing(Now(cs), 18 - k, 17 - k) && (k == 17 ==> BACKED_OFF in Now(cs).net)
  {
    if k == 0 {
      cs, es := Heartbeats(16);
    } else {
      cs, es := BackOff(k - 1);
      cs, es := OneRefusal(19 - k, 17 - k, cs, es);
      cs, es := OneStepBack(19 - k, 17 - k, cs, es);
    }
  }

  /** The batch matches, says nothing about slot 17, and commits it. */
  lemma CommitsStale(s: Rep) returns (t: Rep, outs: seq<Output>)
    requires Stuck(s)
    ensures Gives(s, Deliver(BACKED_OFF), t, outs) && Looks(t, 0, Follower, 2, None, L0(), 17)
    ensures !CommitGuard(s, BACKED_OFF.msg)
  {
    SharedHasNoConflict(0);
    if s.role == Leader { Accepts(s, 0, Leader, 0, Some(0), L0(), 0, BACKED_OFF.msg, L0()); }
    else { Accepts(s, 0, Follower, 2, None, L0(), 0, BACKED_OFF.msg, L0()); }
    t, outs := Take(s, Deliver(BACKED_OFF));
  }

  lemma SharedHasNoConflict(i: nat)
    requires i <= 16
    ensures FirstConflict(L0(), 0, Shared(16), i) == None
    decreases 16 - i
  {
    if i < 16 { SharedHasNoConflict(i + 1); }
  }

  /** A reachable state in which two replicas have applied different requests at slot 17. */
  lemma CommitRuleUnsafe() returns (cs: seq<Cluster>, es: seq<Event>)
    ensures IsRun(3, 0, cs, es) && |cs| > 0 && |Now(cs).reps| == 3 && Late(cs, es)
    ensures var s, t := Now(cs).reps[0], Now(cs).reps[1];
            && s.applied == t.applied == |s.log| == |t.log| == 17
            && s.log == L0() && t.log == L1() && s.log[16].req != t.log[16].req
    ensures !TruthfulRun(3, 0, cs, es) && !GuardedRun(3, 0, cs, es)
  {
    cs, es := BackOff(17);
    var stale, outs := CommitsStale(Now(cs).reps[0]);
    cs, es := ActLate(cs, es, Deliver(BACKED_OFF), stale, outs);
    var s, t := Now(cs).reps[0], Now(cs).reps[1];
    assert s.log[16] == STALE && t.log[16] == FRESH;
    if TruthfulRun(3, 0, cs, es) {
      StateMachineSafety(3, 0, cs, es, |cs| - 1, |cs| - 1, 0, 1);
    }
    if GuardedRun(3, 0, cs, es) {
      GuardedRunIsTruthful(3, 0, cs, es);
    }
  }

  /** In that run a follower applies the edit, which arrived after serial 100 had been answered, and has
      applied serial 100 nowhere before it: without the condition real-time order fails. */
  lemma RealTimeOrderFails() returns (cs: seq<Cluster>, es: seq<Event>, i: nat, resp: Response)
    ensures IsRun(3, 0, cs, es) && i < |cs| && ToClient(resp) in cs[i].sent && !resp.Redirection?
    ensures EDIT.serial !in cs[i].received && |Now(cs).reps| == 3
    ensures var s := Now(cs).reps[0];
            && s.applied == |s.log| == 17 && s.log[16].req.serial == EDIT.serial
            && !exists p :: 0 <= p < 16 && s.log[p].req.serial == resp.serial
  {
    cs, es := CommitRuleUnsafe();
    i, resp := WhenAnswered(cs, es);
    StaleSerials(Now(cs).reps[0].log);
  }

  lemma WhenAnswered(cs: seq<Cluster>, es: seq<Event>) returns (i: nat, resp: Response)
    requires Late(cs, es)
    ensures i < |cs| && ToClient(resp) in cs[i].sent && !resp.Redirection? && resp.serial == 100
    ensures EDIT.serial !in cs[i].received
  {
    i :| 0 <= i < |cs| && Answered(cs[i]);
    resp :| ToClient(resp) in cs[i].sent && !resp.Redirection? && resp.serial == 100;
  }

  lemma StaleSerials(log: seq<Entry>)
    requires log == L0()
    ensures |log| == 17 && log[16].req.serial == EDIT.serial && forall p :: 0 <= p < 16 ==> log[p].req.serial == p + 1
  {
    assert forall p :: 0 <= p < 16 ==> log[p] == Shared(16)[p];
    assert log[16] == STALE;
  }
}
