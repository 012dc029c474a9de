/** The bookkeeping of client requests a leader has accepted but not yet answered, and what it is
    for: one leadership never puts two copies of a serial into the log. */
module PaxosPending {
  import opened Options
  import opened PancyDb
  import opened PaxosSpec
  import opened PaxosMachine
  import opened PaxosCluster
  import opened PaxosInvariance
  import opened PaxosLeader
  import opened PaxosHandlers
  import opened PaxosProgress
  import opened PaxosSafety

  ghost function SerialsOf(reqs: seq<Request>): set<nat> {
    set q | q in reqs :: q.serial
  }

  ghost predicate Distinct(reqs: seq<Request>) {
    forall i, j :: 0 <= i < j < |reqs| ==> reqs[i].serial != reqs[j].serial
  }

  /** Entry k was appended by this leader in this leadership. */
  ghost predicate Own(s: Rep, k: nat) {
    k < |s.log| && s.log[k].round == s.round
  }

  /** Every serial in flight names one of this leader's own, unapplied entries ... */
  ghost predicate InFlightOk(s: Rep) {
    forall x :: x in s.inFlight ==>
      s.applied < s.inFlight[x] <= |s.log|
      && s.log[s.inFlight[x] - 1].round == s.round && s.log[s.inFlight[x] - 1].req.serial == x
  }

  /** ... and every one of those is in flight. */
  ghost predicate OwnTracked(s: Rep) {
    forall k: nat {:trigger Own(s, k)} :: Own(s, k) && s.applied <= k ==>
      s.log[k].req.serial in s.inFlight && s.inFlight[s.log[k].req.serial] == k + 1
  }

  /** Own entries differ in serial from one another and from what still waits in the queue. */
  ghost predicate Apart(s: Rep) {
    && Distinct(s.queue)
    && (forall k: nat, q {:trigger Own(s, k), q in s.queue} :: Own(s, k) && q in s.queue ==> s.log[k].req.serial != q.serial)
    && (forall j: nat, k: nat {:trigger Own(s, j), Own(s, k)} :: Own(s, j) && Own(s, k) && j < k ==> s.log[j].req.serial != s.log[k].req.serial)
  }

  /** Accepted serials are queued or in flight, never both, never twice. */
  ghost predicate LeaderPending(s: Rep) {
    && s.busy == SerialsOf(s.queue) + s.inFlight.Keys
    && InFlightOk(s) && OwnTracked(s) && Apart(s)
  }

  ghost predicate PendingOk(s: Rep) {
    if s.role == Leader then LeaderPending(s) else s.queue == [] && s.inFlight == map[] && s.busy == {}
  }

  lemma OwnInFlight(s: Rep, x: nat)
    requires InFlightOk(s) && x in s.inFlight
    ensures 0 < s.inFlight[x] && Own(s, s.inFlight[x] - 1) && s.log[s.inFlight[x] - 1].req.serial == x
  {
  }

  /** The fields the bookkeeping reads are the same. */
  ghost predicate SamePending(s: Rep, t: Rep) {
    && t.role == s.role && t.round == s.round && t.log == s.log && t.applied == s.applied
    && t.queue == s.queue && t.inFlight == s.inFlight && t.busy == s.busy
  }

  lemma SamePendingOk(s: Rep, t: Rep)
    requires SamePending(s, t) && PendingOk(s)
    ensures PendingOk(t)
  {
    assert forall k: nat :: Own(s, k) <==> Own(t, k);
  }

  lemma ApplyNextPending(s: Rep)
    requires s.applied < s.commit <= |s.log| && s.role == Leader && LeaderPending(s)
    ensures LeaderPending(ApplyNext(s).0)
  {
    var x, t := s.log[s.applied].req.serial, ApplyNext(s).0;
    if x in s.inFlight && s.inFlight[x] == s.applied + 1 {
      RetirePending(s, t, x);
    } else {
      PassPending(s, t);
    }
  }

  /** The entry applied was in flight. */
  lemma RetirePending(s: Rep, t: Rep, x: nat)
    requires LeaderPending(s) && t == s.(applied := s.applied + 1, machine := t.machine, inFlight := s.inFlight - {x}, busy := s.busy - {x})
    requires x in s.inFlight && s.inFlight[x] == s.applied + 1
    ensures LeaderPending(t)
  {
    RetireInFlight(s, t, x);
    SameApart(s, t);
    assert x !in SerialsOf(s.queue) by {
      assert Own(s, s.applied);
      assert forall q :: q in s.queue ==> q.serial != x;
    }
  }

  lemma SameApart(s: Rep, t: Rep)
    requires Apart(s) && t.queue == s.queue && t.log == s.log && t.round == s.round
    ensures Apart(t)
  {
    assert forall k: nat :: Own(s, k) <==> Own(t, k);
  }

  lemma RetireInFlight(s: Rep, t: Rep, x: nat)
    requires InFlightOk(s) && OwnTracked(s) && t.log == s.log && t.round == s.round
    requires t.applied == s.applied + 1 && t.inFlight == s.inFlight - {x}
    requires x in s.inFlight && s.inFlight[x] == s.applied + 1
    ensures InFlightOk(t) && OwnTracked(t)
  {
    assert forall k: nat :: Own(s, k) <==> Own(t, k);
    assert s.log[s.applied].req.serial == x;
  }

  /** The entry applied was appended by an earlier leader. */
  lemma PassPending(s: Rep, t: Rep)
    requires LeaderPending(s) && t == s.(applied := s.applied + 1, machine := t.machine) && s.applied < |s.log|
    requires var x := s.log[s.applied].req.serial; x !in s.inFlight || s.inFlight[x] != s.applied + 1
    ensures LeaderPending(t)
  {
    assert !Own(s, s.applied);
    assert forall k: nat :: Own(s, k) <==> Own(t, k);
    forall x | x in t.inFlight ensures t.applied < t.inFlight[x] {
      assert Own(s, s.inFlight[x] - 1);
    }
  }

  lemma ApplyPending(s: Rep)
    requires s.applied <= s.commit <= |s.log| && PendingOk(s)
    ensures PendingOk(ApplyCommitted(s).0) && ApplyCommitted(s).0.role == s.role
    decreases s.commit - s.applied
  {
    if s.applied < s.commit {
      if s.role == Leader { ApplyNextPending(s); }
      ApplyPending(ApplyNext(s).0);
    }
  }

  lemma AdvancePending(s: Rep)
    requires Shape(s) && PendingOk(s)
    ensures PendingOk(Advance(s).0)
  {
    var u := UpdateCommit(s);
    SamePendingOk(s, u);
    ApplyPending(u);
    ApplyKeeps(u);
    SamePendingOk(ApplyCommitted(u).0, Advance(s).0);
  }

  /** Distinct serials, none of them in flight yet, all get their own slot. */
  lemma {:induction false} RegisterAll(inFlight: map<nat, nat>, reqs: seq<Request>, slot: nat)
    requires Distinct(reqs) && forall i :: 0 <= i < |reqs| ==> reqs[i].serial !in inFlight
    ensures var m := Register(inFlight, reqs, slot);
            && m.Keys == inFlight.Keys + SerialsOf(reqs)
            && (forall x :: x in inFlight ==> m[x] == inFlight[x])
            && (forall i :: 0 <= i < |reqs| ==> m[reqs[i].serial] == slot + i)
  {
    if reqs != [] {
      var front, last := reqs[..|reqs| - 1], reqs[|reqs| - 1];
      FrontDistinct(reqs);
      RegisterAll(inFlight, front, slot);
      var m := Register(inFlight, front, slot);
      assert last.serial !in m.Keys;
      assert Register(inFlight, reqs, slot) == m[last.serial := slot + |front|];
      forall i | 0 <= i < |reqs| ensures Register(inFlight, reqs, slot)[reqs[i].serial] == slot + i {
        if i < |front| { assert reqs[i] == front[i]; }
      }
    }
  }

  lemma FrontDistinct(reqs: seq<Request>)
    requires Distinct(reqs) && reqs != []
    ensures var front, last := reqs[..|reqs| - 1], reqs[|reqs| - 1];
            && Distinct(front) && last.serial !in SerialsOf(front) && SerialsOf(reqs) == SerialsOf(front) + {last.serial}
            && forall i :: 0 <= i < |front| ==> front[i] == reqs[i]
  {
    var front, last := reqs[..|reqs| - 1], reqs[|reqs| - 1];
    assert reqs == front + [last];
    forall x | x in SerialsOf(front) ensures x != last.serial {
      var q :| q in front && q.serial == x;
      var i :| 0 <= i < |front| && front[i] == q;
    }
  }

  lemma QueuedNotInFlight(s: Rep, k: nat)
    requires LeaderPending(s) && k <= |s.queue|
    ensures forall i :: 0 <= i < k ==> s.queue[..k][i].serial !in s.inFlight
    ensures SerialsOf(s.queue) == SerialsOf(s.queue[..k]) + SerialsOf(s.queue[k..])
    ensures Distinct(s.queue[..k])
  {
    forall i | 0 <= i < k ensures s.queue[..k][i].serial !in s.inFlight {
      var q := s.queue[..k][i];
      assert q in s.queue;
      if q.serial in s.inFlight { OwnInFlight(s, q.serial); }
    }
    assert s.queue == s.queue[..k] + s.queue[k..];
  }

  lemma AppendPending(s: Rep)
    requires Shape(s) && s.role == Leader && LeaderPending(s)
    ensures LeaderPending(AppendQueued(s))
  {
    var t, k := AppendQueued(s), Min(|s.queue|, APPEND_BATCH_SIZE);
    QueuedNotInFlight(s, k);
    AppendedLog(s, t, k);
    AppendedRegistered(s, t, k);
    AppendedInFlight(s, t, k);
    AppendedApart(s, t, k);
  }

  lemma AppendedRegistered(s: Rep, t: Rep, k: nat)
    requires LeaderPending(s) && k <= |s.queue| && t.queue == s.queue[k..] && t.busy == s.busy
    requires t.inFlight == Register(s.inFlight, s.queue[..k], |s.log| + 1)
    ensures t.inFlight.Keys == s.inFlight.Keys + SerialsOf(s.queue[..k])
    ensures forall x :: x in s.inFlight ==> x in t.inFlight && t.inFlight[x] == s.inFlight[x]
    ensures forall i :: 0 <= i < k ==> s.queue[..k][i].serial in t.inFlight && t.inFlight[s.queue[..k][i].serial] == |s.log| + 1 + i
    ensures t.busy == SerialsOf(t.queue) + t.inFlight.Keys
  {
    QueuedNotInFlight(s, k);
    RegisterAll(s.inFlight, s.queue[..k], |s.log| + 1);
    forall i | 0 <= i < k ensures s.queue[..k][i].serial in t.inFlight {
      assert s.queue[..k][i] in s.queue[..k];
    }
  }

  lemma AppendedLog(s: Rep, t: Rep, k: nat)
    requires k <= |s.queue| && t.log == s.log + NewEntries(s, k) && t.round == s.round
    ensures forall j: nat :: Own(t, j) <==> Own(s, j) || |s.log| <= j < |s.log| + k
    ensures forall j: nat :: Own(s, j) ==> t.log[j] == s.log[j]
    ensures forall j: nat :: |s.log| <= j < |s.log| + k ==> t.log[j].req == s.queue[j - |s.log|]
  {
  }

  lemma AppendedInFlight(s: Rep, t: Rep, k: nat)
    requires s.applied <= |s.log| && InFlightOk(s) && OwnTracked(s) && k <= |s.queue| && |t.log| == |s.log| + k && t.applied == s.applied
    requires forall j: nat :: Own(t, j) <==> Own(s, j) || |s.log| <= j < |s.log| + k
    requires forall j: nat :: Own(s, j) ==> t.log[j] == s.log[j]
    requires forall j: nat :: |s.log| <= j < |s.log| + k ==> t.log[j].req == s.queue[j - |s.log|]
    requires t.inFlight.Keys == s.inFlight.Keys + SerialsOf(s.queue[..k])
    requires forall x :: x in s.inFlight ==> t.inFlight[x] == s.inFlight[x]
    requires forall i :: 0 <= i < k ==> s.queue[..k][i].serial in t.inFlight && t.inFlight[s.queue[..k][i].serial] == |s.log| + 1 + i
    ensures InFlightOk(t) && OwnTracked(t)
  {
    forall x | x in t.inFlight
      ensures t.applied < t.inFlight[x] <= |t.log|
              && t.log[t.inFlight[x] - 1].round == t.round && t.log[t.inFlight[x] - 1].req.serial == x
    {
      if x in s.inFlight {
        assert Own(s, s.inFlight[x] - 1) && Own(t, s.inFlight[x] - 1);
      } else {
        var q :| q in s.queue[..k] && q.serial == x;
        var i :| 0 <= i < k && s.queue[..k][i] == q;
        assert t.inFlight[x] - 1 == |s.log| + i && Own(t, |s.log| + i);
      }
    }
    forall j: nat | Own(t, j) && t.applied <= j
      ensures t.log[j].req.serial in t.inFlight && t.inFlight[t.log[j].req.serial] == j + 1
    {
      if !Own(s, j) { assert s.queue[..k][j - |s.log|].serial in t.inFlight; }
    }
  }

  lemma AppendedApart(s: Rep, t: Rep, k: nat)
    requires Apart(s) && k <= |s.queue| && t.queue == s.queue[k..] && |t.log| == |s.log| + k
    requires forall j: nat :: Own(t, j) <==> Own(s, j) || |s.log| <= j < |s.log| + k
    requires forall j: nat :: Own(s, j) ==> t.log[j] == s.log[j]
    requires forall j: nat :: |s.log| <= j < |s.log| + k ==> t.log[j].req == s.queue[j - |s.log|]
    ensures Apart(t)
  {
    forall j: nat, q | Own(t, j) && q in t.queue ensures t.log[j].req.serial != q.serial {
      var i :| 0 <= i < |t.queue| && t.queue[i] == q;
      assert q == s.queue[k + i] && q in s.queue;
      if !Own(s, j) { assert t.log[j].req == s.queue[j - |s.log|]; }
    }
    forall i: nat, j: nat | Own(t, i) && Own(t, j) && i < j ensures t.log[i].req.serial != t.log[j].req.serial {
      if !Own(s, j) { assert s.queue[j - |s.log|] in s.queue; }
    }
  }

  lemma FlushPending(s: Rep)
    requires Shape(s) && s.role == Leader && LeaderPending(s)
    ensures PendingOk(Flush(s).0)
    decreases |s.queue|
  {
    if s.queue != [] {
      var a := AppendQueued(s);
      AppendPending(s);
      var b := Broadcast(a).0;
      SamePendingOk(a, b);
      AdvancePending(b);
      FlushBatchKeeps(s);
      FlushPending(FlushBatch(s).0);
    }
  }

  lemma ClientPending(s: Rep, req: Request)
    requires Shape(s) && PendingOk(s) && MachineOk(s)
    ensures PendingOk(HandleClient(s, req).0)
  {
    if s.role == Leader && req.serial !in s.machine.cache && req.serial !in s.busy {
      var a := s.(busy := s.busy + {req.serial}, queue := s.queue + [req]);
      QueuedPending(s, req, a);
      if |a.queue| >= APPEND_BATCH_SIZE { FlushPending(a); }
    }
  }

  /** A request joins the queue. */
  lemma QueuedPending(s: Rep, req: Request, a: Rep)
    requires Shape(s) && PendingOk(s) && MachineOk(s) && s.role == Leader
    requires req.serial !in s.machine.cache && req.serial !in s.busy
    requires a == s.(busy := s.busy + {req.serial}, queue := s.queue + [req])
    ensures PendingOk(a)
  {
    ReplayRemembers(s.log[..s.applied]);
    assert forall k: nat :: Own(s, k) <==> Own(a, k);
    forall k: nat, q | Own(a, k) && q in a.queue ensures a.log[k].req.serial != q.serial {
      if q == req && k < s.applied { assert s.log[..s.applied][k].req.serial == s.log[k].req.serial; }
    }
    assert SerialsOf(a.queue) == SerialsOf(s.queue) + {req.serial} by {
      assert forall q :: q in a.queue <==> q in s.queue || q == req;
      assert req in a.queue;
    }
    forall i | 0 <= i < |s.queue| ensures s.queue[i].serial != req.serial { assert s.queue[i] in s.queue; }
  }

  /** A replica that has just won its round has nothing of that round in its log. */
  lemma WinPending(s: Rep)
    requires PendingOk(s) && s.role != Leader && RoundsBelow(s.log, s.round) && Shape(s)
    ensures PendingOk(Broadcast(BecomeLeader(s)).0)
  {
    var b := BecomeLeader(s);
    assert forall k: nat :: !Own(b, k);
    assert LeaderPending(b);
    SamePendingOk(b, Broadcast(b).0);
  }

  lemma TimeoutPending(s: Rep)
    requires Shape(s) && PendingOk(s) && RoundsBelow(s.log, s.round + 1)
    ensures PendingOk(HandleTimeout(s).0)
  {
    if s.role == Leader {
      if s.queue != [] { FlushPending(s); } else { SamePendingOk(s, Broadcast(s).0); }
    } else {
      var c := s.(role := Candidate, round := s.round + 1, leaderHint := s.id, promised := Some(s.id),
                  prepareOk := Filled(s.n, false)[s.id := true]);
      if HasQuorum(s.n, 1) { WinPending(c); }
    }
  }

  lemma MessagePending(s: Rep, m: Message)
    requires Shape(s) && PendingOk(s) && (m.Prepare? || m.Ack? ==> m.server < s.n)
    requires s.role == Candidate ==> RoundsBelow(s.log, s.round)
    ensures PendingOk(HandleReplicaMessage(s, m).0)
  {
    match m
    case Probe(_, _, _, _) =>
      if m.round >= s.round {
        var t := if m.round > s.round then BecomeFollower(s, m.round, s.leaderHint) else s;
        SamePendingOk(t, HandleProbe(s, m).0);
      }
    case Prepare(_, _, _) =>
      if m.round <= s.round && s.role == Candidate && m.round == s.round && m.promised && !s.prepareOk[m.server] {
        WinPending(s.(prepareOk := s.prepareOk[m.server := true]));
      }
    case Propose(_, _, _, _, _, _, _) => ProposePending(s, m);
    case Ack(_, _, _, _, _) => AckPending(s, m);
  }

  lemma ProposePending(s: Rep, m: Message)
    requires Shape(s) && PendingOk(s) && m.Propose?
    ensures PendingOk(HandlePropose(s, m).0)
  {
    var f := BecomeFollower(s, m.round, m.leader);
    if m.round >= s.round && PrefixMatches(f, m.prevIndex, m.prevRound)
       && Merge(f.log, f.commit, m.prevIndex, m.entries).Merged? {
      var log := Merge(f.log, f.commit, m.prevIndex, m.entries).log;
      var g := f.(log := log, commit := if m.decide > f.commit then Min(m.decide, |log|) else f.commit);
      MergeKeepsCommitted(f.log, f.commit, m.prevIndex, m.entries);
      ApplyPending(g);
    }
  }

  lemma AckPending(s: Rep, m: Message)
    requires Shape(s) && PendingOk(s) && m.Ack? && m.server < s.n
    ensures PendingOk(HandleAck(s, m).0)
  {
    if m.round <= s.round && s.role == Leader && m.round == s.round {
      if m.success {
        var a := Matched(s, m);
        SamePendingOk(s, a);
        AdvancePending(a);
        AdvanceKeeps(a);
        SamePendingOk(Advance(a).0, HandleAck(s, m).0);
      } else {
        SamePendingOk(s, HandleAck(s, m).0);
      }
    }
  }

  ghost predicate AllPending(c: Cluster) {
    forall i :: 0 <= i < |c.reps| ==> PendingOk(c.reps[i]) && MachineOk(c.reps[i])
  }

  lemma StepPending(c: Cluster, e: Event, d: Cluster)
    requires Inv(c) && StepsTo(c, e, d) && AllPending(c)
    ensures AllPending(d)
  {
    if e.Drop? {
      assert d.reps == c.reps by { assert Unfold(0); }
    } else {
      var t := MoverKept(c, e, d);
    }
  }

  lemma MoverKept(c: Cluster, e: Event, d: Cluster) returns (t: Rep)
    requires Inv(c) && StepsTo(c, e, d) && AllPending(c) && !e.Drop?
    ensures t.id < |c.reps| && d.reps == c.reps[t.id := t] && PendingOk(t) && MachineOk(t)
  {
    assert Unfold(0);
    t := Handler(c, e).0;
    HandlerProgress(c, e);
    MoverPending(c, e);
    MoverMachine(c, e);
  }

  lemma MoverMachine(c: Cluster, e: Event)
    requires Held(c) && Ready(c, e) && !e.Drop? && AllPending(c)
    ensures MachineOk(Handler(c, e).0)
  {
    RepPending(c, Target(e));
    assert Unfold(0);
    HandlerProgress(c, e);
  }

  lemma MoverPending(c: Cluster, e: Event)
    requires Held(c) && Ready(c, e) && !e.Drop? && AllPending(c)
    ensures PendingOk(Handler(c, e).0)
  {
    RepPending(c, Target(e));
    match e {
      case Deliver(p) => MessagePending(c.reps[p.dst], p.msg);
      case Client(i, req) => ClientPending(c.reps[i], req);
      case Timeout(i) => TimeoutPending(c.reps[i]);
    }
  }

  lemma RepPending(c: Cluster, i: nat)
    requires Held(c) && i < |c.reps| && AllPending(c)
    ensures var s := c.reps[i];
            && Shape(s) && PendingOk(s) && MachineOk(s) && RoundsBelow(s.log, s.round + 1)
            && (s.role == Candidate ==> RoundsBelow(s.log, s.round))
  {
    assert Unfold(0);
    assert RepOk(c, i);
  }

  /** AllPending, kept folded. */
  ghost predicate PendingHeld(c: Cluster) {
    forall n {:trigger Unfold(n)} :: Unfold(n) ==> AllPending(c)
  }

  lemma StepPendingHeld(c: Cluster, e: Event, d: Cluster)
    requires Held(c) && StepsTo(c, e, d) && PendingHeld(c)
    ensures PendingHeld(d)
  {
    assert Unfold(0);
    StepPending(c, e, d);
  }

  lemma InitialPending(n: nat, leader: nat)
    requires leader < n
    ensures PendingHeld(Initial(n, leader))
  {
    assert forall j: nat :: j < n ==> PendingOk(Initial(n, leader).reps[j]) && MachineOk(Initial(n, leader).reps[j]);
  }

  lemma {:induction false} RunPendingHeld(n: nat, leader: nat, cs: seq<Cluster>, es: seq<Event>, i: nat)
    requires IsRun(n, leader, cs, es) && i < |cs|
    ensures PendingHeld(cs[i])
  {
    if i == 0 {
      InitialPending(n, leader);
    } else {
      RunPendingHeld(n, leader, cs, es, i - 1);
      RunHolds(n, leader, cs, es, i - 1);
      assert StepsTo(cs[i - 1], es[i - 1], cs[i - 1 + 1]);
      StepPendingHeld(cs[i - 1], es[i - 1], cs[i]);
    }
  }

  lemma RunPending(n: nat, leader: nat, cs: seq<Cluster>, es: seq<Event>, i: nat)
    requires IsRun(n, leader, cs, es) && i < |cs|
    ensures AllPending(cs[i])
  {
    RunPendingHeld(n, leader, cs, es, i);
    assert Unfold(0);
  }

  /** In every state of every run the entries a leader has appended in its own round carry
      distinct serials, none of which is also waiting in its queue. */
  lemma OneCopyPerLeadership(n: nat, leader: nat, cs: seq<Cluster>, es: seq<Event>, i: nat, a: nat)
    requires IsRun(n, leader, cs, es) && i < |cs| && a < |cs[i].reps| && cs[i].reps[a].role == Leader
    ensures var s := cs[i].reps[a];
            && (forall j: nat, k: nat :: j < k < |s.log| && s.log[j].round == s.log[k].round == s.round ==>
                  s.log[j].req.serial != s.log[k].req.serial)
            && (forall k: nat, q :: k < |s.log| && s.log[k].round == s.round && q in s.queue ==> s.log[k].req.serial != q.serial)
            && Distinct(s.queue)
  {
    RunPending(n, leader, cs, es, i);
    var s := cs[i].reps[a];
    assert PendingOk(s);
    assert forall k: nat :: k < |s.log| && s.log[k].round == s.round ==> Own(s, k);
  }

  /** At-most-once application, on every replica and in every run: the database is the fold of
      `process_req` over the first occurrence of each serial in the applied prefix. */
  lemma AppliedOnce(n: nat, leader: nat, cs: seq<Cluster>, es: seq<Event>, i: nat, a: nat)
    requires IsRun(n, leader, cs, es) && i < |cs| && a < |cs[i].reps|
    ensures var s := cs[i].reps[a];
            && s.applied <= |s.log|
            && s.machine.db == ProcessAll(EMPTY_DB, FirstOccurrences(s.log[..s.applied]))
            && forall x :: x in s.machine.cache <==> Occurs(s.log[..s.applied], x)
  {
    RunPending(n, leader, cs, es, i);
    var s := cs[i].reps[a];
    assert MachineOk(s);
    ReplayExecutesOnce(s.log[..s.applied]);
  }
}
