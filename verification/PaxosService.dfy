/** What clients get: when a request enters the log, when it is answered, and with what. */
module PaxosService {
  import opened Options
  import opened PancyDb
  import opened PaxosSpec
  import opened PaxosMachine
  import opened PaxosCluster
  import opened PaxosLeader
  import opened PaxosInvariance
  import opened PaxosHandlers
  import opened PaxosProgress
  import opened PaxosSafety
  import opened PaxosAgreement
  import opened PaxosAuthority

  // ----- what is answered -----

  /** The request of slot k waits at this replica for that slot. */
  ghost predicate Waits(s: Rep, k: nat)
    requires 1 <= k <= |s.log|
  {
    var x := s.log[k - 1].req.serial; x in s.inFlight && s.inFlight[x] == k
  }

  /** The answer a machine remembers for slot k. */
  ghost predicate IsAnswer(t: Rep, k: nat, o: Output)
    requires 1 <= k <= |t.log|
  {
    var x := t.log[k - 1].req.serial; x in t.machine.cache && o == ToClient(t.machine.cache[x])
  }

  ghost predicate Served(t: Rep, k: nat, outs: seq<Output>)
    requires 1 <= k <= |t.log|
  {
    var x := t.log[k - 1].req.serial; x !in t.inFlight && x !in t.busy && exists o :: o in outs && IsAnswer(t, k, o)
  }

  /** Applying forgets no answer and takes up no new request. */
  lemma ApplyingKeeps(s: Rep)
    requires s.applied <= s.commit <= |s.log|
    ensures var t := ApplyCommitted(s).0;
            && t.log == s.log && t.inFlight.Keys <= s.inFlight.Keys && t.busy <= s.busy
            && forall x :: x in s.machine.cache ==> x in t.machine.cache && t.machine.cache[x] == s.machine.cache[x]
    decreases s.commit - s.applied
  {
    if s.applied < s.commit { ApplyingKeeps(ApplyNext(s).0); }
  }

  /** What applying one slot means for the others. */
  lemma NextWaits(s: Rep)
    requires s.applied < s.commit <= |s.log| && s.role == Leader
    ensures var (t, o) := ApplyNext(s);
            && t.log == s.log && t.role == Leader && t.applied == s.applied + 1 && t.commit == s.commit
            && (forall k: nat :: t.applied < k <= |s.log| ==> (Waits(s, k) <==> Waits(t, k)))
            && (Waits(s, t.applied) ==> |o| == 1 && IsAnswer(t, t.applied, o[0]) && Served(t, t.applied, o))
            && (!Waits(s, t.applied) ==> o == [])
  {
    var (t, o) := ApplyNext(s);
    if Waits(s, t.applied) { assert o[0] in o && IsAnswer(t, t.applied, o[0]); }
  }

  lemma ServedLater(t: Rep, k: nat, o: seq<Output>, u: Rep, p: seq<Output>)
    requires 1 <= k <= |t.log| && Served(t, k, o) && u.log == t.log && u.inFlight.Keys <= t.inFlight.Keys && u.busy <= t.busy
    requires forall x :: x in t.machine.cache ==> x in u.machine.cache && u.machine.cache[x] == t.machine.cache[x]
    ensures Served(u, k, o + p)
  {
    var a :| a in o && IsAnswer(t, k, a);
    assert a in o + p && IsAnswer(u, k, a);
  }

  /** A leader that applies answers exactly the requests that wait for a slot it applies, each with
      what its machine remembers, and none of them waits any longer. */
  lemma {:induction false} AnswersTheWaiting(s: Rep)
    requires s.applied <= s.commit <= |s.log| && s.role == Leader
    ensures var (t, outs) := ApplyCommitted(s);
            && t.log == s.log
            && (forall k: nat :: s.applied < k <= s.commit && Waits(s, k) ==> Served(t, k, outs))
            && (forall o :: o in outs ==> exists k: nat :: s.applied < k <= s.commit && Waits(s, k) && IsAnswer(t, k, o))
    decreases s.commit - s.applied
  {
    if s.applied < s.commit {
      var (t, o) := ApplyNext(s);
      var (u, p) := ApplyCommitted(t);
      NextWaits(s);
      AnswersTheWaiting(t);
      ApplyingKeeps(t);
      forall k: nat | s.applied < k <= s.commit && Waits(s, k) ensures Served(u, k, o + p) {
        if k == t.applied { ServedLater(t, k, o, u, p); } else { ServedMore(u, k, o, p); }
      }
      forall a | a in o + p ensures exists k: nat :: s.applied < k <= s.commit && Waits(s, k) && IsAnswer(u, k, a) {
        if a in o {
          assert IsAnswer(u, t.applied, a);
        } else {
          var k: nat :| t.applied < k <= t.commit && Waits(t, k) && IsAnswer(u, k, a);
          assert Waits(s, k);
        }
      }
    }
  }

  lemma ServedMore(u: Rep, k: nat, o: seq<Output>, p: seq<Output>)
    requires 1 <= k <= |u.log| && Served(u, k, p)
    ensures Served(u, k, o + p)
  {
    var a :| a in p && IsAnswer(u, k, a);
    assert a in o + p;
  }

  /** A leader whose last entry is of its own round and held by a quorum commits and applies its whole
      log at the next acknowledgement, and answers whoever waits for a slot it had not applied. */
  lemma QuorumServesAll(s: Rep, server: nat)
    requires Shape(s) && s.role == Leader && server < s.n && 0 < |s.log|
    requires RoundAt(s.log, |s.log|) == s.round && HasQuorum(s.n, |Holders(s, |s.log|)|)
    ensures var (t, outs) := AdvanceAndResend(s, server);
            && t.log == s.log && t.commit == t.applied == |s.log|
            && forall k: nat :: s.applied < k <= |s.log| && Waits(s, k) ==> Served(t, k, outs)
  {
    CommitScanIsHighest(s, |s.log|);
    assert s.commit < |s.log| ==> Committable(s, |s.log|);
    var a := UpdateCommit(s);
    assert a.commit == |s.log|;
    AnswersTheWaiting(a);
    AdvanceServes(s, a);
    AdvanceKeeps(s);
    var (u, o) := Advance(s);
    if u.nextIndex[server] <= |u.log| {
      var (v, p) := SendPropose(u, server);
      forall k: nat | s.applied < k <= |s.log| && Waits(s, k) ensures Served(v, k, o + p) {
        ServedLater(u, k, o, v, p);
      }
    }
  }

  lemma AdvanceServes(s: Rep, a: Rep)
    requires Shape(s) && s.role == Leader && a == UpdateCommit(s) && a.commit == |s.log|
    requires var (t, outs) := ApplyCommitted(a);
             t.log == s.log && forall k: nat :: s.applied < k <= |s.log| && Waits(a, k) ==> Served(t, k, outs)
    ensures var (u, o) := Advance(s);
            u.log == s.log && forall k: nat :: s.applied < k <= |s.log| && Waits(s, k) ==> Served(u, k, o)
  {
    AdvanceKeeps(s);
    var (t, outs) := ApplyCommitted(a);
    var u := Advance(s).0;
    forall k: nat | s.applied < k <= |s.log| && Waits(s, k) ensures Served(u, k, outs) {
      assert Waits(a, k);
      var o :| o in outs && IsAnswer(t, k, o);
      assert IsAnswer(u, k, o);
    }
  }

  // ----- what enters the log -----

  /** The requests of a log from index `from` on. */
  ghost function Reqs(log: seq<Entry>, from: nat): seq<Request>
    requires from <= |log|
  {
    seq(|log| - from, i requires 0 <= i < |log| - from => log[from + i].req)
  }

  /** From s to t the requests `reqs` entered the log, in order, as entries of the leader's round. */
  ghost predicate Entered(s: Rep, t: Rep, reqs: seq<Request>) {
    && s.log <= t.log && Reqs(t.log, |s.log|) == reqs && t.role == s.role && t.round == s.round
    && forall k :: |s.log| <= k < |t.log| ==> t.log[k].slot == k + 1 && t.log[k].round == s.round
  }

  lemma EnteredChain(s: Rep, t: Rep, u: Rep, xs: seq<Request>, ys: seq<Request>)
    requires Entered(s, t, xs) && Entered(t, u, ys)
    ensures Entered(s, u, xs + ys)
  {
    assert forall i :: 0 <= i < |xs| ==> Reqs(u.log, |s.log|)[i] == Reqs(t.log, |s.log|)[i];
    assert forall i :: 0 <= i < |ys| ==> Reqs(u.log, |s.log|)[|xs| + i] == Reqs(u.log, |t.log|)[i];
    assert Reqs(u.log, |s.log|) == xs + ys;
  }

  lemma BatchEnters(s: Rep)
    requires Shape(s) && s.role == Leader
    ensures var t, k := FlushBatch(s).0, Min(|s.queue|, APPEND_BATCH_SIZE);
            Shape(t) && Entered(s, t, s.queue[..k]) && t.queue == s.queue[k..]
  {
    FlushBatchKeeps(s);
    var k := Min(|s.queue|, APPEND_BATCH_SIZE);
    assert Reqs(s.log + NewEntries(s, k), |s.log|) == s.queue[..k];
  }

  /** A flush moves the whole queue into the log, in order. */
  lemma {:induction false} FlushEnters(s: Rep)
    requires Shape(s) && s.role == Leader
    ensures Entered(s, Flush(s).0, s.queue) && Flush(s).0.queue == []
    decreases |s.queue|
  {
    if s.queue == [] {
      assert Reqs(s.log, |s.log|) == [];
    } else {
      BatchEnters(s);
      var t, k := FlushBatch(s).0, Min(|s.queue|, APPEND_BATCH_SIZE);
      FlushEnters(t);
      EnteredChain(s, t, Flush(t).0, s.queue[..k], s.queue[k..]);
      assert s.queue[..k] + s.queue[k..] == s.queue;
    }
  }

  /** A new request at a leader waits at the end of the queue, until the queue is a full batch and
      goes into the log; a copy of one that is still under way changes nothing and is not answered. */
  lemma RequestTakenUp(s: Rep, req: Request)
    requires Shape(s) && s.role == Leader && req.serial !in s.machine.cache
    ensures var (t, outs) := HandleClient(s, req);
            if req.serial in s.busy then t == s && outs == []
            else if |s.queue| + 1 < 16 then t.log == s.log && t.queue == s.queue + [req] && outs == []
            else Entered(s, t, s.queue + [req]) && t.queue == []
  {
    FlushEnters(s.(busy := s.busy + {req.serial}, queue := s.queue + [req]));
  }

  /** An expired timer sends whatever is queued. */
  lemma TimerFlushes(s: Rep)
    requires Shape(s) && s.role == Leader
    ensures var t := HandleTimeout(s).0; Entered(s, t, s.queue) && t.queue == []
  {
    FlushEnters(s);
    assert Reqs(s.log, |s.log|) == [];
  }

  // ----- retries -----

  /** A copy of a request that this leader has applied is answered at once, and with the very
      response any replica has ever sent for it in the run. */
  lemma RetryGetsSameAnswer(n: nat, leader: nat, cs: seq<Cluster>, es: seq<Event>, i: nat, a: nat, req: Request)
    requires IsRun(n, leader, cs, es) && i < |es| && es[i] == Client(a, req) && a < n
    requires a < |cs[i].reps| && cs[i].reps[a].role == Leader && cs[i].reps[a].applied <= |cs[i].reps[a].log|
    requires Occurs(cs[i].reps[a].log[..cs[i].reps[a].applied], req.serial)
    ensures Ready(cs[i], es[i])
    ensures var (t, outs) := Handler(cs[i], es[i]);
            && t == cs[i].reps[a] && |outs| == 1 && outs[0].ToClient? && !outs[0].resp.Redirection? && outs[0].resp.serial == req.serial
            && forall x :: ToClient(x) in cs[i].sent && !x.Redirection? && x.serial == req.serial ==> x == outs[0].resp
  {
    RunInv(n, leader, cs, es, i);
    RunAuthority(n, leader, cs, es, i);
    InvMakesReady(cs[i], es[i]);
    assert RepTrusted(cs[i], a) && RepOk(cs[i], a);
    var s := cs[i].reps[a];
    Remembers(s, req.serial);
    var y := s.machine.cache[req.serial];
    assert StepsTo(cs[i], es[i], cs[i + 1]);
    AnswerIsSent(cs[i], a, req, cs[i + 1]);
    forall x | ToClient(x) in cs[i].sent && !x.Redirection? && x.serial == req.serial ensures x == y {
      ReplyAgreement(n, leader, cs, es, i + 1, x, y);
    }
  }

  lemma {:induction false} RepliesAreReal(log: seq<Entry>)
    ensures forall x :: x in Replay(log).cache ==> !Replay(log).cache[x].Redirection? && Replay(log).cache[x].serial == x
  {
    if log != [] { RepliesAreReal(log[..|log| - 1]); }
  }

  lemma Remembers(s: Rep, serial: nat)
    requires MachineOk(s) && Occurs(s.log[..s.applied], serial)
    ensures serial in s.machine.cache && !s.machine.cache[serial].Redirection? && s.machine.cache[serial].serial == serial
  {
    ReplayExecutesOnce(s.log[..s.applied]);
    RepliesAreReal(s.log[..s.applied]);
  }

  lemma AnswerIsSent(c: Cluster, a: nat, req: Request, d: Cluster)
    requires Ready(c, Client(a, req)) && StepsTo(c, Client(a, req), d) && c.reps[a].role == Leader && req.serial in c.reps[a].machine.cache
    ensures ToClient(c.reps[a].machine.cache[req.serial]) in d.sent && c.sent <= d.sent
  {
    assert Unfold(0);
    assert HandleClient(c.reps[a], req) == (c.reps[a], [ToClient(c.reps[a].machine.cache[req.serial])]);
  }

  // ----- replies as one sequential history -----

  lemma {:induction false} FirstAt(log: seq<Entry>, serial: nat) returns (m: nat)
    requires Occurs(log, serial)
    ensures m < |log| && log[m].req.serial == serial && !Occurs(log[..m], serial)
  {
    var front := log[..|log| - 1];
    if Occurs(front, serial) {
      m := FirstAt(front, serial);
      assert front[..m] == log[..m];
    } else {
      OccursInSnoc(log, serial);
      m := |log| - 1;
    }
  }

  /** The m-th entry of what a quorum holds of round r's log is the first with the serial of x, and x
      is what its request gets when the first occurrences before it have been executed one by one. */
  ghost predicate SequentialAt(c: Cluster, x: Response, r: nat, k: nat, m: nat) {
    && Chosen(c, r, k) && m < k
    && var log := c.leaders[r].log;
       && log[m].req.serial == x.serial && !Occurs(log[..m], x.serial)
       && x == Process(ProcessAll(EMPTY_DB, FirstOccurrences(log[..m])), log[m].req).1
  }

  /** Every real reply, in every run, is the answer of a single store that executes the chosen requests
      one after the other, each serial once. */
  lemma RepliesAreSequential(n: nat, leader: nat, cs: seq<Cluster>, es: seq<Event>, j: nat, x: Response)
    requires IsRun(n, leader, cs, es) && j < |cs| && ToClient(x) in cs[j].sent && !x.Redirection?
    ensures exists r: nat, k: nat, m: nat :: SequentialAt(cs[j], x, r, k, m)
  {
    RunAuthority(n, leader, cs, es, j);
    var c := cs[j];
    assert Justified(c, ToClient(x).resp);
    var r: nat, k: nat :| JustifiedBy(c, x, r, k);
    var log := c.leaders[r].log[..k];
    ReplayRemembers(log);
    var m := FirstAt(log, x.serial);
    ReplayAnswers(log, m);
    assert log[..m] == c.leaders[r].log[..m];
    assert SequentialAt(c, x, r, k, m);
  }
}
