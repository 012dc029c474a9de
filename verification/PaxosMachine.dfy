/** The replicated state machine as a function of the applied log, and why retries are harmless. */
module PaxosMachine {
  import opened Options
  import opened PancyDb
  import opened PaxosSpec

  /** The machine after executing a log from the start. */
  ghost function Replay(log: seq<Entry>): Machine {
    if log == [] then INITIAL_MACHINE else Execute(Replay(log[..|log| - 1]), log[|log| - 1].req)
  }

  /** The replica's database and response cache are what its applied prefix produces. */
  ghost predicate MachineOk(s: Rep) {
    s.applied <= |s.log| && s.machine == Replay(s.log[..s.applied])
  }

  ghost predicate Occurs(log: seq<Entry>, serial: nat) {
    exists k :: 0 <= k < |log| && log[k].req.serial == serial
  }

  /** The requests that are executed: the first occurrence of every serial. */
  ghost function FirstOccurrences(log: seq<Entry>): seq<Request> {
    if log == [] then []
    else
      var front := log[..|log| - 1];
      FirstOccurrences(front) + if Occurs(front, log[|log| - 1].req.serial) then [] else [log[|log| - 1].req]
  }

  lemma OccursInSnoc(log: seq<Entry>, x: nat)
    requires log != []
    ensures Occurs(log, x) <==> Occurs(log[..|log| - 1], x) || x == log[|log| - 1].req.serial
  {
    var front := log[..|log| - 1];
    if Occurs(front, x) {
      var k :| 0 <= k < |front| && front[k].req.serial == x;
      assert log[k].req.serial == x;
    }
    if Occurs(log, x) {
      var k :| 0 <= k < |log| && log[k].req.serial == x;
      assert k < |front| ==> front[k].req.serial == x;
    }
  }

  lemma ProcessAllSnoc(reqs: seq<Request>, last: Request)
    ensures ProcessAll(EMPTY_DB, reqs + [last]) == Process(ProcessAll(EMPTY_DB, reqs), last).0
  {
    assert (reqs + [last])[..|reqs|] == reqs;
  }

  /** At-most-once: the database is the fold of `process_req` over the first occurrence of each
      serial, and exactly the serials that occur have a remembered response. */
  lemma {:induction false} ReplayExecutesOnce(log: seq<Entry>)
    ensures Replay(log).db == ProcessAll(EMPTY_DB, FirstOccurrences(log))
    ensures forall x :: x in Replay(log).cache <==> Occurs(log, x)
  {
    ReplayRemembers(log);
    if log != [] {
      var front, last := log[..|log| - 1], log[|log| - 1].req;
      ReplayExecutesOnce(front);
      ExecuteEffect(Replay(front), last);
      if Occurs(front, last.serial) {
        assert FirstOccurrences(log) == FirstOccurrences(front);
      } else {
        ProcessAllSnoc(FirstOccurrences(front), last);
      }
    }
  }

  lemma {:induction false} ReplayRemembers(log: seq<Entry>)
    ensures forall x :: x in Replay(log).cache <==> Occurs(log, x)
  {
    if log != [] {
      var front, last := log[..|log| - 1], log[|log| - 1].req;
      ReplayRemembers(front);
      ExecuteEffect(Replay(front), last);
      forall x ensures x in Replay(log).cache <==> Occurs(log, x) { OccursInSnoc(log, x); }
    }
  }

  lemma ExecuteEffect(m: Machine, req: Request)
    ensures Execute(m, req).db == if req.serial in m.cache then m.db else Process(m.db, req).0
    ensures forall x :: x in Execute(m, req).cache <==> x in m.cache || x == req.serial
  {
  }

  /** The response remembered for a serial is what its first occurrence got, executed after the first
      occurrences of the serials before it. */
  lemma {:induction false} ReplayAnswers(log: seq<Entry>, k: nat)
    requires k < |log| && !Occurs(log[..k], log[k].req.serial)
    ensures var req, m := log[k].req, Replay(log);
            req.serial in m.cache
            && m.cache[req.serial] == Process(ProcessAll(EMPTY_DB, FirstOccurrences(log[..k])), req).1
    decreases |log|
  {
    var front := log[..|log| - 1];
    if k == |log| - 1 {
      ReplayExecutesOnce(front);
    } else {
      assert front[..k] == log[..k];
      ReplayAnswers(front, k);
    }
  }

  /** No serial is executed twice. */
  lemma {:induction false} ExecutedSerialsDistinct(log: seq<Entry>)
    ensures var f := FirstOccurrences(log); forall i, j :: 0 <= i < j < |f| ==> f[i].serial != f[j].serial
    ensures forall r :: r in FirstOccurrences(log) ==> Occurs(log, r.serial)
  {
    if log != [] {
      var front := log[..|log| - 1];
      ExecutedSerialsDistinct(front);
      forall r | r in FirstOccurrences(log) ensures Occurs(log, r.serial) { OccursInSnoc(log, r.serial); }
      var f := FirstOccurrences(log);
      forall i, j | 0 <= i < j < |f| ensures f[i].serial != f[j].serial {
        assert f[i] in FirstOccurrences(front);
      }
    }
  }

  /** Responses are filed under their own serial, and a longer log keeps every earlier response. */
  lemma {:induction false} ReplayKeepsResponses(log: seq<Entry>, k: nat)
    requires k <= |log|
    ensures forall x :: x in Replay(log).cache ==> Replay(log).cache[x].serial == x
    ensures forall x :: x in Replay(log[..k]).cache ==>
              x in Replay(log).cache && Replay(log).cache[x] == Replay(log[..k]).cache[x]
    decreases |log|
  {
    if log != [] {
      var front := log[..|log| - 1];
      if k == |log| {
        assert log[..k] == log;
        ReplayKeepsResponses(front, |front|);
      } else {
        ReplayKeepsResponses(front, k);
        assert front[..k] == log[..k];
      }
    }
  }

  /** A response sent to a client: a redirection, or what the machine remembers for its serial. */
  ghost predicate Answers(t: Rep, o: Output) {
    o.ToClient? ==> o.resp.Redirection? || (o.resp.serial in t.machine.cache && t.machine.cache[o.resp.serial] == o.resp)
  }

  /** Applying more keeps every answer right. */
  lemma AnswersLater(s: Rep, t: Rep, o: Output)
    requires MachineOk(s) && MachineOk(t) && s.applied <= t.applied && s.log[..s.applied] == t.log[..s.applied]
    requires Answers(s, o)
    ensures Answers(t, o)
  {
    ReplayKeepsResponses(t.log[..t.applied], s.applied);
    assert t.log[..t.applied][..s.applied] == s.log[..s.applied];
    assert s.machine == Replay(t.log[..t.applied][..s.applied]);
  }

  lemma ApplyNextOk(s: Rep)
    requires s.applied < s.commit <= |s.log| && MachineOk(s)
    ensures var (t, outs) := ApplyNext(s); MachineOk(t) && forall o :: o in outs ==> Answers(t, o)
  {
    var t := ApplyNext(s).0;
    assert t.log[..t.applied][..s.applied] == s.log[..s.applied];
    ReplayKeepsResponses(t.log[..t.applied], 0);
  }

  lemma ApplyCommittedOk(s: Rep)
    requires s.applied <= s.commit <= |s.log| && MachineOk(s)
    ensures var (t, outs) := ApplyCommitted(s); MachineOk(t) && forall o :: o in outs ==> Answers(t, o)
    decreases s.commit - s.applied
  {
    if s.applied < s.commit {
      var (t, o) := ApplyNext(s);
      ApplyNextOk(s);
      ApplyCommittedOk(t);
      var (u, p) := ApplyCommitted(t);
      ApplyKeeps(t);
      forall x | x in o ensures Answers(u, x) { AnswersLater(t, u, x); }
    }
  }
}
