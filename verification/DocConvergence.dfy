/** Convergence: replicas that have applied equally much show the same document
    (pset4/pt-collab.cc:954-972). */
module DocConvergence {
  import opened PancyDb
  import opened PaxosSpec
  import opened PaxosMachine
  import opened PaxosCluster
  import opened PaxosSafety
  import opened PaxosAgreement
  import opened PaxosAuthority
  import opened PaxosPending
  import opened DocState

  /** The store a log builds keeps its invariants. */
  lemma {:induction false} ReplayedStoreOk(log: seq<Entry>)
    ensures DbOk(PaxosMachine.Replay(log).db) && VersionsUnique(PaxosMachine.Replay(log).db.rows)
  {
    if log != [] {
      var m := PaxosMachine.Replay(log[..|log| - 1]);
      ReplayedStoreOk(log[..|log| - 1]);
      ProcessKeepsDbOk(m.db, log[|log| - 1].req);
      ProcessKeepsUnique(m.db, log[|log| - 1].req);
    }
  }

  /** In every run the store of every replica can be read: its versions are unique. */
  lemma StoreReadable(n: nat, leader: nat, cs: seq<Cluster>, es: seq<Event>, i: nat, a: nat)
    requires IsRun(n, leader, cs, es) && i < |cs| && a < |cs[i].reps|
    ensures DbOk(cs[i].reps[a].machine.db) && VersionsUnique(cs[i].reps[a].machine.db.rows)
  {
    RunPending(n, leader, cs, es, i);
    var s := cs[i].reps[a];
    assert MachineOk(s);
    ReplayedStoreOk(s.log[..s.applied]);
  }

  /** Replicas that have applied equally many entries, at whatever moments, read the same operations of
      every document and reconstruct the same text. */
  lemma TextConvergence(n: nat, leader: nat, cs: seq<Cluster>, es: seq<Event>, i: nat, j: nat, a: nat, b: nat,
                        doc: string, x: seq<Committed>, y: seq<Committed>)
    requires TruthfulRun(n, leader, cs, es) && i <= j < |cs| && a < |cs[i].reps| && b < |cs[j].reps|
    requires cs[i].reps[a].applied == cs[j].reps[b].applied
    requires Reads(cs[i].reps[a].machine.db.rows, doc, x) && Reads(cs[j].reps[b].machine.db.rows, doc, y)
    ensures x == y && DocState.Replay(x) == DocState.Replay(y)
  {
    StateMachineSafety(n, leader, cs, es, i, j, a, b);
    ReadsUnique(cs[i].reps[a].machine.db.rows, doc, x, y);
  }

  /** In every run leaders converge: any two replicas, each leading at the moment it is looked at, that
      have applied equally many entries show the same text of every document. */
  lemma LeaderTextConvergence(n: nat, leader: nat, cs: seq<Cluster>, es: seq<Event>, i: nat, j: nat, a: nat, b: nat,
                              doc: string, x: seq<Committed>, y: seq<Committed>)
    requires IsRun(n, leader, cs, es) && i <= j < |cs| && a < |cs[i].reps| && b < |cs[j].reps|
    requires cs[i].reps[a].role == cs[j].reps[b].role == Leader && cs[i].reps[a].applied == cs[j].reps[b].applied
    requires Reads(cs[i].reps[a].machine.db.rows, doc, x) && Reads(cs[j].reps[b].machine.db.rows, doc, y)
    ensures x == y && DocState.Replay(x) == DocState.Replay(y)
  {
    LeadersAgree(n, leader, cs, es, i, j, a, b);
    ReadsUnique(cs[i].reps[a].machine.db.rows, doc, x, y);
  }
}
