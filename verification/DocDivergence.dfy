/** Divergence: in the run of PaxosCounterexample two replicas that have applied equally many entries
    show different texts of one document. */
module DocDivergence {
  import opened PancyDb
  import opened PaxosSpec
  import opened PaxosMachine
  import opened PaxosCluster
  import opened PaxosSafety
  import opened PaxosPending
  import opened PaxosCounterexample
  import opened DocOps
  import opened Codec
  import opened DocState

  lemma {:induction false} GetsLeaveDb(k: nat)
    ensures PaxosMachine.Replay(Shared(k)).db == EMPTY_DB
  {
    if k > 0 {
      GetsLeaveDb(k - 1);
      assert Shared(k)[..k - 1] == Shared(k - 1);
    }
  }

  lemma LastEntry(k: nat, e: Entry)
    ensures PaxosMachine.Replay(Shared(k) + [e]) == Execute(PaxosMachine.Replay(Shared(k)), e.req)
  {
    assert (Shared(k) + [e])[..k] == Shared(k);
  }

  lemma FreshDb()
    ensures PaxosMachine.Replay(L1()).db == EMPTY_DB
  {
    GetsLeaveDb(16);
    LastEntry(16, FRESH);
  }

  lemma StaleDb()
    ensures PaxosMachine.Replay(L0()).db == Write(EMPTY_DB, OpKey("d", 0, 1), Serialize(Insert(0, "a")))
  {
    GetsLeaveDb(16);
    LastEntry(16, STALE);
    ReplayRemembers(Shared(16));
    assert !Occurs(Shared(16), EDIT.serial);
  }

  lemma EmptyReads(doc: string)
    ensures Reads(EMPTY_DB.rows, doc, [])
  {
  }

  lemma OneEdit(c: Committed)
    requires c.op == Insert(0, "a")
    ensures DocState.Replay([c]) == "a"
  {
    assert [c][..0] == [];
  }

  /** Without the condition on followers, convergence fails: replicas 0 and 1 have both applied 17
      entries, and document d reads "a" on one and is empty on the other. */
  lemma TextConvergenceFails() returns (cs: seq<Cluster>, es: seq<Event>, x: seq<Committed>, y: seq<Committed>)
    ensures IsRun(3, 0, cs, es) && |Now(cs).reps| == 3
    ensures Now(cs).reps[0].applied == Now(cs).reps[1].applied
    ensures Reads(Now(cs).reps[0].machine.db.rows, "d", x) && Reads(Now(cs).reps[1].machine.db.rows, "d", y)
    ensures DocState.Replay(x) == "a" && DocState.Replay(y) == ""
  {
    cs, es := CommitRuleUnsafe();
    SameDbs(cs, es);
    EmptyReads("d");
    CommitAppends(EMPTY_DB, "d", 0, 1, Insert(0, "a"), "d", []);
    var c := Committed(1, 0, 1, Insert(0, "a"), "");
    assert [] + [c] == [c];
    OneEdit(c);
    x, y := [c], [];
  }

  lemma SameDbs(cs: seq<Cluster>, es: seq<Event>)
    requires IsRun(3, 0, cs, es) && |Now(cs).reps| == 3
    requires Now(cs).reps[0].log == L0() && Now(cs).reps[1].log == L1()
    requires Now(cs).reps[0].applied == Now(cs).reps[1].applied == 17 == |L0()| == |L1()|
    ensures Now(cs).reps[0].machine.db == Write(EMPTY_DB, OpKey("d", 0, 1), Serialize(Insert(0, "a")))
    ensures Now(cs).reps[1].machine.db == EMPTY_DB
  {
    RunPending(3, 0, cs, es, |cs| - 1);
    var s, t := Now(cs).reps[0], Now(cs).reps[1];
    assert MachineOk(s) && MachineOk(t);
    assert s.log[..17] == L0() && t.log[..17] == L1();
    StaleDb();
    FreshDb();
  }
}
