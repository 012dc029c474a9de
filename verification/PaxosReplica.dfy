/** The replica object of pset4/pt-paxos.cc. Its log is a map that forgets entries at or below
    the trim watermark and remembers only the round of the last one forgotten; `full` is the
    whole log, kept as a ghost. Every method is proved to do what the function of the same
    handler in PaxosSpec does to a replica that never trims, so trimming changes no behaviour.

    The object's many fields are grouped into records by what they are for; each method updates
    the members that the handler of the same name updates, in the same order of steps. */
module PaxosReplica {
  import opened Options
  import opened PancyDb
  import opened PaxosSpec

  /** role_, leader_index_, current_round_, promised_leader_, prepare_ok_ */
  datatype Election = Election(role: Role, leaderHint: nat, round: nat, promised: Option<nat>, prepareOk: seq<bool>)

  /** log_, next_slot_, trim_through_, trim_round_ */
  datatype Store = Store(entries: map<nat, Entry>, nextSlot: nat, trimThrough: nat, trimRound: nat)

  /** match_index_, next_index_ */
  datatype Peers = Peers(matchIndex: seq<nat>, nextIndex: seq<nat>)

  /** pending_clients_, pending_client_requests_, pending_client_serials_ */
  datatype Pending = Pending(inFlight: map<nat, nat>, queue: seq<Request>, busy: set<nat>)

  const NOTHING_PENDING := Pending(map[], [], {})

  /** Exactly the slots above `base` are in memory, without gaps, and the boundary round is the
      true round of slot `base`. */
  ghost predicate Holds(full: seq<Entry>, store: Store, base: nat) {
    && base <= |full| && store.nextSlot == |full| + 1
    && (forall k :: k in store.entries <==> base < k < store.nextSlot)
    && (forall k {:trigger store.entries[k]} :: base < k < store.nextSlot ==> store.entries[k] == full[k - 1])
    && (forall k :: 0 <= k < |full| ==> full[k].slot == k + 1)
    && store.trimRound == RoundAt(full, base)
  }

  /** `last_log_index` */
  function LastIndex(store: Store): nat {
    if store.nextSlot > 0 then store.nextSlot - 1 else 0
  }

  /** `round_at`: what is in memory gives the true round of every slot not below the watermark. */
  function StoredRound(store: Store, slot: nat): nat {
    if slot == 0 then 0
    else if slot == store.trimThrough then store.trimRound
    else if slot in store.entries then store.entries[slot].round
    else 0
  }

  lemma StoredRoundIsTrue(full: seq<Entry>, store: Store, slot: nat)
    requires Holds(full, store, store.trimThrough) && slot >= store.trimThrough
    ensures StoredRound(store, slot) == RoundAt(full, slot)
  {
  }

  /** `leader_is_up_to_date` */
  predicate AtLeastAsNew(store: Store, lastIndex: nat, lastRound: nat) {
    if lastRound != StoredRound(store, LastIndex(store)) then lastRound > StoredRound(store, LastIndex(store))
    else lastIndex >= LastIndex(store)
  }

  /** `prefix_matches` */
  predicate PrefixHeld(store: Store, prevIndex: nat, prevRound: nat) {
    if prevIndex == 0 then store.trimThrough == 0
    else if prevIndex < store.trimThrough then false
    else if prevIndex == store.trimThrough then prevRound == store.trimRound
    else prevIndex in store.entries && store.entries[prevIndex].round == prevRound
  }

  /** The append check on what is in memory accepts exactly what the full log would accept, save
      for prefixes below the watermark, which it refuses. */
  lemma PrefixHeldIsTrue(s: Rep, store: Store, prevIndex: nat, prevRound: nat)
    requires Holds(s.log, store, store.trimThrough) && s.trim == store.trimThrough
    ensures PrefixHeld(store, prevIndex, prevRound) <==> PrefixMatches(s, prevIndex, prevRound)
  {
  }

  class Replica {
    const id: nat
    const n: nat
    var election: Election
    var store: Store
    var commitIndex: nat
    var lastApplied: nat
    var peers: Peers
    var machine: Machine
    var pending: Pending
    ghost var full: seq<Entry>

    /** The never-trimming replica this one stands for. */
    ghost function Abs(): Rep
      reads this
    {
      Rep(id, n, election.role, election.leaderHint, election.round, election.promised, election.prepareOk,
          full, commitIndex, lastApplied, store.trimThrough, peers.matchIndex, peers.nextIndex,
          machine, pending.inFlight, pending.queue, pending.busy)
    }

    ghost predicate Valid()
      reads this
    {
      Shape(Abs()) && Holds(full, store, store.trimThrough)
    }

    constructor (id: nat, n: nat)
      requires id < n
      ensures this.id == id && this.n == n
      ensures Abs() == Rep(id, n, Follower, id, 0, None, Filled(n, false), [], 0, 0, 0,
                           Filled(n, 0), Filled(n, 1), INITIAL_MACHINE, map[], [], {})
      ensures Valid()
    {
      this.id, this.n := id, n;
      election := Election(Follower, id, 0, None, Filled(n, false));
      store := Store(map[], 1, 0, 0);
      commitIndex, lastApplied := 0, 0;
      peers := Peers(Filled(n, 0), Filled(n, 1));
      machine := INITIAL_MACHINE;
      pending := NOTHING_PENDING;
      full := [];
    }

    /** Called once on every fresh replica with the appointed leader of round 0. */
    method Initialize(leader: nat)
      requires Valid()
      requires Abs() == Rep(id, n, Follower, id, 0, None, Filled(n, false), [], 0, 0, 0,
                            Filled(n, 0), Filled(n, 1), INITIAL_MACHINE, map[], [], {})
      modifies this
      ensures Abs() == InitialRep(id, n, leader)
      ensures Valid()
    {
      election := election.(leaderHint := leader, role := if id == leader then Leader else Follower);
      if election.role == Leader {
        TakeOver();
      }
    }

    // ----- roles -----

    method StepDown(round: nat, hint: nat)
      requires Valid()
      modifies this`election, this`pending
      ensures Abs() == BecomeFollower(old(Abs()), round, hint)
      ensures Valid()
    {
      if round > election.round {
        election := election.(round := round, promised := None);
      }
      election := election.(role := Follower, leaderHint := hint, prepareOk := Filled(n, false));
      pending := NOTHING_PENDING;
    }

    method TakeOver()
      requires Valid()
      modifies this`election, this`peers
      ensures Abs() == BecomeLeader(old(Abs()))
      ensures Valid()
    {
      election := election.(role := Leader, leaderHint := id, promised := Some(id), prepareOk := Filled(n, false));
      peers := Peers(Filled(n, 0), Filled(n, LastIndex(store) + 1));
      peers := Peers(peers.matchIndex[id := LastIndex(store)], peers.nextIndex[id := LastIndex(store) + 1]);
    }

    // ----- trimming, committing, applying -----

    /** The least slot in memory. */
    method FirstSlot(ghost base: nat) returns (first: nat)
      requires Holds(full, store, base) && store.entries != map[]
      ensures first == base + 1 && first in store.entries
    {
      var some :| some in store.entries;
      assert base + 1 in store.entries;
      first :| first in store.entries && forall k :: k in store.entries ==> first <= k;
    }

    /** Forget the entries at or below the watermark, remembering the round of the last one. */
    method TrimLogPrefix(ghost base: nat)
      requires Holds(full, store, base) && base <= store.trimThrough <= |full|
      modifies this`store
      ensures Holds(full, store, store.trimThrough) && store.trimThrough == old(store.trimThrough)
    {
      ghost var b := base;
      while store.entries != map[]
        invariant base <= b <= store.trimThrough == old(store.trimThrough) && Holds(full, store, b)
        decreases store.trimThrough - b
      {
        var first := FirstSlot(b);
        if first > store.trimThrough { break; }
        store := store.(trimRound := store.entries[first].round, entries := store.entries - {first});
        b := b + 1;
      }
      assert b + 1 <= |full| ==> b + 1 in store.entries;
    }

    method UpdateCommitIndex()
      requires Valid()
      modifies this`commitIndex
      ensures Abs() == UpdateCommit(old(Abs()))
      ensures Valid()
    {
      if election.role != Leader { return; }
      ghost var s := Abs();
      var idx := LastIndex(store);
      while idx > commitIndex
        invariant commitIndex == old(commitIndex) <= idx <= |full|
        invariant CommitScan(s, |full|) == CommitScan(s, idx)
        decreases idx
      {
        StoredRoundIsTrue(full, store, idx);
        if StoredRound(store, idx) == election.round {
          var replicated := CountHolders(idx);
          if replicated >= n / 2 + 1 {
            commitIndex := idx;
            return;
          }
        }
        idx := idx - 1;
      }
    }

    method CountHolders(idx: nat) returns (replicated: nat)
      requires Valid()
      ensures replicated == |Holders(Abs(), idx)|
    {
      replicated := 1;
      ghost var seen: set<nat> := {id};
      for p := 0 to n
        invariant seen == {id} + set q | 0 <= q < p && q != id && peers.matchIndex[q] >= idx
        invariant replicated == |seen|
      {
        if p != id && peers.matchIndex[p] >= idx {
          replicated := replicated + 1;
          seen := seen + {p};
        }
      }
    }

    method UpdateTrimWatermark()
      requires Valid() && lastApplied == commitIndex
      modifies this`store
      ensures Abs() == UpdateTrim(old(Abs())) && old(store.trimThrough) <= store.trimThrough
      ensures old(store.trimThrough) < store.trimThrough ==> election.role == Leader && Trimmable(Abs(), store.trimThrough)
      ensures election.role == Leader ==> forall x: nat :: Trimmable(Abs(), x) ==> x <= store.trimThrough
      ensures Valid()
    {
      UpdateTrimIsLargest(Abs());
      if election.role != Leader { return; }
      var minMatch := peers.matchIndex[id];
      for p := 0 to n
        invariant minMatch == MinOf(peers.matchIndex[id], peers.matchIndex[..p])
      {
        assert peers.matchIndex[..p + 1][..p] == peers.matchIndex[..p];
        minMatch := Min(minMatch, peers.matchIndex[p]);
      }
      assert peers.matchIndex[..n] == peers.matchIndex;
      minMatch := Min(minMatch, commitIndex);
      var target := if minMatch > TRIM_RETENTION then minMatch - TRIM_RETENTION else 0;
      if target > store.trimThrough {
        ghost var base := store.trimThrough;
        store := store.(trimThrough := target);
        TrimLogPrefix(base);
      }
    }

    /** Apply the next committed slot. It is still in memory: nothing unapplied is ever trimmed. */
    method ApplyOne() returns (outs: seq<Output>)
      requires Valid() && lastApplied < commitIndex
      modifies this`lastApplied, this`machine, this`pending
      ensures Abs() == ApplyNext(old(Abs())).0 && outs == ApplyNext(old(Abs())).1
      ensures Valid()
    {
      lastApplied := lastApplied + 1;
      assert lastApplied in store.entries;
      var req := store.entries[lastApplied].req;
      if req.serial !in machine.cache {
        var (db, resp) := Process(machine.db, req);
        machine := Machine(db, machine.cache[req.serial := resp]);
      }
      outs := [];
      if election.role == Leader && req.serial in pending.inFlight && pending.inFlight[req.serial] == lastApplied {
        outs := [ToClient(machine.cache[req.serial])];
        pending := pending.(inFlight := pending.inFlight - {req.serial}, busy := pending.busy - {req.serial});
      }
    }

    /** Apply committed slots strictly in order. */
    method ApplyCommittedEntries() returns (outs: seq<Output>)
      requires Valid()
      modifies this`lastApplied, this`machine, this`pending, this`store
      ensures Abs() == ApplyCommitted(old(Abs())).0 && outs == ApplyCommitted(old(Abs())).1
      ensures Valid()
    {
      outs := [];
      ghost var goal := ApplyCommitted(Abs());
      ApplyingStarts(Abs());
      while lastApplied < commitIndex
        invariant Valid() && commitIndex == old(commitIndex)
        invariant Applying(Abs(), outs, goal.0, goal.1)
        decreases commitIndex - lastApplied
      {
        ghost var s := Abs();
        var o := ApplyOne();
        ApplyingStep(s, outs, goal.0, goal.1, Abs(), o);
        outs := outs + o;
      }
      ApplyingEnds(Abs(), outs, goal.0, goal.1);
      TrimLogPrefix(store.trimThrough);
    }

    // ----- sending -----

    /** A contiguous run of at most a batch of entries from slot `next` on. */
    method CollectBatch(next: nat) returns (entries: seq<Entry>)
      requires Valid() && next > store.trimThrough
      ensures entries == Batch(full, next - 1)
      ensures |entries| == Min(16, Max(0, |full| - (next - 1))) && forall k :: 0 <= k < |entries| ==> entries[k] == full[next - 1 + k]
    {
      entries := [];
      while |entries| < APPEND_BATCH_SIZE && next + |entries| in store.entries
        invariant |entries| <= APPEND_BATCH_SIZE
        invariant if next - 1 <= |full| then next - 1 + |entries| <= |full| && entries == full[next - 1..next - 1 + |entries|]
                  else entries == []
      {
        entries := entries + [store.entries[next + |entries|]];
      }
    }

    method SendProposeTo(peer: nat) returns (outs: seq<Output>)
      requires Valid() && peer < n
      modifies this`peers
      ensures Abs() == SendPropose(old(Abs()), peer).0 && outs == SendPropose(old(Abs()), peer).1
      ensures Valid()
    {
      if peer == id || election.role != Leader { return []; }
      var next := Max(peers.nextIndex[peer], store.trimThrough + 1);
      peers := peers.(nextIndex := peers.nextIndex[peer := next]);
      var entries := CollectBatch(next);
      StoredRoundIsTrue(full, store, next - 1);
      outs := [ToReplica(peer, Propose(election.round, id, next - 1, StoredRound(store, next - 1), commitIndex,
                                       store.trimThrough, entries))];
    }

    method BroadcastPropose() returns (outs: seq<Output>)
      requires Valid()
      modifies this`peers
      ensures Abs() == Broadcast(old(Abs())).0 && outs == Broadcast(old(Abs())).1
      ensures Valid()
    {
      outs := [];
      ghost var s := Abs();
      for p := 0 to n
        invariant Valid() && Abs() == BroadcastTo(s, p).0 && outs == BroadcastTo(s, p).1
      {
        ghost var before := Abs();
        if p != id {
          var o := SendProposeTo(p);
          outs := outs + o;
        } else {
          assert SendPropose(before, p) == (before, []);
        }
      }
    }

    // ----- client requests -----

    /** Move the oldest queued request to the end of the log. */
    method AppendOne()
      requires Holds(full, store, store.trimThrough) && pending.queue != []
      modifies this`pending, this`store, this`full
      ensures var req, was := old(pending.queue[0]), old(pending);
              && full == old(full) + [Entry(|old(full)| + 1, election.round, req)]
              && pending == was.(queue := was.queue[1..],
                                 inFlight := if req.serial in was.inFlight then was.inFlight
                                             else was.inFlight[req.serial := |old(full)| + 1])
      ensures Holds(full, store, store.trimThrough) && store.trimThrough == old(store.trimThrough)
    {
      var req := pending.queue[0];
      var slot := store.nextSlot;
      var entry := Entry(slot, election.round, req);
      pending := pending.(queue := pending.queue[1..]);
      store := store.(nextSlot := slot + 1, entries := store.entries[slot := entry]);
      full := full + [entry];
      if req.serial !in pending.inFlight {
        pending := pending.(inFlight := pending.inFlight[req.serial := slot]);
      }
    }

    /** Move the `batch` oldest queued requests to the end of the log. */
    method DrainQueue(batch: nat)
      requires Holds(full, store, store.trimThrough) && batch <= |pending.queue|
      modifies this`pending, this`store, this`full
      ensures var s := old(Abs());
              && full == s.log + NewEntries(s, batch)
              && pending == Pending(Register(s.inFlight, s.queue[..batch], |s.log| + 1), s.queue[batch..], s.busy)
      ensures Holds(full, store, store.trimThrough) && store.trimThrough == old(store.trimThrough)
    {
      ghost var s := Abs();
      for i := 0 to batch
        invariant Holds(full, store, store.trimThrough) && store.trimThrough == old(store.trimThrough)
        invariant full == s.log + NewEntries(s, i)
        invariant pending == Pending(Register(s.inFlight, s.queue[..i], |s.log| + 1), s.queue[i..], s.busy)
      {
        AppendOne();
        AppendOneMore(s, i);
      }
    }

    /** Append up to a batch of queued requests to the log. */
    method AppendBatch()
      requires Valid() && election.role == Leader
      modifies this`pending, this`store, this`full, this`peers
      ensures Abs() == AppendQueued(old(Abs()))
      ensures Valid()
    {
      DrainQueue(Min(|pending.queue|, APPEND_BATCH_SIZE));
      peers := Peers(peers.matchIndex[id := LastIndex(store)], peers.nextIndex[id := LastIndex(store) + 1]);
    }

    method AdvanceAll() returns (outs: seq<Output>)
      requires Valid()
      modifies this`commitIndex, this`lastApplied, this`machine, this`pending, this`store
      ensures Abs() == Advance(old(Abs())).0 && outs == Advance(old(Abs())).1
      ensures Valid()
    {
      UpdateCommitIndex();
      ApplyKeeps(Abs());
      outs := ApplyCommittedEntries();
      UpdateTrimWatermark();
    }

    method FlushOne() returns (outs: seq<Output>)
      requires Valid() && election.role == Leader
      modifies this
      ensures Abs() == FlushBatch(old(Abs())).0 && outs == FlushBatch(old(Abs())).1
      ensures Valid()
    {
      AppendBatch();
      outs := BroadcastPropose();
      var o := AdvanceAll();
      outs := outs + o;
    }

    method FlushPendingClientRequests() returns (outs: seq<Output>)
      requires Valid()
      modifies this
      ensures Abs() == Flush(old(Abs())).0 && outs == Flush(old(Abs())).1
      ensures Valid()
    {
      outs := [];
      ghost var goal := Flush(Abs());
      FlushingStarts(Abs());
      while election.role == Leader && pending.queue != []
        invariant Valid()
        invariant Flushing(Abs(), outs, goal.0, goal.1)
        decreases |pending.queue|
      {
        ghost var s := Abs();
        var o := FlushOne();
        FlushingStep(s, outs, goal.0, goal.1, Abs(), o);
        outs := outs + o;
      }
      FlushingEnds(Abs(), outs, goal.0, goal.1);
    }

    // ----- the handlers -----

    method SendProbes() returns (outs: seq<Output>)
      requires Valid()
      ensures outs == ToPeers(Abs(), Probe(election.round, id, |full|, RoundAt(full, |full|)), n)
    {
      StoredRoundIsTrue(full, store, |full|);
      var msg := Probe(election.round, id, LastIndex(store), StoredRound(store, LastIndex(store)));
      outs := [];
      for p := 0 to n
        invariant outs == ToPeers(Abs(), msg, p)
      {
        if p != id {
          outs := outs + [ToReplica(p, msg)];
        }
      }
    }

    method StartProbeRound() returns (outs: seq<Output>)
      requires Valid()
      modifies this`election, this`peers
      ensures Abs() == StartProbe(old(Abs())).0 && outs == StartProbe(old(Abs())).1
      ensures Valid()
    {
      election := Election(Candidate, id, election.round + 1, Some(id), Filled(n, false));
      election := election.(prepareOk := election.prepareOk[id := true]);
      outs := SendProbes();
      if 1 >= n / 2 + 1 {
        TakeOver();
        var o := BroadcastPropose();
        outs := outs + o;
      }
    }

    method OnProbe(m: Message) returns (outs: seq<Output>)
      requires Valid() && m.Probe?
      modifies this`election, this`pending
      ensures Abs() == HandleProbe(old(Abs()), m).0 && outs == HandleProbe(old(Abs()), m).1
      ensures Valid()
    {
      if m.round < election.round {
        return [ToReplica(m.leader, Prepare(election.round, id, false))];
      }
      if m.round > election.round {
        StepDown(m.round, election.leaderHint);
      }
      var promise := false;
      StoredRoundIsTrue(full, store, |full|);
      if (election.promised == None || election.promised == Some(m.leader)) && AtLeastAsNew(store, m.lastIndex, m.lastRound) {
        election := election.(promised := Some(m.leader), leaderHint := m.leader);
        promise := true;
      }
      outs := [ToReplica(m.leader, Prepare(election.round, id, promise))];
    }

    method CountPromises() returns (promises: nat)
      requires |election.prepareOk| == n
      ensures promises == |set p | 0 <= p < n && election.prepareOk[p]|
    {
      promises := 0;
      ghost var seen: set<nat> := {};
      for p := 0 to n
        invariant seen == set q | 0 <= q < p && election.prepareOk[q]
        invariant promises == |seen|
      {
        if election.prepareOk[p] {
          promises := promises + 1;
          seen := seen + {p};
        }
      }
    }

    method OnPrepare(m: Message) returns (outs: seq<Output>)
      requires Valid() && m.Prepare? && m.server < n
      modifies this`election, this`pending, this`peers
      ensures Abs() == HandlePrepare(old(Abs()), m).0 && outs == HandlePrepare(old(Abs()), m).1
      ensures Valid()
    {
      if m.round > election.round {
        StepDown(m.round, election.leaderHint);
        return [];
      }
      if election.role != Candidate || m.round != election.round || !m.promised || election.prepareOk[m.server] { return []; }
      election := election.(prepareOk := election.prepareOk[m.server := true]);
      var promises := CountPromises();
      assert promises == |Promisers(Abs())|;
      outs := [];
      if promises >= n / 2 + 1 {
        TakeOver();
        outs := BroadcastPropose();
      }
    }

    /** Discard whatever lies at or above `slot`. */
    method EraseFrom(slot: nat)
      requires Holds(full, store, store.trimThrough) && store.trimThrough < slot <= |full|
      modifies this`store, this`full
      ensures Holds(full, store, store.trimThrough) && full == old(full)[..slot - 1]
      ensures store.trimThrough == old(store.trimThrough)
    {
      var kept := map k | k in store.entries && k < slot :: store.entries[k];
      store := store.(entries := kept, nextSlot := slot);
      full := full[..slot - 1];
    }

    /** Accept one entry of a batch: keep it, append it, or let it replace a conflicting tail. */
    method MergeOne(entry: Entry) returns (blocked: bool)
      requires Holds(full, store, store.trimThrough) && store.trimThrough < entry.slot <= |full| + 1
      modifies this`store, this`full
      ensures var k := entry.slot - 1;
              && (blocked <==> k < |old(full)| && old(full)[k].round != entry.round && commitIndex >= entry.slot)
              && full == (if blocked then old(full)
                          else if k < |old(full)| && old(full)[k].round != entry.round then old(full)[..k] + [entry]
                          else if k < |old(full)| then old(full) else old(full) + [entry])
      ensures Holds(full, store, store.trimThrough) && store.trimThrough == old(store.trimThrough)
    {
      blocked := false;
      if entry.slot in store.entries && store.entries[entry.slot].round != entry.round {
        if commitIndex >= entry.slot {
          return true;
        }
        EraseFrom(entry.slot);
      }
      if entry.slot !in store.entries {
        HoldsOneMore(full, store, entry);
        store := store.(entries := store.entries[entry.slot := entry], nextSlot := Max(store.nextSlot, entry.slot + 1));
        full := full + [entry];
      }
    }

    /** Accept a batch that follows a checked prefix; `blocked` reports a conflict with a committed
        slot. No entry lies in the trimmed prefix, since the batch starts after a checked slot. */
    method MergeEntries(prev: nat, entries: seq<Entry>) returns (blocked: bool, slot: nat)
      requires Holds(full, store, store.trimThrough) && store.trimThrough <= prev <= |full| && commitIndex <= |full|
      requires Consecutive(prev, entries)
      modifies this`store, this`full
      ensures blocked ==> Merge(old(full), commitIndex, prev, entries) == Blocked(slot) && full == old(full)
      ensures !blocked ==> Merge(old(full), commitIndex, prev, entries) == Merged(full) && slot == prev + |entries|
      ensures Holds(full, store, store.trimThrough) && store.trimThrough == old(store.trimThrough)
    {
      slot := prev;
      ghost var was := full;
      assert Merge(was, commitIndex, prev, entries[..0]) == Merged(full);
      for i := 0 to |entries|
        invariant Holds(full, store, store.trimThrough) && store.trimThrough == old(store.trimThrough)
        invariant slot == prev + i && Merge(was, commitIndex, prev, entries[..i]) == Merged(full)
      {
        MergeStep(was, commitIndex, prev, entries, i, full);
        slot := entries[i].slot;
        blocked := MergeOne(entries[i]);
        if blocked {
          MergeBlocked(was, commitIndex, prev, entries, i, full);
          return;
        }
      }
      assert entries[..|entries|] == entries;
      blocked := false;
    }

    /** After a successful merge: move the commit index, apply, trim, acknowledge. */
    method AcceptBatch(m: Message, slot: nat) returns (outs: seq<Output>)
      requires Valid() && m.Propose?
      modifies this`commitIndex, this`lastApplied, this`machine, this`pending, this`store
      ensures Abs() == Accepted(old(Abs()), m).0
      ensures outs == Accepted(old(Abs()), m).1 + [ToReplica(m.leader, Ack(election.round, id, true, slot, slot + 1))]
      ensures Valid()
    {
      if m.decide > commitIndex {
        commitIndex := Min(m.decide, LastIndex(store));
      }
      ApplyKeeps(Abs());
      outs := ApplyCommittedEntries();
      if m.trim > store.trimThrough {
        ghost var base := store.trimThrough;
        store := store.(trimThrough := Min(m.trim, lastApplied));
        TrimLogPrefix(base);
      }
      outs := outs + [ToReplica(m.leader, Ack(election.round, id, true, slot, slot + 1))];
    }

    method OnPropose(m: Message) returns (outs: seq<Output>)
      requires Valid() && m.Propose? && Consecutive(m.prevIndex, m.entries)
      modifies this
      ensures Abs() == HandlePropose(old(Abs()), m).0 && outs == HandlePropose(old(Abs()), m).1
      ensures Valid()
    {
      if m.round < election.round {
        return [ToReplica(m.leader, Ack(election.round, id, false, LastIndex(store), LastIndex(store) + 1))];
      }
      StepDown(m.round, m.leader);
      PrefixHeldIsTrue(Abs(), store, m.prevIndex, m.prevRound);
      if !PrefixHeld(store, m.prevIndex, m.prevRound) {
        var next := store.trimThrough + 1;
        if m.prevIndex > store.trimThrough {
          next := Min(m.prevIndex, LastIndex(store) + 1);
        }
        return [ToReplica(m.leader, Ack(election.round, id, false, LastIndex(store), next))];
      }
      outs := AppendMatched(m);
    }

    /** The prefix matches: merge the batch and act on it. */
    method AppendMatched(m: Message) returns (outs: seq<Output>)
      requires Valid() && m.Propose? && Consecutive(m.prevIndex, m.entries)
      requires store.trimThrough <= m.prevIndex <= |full|
      modifies this`store, this`full, this`commitIndex, this`lastApplied, this`machine, this`pending
      ensures Abs() == AppendChecked(old(Abs()), m).0 && outs == AppendChecked(old(Abs()), m).1
      ensures Valid()
    {
      ghost var f := Abs();
      MergeKeepsCommitted(f.log, f.commit, m.prevIndex, m.entries);
      var blocked, slot := MergeEntries(m.prevIndex, m.entries);
      if blocked {
        return [ToReplica(m.leader, Ack(election.round, id, false, LastIndex(store), slot))];
      }
      outs := AcceptBatch(m, slot);
    }

    method OnAck(m: Message) returns (outs: seq<Output>)
      requires Valid() && m.Ack? && m.server < n
      modifies this
      ensures Abs() == HandleAck(old(Abs()), m).0 && outs == HandleAck(old(Abs()), m).1
      ensures Valid()
    {
      if m.round > election.round {
        StepDown(m.round, election.leaderHint);
        return [];
      }
      if election.role != Leader || m.round != election.round { return []; }
      if m.success {
        peers := Peers(peers.matchIndex[m.server := Max(peers.matchIndex[m.server], m.matchIndex)],
                       peers.nextIndex[m.server := Max(peers.nextIndex[m.server], m.nextIndex)]);
        AdvanceKeeps(Abs());
        outs := AdvanceAll();
        if peers.nextIndex[m.server] <= LastIndex(store) {
          var o := SendProposeTo(m.server);
          outs := outs + o;
        }
        return;
      }
      var fallback := m.nextIndex;
      if fallback == 0 {
        fallback := 1;
      }
      if fallback >= peers.nextIndex[m.server] {
        fallback := if peers.nextIndex[m.server] > 1 then peers.nextIndex[m.server] - 1 else 1;
      }
      peers := peers.(nextIndex := peers.nextIndex[m.server := Max(fallback, store.trimThrough + 1)]);
      outs := SendProposeTo(m.server);
    }

    method OnReplicaMessage(m: Message) returns (outs: seq<Output>)
      requires Valid() && (m.Prepare? || m.Ack? ==> m.server < n)
      requires m.Propose? ==> Consecutive(m.prevIndex, m.entries)
      modifies this
      ensures Abs() == HandleReplicaMessage(old(Abs()), m).0 && outs == HandleReplicaMessage(old(Abs()), m).1
      ensures Valid()
    {
      match m
      case Probe(_, _, _, _) => outs := OnProbe(m);
      case Prepare(_, _, _) => outs := OnPrepare(m);
      case Propose(_, _, _, _, _, _, _) => outs := OnPropose(m);
      case Ack(_, _, _, _, _) => outs := OnAck(m);
    }

    method OnClientRequest(req: Request) returns (outs: seq<Output>)
      requires Valid()
      modifies this
      ensures Abs() == HandleClient(old(Abs()), req).0 && outs == HandleClient(old(Abs()), req).1
      ensures Valid()
    {
      if election.role != Leader {
        return [ToClient(Redirection(req.serial, Redirect, if election.role == Candidate then id else election.leaderHint))];
      }
      if req.serial in machine.cache {
        return [ToClient(machine.cache[req.serial])];
      }
      if req.serial in pending.busy { return []; }
      pending := pending.(busy := pending.busy + {req.serial}, queue := pending.queue + [req]);
      outs := [];
      if |pending.queue| >= APPEND_BATCH_SIZE {
        outs := FlushPendingClientRequests();
      }
    }

    method OnTimeout() returns (outs: seq<Output>)
      requires Valid()
      modifies this
      ensures Abs() == HandleTimeout(old(Abs())).0 && outs == HandleTimeout(old(Abs())).1
      ensures Valid()
    {
      if election.role == Leader {
        if pending.queue != [] {
          outs := FlushPendingClientRequests();
        } else {
          outs := BroadcastPropose();
        }
      } else {
        outs := StartProbeRound();
      }
    }
  }

  // ----- the loops that apply and flush, one turn at a time -----

  /** From s, with `outs` sent already, applying what is committed ends in t with `all` sent; kept folded. */
  ghost predicate Applying(s: Rep, outs: seq<Output>, t: Rep, all: seq<Output>) {
    forall n {:trigger Unfold(n)} :: Unfold(n) ==>
      s.applied <= s.commit <= |s.log| && ApplyCommitted(s).0 == t && outs + ApplyCommitted(s).1 == all
  }

  lemma ApplyingStarts(s: Rep)
    requires s.applied <= s.commit <= |s.log|
    ensures Applying(s, [], ApplyCommitted(s).0, ApplyCommitted(s).1)
  {
  }

  lemma ApplyingStep(s: Rep, outs: seq<Output>, t: Rep, all: seq<Output>, u: Rep, o: seq<Output>)
    requires Applying(s, outs, t, all) && s.applied < s.commit <= |s.log| && u == ApplyNext(s).0 && o == ApplyNext(s).1
    ensures Applying(u, outs + o, t, all)
  {
    assert Unfold(0);
    assert outs + (o + ApplyCommitted(u).1) == (outs + o) + ApplyCommitted(u).1;
  }

  lemma ApplyingEnds(s: Rep, outs: seq<Output>, t: Rep, all: seq<Output>)
    requires Applying(s, outs, t, all) && s.applied >= s.commit
    ensures s == t && outs == all
  {
    assert Unfold(0);
  }

  /** The same for flushing the queue. */
  ghost predicate Flushing(s: Rep, outs: seq<Output>, t: Rep, all: seq<Output>) {
    forall n {:trigger Unfold(n)} :: Unfold(n) ==> Shape(s) && Flush(s).0 == t && outs + Flush(s).1 == all
  }

  lemma FlushingStarts(s: Rep)
    requires Shape(s)
    ensures Flushing(s, [], Flush(s).0, Flush(s).1)
  {
  }

  lemma FlushingStep(s: Rep, outs: seq<Output>, t: Rep, all: seq<Output>, u: Rep, o: seq<Output>)
    requires Flushing(s, outs, t, all) && Shape(s) && s.role == Leader && s.queue != []
    requires u == FlushBatch(s).0 && o == FlushBatch(s).1
    ensures Flushing(u, outs + o, t, all) && |u.queue| < |s.queue|
  {
    assert Unfold(0);
    FlushBatchKeeps(s);
    assert outs + (o + Flush(u).1) == (outs + o) + Flush(u).1;
  }

  lemma FlushingEnds(s: Rep, outs: seq<Output>, t: Rep, all: seq<Output>)
    requires Flushing(s, outs, t, all) && (s.role != Leader || s.queue == [])
    ensures s == t && outs == all
  {
    assert Unfold(0);
  }

  // ----- the append loop, one entry at a time -----

  /** A slot above the watermark that is not in memory is the next one. */
  lemma HoldsOneMore(full: seq<Entry>, store: Store, entry: Entry)
    requires Holds(full, store, store.trimThrough) && store.trimThrough < entry.slot <= |full| + 1 && entry.slot !in store.entries
    ensures entry.slot == |full| + 1
    ensures Holds(full + [entry], store.(entries := store.entries[entry.slot := entry], nextSlot := Max(store.nextSlot, entry.slot + 1)),
                  store.trimThrough)
  {
  }

  lemma AppendOneMore(s: Rep, i: nat)
    requires i < |s.queue|
    ensures s.log + NewEntries(s, i + 1) == (s.log + NewEntries(s, i)) + [Entry(|s.log| + i + 1, s.round, s.queue[i])]
    ensures var m, x := Register(s.inFlight, s.queue[..i], |s.log| + 1), s.queue[i].serial;
            Register(s.inFlight, s.queue[..i + 1], |s.log| + 1) == if x in m then m else m[x := |s.log| + i + 1]
  {
    assert s.queue[..i + 1][..i] == s.queue[..i];
  }

  lemma FirstConflictPrefix(log: seq<Entry>, prev: nat, entries: seq<Entry>, i: nat, k: nat)
    requires i <= k <= |entries|
    ensures var whole, part := FirstConflict(log, prev, entries, i), FirstConflict(log, prev, entries[..k], i);
            if whole.Some? && whole.value < k then part == whole else part == None
    decreases k - i
  {
    if i < k {
      FirstConflictPrefix(log, prev, entries, i + 1, k);
    } else {
      assert FirstConflict(log, prev, entries[..k], i) == None;
    }
  }

  /** How the merged log changes when the batch grows by its next entry. */
  lemma MergeStep(log: seq<Entry>, commit: nat, prev: nat, entries: seq<Entry>, i: nat, cur: seq<Entry>)
    requires prev <= |log| && i < |entries| && Merge(log, commit, prev, entries[..i]) == Merged(cur)
    ensures prev + i <= |cur|
    ensures Merge(log, commit, prev, entries[..i + 1]) ==
            if prev + i < |cur| && cur[prev + i].round != entries[i].round then
              (if commit >= prev + i + 1 then Blocked(prev + i + 1) else Merged(cur[..prev + i] + [entries[i]]))
            else if prev + i < |cur| then Merged(cur)
            else Merged(cur + [entries[i]])
  {
    var c := FirstConflict(log, prev, entries, 0);
    FirstConflictPrefix(log, prev, entries, 0, i);
    FirstConflictPrefix(log, prev, entries, 0, i + 1);
    if c.Some? && c.value < i {
      ReplacingStep(log, commit, prev, entries, i, cur, c.value);
    } else {
      FreshStep(log, commit, prev, entries, i, cur);
    }
  }

  /** Past the first conflict the batch only appends. */
  lemma ReplacingStep(log: seq<Entry>, commit: nat, prev: nat, entries: seq<Entry>, i: nat, cur: seq<Entry>, j: nat)
    requires j < i < |entries| && prev + j <= |log| && commit < prev + j + 1 && cur == log[..prev + j] + entries[..i][j..]
    requires FirstConflict(log, prev, entries[..i + 1], 0) == Some(j)
    ensures |cur| == prev + i && Merge(log, commit, prev, entries[..i + 1]) == Merged(cur + [entries[i]])
  {
    TakeDrop(entries, i, j);
    assert log[..prev + j] + entries[..i + 1][j..] == cur + [entries[i]];
  }

  /** No conflict so far: the log is untouched, or only extended. */
  lemma FreshStep(log: seq<Entry>, commit: nat, prev: nat, entries: seq<Entry>, i: nat, cur: seq<Entry>)
    requires prev <= |log| && i < |entries|
    requires FirstConflict(log, prev, entries[..i], 0) == None
    requires cur == if prev + i <= |log| then log else log + entries[..i][|log| - prev..]
    requires FirstConflict(log, prev, entries[..i + 1], 0) ==
             if prev + i < |log| && log[prev + i].round != entries[i].round then Some(i) else None
    ensures Merge(log, commit, prev, entries[..i + 1]) ==
            if prev + i < |cur| && cur[prev + i].round != entries[i].round then
              (if commit >= prev + i + 1 then Blocked(prev + i + 1) else Merged(cur[..prev + i] + [entries[i]]))
            else if prev + i < |cur| then Merged(cur)
            else Merged(cur + [entries[i]])
  {
    if prev + i < |log| {
      TakeDrop(entries, i, i);
    } else {
      FreshBeyond(log, commit, prev, entries, i, cur);
    }
  }

  lemma FreshBeyond(log: seq<Entry>, commit: nat, prev: nat, entries: seq<Entry>, i: nat, cur: seq<Entry>)
    requires prev <= |log| <= prev + i && i < |entries| && FirstConflict(log, prev, entries[..i + 1], 0) == None
    requires cur == if prev + i <= |log| then log else log + entries[..i][|log| - prev..]
    ensures |cur| == prev + i && Merge(log, commit, prev, entries[..i + 1]) == Merged(cur + [entries[i]])
  {
    var d := |log| - prev;
    TakeDrop(entries, i, d);
    TakeDrop(entries, i, i);
    assert log + (entries[..i][d..] + [entries[i]]) == (log + entries[..i][d..]) + [entries[i]];
    if d == i { assert log + [] == log; }
  }

  lemma TakeDrop(entries: seq<Entry>, i: nat, d: nat)
    requires d <= i < |entries|
    ensures entries[..i + 1][d..] == entries[..i][d..] + [entries[i]]
    ensures entries[..i][i..] == [] && entries[..i + 1][i..] == [entries[i]]
  {
  }

  /** A conflict with a committed slot ends the batch, whatever follows. */
  lemma MergeBlocked(log: seq<Entry>, commit: nat, prev: nat, entries: seq<Entry>, i: nat, cur: seq<Entry>)
    requires prev <= |log| && i < |entries| && Merge(log, commit, prev, entries[..i + 1]) == Blocked(prev + i + 1)
    requires Merge(log, commit, prev, entries[..i]) == Merged(cur) && commit <= |log|
    requires prev + i < |cur| && cur[prev + i].round != entries[i].round && commit >= prev + i + 1
    ensures Merge(log, commit, prev, entries) == Blocked(prev + i + 1) && cur == log
  {
    FirstConflictPrefix(log, prev, entries, 0, i + 1);
    FirstConflictPrefix(log, prev, entries, 0, i);
  }
}
