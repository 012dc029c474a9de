/** What each handler of `pt_paxos_replica` (pset4/pt-paxos.cc) does, stated over a replica that
    never discards a log entry: `log` is the whole replicated log, slot k at index k - 1, and
    `trim` is only the watermark below which the real replica has forgotten the entries.

    The class in PaxosReplica.dfy, which does forget them, is proved to follow these functions.
    Deadlines and timeouts are not part of the state: they become steps that may always happen. */
module PaxosSpec {
  import opened Options
  import opened PancyDb

  const APPEND_BATCH_SIZE := 16
  const TRIM_RETENTION := 256

  datatype Role = Follower | Candidate | Leader

  datatype Entry = Entry(slot: nat, round: nat, req: Request)

  datatype Message =
    | Probe(round: nat, leader: nat, lastIndex: nat, lastRound: nat)
    | Prepare(round: nat, server: nat, promised: bool)
    | Propose(round: nat, leader: nat, prevIndex: nat, prevRound: nat, decide: nat, trim: nat, entries: seq<Entry>)
    | Ack(round: nat, server: nat, success: bool, matchIndex: nat, nextIndex: nat)

  datatype Output = ToReplica(dst: nat, msg: Message) | ToClient(resp: Response)

  /** The replicated state machine: the database and the responses already given, by serial. */
  datatype Machine = Machine(db: Db, cache: map<nat, Response>)

  const INITIAL_MACHINE := Machine(EMPTY_DB, map[])

  datatype Rep = Rep(
    id: nat, n: nat,
    role: Role, leaderHint: nat, round: nat, promised: Option<nat>, prepareOk: seq<bool>,
    log: seq<Entry>, commit: nat, applied: nat, trim: nat,
    matchIndex: seq<nat>, nextIndex: seq<nat>,
    machine: Machine,
    inFlight: map<nat, nat>, queue: seq<Request>, busy: set<nat>)

  /** The array sizes and the order of the three watermarks. */
  ghost predicate Shape(s: Rep) {
    && s.id < s.n
    && |s.prepareOk| == |s.matchIndex| == |s.nextIndex| == s.n
    && s.trim <= s.applied <= s.commit <= |s.log|
  }

  ghost predicate HasQuorum(n: nat, k: nat) {
    k >= n / 2 + 1
  }

  /** The round of the entry at a slot; slot 0 and slots past the end count as round 0. */
  ghost function RoundAt(log: seq<Entry>, slot: nat): nat {
    if 1 <= slot <= |log| then log[slot - 1].round else 0
  }

  /** Is a log whose tip is (index, round) at least as up to date as `log`? */
  ghost predicate UpToDate(log: seq<Entry>, index: nat, round: nat) {
    if round != RoundAt(log, |log|) then round > RoundAt(log, |log|) else index >= |log|
  }

  /** The append check. Prefixes older than the trim watermark are refused. */
  ghost predicate PrefixMatches(s: Rep, prevIndex: nat, prevRound: nat) {
    if prevIndex == 0 then s.trim == 0
    else s.trim <= prevIndex <= |s.log| && RoundAt(s.log, prevIndex) == prevRound
  }

  ghost function BecomeFollower(s: Rep, round: nat, hint: nat): Rep {
    s.(round := if round > s.round then round else s.round,
       promised := if round > s.round then None else s.promised,
       role := Follower, leaderHint := hint, prepareOk := Filled(s.n, false),
       inFlight := map[], queue := [], busy := {})
  }

  ghost function BecomeLeader(s: Rep): Rep
    requires s.id < s.n
  {
    s.(role := Leader, leaderHint := s.id, promised := Some(s.id), prepareOk := Filled(s.n, false),
       matchIndex := Filled(s.n, 0)[s.id := |s.log|],
       nextIndex := Filled(s.n, |s.log| + 1)[s.id := |s.log| + 1])
  }

  // ----- committing, applying, trimming -----

  /** The replicas the leader knows to hold its log up to `idx`, itself included. */
  ghost function Holders(s: Rep, idx: nat): set<nat>
    requires |s.matchIndex| == s.n
  {
    {s.id} + set p | 0 <= p < s.n && p != s.id && s.matchIndex[p] >= idx
  }

  ghost predicate Committable(s: Rep, idx: nat)
    requires |s.matchIndex| == s.n
  {
    RoundAt(s.log, idx) == s.round && HasQuorum(s.n, |Holders(s, idx)|)
  }

  /** The highest committable slot in (commit, idx], or `commit` if there is none. */
  ghost function CommitScan(s: Rep, idx: nat): (r: nat)
    requires |s.matchIndex| == s.n
    ensures s.commit <= r <= Max(s.commit, idx)
  {
    if idx <= s.commit then s.commit
    else if Committable(s, idx) then idx
    else CommitScan(s, idx - 1)
  }

  /** The scan finds the highest committable slot, not just some slot. */
  lemma CommitScanIsHighest(s: Rep, idx: nat)
    requires |s.matchIndex| == s.n
    ensures var r := CommitScan(s, idx);
            && (s.commit < r ==> Committable(s, r))
            && (forall k :: s.commit < k <= idx && Committable(s, k) ==> k <= r)
  {
    CommitScanSkipsNone(s, idx, idx);
    forall k | s.commit < k <= idx && Committable(s, k) ensures k <= CommitScan(s, idx) { CommitScanSkipsNone(s, idx, k); }
  }

  lemma {:induction false} CommitScanSkipsNone(s: Rep, idx: nat, k: nat)
    requires |s.matchIndex| == s.n && k <= idx
    ensures s.commit < CommitScan(s, idx) ==> Committable(s, CommitScan(s, idx))
    ensures s.commit < k && Committable(s, k) ==> k <= CommitScan(s, idx)
    decreases idx
  {
    if s.commit < idx && !Committable(s, idx) {
      CommitScanSkipsNone(s, idx - 1, Min(k, idx - 1));
    }
  }

  ghost function UpdateCommit(s: Rep): Rep
    requires |s.matchIndex| == s.n
  {
    if s.role != Leader then s else s.(commit := CommitScan(s, |s.log|))
  }

  /** A serial is executed once; every later copy of it leaves the machine alone. */
  ghost function Execute(m: Machine, req: Request): Machine {
    if req.serial in m.cache then m
    else var (db, resp) := Process(m.db, req); Machine(db, m.cache[req.serial := resp])
  }

  ghost function ApplyNext(s: Rep): (Rep, seq<Output>)
    requires s.applied < s.commit <= |s.log|
  {
    var req := s.log[s.applied].req;
    var m := Execute(s.machine, req);
    var t := s.(applied := s.applied + 1, machine := m);
    if s.role == Leader && req.serial in s.inFlight && s.inFlight[req.serial] == s.applied + 1 then
      (t.(inFlight := s.inFlight - {req.serial}, busy := s.busy - {req.serial}), [ToClient(m.cache[req.serial])])
    else (t, [])
  }

  ghost function ApplyCommitted(s: Rep): (Rep, seq<Output>)
    requires s.applied <= s.commit <= |s.log|
    decreases s.commit - s.applied
  {
    if s.applied == s.commit then (s, [])
    else
      var (t, o) := ApplyNext(s);
      var (u, p) := ApplyCommitted(t);
      (u, o + p)
  }

  ghost function MinOf(first: nat, xs: seq<nat>): (r: nat)
    ensures r <= first && forall i :: 0 <= i < |xs| ==> r <= xs[i]
    ensures r == first || r in xs
  {
    if xs == [] then first else Min(MinOf(first, xs[..|xs| - 1]), xs[|xs| - 1])
  }

  ghost function TrimTarget(s: Rep): nat
    requires |s.matchIndex| == s.n && s.id < s.n
  {
    var low := Min(MinOf(s.matchIndex[s.id], s.matchIndex), s.commit);
    if low > TRIM_RETENTION then low - TRIM_RETENTION else 0
  }

  ghost function UpdateTrim(s: Rep): Rep
    requires |s.matchIndex| == s.n && s.id < s.n
  {
    if s.role == Leader && TrimTarget(s) > s.trim then s.(trim := TrimTarget(s)) else s
  }

  /** Slot x and the TRIM_RETENTION slots above it are committed, and every replica, the leader
      itself included, is known to hold them. */
  ghost predicate Trimmable(s: Rep, x: nat)
    requires |s.matchIndex| == s.n
  {
    x + TRIM_RETENTION <= s.commit && forall p :: 0 <= p < s.n ==> x + TRIM_RETENTION <= s.matchIndex[p]
  }

  /** A leader's watermark moves to the largest slot that may be forgotten, and never back. */
  lemma UpdateTrimIsLargest(s: Rep)
    requires |s.matchIndex| == s.n && s.id < s.n
    ensures var t := UpdateTrim(s);
            && t == s.(trim := t.trim) && s.trim <= t.trim
            && (s.trim < t.trim ==> s.role == Leader && Trimmable(s, t.trim))
            && (s.role == Leader ==> forall x: nat :: Trimmable(s, x) ==> x <= t.trim)
  {
  }

  // ----- sending -----

  /** At most a batch of consecutive entries, starting right after slot `prev`. */
  ghost function Batch(log: seq<Entry>, prev: nat): seq<Entry> {
    if prev >= |log| then [] else log[prev..Min(prev + APPEND_BATCH_SIZE, |log|)]
  }

  ghost function SendPropose(s: Rep, peer: nat): (r: (Rep, seq<Output>))
    requires peer < s.n == |s.nextIndex|
    ensures r.0 == s.(nextIndex := r.0.nextIndex) && |r.0.nextIndex| == s.n
  {
    if peer == s.id || s.role != Leader then (s, [])
    else
      var next := Max(s.nextIndex[peer], s.trim + 1);
      var msg := Propose(s.round, s.id, next - 1, RoundAt(s.log, next - 1), s.commit, s.trim, Batch(s.log, next - 1));
      (s.(nextIndex := s.nextIndex[peer := next]), [ToReplica(peer, msg)])
  }

  /** One proposal to every peer below `k`, in order. */
  ghost function BroadcastTo(s: Rep, k: nat): (r: (Rep, seq<Output>))
    requires k <= s.n == |s.nextIndex|
    ensures r.0 == s.(nextIndex := r.0.nextIndex) && |r.0.nextIndex| == s.n
  {
    if k == 0 then (s, [])
    else
      var (t, o) := BroadcastTo(s, k - 1);
      var (u, p) := SendPropose(t, k - 1);
      (u, o + p)
  }

  ghost function Broadcast(s: Rep): (Rep, seq<Output>)
    requires s.n == |s.nextIndex|
  {
    BroadcastTo(s, s.n)
  }

  /** The same message to every peer below `k`. */
  ghost function ToPeers(s: Rep, msg: Message, k: nat): seq<Output> {
    if k == 0 then [] else ToPeers(s, msg, k - 1) + if k - 1 != s.id then [ToReplica(k - 1, msg)] else []
  }

  // ----- client work -----

  /** `emplace` each serial with its slot: a serial already present keeps its slot. */
  ghost function Register(inFlight: map<nat, nat>, reqs: seq<Request>, slot: nat): map<nat, nat> {
    if reqs == [] then inFlight
    else
      var m := Register(inFlight, reqs[..|reqs| - 1], slot);
      var last := reqs[|reqs| - 1].serial;
      if last in m then m else m[last := slot + |reqs| - 1]
  }

  ghost function NewEntries(s: Rep, k: nat): seq<Entry>
    requires k <= |s.queue|
  {
    seq(k, i requires 0 <= i < k => Entry(|s.log| + 1 + i, s.round, s.queue[i]))
  }

  /** Move up to a batch of queued requests into the leader's own log. */
  ghost function AppendQueued(s: Rep): Rep
    requires s.id < s.n == |s.matchIndex| == |s.nextIndex|
  {
    var k := Min(|s.queue|, APPEND_BATCH_SIZE);
    var log := s.log + NewEntries(s, k);
    s.(log := log, queue := s.queue[k..], inFlight := Register(s.inFlight, s.queue[..k], |s.log| + 1),
       matchIndex := s.matchIndex[s.id := |log|], nextIndex := s.nextIndex[s.id := |log| + 1])
  }

  /** Commit what can be committed, apply it, and move the trim watermark. */
  ghost function Advance(s: Rep): (Rep, seq<Output>)
    requires Shape(s)
  {
    var (t, o) := ApplyCommitted(UpdateCommit(s));
    ApplyKeeps(UpdateCommit(s));
    (UpdateTrim(t), o)
  }

  ghost function FlushBatch(s: Rep): (Rep, seq<Output>)
    requires Shape(s)
  {
    var (t, o) := Broadcast(AppendQueued(s));
    var (u, p) := Advance(t);
    (u, o + p)
  }

  ghost function Flush(s: Rep): (Rep, seq<Output>)
    requires Shape(s)
    decreases |s.queue|
  {
    if s.role != Leader || s.queue == [] then (s, [])
    else
      FlushBatchKeeps(s);
      var (t, o) := FlushBatch(s);
      var (u, p) := Flush(t);
      (u, o + p)
  }

  /** Applying touches only the applied watermark, the machine and the pending bookkeeping. */
  lemma ApplyKeeps(s: Rep)
    requires s.applied <= s.commit <= |s.log|
    ensures var t := ApplyCommitted(s).0;
            t == s.(applied := s.commit, machine := t.machine, inFlight := t.inFlight, busy := t.busy)
    decreases s.commit - s.applied
  {
    if s.applied < s.commit {
      ApplyKeeps(ApplyNext(s).0);
    }
  }

  lemma AdvanceKeeps(s: Rep)
    requires Shape(s)
    ensures var t := Advance(s).0;
            && Shape(t)
            && t == s.(commit := t.commit, applied := t.applied, machine := t.machine, inFlight := t.inFlight,
                       busy := t.busy, trim := t.trim)
            && t.commit == UpdateCommit(s).commit == t.applied && s.trim <= t.trim
  {
    ApplyKeeps(UpdateCommit(s));
  }

  lemma FlushBatchKeeps(s: Rep)
    requires Shape(s)
    ensures var t := FlushBatch(s).0;
            && Shape(t)
            && t.id == s.id && t.n == s.n && t.role == s.role && t.round == s.round
            && t.promised == s.promised && t.prepareOk == s.prepareOk && t.leaderHint == s.leaderHint
            && t.log == AppendQueued(s).log && t.queue == AppendQueued(s).queue
            && t.matchIndex == AppendQueued(s).matchIndex
            && s.commit <= t.commit && s.trim <= t.trim
  {
    AdvanceKeeps(Broadcast(AppendQueued(s)).0);
  }

  // ----- the handlers -----

  ghost function StartProbe(s: Rep): (Rep, seq<Output>)
    requires Shape(s)
  {
    var c := s.(role := Candidate, round := s.round + 1, leaderHint := s.id, promised := Some(s.id),
                prepareOk := Filled(s.n, false)[s.id := true]);
    var probes := ToPeers(c, Probe(c.round, c.id, |c.log|, RoundAt(c.log, |c.log|)), c.n);
    if HasQuorum(s.n, 1) then
      var (t, o) := Broadcast(BecomeLeader(c));
      (t, probes + o)
    else (c, probes)
  }

  ghost function HandleProbe(s: Rep, m: Message): (Rep, seq<Output>)
    requires m.Probe?
  {
    if m.round < s.round then (s, [ToReplica(m.leader, Prepare(s.round, s.id, false))])
    else
      var t := if m.round > s.round then BecomeFollower(s, m.round, s.leaderHint) else s;
      if (t.promised == None || t.promised == Some(m.leader)) && UpToDate(t.log, m.lastIndex, m.lastRound) then
        (t.(promised := Some(m.leader), leaderHint := m.leader),
         [ToReplica(m.leader, Prepare(t.round, t.id, true))])
      else (t, [ToReplica(m.leader, Prepare(t.round, t.id, false))])
  }

  ghost function Promisers(s: Rep): set<nat>
    requires |s.prepareOk| == s.n
  {
    set p | 0 <= p < s.n && s.prepareOk[p]
  }

  ghost function HandlePrepare(s: Rep, m: Message): (Rep, seq<Output>)
    requires Shape(s) && m.Prepare? && m.server < s.n
  {
    if m.round > s.round then (BecomeFollower(s, m.round, s.leaderHint), [])
    else if s.role != Candidate || m.round != s.round || !m.promised || s.prepareOk[m.server] then (s, [])
    else
      var t := s.(prepareOk := s.prepareOk[m.server := true]);
      if HasQuorum(t.n, |Promisers(t)|) then Broadcast(BecomeLeader(t)) else (t, [])
  }

  /** The entries carry the slots right after the checked prefix. */
  ghost predicate Consecutive(prevIndex: nat, entries: seq<Entry>) {
    forall i :: 0 <= i < |entries| ==> entries[i].slot == prevIndex + 1 + i
  }

  /** The index of the first batch entry, from `i` on, whose round differs from the one held at its slot. */
  ghost function FirstConflict(log: seq<Entry>, prev: nat, entries: seq<Entry>, i: nat): (r: Option<nat>)
    requires i <= |entries|
    ensures r.Some? ==> && i <= r.value < |entries| && prev + r.value < |log|
                        && log[prev + r.value].round != entries[r.value].round
    ensures var hi := if r.Some? then r.value else |entries|;
            forall k :: i <= k < hi && prev + k < |log| ==> log[prev + k].round == entries[k].round
    decreases |entries| - i
  {
    if i == |entries| then None
    else if prev + i < |log| && log[prev + i].round != entries[i].round then Some(i)
    else FirstConflict(log, prev, entries, i + 1)
  }

  datatype MergeResult = Merged(log: seq<Entry>) | Blocked(slot: nat)

  /** What appending a checked batch does to the log: nothing if the batch is already held, an
      extension if it goes past the end, a replaced tail at the first conflict, and a refusal if
      that conflict lies at or below the commit index. */
  ghost function Merge(log: seq<Entry>, commit: nat, prev: nat, entries: seq<Entry>): MergeResult
    requires prev <= |log|
  {
    match FirstConflict(log, prev, entries, 0)
    case Some(i) => if commit >= prev + i + 1 then Blocked(prev + i + 1) else Merged(log[..prev + i] + entries[i..])
    case None => Merged(if prev + |entries| <= |log| then log else log + entries[|log| - prev..])
  }

  ghost function HandlePropose(s: Rep, m: Message): (Rep, seq<Output>)
    requires Shape(s) && m.Propose?
  {
    if m.round < s.round then
      (s, [ToReplica(m.leader, Ack(s.round, s.id, false, |s.log|, |s.log| + 1))])
    else
      var f := BecomeFollower(s, m.round, m.leader);
      if !PrefixMatches(f, m.prevIndex, m.prevRound) then
        var next := if m.prevIndex > f.trim then Min(m.prevIndex, |f.log| + 1) else f.trim + 1;
        (f, [ToReplica(m.leader, Ack(f.round, f.id, false, |f.log|, next))])
      else AppendChecked(f, m)
  }

  /** The prefix matches: merge the batch and act on it. */
  ghost function AppendChecked(f: Rep, m: Message): (Rep, seq<Output>)
    requires Shape(f) && m.Propose? && m.prevIndex <= |f.log|
  {
    match Merge(f.log, f.commit, m.prevIndex, m.entries)
    case Blocked(slot) => (f, [ToReplica(m.leader, Ack(f.round, f.id, false, |f.log|, slot))])
    case Merged(log) =>
      MergeKeepsCommitted(f.log, f.commit, m.prevIndex, m.entries);
      var (t, o) := Accepted(f.(log := log), m);
      var got := m.prevIndex + |m.entries|;
      (t, o + [ToReplica(m.leader, Ack(t.round, t.id, true, got, got + 1))])
  }

  /** What follows a successful merge: a follower commits as far as the leader says and its own
      log reaches, applies, and trims no further than it has applied. */
  ghost function Accepted(s: Rep, m: Message): (Rep, seq<Output>)
    requires Shape(s) && m.Propose?
  {
    var g := s.(commit := if m.decide > s.commit then Min(m.decide, |s.log|) else s.commit);
    var (h, o) := ApplyCommitted(g);
    (h.(trim := if m.trim > h.trim then Min(m.trim, h.applied) else h.trim), o)
  }

  /** A merge never touches a slot at or below the commit index. */
  lemma MergeKeepsCommitted(log: seq<Entry>, commit: nat, prev: nat, entries: seq<Entry>)
    requires prev <= |log| && commit <= |log|
    ensures Merge(log, commit, prev, entries).Merged? ==>
              var merged := Merge(log, commit, prev, entries).log;
              commit <= |merged| && merged[..commit] == log[..commit] && prev + |entries| <= |merged|
  {
  }

  /** Use what an acknowledgement taught; a follower still behind gets its next batch at once. */
  ghost function AdvanceAndResend(s: Rep, server: nat): (Rep, seq<Output>)
    requires Shape(s) && server < s.n
  {
    AdvanceKeeps(s);
    var (u, o) := Advance(s);
    if u.nextIndex[server] <= |u.log| then
      var (v, p) := SendPropose(u, server);
      (v, o + p)
    else (u, o)
  }

  ghost function HandleAck(s: Rep, m: Message): (Rep, seq<Output>)
    requires Shape(s) && m.Ack? && m.server < s.n
  {
    if m.round > s.round then (BecomeFollower(s, m.round, s.leaderHint), [])
    else if s.role != Leader || m.round != s.round then (s, [])
    else if m.success then
      var t := s.(matchIndex := s.matchIndex[m.server := Max(s.matchIndex[m.server], m.matchIndex)],
                  nextIndex := s.nextIndex[m.server := Max(s.nextIndex[m.server], m.nextIndex)]);
      AdvanceAndResend(t, m.server)
    else
      var asked := if m.nextIndex == 0 then 1 else m.nextIndex;
      var held := s.nextIndex[m.server];
      var fallback := if asked < held then asked else if held > 1 then held - 1 else 1;
      SendPropose(s.(nextIndex := s.nextIndex[m.server := Max(fallback, s.trim + 1)]), m.server)
  }

  ghost function HandleReplicaMessage(s: Rep, m: Message): (Rep, seq<Output>)
    requires Shape(s) && (m.Prepare? || m.Ack? ==> m.server < s.n)
  {
    match m
    case Probe(_, _, _, _) => HandleProbe(s, m)
    case Prepare(_, _, _) => HandlePrepare(s, m)
    case Propose(_, _, _, _, _, _, _) => HandlePropose(s, m)
    case Ack(_, _, _, _, _) => HandleAck(s, m)
  }

  ghost function HandleClient(s: Rep, req: Request): (Rep, seq<Output>)
    requires Shape(s)
  {
    if s.role != Leader then
      (s, [ToClient(Redirection(req.serial, Redirect, if s.role == Candidate then s.id else s.leaderHint))])
    else if req.serial in s.machine.cache then (s, [ToClient(s.machine.cache[req.serial])])
    else if req.serial in s.busy then (s, [])
    else
      var t := s.(busy := s.busy + {req.serial}, queue := s.queue + [req]);
      if |t.queue| >= APPEND_BATCH_SIZE then Flush(t) else (t, [])
  }

  /** What an expired timer makes a replica do: a leader flushes its queue, or sends heartbeats
      when it has none; everyone else starts an election. */
  ghost function HandleTimeout(s: Rep): (Rep, seq<Output>)
    requires Shape(s)
  {
    if s.role == Leader then (if s.queue != [] then Flush(s) else Broadcast(s)) else StartProbe(s)
  }

  ghost function InitialRep(id: nat, n: nat, leader: nat): Rep
    requires id < n
  {
    var s := Rep(id, n, Follower, leader, 0, None, Filled(n, false), [], 0, 0, 0,
                 Filled(n, 0), Filled(n, 1), INITIAL_MACHINE, map[], [], {});
    if id == leader then BecomeLeader(s) else s
  }
}
