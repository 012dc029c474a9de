/** How a leader brings a follower's log back in line: the back-off of `handle_ack`, the hints in
    refused acknowledgements and the re-sent batches, as one conversation between the two. */
module PaxosRepair {
  import opened Options
  import opened PancyDb
  import opened PaxosSpec
  import opened PaxosMachine
  import opened PaxosCluster
  import opened PaxosLeader
  import opened PaxosHandlers
  import opened PaxosProgress
  import opened PaxosInvariance
  import opened PaxosConduct
  import opened PaxosSafety
  import opened PaxosTrim

  // ----- two logs -----

  /** The first k slots are the same in both. */
  ghost predicate Agree(a: seq<Entry>, b: seq<Entry>, k: nat) {
    k <= |a| && k <= |b| && SamePrefixes(a, b, k)
  }

  ghost predicate KeyOfPrefixes(a: seq<Entry>, b: seq<Entry>, k: nat, n: nat) {
    true
  }

  /** ... kept folded. */
  ghost predicate SamePrefixes(a: seq<Entry>, b: seq<Entry>, k: nat)
    requires k <= |a| && k <= |b|
  {
    forall n {:trigger KeyOfPrefixes(a, b, k, n)} :: KeyOfPrefixes(a, b, k, n) ==> a[..k] == b[..k]
  }

  ghost predicate KeyOfMatching(a: seq<Entry>, b: seq<Entry>, n: nat) {
    true
  }

  /** Entries of one round at one slot lie on top of the same prefix; kept folded. */
  ghost predicate Matching(a: seq<Entry>, b: seq<Entry>) {
    forall n {:trigger KeyOfMatching(a, b, n)} :: KeyOfMatching(a, b, n) ==> RoundsMatch(a, b)
  }

  ghost predicate RoundsMatch(a: seq<Entry>, b: seq<Entry>) {
    forall k: nat :: 1 <= k <= |a| && k <= |b| && RoundAt(a, k) == RoundAt(b, k) ==> Agree(a, b, k)
  }

  /** One log is a prefix of the other. */
  ghost predicate Comparable(a: seq<Entry>, b: seq<Entry>) {
    Agree(a, b, Min(|a|, |b|))
  }

  lemma AgreeLess(a: seq<Entry>, b: seq<Entry>, k: nat, j: nat)
    requires Agree(a, b, k) && j <= k
    ensures Agree(a, b, j)
  {
    assert KeyOfPrefixes(a, b, k, 0);
    assert a[..j] == a[..k][..j];
  }

  lemma AgreeAt(a: seq<Entry>, b: seq<Entry>, i: nat)
    requires i < |a| && i < |b|
    ensures forall k: nat :: Agree(a, b, k) && i < k ==> a[i] == b[i]
  {
    forall k: nat | Agree(a, b, k) && i < k ensures a[i] == b[i] { AgreeTip(a, b, k, i); }
  }

  lemma AgreeTip(a: seq<Entry>, b: seq<Entry>, k: nat, i: nat)
    requires Agree(a, b, k) && i < k
    ensures a[i] == b[i]
  {
    assert KeyOfPrefixes(a, b, k, 0);
    assert a[i] == a[..k][i];
  }

  lemma AgreeIs(a: seq<Entry>, b: seq<Entry>, k: nat)
    requires k <= |a| && k <= |b|
    ensures Agree(a, b, k) <==> a[..k] == b[..k]
  {
    assert KeyOfPrefixes(a, b, k, 0);
  }

  /** The append check accepts a quotation of the leader's log exactly where the logs agree. */
  lemma CheckIsAgreement(log: seq<Entry>, t: Rep, prev: nat)
    requires Matching(log, t.log) && t.trim <= prev <= |log|
    ensures PrefixMatches(t, prev, RoundAt(log, prev)) <==> Agree(log, t.log, prev)
  {
    assert KeyOfMatching(log, t.log, 0);
    if prev > 0 && Agree(log, t.log, prev) { AgreeTip(log, t.log, prev, prev - 1); }
  }

  /** From `held` to `now` a follower has come to agree with `log` through slot `got`, and has lost no
      agreement; what lies beyond is the rest of one log or the other. */
  ghost predicate Closer(log: seq<Entry>, held: seq<Entry>, now: seq<Entry>, got: nat) {
    && Agree(log, now, got) && Comparable(log, now) && |now| >= got
    && forall k: nat :: Agree(log, held, k) ==> Agree(log, now, k)
  }

  /** What merging a batch makes of a follower's log. */
  lemma BatchMerges(log: seq<Entry>, held: seq<Entry>, commit: nat, prev: nat)
    requires Matching(log, held) && Agree(log, held, prev) && Agree(log, held, commit)
    requires Agree(log, held, prev + 1) ==> Comparable(log, held)
    ensures var batch := Batch(log, prev);
            var r := Merge(held, commit, prev, batch);
            r.Merged? && Closer(log, held, r.log, prev + |batch|)
  {
    var batch := Batch(log, prev);
    var c := FirstConflict(held, prev, batch, 0);
    MergeCases(held, commit, prev, batch, c);
    if c.Some? {
      ConflictMerges(log, held, prev, batch, c.value);
      assert commit <= prev + c.value;
    } else {
      QuietMerges(log, held, prev, batch);
    }
  }

  lemma MergeCases(held: seq<Entry>, commit: nat, prev: nat, batch: seq<Entry>, c: Option<nat>)
    requires prev <= |held| && c == FirstConflict(held, prev, batch, 0)
    ensures Merge(held, commit, prev, batch) ==
            if c.Some? then (if commit >= prev + c.value + 1 then Blocked(prev + c.value + 1) else Merged(held[..prev + c.value] + batch[c.value..]))
            else Merged(if prev + |batch| <= |held| then held else held + batch[|held| - prev..])
  {
  }

  lemma ConflictMerges(log: seq<Entry>, held: seq<Entry>, prev: nat, batch: seq<Entry>, i: nat)
    requires Matching(log, held) && Agree(log, held, prev) && batch == Batch(log, prev)
    requires FirstConflict(held, prev, batch, 0) == Some(i)
    ensures i < |batch| && prev + i < |held| && Closer(log, held, held[..prev + i] + batch[i..], prev + |batch|)
    ensures forall k: nat :: Agree(log, held, k) ==> k <= prev + i
  {
    AgreesBefore(log, held, prev, batch, i);
    ConflictIsNew(log, held, prev, batch, i);
    LogContinues(log, held, prev, batch, i);
    PrefixAgrees(log, prev + |batch|);
  }

  /** What follows an agreed prefix in the batch completes it to a prefix of the leader's log. */
  lemma LogContinues(log: seq<Entry>, held: seq<Entry>, prev: nat, batch: seq<Entry>, i: nat)
    requires batch == Batch(log, prev) && i <= |batch| && Agree(log, held, prev + i)
    ensures prev + |batch| <= |log| && held[..prev + i] + batch[i..] == log[..prev + |batch|]
  {
    AgreeIs(log, held, prev + i);
    assert batch[i..] == log[prev + i..prev + |batch|];
  }

  lemma QuietMerges(log: seq<Entry>, held: seq<Entry>, prev: nat, batch: seq<Entry>)
    requires Matching(log, held) && Agree(log, held, prev) && batch == Batch(log, prev)
    requires FirstConflict(held, prev, batch, 0) == None
    requires Agree(log, held, prev + 1) ==> Comparable(log, held)
    ensures Closer(log, held, if prev + |batch| <= |held| then held else held + batch[|held| - prev..], prev + |batch|)
  {
    if prev + |batch| <= |held| {
      AgreesBefore(log, held, prev, batch, |batch|);
      HeldAlready(log, held, prev, batch);
    } else {
      AgreesBefore(log, held, prev, batch, |held| - prev);
      LogExtends(log, held, prev, batch);
    }
  }

  lemma HeldAlready(log: seq<Entry>, held: seq<Entry>, prev: nat, batch: seq<Entry>)
    requires prev <= |log| && batch == Batch(log, prev) && Agree(log, held, prev + |batch|)
    requires Agree(log, held, prev + 1) ==> Comparable(log, held)
    ensures Closer(log, held, held, prev + |batch|)
  {
    if batch != [] { AgreeLess(log, held, prev + |batch|, prev + 1); }
  }

  lemma LogExtends(log: seq<Entry>, held: seq<Entry>, prev: nat, batch: seq<Entry>)
    requires batch == Batch(log, prev) && prev <= |held| < prev + |batch| && Agree(log, held, |held|)
    ensures Closer(log, held, held + batch[|held| - prev..], prev + |batch|)
  {
    LogContinues(log, held, prev, batch, |held| - prev);
    assert held[..|held|] == held;
    PrefixAgrees(log, prev + |batch|);
  }

  lemma WholeLog(log: seq<Entry>, held: seq<Entry>, k: nat)
    requires Agree(log, held, k) && k == |log|
    ensures log <= held
  {
    AgreeIs(log, held, k);
    assert log[..k] == log;
  }

  lemma PrefixAgrees(log: seq<Entry>, got: nat)
    requires got <= |log|
    ensures forall k: nat :: k <= got ==> Agree(log, log[..got], k)
  {
    forall k: nat | k <= got ensures Agree(log, log[..got], k) {
      AgreeIs(log, log[..got], k);
      assert log[..got][..k] == log[..k];
    }
  }

  /** No conflict among the first i entries of the batch: the logs agree through them. */
  lemma AgreesBefore(log: seq<Entry>, held: seq<Entry>, prev: nat, batch: seq<Entry>, i: nat)
    requires Matching(log, held) && Agree(log, held, prev) && batch == Batch(log, prev) && i <= |batch| && prev + i <= |held|
    requires forall k :: 0 <= k < i ==> held[prev + k].round == batch[k].round
    ensures Agree(log, held, prev + i)
  {
    assert KeyOfMatching(log, held, 0);
    if i > 0 {
      assert batch[i - 1] == log[prev + i - 1] && held[prev + (i - 1)].round == batch[i - 1].round;
    }
  }

  lemma ConflictIsNew(log: seq<Entry>, held: seq<Entry>, prev: nat, batch: seq<Entry>, i: nat)
    requires batch == Batch(log, prev) && i < |batch| && prev + i < |held| && held[prev + i].round != batch[i].round
    ensures forall k: nat :: Agree(log, held, k) ==> k <= prev + i
  {
    AgreeAt(log, held, prev + i);
  }

  // ----- the conversation -----

  /** A leader, a follower, and the proposal on its way from the one to the other, if any. */
  datatype Talk = Talk(s: Rep, t: Rep, msg: Option<Message>)

  /** The last thing sent, if it is a proposal to that replica. */
  ghost function Proposed(outs: seq<Output>, dst: nat): Option<Message> {
    if outs == [] then None
    else
      var last := outs[|outs| - 1];
      if last.ToReplica? && last.dst == dst && last.msg.Propose? then Some(last.msg) else None
  }

  /** The follower handles the proposal and the leader the answer to it. */
  ghost function Exchange(x: Talk): Talk {
    if x.msg.Some? && x.msg.value.Propose? && Shape(x.s) && Shape(x.t) then
      var (t, answers) := HandlePropose(x.t, x.msg.value);
      if |answers| == 1 && answers[0].ToReplica? && answers[0].msg.Ack? && answers[0].msg.server < x.s.n then
        var (s, outs) := HandleAck(x.s, answers[0].msg);
        Talk(s, t, Proposed(outs, t.id))
      else x
    else x
  }

  ghost predicate KeyOfTurns(x: Talk, n: nat) {
    true
  }

  /** One exchange turns x into y; kept folded. */
  ghost predicate Turns(x: Talk, y: Talk) {
    forall n {:trigger KeyOfTurns(x, n)} :: KeyOfTurns(x, n) ==> Exchange(x) == y
  }

  ghost function After(x: Talk, k: nat): Talk
    decreases k
  {
    if k == 0 then x else After(Exchange(x), k - 1)
  }

  ghost function Quote(s: Rep, prev: nat): Message {
    Propose(s.round, s.id, prev, RoundAt(s.log, prev), s.commit, s.trim, Batch(s.log, prev))
  }

  ghost predicate KeyOfNext(s: Rep, peer: nat, n: nat) {
    true
  }

  /** `msg` is what the leader has to say next to that peer; kept folded. */
  ghost predicate IsNext(s: Rep, peer: nat, msg: Option<Message>)
    requires peer < |s.nextIndex| && s.nextIndex[peer] > 0
  {
    forall n {:trigger KeyOfNext(s, peer, n)} :: KeyOfNext(s, peer, n) ==> msg == Some(Quote(s, s.nextIndex[peer] - 1))
  }

  lemma NextIs(s: Rep, peer: nat, msg: Option<Message>)
    requires peer < |s.nextIndex| && s.nextIndex[peer] > 0
    ensures IsNext(s, peer, msg) <==> msg == Some(Quote(s, s.nextIndex[peer] - 1))
  {
    assert KeyOfNext(s, peer, 0);
  }

  /** A leader and a replica of a round not above its own: their logs match, and agree on what the
      replica has committed, on what the leader has trimmed and on what the leader thinks they share. */
  ghost predicate Paired(s: Rep, t: Rep) {
    && Shape(s) && Shape(t) && s.n == t.n && s.id != t.id && s.role == Leader && t.round <= s.round && NextOk(s)
    && Matching(s.log, t.log) && Agree(s.log, t.log, t.commit) && Agree(s.log, t.log, s.trim)
    && Agree(s.log, t.log, s.matchIndex[t.id])
  }

  /** The leader has just sent the replica its next proposal. */
  ghost predicate Talking(x: Talk) {
    && Paired(x.s, x.t) && x.s.nextIndex[x.t.id] > x.s.trim
    && IsNext(x.s, x.t.id, x.msg)
  }

  /** The proposal does not start below the replica's watermark, and it reaches the first difference
      of the logs, if they differ before both end. */
  ghost predicate WellAimed(x: Talk) {
    && Talking(x) && x.s.nextIndex[x.t.id] > x.t.trim
    && (Agree(x.s.log, x.t.log, x.s.nextIndex[x.t.id]) ==> Comparable(x.s.log, x.t.log))
  }

  ghost predicate SameTerm(s: Rep, u: Rep) {
    u.id == s.id && u.n == s.n && u.role == s.role && u.round == s.round && u.log == s.log
  }

  // ----- each side's part of an exchange -----

  ghost predicate KeyOfAnswers(t: Rep, m: Message, n: nat) {
    true
  }

  /** Handling `m` turns t into u, and a is the one answer; kept folded. */
  ghost predicate AnswersWith(t: Rep, m: Message, u: Rep, a: Output)
    requires Shape(t) && m.Propose?
  {
    forall n {:trigger KeyOfAnswers(t, m, n)} :: KeyOfAnswers(t, m, n) ==> HandlePropose(t, m) == (u, [a])
  }

  ghost predicate KeyOfLearns(s: Rep, m: Message, n: nat) {
    true
  }

  /** Handling acknowledgement `m` turns leader s into v, sending `outs`; kept folded. */
  ghost predicate Learns(s: Rep, m: Message, v: Rep, outs: seq<Output>)
    requires Shape(s) && m.Ack? && m.server < s.n
  {
    forall n {:trigger KeyOfLearns(s, m, n)} :: KeyOfLearns(s, m, n) ==> HandleAck(s, m) == (v, outs)
  }

  lemma Exchanges(x: Talk, u: Rep, a: Output, v: Rep, outs: seq<Output>)
    requires x.msg.Some? && x.msg.value.Propose? && Shape(x.s) && Shape(x.t)
    requires AnswersWith(x.t, x.msg.value, u, a) && a.ToReplica? && a.msg.Ack? && a.msg.server < x.s.n
    requires Learns(x.s, a.msg, v, outs)
    ensures Turns(x, Talk(v, u, Proposed(outs, u.id)))
  {
    assert KeyOfAnswers(x.t, x.msg.value, 0) && KeyOfLearns(x.s, a.msg, 0);
  }

  // ----- a refusal -----

  lemma Refuses(t: Rep, m: Message) returns (u: Rep, a: Output)
    requires Shape(t) && m.Propose? && m.round >= t.round && !PrefixMatches(t, m.prevIndex, m.prevRound)
    ensures AnswersWith(t, m, u, a) && u == BecomeFollower(t, m.round, m.leader)
    ensures a == ToReplica(m.leader, Ack(m.round, t.id, false, |t.log|,
                                         if m.prevIndex > t.trim then Min(m.prevIndex, |t.log| + 1) else t.trim + 1))
  {
    u, a := HandlePropose(t, m).0, HandlePropose(t, m).1[0];
  }

  /** Where the leader starts next time: where it was asked to if that is further back, else one slot
      further back, and never below its watermark. */
  ghost function BackOff(s: Rep, peer: nat, asked: nat): nat
    requires peer < |s.nextIndex|
  {
    var held := s.nextIndex[peer];
    Max(if asked < held then asked else if held > 1 then held - 1 else 1, s.trim + 1)
  }

  lemma BacksOff(s: Rep, peer: nat, index: nat, asked: nat) returns (v: Rep, outs: seq<Output>)
    requires Shape(s) && s.role == Leader && peer < s.n && peer != s.id && 0 < asked
    ensures Learns(s, Ack(s.round, peer, false, index, asked), v, outs)
    ensures v == s.(nextIndex := s.nextIndex[peer := BackOff(s, peer, asked)])
    ensures Proposed(outs, peer) == Some(Quote(v, v.nextIndex[peer] - 1))
  {
    var m := Ack(s.round, peer, false, index, asked);
    v, outs := HandleAck(s, m).0, HandleAck(s, m).1;
    var next := BackOff(s, peer, asked);
    assert s.nextIndex[peer := next][peer := next] == s.nextIndex[peer := next];
  }

  lemma RefusesNext(s: Rep, t: Rep, msg: Option<Message>, asked: nat) returns (u: Rep, a: Output)
    requires Shape(t) && t.id < s.n && t.round <= s.round
    requires t.id < |s.nextIndex| && s.nextIndex[t.id] > 0 && IsNext(s, t.id, msg)
    requires var prev := s.nextIndex[t.id] - 1;
             && !PrefixMatches(t, prev, RoundAt(s.log, prev))
             && asked == if prev > t.trim then Min(prev, |t.log| + 1) else t.trim + 1
    ensures msg.Some? && msg.value.Propose? && AnswersWith(t, msg.value, u, a) && u == BecomeFollower(t, s.round, s.id)
    ensures a == ToReplica(s.id, Ack(s.round, t.id, false, |t.log|, asked))
  {
    NextIs(s, t.id, msg);
    u, a := Refuses(t, msg.value);
  }

  /** After a refusal the follower's log is as it was, and the leader tries again from further back. */
  lemma RefusedTurn(s: Rep, t: Rep, msg: Option<Message>, asked: nat) returns (y: Talk)
    requires Shape(s) && Shape(t) && s.role == Leader && s.n == t.n && t.id < s.n && t.id != s.id && t.round <= s.round
    requires s.nextIndex[t.id] > 0 && IsNext(s, t.id, msg) && asked > 0
    requires var prev := s.nextIndex[t.id] - 1;
             && !PrefixMatches(t, prev, RoundAt(s.log, prev))
             && asked == if prev > t.trim then Min(prev, |t.log| + 1) else t.trim + 1
    ensures Turns(Talk(s, t, msg), y) && y.t == BecomeFollower(t, s.round, s.id)
    ensures y.s == s.(nextIndex := s.nextIndex[t.id := BackOff(s, t.id, asked)]) && IsNext(y.s, t.id, y.msg)
  {
    var u, a := RefusesNext(s, t, msg, asked);
    var v, outs := BacksOff(s, t.id, |t.log|, asked);
    Exchanges(Talk(s, t, msg), u, a, v, outs);
    y := Talk(v, u, Proposed(outs, u.id));
    NextIs(v, t.id, y.msg);
  }

  /** A refusal leaves leader and replica paired, the leader's next proposal starting at `next`. */
  lemma StillPaired(s: Rep, t: Rep, next: nat, y: Talk)
    requires Paired(s, t) && s.trim < next <= |s.log| + 1 && y.t == BecomeFollower(t, s.round, s.id)
    requires y.s == s.(nextIndex := s.nextIndex[t.id := next]) && IsNext(y.s, t.id, y.msg)
    ensures Talking(y) && SameTerm(s, y.s) && y.t.id == t.id && y.t.log == t.log && y.t.trim == t.trim
    ensures y.s.nextIndex[t.id] == next
  {
  }

  lemma NoAgreementBeyond(a: seq<Entry>, b: seq<Entry>, k: nat)
    requires !Agree(a, b, k)
    ensures forall j: nat :: Agree(a, b, j) ==> j < k
  {
    forall j: nat | Agree(a, b, j) ensures j < k {
      if j >= k { AgreeLess(a, b, j, k); }
    }
  }

  /** A refused proposal is sent again from further back, but never from before the logs agree. */
  lemma RefusedExchange(x: Talk) returns (y: Talk)
    requires WellAimed(x) && !Agree(x.s.log, x.t.log, x.s.nextIndex[x.t.id] - 1)
    ensures Turns(x, y) && WellAimed(y) && SameTerm(x.s, y.s) && y.t.id == x.t.id && y.t.log == x.t.log
    ensures y.s.nextIndex[x.t.id] < x.s.nextIndex[x.t.id]
  {
    var prev := x.s.nextIndex[x.t.id] - 1;
    var next := BackOff(x.s, x.t.id, Min(prev, |x.t.log| + 1));
    AskedFor(x.s, x.t, prev, next);
    y := RefusedTurn(x.s, x.t, x.msg, Min(prev, |x.t.log| + 1));
    StillPaired(x.s, x.t, next, y);
  }

  /** The slot asked for in a refusal is past all that the two logs share. */
  lemma AskedFor(s: Rep, t: Rep, prev: nat, next: nat)
    requires Paired(s, t) && t.trim <= prev && s.nextIndex[t.id] == prev + 1 && !Agree(s.log, t.log, prev)
    requires next == BackOff(s, t.id, Min(prev, |t.log| + 1))
    ensures !PrefixMatches(t, prev, RoundAt(s.log, prev)) && t.trim < prev && s.trim < next <= prev && t.trim < next
    ensures !Agree(s.log, t.log, next)
  {
    CheckIsAgreement(s.log, t, prev);
    AgreeLess(s.log, t.log, t.commit, t.trim);
    NoAgreementBeyond(s.log, t.log, prev);
  }

  // ----- an acceptance -----

  ghost predicate KeyOfAccepted(s: Rep, t: Rep, u: Rep, got: nat, n: nat) {
    true
  }

  /** What a follower is like once it has accepted a batch that ends at slot `got`; kept folded. */
  ghost predicate AcceptedBatch(s: Rep, t: Rep, u: Rep, got: nat) {
    forall n {:trigger KeyOfAccepted(s, t, u, got, n)} :: KeyOfAccepted(s, t, u, got, n) ==> BatchIn(s, t, u, got)
  }

  ghost predicate BatchIn(s: Rep, t: Rep, u: Rep, got: nat) {
    && Shape(u) && u.id == t.id && u.n == t.n && u.round == s.round && u.role == Follower
    && Closer(s.log, t.log, u.log, got) && Agree(s.log, u.log, u.commit)
    && u.trim <= Max(s.trim, t.trim) && u.applied == u.commit >= t.commit
    && u.commit >= Min(s.commit, |u.log|) && u.trim >= Min(s.trim, u.applied)
    && (MachineOk(t) ==> MachineOk(u))
  }

  lemma CommitAgrees(log: seq<Entry>, now: seq<Entry>, commit: nat, decide: nat)
    requires Comparable(log, now) && decide <= |log| && Agree(log, now, commit)
    ensures Agree(log, now, if decide > commit then Min(decide, |now|) else commit)
  {
    if decide > commit { AgreeLess(log, now, Min(|log|, |now|), Min(decide, |now|)); }
  }

  lemma AcceptsAs(t: Rep, m: Message, log: seq<Entry>)
    requires Shape(t) && m.Propose? && m.round >= t.round && PrefixMatches(t, m.prevIndex, m.prevRound)
    requires Merge(t.log, t.commit, m.prevIndex, m.entries) == Merged(log)
    ensures var (u, outs) := HandlePropose(t, m);
            var got := m.prevIndex + |m.entries|;
            && outs == [ToReplica(m.leader, Ack(m.round, t.id, true, got, got + 1))]
            && t.commit <= |log| && Shape(u) && u.id == t.id && u.n == t.n && u.round == m.round && u.role == Follower && u.log == log
            && u.applied == u.commit == (if m.decide > t.commit then Min(m.decide, |log|) else t.commit)
            && u.trim == (if m.trim > t.trim then Min(m.trim, u.applied) else t.trim)
  {
    var f := BecomeFollower(t, m.round, m.leader);
    MergeKeepsCommitted(f.log, f.commit, m.prevIndex, m.entries);
    AcceptedIs(f.(log := log), m);
  }

  lemma AcceptedIs(f: Rep, m: Message)
    requires Shape(f) && m.Propose? && f.role == Follower
    ensures var (u, outs) := Accepted(f, m);
            && outs == [] && Shape(u) && u == f.(commit := u.commit, applied := u.applied, trim := u.trim, machine := u.machine,
                                                  inFlight := u.inFlight, busy := u.busy)
            && u.applied == u.commit == (if m.decide > f.commit then Min(m.decide, |f.log|) else f.commit)
            && u.trim == (if m.trim > f.trim then Min(m.trim, u.applied) else f.trim)
  {
    var g := f.(commit := if m.decide > f.commit then Min(m.decide, |f.log|) else f.commit);
    ApplyKeeps(g);
    AppliesSilently(g);
  }

  lemma MachineStays(t: Rep, m: Message, log: seq<Entry>)
    requires Shape(t) && m.Propose? && m.round >= t.round && PrefixMatches(t, m.prevIndex, m.prevRound)
    requires Merge(t.log, t.commit, m.prevIndex, m.entries) == Merged(log)
    ensures MachineOk(t) ==> MachineOk(HandlePropose(t, m).0)
  {
    MergedMachine(t, m, BecomeFollower(t, m.round, m.leader), log);
  }

  /** The follower's side of a merge, without naming the handler. */
  ghost predicate MergedAs(t: Rep, m: Message, log: seq<Entry>, u: Rep)
    requires m.Propose?
  {
    && t.commit <= |log| && Shape(u) && u.id == t.id && u.n == t.n && u.round == m.round && u.role == Follower && u.log == log
    && u.applied == u.commit == (if m.decide > t.commit then Min(m.decide, |log|) else t.commit)
    && u.trim == (if m.trim > t.trim then Min(m.trim, u.applied) else t.trim)
    && (MachineOk(t) ==> MachineOk(u))
  }

  lemma MergedBatch(s: Rep, t: Rep, prev: nat, log: seq<Entry>, u: Rep, got: nat)
    requires Paired(s, t) && MergedAs(t, Quote(s, prev), log, u) && Closer(s.log, t.log, log, got)
    ensures AcceptedBatch(s, t, u, got)
  {
    CommitAgrees(s.log, log, t.commit, s.commit);
  }

  ghost predicate KeyOfMerges(t: Rep, m: Message, log: seq<Entry>, n: nat) {
    true
  }

  /** Proposal `m` passes the append check and makes t's log into `log`; kept folded. */
  ghost predicate Merges(t: Rep, m: Message, log: seq<Entry>)
    requires m.Propose?
  {
    forall n {:trigger KeyOfMerges(t, m, log, n)} :: KeyOfMerges(t, m, log, n) ==>
      PrefixMatches(t, m.prevIndex, m.prevRound) && m.prevIndex <= |t.log|
      && Merge(t.log, t.commit, m.prevIndex, m.entries) == Merged(log)
  }

  lemma QuoteMerges(s: Rep, t: Rep, prev: nat) returns (log: seq<Entry>)
    requires Paired(s, t) && t.trim <= prev <= |s.log| && Agree(s.log, t.log, prev)
    requires Agree(s.log, t.log, prev + 1) ==> Comparable(s.log, t.log)
    ensures Merges(t, Quote(s, prev), log) && Closer(s.log, t.log, log, prev + |Batch(s.log, prev)|)
  {
    CheckIsAgreement(s.log, t, prev);
    BatchMerges(s.log, t.log, t.commit, prev);
    log := Merge(t.log, t.commit, prev, Batch(s.log, prev)).log;
  }

  lemma HandlesMerge(t: Rep, m: Message, log: seq<Entry>) returns (u: Rep, a: Output)
    requires Shape(t) && m.Propose? && m.round >= t.round && Merges(t, m, log)
    ensures var got := m.prevIndex + |m.entries|;
            a == ToReplica(m.leader, Ack(m.round, t.id, true, got, got + 1)) && AnswersWith(t, m, u, a) && MergedAs(t, m, log, u)
  {
    assert KeyOfMerges(t, m, log, 0);
    AcceptsAs(t, m, log);
    MachineStays(t, m, log);
    u, a := HandlePropose(t, m).0, HandlePropose(t, m).1[0];
  }

  /** A batch that starts where the logs agree is merged, and acknowledged to its end. */
  lemma AcceptedQuote(s: Rep, t: Rep, prev: nat) returns (u: Rep, a: Output)
    requires Paired(s, t) && t.trim <= prev <= |s.log| && Agree(s.log, t.log, prev)
    requires Agree(s.log, t.log, prev + 1) ==> Comparable(s.log, t.log)
    ensures var got := prev + |Batch(s.log, prev)|;
            a == ToReplica(s.id, Ack(s.round, t.id, true, got, got + 1)) && AnswersWith(t, Quote(s, prev), u, a)
            && u.id == t.id && AcceptedBatch(s, t, u, got)
  {
    var log := QuoteMerges(s, t, prev);
    u, a := HandlesMerge(t, Quote(s, prev), log);
    MergedBatch(s, t, prev, log, u, prev + |Batch(s.log, prev)|);
  }

  // ----- the leader's side of an acceptance -----

  /** The leader knows that replica `peer` holds its log through slot `got`. */
  ghost predicate Learned(s: Rep, peer: nat, got: nat, v: Rep)
    requires peer < s.n && Shape(s)
  {
    && Shape(v) && SameTerm(s, v) && NextOk(v)
    && v.matchIndex[peer] == Max(s.matchIndex[peer], got)
    && (v.trim == s.trim || v.trim <= v.matchIndex[peer])
    && (got < |s.log| ==> v.nextIndex[peer] == Max(got, v.trim) + 1)
  }

  lemma Advanced(s: Rep, peer: nat)
    requires Shape(s) && s.role == Leader && NextOk(s) && peer < s.n
    ensures var (u, o) := Advance(s);
            && Shape(u) && SameTerm(s, u) && NextOk(u) && Answering(o)
            && u.matchIndex == s.matchIndex && u.nextIndex == s.nextIndex
            && (u.trim == s.trim || u.trim <= u.matchIndex[peer])
  {
    AdvanceKeeps(s);
    AdvanceTrims(s);
    ApplyKeeps(UpdateCommit(s));
    AppliesQuietly(UpdateCommit(s));
  }

  /** From u, having sent only answers, a leader whose log goes on past `got` sends what follows. */
  lemma SendsOn(u: Rep, peer: nat, got: nat, o: seq<Output>) returns (v: Rep, outs: seq<Output>)
    requires Shape(u) && u.role == Leader && NextOk(u) && peer < u.n && peer != u.id && Answering(o)
    requires u.nextIndex[peer] == got + 1 <= |u.log| + 1
    ensures (v, outs) == if got < |u.log| then (SendPropose(u, peer).0, o + SendPropose(u, peer).1) else (u, o)
    ensures Shape(v) && NextOk(v) && v == u.(nextIndex := v.nextIndex)
    ensures got < |u.log| ==> v.nextIndex[peer] == Max(got, u.trim) + 1
    ensures Proposed(outs, peer) == if got < |u.log| then Some(Quote(v, v.nextIndex[peer] - 1)) else None
  {
    v, outs := u, o;
    if got < |u.log| {
      var (w, p) := SendPropose(u, peer);
      v, outs := w, o + p;
      assert outs[|outs| - 1] == p[0] == ToReplica(peer, Quote(v, v.nextIndex[peer] - 1));
    } else {
      assert outs != [] ==> outs[|outs| - 1] in o;
    }
  }

  /** A successful acknowledgement is answered with the next batch, if there is one. */
  lemma LearnsFrom(s: Rep, peer: nat, got: nat) returns (v: Rep, outs: seq<Output>)
    requires Shape(s) && s.role == Leader && NextOk(s) && peer < s.n && peer != s.id
    requires s.nextIndex[peer] <= got + 1 <= |s.log| + 1
    ensures Learns(s, Ack(s.round, peer, true, got, got + 1), v, outs) && Learned(s, peer, got, v)
    ensures Proposed(outs, peer) == if got < |s.log| then Some(Quote(v, v.nextIndex[peer] - 1)) else None
  {
    var a := Matched(s, Ack(s.round, peer, true, got, got + 1));
    Advanced(a, peer);
    var (u, o) := Advance(a);
    v, outs := SendsOn(u, peer, got, o);
    AcknowledgesAs(s, peer, got, u, o, v, outs);
  }

  lemma AcknowledgesAs(s: Rep, peer: nat, got: nat, u: Rep, o: seq<Output>, v: Rep, outs: seq<Output>)
    requires Shape(s) && s.role == Leader && peer < s.n
    requires (u, o) == Advance(Matched(s, Ack(s.round, peer, true, got, got + 1)))
    requires Shape(u) && u.n == s.n && u.nextIndex[peer] == got + 1
    requires (v, outs) == if got < |u.log| then (SendPropose(u, peer).0, o + SendPropose(u, peer).1) else (u, o)
    ensures Learns(s, Ack(s.round, peer, true, got, got + 1), v, outs)
  {
  }

  // ----- an accepted exchange -----

  lemma ComparableMatches(a: seq<Entry>, b: seq<Entry>)
    requires Comparable(a, b)
    ensures Matching(a, b)
  {
    forall k: nat | k <= |a| && k <= |b| ensures Agree(a, b, k) { AgreeLess(a, b, Min(|a|, |b|), k); }
  }

  lemma PairStays(s: Rep, t: Rep, u: Rep, got: nat, v: Rep)
    requires Paired(s, t) && AcceptedBatch(s, t, u, got) && Learned(s, t.id, got, v)
    ensures Paired(v, u)
  {
    assert KeyOfAccepted(s, t, u, got, 0);
    ComparableMatches(s.log, u.log);
    var matched := v.matchIndex[t.id];
    assert Agree(s.log, u.log, matched);
    if v.trim != s.trim { AgreeLess(s.log, u.log, matched, v.trim); }
  }

  /** The follower holds the leader's whole log, the leader knows, and there is nothing more to say. */
  ghost predicate Repaired(s: Rep, y: Talk) {
    y.msg == None && SameTerm(s, y.s) && Paired(y.s, y.t) && s.log <= y.t.log && y.s.matchIndex[y.t.id] >= |s.log|
  }

  /** Either the conversation is over, or the next proposal starts further on and will be accepted too. */
  ghost predicate Onward(x: Talk, y: Talk)
    requires x.t.id < |x.s.nextIndex|
  {
    && SameTerm(x.s, y.s) && y.t.id == x.t.id
    && if y.msg == None then Repaired(x.s, y)
       else WellAimed(y) && Agree(y.s.log, y.t.log, y.s.nextIndex[y.t.id] - 1) && x.s.nextIndex[x.t.id] < y.s.nextIndex[y.t.id]
  }

  lemma Finished(s: Rep, t: Rep, u: Rep, got: nat, v: Rep)
    requires t.id < s.n && Shape(s) && AcceptedBatch(s, t, u, got) && Learned(s, t.id, got, v) && Paired(v, u) && u.id == t.id
    requires got == |s.log|
    ensures Repaired(s, Talk(v, u, None))
  {
    assert KeyOfAccepted(s, t, u, got, 0);
    WholeLog(s.log, u.log, got);
  }

  lemma Continued(s: Rep, t: Rep, u: Rep, got: nat, y: Talk)
    requires Paired(s, t) && AcceptedBatch(s, t, u, got) && Learned(s, t.id, got, y.s) && Paired(y.s, u) && u.id == t.id
    requires got < |s.log| && t.trim <= got && s.trim <= got && y.t == u && IsNext(y.s, t.id, y.msg)
    ensures WellAimed(y) && Agree(y.s.log, u.log, y.s.nextIndex[t.id] - 1) && got < y.s.nextIndex[t.id]
  {
    NextAimed(s, t, u, got, y.s);
    assert KeyOfAccepted(s, t, u, got, 0);
  }

  lemma OnwardOrDone(x: Talk, u: Rep, got: nat, y: Talk)
    requires WellAimed(x) && AcceptedBatch(x.s, x.t, u, got) && Learned(x.s, x.t.id, got, y.s) && Paired(y.s, u) && u.id == x.t.id
    requires y.t == u && if got < |x.s.log| then y.msg.Some? && IsNext(y.s, x.t.id, y.msg) else y.msg == None
    requires x.s.nextIndex[x.t.id] - 1 <= got <= |x.s.log| && (got < |x.s.log| ==> x.s.nextIndex[x.t.id] <= got)
    ensures Onward(x, y)
  {
    if got < |x.s.log| {
      Continued(x.s, x.t, u, got, y);
    } else {
      Finished(x.s, x.t, u, got, y.s);
    }
  }

  /** The two sides of an accepted exchange: the follower's and the leader's. */
  lemma BothSides(s: Rep, t: Rep, msg: Option<Message>, prev: nat, got: nat) returns (u: Rep, y: Talk)
    requires Paired(s, t) && t.trim <= prev <= |s.log| && Agree(s.log, t.log, prev) && s.nextIndex[t.id] == prev + 1
    requires Agree(s.log, t.log, prev + 1) ==> Comparable(s.log, t.log)
    requires IsNext(s, t.id, msg) && got == prev + |Batch(s.log, prev)| <= |s.log|
    ensures Turns(Talk(s, t, msg), y) && y.t == u && u.id == t.id
    ensures AcceptedBatch(s, t, u, got) && Learned(s, t.id, got, y.s)
    ensures if got < |s.log| then y.msg.Some? && IsNext(y.s, t.id, y.msg) else y.msg == None
  {
    var a, v, outs;
    NextIs(s, t.id, msg);
    u, a := AcceptedQuote(s, t, prev);
    v, outs := LearnsFrom(s, t.id, got);
    Exchanges(Talk(s, t, msg), u, a, v, outs);
    y := Talk(v, u, Proposed(outs, u.id));
    if got < |s.log| { NextIs(v, t.id, y.msg); }
  }

  ghost predicate KeyOfTarget(x: Talk, n: nat) {
    true
  }

  /** Well aimed, and starting where the logs agree; kept folded. */
  ghost predicate OnTarget(x: Talk)
    requires x.t.id < |x.s.nextIndex| && x.s.nextIndex[x.t.id] > 0
  {
    forall n {:trigger KeyOfTarget(x, n)} :: KeyOfTarget(x, n) ==>
      WellAimed(x) && Agree(x.s.log, x.t.log, x.s.nextIndex[x.t.id] - 1)
  }

  /** An accepted batch is followed by the next, until the follower has them all. */
  lemma AcceptedExchange(x: Talk) returns (y: Talk)
    requires WellAimed(x) && Agree(x.s.log, x.t.log, x.s.nextIndex[x.t.id] - 1)
    ensures Turns(x, y) && Onward(x, y)
  {
    var prev := x.s.nextIndex[x.t.id] - 1;
    var got := prev + |Batch(x.s.log, prev)|;
    var u;
    u, y := BothSides(x.s, x.t, x.msg, prev, got);
    PairStays(x.s, x.t, u, got, y.s);
    OnwardOrDone(x, u, got, y);
  }

  lemma OnTargetExchange(x: Talk) returns (y: Talk)
    requires x.t.id < |x.s.nextIndex| && x.s.nextIndex[x.t.id] > 0 && OnTarget(x)
    ensures Turns(x, y) && SameTerm(x.s, y.s) && y.t.id == x.t.id && x.s.nextIndex[x.t.id] <= |x.s.log| + 1
    ensures if y.msg == None then Repaired(x.s, y)
            else y.t.id < |y.s.nextIndex| && x.s.nextIndex[x.t.id] < y.s.nextIndex[y.t.id] <= |x.s.log| + 1 && OnTarget(y)
  {
    assert KeyOfTarget(x, 0);
    y := AcceptedExchange(x);
  }

  lemma NextAimed(s: Rep, t: Rep, u: Rep, got: nat, v: Rep)
    requires Paired(s, t) && AcceptedBatch(s, t, u, got) && Learned(s, t.id, got, v) && got < |s.log|
    requires t.trim <= got && s.trim <= got && Paired(v, u)
    ensures v.nextIndex[t.id] > v.trim && v.nextIndex[t.id] > u.trim && Agree(s.log, u.log, v.nextIndex[t.id] - 1)
  {
    assert KeyOfAccepted(s, t, u, got, 0);
  }

  // ----- to the end -----

  lemma AfterTurn(x: Talk, y: Talk, k: nat)
    requires Turns(x, y)
    ensures After(x, k + 1) == After(y, k)
  {
    assert KeyOfTurns(x, 0);
  }

  lemma RepairedFor(s: Rep, u: Rep, y: Talk)
    requires SameTerm(s, u) && Repaired(u, y)
    ensures Repaired(s, y)
  {
  }

  /** Once a proposal starts where the logs agree, at most one exchange a slot is left. */
  lemma {:induction false} FinishesFrom(x: Talk) returns (k: nat)
    requires x.t.id < |x.s.nextIndex| && 0 < x.s.nextIndex[x.t.id] <= |x.s.log| + 1 && OnTarget(x)
    ensures k <= |x.s.log| + 2 - x.s.nextIndex[x.t.id] && Repaired(x.s, After(x, k))
    decreases |x.s.log| + 1 - x.s.nextIndex[x.t.id]
  {
    var y := OnTargetExchange(x);
    if y.msg == None {
      k := 0;
      assert After(y, 0) == y;
    } else {
      k := FinishesFrom(y);
      RepairedFor(x.s, y.s, After(y, k));
    }
    AfterTurn(x, y, k);
    k := k + 1;
  }

  /** Repair terminates: a well aimed conversation ends, after a number of exchanges bounded by the
      length of the leader's log and where it starts, with the follower holding the leader's whole log. */
  lemma {:induction false} RepairTerminates(x: Talk) returns (k: nat)
    requires WellAimed(x)
    ensures k <= |x.s.log| + 2 + x.s.nextIndex[x.t.id] && Repaired(x.s, After(x, k))
    decreases x.s.nextIndex[x.t.id]
  {
    if Agree(x.s.log, x.t.log, x.s.nextIndex[x.t.id] - 1) {
      k := FinishesFrom(x);
    } else {
      var y := RefusedExchange(x);
      k := RepairTerminates(y);
      RepairedFor(x.s, y.s, After(y, k));
      AfterTurn(x, y, k);
      k := k + 1;
    }
  }

  // ----- exactly when -----

  /** A proposal that starts below the replica's watermark is refused with a hint that the leader does
      not follow, since it points ahead. */
  lemma BelowWatermark(x: Talk) returns (y: Talk)
    requires Talking(x) && x.s.nextIndex[x.t.id] <= x.t.trim
    ensures Turns(x, y) && Talking(y) && SameTerm(x.s, y.s) && y.t.id == x.t.id && y.s.nextIndex[y.t.id] <= y.t.trim
  {
    var prev := x.s.nextIndex[x.t.id] - 1;
    BelowRefuses(x.s, x.t, prev);
    y := RefusedTurn(x.s, x.t, x.msg, x.t.trim + 1);
    StillPaired(x.s, x.t, BackOff(x.s, x.t.id, x.t.trim + 1), y);
  }

  lemma BelowRefuses(s: Rep, t: Rep, prev: nat)
    requires Paired(s, t) && s.nextIndex[t.id] == prev + 1 && s.trim <= prev < t.trim
    ensures !PrefixMatches(t, prev, RoundAt(s.log, prev))
    ensures s.trim < BackOff(s, t.id, t.trim + 1) <= t.trim && BackOff(s, t.id, t.trim + 1) <= |s.log| + 1
  {
  }

  lemma {:induction false} StuckBelow(x: Talk, k: nat)
    requires Talking(x) && x.s.nextIndex[x.t.id] <= x.t.trim
    ensures After(x, k).msg != None
    decreases k
  {
    if k == 0 {
      NextIs(x.s, x.t.id, x.msg);
    } else {
      var y := BelowWatermark(x);
      StuckBelow(y, k - 1);
      AfterTurn(x, y, k - 1);
    }
  }

  ghost predicate Ends(x: Talk) {
    exists k: nat :: Repaired(x.s, After(x, k))
  }

  lemma AimedEnds(x: Talk)
    requires WellAimed(x)
    ensures Ends(x)
  {
    var k := RepairTerminates(x);
    assert Repaired(x.s, After(x, k));
  }

  lemma BelowNeverEnds(x: Talk)
    requires Talking(x) && x.s.nextIndex[x.t.id] <= x.t.trim
    ensures !Ends(x)
  {
    forall k: nat ensures !Repaired(x.s, After(x, k)) { StuckBelow(x, k); }
  }

  /** Exactly when repair ends: when the first proposal does not start below the replica's watermark. */
  lemma RepairExactly(x: Talk)
    requires Talking(x) && (Agree(x.s.log, x.t.log, x.s.nextIndex[x.t.id]) ==> Comparable(x.s.log, x.t.log))
    ensures Ends(x) <==> x.s.nextIndex[x.t.id] > x.t.trim
  {
    if x.s.nextIndex[x.t.id] > x.t.trim { AimedEnds(x); } else { BelowNeverEnds(x); }
  }

  // ----- what follows a repair -----

  /** The next heartbeat lets a repaired follower commit and apply all its leader has committed, and
      with as much applied it has the same database and the same responses. */
  lemma RepairedCommits(s: Rep, t: Rep, u: Rep, a: Output)
    requires Paired(s, t) && s.log <= t.log && AnswersWith(t, Quote(s, |s.log|), u, a)
    ensures s.commit <= u.commit == u.applied <= |u.log| && s.log <= u.log
    ensures MachineOk(s) && MachineOk(t) && s.applied == s.commit == u.commit ==> u.machine == s.machine
  {
    assert Batch(s.log, |s.log|) == [];
    AgreeIs(s.log, t.log, |s.log|);
    var w, b := AcceptedQuote(s, t, |s.log|);
    assert KeyOfAnswers(t, Quote(s, |s.log|), 0);
    HeartbeatCommits(s, t, w);
  }

  lemma HeartbeatCommits(s: Rep, t: Rep, u: Rep)
    requires Paired(s, t) && s.log <= t.log && AcceptedBatch(s, t, u, |s.log|)
    ensures s.commit <= u.commit == u.applied <= |u.log| && s.log <= u.log
    ensures MachineOk(s) && MachineOk(t) && s.applied == s.commit == u.commit ==> u.machine == s.machine
  {
    assert KeyOfAccepted(s, t, u, |s.log|, 0);
    WholeLog(s.log, u.log, |s.log|);
    AgreeLess(s.log, u.log, |s.log|, s.applied);
    AgreeIs(s.log, u.log, s.applied);
  }

  // ----- whom a leader speaks to -----

  /** What the leader has to say next to p. */
  ghost predicate Tells(t: Rep, p: nat, o: Output)
    requires |t.nextIndex| == t.n
  {
    p < t.n && p != t.id && t.nextIndex[p] > t.trim && o == ToReplica(p, Quote(t, t.nextIndex[p] - 1))
  }

  ghost predicate Told(t: Rep, p: nat, outs: seq<Output>)
    requires |t.nextIndex| == t.n
  {
    exists o :: o in outs && Tells(t, p, o)
  }

  ghost predicate TellsSome(t: Rep, k: nat, o: Output)
    requires |t.nextIndex| == t.n
  {
    o.ToReplica? && o.dst < k && Tells(t, o.dst, o)
  }

  ghost predicate KeyOfSpoken(t: Rep, k: nat, outs: seq<Output>, n: nat) {
    true
  }

  /** Every peer below k is sent the leader's next proposal to it, and nobody else anything; kept folded. */
  ghost predicate SpokenTo(t: Rep, k: nat, outs: seq<Output>)
    requires |t.nextIndex| == t.n
  {
    forall n {:trigger KeyOfSpoken(t, k, outs, n)} :: KeyOfSpoken(t, k, outs, n) ==> SpokenBelow(t, k, outs)
  }

  ghost predicate SpokenBelow(t: Rep, k: nat, outs: seq<Output>)
    requires |t.nextIndex| == t.n
  {
    && (forall p: nat :: p < k && p < t.n && p != t.id ==> Told(t, p, outs))
    && (forall o :: o in outs ==> TellsSome(t, k, o))
  }

  /** What is said to one peer does not change with what is said to another. */
  lemma TellsStill(t: Rep, u: Rep, p: nat, o: Output)
    requires |t.nextIndex| == t.n && u == t.(nextIndex := u.nextIndex) && |u.nextIndex| == t.n && Tells(t, p, o)
    requires u.nextIndex[p] == t.nextIndex[p]
    ensures Tells(u, p, o)
  {
  }

  lemma SpeaksToOneMore(t: Rep, k: nat, o: seq<Output>)
    requires Shape(t) && t.role == Leader && k < t.n && SpokenTo(t, k, o)
    ensures var (u, p) := SendPropose(t, k); |u.nextIndex| == u.n && SpokenTo(u, k + 1, o + p)
  {
    assert KeyOfSpoken(t, k, o, 0);
    var (u, p) := SendPropose(t, k);
    forall q: nat | q < k + 1 && q < t.n && q != t.id ensures Told(u, q, o + p) {
      if q < k {
        assert Told(t, q, o);
        var x :| x in o && Tells(t, q, x);
        TellsStill(t, u, q, x);
        assert x in o + p;
      } else {
        SendTells(t, k);
        assert p[0] in o + p;
      }
    }
    forall x | x in o + p ensures TellsSome(u, k + 1, x) {
      if x in o {
        TellsStill(t, u, x.dst, x);
      } else {
        SendTells(t, k);
      }
    }
  }

  lemma SendTells(t: Rep, k: nat)
    requires Shape(t) && t.role == Leader && k < t.n && k != t.id
    ensures var (u, p) := SendPropose(t, k); |u.nextIndex| == u.n && |p| == 1 && p[0].ToReplica? && p[0].dst == k && Tells(u, k, p[0])
  {
  }

  lemma {:induction false} BroadcastSpeaks(s: Rep, k: nat)
    requires Shape(s) && s.role == Leader && k <= s.n
    ensures var (t, o) := BroadcastTo(s, k); SpokenTo(t, k, o)
  {
    if k > 0 {
      BroadcastSpeaks(s, k - 1);
      SpeaksToOneMore(BroadcastTo(s, k - 1).0, k - 1, BroadcastTo(s, k - 1).1);
    }
  }

  /** A broadcast starts no peer below the watermark, and moves nobody who is not below it. */
  lemma {:induction false} BroadcastNext(s: Rep, k: nat)
    requires Shape(s) && s.role == Leader && k <= s.n
    ensures var t := BroadcastTo(s, k).0; forall p :: 0 <= p < s.n ==>
              t.nextIndex[p] == if p < k && p != s.id then Max(s.nextIndex[p], s.trim + 1) else s.nextIndex[p]
  {
    if k > 0 { BroadcastNext(s, k - 1); }
  }

  /** A leader with nothing queued sends each peer its next proposal when its timer expires. */
  lemma HeartbeatSpeaks(s: Rep)
    requires Shape(s) && s.role == Leader && s.queue == []
    ensures var (t, outs) := HandleTimeout(s); t == s.(nextIndex := t.nextIndex) && Shape(t) && SpokenTo(t, s.n, outs)
  {
    BroadcastSpeaks(s, s.n);
  }

  /** A candidate that wins speaks to each peer from the end of its log. */
  lemma WinnerSpeaks(s: Rep, m: Message)
    requires Shape(s) && m.Prepare? && m.server < s.n && s.role == Candidate
    ensures var (t, outs) := HandlePrepare(s, m);
            t.role == Leader ==> Shape(t) && t.log == s.log && SpokenTo(t, s.n, outs)
                                 && forall p :: 0 <= p < s.n ==> t.nextIndex[p] == |t.log| + 1
  {
    var a := s.(prepareOk := s.prepareOk[m.server := true]);
    BroadcastSpeaks(BecomeLeader(a), s.n);
    BroadcastNext(BecomeLeader(a), s.n);
  }

  // ----- in every run -----

  /** In every state of every run the logs of a leader and of a replica of a round not above its own
      match, and agree on what the leader has trimmed and on what it thinks they share. */
  lemma LeaderPaired(n: nat, leader: nat, cs: seq<Cluster>, es: seq<Event>, i: nat, a: nat, p: nat)
    requires IsRun(n, leader, cs, es) && i < |cs| && a < n && p < n && a != p
    requires a < |cs[i].reps| && p < |cs[i].reps|
    requires var s, t := cs[i].reps[a], cs[i].reps[p];
             s.role == Leader && t.round <= s.round && Agree(s.log, t.log, t.commit)
    ensures Paired(cs[i].reps[a], cs[i].reps[p])
    ensures cs[i].reps[a].id == a && cs[i].reps[p].id == p && cs[i].reps[p].trim <= |cs[i].reps[a].log|
  {
    RunInv(n, leader, cs, es, i);
    ForgottenIsHeld(n, leader, cs, es, i, a, p);
    ForgottenIsHeld(n, leader, cs, es, i, p, a);
    AgreeIs(cs[i].reps[a].log, cs[i].reps[p].log, cs[i].reps[a].trim);
    InvPairs(cs[i], a, p);
  }

  lemma InvPairs(c: Cluster, a: nat, p: nat)
    requires Inv(c) && a < c.n && p < c.n && a != p && c.reps[a].role == Leader && c.reps[p].round <= c.reps[a].round
    requires var s, t := c.reps[a], c.reps[p]; Agree(s.log, t.log, t.commit) && Agree(s.log, t.log, s.trim)
    ensures Paired(c.reps[a], c.reps[p]) && c.reps[a].id == a && c.reps[p].id == p
  {
    assert RepOk(c, a) && RepOk(c, p);
    var s, t := c.reps[a], c.reps[p];
    forall k: nat | 1 <= k <= |s.log| && k <= |t.log| && RoundAt(s.log, k) == RoundAt(t.log, k) ensures Agree(s.log, t.log, k) {
      LogMatching(c, s.log, t.log, k);
      AgreeIs(s.log, t.log, k);
    }
    AgreeIs(s.log, t.log, s.matchIndex[p]);
    if s.matchIndex[p] > 0 {
      assert Acked(c, p, s.round, s.matchIndex[p]);
    }
  }

  /** A leader that sends replica p a proposal from the end of its log, as each new leader does, repairs
      p by its answers and re-sent batches alone, if p has committed only what the leader holds. */
  lemma NewLeaderRepairs(n: nat, leader: nat, cs: seq<Cluster>, es: seq<Event>, i: nat, a: nat, p: nat)
    requires IsRun(n, leader, cs, es) && i < |cs| && a < n && p < n && a != p
    requires a < |cs[i].reps| && p < |cs[i].reps|
    requires var s, t := cs[i].reps[a], cs[i].reps[p];
             && s.role == Leader && t.round <= s.round && Agree(s.log, t.log, t.commit)
             && p < |s.nextIndex| && s.nextIndex[p] == |s.log| + 1
    ensures var s, t := cs[i].reps[a], cs[i].reps[p];
            && p < s.n == |s.nextIndex| && SendPropose(s, p) == (s, [ToReplica(p, Quote(s, |s.log|))])
            && Ends(Talk(s, t, Some(Quote(s, |s.log|))))
  {
    LeaderPaired(n, leader, cs, es, i, a, p);
    var s, t := cs[i].reps[a], cs[i].reps[p];
    SendsFromEnd(s, p);
    NextIs(s, p, Some(Quote(s, |s.log|)));
    assert !Agree(s.log, t.log, |s.log| + 1);
    AimedEnds(Talk(s, t, Some(Quote(s, |s.log|))));
  }

  lemma SendsFromEnd(s: Rep, p: nat)
    requires Shape(s) && s.role == Leader && p < s.n && p != s.id && s.nextIndex[p] == |s.log| + 1
    ensures SendPropose(s, p) == (s, [ToReplica(p, Quote(s, |s.log|))])
  {
    assert s.nextIndex[p := |s.log| + 1] == s.nextIndex;
  }
}
