/** What every run of the mutex keeps. */
module MutexSafety {
  import opened MutexLatch
  import opened MutexModel

  // ----- the word and wake-ups -----

  lemma EmptyCounts(x: set<nat>)
    ensures x == {} <==> |x| == 0
  {
  }

  lemma CountedNext(n: nat)
    ensures Counted(n + 1) == if Counted(n) == MAX_SHARED then 0 else Counted(n) + 1
  {
  }

  /** The id that becomes a holder by step `a` is not one yet. */
  ghost predicate NewHolder(s: State, a: Step) {
    match a
    case TryLock(id) => id !in s.excl
    case TryLockShared(id) => id !in s.shared
    case Trigger => s.queue != [] ==> s.queue[0].id !in s.excl && s.queue[0].id !in s.shared
    case Leave => s.section.Leaving? && s.section.op.Locking? ==> s.section.op.w.id !in s.excl && s.section.op.w.id !in s.shared
    case _ => true
  }

  /** Granting what the word allows keeps the count right, modulo 2^28. */
  lemma GrantKeeps(s: State, w: Waiter, l: Word)
    requires Counts(s, l) && Allow(w.shared, l) && w.id !in (if w.shared then s.shared else s.excl)
    ensures |Hold(s, w).excl| <= 1 && Counts(Hold(s, w), Taken(l, w.shared))
  {
    CountedNext(|s.shared|);
    if w.shared { assert |s.shared + {w.id}| == |s.shared| + 1; }
  }

  lemma ReleaseKeeps(s: State, w: Waiter, l: Word)
    requires |s.excl| <= 1 && Counts(s, l) && w.id in if w.shared then s.shared else s.excl
    ensures |Release(s, w).excl| <= 1 && Counts(Release(s, w), Dropped(l, w.shared))
  {
    EmptyCounts(Release(s, w).excl);
    if w.shared { CountedNext(|Release(s, w).shared|); }
  }

  /** While the latch is taken no fast path can succeed, and no second thread can take it. */
  lemma LatchExcludes(s: State, a: Step)
    requires WordOk(s) && Enabled(s, a) && !s.section.Free?
    ensures a.Check? || a.Trigger? || a.Leave? || a.Unlatch? || a.Abandon?
  {
  }

  lemma FastStepSound(s: State, a: Step)
    requires Sound(s) && Enabled(s, a) && NewHolder(s, a)
    requires a.TryLock? || a.TryLockShared? || a.FastUnlock? || a.FastUnlockShared?
    ensures Sound(Do(s, a))
  {
    match a
    case TryLock(id) => GrantKeeps(s, Waiter(id, false), s.word);
    case TryLockShared(id) => GrantKeeps(s, Waiter(id, true), s.word);
    case FastUnlock(id) => ReleaseKeeps(s, Waiter(id, false), s.word);
    case FastUnlockShared(id) => ReleaseKeeps(s, Waiter(id, true), s.word);
  }

  lemma LatchToUnlockSound(s: State, id: nat, shared: bool)
    requires Sound(s) && Enabled(s, LatchToUnlock(id, shared))
    ensures Sound(Do(s, LatchToUnlock(id, shared)))
  {
    ReleaseKeeps(s, Waiter(id, shared), s.word.(next := Nobody));
  }

  lemma LatchStepSound(s: State, a: Step)
    requires Sound(s) && Enabled(s, a)
    requires a.LatchToLock? || a.Check? || a.Unlatch? || a.Abandon?
    ensures Sound(Do(s, a))
  {
  }

  lemma GrantStepSound(s: State, a: Step)
    requires Sound(s) && Enabled(s, a) && NewHolder(s, a)
    requires a.Trigger? || a.Leave?
    ensures Sound(Do(s, a))
  {
    var l := s.section.l;
    if a.Trigger? {
      if s.queue[0].id !in s.gone { GrantKeeps(s, s.queue[0], l); }
    } else if s.section.op.Locking? {
      if s.queue == [] && Allow(s.section.op.w.shared, l) { GrantKeeps(s, s.section.op.w, l); }
    }
  }

  // ----- ids and queue order -----

  lemma QueueIds(s: State)
    requires Fair(s) && IdsOk(s)
    ensures forall i :: 0 < i < |s.queue| ==> s.queue[i].id != s.queue[0].id
    ensures forall i :: 0 <= i < |s.queue| ==> s.queue[i].id in s.ids
  {
    var n := |s.arrived| - |s.queue|;
    assert forall i :: 0 <= i < |s.queue| ==> s.queue[i] == s.arrived[n + i];
  }

  /** Steps that leave queue and history alone. */
  lemma QuietStepOrderly(s: State, a: Step)
    requires Orderly(s) && Sound(s) && Enabled(s, a)
    requires a.TryLock? || a.TryLockShared? || a.FastUnlock? || a.FastUnlockShared? || a.LatchToLock? || a.LatchToUnlock? || a.Unlatch?
    ensures Orderly(Do(s, a))
  {
    QueueIds(s);
  }

  /** Popping the head serves one more arrival: it is granted unless it has gone. */
  lemma PopKeepsFair(s: State, t: State)
    requires Fair(s) && s.queue != [] && t.queue == s.queue[1..] && t.arrived == s.arrived && t.gone == s.gone
    requires t.granted == s.granted + if s.queue[0].id in s.gone then [] else [s.queue[0].id]
    ensures Fair(t)
  {
    var n := |s.arrived| - |s.queue|;
    assert s.queue[0] == s.arrived[n..][0];
    assert s.arrived[..n + 1][..n] == s.arrived[..n];
    assert s.queue[1..] == s.arrived[n + 1..];
  }

  lemma CheckOrderly(s: State)
    requires Orderly(s) && Enabled(s, Check)
    ensures Orderly(Do(s, Check))
  {
    if s.queue != [] && s.queue[0].id in s.gone { PopKeepsFair(s, Do(s, Check)); }
  }

  lemma TriggerOrderly(s: State)
    requires Orderly(s) && Enabled(s, Trigger)
    ensures Orderly(Do(s, Trigger)) && NewHolder(s, Trigger)
  {
    PopKeepsFair(s, Do(s, Trigger));
    TriggerIds(s);
  }

  lemma TriggerIds(s: State)
    requires Orderly(s) && Enabled(s, Trigger)
    ensures IdsOk(Do(s, Trigger)) && RequestOk(Do(s, Trigger)) && NewHolder(s, Trigger)
  {
    QueueIds(s);
    var n := |s.arrived| - |s.queue|;
    assert s.queue[0] == s.arrived[n..][0];
  }

  lemma LeaveOrderly(s: State)
    requires Orderly(s) && Enabled(s, Leave)
    ensures Orderly(Do(s, Leave)) && NewHolder(s, Leave)
  {
    var t := Do(s, Leave);
    if t.arrived != s.arrived { assert Served(t) == Served(s); }
  }

  /** Abandoning a waiter that is still queued does not rewrite who was granted. */
  lemma {:induction false} SurvivorsKeep(ws: seq<Waiter>, gone: set<nat>, id: nat)
    requires forall i :: 0 <= i < |ws| ==> ws[i].id != id
    ensures Surviving(ws, gone + {id}) == Surviving(ws, gone)
  {
    if ws != [] { SurvivorsKeep(ws[..|ws| - 1], gone, id); }
  }

  lemma AbandonOrderly(s: State, id: nat)
    requires Orderly(s) && Enabled(s, Abandon(id))
    ensures Orderly(Do(s, Abandon(id)))
  {
    var k :| 0 <= k < |s.queue| && s.queue[k].id == id;
    var n := |s.arrived| - |s.queue|;
    assert s.queue[k] == s.arrived[n + k];
    SurvivorsKeep(Served(s), s.gone, id);
  }

  // ----- runs -----

  lemma StepKeeps(s: State, a: Step)
    requires Sound(s) && Orderly(s) && Enabled(s, a)
    ensures Sound(Do(s, a)) && Orderly(Do(s, a))
  {
    match a
    case Trigger => TriggerOrderly(s); GrantStepSound(s, a);
    case Leave => LeaveOrderly(s); GrantStepSound(s, a);
    case Check => CheckOrderly(s); LatchStepSound(s, a);
    case Abandon(id) => AbandonOrderly(s, id); LatchStepSound(s, a);
    case LatchToLock(_) => QuietStepOrderly(s, a); LatchStepSound(s, a);
    case LatchToUnlock(id, shared) => QuietStepOrderly(s, a); LatchToUnlockSound(s, id, shared);
    case Unlatch => QuietStepOrderly(s, a); LatchStepSound(s, a);
    case _ => QuietStepOrderly(s, a); FastStepSound(s, a);
  }

  lemma {:induction false} RunKeeps(run: seq<State>, n: nat)
    requires IsRun(run) && n < |run|
    ensures Sound(run[n]) && Orderly(run[n])
    decreases n
  {
    if n > 0 {
      RunKeeps(run, n - 1);
      assert StepAt(run, n);
      var a :| Takes(run[n - 1], a, run[n]);
      StepKeeps(run[n - 1], a);
    }
  }

  /** With the latch free the word says whether there is an exclusive holder, of which there is never
      more than one, and how many shared holders there are, modulo 2^28. */
  lemma WordTellsHolders(run: seq<State>, n: nat)
    requires IsRun(run) && n < |run| && !run[n].word.latch
    ensures var s := run[n];
            && |s.excl| <= 1 && (s.word.excl <==> s.excl != {}) && s.word.shared == |s.shared| % 0x1000_0000
            && s.word.next == NextOf(s.queue)
  {
    RunKeeps(run, n);
  }

  /** The word forbids a request exactly when the holders do. */
  lemma AllowedUnlessBarred(s: State, shared: bool)
    requires Counts(s, Current(s))
    ensures Allow(shared, Current(s)) <==> !Barred(s, shared)
  {
  }

  /** No wake-up is lost: with the latch free, the holders keep out a head waiter that is still there,
      a shared one only if there is an exclusive holder; and when nobody holds the lock nobody waits. */
  lemma NoLostWakeup(run: seq<State>, n: nat)
    requires IsRun(run) && n < |run| && !run[n].word.latch
    ensures var s := run[n];
            && (s.queue != [] && s.queue[0].id !in s.gone ==>
                  s.excl != {} || (!s.queue[0].shared && |s.shared| % 0x1000_0000 != 0))
            && (s.excl == {} && s.shared == {} ==> s.queue == [])
  {
    RunKeeps(run, n);
    if run[n].queue != [] { AllowedUnlessBarred(run[n], run[n].queue[0].shared); }
  }

  /** Queued waiters are granted the lock in the order they queued; only abandoned ones are passed over. */
  lemma GrantsFollowQueueOrder(run: seq<State>, n: nat)
    requires IsRun(run) && n < |run|
    ensures var s := run[n];
            && |s.queue| <= |s.arrived| && s.arrived == Served(s) + s.queue
            && s.granted == Surviving(Served(s), s.gone)
  {
    RunKeeps(run, n);
  }

  /** Nobody overtakes: a request that never queued gets the lock only when no one is queued. */
  lemma NoOvertaking(run: seq<State>, n: nat, a: Step)
    requires IsRun(run) && n < |run| && Enabled(run[n], a)
    requires a.TryLock? || a.TryLockShared? || a.Leave?
    requires Do(run[n], a).excl != run[n].excl || Do(run[n], a).shared != run[n].shared
    ensures run[n].queue == []
  {
    RunKeeps(run, n);
  }

  // ----- exclusion, and exactly when it holds -----

  /** The step from s to t grants an exclusive request while the shared holders are a positive multiple
      of 2^28, which the word counts as none. */
  ghost predicate CrowdedGrant(s: State, t: State) {
    t.excl - s.excl != {} && |s.shared| > 0 && Counted(|s.shared|) == 0
  }

  /** Only such a step can put a holder beside an exclusive one, and it always does. */
  lemma StepExclusion(s: State, a: Step)
    requires Sound(s) && Orderly(s) && Enabled(s, a) && Exclusion(s)
    ensures Exclusion(Do(s, a)) <==> !CrowdedGrant(s, Do(s, a))
  {
    var t := Do(s, a);
    StepKeeps(s, a);
    EmptyCounts(s.shared);
    EmptyCounts(t.excl - s.excl);
    if t.excl - s.excl != {} {
      ExclusiveGrant(s, a);
    } else if s.excl == {} {
      assert t.excl == {};
    }
  }

  lemma ExclusiveGrant(s: State, a: Step)
    requires Sound(s) && Enabled(s, a) && Do(s, a).excl - s.excl != {}
    ensures Counted(|s.shared|) == 0 && s.excl == {} && Do(s, a).shared == s.shared && Do(s, a).excl != {}
  {
  }

  ghost predicate AloneAt(run: seq<State>, j: nat)
    requires j < |run|
  {
    Exclusion(run[j])
  }

  ghost predicate CrowdedAt(run: seq<State>, j: nat)
    requires 0 < j < |run|
  {
    CrowdedGrant(run[j - 1], run[j])
  }

  /** The exact condition of exclusion, in every run: exclusive holders have been alone so far if and only
      if no exclusive request was granted while the shared holders were a positive multiple of 2^28. */
  lemma {:induction false} ExclusionExactly(run: seq<State>, n: nat)
    requires IsRun(run) && n < |run|
    ensures (forall i {:trigger AloneAt(run, i)} :: 0 <= i <= n ==> AloneAt(run, i)) <==>
            (forall i {:trigger CrowdedAt(run, i)} :: 0 < i <= n ==> !CrowdedAt(run, i))
    decreases n
  {
    if n == 0 {
      assert AloneAt(run, 0);
    } else {
      ExclusionExactly(run, n - 1);
      StepAtExclusion(run, n);
      assert AloneAt(run, n - 1) && !CrowdedAt(run, n) ==> AloneAt(run, n);
    }
  }

  lemma StepAtExclusion(run: seq<State>, n: nat)
    requires IsRun(run) && 0 < n < |run|
    ensures AloneAt(run, n - 1) ==> (AloneAt(run, n) <==> !CrowdedAt(run, n))
  {
    assert StepAt(run, n);
    var a :| Takes(run[n - 1], a, run[n]);
    RunKeeps(run, n - 1);
    if Exclusion(run[n - 1]) { StepExclusion(run[n - 1], a); }
  }

  lemma OnlyMember(x: set<nat>, id: nat)
    requires id in x && |x| <= 1
    ensures x == {id}
  {
    assert |x - {id}| == 0;
  }

  /** Where there is room for the count, an exclusive holder is alone. */
  lemma ExclusiveIsAlone(run: seq<State>, n: nat, id: nat)
    requires IsRun(run) && Within(run, MAX_SHARED) && n < |run| && id in run[n].excl
    ensures run[n].excl == {id} && run[n].shared == {}
  {
    RoomKeepsExclusion(run, n, MAX_SHARED);
    OnlyMember(run[n].excl, id);
  }

  lemma RoomKeepsExclusion(run: seq<State>, n: nat, bound: nat)
    requires IsRun(run) && Within(run, bound) && n < |run| && bound <= MAX_SHARED
    ensures Exclusion(run[n])
  {
    ExclusionExactly(run, n);
    forall i {:trigger CrowdedAt(run, i)} | 0 < i <= n ensures !CrowdedAt(run, i) {
      assert RoomAt(run, i - 1, bound);
    }
    assert AloneAt(run, n);
  }

  // ----- the bound on shared holders is needed -----

  function Ids(n: nat): (r: set<nat>)
    ensures |r| == n && forall i: nat :: i in r <==> i < n
  {
    if n == 0 then {} else Ids(n - 1) + {n - 1}
  }

  /** The state after n calls of `try_lock_shared` in a row. */
  function Crowd(n: nat): State
    requires n <= MAX_SHARED + 1
  {
    Initial.(word := Unlocked.(shared := if n > MAX_SHARED then 0 else n), shared := Ids(n), ids := Ids(n))
  }

  ghost function Crowding(n: nat): (run: seq<State>)
    requires n <= MAX_SHARED + 1
    ensures |run| == n + 1 && forall i :: 0 <= i <= n ==> run[i] == Crowd(i)
  {
    if n == 0 then [Crowd(0)] else Crowding(n - 1) + [Crowd(n)]
  }

  lemma CrowdGrows(j: nat)
    requires 0 < j <= MAX_SHARED + 1
    ensures Follows(Crowd(j - 1), Crowd(j))
  {
    assert Ids(j) == Ids(j - 1) + {j - 1};
    assert Takes(Crowd(j - 1), TryLockShared(j - 1), Crowd(j));
  }

  /** A crowd whose count has wrapped to 0, and an exclusive holder beside it. */
  function Intruded(n: nat): State
    requires n <= MAX_SHARED + 1
  {
    Crowd(n).(word := Unlocked.(excl := true), excl := {n}, ids := Ids(n) + {n})
  }

  lemma Intrusion(n: nat)
    requires n <= MAX_SHARED + 1 && Crowd(n).word == Unlocked
    ensures Follows(Crowd(n), Intruded(n))
  {
    assert Takes(Crowd(n), TryLock(n), Intruded(n));
  }

  /** With one shared holder too many the count wraps to 0, and an exclusive request succeeds beside them all. */
  lemma CrowdBreaksExclusion(n: nat) returns (run: seq<State>)
    requires n == MAX_SHARED + 1
    ensures |run| == n + 2 && IsRun(run) && n in run[n + 1].excl && run[n + 1].shared == Ids(n)
    ensures forall j :: 0 <= j <= n ==> run[j] == Crowd(j)
  {
    run := Crowding(n) + [Intruded(n)];
    forall j | 0 < j < |run| ensures StepAt(run, j) {
      if j <= n { CrowdGrows(j); } else { Intrusion(n); }
    }
  }

  /** Every run with never more than `bound` shared holders keeps exclusive holders alone. */
  ghost predicate SafeWithin(bound: nat) {
    forall run: seq<State>, n: nat :: IsRun(run) && Within(run, bound) && n < |run| ==> Exclusion(run[n])
  }

  /** The bound on shared holders is exact: 2^28 - 1. */
  lemma ExclusionBound(bound: nat)
    ensures SafeWithin(bound) <==> bound < 0x1000_0000
  {
    if bound <= MAX_SHARED {
      forall run: seq<State>, n: nat | IsRun(run) && Within(run, bound) && n < |run| ensures Exclusion(run[n]) {
        RoomKeepsExclusion(run, n, bound);
      }
    } else {
      TooManyHolders(bound, MAX_SHARED + 1);
    }
  }

  lemma TooManyHolders(bound: nat, n: nat)
    requires n == MAX_SHARED + 1 && n <= bound
    ensures !SafeWithin(bound)
  {
    var run := CrowdBreaksExclusion(n);
    forall j | 0 <= j <= n ensures run[j].shared == Ids(j) { assert run[j] == Crowd(j); }
    CrowdFits(run, n, bound);
    NotAlone(run[n + 1], n);
  }

  lemma CrowdFits(run: seq<State>, n: nat, bound: nat)
    requires |run| == n + 2 && run[n + 1].shared == Ids(n) && n <= bound
    requires forall j {:trigger run[j]} :: 0 <= j <= n ==> run[j].shared == Ids(j)
    ensures Within(run, bound)
  {
    forall j | 0 <= j < |run| ensures RoomAt(run, j, bound) {
      if j <= n { assert |run[j].shared| == j; }
    }
  }

  lemma NotAlone(s: State, n: nat)
    requires s.excl != {} && 0 < n && s.shared == Ids(n)
    ensures !Exclusion(s)
  {
    assert 0 in s.shared;
  }
}
