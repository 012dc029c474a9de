/** The code of the Cotamer mutex on its 32-bit latch word. Every method is proved to do nothing
    but take steps of the transition system, so that what holds in all its runs holds here. */
module MutexCode {
  import opened CircularInt
  import opened MutexLatch
  import opened MutexModel
  import opened MutexSafety

  lemma Snoc(run: seq<State>, a: Step)
    requires IsRun(run) && Enabled(run[|run| - 1], a)
    ensures IsRun(run + [Do(run[|run| - 1], a)])
  {
    var longer := run + [Do(run[|run| - 1], a)];
    forall j | 0 < j < |longer| ensures StepAt(longer, j) {
      if j < |run| {
        assert StepAt(run, j);
        var b :| Takes(run[j - 1], b, run[j]);
        assert Takes(longer[j - 1], b, longer[j]);
      } else {
        assert Takes(longer[j - 1], a, longer[j]);
      }
    }
  }

  /** What the code may rely on about the word and its private copy. */
  lemma WordFacts(run: seq<State>)
    requires IsRun(run)
    ensures var s := run[|run| - 1];
            && s.word.shared <= MAX_SHARED
            && (s.section.Free? <==> !s.word.latch)
            && (!s.section.Free? ==> s.section.l.shared <= MAX_SHARED && s.section.l.next == Nobody && !s.section.l.latch)
            && (s.word == Unlocked <==> !s.word.latch && s.excl == {} && Counted(|s.shared|) == 0)
            && (s.section.Triggering? ==> s.queue != [] && !s.section.l.excl)
            && (forall shared :: Allow(shared, Current(s)) <==> !Barred(s, shared))
  {
    RunKeeps(run, |run| - 1);
  }

  /** What an exclusive `unlock` may rely on: the bit it gives back is there. */
  lemma HolderFacts(run: seq<State>, id: nat)
    requires IsRun(run)
    ensures var s := run[|run| - 1]; !s.word.latch && id in s.excl ==> s.word.excl
  {
    RunKeeps(run, |run| - 1);
  }

  function IdsOf(queue: seq<Waiter>): (r: set<nat>)
    ensures forall i :: 0 <= i < |queue| ==> queue[i].id in r
  {
    set i | 0 <= i < |queue| :: queue[i].id
  }

  class Mutex {
    var latch: nat
    var waiters: seq<Waiter>
    /** The waiters whose event has been abandoned. */
    var gone: set<nat>
    /** Who gives up waiting while a thread is inside the latched section: `others(k)` do before its
        k-th look at the queue. Nothing is assumed about it. */
    const others: nat -> set<nat>
    var looks: nat
    ghost var run: seq<State>
    ghost var s: State

    ghost predicate Valid()
      reads this
    {
      && IsRun(run) && run[|run| - 1] == s
      && latch == Encode(s.word) && waiters == s.queue && gone == s.gone
    }

    constructor (others: nat -> set<nat>)
      ensures Valid() && s == Initial && this.others == others
    {
      latch, waiters, gone, looks, s := 0, [], {}, 0, Initial;
      this.others := others;
      run := [Initial];
    }

    /** Record that the code, or another thread, took step `a`. */
    ghost method Take(a: Step)
      requires IsRun(run) && run[|run| - 1] == s && Enabled(s, a)
      modifies this`run, this`s
      ensures IsRun(run) && run[|run| - 1] == s && s == Do(old(s), a)
      ensures old(run) < run && |run| == |old(run)| + 1
    {
      Snoc(run, a);
      s := Do(s, a);
      run := run + [s];
    }

    /** Waiters abandon their events, anywhere in the queue. */
    method Others()
      requires Valid()
      modifies this`gone, this`looks, this`run, this`s
      ensures Valid() && old(run) <= run
      ensures s == old(s).(gone := old(s).gone + others(old(looks)) * IdsOf(waiters))
    {
      var leaving := others(looks) * IdsOf(waiters);
      AbandonAll(leaving);
      gone, looks := gone + leaving, looks + 1;
    }

    ghost method AbandonAll(leaving: set<nat>)
      requires Valid() && leaving <= IdsOf(waiters)
      modifies this`run, this`s
      ensures IsRun(run) && run[|run| - 1] == s && old(run) <= run && s == old(s).(gone := old(s).gone + leaving)
    {
      var left := leaving;
      while left != {}
        invariant IsRun(run) && run[|run| - 1] == s && old(run) <= run && left <= leaving
        invariant s == old(s).(gone := old(s).gone + (leaving - left))
        decreases |left|
      {
        var id :| id in left;
        assert Queued(s, id);
        Take(Abandon(id));
        left := left - {id};
      }
    }

    /** `try_lock`: compare-and-swap from 0. */
    method TryLock(id: nat) returns (ok: bool)
      requires Valid() && id !in s.ids
      modifies this
      ensures Valid() && old(run) <= run
      ensures ok <==> old(s).word == Unlocked
      ensures ok <==> !old(s).word.latch && old(s).excl == {} && |old(s).shared| % 0x1000_0000 == 0
      ensures |old(s).shared| <= MAX_SHARED ==> (ok <==> !old(s).word.latch && old(s).excl == {} && old(s).shared == {})
      ensures s == if ok then Do(old(s), Step.TryLock(id)) else old(s)
    {
      WordFacts(run);
      TestsReadFields(s.word);
      EmptyCounts(s.shared);
      ok := latch == 0;
      if ok {
        Take(Step.TryLock(id));
        latch := MF_LOCK_EXCL;
      }
    }

    /** `try_lock_shared` */
    method TryLockShared(id: nat) returns (ok: bool)
      requires Valid() && id !in s.ids
      modifies this
      ensures Valid() && old(run) <= run
      ensures ok <==> Enabled(old(s), Step.TryLockShared(id))
      ensures ok <==> !old(s).word.latch && old(s).queue == [] && old(s).excl == {}
      ensures s == if ok then Do(old(s), Step.TryLockShared(id)) else old(s)
    {
      WordFacts(run);
      RunKeeps(run, |run| - 1);
      TestsReadFields(s.word);
      ok := Bit(latch, MF_LATCH) == 0 && Bit(latch, MF_NEXT_EXCL) == 0 && Bit(latch, MF_NEXT_SHARED) == 0
        && Bit(latch, MF_LOCK_EXCL) == 0;
      if ok {
        ArithmeticMovesFields(s.word, true);
        Take(Step.TryLockShared(id));
        latch := Wrap(latch + MF_LOCK_SHARED);
      }
    }

    /** `latch`, once its spin loop finds the latch bit clear; `a` says what the thread is about to do. */
    method Latch(ghost a: Step) returns (l: nat)
      requires Valid() && !s.word.latch && Enabled(s, a) && (a.LatchToLock? || a.LatchToUnlock?)
      modifies this`latch, this`run, this`s
      ensures Valid() && old(run) < run && |run| == |old(run)| + 1 && s == Do(old(s), a)
      ensures l == Encode(old(s).word.(next := Nobody))
    {
      WordFacts(run);
      TestsReadFields(s.word);
      l := latch - Bit(latch, MF_NEXT_EXCL) - Bit(latch, MF_NEXT_SHARED);
      latch := latch + MF_LATCH;
      Take(a);
    }

    /** `unlatch` */
    method Unlatch(l: nat)
      requires Valid() && s.section.Unlatching? && l == Encode(s.section.l)
      modifies this`latch, this`run, this`s
      ensures Valid() && old(run) <= run && s == Do(old(s), Step.Unlatch)
    {
      WordFacts(run);
      var next := 0;
      if waiters != [] {
        next := if waiters[0].shared then MF_NEXT_SHARED else MF_NEXT_EXCL;
      }
      Take(Step.Unlatch);
      latch := l + next;
    }

    /** `fw.first->trigger()` on the head of the queue, and what follows it. */
    method TriggerHead(l: nat) returns (m: nat)
      requires Valid() && s.section.Triggering? && l == Encode(s.section.l) && waiters != []
      modifies this`waiters, this`gone, this`looks, this`run, this`s
      ensures Valid() && old(run) <= run && waiters == old(waiters)[1..] && old(s).gone <= s.gone
      ensures s.section.Checking? && m == Encode(s.section.l) && s.section.op == old(s).section.op
      ensures var w := old(waiters)[0];
              if w.id in s.gone then s.granted == old(s).granted && s.section.l == old(s).section.l
              else s.granted == old(s).granted + [w.id] && s.section.l == Taken(old(s).section.l, w.shared)
    {
      Others();
      WordFacts(run);
      var fw := waiters[0];
      m := l;
      if fw.id !in gone {
        ArithmeticMovesFields(s.section.l, fw.shared);
        m := Wrap(l + LockUnit(fw.shared));
      }
      Take(Trigger);
      waiters := waiters[1..];
    }

    /** One look at the head of the queue: drop it if abandoned, stop if the holders keep it out. */
    method LookAtHead(l: nat) returns (dropped: bool, stop: bool)
      requires Valid() && s.section.Checking? && l == Encode(s.section.l) && waiters != []
      modifies this`waiters, this`gone, this`looks, this`run, this`s
      ensures Valid() && old(run) <= run && waiters == if dropped then old(waiters)[1..] else old(waiters)
      ensures dropped <==> old(waiters)[0].id in s.gone
      ensures if dropped then s.section.Checking? else if stop then s.section.Leaving? else s.section.Triggering?
      ensures l == Encode(s.section.l) && s.section.op == old(s).section.op
      ensures stop <==> !dropped && Barred(s, old(waiters)[0].shared)
    {
      Others();
      WordFacts(run);
      var fw := waiters[0];
      dropped, stop := fw.id in gone, false;
      AllowReadsFields(s.section.l, fw.shared);
      assert Allow(fw.shared, s.section.l) <==> !Barred(s, fw.shared);
      Take(Check);
      if dropped {
        waiters := waiters[1..];
      } else {
        stop := !AllowNumber(fw.shared, l);
      }
    }

    /** `notify_locked`: drop abandoned waiters and grant the lock from the front of the queue. */
    method NotifyLocked(l: nat) returns (m: nat)
      requires Valid() && s.section.Checking? && l == Encode(s.section.l)
      modifies this`waiters, this`gone, this`looks, this`run, this`s
      ensures Valid() && old(run) <= run
      ensures s.section.Leaving? && m == Encode(s.section.l) && s.section.op == old(s).section.op
      ensures |waiters| <= |old(waiters)| && waiters == old(waiters)[|old(waiters)| - |waiters|..]
      ensures waiters != [] ==> Barred(s, waiters[0].shared)
    {
      m := l;
      while waiters != []
        invariant Valid() && old(run) <= run
        invariant s.section.Checking? && m == Encode(s.section.l) && s.section.op == old(s).section.op
        invariant |waiters| <= |old(waiters)| && waiters == old(waiters)[|old(waiters)| - |waiters|..]
        decreases |waiters|
      {
        var dropped, stop := LookAtHead(m);
        if stop { return; }
        if !dropped { m := TriggerHead(m); }
      }
      WordFacts(run);
      Take(Check);
    }

    /** The end of `lock_impl`: take the lock if nobody is queued and it is free, else queue up. */
    method FinishLock(w: Waiter, m: nat) returns (held: bool)
      requires Valid() && s.section.Leaving? && s.section.op == Locking(w) && m == Encode(s.section.l)
      modifies this
      ensures Valid() && old(run) <= run && s.section.Free?
      ensures held <==> old(waiters) == [] && !Barred(old(s), w.shared)
      ensures !held ==> s.excl == old(s).excl && s.shared == old(s).shared
      ensures held ==> w.id in (if w.shared then s.shared else s.excl)
      ensures waiters == if held then old(waiters) else old(waiters) + [w]
    {
      WordFacts(run);
      AllowReadsFields(s.section.l, w.shared);
      ArithmeticMovesFields(s.section.l, w.shared);
      held := waiters == [] && AllowNumber(w.shared, m);
      var l := m;
      Take(Leave);
      if held {
        l := Wrap(l + LockUnit(w.shared));
      } else {
        waiters := waiters + [w];
      }
      Others();
      Unlatch(l);
    }

    /** `lock_impl` */
    method LockImpl(w: Waiter) returns (held: bool)
      requires Valid() && !s.word.latch && w.id !in s.ids
      modifies this
      ensures Valid() && s.section.Free?
      ensures |old(run)| < |run| && old(run) < run && run[|old(run)|] == Do(old(s), LatchToLock(w))
      ensures held ==> w.id in (if w.shared then s.shared else s.excl) && waiters == []
      ensures !held ==> waiters != [] && waiters[|waiters| - 1] == w
      ensures !held && |waiters| == 1 ==> Barred(s, w.shared)
    {
      WordFacts(run);
      var l := Latch(LatchToLock(w));
      l := NotifyLocked(l);
      Others();
      held := FinishLock(w, l);
    }

    /** `unlock_impl` */
    method UnlockImpl(id: nat, shared: bool)
      requires Valid() && !s.word.latch && id in (if shared then s.shared else s.excl)
      modifies this
      ensures Valid() && s.section.Free?
      ensures |old(run)| < |run| && old(run) < run && run[|old(run)|] == Do(old(s), LatchToUnlock(id, shared))
      ensures waiters != [] ==> Barred(s, waiters[0].shared)
    {
      var l := LatchAndGiveBack(id, shared);
      l := NotifyLocked(l);
      Others();
      WordFacts(run);
      Take(Leave);
      Others();
      Unlatch(l);
    }

    /** The start of `unlock_impl`. */
    method LatchAndGiveBack(id: nat, shared: bool) returns (l: nat)
      requires Valid() && !s.word.latch && id in (if shared then s.shared else s.excl)
      modifies this`latch, this`run, this`s
      ensures Valid() && s == Do(old(s), LatchToUnlock(id, shared)) && l == Encode(s.section.l)
      ensures old(run) < run && run[|run| - 1] == s && |run| == |old(run)| + 1
    {
      WordFacts(run);
      HolderFacts(run, id);
      ArithmeticMovesFields(s.word.(next := Nobody), shared);
      l := Latch(LatchToUnlock(id, shared));
      l := Wrap(l - LockUnit(shared));
    }

    /** `unlock` and `unlock_shared`: the fast path when nobody needs waking, else the slow one. */
    method Unlock(id: nat)
      requires Valid() && !s.word.latch && id in s.excl
      modifies this
      ensures Valid() && s.section.Free? && old(run) < run
      ensures (Enabled(old(s), FastUnlock(id)) && run[|old(run)|] == Do(old(s), FastUnlock(id)))
              || run[|old(run)|] == Do(old(s), LatchToUnlock(id, false))
      ensures waiters != [] && waiters[0].id !in s.gone ==> Barred(s, waiters[0].shared)
    {
      WordFacts(run);
      TestsReadFields(s.word);
      if Bit(latch, MF_NEXT_EXCL) == 0 && Bit(latch, MF_NEXT_SHARED) == 0 {
        HolderFacts(run, id);
        ArithmeticMovesFields(s.word, false);
        Take(FastUnlock(id));
        latch := Wrap(latch - MF_LOCK_EXCL);
      } else {
        UnlockImpl(id, false);
      }
      WordFacts(run);
      NoLostWakeup(run, |run| - 1);
    }

    method UnlockShared(id: nat)
      requires Valid() && !s.word.latch && id in s.shared
      modifies this
      ensures Valid() && s.section.Free? && old(run) < run
      ensures (Enabled(old(s), FastUnlockShared(id)) && run[|old(run)|] == Do(old(s), FastUnlockShared(id)))
              || run[|old(run)|] == Do(old(s), LatchToUnlock(id, true))
      ensures waiters != [] && waiters[0].id !in s.gone ==> Barred(s, waiters[0].shared)
    {
      WordFacts(run);
      TestsReadFields(s.word);
      if Bit(latch, MF_NEXT_SHARED) == 0 && (Bit(latch, MF_NEXT_EXCL) == 0 || latch >= 2 * MF_LOCK_SHARED) {
        ArithmeticMovesFields(s.word, true);
        Take(FastUnlockShared(id));
        latch := Wrap(latch - MF_LOCK_SHARED);
      } else {
        UnlockImpl(id, true);
      }
      WordFacts(run);
      NoLostWakeup(run, |run| - 1);
    }
  }
}
