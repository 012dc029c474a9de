/** The Cotamer reader/writer mutex as a transition system (cotamer/cotamer.cc:277-328,
    cotamer/cotamer_impl.hh:2090-2169). Every step is one atomic action: a successful
    compare-and-swap of a fast path, taking the latch, one test of the head waiter, one
    `trigger`, or releasing the latch. Threads interleave freely, and a waiter can be
    abandoned at any moment, also while another thread holds the latch. */
module MutexModel {
  import opened MutexLatch

  datatype Waiter = Waiter(id: nat, shared: bool)

  datatype Op = Locking(w: Waiter) | Unlocking

  /** What the thread holding the latch does next; `l` is its private copy of the word. */
  datatype Section =
    | Free
    | Checking(l: Word, op: Op)
    | Triggering(l: Word, op: Op)
    | Leaving(l: Word, op: Op)
    | Unlatching(l: Word)

  /** `arrived` and `granted` are history: every waiter ever queued, and the ids of the queued
      waiters that `trigger` granted the lock to, in order. */
  datatype State = State(word: Word, queue: seq<Waiter>, section: Section,
                         excl: set<nat>, shared: set<nat>, gone: set<nat>, ids: set<nat>,
                         arrived: seq<Waiter>, granted: seq<nat>)

  datatype Step =
    | TryLock(id: nat)
    | TryLockShared(id: nat)
    | FastUnlock(id: nat)
    | FastUnlockShared(id: nat)
    | LatchToLock(w: Waiter)
    | LatchToUnlock(id: nat, shared: bool)
    | Check
    | Trigger
    | Leave
    | Unlatch
    | Abandon(id: nat)

  const Unlocked := Word(0, false, Nobody, false)

  const Initial := State(Unlocked, [], Free, {}, {}, {}, {}, [], [])

  // ----- steps -----

  ghost predicate Queued(s: State, id: nat) {
    exists i :: 0 <= i < |s.queue| && s.queue[i].id == id
  }

  ghost predicate Enabled(s: State, a: Step) {
    match a
    case TryLock(id) => id !in s.ids && s.word == Unlocked
    case TryLockShared(id) => id !in s.ids && !s.word.latch && s.word.next == Nobody && !s.word.excl
    case FastUnlock(id) => id in s.excl && !s.word.latch && s.word.next == Nobody
    case FastUnlockShared(id) =>
      && id in s.shared && !s.word.latch && s.word.next != Shared
      && (s.word.next == Exclusive ==> s.word.shared >= 2)
    case LatchToLock(w) => w.id !in s.ids && !s.word.latch
    case LatchToUnlock(id, shared) => id in (if shared then s.shared else s.excl) && !s.word.latch
    case Check => s.section.Checking?
    case Trigger => s.section.Triggering? && s.queue != []
    case Leave => s.section.Leaving?
    case Unlatch => s.section.Unlatching?
    case Abandon(id) => Queued(s, id)
  }

  function Hold(s: State, w: Waiter): State {
    if w.shared then s.(shared := s.shared + {w.id}) else s.(excl := s.excl + {w.id})
  }

  function Release(s: State, w: Waiter): State {
    if w.shared then s.(shared := s.shared - {w.id}) else s.(excl := s.excl - {w.id})
  }

  /** One turn of the loop in `notify_locked`, up to the call of `trigger`. */
  function AfterCheck(s: State, l: Word, op: Op): State {
    if s.queue == [] then s.(section := Leaving(l, op))
    else if s.queue[0].id in s.gone then s.(queue := s.queue[1..])
    else if !Allow(s.queue[0].shared, l) then s.(section := Leaving(l, op))
    else s.(section := Triggering(l, op))
  }

  /** `trigger` finds out, once and for all, whether the waiter is still there. */
  function AfterTrigger(s: State, l: Word, op: Op): State
    requires s.queue != []
  {
    var w := s.queue[0];
    var t := s.(queue := s.queue[1..]);
    if w.id in s.gone then t.(section := Checking(l, op))
    else Hold(t, w).(section := Checking(Taken(l, w.shared), op), granted := s.granted + [w.id])
  }

  /** The tail of `lock_impl`; `unlock_impl` goes straight to `unlatch`. */
  function AfterLeave(s: State, l: Word, op: Op): State {
    match op
    case Unlocking => s.(section := Unlatching(l))
    case Locking(w) =>
      if s.queue == [] && Allow(w.shared, l) then Hold(s, w).(section := Unlatching(Taken(l, w.shared)))
      else s.(section := Unlatching(l), queue := s.queue + [w], arrived := s.arrived + [w])
  }

  function NextOf(queue: seq<Waiter>): Next {
    if queue == [] then Nobody else if queue[0].shared then Shared else Exclusive
  }

  function Do(s: State, a: Step): State
    requires Enabled(s, a)
  {
    match a
    case TryLock(id) => Hold(s, Waiter(id, false)).(word := Taken(s.word, false), ids := s.ids + {id})
    case TryLockShared(id) => Hold(s, Waiter(id, true)).(word := Taken(s.word, true), ids := s.ids + {id})
    case FastUnlock(id) => Release(s, Waiter(id, false)).(word := Dropped(s.word, false))
    case FastUnlockShared(id) => Release(s, Waiter(id, true)).(word := Dropped(s.word, true))
    case LatchToLock(w) =>
      s.(word := s.word.(latch := true), section := Checking(s.word.(next := Nobody), Locking(w)), ids := s.ids + {w.id})
    case LatchToUnlock(id, shared) =>
      Release(s, Waiter(id, shared)).(word := s.word.(latch := true),
                                      section := Checking(Dropped(s.word.(next := Nobody), shared), Unlocking))
    case Check => AfterCheck(s, s.section.l, s.section.op)
    case Trigger => AfterTrigger(s, s.section.l, s.section.op)
    case Leave => AfterLeave(s, s.section.l, s.section.op)
    case Unlatch => s.(word := s.section.l.(next := NextOf(s.queue)), section := Free)
    case Abandon(id) => s.(gone := s.gone + {id})
  }

  // ----- runs -----

  ghost predicate Takes(s: State, a: Step, t: State) {
    Enabled(s, a) && t == Do(s, a)
  }

  ghost predicate Follows(s: State, t: State) {
    exists a :: Takes(s, a, t)
  }

  ghost predicate StepAt(run: seq<State>, j: nat)
    requires 0 < j < |run|
  {
    Follows(run[j - 1], run[j])
  }

  ghost predicate RoomAt(run: seq<State>, j: nat, bound: nat)
    requires j < |run|
  {
    |run[j].shared| <= bound
  }

  /** The states of a run, in order. */
  ghost predicate IsRun(run: seq<State>) {
    run != [] && run[0] == Initial && forall j {:trigger StepAt(run, j)} :: 0 < j < |run| ==> StepAt(run, j)
  }

  /** At no point of the run do more than `bound` shared holders exist at once. */
  ghost predicate Within(run: seq<State>, bound: nat) {
    forall j {:trigger RoomAt(run, j, bound)} :: 0 <= j < |run| ==> RoomAt(run, j, bound)
  }

  // ----- invariant -----

  /** An exclusive holder is alone. */
  ghost predicate Exclusion(s: State) {
    |s.excl| <= 1 && (s.excl != {} ==> s.shared == {})
  }

  /** What 28 bits show of a number of holders. */
  function Counted(n: nat): (r: nat)
    ensures r <= MAX_SHARED && (n <= MAX_SHARED ==> r == n)
  {
    n % (MAX_SHARED + 1)
  }

  ghost predicate Counts(s: State, l: Word) {
    l.shared == Counted(|s.shared|) && l.excl == (s.excl != {})
  }

  /** The word, or the latch holder's copy of it. */
  function Current(s: State): Word {
    if s.section.Free? then s.word else s.section.l
  }

  /** The holders keep a request out: any is kept out by an exclusive holder, and an exclusive one also
      by shared holders, unless their number is a multiple of 2^28. */
  ghost predicate Barred(s: State, shared: bool) {
    s.excl != {} || (!shared && |s.shared| % 0x1000_0000 != 0)
  }

  /** It counts the holders and describes the head waiter. */
  ghost predicate WordOk(s: State) {
    && |s.excl| <= 1 && Counts(s, Current(s))
    && if s.section.Free? then s.word.next == NextOf(s.queue) && !s.word.latch
       else s.word.latch && s.word.shared <= MAX_SHARED && s.section.l.next == Nobody && !s.section.l.latch
  }

  /** No wake-up is lost, going by the word: it shows a holder whenever someone is queued, and forbids
      what a head waiter that is still there asks for. */
  ghost predicate Awake(s: State) {
    match s.section
    case Checking(_, _) => true
    case Triggering(l, _) => s.queue != [] && Allow(s.queue[0].shared, l)
    case _ =>
      s.queue != [] ==> !Allow(false, Current(s)) && (s.queue[0].id !in s.gone ==> !Allow(s.queue[0].shared, Current(s)))
  }

  ghost predicate Sound(s: State) {
    WordOk(s) && Awake(s)
  }

  /** Ids are used once, and waiters are not holders. */
  ghost predicate IdsOk(s: State) {
    && s.excl <= s.ids && s.shared <= s.ids
    && (forall i :: 0 <= i < |s.arrived| ==> s.arrived[i].id in s.ids)
    && (forall i, j :: 0 <= i < j < |s.arrived| ==> s.arrived[i].id != s.arrived[j].id)
    && (forall i :: 0 <= i < |s.queue| ==> s.queue[i].id !in s.excl && s.queue[i].id !in s.shared)
  }

  /** The request being served by the latch holder is not yet queued and does not hold the lock. */
  ghost predicate RequestOk(s: State) {
    (s.section.Checking? || s.section.Triggering? || s.section.Leaving?) && s.section.op.Locking? ==>
      var id := s.section.op.w.id;
      && id in s.ids && id !in s.excl && id !in s.shared
      && forall i :: 0 <= i < |s.arrived| ==> s.arrived[i].id != id
  }

  /** Those of `ws` that were not abandoned, in order. */
  function Surviving(ws: seq<Waiter>, gone: set<nat>): seq<nat> {
    if ws == [] then [] else
      Surviving(ws[..|ws| - 1], gone) + if ws[|ws| - 1].id in gone then [] else [ws[|ws| - 1].id]
  }

  function Served(s: State): seq<Waiter>
    requires |s.queue| <= |s.arrived|
  {
    s.arrived[..|s.arrived| - |s.queue|]
  }

  /** First come, first served: the queue is what is left of the arrivals, and the grants are the
      earlier arrivals, in order, less the abandoned ones. */
  ghost predicate Fair(s: State) {
    && |s.queue| <= |s.arrived| && s.queue == s.arrived[|s.arrived| - |s.queue|..]
    && s.granted == Surviving(Served(s), s.gone)
  }

  ghost predicate Orderly(s: State) {
    IdsOk(s) && RequestOk(s) && Fair(s)
  }
}
