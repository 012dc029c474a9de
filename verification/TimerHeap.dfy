/** The d-ary timer heap of Cotamer (cotamer/timer_heap.hh).

    Timers are ordered by time and, at equal times, by a 32-bit serial that wraps around. The
    abstract value of a heap is `queue`, its timers in the order they were inserted; the methods
    are proved to be a priority queue on it that is first-in first-out among equal times. */
module TimerHeap {
  import opened Options
  import opened CircularInt

  /** What a timer holds: here the number of an event. */
  type Handle = nat

  datatype Element = Element(when: int, order: nat, value: Handle)

  /** `element::operator<` */
  predicate Before(e: Element, f: Element) {
    e.when < f.when || (e.when == f.when && Less(e.order, f.order))
  }

  /** The intended order: earlier time first, then earlier insertion, that is, greater age. */
  predicate Earlier(now: nat, e: Element, f: Element) {
    e.when < f.when || (e.when == f.when && Age(now, e.order) > Age(now, f.order))
  }

  /** All live serials were handed out less than half a cycle ago, and no two are the same. */
  ghost predicate Live(now: nat, es: seq<Element>) {
    && now < WORD
    && (forall i :: 0 <= i < |es| ==> es[i].order < WORD && Age(now, es[i].order) < HALF)
    && (forall i, j :: 0 <= i < j < |es| ==> es[i].order != es[j].order)
  }

  lemma BeforeIsEarlier(now: nat, es: seq<Element>, i: nat, j: nat)
    requires Live(now, es) && i < |es| && j < |es|
    ensures Before(es[i], es[j]) <==> Earlier(now, es[i], es[j])
  {
    LessIsOlder(now, es[i].order, es[j].order);
  }

  // ----- the index layout -----

  function Bump(arity: nat): nat {
    if arity == 2 then 1 else 0
  }

  function Parent(arity: nat, i: nat): (p: nat)
    requires arity >= 2 && i > 0
    ensures p < i
  {
    QuotientLess(i - Bump(arity), arity);
    (i - Bump(arity)) / arity
  }

  lemma QuotientLess(x: nat, k: nat)
    requires k >= 2
    ensures x / k <= x && (x > 0 ==> x / k < x)
  {
    QuotientIs(x, k, x / k);
    MulLess(2, k, x / k);
  }

  function FirstChild(arity: nat, i: nat): nat {
    i * arity + if arity == 2 || i == 0 then 1 else 0
  }

  function ChildBound(arity: nat, i: nat): nat {
    i * arity + arity + Bump(arity)
  }

  lemma QuotientIs(x: nat, k: nat, i: nat)
    requires k > 0
    ensures x / k == i <==> i * k <= x < i * k + k
  {
    assert x == (x / k) * k + x % k;
    if x / k > i {
      MulLess(i + 1, x / k, k);
    } else if x / k < i {
      MulLess(x / k + 1, i, k);
    }
  }

  lemma MulLess(a: nat, b: nat, k: nat)
    requires a <= b
    ensures a * k <= b * k
  {
  }

  /** The children of i are exactly the slots whose parent is i, for every arity. */
  lemma ChildrenAreInverse(arity: nat, i: nat, c: nat)
    requires arity >= 2 && c > 0
    ensures Parent(arity, c) == i <==> FirstChild(arity, i) <= c < ChildBound(arity, i)
  {
    QuotientIs(c - Bump(arity), arity, i);
  }

  // ----- heap order -----

  ghost predicate Ordered(now: nat, arity: nat, es: seq<Element>, i: nat)
    requires arity >= 2 && 0 < i < |es|
  {
    ChildrenAreInverse(arity, 0, i);
    !Earlier(now, es[i], es[Parent(arity, i)])
  }

  ghost predicate IsHeap(now: nat, arity: nat, es: seq<Element>)
    requires arity >= 2
  {
    forall i :: 0 < i < |es| ==> Ordered(now, arity, es, i)
  }

  /** Heap order, except that slot `hole` may be earlier than its parent. */
  ghost predicate RisingFrom(now: nat, arity: nat, es: seq<Element>, hole: nat)
    requires arity >= 2
  {
    && (forall i :: 0 < i < |es| && i != hole ==> Ordered(now, arity, es, i))
    && (forall i :: 0 < i < |es| && hole > 0 && Parent(arity, i) == hole && Parent(arity, hole) < |es| ==>
          !Earlier(now, es[i], es[Parent(arity, hole)]))
  }

  /** Heap order, except that slot `hole` may be later than its children. */
  ghost predicate SinkingFrom(now: nat, arity: nat, es: seq<Element>, hole: nat)
    requires arity >= 2
  {
    && (forall i :: 0 < i < |es| && Parent(arity, i) != hole ==> Ordered(now, arity, es, i))
    && (forall i :: 0 < i < |es| && hole > 0 && Parent(arity, i) == hole && Parent(arity, hole) < |es| ==>
          !Earlier(now, es[i], es[Parent(arity, hole)]))
  }

  /** In a heap the first element is earlier than every other. */
  lemma {:induction false} TopIsEarliest(now: nat, arity: nat, es: seq<Element>, i: nat)
    requires arity >= 2 && IsHeap(now, arity, es) && Live(now, es) && 0 < i < |es|
    ensures Earlier(now, es[0], es[i])
    decreases i
  {
    ChildrenAreInverse(arity, 0, i);
    var p := Parent(arity, i);
    assert Ordered(now, arity, es, i);
    LessIsOlder(now, es[i].order, es[p].order);
    if p > 0 { TopIsEarliest(now, arity, es, p); }
  }

  // ----- in-place steps -----

  function Swapped(es: seq<Element>, i: nat, j: nat): seq<Element>
    requires i < |es| && j < |es|
  {
    es[i := es[j]][j := es[i]]
  }

  lemma SwapKeeps(now: nat, es: seq<Element>, i: nat, j: nat)
    requires i < |es| && j < |es|
    ensures multiset(Swapped(es, i, j)) == multiset(es)
    ensures Live(now, es) ==> Live(now, Swapped(es, i, j))
  {
  }

  /** Moving a rising element up one level moves the hole up. */
  lemma RiseStep(now: nat, arity: nat, es: seq<Element>, pos: nat)
    requires arity >= 2 && 0 < pos < |es| && RisingFrom(now, arity, es, pos)
    requires Parent(arity, pos) < pos && Earlier(now, es[pos], es[Parent(arity, pos)])
    ensures RisingFrom(now, arity, Swapped(es, pos, Parent(arity, pos)), Parent(arity, pos))
  {
    var p := Parent(arity, pos);
    var fs := Swapped(es, pos, p);
    forall i | 0 < i < |fs| && i != p ensures Ordered(now, arity, fs, i) {
      ChildrenAreInverse(arity, 0, i);
      if i != pos { assert Ordered(now, arity, es, i); }
    }
    forall i | 0 < i < |fs| && p > 0 && Parent(arity, i) == p
      ensures Parent(arity, p) < |fs| ==> !Earlier(now, fs[i], fs[Parent(arity, p)])
    {
      ChildrenAreInverse(arity, 0, i);
      ChildrenAreInverse(arity, 0, p);
      assert Ordered(now, arity, es, p);
      if i != pos { assert Ordered(now, arity, es, i); }
    }
  }

  lemma RiseDone(now: nat, arity: nat, es: seq<Element>, pos: nat)
    requires arity >= 2 && pos < |es| && RisingFrom(now, arity, es, pos)
    requires pos > 0 ==> Parent(arity, pos) < |es| && !Earlier(now, es[pos], es[Parent(arity, pos)])
    ensures IsHeap(now, arity, es)
  {
  }

  /** One comparison with the parent: either the heap is whole, or the swap moves the hole up. */
  lemma RiseOnce(now: nat, arity: nat, es: seq<Element>, pos: nat, p: nat, fs: seq<Element>)
    requires arity >= 2 && 0 < pos < |es| && Live(now, es) && RisingFrom(now, arity, es, pos)
    requires p == Parent(arity, pos) && fs == Swapped(es, pos, p)
    ensures !Before(es[pos], es[p]) ==> IsHeap(now, arity, es)
    ensures Before(es[pos], es[p]) ==> RisingFrom(now, arity, fs, p)
    ensures multiset(fs) == multiset(es) && Live(now, fs)
  {
    ChildrenAreInverse(arity, 0, pos);
    BeforeIsEarlier(now, es, pos, p);
    SwapKeeps(now, es, pos, p);
    if Before(es[pos], es[p]) {
      RiseStep(now, arity, es, pos);
    } else {
      RiseDone(now, arity, es, pos);
    }
  }

  /** `small` is a child of `pos`, no other child is earlier, and it is earlier than `pos`. */
  lemma SinkStep(now: nat, arity: nat, es: seq<Element>, pos: nat, small: nat)
    requires arity >= 2 && pos < |es| && SinkingFrom(now, arity, es, pos)
    requires 0 < small < |es| && Parent(arity, small) == pos && Earlier(now, es[small], es[pos])
    requires forall i :: 0 < i < |es| && Parent(arity, i) == pos ==> !Earlier(now, es[i], es[small])
    ensures SinkingFrom(now, arity, Swapped(es, pos, small), small)
  {
    ChildrenAreInverse(arity, pos, small);
    var fs := Swapped(es, pos, small);
    forall i | 0 < i < |fs| && Parent(arity, i) != small ensures Ordered(now, arity, fs, i) {
      ChildrenAreInverse(arity, pos, i);
      if Parent(arity, i) != pos { assert Ordered(now, arity, es, i); }
    }
    forall i | 0 < i < |fs| && Parent(arity, i) == small ensures !Earlier(now, fs[i], fs[Parent(arity, small)]) {
      ChildrenAreInverse(arity, small, i);
      assert Ordered(now, arity, es, i);
    }
  }

  lemma SinkDone(now: nat, arity: nat, es: seq<Element>, pos: nat)
    requires arity >= 2 && pos < |es| && SinkingFrom(now, arity, es, pos)
    requires forall i :: 0 < i < |es| && Parent(arity, i) == pos ==> !Earlier(now, es[i], es[pos])
    ensures IsHeap(now, arity, es)
  {
    forall i | 0 < i < |es| ensures Ordered(now, arity, es, i) { ChildrenAreInverse(arity, pos, i); }
  }

  // ----- the abstract value -----

  /** `q` lists the live timers in the order they were inserted. */
  ghost predicate InsertionOrder(now: nat, q: seq<Element>, es: seq<Element>) {
    multiset(q) == multiset(es) && forall i, j :: 0 <= i < j < |q| ==> Age(now, q[i].order) > Age(now, q[j].order)
  }

  /** `q` without the timers in `dropped`. */
  ghost function Remaining(q: seq<Element>, dropped: multiset<Element>): seq<Element> {
    if q == [] then []
    else Remaining(q[..|q| - 1], dropped) + if q[|q| - 1] in dropped then [] else [q[|q| - 1]]
  }

  /** Of the timers with the least time, q[k] is the one inserted first. */
  ghost predicate FirstOfEarliest(q: seq<Element>, k: nat) {
    k < |q| && forall j :: 0 <= j < |q| ==> q[k].when <= q[j].when && (q[j].when == q[k].when ==> k <= j)
  }

  ghost predicate NextInQueue(q: seq<Element>, e: Element) {
    exists k: nat :: FirstOfEarliest(q, k) && q[k] == e
  }

  ghost predicate HeapOk(now: nat, arity: nat, es: seq<Element>, q: seq<Element>) {
    arity >= 2 && Live(now, es) && IsHeap(now, arity, es) && InsertionOrder(now, q, es)
  }

  // What a loop only passes on is kept folded.

  ghost predicate Sound(now: nat, arity: nat, es: seq<Element>, q: seq<Element>) {
    forall n {:trigger Unfold(n)} :: Unfold(n) ==> HeapOk(now, arity, es, q)
  }

  /** From heap `es` with queue `q` the timers in `dropped` have gone, all of them empty. */
  ghost predicate Shed(es: seq<Element>, q: seq<Element>, dropped: multiset<Element>, fs: seq<Element>, r: seq<Element>,
                       isEmpty: Handle -> bool)
  {
    forall n {:trigger Unfold(n)} :: Unfold(n) ==>
      && dropped <= multiset(es) && (forall e :: e in dropped ==> isEmpty(e.value))
      && multiset(fs) == multiset(es) - dropped && r == Remaining(q, dropped)
  }

  ghost predicate Precede(now: nat, dropped: multiset<Element>, es: seq<Element>) {
    forall n {:trigger Unfold(n)} :: Unfold(n) ==> forall e, f :: e in dropped && f in multiset(es) ==> Earlier(now, e, f)
  }

  /** No live timer is so old that one more serial would make it wrap. */
  ghost predicate Young(now: nat, es: seq<Element>) {
    forall i :: 0 <= i < |es| ==> Age(now, es[i].order) + 1 < HALF
  }

  class Heap {
    const arity: nat
    var es: seq<Element>
    var order: nat
    var cullRand: nat
    /** The timers in the order they were inserted. */
    ghost var queue: seq<Element>

    ghost predicate Valid()
      reads this
    {
      arity >= 2 && Sound(order, arity, es, queue)
    }

    constructor (arity: nat)
      requires arity >= 2
      ensures Valid() && es == queue == [] && this.arity == arity
    {
      this.arity := arity;
      es, order, cullRand, queue := [], 0, 8173, [];
    }

    /** Let the element at `start` rise to its place. */
    method SiftUp(start: nat)
      requires arity >= 2 && Live(order, es) && start < |es| && RisingFrom(order, arity, es, start)
      requires InsertionOrder(order, queue, es)
      modifies this`es
      ensures Valid() && multiset(es) == multiset(old(es)) && |es| == |old(es)|
    {
      var pos: nat := start;
      while pos != 0
        invariant pos < |es| == |old(es)| && Live(order, es) && RisingFrom(order, arity, es, pos)
        invariant multiset(es) == multiset(old(es))
      {
        var p := Parent(arity, pos);
        var fs := Swapped(es, pos, p);
        RiseOnce(order, arity, es, pos, p, fs);
        if !Before(es[pos], es[p]) { return; }
        es, pos := fs, p;
      }
      RiseDone(order, arity, es, pos);
    }

    /** The earliest of `pos` and its children. */
    method Smallest(pos: nat) returns (smallest: nat)
      requires arity >= 2 && Live(order, es) && pos < |es|
      ensures smallest < |es| && !Earlier(order, es[pos], es[smallest])
      ensures smallest != pos ==> smallest > 0 && Parent(arity, smallest) == pos && Earlier(order, es[smallest], es[pos])
      ensures forall i :: 0 < i < |es| && Parent(arity, i) == pos ==> !Earlier(order, es[i], es[smallest])
    {
      smallest := pos;
      var t := FirstChild(arity, pos);
      var bound := Min(ChildBound(arity, pos), |es|);
      while t < bound
        invariant FirstChild(arity, pos) <= t && smallest < |es| && !Earlier(order, es[pos], es[smallest])
        invariant smallest != pos ==> FirstChild(arity, pos) <= smallest < bound && Earlier(order, es[smallest], es[pos])
        invariant forall i :: FirstChild(arity, pos) <= i < t && i < bound ==> !Earlier(order, es[i], es[smallest])
      {
        BeforeIsEarlier(order, es, t, smallest);
        if Before(es[t], es[smallest]) {
          smallest := t;
        }
        t := t + 1;
      }
      if smallest != pos { ChildrenAreInverse(arity, pos, smallest); }
      forall i | 0 < i < |es| && Parent(arity, i) == pos ensures !Earlier(order, es[i], es[smallest]) {
        ChildrenAreInverse(arity, pos, i);
      }
    }

    /** Let the element at `start` sink to its place. */
    method SiftDown(start: nat)
      requires arity >= 2 && Live(order, es) && start < |es| && SinkingFrom(order, arity, es, start)
      requires InsertionOrder(order, queue, es)
      modifies this`es
      ensures Valid() && multiset(es) == multiset(old(es)) && |es| == |old(es)|
    {
      var pos := start;
      while true
        invariant pos < |es| == |old(es)| && Live(order, es) && SinkingFrom(order, arity, es, pos)
        invariant multiset(es) == multiset(old(es))
        decreases |es| - pos
      {
        var smallest := Smallest(pos);
        if smallest == pos { break; }
        ChildrenAreInverse(arity, pos, smallest);
        SinkStep(order, arity, es, pos, smallest);
        SwapKeeps(order, es, pos, smallest);
        es := Swapped(es, pos, smallest);
        pos := smallest;
      }
      SinkDone(order, arity, es, pos);
    }

    /** `hard_cull`: remove the element at any position. */
    method HardCull(start: nat)
      requires Valid() && start < |es|
      modifies this`es, this`queue
      ensures Valid() && multiset(es) == multiset(old(es)) - multiset{old(es)[start]} && |es| == |old(es)| - 1
      ensures queue == Remaining(old(queue), multiset{old(es)[start]})
    {
      assert Unfold(0);
      var last := |es| - 1;
      RemoveLast(es);
      ghost var rest := Remaining(queue, multiset{es[start]});
      RemovalLeaves(order, es, queue, es[start]);
      if start == last {
        PrefixIsHeap(order, arity, es, last);
        es, queue := es[..last], rest;
        return;
      }
      PlugKeeps(order, es, start);
      PlugSinks(order, arity, es, start);
      PlugRises(order, arity, es, start);
      es, queue := Plugged(es, start), rest;
      if start == 0 || !Before(es[start], es[Parent(arity, start)]) {
        SiftDown(start);
      } else {
        SiftUp(start);
      }
    }

    /** The first part of `emplace`: in a largish heap, drop empty timers met at random positions. */
    method DropRandomEmpties(isEmpty: Handle -> bool) returns (ghost dropped: multiset<Element>)
      requires Valid() && Young(order, es)
      modifies this`es, this`cullRand, this`queue
      ensures Valid() && Young(order, es) && Shed(old(es), old(queue), dropped, es, queue, isEmpty)
    {
      dropped := multiset{};
      NothingShed(es, queue, isEmpty);
      while |es| >= 32
        invariant Valid() && Young(order, es) && Shed(old(es), old(queue), dropped, es, queue, isEmpty)
        decreases |es|
      {
        var pos := cullRand % |es|;
        cullRand := Wrap(cullRand * 1664525 + 1013904223);
        if !isEmpty(es[pos].value) { return; }
        ghost var was := es;
        dropped := DropAt(old(es), old(queue), dropped, pos, isEmpty);
        StillYoung(order, was, es);
      }
    }

    /** `hard_cull` in a loop that drops empty timers. */
    method DropAt(ghost all: seq<Element>, ghost q: seq<Element>, ghost before: multiset<Element>, pos: nat,
                  ghost isEmpty: Handle -> bool)
      returns (ghost dropped: multiset<Element>)
      requires Valid() && pos < |es| && Shed(all, q, before, es, queue, isEmpty) && isEmpty(es[pos].value)
      modifies this`es, this`queue
      ensures Valid() && |es| == |old(es)| - 1 && dropped == before + multiset{old(es)[pos]}
      ensures Shed(all, q, dropped, es, queue, isEmpty) && multiset(es) == multiset(old(es)) - multiset{old(es)[pos]}
    {
      ghost var was, r := es, queue;
      HardCull(pos);
      ShedOneMore(all, q, before, was, r, was[pos], es, queue, isEmpty);
      dropped := before + multiset{was[pos]};
    }

    /** `emplace`: add a timer. On the way, empty timers met at random positions are dropped. */
    method Emplace(when: int, value: Handle, isEmpty: Handle -> bool) returns (ghost dropped: multiset<Element>)
      requires Valid() && Young(order, es)
      modifies this
      ensures Valid() && order == Wrap(old(order) + 1)
      ensures dropped <= multiset(old(es)) && forall e :: e in dropped ==> isEmpty(e.value)
      ensures multiset(es) == multiset(old(es)) - dropped + multiset{Element(when, order, value)}
      ensures queue == Remaining(old(queue), dropped) + [Element(when, order, value)]
    {
      dropped := DropRandomEmpties(isEmpty);
      ShedMeans(old(es), old(queue), dropped, es, queue, isEmpty);
      Append(when, value);
    }

    /** The second part of `emplace`. */
    method Append(when: int, value: Handle)
      requires Valid() && Young(order, es)
      modifies this`es, this`order, this`queue
      ensures Valid() && order == Wrap(old(order) + 1)
      ensures multiset(es) == multiset(old(es)) + multiset{Element(when, order, value)}
      ensures queue == old(queue) + [Element(when, order, value)]
    {
      var e := Element(when, Wrap(order + 1), value);
      NewcomerJoins(order, arity, es, queue, e);
      order, es, queue := e.order, es + [e], queue + [e];
      SiftUp(|es| - 1);
    }

    /** `pop`: remove the earliest timer, at equal times the one inserted first; the others keep their order. */
    method Pop() returns (ghost k: nat)
      requires Valid() && es != []
      modifies this`es, this`queue
      ensures Valid() && multiset(es) == multiset(old(es)) - multiset{old(es)[0]}
      ensures forall e :: e in multiset(es) ==> Earlier(order, old(es)[0], e)
      ensures FirstOfEarliest(old(queue), k) && old(queue)[k] == old(es)[0]
      ensures queue == old(queue)[..k] + old(queue)[k + 1..]
    {
      ghost var was := es;
      k := TopIsNext(order, arity, es, queue);
      TopAlone(order, arity, es, queue);
      HardCull(0);
    }

    /** `cull`: drop empty timers from the top until a live one, or none, is there. */
    method Cull(isEmpty: Handle -> bool) returns (ghost dropped: multiset<Element>)
      requires Valid()
      modifies this`es, this`queue
      ensures Valid()
      ensures dropped <= multiset(old(es)) && forall e :: e in dropped ==> isEmpty(e.value)
      ensures forall e, f :: e in dropped && f in multiset(es) ==> Earlier(order, e, f)
      ensures multiset(es) == multiset(old(es)) - dropped && queue == Remaining(old(queue), dropped)
      ensures es != [] ==> !isEmpty(es[0].value) && NextInQueue(queue, es[0])
    {
      dropped := multiset{};
      NothingShed(es, queue, isEmpty);
      while |es| != 0 && isEmpty(es[0].value)
        invariant Valid() && Shed(old(es), old(queue), dropped, es, queue, isEmpty) && Precede(order, dropped, es)
        decreases |es|
      {
        ghost var was, q, before := es, queue, dropped;
        dropped := DropAt(old(es), old(queue), dropped, 0, isEmpty);
        TopPrecedes(order, arity, was, q, before, es);
      }
      ShedMeans(old(es), old(queue), dropped, es, queue, isEmpty);
      PrecedeMeans(order, dropped, es);
      if es != [] {
        ghost var k := TopIsNext(order, arity, es, queue);
      }
    }
  }

  lemma NothingShed(es: seq<Element>, q: seq<Element>, isEmpty: Handle -> bool)
    ensures Shed(es, q, multiset{}, es, q, isEmpty)
  {
    NothingDropped(q);
  }

  lemma ShedMeans(es: seq<Element>, q: seq<Element>, dropped: multiset<Element>, fs: seq<Element>, r: seq<Element>,
                  isEmpty: Handle -> bool)
    requires Shed(es, q, dropped, fs, r, isEmpty)
    ensures dropped <= multiset(es) && forall e :: e in dropped ==> isEmpty(e.value)
    ensures multiset(fs) == multiset(es) - dropped && r == Remaining(q, dropped)
  {
    assert Unfold(0);
  }

  lemma PrecedeMeans(now: nat, dropped: multiset<Element>, es: seq<Element>)
    requires Precede(now, dropped, es)
    ensures forall e, f :: e in dropped && f in multiset(es) ==> Earlier(now, e, f)
  {
    assert Unfold(0);
  }

  lemma ShedOneMore(es: seq<Element>, q: seq<Element>, dropped: multiset<Element>, fs: seq<Element>, r: seq<Element>,
                    e: Element, gs: seq<Element>, p: seq<Element>, isEmpty: Handle -> bool)
    requires Shed(es, q, dropped, fs, r, isEmpty) && e in fs && isEmpty(e.value)
    requires multiset(gs) == multiset(fs) - multiset{e} && p == Remaining(r, multiset{e})
    ensures Shed(es, q, dropped + multiset{e}, gs, p, isEmpty)
  {
    ShedMeans(es, q, dropped, fs, r, isEmpty);
    DropOneMore(multiset(es), dropped, multiset(fs), e);
    RemainingTwice(q, dropped, e);
  }

  lemma TopPrecedes(now: nat, arity: nat, es: seq<Element>, q: seq<Element>, dropped: multiset<Element>, fs: seq<Element>)
    requires Sound(now, arity, es, q) && es != [] && Precede(now, dropped, es)
    requires multiset(fs) == multiset(es) - multiset{es[0]}
    ensures Precede(now, dropped + multiset{es[0]}, fs)
  {
    assert Unfold(0);
    PrecedeMeans(now, dropped, es);
    forall e, f | e in dropped + multiset{es[0]} && f in multiset(fs) ensures Earlier(now, e, f) {
      if e == es[0] { RestIsLater(now, arity, es, f); } else { assert f in multiset(es); }
    }
  }

  lemma TopIsNext(now: nat, arity: nat, es: seq<Element>, q: seq<Element>) returns (k: nat)
    requires Sound(now, arity, es, q) && es != []
    ensures FirstOfEarliest(q, k) && q[k] == es[0] && Remaining(q, multiset{es[0]}) == q[..k] + q[k + 1..]
  {
    assert Unfold(0);
    k := PlaceInQueue(now, es, q, 0);
    TopIsFirstOfEarliest(now, arity, es, q, k);
    RemainingOne(now, q, k);
  }

  lemma TopAlone(now: nat, arity: nat, es: seq<Element>, q: seq<Element>)
    requires Sound(now, arity, es, q) && es != []
    ensures forall e :: e in multiset(es) - multiset{es[0]} ==> Earlier(now, es[0], e)
  {
    assert Unfold(0);
    forall e | e in multiset(es) - multiset{es[0]} ensures Earlier(now, es[0], e) { RestIsLater(now, arity, es, e); }
  }

  lemma NewcomerJoins(now: nat, arity: nat, es: seq<Element>, q: seq<Element>, e: Element)
    requires Sound(now, arity, es, q) && Young(now, es) && e.order == Wrap(now + 1)
    ensures arity >= 2 && Live(e.order, es + [e]) && RisingFrom(e.order, arity, es + [e], |es|)
    ensures InsertionOrder(e.order, q + [e], es + [e])
  {
    assert Unfold(0);
    NewcomerLive(now, es, e.order, es + [e]);
    NewcomerRises(now, arity, es, e.order, es + [e]);
    NewcomerIsLast(now, es, q, e, es + [e]);
  }

  lemma DropOneMore(all: multiset<Element>, dropped: multiset<Element>, rest: multiset<Element>, e: Element)
    requires dropped <= all && rest == all - dropped && e in rest
    ensures dropped + multiset{e} <= all
    ensures rest - multiset{e} == all - (dropped + multiset{e})
  {
  }

  lemma RemoveLast(es: seq<Element>)
    requires es != []
    ensures var last := |es| - 1; multiset(es[..last]) == multiset(es) - multiset{es[last]}
  {
    assert es == es[..|es| - 1] + [es[|es| - 1]];
  }

  /** The last element moved into the vacated slot `pos`. */
  function Plugged(es: seq<Element>, pos: nat): seq<Element>
    requires pos < |es| - 1
  {
    es[..|es| - 1][pos := es[|es| - 1]]
  }

  lemma PlugKeeps(now: nat, es: seq<Element>, pos: nat)
    requires pos < |es| - 1 && Live(now, es)
    ensures multiset(Plugged(es, pos)) == multiset(es) - multiset{es[pos]}
    ensures Live(now, Plugged(es, pos))
  {
    RemoveLast(es);
    var fs := Plugged(es, pos);
    forall i | 0 <= i < |fs| ensures fs[i].order < WORD && Age(now, fs[i].order) < HALF {
      if i != pos { assert fs[i] == es[i]; }
    }
    forall i, j | 0 <= i < j < |fs| ensures fs[i].order != fs[j].order {
      if i != pos { assert fs[i] == es[i]; }
      if j != pos { assert fs[j] == es[j]; }
    }
  }

  lemma PrefixIsHeap(now: nat, arity: nat, es: seq<Element>, n: nat)
    requires arity >= 2 && n <= |es| && IsHeap(now, arity, es) && Live(now, es)
    ensures IsHeap(now, arity, es[..n]) && Live(now, es[..n])
  {
    forall i | 0 < i < n ensures Ordered(now, arity, es[..n], i) {
      ChildrenAreInverse(arity, 0, i);
      assert Ordered(now, arity, es, i);
    }
  }

  /** Away from the plugged slot the heap order is untouched. */
  lemma PlugElsewhere(now: nat, arity: nat, es: seq<Element>, pos: nat, i: nat)
    requires arity >= 2 && IsHeap(now, arity, es) && pos < |es| - 1
    requires 0 < i < |es| - 1 && i != pos && Parent(arity, i) != pos
    ensures Ordered(now, arity, Plugged(es, pos), i)
  {
    ChildrenAreInverse(arity, 0, i);
    assert Ordered(now, arity, es, i);
  }

  /** The children of the plugged slot are not earlier than its parent. */
  lemma PlugGrandchild(now: nat, arity: nat, es: seq<Element>, pos: nat, i: nat)
    requires arity >= 2 && IsHeap(now, arity, es) && 0 < pos < |es| - 1 && 0 < i < |es| - 1 && Parent(arity, i) == pos
    ensures Parent(arity, pos) < pos < i && !Earlier(now, Plugged(es, pos)[i], Plugged(es, pos)[Parent(arity, pos)])
  {
    ChildrenAreInverse(arity, 0, i);
    ChildrenAreInverse(arity, 0, pos);
    assert Ordered(now, arity, es, i);
    assert Ordered(now, arity, es, pos);
  }

  /** If the plug is not earlier than its parent, only its children may be out of order. */
  lemma PlugSinks(now: nat, arity: nat, es: seq<Element>, pos: nat)
    requires arity >= 2 && Live(now, es) && IsHeap(now, arity, es) && pos < |es| - 1
    requires Live(now, Plugged(es, pos))
    ensures pos > 0 ==> Parent(arity, pos) < pos
    ensures (pos == 0 || !Before(Plugged(es, pos)[pos], Plugged(es, pos)[Parent(arity, pos)])) ==>
              SinkingFrom(now, arity, Plugged(es, pos), pos)
  {
    var fs := Plugged(es, pos);
    if pos > 0 {
      ChildrenAreInverse(arity, 0, pos);
      BeforeIsEarlier(now, fs, pos, Parent(arity, pos));
    }
    forall i | 0 < i < |fs| && i != pos && Parent(arity, i) != pos ensures Ordered(now, arity, fs, i) {
      PlugElsewhere(now, arity, es, pos, i);
    }
    forall i | 0 < i < |fs| && pos > 0 && Parent(arity, i) == pos
      ensures !Earlier(now, fs[i], fs[Parent(arity, pos)])
    {
      PlugGrandchild(now, arity, es, pos, i);
    }
  }

  /** If the plug is earlier than its parent, its children are in order below it. */
  lemma PlugRises(now: nat, arity: nat, es: seq<Element>, pos: nat)
    requires arity >= 2 && Live(now, es) && IsHeap(now, arity, es) && pos < |es| - 1
    requires Live(now, Plugged(es, pos))
    ensures pos > 0 ==> Parent(arity, pos) < pos
    ensures pos > 0 && Before(Plugged(es, pos)[pos], Plugged(es, pos)[Parent(arity, pos)]) ==>
              RisingFrom(now, arity, Plugged(es, pos), pos)
  {
    var fs := Plugged(es, pos);
    if pos > 0 {
      ChildrenAreInverse(arity, 0, pos);
      BeforeIsEarlier(now, fs, pos, Parent(arity, pos));
      if Before(fs[pos], fs[Parent(arity, pos)]) {
        forall i | 0 < i < |fs| && Parent(arity, i) == pos
          ensures !Earlier(now, fs[i], fs[Parent(arity, pos)]) && Ordered(now, arity, fs, i)
        {
          PlugGrandchild(now, arity, es, pos, i);
        }
        forall i | 0 < i < |fs| && i != pos ensures Ordered(now, arity, fs, i) {
          if Parent(arity, i) != pos { PlugElsewhere(now, arity, es, pos, i); }
        }
      }
    }
  }

  lemma StillYoung(now: nat, es: seq<Element>, fs: seq<Element>)
    requires Young(now, es) && multiset(fs) <= multiset(es)
    ensures Young(now, fs)
  {
    forall i | 0 <= i < |fs| ensures Age(now, fs[i].order) + 1 < HALF {
      assert fs[i] in multiset(fs);
      assert fs[i] in multiset(es);
    }
  }

  /** Why `emplace` asks for young timers: they are exactly those that a new timer of the same time
      is ordered behind. */
  lemma YoungExactly(now: nat, es: seq<Element>, value: Handle)
    requires Live(now, es)
    ensures Young(now, es) <==>
            forall i :: 0 <= i < |es| ==>
              var e := Element(es[i].when, Wrap(now + 1), value); Before(es[i], e) && !Before(e, es[i])
  {
    forall i | 0 <= i < |es|
      ensures var e := Element(es[i].when, Wrap(now + 1), value);
              Before(es[i], e) && !Before(e, es[i]) <==> Age(now, es[i].order) + 1 < HALF
    {
      HalfCycleIsExact(now, es[i].order);
    }
  }

  lemma NewcomerLive(now: nat, es: seq<Element>, next: nat, fs: seq<Element>)
    requires Live(now, es) && Young(now, es) && next == Wrap(now + 1)
    requires |fs| == |es| + 1 && fs[..|es|] == es && fs[|es|].order == next
    ensures Live(next, fs)
    ensures forall i :: 0 <= i < |es| ==> Age(next, es[i].order) == Age(now, es[i].order) + 1
  {
    forall i | 0 <= i < |es|
      ensures fs[i] == es[i] && Age(next, es[i].order) == Age(now, es[i].order) + 1 && es[i].order != next
    {
      assert fs[i] == fs[..|es|][i];
      Ages(now, es[i].order);
    }
    Ages(now, now);
  }

  lemma NewcomerRises(now: nat, arity: nat, es: seq<Element>, next: nat, fs: seq<Element>)
    requires arity >= 2 && IsHeap(now, arity, es)
    requires |fs| == |es| + 1 && fs[..|es|] == es
    requires forall i :: 0 <= i < |es| ==> Age(next, es[i].order) == Age(now, es[i].order) + 1
    ensures RisingFrom(next, arity, fs, |es|)
  {
    forall i | 0 < i < |fs| && i != |es| ensures Ordered(next, arity, fs, i) {
      assert fs[i] == fs[..|es|][i] && fs[Parent(arity, i)] == fs[..|es|][Parent(arity, i)];
      assert Ordered(now, arity, es, i);
    }
  }

  lemma RestIsLater(now: nat, arity: nat, es: seq<Element>, e: Element)
    requires arity >= 2 && Live(now, es) && IsHeap(now, arity, es) && es != []
    requires e in multiset(es) - multiset{es[0]}
    ensures Earlier(now, es[0], e)
  {
    assert es == [es[0]] + es[1..];
    assert e in multiset(es[1..]);
    var i :| 0 <= i < |es[1..]| && es[1..][i] == e;
    TopIsEarliest(now, arity, es, i + 1);
  }

  // ----- the insertion order -----

  /** The top is, of the timers with the least time, the one inserted first. */
  lemma TopIsFirstOfEarliest(now: nat, arity: nat, es: seq<Element>, q: seq<Element>, k: nat)
    requires arity >= 2 && IsHeap(now, arity, es) && Live(now, es) && es != []
    requires InsertionOrder(now, q, es) && k < |q| && q[k] == es[0]
    ensures FirstOfEarliest(q, k)
  {
    forall j | 0 <= j < |q| ensures q[k].when <= q[j].when && (q[j].when == q[k].when ==> k <= j) {
      assert q[j] in multiset(q);
      assert q[j] in multiset(es);
      assert j < k ==> Age(now, q[j].order) > Age(now, q[k].order);
      var i :| 0 <= i < |es| && es[i] == q[j];
      if i > 0 { TopIsEarliest(now, arity, es, i); }
    }
  }

  /** A new timer joins at the end of the insertion order, even when its serial has wrapped. */
  lemma NewcomerIsLast(now: nat, es: seq<Element>, q: seq<Element>, e: Element, fs: seq<Element>)
    requires Live(now, es) && Young(now, es) && InsertionOrder(now, q, es)
    requires e.order == Wrap(now + 1) && multiset(fs) == multiset(es) + multiset{e}
    ensures InsertionOrder(e.order, q + [e], fs)
  {
    forall i | 0 <= i < |q| ensures Age(e.order, q[i].order) == Age(now, q[i].order) + 1 {
      assert q[i] in multiset(q);
      assert q[i] in multiset(es);
      var j :| 0 <= j < |es| && es[j] == q[i];
      Ages(now, es[j].order);
    }
    Ages(now, now);
    assert Age(e.order, e.order) == 0;
  }

  lemma RemoveMiddle(q: seq<Element>, k: nat)
    requires k < |q|
    ensures multiset(q[..k] + q[k + 1..]) == multiset(q) - multiset{q[k]}
  {
    assert q == (q[..k] + [q[k]]) + q[k + 1..];
  }

  /** Removing one timer, from wherever it sits in the heap, leaves the others in insertion order. */
  lemma RemovalKeepsOrder(now: nat, es: seq<Element>, q: seq<Element>, k: nat, fs: seq<Element>)
    requires InsertionOrder(now, q, es) && k < |q| && multiset(fs) == multiset(es) - multiset{q[k]}
    ensures InsertionOrder(now, q[..k] + q[k + 1..], fs)
  {
    var r := q[..k] + q[k + 1..];
    RemoveMiddle(q, k);
    forall i, j | 0 <= i < j < |r| ensures Age(now, r[i].order) > Age(now, r[j].order) {
      var a, b := if i < k then i else i + 1, if j < k then j else j + 1;
      assert r[i] == q[a] && r[j] == q[b];
    }
  }

  lemma PlaceInQueue(now: nat, es: seq<Element>, q: seq<Element>, i: nat) returns (k: nat)
    requires InsertionOrder(now, q, es) && i < |es|
    ensures k < |q| && q[k] == es[i]
  {
    assert es[i] in multiset(es);
    assert es[i] in multiset(q);
    k :| 0 <= k < |q| && q[k] == es[i];
  }

  lemma {:induction false} NothingDropped(q: seq<Element>)
    ensures Remaining(q, multiset{}) == q
  {
    if q != [] {
      NothingDropped(q[..|q| - 1]);
    }
  }

  lemma {:induction false} RemainingTwice(q: seq<Element>, dropped: multiset<Element>, e: Element)
    ensures Remaining(Remaining(q, dropped), multiset{e}) == Remaining(q, dropped + multiset{e})
  {
    if q != [] {
      var x, r := q[|q| - 1], Remaining(q[..|q| - 1], dropped);
      RemainingTwice(q[..|q| - 1], dropped, e);
      if x in dropped {
        assert Remaining(q, dropped) == r;
      } else {
        assert (r + [x])[..|r|] == r;
      }
    }
  }

  lemma {:induction false} AllRemain(q: seq<Element>, e: Element)
    requires e !in q
    ensures Remaining(q, multiset{e}) == q
  {
    if q != [] {
      AllRemain(q[..|q| - 1], e);
    }
  }

  /** Timers are never listed twice, so dropping one takes out one place. */
  lemma {:induction false} RemainingOne(now: nat, q: seq<Element>, k: nat)
    requires k < |q| && forall i, j :: 0 <= i < j < |q| ==> Age(now, q[i].order) > Age(now, q[j].order)
    ensures Remaining(q, multiset{q[k]}) == q[..k] + q[k + 1..]
  {
    var last := |q| - 1;
    if k == last {
      AllRemain(q[..last], q[k]);
    } else {
      RemainingOne(now, q[..last], k);
      assert q[k + 1..] == q[..last][k + 1..] + [q[last]];
    }
  }

  lemma RemovalLeaves(now: nat, es: seq<Element>, q: seq<Element>, e: Element)
    requires InsertionOrder(now, q, es) && e in es
    ensures forall fs :: multiset(fs) == multiset(es) - multiset{e} ==> InsertionOrder(now, Remaining(q, multiset{e}), fs)
  {
    var i :| 0 <= i < |es| && es[i] == e;
    var k := PlaceInQueue(now, es, q, i);
    RemainingOne(now, q, k);
    forall fs | multiset(fs) == multiset(es) - multiset{e} ensures InsertionOrder(now, Remaining(q, multiset{e}), fs) {
      RemovalKeepsOrder(now, es, q, k, fs);
    }
  }
}
