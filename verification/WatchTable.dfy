/** The fd watch table of Cotamer: fd_event_set (cotamer/event_handle.hh:52-148,
    cotamer/cotamer_impl.hh:1877-1984, cotamer/io.cc:43-66, 116-194). */
module WatchTable {
  import opened Options
  import opened WatchLists

  const LINK_CLEAN: nat := 0
  const LINK_SENTINEL: nat := 0xFFFF_FFFF
  const MAX_FD: nat := 0x7FFF_FFFF
  const FIRST_CAPACITY: nat := 128
  const BLOCK_CAPACITY: nat := 1024
  const USER_EPOCH: nat := 2

  datatype Fdrec = Fdrec(body: Option<nat>, epoch: nat, whead: nat, wtail: nat, updateLink: nat)

  const EmptyFdrec := Fdrec(None, 0, LINK_CLEAN, LINK_CLEAN, LINK_CLEAN)

  // ----- slots -----

  /** Every slot is in exactly one of the free list, one fd's chain or a detached chain; the links
      spell those lists out; and exactly the slots in use carry an event. */
  ghost predicate SlotsOk(ws: seq<Watchrec>, lists: Lists, owner: map<nat, Owner>) {
    && Partition(|ws|, lists, owner)
    && (forall o :: o in lists ==> Linked(ws, lists[o]))
    && EventsOk(ws, owner)
  }

  ghost predicate EventsOk(ws: seq<Watchrec>, owner: map<nat, Owner>) {
    forall x :: x in owner ==> 1 <= x <= |ws| && (ws[x - 1].ev.None? <==> owner[x] == Free)
  }

  /** The stored heads and tails are those of the lists. */
  ghost predicate HeadsOk(freeLink: nat, fdrs: seq<Fdrec>, lists: Lists, tickets: nat) {
    && Free in lists && freeLink == HeadOf(lists[Free])
    && (forall f {:trigger Fd(f)} :: 0 <= f < |fdrs| ==>
          && Fd(f) in lists && fdrs[f].whead == HeadOf(lists[Fd(f)])
          && (lists[Fd(f)] != [] ==> fdrs[f].wtail == LastOf(lists[Fd(f)])))
    && (forall o :: o in lists ==> (o.Fd? ==> o.fd < |fdrs|) && (o.Detached? ==> o.ticket < tickets))
  }

  // ----- recycling -----

  lemma HeadIsElsewhere(n: nat, lists: Lists, owner: map<nat, Owner>, o: Owner)
    requires Partition(n, lists, owner) && o in lists && lists[o] != []
    ensures forall p, k :: p in lists && 0 <= k < |lists[p]| && (p != o || k > 0) ==> lists[p][k] != lists[o][0]
  {
  }

  /** `vs` differs from `ws` in slot x only. */
  ghost predicate SameBut(ws: seq<Watchrec>, vs: seq<Watchrec>, x: nat) {
    1 <= x <= |ws| == |vs| && forall k :: 0 <= k < |ws| && k != x - 1 ==> vs[k] == ws[k]
  }

  lemma LinksElsewhere(ws: seq<Watchrec>, vs: seq<Watchrec>, x: nat, list: seq<nat>)
    requires Linked(ws, list) && SameBut(ws, vs, x) && x !in list
    ensures Linked(vs, list)
  {
    forall k | 0 <= k < |list| ensures LinkOf(vs, list[k]) == NextIn(list, k) {
      assert list[k] in list;
      assert LinkOf(ws, list[k]) == NextIn(list, k);
    }
  }

  lemma LinksOfTail(ws: seq<Watchrec>, list: seq<nat>)
    requires Linked(ws, list) && list != []
    ensures Linked(ws, list[1..])
  {
    var tail := list[1..];
    forall k | 0 <= k < |tail| ensures LinkOf(ws, tail[k]) == NextIn(tail, k) {
      assert LinkOf(ws, list[k + 1]) == NextIn(list, k + 1);
    }
  }

  lemma LinksOfPrepended(ws: seq<Watchrec>, x: nat, list: seq<nat>)
    requires Linked(ws, list) && 1 <= x <= |ws| && LinkOf(ws, x) == HeadOf(list)
    ensures Linked(ws, [x] + list)
  {
    var longer := [x] + list;
    forall k | 0 <= k < |longer| ensures LinkOf(ws, longer[k]) == NextIn(longer, k) {
      if k > 0 { assert LinkOf(ws, list[k - 1]) == NextIn(list, k - 1); }
    }
  }

  /** Returning the head slot of a chain to the free list. */
  lemma RecycleSlots(ws: seq<Watchrec>, lists: Lists, owner: map<nat, Owner>, o: Owner, vs: seq<Watchrec>)
    requires SlotsOk(ws, lists, owner) && Free in lists && o in lists && o != Free && lists[o] != []
    requires lists[o][0] in owner && vs == ws[lists[o][0] - 1 := Watchrec(None, ws[lists[o][0] - 1].mask, HeadOf(lists[Free]))]
    ensures SlotsOk(vs, MoveHead(lists, o, Free), owner[lists[o][0] := Free])
  {
    MoveHeadPartition(|ws|, lists, owner, o, Free);
    HeadIsElsewhere(|ws|, lists, owner, o);
    var x := lists[o][0];
    assert Linked(ws, lists[o]);
    LinksOfTail(ws, lists[o]);
    forall p | p in lists ensures Linked(vs, MoveHead(lists, o, Free)[p]) {
      LinksElsewhere(ws, vs, x, if p == o then lists[o][1..] else lists[p]);
      if p == Free { LinksOfPrepended(vs, x, lists[p]); }
    }
  }

  lemma RecycleHeads(freeLink: nat, fdrs: seq<Fdrec>, lists: Lists, tickets: nat, o: Owner, gs: seq<Fdrec>)
    requires HeadsOk(freeLink, fdrs, lists, tickets) && o in lists && o != Free && lists[o] != [] && |gs| == |fdrs|
    requires forall f :: 0 <= f < |gs| ==>
               gs[f].wtail == fdrs[f].wtail && gs[f].whead == if o == Fd(f) then HeadOf(lists[o][1..]) else fdrs[f].whead
    ensures HeadsOk(lists[o][0], gs, MoveHead(lists, o, Free), tickets)
  {
    var moved := MoveHead(lists, o, Free);
    forall f | 0 <= f < |gs|
      ensures Fd(f) in moved && gs[f].whead == HeadOf(moved[Fd(f)])
      ensures moved[Fd(f)] != [] ==> gs[f].wtail == LastOf(moved[Fd(f)])
    {
      assert Fd(f) in lists;
    }
  }

  // ----- appending -----

  lemma LinksOfAppended(ws: seq<Watchrec>, list: seq<nat>, x: nat, vs: seq<Watchrec>)
    requires Linked(ws, list) && NoDup(list) && 1 <= x <= |vs| && x !in list && |ws| <= |vs|
    requires LinkOf(vs, x) == 0
    requires forall k :: 0 <= k < |ws| && k != x - 1 && (list == [] || k != LastOf(list) - 1) ==> vs[k] == ws[k]
    requires list != [] ==> vs[LastOf(list) - 1].link == x
    ensures Linked(vs, list + [x])
  {
    var longer := list + [x];
    forall k | 0 <= k < |longer| ensures LinkOf(vs, longer[k]) == NextIn(longer, k) {
      if k < |list| {
        assert longer[k] == list[k] && list[k] in list;
        assert LinkOf(ws, list[k]) == NextIn(list, k);
      }
    }
  }

  // ----- splitting -----

  /** All links right but the last one. */
  ghost predicate Partial(ws: seq<Watchrec>, list: seq<nat>) {
    && InBounds(|ws|, list)
    && forall k {:trigger LinkOf(ws, list[k])} :: 0 <= k < |list| - 1 ==> LinkOf(ws, list[k]) == NextIn(list, k)
  }

  /** What the walk has still to visit from position i on. */
  ghost predicate Ahead(ws: seq<Watchrec>, list: seq<nat>, i: nat) {
    && InBounds(|ws|, list)
    && forall k {:trigger LinkOf(ws, list[k])} :: i <= k < |list| ==> LinkOf(ws, list[k]) == NextIn(list, k)
  }

  /** `*wpprev = x`, where `wpprev` points at the link of `prev`, or at a head when `prev` is 0. */
  function SetLink(ws: seq<Watchrec>, prev: nat, x: nat): seq<Watchrec>
    requires prev <= |ws|
  {
    if prev == 0 then ws else ws[prev - 1 := ws[prev - 1].(link := x)]
  }

  lemma PartialGrows(ws: seq<Watchrec>, list: seq<nat>, x: nat)
    requires Partial(ws, list) && NoDup(list) && 1 <= x <= |ws|
    ensures LastOf(list) <= |ws| && Partial(SetLink(ws, LastOf(list), x), list + [x])
  {
    var longer, vs := list + [x], SetLink(ws, LastOf(list), x);
    forall k | 0 <= k < |longer| - 1 ensures LinkOf(vs, longer[k]) == NextIn(longer, k) {
      assert longer[k] == list[k];
      if k < |list| - 1 { assert LinkOf(ws, list[k]) == NextIn(list, k); }
    }
  }

  lemma PartialEnds(ws: seq<Watchrec>, list: seq<nat>)
    requires Partial(ws, list) && NoDup(list)
    ensures LastOf(list) <= |ws| && Linked(SetLink(ws, LastOf(list), 0), list)
  {
    var vs := SetLink(ws, LastOf(list), 0);
    forall k | 0 <= k < |list| ensures LinkOf(vs, list[k]) == NextIn(list, k) {
      if k < |list| - 1 { assert LinkOf(ws, list[k]) == NextIn(list, k); }
    }
  }

  lemma PartialElsewhere(ws: seq<Watchrec>, prev: nat, x: nat, list: seq<nat>)
    requires prev <= |ws| && prev !in list
    ensures Partial(ws, list) ==> Partial(SetLink(ws, prev, x), list)
    ensures Linked(ws, list) ==> Linked(SetLink(ws, prev, x), list)
  {
    var vs := SetLink(ws, prev, x);
    forall k | 0 <= k < |list| && InBounds(|ws|, list) ensures LinkOf(vs, list[k]) == LinkOf(ws, list[k]) {
      assert list[k] in list;
    }
  }

  lemma AheadElsewhere(ws: seq<Watchrec>, prev: nat, x: nat, list: seq<nat>, i: nat)
    requires Ahead(ws, list, i) && prev <= |ws| && forall k :: i <= k < |list| ==> list[k] != prev
    ensures Ahead(SetLink(ws, prev, x), list, i)
  {
    var vs := SetLink(ws, prev, x);
    forall k | i <= k < |list| ensures LinkOf(vs, list[k]) == NextIn(list, k) {
      assert LinkOf(ws, list[k]) == NextIn(list, k);
    }
  }

  lemma SplitFacts(list: seq<nat>, i: nat, f: nat -> bool)
    requires NoDup(list) && i <= |list|
    ensures NoDup(Filter(list[..i], f)) && NoDup(Filter(list[..i], Not(f)))
    ensures forall x :: x in Filter(list[..i], f) ==> f(x) && x in list
    ensures forall x :: x in Filter(list[..i], Not(f)) ==> !f(x) && x in list
    ensures forall k :: i <= k < |list| ==> list[k] !in Filter(list[..i], f) && list[k] !in Filter(list[..i], Not(f))
  {
    FilterKeeps(list[..i], f);
    FilterKeeps(list[..i], Not(f));
  }

  lemma LastIsMember(list: seq<nat>)
    ensures list != [] ==> LastOf(list) in list
  {
    if list != [] { assert list[|list| - 1] in list; }
  }

  /** The test in `take_watch_list`: the watch wants one of these fdevents, or nobody wants it. */
  predicate Wants(ws: seq<Watchrec>, imask: Mask, abandoned: nat -> bool, x: nat) {
    1 <= x <= |ws| && (imask & ws[x - 1].mask != 0 || (ws[x - 1].ev.Some? && abandoned(ws[x - 1].ev.value)))
  }

  function Wanting(ws: seq<Watchrec>, imask: Mask, abandoned: nat -> bool): nat -> bool {
    (x: nat) => Wants(ws, imask, abandoned, x)
  }

  /** A slot's own data, without its link. */
  ghost predicate SameWatches(ws: seq<Watchrec>, vs: seq<Watchrec>) {
    |ws| == |vs| && forall k :: 0 <= k < |ws| ==> vs[k].ev == ws[k].ev && vs[k].mask == ws[k].mask
  }

  ghost predicate SameOutside(ws: seq<Watchrec>, vs: seq<Watchrec>, list: seq<nat>) {
    |ws| == |vs| && forall k :: 0 <= k < |ws| && k + 1 !in list ==> vs[k] == ws[k]
  }

  /** What the walk knows before it looks at position i of the chain. */
  ghost predicate SplitSoFar(ws: seq<Watchrec>, vs: seq<Watchrec>, list: seq<nat>, i: nat, taken: seq<nat>, kept: seq<nat>) {
    SameWatches(ws, vs) && SameOutside(ws, vs, list) && Partial(vs, taken) && Partial(vs, kept) && Ahead(vs, list, i)
  }

  lemma SplitData(ws: seq<Watchrec>, vs: seq<Watchrec>, list: seq<nat>, prev: nat, x: nat)
    requires SameWatches(ws, vs) && SameOutside(ws, vs, list) && prev <= |vs| && (prev == 0 || prev in list)
    ensures SameWatches(ws, SetLink(vs, prev, x)) && SameOutside(ws, SetLink(vs, prev, x), list)
  {
  }

  /** Linking the slot at i after `g` extends that list and leaves the other one and the rest of the walk alone. */
  lemma SplitStep(ws: seq<Watchrec>, vs: seq<Watchrec>, list: seq<nat>, i: nat, g: seq<nat>, h: seq<nat>)
    requires i < |list| && SplitSoFar(ws, vs, list, i, g, h)
    requires NoDup(g) && (forall x :: x in g ==> x !in h && x in list) && forall k :: i <= k < |list| ==> list[k] !in g
    ensures LastOf(g) <= |vs| && SplitSoFar(ws, SetLink(vs, LastOf(g), list[i]), list, i + 1, g + [list[i]], h)
  {
    LastIsMember(g);
    PartialGrows(vs, g, list[i]);
    forall k | 0 <= k < |h| ensures h[k] != LastOf(g) {
      assert h[k] in h;
      assert 1 <= h[k];
    }
    PartialElsewhere(vs, LastOf(g), list[i], h);
    forall k | i < k < |list| ensures list[k] != LastOf(g) { assert 1 <= list[k]; }
    AheadElsewhere(vs, LastOf(g), list[i], list, i + 1);
    SplitData(ws, vs, list, LastOf(g), list[i]);
  }

  /** Null-terminating both chains. */
  lemma SplitEnd(ws: seq<Watchrec>, vs: seq<Watchrec>, list: seq<nat>, f: nat -> bool, us: seq<Watchrec>)
    requires NoDup(list) && SplitSoFar(ws, vs, list, |list|, Filter(list, f), Filter(list, Not(f)))
    requires LastOf(Filter(list, f)) <= |vs| && LastOf(Filter(list, Not(f))) <= |vs|
    requires us == SetLink(SetLink(vs, LastOf(Filter(list, Not(f))), 0), LastOf(Filter(list, f)), 0)
    ensures SameWatches(ws, us) && SameOutside(ws, us, list)
    ensures Linked(us, Filter(list, f)) && Linked(us, Filter(list, Not(f)))
  {
    assert list[..|list|] == list;
    var taken, kept := Filter(list, f), Filter(list, Not(f));
    var ts := SetLink(vs, LastOf(kept), 0);
    SplitFacts(list, |list|, f);
    LastIsMember(taken);
    LastIsMember(kept);
    SplitEndLinks(vs, taken, kept);
    SplitData(ws, vs, list, LastOf(kept), 0);
    SplitData(ws, ts, list, LastOf(taken), 0);
  }

  lemma SplitEndLinks(vs: seq<Watchrec>, taken: seq<nat>, kept: seq<nat>)
    requires Partial(vs, taken) && Partial(vs, kept) && NoDup(taken) && NoDup(kept)
    requires forall x :: x in taken ==> x !in kept
    requires LastOf(taken) <= |vs| && LastOf(kept) <= |vs|
    ensures var us := SetLink(SetLink(vs, LastOf(kept), 0), LastOf(taken), 0); Linked(us, taken) && Linked(us, kept)
  {
    LastIsMember(taken);
    LastIsMember(kept);
    forall k | 0 <= k < |taken| ensures taken[k] != 0 && taken[k] in taken { assert 1 <= taken[k]; }
    forall k | 0 <= k < |kept| ensures kept[k] != 0 && kept[k] in kept { assert 1 <= kept[k]; }
    PartialElsewhere(vs, LastOf(kept), 0, taken);
    PartialEnds(vs, kept);
    PartialEnds(SetLink(vs, LastOf(kept), 0), taken);
    PartialElsewhere(SetLink(vs, LastOf(kept), 0), LastOf(taken), 0, kept);
  }

  method TestSlot(vs: seq<Watchrec>, imask: Mask, abandoned: nat -> bool, x: nat, ghost ws: seq<Watchrec>, ghost f: nat -> bool)
    returns (wanted: bool)
    requires SameWatches(ws, vs) && f == Wanting(ws, imask, abandoned)
    ensures wanted == f(x)
  {
    wanted := Wants(vs, imask, abandoned, x);
  }

  /** The variables of the walk: the slots, and head and last slot of the two chains it builds. */
  datatype Walk = Walk(vs: seq<Watchrec>, taken: nat, takenEnd: nat, kept: nat, tail: nat)

  ghost predicate Ends(list: seq<nat>, head: nat, last: nat) {
    head == HeadOf(list) && last == LastOf(list)
  }

  /** The walk has split the first i slots; kept folded. */
  ghost predicate Walked(ws: seq<Watchrec>, w: Walk, list: seq<nat>, i: nat, f: nat -> bool) {
    forall n {:trigger Unfold(n)} :: Unfold(n) ==>
      && i <= |list| && NoDup(list)
      && SplitSoFar(ws, w.vs, list, i, Filter(list[..i], f), Filter(list[..i], Not(f)))
      && Ends(Filter(list[..i], f), w.taken, w.takenEnd) && Ends(Filter(list[..i], Not(f)), w.kept, w.tail)
  }

  /** One turn: slot x joins one chain or the other. */
  function Turned(w: Walk, x: nat, wanted: bool): Walk
    requires w.takenEnd <= |w.vs| && w.tail <= |w.vs|
  {
    if wanted then
      Walk(SetLink(w.vs, w.takenEnd, x), if w.takenEnd == 0 then x else w.taken, x, w.kept, w.tail)
    else
      Walk(SetLink(w.vs, w.tail, x), w.taken, w.takenEnd, if w.tail == 0 then x else w.kept, x)
  }

  lemma WalkStarts(ws: seq<Watchrec>, list: seq<nat>, f: nat -> bool)
    requires Linked(ws, list) && NoDup(list)
    ensures Walked(ws, Walk(ws, 0, 0, 0, 0), list, 0, f)
  {
    assert Unfold(0);
  }

  lemma WalkFacts(ws: seq<Watchrec>, w: Walk, list: seq<nat>, i: nat, f: nat -> bool)
    requires Walked(ws, w, list, i, f) && i < |list|
    ensures SameWatches(ws, w.vs) && w.takenEnd <= |w.vs| && w.tail <= |w.vs|
    ensures 1 <= list[i] <= |w.vs| && w.vs[list[i] - 1].link == NextIn(list, i)
  {
    assert Unfold(0);
    assert LinkOf(w.vs, list[i]) == NextIn(list, i);
    LastIsMember(Filter(list[..i], f));
    LastIsMember(Filter(list[..i], Not(f)));
  }

  lemma EndsGrow(n: nat, list: seq<nat>, x: nat, head: nat, last: nat)
    requires InBounds(n, list) && Ends(list, head, last)
    ensures Ends(list + [x], if last == 0 then x else head, x)
  {
  }

  lemma FoldWalk(ws: seq<Watchrec>, w: Walk, list: seq<nat>, i: nat, f: nat -> bool, ins: seq<nat>, outs: seq<nat>)
    requires i <= |list| && NoDup(list) && ins == Filter(list[..i], f) && outs == Filter(list[..i], Not(f))
    requires SplitSoFar(ws, w.vs, list, i, ins, outs) && Ends(ins, w.taken, w.takenEnd) && Ends(outs, w.kept, w.tail)
    ensures Walked(ws, w, list, i, f)
  {
  }

  lemma WalkTakes(ws: seq<Watchrec>, w: Walk, list: seq<nat>, i: nat, f: nat -> bool)
    requires Walked(ws, w, list, i, f) && i < |list| && f(list[i])
    requires w.takenEnd <= |w.vs| && w.tail <= |w.vs|
    ensures Walked(ws, Turned(w, list[i], true), list, i + 1, f)
  {
    assert Unfold(0);
    var ins, outs := Filter(list[..i], f), Filter(list[..i], Not(f));
    SplitFacts(list, i, f);
    FilterNext(list, i, f);
    FilterNext(list, i, Not(f));
    SplitStep(ws, w.vs, list, i, ins, outs);
    EndsGrow(|w.vs|, ins, list[i], w.taken, w.takenEnd);
    FoldWalk(ws, Turned(w, list[i], true), list, i + 1, f, ins + [list[i]], outs);
  }

  lemma WalkKeeps(ws: seq<Watchrec>, w: Walk, list: seq<nat>, i: nat, f: nat -> bool)
    requires Walked(ws, w, list, i, f) && i < |list| && !f(list[i])
    requires w.takenEnd <= |w.vs| && w.tail <= |w.vs|
    ensures Walked(ws, Turned(w, list[i], false), list, i + 1, f)
  {
    assert Unfold(0);
    var ins, outs := Filter(list[..i], f), Filter(list[..i], Not(f));
    SplitFacts(list, i, f);
    FilterNext(list, i, f);
    FilterNext(list, i, Not(f));
    SplitStep(ws, w.vs, list, i, outs, ins);
    EndsGrow(|w.vs|, outs, list[i], w.kept, w.tail);
    FoldWalk(ws, Turned(w, list[i], false), list, i + 1, f, ins, outs + [list[i]]);
  }

  lemma WalkTurns(ws: seq<Watchrec>, w: Walk, list: seq<nat>, i: nat, f: nat -> bool)
    requires Walked(ws, w, list, i, f) && i < |list|
    ensures w.takenEnd <= |w.vs| && w.tail <= |w.vs| && Walked(ws, Turned(w, list[i], f(list[i])), list, i + 1, f)
  {
    WalkFacts(ws, w, list, i, f);
    if f(list[i]) {
      WalkTakes(ws, w, list, i, f);
    } else {
      WalkKeeps(ws, w, list, i, f);
    }
  }

  lemma WalkEnds(ws: seq<Watchrec>, w: Walk, list: seq<nat>, i: nat, f: nat -> bool)
    requires Walked(ws, w, list, i, f) && (i < |list| ==> list[i] == 0)
    ensures Ends(Filter(list, f), w.taken, w.takenEnd) && Ends(Filter(list, Not(f)), w.kept, w.tail)
    ensures w.takenEnd <= |w.vs| && w.tail <= |w.vs|
    ensures var us := SetLink(SetLink(w.vs, w.tail, 0), w.takenEnd, 0);
            SameWatches(ws, us) && SameOutside(ws, us, list) && Linked(us, Filter(list, f)) && Linked(us, Filter(list, Not(f)))
  {
    assert Unfold(0);
    assert list[..i] == list;
    SplitFacts(list, i, f);
    PartialEnds(w.vs, Filter(list, f));
    PartialEnds(w.vs, Filter(list, Not(f)));
    SplitEnd(ws, w.vs, list, f, SetLink(SetLink(w.vs, w.tail, 0), w.takenEnd, 0));
  }

  /** The walk of `take_watch_list`: detach the watches that satisfy the test, keep the others. */
  method SplitChain(ws: seq<Watchrec>, first: nat, imask: Mask, abandoned: nat -> bool, ghost list: seq<nat>)
    returns (vs: seq<Watchrec>, taken: nat, kept: nat, tail: nat)
    requires Linked(ws, list) && NoDup(list) && first == HeadOf(list)
    ensures SameWatches(ws, vs) && SameOutside(ws, vs, list)
    ensures var f := Wanting(ws, imask, abandoned);
            && Linked(vs, Filter(list, f)) && taken == HeadOf(Filter(list, f))
            && Linked(vs, Filter(list, Not(f))) && kept == HeadOf(Filter(list, Not(f))) && tail == LastOf(Filter(list, Not(f)))
  {
    ghost var f := Wanting(ws, imask, abandoned);
    ghost var i: nat := 0;
    var w := Walk(ws, 0, 0, 0, 0);
    var wix := first;
    WalkStarts(ws, list, f);
    while wix != 0
      invariant i <= |list| && wix == (if i < |list| then list[i] else 0) && Walked(ws, w, list, i, f)
      decreases |list| - i
    {
      WalkFacts(ws, w, list, i, f);
      WalkTurns(ws, w, list, i, f);
      var next := w.vs[wix - 1].link;
      var wanted := TestSlot(w.vs, imask, abandoned, wix, ws, f);
      w := Turned(w, wix, wanted);
      wix, i := next, i + 1;
    }
    WalkEnds(ws, w, list, i, f);
    vs, taken, kept, tail := SetLink(SetLink(w.vs, w.tail, 0), w.takenEnd, 0), w.taken, w.kept, w.tail;
  }

  // ----- appending to a chain -----

  /** A slot, reused or new, joins the end of a chain. */
  lemma AppendLinks(ws: seq<Watchrec>, list: seq<nat>, x: nat, vs: seq<Watchrec>)
    requires Linked(ws, list) && NoDup(list) && x !in list && 1 <= x <= |vs| && |ws| <= |vs| && vs[x - 1].link == 0
    requires forall k :: 0 <= k < |ws| && k != x - 1 ==> vs[k] == ws[k]
    ensures LastOf(list) <= |vs| && Linked(SetLink(vs, LastOf(list), x), list + [x])
  {
    LastIsMember(list);
    LinksOfAppended(ws, list, x, SetLink(vs, LastOf(list), x));
  }

  lemma LinksUnmoved(ws: seq<Watchrec>, list: seq<nat>, vs: seq<Watchrec>, x: nat, prev: nat)
    requires Linked(ws, list) && x !in list && prev !in list && prev <= |vs| && |ws| <= |vs|
    requires forall k :: 0 <= k < |ws| && k != x - 1 ==> vs[k] == ws[k]
    ensures Linked(SetLink(vs, prev, x), list)
  {
    var us := SetLink(vs, prev, x);
    forall k | 0 <= k < |list| ensures LinkOf(us, list[k]) == NextIn(list, k) {
      assert list[k] in list;
      assert LinkOf(ws, list[k]) == NextIn(list, k);
    }
  }

  /** The lists once slot x, the first free one or else a new one, has joined chain p. */
  function Joined(lists: Lists, p: Owner, x: nat): Lists
    requires Free in lists && p in lists && p != Free
  {
    if lists[Free] != [] then Append(Behead(lists, Free), p, x) else Append(lists, p, x)
  }

  lemma JoinedPartition(n: nat, lists: Lists, owner: map<nat, Owner>, p: Owner, x: nat)
    requires Partition(n, lists, owner) && Free in lists && p in lists && p != Free
    requires x == if lists[Free] != [] then lists[Free][0] else n + 1
    ensures Partition(if lists[Free] != [] then n else n + 1, Joined(lists, p, x), owner[x := p])
    ensures forall q, k :: q in lists && 0 <= k < |lists[q]| && (q != Free || k > 0) ==> lists[q][k] != x
    ensures lists[p] != [] ==> forall q, k :: q in lists && q != p && 0 <= k < |lists[q]| ==> lists[q][k] != LastOf(lists[p])
  {
    if lists[Free] != [] {
      HeadIsElsewhere(n, lists, owner, Free);
      ReusePartition(n, lists, owner, Free, p);
    } else {
      GrowPartition(n, lists, owner, p);
    }
    if lists[p] != [] {
      forall q, k | q in lists && q != p && 0 <= k < |lists[q]| ensures lists[q][k] != LastOf(lists[p]) {
        PartsAreApart(n, lists, owner, q, p, k, |lists[p]| - 1);
      }
    }
  }

  lemma JoinAllLinks(ws: seq<Watchrec>, lists: Lists, owner: map<nat, Owner>, p: Owner, x: nat, vs: seq<Watchrec>)
    requires SlotsOk(ws, lists, owner) && Free in lists && p in lists && p != Free
    requires x == if lists[Free] != [] then lists[Free][0] else |ws| + 1
    requires 1 <= x <= |vs| && |ws| <= |vs| && vs[x - 1].link == 0 && forall k :: 0 <= k < |ws| && k != x - 1 ==> vs[k] == ws[k]
    ensures LastOf(lists[p]) <= |ws| && forall q :: q in lists ==> Linked(SetLink(vs, LastOf(lists[p]), x), Joined(lists, p, x)[q])
  {
    LinkedParts(ws, lists, owner, p);
    JoinedPartition(|ws|, lists, owner, p, x);
    forall q | q in lists ensures Linked(SetLink(vs, LastOf(lists[p]), x), Joined(lists, p, x)[q]) {
      LinkedParts(ws, lists, owner, q);
      JoinLinks(ws, lists, p, x, vs, q);
    }
  }

  lemma JoinEvents(ws: seq<Watchrec>, owner: map<nat, Owner>, p: Owner, x: nat, vs: seq<Watchrec>, prev: nat)
    requires EventsOk(ws, owner) && p != Free && 1 <= x <= |vs| && |ws| <= |vs| && prev <= |vs| && vs[x - 1].ev.Some?
    requires forall k :: 0 <= k < |ws| && k != x - 1 ==> vs[k] == ws[k]
    ensures EventsOk(SetLink(vs, prev, x), owner[x := p])
  {
  }

  lemma JoinSlots(ws: seq<Watchrec>, lists: Lists, owner: map<nat, Owner>, p: Owner, x: nat, vs: seq<Watchrec>, w: Watchrec)
    requires SlotsOk(ws, lists, owner) && Free in lists && p in lists && p != Free
    requires x == if lists[Free] != [] then lists[Free][0] else |ws| + 1
    requires w.ev.Some? && w.link == 0 && 1 <= x && (lists[Free] != [] ==> x <= |ws|)
    requires vs == if lists[Free] != [] then ws[x - 1 := w] else ws + [w]
    ensures LastOf(lists[p]) <= |vs| && SlotsOk(SetLink(vs, LastOf(lists[p]), x), Joined(lists, p, x), owner[x := p])
  {
    JoinedPartition(|ws|, lists, owner, p, x);
    JoinAllLinks(ws, lists, owner, p, x, vs);
    JoinEvents(ws, owner, p, x, vs, LastOf(lists[p]));
  }

  lemma LinkedParts(ws: seq<Watchrec>, lists: Lists, owner: map<nat, Owner>, p: Owner)
    requires SlotsOk(ws, lists, owner) && p in lists
    ensures Linked(ws, lists[p]) && NoDup(lists[p]) && LastOf(lists[p]) <= |ws|
  {
  }

  lemma JoinLinks(ws: seq<Watchrec>, lists: Lists, p: Owner, x: nat, vs: seq<Watchrec>, q: Owner)
    requires Free in lists && p in lists && p != Free && q in lists
    requires Linked(ws, lists[q]) && NoDup(lists[q]) && LastOf(lists[p]) <= |ws|
    requires 1 <= x <= |vs| && |ws| <= |vs| && vs[x - 1].link == 0 && forall k :: 0 <= k < |ws| && k != x - 1 ==> vs[k] == ws[k]
    requires forall k :: 0 <= k < |lists[q]| && (q != Free || k > 0) ==> lists[q][k] != x
    requires lists[Free] == [] || lists[Free][0] == x
    requires lists[p] != [] && q != p ==> forall k :: 0 <= k < |lists[q]| ==> lists[q][k] != LastOf(lists[p])
    ensures Linked(SetLink(vs, LastOf(lists[p]), x), Joined(lists, p, x)[q])
  {
    if q == p {
      AppendLinks(ws, lists[p], x, vs);
    } else {
      forall k | 0 <= k < |lists[q]| ensures lists[q][k] != LastOf(lists[p]) { assert 1 <= lists[q][k]; }
      if q == Free && lists[q] != [] {
        LinksOfTail(ws, lists[q]);
        assert Joined(lists, p, x)[q] == lists[q][1..];
        LinksUnmoved(ws, lists[q][1..], vs, x, LastOf(lists[p]));
      } else {
        LinksUnmoved(ws, lists[q], vs, x, LastOf(lists[p]));
      }
    }
  }
}
