/** fd_event_set: the watch table's operations and the invariant they keep. */
module WatchSet {
  import opened Options
  import opened WatchLists
  import opened WatchTable

  // ----- the update list -----

  function LinkTo(updates: seq<nat>, i: nat): nat {
    if i < |updates| then updates[i] + 1 else LINK_SENTINEL
  }

  ghost predicate LinkAt(fdrs: seq<Fdrec>, updates: seq<nat>, i: nat)
    requires i < |updates| && updates[i] < |fdrs|
  {
    fdrs[updates[i]].updateLink == LinkTo(updates, i + 1)
  }

  /** The update list, threaded through the fd records, is `updates`: no fd is on it twice, and an
      fd that is not on it has a clean link. */
  ghost predicate UpdatesOk(fdrs: seq<Fdrec>, updateLink: nat, updates: seq<nat>) {
    && |fdrs| <= MAX_FD + BLOCK_CAPACITY
    && updateLink == LinkTo(updates, 0) && NoDup(updates)
    && (forall i :: 0 <= i < |updates| ==> updates[i] < |fdrs|)
    && (forall i {:trigger LinkAt(fdrs, updates, i)} :: 0 <= i < |updates| ==> LinkAt(fdrs, updates, i))
    && (forall f :: 0 <= f < |fdrs| && f !in updates ==> fdrs[f].updateLink == LINK_CLEAN)
  }

  /** An fd whose chain is not what it was at its last pop is on the update list. */
  ghost predicate ChangesListed(n: nat, lists: Lists, updates: seq<nat>, popped: seq<seq<nat>>) {
    |popped| == n && forall f {:trigger Fd(f)} :: 0 <= f < n && Fd(f) in lists && f !in updates ==> lists[Fd(f)] == popped[f]
  }

  /** On the list exactly when the link is not clean. */
  lemma ListedIsLinked(fdrs: seq<Fdrec>, updateLink: nat, updates: seq<nat>, f: nat)
    requires UpdatesOk(fdrs, updateLink, updates) && f < |fdrs|
    ensures f in updates <==> fdrs[f].updateLink != LINK_CLEAN
  {
    if f in updates {
      var i :| 0 <= i < |updates| && updates[i] == f;
      assert LinkAt(fdrs, updates, i);
    }
  }

  function Listed(updates: seq<nat>, f: nat): seq<nat> {
    if f in updates then updates else [f] + updates
  }

  lemma PushUpdate(fdrs: seq<Fdrec>, updateLink: nat, updates: seq<nat>, f: nat)
    requires UpdatesOk(fdrs, updateLink, updates) && f < |fdrs| && f !in updates
    ensures UpdatesOk(fdrs[f := fdrs[f].(updateLink := updateLink)], f + 1, [f] + updates)
  {
    var gs, longer := fdrs[f := fdrs[f].(updateLink := updateLink)], [f] + updates;
    forall i | 0 <= i < |longer| ensures longer[i] < |gs| && LinkAt(gs, longer, i) {
      if i > 0 {
        assert longer[i] == updates[i - 1] && updates[i - 1] in updates;
        assert LinkAt(fdrs, updates, i - 1);
      }
    }
    forall g | 0 <= g < |gs| && g !in longer ensures gs[g].updateLink == LINK_CLEAN {
      assert longer[0] == f;
    }
  }

  lemma PopUpdateList(fdrs: seq<Fdrec>, updateLink: nat, updates: seq<nat>)
    requires UpdatesOk(fdrs, updateLink, updates) && updates != []
    ensures updates[0] + 1 == updateLink && updates[0] < |fdrs|
    ensures UpdatesOk(fdrs[updates[0] := fdrs[updates[0]].(updateLink := LINK_CLEAN)], fdrs[updates[0]].updateLink, updates[1..])
    ensures updates[0] !in updates[1..]
  {
    var f := updates[0];
    var gs, rest := fdrs[f := fdrs[f].(updateLink := LINK_CLEAN)], updates[1..];
    assert LinkAt(fdrs, updates, 0);
    forall i | 0 <= i < |rest| ensures rest[i] < |gs| && rest[i] != f && LinkAt(gs, rest, i) {
      RestLink(fdrs, updates, gs, i);
    }
    forall g | 0 <= g < |gs| && g !in rest ensures gs[g].updateLink == LINK_CLEAN {
      if g != f { NotListed(updates, g); }
    }
  }

  lemma RestLink(fdrs: seq<Fdrec>, updates: seq<nat>, gs: seq<Fdrec>, i: nat)
    requires i + 1 < |updates| && updates[i + 1] < |fdrs| && LinkAt(fdrs, updates, i + 1) && NoDup(updates)
    requires updates[0] < |fdrs| && gs == fdrs[updates[0] := fdrs[updates[0]].(updateLink := LINK_CLEAN)]
    ensures updates[1..][i] != updates[0] && LinkAt(gs, updates[1..], i)
  {
  }

  lemma NotListed(updates: seq<nat>, g: nat)
    requires updates != [] && g !in updates[1..] && g != updates[0]
    ensures g !in updates
  {
    assert updates == [updates[0]] + updates[1..];
  }

  /** Only links matter to the update list. */
  lemma UpdatesElsewhere(fdrs: seq<Fdrec>, updateLink: nat, updates: seq<nat>, gs: seq<Fdrec>)
    requires UpdatesOk(fdrs, updateLink, updates) && |gs| == |fdrs|
    requires forall f :: 0 <= f < |fdrs| ==> gs[f].updateLink == fdrs[f].updateLink
    ensures UpdatesOk(gs, updateLink, updates)
  {
    forall i | 0 <= i < |updates| ensures LinkAt(gs, updates, i) {
      assert LinkAt(fdrs, updates, i);
    }
  }

  // ----- slots -----

  /** Splitting one chain of the table. */
  lemma SplitSlots(ws: seq<Watchrec>, lists: Lists, owner: map<nat, Owner>, o: Owner, p: Owner, f: nat -> bool, vs: seq<Watchrec>)
    requires SlotsOk(ws, lists, owner) && o in lists && p !in lists && o != Free && p != Free
    requires SameWatches(ws, vs) && SameOutside(ws, vs, lists[o])
    requires Linked(vs, Filter(lists[o], f)) && Linked(vs, Filter(lists[o], Not(f)))
    ensures SlotsOk(vs, Split(lists, o, p, f), SplitOwner(owner, o, p, f))
  {
    SplitPartition(|ws|, lists, owner, o, p, f);
    forall q | q in lists && q != o ensures Linked(vs, lists[q]) {
      assert Linked(ws, lists[q]);
      forall k | 0 <= k < |lists[q]| ensures LinkOf(vs, lists[q][k]) == NextIn(lists[q], k) {
        assert LinkOf(ws, lists[q][k]) == NextIn(lists[q], k);
        assert owner[lists[q][k]] == q;
      }
    }
  }

  lemma SplitHeads(freeLink: nat, fdrs: seq<Fdrec>, lists: Lists, tickets: nat, fd: nat, f: nat -> bool, gs: seq<Fdrec>)
    requires HeadsOk(freeLink, fdrs, lists, tickets) && fd < |fdrs| && |gs| == |fdrs|
    requires forall g :: 0 <= g < |gs| && g != fd ==> gs[g].whead == fdrs[g].whead && gs[g].wtail == fdrs[g].wtail
    requires Fd(fd) in lists && gs[fd].whead == HeadOf(Filter(lists[Fd(fd)], Not(f)))
    requires gs[fd].wtail == LastOf(Filter(lists[Fd(fd)], Not(f)))
    ensures HeadsOk(freeLink, gs, Split(lists, Fd(fd), Detached(tickets), f), tickets + 1)
  {
    var split := Split(lists, Fd(fd), Detached(tickets), f);
    forall g | 0 <= g < |gs|
      ensures Fd(g) in split && gs[g].whead == HeadOf(split[Fd(g)])
      ensures split[Fd(g)] != [] ==> gs[g].wtail == LastOf(split[Fd(g)])
    {
      assert Fd(g) in lists;
    }
  }

  /** A chain that nothing is taken from stays as it is. */
  lemma {:induction false} FilterNone(list: seq<nat>, f: nat -> bool)
    ensures Filter(list, f) == [] ==> Filter(list, Not(f)) == list
  {
    if list != [] {
      FilterNone(list[..|list| - 1], f);
      assert list == list[..|list| - 1] + [list[|list| - 1]];
    }
  }

  /** Only heads and tails matter to the chains. */
  lemma HeadsElsewhere(freeLink: nat, fdrs: seq<Fdrec>, lists: Lists, tickets: nat, gs: seq<Fdrec>)
    requires HeadsOk(freeLink, fdrs, lists, tickets) && |gs| == |fdrs|
    requires forall f :: 0 <= f < |fdrs| ==> gs[f].whead == fdrs[f].whead && gs[f].wtail == fdrs[f].wtail
    ensures HeadsOk(freeLink, gs, lists, tickets)
  {
    forall f | 0 <= f < |gs|
      ensures Fd(f) in lists && gs[f].whead == HeadOf(lists[Fd(f)])
      ensures lists[Fd(f)] != [] ==> gs[f].wtail == LastOf(lists[Fd(f)])
    {
      assert Fd(f) in lists;
    }
  }

  lemma InListed(updates: seq<nat>, fd: nat)
    ensures forall f :: f in Listed(updates, fd) <==> f == fd || f in updates
  {
    if fd !in updates {
      assert Listed(updates, fd)[0] == fd;
      forall f | f in updates ensures f in Listed(updates, fd) {
        var i :| 0 <= i < |updates| && updates[i] == f;
        assert Listed(updates, fd)[i + 1] == f;
      }
    }
  }

  /** The first slot of a chain is a slot number, so its head link is 0 exactly when the chain is empty. */
  lemma HeadIsZero(ws: seq<Watchrec>, list: seq<nat>)
    requires Linked(ws, list)
    ensures HeadOf(list) == 0 <==> list == []
  {
  }

  // ----- the whole table, as a value -----

  datatype Table = Table(fdrs: seq<Fdrec>, updateLink: nat, ws: seq<Watchrec>, freeLink: nat,
                         lists: Lists, owner: map<nat, Owner>, updates: seq<nat>, popped: seq<seq<nat>>, tickets: nat)

  /** SlotsOk, kept folded so that steps that do not touch the slots need not look inside. */
  ghost predicate Slots(ws: seq<Watchrec>, lists: Lists, owner: map<nat, Owner>) {
    forall n {:trigger Unfold(n)} :: Unfold(n) ==> SlotsOk(ws, lists, owner)
  }

  lemma UnfoldSlots(ws: seq<Watchrec>, lists: Lists, owner: map<nat, Owner>)
    ensures Slots(ws, lists, owner) <==> SlotsOk(ws, lists, owner)
  {
    assert Unfold(0);
  }

  ghost predicate Base(t: Table) {
    Slots(t.ws, t.lists, t.owner) && HeadsOk(t.freeLink, t.fdrs, t.lists, t.tickets) && UpdatesOk(t.fdrs, t.updateLink, t.updates)
  }

  ghost predicate TableOk(t: Table) {
    Base(t) && ChangesListed(|t.fdrs|, t.lists, t.updates, t.popped)
  }

  /** `if (fdi.update_link == link_clean) ...`: put the fd on the update list unless it is there. */
  function Marked(t: Table, fd: nat): Table
    requires fd < |t.fdrs|
  {
    if t.fdrs[fd].updateLink != LINK_CLEAN then t else
      t.(fdrs := t.fdrs[fd := t.fdrs[fd].(updateLink := t.updateLink)], updateLink := fd + 1, updates := [fd] + t.updates)
  }

  /** Marking makes good a change to the chain of one fd. */
  lemma MarkedOk(t: Table, fd: nat)
    requires Base(t) && fd < |t.fdrs|
    requires OthersListed(t, fd)
    ensures TableOk(Marked(t, fd)) && Marked(t, fd).updates == Listed(t.updates, fd)
  {
    var u := Marked(t, fd);
    ListedIsLinked(t.fdrs, t.updateLink, t.updates, fd);
    InListed(t.updates, fd);
    if fd !in t.updates {
      PushUpdate(t.fdrs, t.updateLink, t.updates, fd);
      HeadsElsewhere(t.freeLink, t.fdrs, t.lists, t.tickets, u.fdrs);
    }
  }

  /** The table after `take_watch_list` has split the chain of fd. */
  function Taken(t: Table, fd: nat, f: nat -> bool, vs: seq<Watchrec>, kept: nat, tail: nat): Table
    requires fd < |t.fdrs| && Fd(fd) in t.lists
  {
    t.(ws := vs, fdrs := t.fdrs[fd := t.fdrs[fd].(whead := kept, wtail := tail)], tickets := t.tickets + 1,
       lists := Split(t.lists, Fd(fd), Detached(t.tickets), f), owner := SplitOwner(t.owner, Fd(fd), Detached(t.tickets), f))
  }

  lemma TakenSlots(t: Table, fd: nat, f: nat -> bool, vs: seq<Watchrec>)
    requires Slots(t.ws, t.lists, t.owner) && Fd(fd) in t.lists && Detached(t.tickets) !in t.lists
    requires SameWatches(t.ws, vs) && SameOutside(t.ws, vs, t.lists[Fd(fd)])
    requires Linked(vs, Filter(t.lists[Fd(fd)], f)) && Linked(vs, Filter(t.lists[Fd(fd)], Not(f)))
    ensures Slots(vs, Split(t.lists, Fd(fd), Detached(t.tickets), f), SplitOwner(t.owner, Fd(fd), Detached(t.tickets), f))
  {
    UnfoldSlots(t.ws, t.lists, t.owner);
    UnfoldSlots(vs, Split(t.lists, Fd(fd), Detached(t.tickets), f), SplitOwner(t.owner, Fd(fd), Detached(t.tickets), f));
    SplitSlots(t.ws, t.lists, t.owner, Fd(fd), Detached(t.tickets), f, vs);
  }

  lemma TakenBase(t: Table, fd: nat, f: nat -> bool, vs: seq<Watchrec>, kept: nat, tail: nat)
    requires TableOk(t) && fd < |t.fdrs| && Fd(fd) in t.lists
    requires SameWatches(t.ws, vs) && SameOutside(t.ws, vs, t.lists[Fd(fd)])
    requires Linked(vs, Filter(t.lists[Fd(fd)], f)) && Linked(vs, Filter(t.lists[Fd(fd)], Not(f)))
    requires kept == HeadOf(Filter(t.lists[Fd(fd)], Not(f))) && tail == LastOf(Filter(t.lists[Fd(fd)], Not(f)))
    ensures Base(Taken(t, fd, f, vs, kept, tail))
  {
    var u := Taken(t, fd, f, vs, kept, tail);
    TakenSlots(t, fd, f, vs);
    SplitHeads(t.freeLink, t.fdrs, t.lists, t.tickets, fd, f, u.fdrs);
    UpdatesElsewhere(t.fdrs, t.updateLink, t.updates, u.fdrs);
  }

  /** Taking something puts the fd on the update list; taking nothing changes no chain. */
  lemma TakenOk(t: Table, fd: nat, f: nat -> bool, vs: seq<Watchrec>, kept: nat, tail: nat)
    requires TableOk(t) && fd < |t.fdrs| && Fd(fd) in t.lists && Base(Taken(t, fd, f, vs, kept, tail))
    ensures var u := Taken(t, fd, f, vs, kept, tail);
            if Filter(t.lists[Fd(fd)], f) == [] then TableOk(u)
            else TableOk(Marked(u, fd)) && Marked(u, fd).updates == Listed(t.updates, fd)
  {
    var u := Taken(t, fd, f, vs, kept, tail);
    FilterNone(t.lists[Fd(fd)], f);
    if Filter(t.lists[Fd(fd)], f) != [] { MarkedOk(u, fd); }
  }

  /** The watch in slot x has an event that has been abandoned, or waits for one of these fdevents. */
  ghost predicate Ripe(ws: seq<Watchrec>, x: nat, imask: Mask, abandoned: nat -> bool) {
    && 1 <= x <= |ws| && ws[x - 1].ev.Some?
    && (abandoned(ws[x - 1].ev.value) || exists e :: Includes(imask, e) && Includes(ws[x - 1].mask, e))
  }

  lemma TakesTheRipe(t: Table, fd: nat, imask: Mask, abandoned: nat -> bool)
    requires TableOk(t) && fd < |t.fdrs|
    ensures Fd(fd) in t.lists
    ensures var f, list := Wanting(t.ws, imask, abandoned), t.lists[Fd(fd)];
            && (forall x :: x in Filter(list, f) <==> x in list && Ripe(t.ws, x, imask, abandoned))
            && (forall x :: x in Filter(list, Not(f)) <==> x in list && !Ripe(t.ws, x, imask, abandoned))
  {
    ChainFacts(t, Fd(fd));
    var f, list := Wanting(t.ws, imask, abandoned), t.lists[Fd(fd)];
    FilterKeeps(list, f);
    FilterKeeps(list, Not(f));
    forall x | x in list ensures f(x) <==> Ripe(t.ws, x, imask, abandoned) {
      MaskIsItsEvents(imask, t.ws[x - 1].mask);
    }
  }

  // ----- recycling -----

  /** The table after the head slot of chain `o` has gone back to the free list. */
  function Recycled(t: Table, o: Owner): Table
    requires o in t.lists && t.lists[o] != [] && Free in t.lists && 1 <= t.lists[o][0] <= |t.ws|
  {
    var x := t.lists[o][0];
    t.(ws := t.ws[x - 1 := Watchrec(None, t.ws[x - 1].mask, t.freeLink)], freeLink := x,
       fdrs := if o.Fd? && o.fd < |t.fdrs| then t.fdrs[o.fd := t.fdrs[o.fd].(whead := HeadOf(t.lists[o][1..]))] else t.fdrs,
       lists := MoveHead(t.lists, o, Free), owner := t.owner[x := Free])
  }

  lemma ChainFacts(t: Table, o: Owner)
    requires Base(t) && o in t.lists
    ensures Linked(t.ws, t.lists[o]) && NoDup(t.lists[o]) && (o.Fd? ==> o.fd < |t.fdrs|)
    ensures t.lists[o] != [] ==> 1 <= t.lists[o][0] <= |t.ws| && t.ws[t.lists[o][0] - 1].link == HeadOf(t.lists[o][1..])
    ensures forall k :: 0 <= k < |t.lists[o]| ==> (t.ws[t.lists[o][k] - 1].ev.None? <==> o == Free)
  {
    UnfoldSlots(t.ws, t.lists, t.owner);
    if t.lists[o] != [] { assert LinkOf(t.ws, t.lists[o][0]) == NextIn(t.lists[o], 0); }
  }

  lemma RecycledSlots(t: Table, o: Owner)
    requires Slots(t.ws, t.lists, t.owner) && o in t.lists && o != Free && t.lists[o] != []
    requires Free in t.lists && t.freeLink == HeadOf(t.lists[Free])
    ensures 1 <= t.lists[o][0] <= |t.ws| && Slots(Recycled(t, o).ws, Recycled(t, o).lists, Recycled(t, o).owner)
  {
    UnfoldSlots(t.ws, t.lists, t.owner);
    assert t.lists[o][0] in t.owner;
    RecycleSlots(t.ws, t.lists, t.owner, o, Recycled(t, o).ws);
    UnfoldSlots(Recycled(t, o).ws, Recycled(t, o).lists, Recycled(t, o).owner);
  }

  lemma RecycledOk(t: Table, o: Owner)
    requires Base(t) && o in t.lists && o != Free && t.lists[o] != []
    ensures Free in t.lists && 1 <= t.lists[o][0] <= |t.ws| && Base(Recycled(t, o))
    ensures o.Detached? && TableOk(t) ==> TableOk(Recycled(t, o))
  {
    RecycledSlots(t, o);
    var u := Recycled(t, o);
    RecycleHeads(t.freeLink, t.fdrs, t.lists, t.tickets, o, u.fdrs);
    UpdatesElsewhere(t.fdrs, t.updateLink, t.updates, u.fdrs);
  }

  /** The event of slot x. */
  function EventAt(ws: seq<Watchrec>, x: nat): Option<nat> {
    if 1 <= x <= |ws| then ws[x - 1].ev else None
  }

  /** The events of a chain, in order. */
  function EventsOf(ws: seq<Watchrec>, list: seq<nat>): seq<Option<nat>> {
    if list == [] then [] else EventsOf(ws, list[..|list| - 1]) + [EventAt(ws, list[|list| - 1])]
  }

  function Reverse(list: seq<nat>): seq<nat> {
    if list == [] then [] else [list[|list| - 1]] + Reverse(list[..|list| - 1])
  }

  /** The lists once the first i slots of a chain have gone to the free list, one by one. */
  function DrainedLists(lists: Lists, o: Owner, i: nat): Lists
    requires o in lists && Free in lists && i <= |lists[o]|
  {
    lists[o := lists[o][i..]][Free := Reverse(lists[o][..i]) + lists[Free]]
  }

  lemma DrainNone(lists: Lists, o: Owner)
    requires o in lists && Free in lists && o != Free
    ensures DrainedLists(lists, o, 0) == lists
  {
    assert lists[o][0..] == lists[o] && Reverse(lists[o][..0]) + lists[Free] == lists[Free];
  }

  /** Draining one slot more. */
  lemma DrainStep(t: Table, u: Table, o: Owner, i: nat)
    requires o in t.lists && Free in t.lists && o != Free && i < |t.lists[o]| && u.lists == DrainedLists(t.lists, o, i)
    ensures u.lists[o] != [] && u.lists[o][0] == t.lists[o][i]
    ensures MoveHead(u.lists, o, Free) == DrainedLists(t.lists, o, i + 1)
    ensures EventsOf(t.ws, t.lists[o][..i + 1]) == EventsOf(t.ws, t.lists[o][..i]) + [EventAt(t.ws, t.lists[o][i])]
  {
    var list := t.lists[o];
    assert list[..i + 1][..i] == list[..i];
    assert list[i..][1..] == list[i + 1..];
    assert MoveHead(u.lists, o, Free)[Free] == Reverse(list[..i + 1]) + t.lists[Free];
    assert MoveHead(u.lists, o, Free)[o] == list[i + 1..];
  }

  /** Every fd but this one is listed if its chain has changed. */
  ghost predicate OthersListed(t: Table, fd: nat) {
    |t.popped| == |t.fdrs| &&
    forall f {:trigger Fd(f)} :: 0 <= f < |t.fdrs| && f != fd && Fd(f) in t.lists && f !in t.updates ==> t.lists[Fd(f)] == t.popped[f]
  }

  // ----- masks and popping -----

  /** What a chain still wants: the union of the masks of its watches that are not abandoned. */
  function MaskOf(ws: seq<Watchrec>, list: seq<nat>, abandoned: nat -> bool): Mask
    requires InBounds(|ws|, list)
  {
    if list == [] then 0 else MaskOf(ws, list[..|list| - 1], abandoned) | MaskAt(ws[list[|list| - 1] - 1], abandoned)
  }

  function MaskAt(w: Watchrec, abandoned: nat -> bool): Mask {
    if w.ev.Some? && !abandoned(w.ev.value) then w.mask else 0
  }

  /** Somebody on the chain is still waiting for e. */
  ghost predicate Awaited(ws: seq<Watchrec>, list: seq<nat>, abandoned: nat -> bool, e: Event) {
    exists k :: 0 <= k < |list| && StillWants(ws, list[k], abandoned, e)
  }

  /** The event in slot x has not been abandoned, and its watch is for e. */
  ghost predicate StillWants(ws: seq<Watchrec>, x: nat, abandoned: nat -> bool, e: Event) {
    1 <= x <= |ws| && ws[x - 1].ev.Some? && !abandoned(ws[x - 1].ev.value) && Includes(ws[x - 1].mask, e)
  }

  lemma {:induction false} MaskIsAwaited(ws: seq<Watchrec>, list: seq<nat>, abandoned: nat -> bool, e: Event)
    requires InBounds(|ws|, list)
    ensures Includes(MaskOf(ws, list, abandoned), e) <==> Awaited(ws, list, abandoned, e)
  {
    if list != [] {
      var init, last := list[..|list| - 1], list[|list| - 1];
      MaskIsAwaited(ws, init, abandoned, e);
      MaskIsItsEvents(MaskOf(ws, init, abandoned), MaskAt(ws[last - 1], abandoned));
      assert Includes(MaskAt(ws[last - 1], abandoned), e) <==> StillWants(ws, last, abandoned, e);
      assert forall k :: 0 <= k < |init| ==> init[k] == list[k];
      if Awaited(ws, init, abandoned, e) {
        var k :| 0 <= k < |init| && StillWants(ws, init[k], abandoned, e);
        assert StillWants(ws, list[k], abandoned, e);
      }
      if Awaited(ws, list, abandoned, e) && !StillWants(ws, last, abandoned, e) {
        var k :| 0 <= k < |list| && StillWants(ws, list[k], abandoned, e);
        assert StillWants(ws, init[k], abandoned, e);
      }
    }
  }

  lemma MaskSaysAwaited(ws: seq<Watchrec>, list: seq<nat>, abandoned: nat -> bool)
    requires InBounds(|ws|, list)
    ensures forall e :: Includes(MaskOf(ws, list, abandoned), e) <==> Awaited(ws, list, abandoned, e)
    ensures MaskOf(ws, list, abandoned) == 0 <==> forall e :: !Awaited(ws, list, abandoned, e)
  {
    forall e ensures Includes(MaskOf(ws, list, abandoned), e) <==> Awaited(ws, list, abandoned, e) {
      MaskIsAwaited(ws, list, abandoned, e);
    }
    MaskIsItsEvents(MaskOf(ws, list, abandoned), 0);
  }

  /** The table after the head of the update list has been popped; `epoch` is the fd's new epoch. */
  function Popped(t: Table, epoch: nat): Table
    requires t.updates != [] && t.updates[0] < |t.fdrs| && Fd(t.updates[0]) in t.lists && |t.popped| == |t.fdrs|
  {
    var fd := t.updates[0];
    t.(fdrs := t.fdrs[fd := t.fdrs[fd].(updateLink := LINK_CLEAN, epoch := epoch)], updateLink := t.fdrs[fd].updateLink,
       updates := t.updates[1..], popped := t.popped[fd := t.lists[Fd(fd)]])
  }

  lemma PoppedOk(t: Table, epoch: nat)
    requires TableOk(t) && t.updates != []
    ensures t.updates[0] + 1 == t.updateLink && t.updates[0] < |t.fdrs| && Fd(t.updates[0]) in t.lists
    ensures TableOk(Popped(t, epoch))
  {
    var fd := t.updates[0];
    PopUpdateList(t.fdrs, t.updateLink, t.updates);
    ChainFacts(t, Fd(fd));
    var u := Popped(t, epoch);
    UpdatesElsewhere(t.fdrs[fd := t.fdrs[fd].(updateLink := LINK_CLEAN)], u.updateLink, u.updates, u.fdrs);
    HeadsElsewhere(t.freeLink, t.fdrs, t.lists, t.tickets, u.fdrs);
    forall f | 0 <= f < |t.fdrs| && Fd(f) in t.lists && f !in u.updates ensures t.lists[Fd(f)] == u.popped[f] {
      if f != fd { assert t.updates == [fd] + u.updates; }
    }
  }

  // ----- growing -----

  function GrownLists(lists: Lists, n: nat, m: nat): Lists {
    map o | o in lists.Keys + (set f | n <= f < m :: Fd(f)) :: if o in lists then lists[o] else []
  }

  function Extended(fdrs: seq<Fdrec>, m: nat): seq<Fdrec>
    requires |fdrs| <= m
  {
    fdrs + Filled(m - |fdrs|, EmptyFdrec)
  }

  function Grown(t: Table, m: nat): Table
    requires |t.fdrs| <= m
  {
    t.(fdrs := Extended(t.fdrs, m), lists := GrownLists(t.lists, |t.fdrs|, m),
       popped := t.popped + Filled(m - |t.fdrs|, []))
  }

  lemma GrownSlots(t: Table, m: nat)
    requires Slots(t.ws, t.lists, t.owner) && |t.fdrs| <= m
    requires forall o :: o in t.lists && o.Fd? ==> o.fd < |t.fdrs|
    ensures Slots(t.ws, Grown(t, m).lists, t.owner)
  {
    UnfoldSlots(t.ws, t.lists, t.owner);
    UnfoldSlots(t.ws, Grown(t, m).lists, t.owner);
    var lists := Grown(t, m).lists;
    forall o | o in lists ensures Linked(t.ws, lists[o]) && NoDup(lists[o]) {
      if o in t.lists { assert NoDup(t.lists[o]); }
    }
  }

  lemma GrownOk(t: Table, m: nat)
    requires TableOk(t) && |t.fdrs| <= m <= MAX_FD + BLOCK_CAPACITY
    ensures TableOk(Grown(t, m))
  {
    GrownSlots(t, m);
    var u := Grown(t, m);
    forall f | 0 <= f < m
      ensures Fd(f) in u.lists && u.fdrs[f].whead == HeadOf(u.lists[Fd(f)])
      ensures u.lists[Fd(f)] != [] ==> u.fdrs[f].wtail == LastOf(u.lists[Fd(f)])
      ensures f !in u.updates ==> u.lists[Fd(f)] == u.popped[f]
      ensures f !in u.updates ==> u.fdrs[f].updateLink == LINK_CLEAN
    {
      if f < |t.fdrs| {
        assert Fd(f) in t.lists;
      } else {
        assert Fd(f) !in t.lists;
      }
    }
    forall i | 0 <= i < |t.updates| ensures u.fdrs[t.updates[i]] == t.fdrs[t.updates[i]] && LinkAt(u.fdrs, t.updates, i) {
      assert LinkAt(t.fdrs, t.updates, i);
    }
  }

  lemma GrownTo(t: Table, m: nat) returns (u: Table)
    requires TableOk(t) && |t.fdrs| <= m <= MAX_FD + BLOCK_CAPACITY
    ensures u == Grown(t, m) && TableOk(u) && |u.fdrs| == m
  {
    GrownOk(t, m);
    u := Grown(t, m);
  }

  // ----- joining a chain -----

  /** The slot a new watch gets: the first free one, else one more. */
  function NewSlot(t: Table): nat {
    if t.freeLink != 0 then t.freeLink else |t.ws| + 1
  }

  function JoinedTable(t: Table, fd: nat, w: Watchrec): Table
    requires fd < |t.fdrs| && Free in t.lists && Fd(fd) in t.lists && t.freeLink <= |t.ws|
    requires t.fdrs[fd].whead != 0 ==> t.fdrs[fd].wtail <= |t.ws|
  {
    var x := NewSlot(t);
    var vs := if t.freeLink != 0 then t.ws[x - 1 := w] else t.ws + [w];
    var r := t.fdrs[fd];
    t.(ws := SetLink(vs, if r.whead != 0 then r.wtail else 0, x),
       freeLink := if t.freeLink != 0 then t.ws[x - 1].link else 0,
       fdrs := t.fdrs[fd := r.(whead := if r.whead != 0 then r.whead else x, wtail := x)],
       lists := Joined(t.lists, Fd(fd), x), owner := t.owner[x := Fd(fd)])
  }

  /** The stored links the code follows are those of the lists. */
  lemma JoinFacts(t: Table, fd: nat)
    requires Base(t) && fd < |t.fdrs|
    ensures Free in t.lists && Fd(fd) in t.lists
    ensures t.freeLink <= |t.ws| && (t.freeLink != 0 <==> t.lists[Free] != [])
    ensures t.freeLink != 0 ==> t.freeLink == t.lists[Free][0] && t.ws[t.freeLink - 1].link == HeadOf(t.lists[Free][1..])
    ensures (t.fdrs[fd].whead != 0 <==> t.lists[Fd(fd)] != []) && t.fdrs[fd].whead == HeadOf(t.lists[Fd(fd)])
    ensures t.fdrs[fd].whead != 0 ==> t.fdrs[fd].wtail == LastOf(t.lists[Fd(fd)]) <= |t.ws|
  {
    ChainFacts(t, Free);
    ChainFacts(t, Fd(fd));
    LastIsMember(t.lists[Fd(fd)]);
  }

  lemma JoinedSlots(t: Table, fd: nat, w: Watchrec)
    requires Base(t) && fd < |t.fdrs| && w.ev.Some? && w.link == 0
    ensures Free in t.lists && Fd(fd) in t.lists && t.freeLink <= |t.ws| && (t.fdrs[fd].whead != 0 ==> t.fdrs[fd].wtail <= |t.ws|)
    ensures var u := JoinedTable(t, fd, w); Slots(u.ws, u.lists, u.owner)
  {
    JoinFacts(t, fd);
    var u, x := JoinedTable(t, fd, w), NewSlot(t);
    UnfoldSlots(t.ws, t.lists, t.owner);
    UnfoldSlots(u.ws, u.lists, u.owner);
    JoinSlots(t.ws, t.lists, t.owner, Fd(fd), x, if t.freeLink != 0 then t.ws[x - 1 := w] else t.ws + [w], w);
  }

  lemma JoinedHeads(t: Table, fd: nat, w: Watchrec)
    requires Base(t) && fd < |t.fdrs|
    ensures Free in t.lists && Fd(fd) in t.lists && t.freeLink <= |t.ws| && (t.fdrs[fd].whead != 0 ==> t.fdrs[fd].wtail <= |t.ws|)
    ensures var u := JoinedTable(t, fd, w); HeadsOk(u.freeLink, u.fdrs, u.lists, u.tickets)
  {
    JoinFacts(t, fd);
    var u := JoinedTable(t, fd, w);
    forall f | 0 <= f < |u.fdrs|
      ensures Fd(f) in u.lists && u.fdrs[f].whead == HeadOf(u.lists[Fd(f)])
      ensures u.lists[Fd(f)] != [] ==> u.fdrs[f].wtail == LastOf(u.lists[Fd(f)])
    {
      assert Fd(f) in t.lists;
    }
  }

  /** A watch may join the chain of an fd that is on the update list. */
  lemma JoinedOk(t: Table, fd: nat, w: Watchrec) returns (u: Table)
    requires TableOk(t) && fd < |t.fdrs| && fd in t.updates && w.ev.Some? && w.link == 0
    ensures Free in t.lists && Fd(fd) in t.lists && t.freeLink <= |t.ws| && (t.fdrs[fd].whead != 0 ==> t.fdrs[fd].wtail <= |t.ws|)
    ensures u == JoinedTable(t, fd, w) && TableOk(u)
  {
    JoinedSlots(t, fd, w);
    JoinedHeads(t, fd, w);
    u := JoinedTable(t, fd, w);
    UpdatesElsewhere(t.fdrs, t.updateLink, t.updates, u.fdrs);
  }

  /** The slots that are not on the free list. */
  function InUse(owner: map<nat, Owner>): set<nat> {
    set x | x in owner && owner[x] != Free
  }

  /** No list but the free one and the chain of `fd` has changed. */
  ghost predicate OthersKept(lists: Lists, now: Lists, fd: nat) {
    forall o :: o in lists && o != Free && o != Fd(fd) ==> o in now && now[o] == lists[o]
  }

  // ----- one fd -----

  function ChainAt(t: Table, fd: nat): seq<nat> {
    if Fd(fd) in t.lists then t.lists[Fd(fd)] else []
  }

  function BodyAt(t: Table, fd: nat): Option<nat> {
    if fd < |t.fdrs| then t.fdrs[fd].body else None
  }

  /** The descriptor now belongs to another body. */
  predicate Evicted(body: Option<nat>, now: nat) {
    body.Some? && body != Some(now)
  }

  // ----- the flag words of events -----

  /** The four user flags of an event body. */
  const EFM_USER: bv32 := 0x3C0
  const EFS_USER := 6

  /** `(flags & ~efm_user) | userf`, the user flags being a mask of fdevents. */
  function Flagged(flags: bv32, mask: Mask): bv32 {
    (flags & !EFM_USER) | ((mask as bv32) << EFS_USER)
  }

  /** The mask is read back as it was set, and no other flag has changed. */
  lemma FlaggedReadsBack(flags: bv32, mask: Mask)
    ensures (Flagged(flags, mask) & EFM_USER) >> EFS_USER == mask as bv32
    ensures Flagged(flags, mask) & !EFM_USER == flags & !EFM_USER
  {
    MaskFits(mask);
  }

  lemma MaskFits(mask: Mask)
    ensures ((mask as bv32) << EFS_USER) & !EFM_USER == 0
    ensures ((mask as bv32) << EFS_USER) >> EFS_USER == mask as bv32
  {
  }

  /** The event reads the mask back from its user flags, and no other flag of it or of another event
      has changed. */
  ghost predicate TellsMask(before: map<nat, bv32>, after: map<nat, bv32>, ev: nat, mask: Mask) {
    && after.Keys == before.Keys && ev in before
    && (after[ev] & EFM_USER) >> EFS_USER == mask as bv32 && after[ev] & !EFM_USER == before[ev] & !EFM_USER
    && forall e :: e in before && e != ev ==> after[e] == before[e]
  }

  /** The flag words of the event bodies, by event. */
  class EventBodies {
    var flags: map<nat, bv32>

    method SetUserFlags(ev: nat, mask: Mask)
      requires ev in flags
      modifies this
      ensures TellsMask(old(flags), flags, ev, mask)
    {
      FlaggedReadsBack(flags[ev], mask);
      flags := flags[ev := (flags[ev] & !EFM_USER) | ((mask as bv32) << EFS_USER)];
    }
  }

  class FdEventSet {
    var fdrs: seq<Fdrec>
    var updateLink: nat
    var ws: seq<Watchrec>
    var freeLink: nat
    ghost var lists: Lists
    ghost var owner: map<nat, Owner>
    ghost var updates: seq<nat>
    ghost var popped: seq<seq<nat>>
    ghost var tickets: nat

    ghost function Value(): Table
      reads this
    {
      Table(fdrs, updateLink, ws, freeLink, lists, owner, updates, popped, tickets)
    }

    ghost predicate Valid()
      reads this
    {
      TableOk(Value())
    }

    constructor ()
      ensures Valid() && lists == map[Free := []] && updates == [] && fdrs == []
    {
      fdrs, updateLink, ws, freeLink := [], LINK_SENTINEL, [], 0;
      lists, owner, updates, popped, tickets := map[Free := []], map[], [], [], 0;
      new;
      UnfoldSlots(ws, lists, owner);
    }

    method ListUpdate(fd: nat)
      requires fd < |fdrs|
      modifies this`fdrs, this`updateLink, this`updates
      ensures Value() == Marked(old(Value()), fd)
    {
      if fdrs[fd].updateLink == LINK_CLEAN {
        fdrs, updateLink := fdrs[fd := fdrs[fd].(updateLink := updateLink)], fd + 1;
        updates := [fd] + updates;
      }
    }

    /** The body of `take_watch_list`, once the fd is known to have a chain and the epoch to match. */
    method DetachFrom(fd: nat, imask: Mask, abandoned: nat -> bool) returns (head: nat, ghost u: Table)
      requires Valid() && fd < |fdrs|
      modifies this
      ensures Fd(fd) in old(lists) && fd < |u.fdrs|
      ensures var f := Wanting(old(ws), imask, abandoned);
              && u == Taken(old(Value()), fd, f, u.ws, u.fdrs[fd].whead, u.fdrs[fd].wtail)
              && head == HeadOf(Filter(old(lists)[Fd(fd)], f))
              && (head == 0 <==> Filter(old(lists)[Fd(fd)], f) == [])
      ensures Base(u) && SameWatches(old(ws), u.ws) && Value() == if head == 0 then u else Marked(u, fd)
    {
      ghost var t, f := Value(), Wanting(ws, imask, abandoned);
      ghost var list := ChainOf(t, fd);
      var vs, taken, kept, tail := SplitChain(ws, fdrs[fd].whead, imask, abandoned, list);
      TakenBase(t, fd, f, vs, kept, tail);
      HeadIsZero(vs, Filter(list, f));
      ws, fdrs, head := vs, fdrs[fd := fdrs[fd].(whead := kept, wtail := tail)], taken;
      lists, owner := Split(lists, Fd(fd), Detached(tickets), f), SplitOwner(owner, Fd(fd), Detached(tickets), f);
      tickets := tickets + 1;
      u := Value();
      if taken != 0 { ListUpdate(fd); }
    }

    /** `take_watch_list`: detach the chain's watches that satisfy the test, in order, under a new ticket. */
    method TakeWatchList(fd: nat, imask: Mask, epoch: nat, abandoned: nat -> bool) returns (head: nat, ghost ticket: Owner)
      requires Valid()
      modifies this
      ensures Valid() && SameWatches(old(ws), ws)
      ensures ticket !in old(lists) && ticket == Detached(old(tickets))
      ensures if fd >= |old(fdrs)| || old(fdrs)[fd].whead == 0 || (epoch != 0 && epoch != old(fdrs)[fd].epoch) then
                head == 0 && Value() == old(Value())
              else
                && Fd(fd) in old(lists)
                && lists == Split(old(lists), Fd(fd), ticket, Wanting(old(ws), imask, abandoned))
                && head == HeadOf(lists[ticket])
                && (forall x :: x in lists[ticket] <==> x in old(lists)[Fd(fd)] && Ripe(old(ws), x, imask, abandoned))
                && (forall x :: x in lists[Fd(fd)] <==> x in old(lists)[Fd(fd)] && !Ripe(old(ws), x, imask, abandoned))
                && updates == if lists[ticket] == [] then old(updates) else Listed(old(updates), fd)
    {
      head, ticket := 0, Detached(tickets);
      if fd >= |fdrs| { return; }
      if fdrs[fd].whead == 0 || (epoch != 0 && epoch != fdrs[fd].epoch) { return; }
      ghost var t, u := Value(), Value();
      TakesTheRipe(t, fd, imask, abandoned);
      head, u := DetachFrom(fd, imask, abandoned);
      TakenOk(t, fd, Wanting(t.ws, imask, abandoned), u.ws, u.fdrs[fd].whead, u.fdrs[fd].wtail);
    }

    /** `pop_watch_list_event`: take the event off the head of a detached list, tell it the mask it was
        triggered for, if any, and free its slot. */
    method PopWatchListEvent(wix: nat, mask: Mask, bodies: EventBodies, ghost ticket: Owner)
      returns (next: nat, ev: Option<nat>)
      requires Valid() && ticket.Detached? && ticket in lists && lists[ticket] != [] && wix == HeadOf(lists[ticket])
      requires EventAt(ws, wix).Some? ==> EventAt(ws, wix).value in bodies.flags
      modifies this, bodies
      ensures Valid() && SameBut(old(ws), ws, wix) && ev.Some? && ev == old(ws)[wix - 1].ev
      ensures Free in old(lists) && Value() == Recycled(old(Value()), ticket) && next == HeadOf(lists[ticket])
      ensures if mask == 0 then bodies.flags == old(bodies.flags) else TellsMask(old(bodies.flags), bodies.flags, ev.value, mask)
    {
      next, ev := FreeHead(wix, ticket);
      if ev.Some? && mask != 0 { bodies.SetUserFlags(ev.value, mask); }
    }

    /** The slot at the head of a detached list goes to the free list. */
    method FreeHead(wix: nat, ghost ticket: Owner) returns (next: nat, ev: Option<nat>)
      requires Valid() && ticket.Detached? && ticket in lists && lists[ticket] != [] && wix == HeadOf(lists[ticket])
      modifies this
      ensures Valid() && SameBut(old(ws), ws, wix) && ev.Some? && ev == EventAt(old(ws), wix)
      ensures Free in old(lists) && Value() == Recycled(old(Value()), ticket) && next == HeadOf(lists[ticket])
    {
      ChainFacts(Value(), ticket);
      RecycledOk(Value(), ticket);
      next, ev := ws[wix - 1].link, ws[wix - 1].ev;
      ws, freeLink := ws[wix - 1 := Watchrec(None, ws[wix - 1].mask, freeLink)], wix;
      lists, owner := MoveHead(lists, ticket, Free), owner[wix := Free];
    }

    /** One turn of the loop of `fd_close`: the head slot of the chain goes to the free list. */
    method DrainHead(fd: nat) returns (ev: Option<nat>)
      requires Base(Value()) && OthersListed(Value(), fd) && fd < |fdrs| && Fd(fd) in lists && lists[Fd(fd)] != []
      modifies this`fdrs, this`ws, this`freeLink, this`lists, this`owner
      ensures Free in old(lists) && 1 <= old(lists)[Fd(fd)][0] <= |old(ws)|
      ensures Value() == Recycled(old(Value()), Fd(fd)) && ev == EventAt(old(ws), old(lists)[Fd(fd)][0])
      ensures Base(Value()) && OthersListed(Value(), fd)
    {
      var wix := fdrs[fd].whead;
      ChainFacts(Value(), Fd(fd));
      RecycledOk(Value(), Fd(fd));
      fdrs := fdrs[fd := fdrs[fd].(whead := ws[wix - 1].link)];
      ev := ws[wix - 1].ev;
      ws, freeLink := ws[wix - 1 := Watchrec(None, ws[wix - 1].mask, freeLink)], wix;
      lists, owner := MoveHead(lists, Fd(fd), Free), owner[wix := Free];
    }

    /** The loop of `fd_close`: trigger every event on the chain and free its slots. */
    method DrainChain(fd: nat) returns (fired: seq<Option<nat>>)
      requires Valid() && fd < |fdrs|
      modifies this`fdrs, this`ws, this`freeLink, this`lists, this`owner
      ensures Base(Value()) && OthersListed(Value(), fd) && |fdrs| == |old(fdrs)|
      ensures Fd(fd) in old(lists) && Free in old(lists)
      ensures lists == DrainedLists(old(lists), Fd(fd), |old(lists)[Fd(fd)]|)
      ensures fired == EventsOf(old(ws), old(lists)[Fd(fd)]) && SameOutside(old(ws), ws, old(lists)[Fd(fd)])
      ensures forall g :: 0 <= g < |fdrs| ==> fdrs[g] == old(fdrs)[g].(whead := if g == fd then 0 else old(fdrs)[g].whead)
    {
      ghost var t, i: nat := Value(), 0;
      DrainStarts(t, fd);
      fired := [];
      while fdrs[fd].whead != 0
        invariant |fdrs| == |t.fdrs| && Base(Value()) && OthersListed(Value(), fd)
        invariant Draining(t, Value(), fd, i, fired)
        decreases |lists[Fd(fd)]|
      {
        ghost var u := Value();
        HeadMeansMore(u, fd);
        var ev := DrainHead(fd);
        DrainTurn(t, u, fd, i, fired);
        fired := fired + [ev];
        i := i + 1;
      }
      DrainEnds(t, Value(), fd, i, fired);
    }

    /** `fd_close` */
    method FdClose(fd: nat, closed: nat -> bool) returns (r: Option<(nat, nat)>, fired: seq<Option<nat>>)
      requires Valid()
      modifies this
      ensures Valid()
      ensures if fd >= |old(fdrs)| || old(fdrs)[fd].body.None? || !closed(old(fdrs)[fd].body.value) then
                r == None && fired == [] && Value() == old(Value())
              else
                && r == Some((old(fdrs)[fd].body.value, old(fdrs)[fd].epoch))
                && Fd(fd) in old(lists) && Free in old(lists)
                && fired == EventsOf(old(ws), old(lists)[Fd(fd)]) && SameOutside(old(ws), ws, old(lists)[Fd(fd)])
                && lists == DrainedLists(old(lists), Fd(fd), |old(lists)[Fd(fd)]|)
                && updates == Listed(old(updates), fd)
                && |fdrs| == |old(fdrs)| && fdrs[fd].body == None && fdrs[fd].epoch == old(fdrs)[fd].epoch + 1
    {
      r, fired := None, [];
      if fd >= |fdrs| { return; }
      if fdrs[fd].body.None? || !closed(fdrs[fd].body.value) { return; }
      fired := DrainChain(fd);
      r := Some((fdrs[fd].body.value, fdrs[fd].epoch));
      ghost var t := Value();
      var gs := fdrs[fd := fdrs[fd].(wtail := LINK_CLEAN, epoch := fdrs[fd].epoch + 1, body := None)];
      ClosedBase(t, fd, gs);
      fdrs := gs;
      MarkedOk(Value(), fd);
      ListUpdate(fd);
    }

    /** `watch_list_mask` */
    method WatchListMask(first: nat, abandoned: nat -> bool, ghost list: seq<nat>) returns (mask: Mask)
      requires Linked(ws, list) && first == HeadOf(list)
      ensures mask == MaskOf(ws, list, abandoned)
      ensures forall e :: Includes(mask, e) <==> Awaited(ws, list, abandoned, e)
      ensures mask == 0 <==> forall e :: !Awaited(ws, list, abandoned, e)
    {
      mask := 0;
      var wix := first;
      ghost var i: nat := 0;
      assert list[..0] == [];
      while wix != 0
        invariant i <= |list| && wix == (if i < |list| then list[i] else 0) && mask == MaskOf(ws, list[..i], abandoned)
        decreases |list| - i
      {
        assert LinkOf(ws, list[i]) == NextIn(list, i);
        assert list[..i + 1][..i] == list[..i];
        if ws[wix - 1].ev.Some? && !abandoned(ws[wix - 1].ev.value) { mask := mask | ws[wix - 1].mask; }
        wix, i := ws[wix - 1].link, i + 1;
      }
      assert list[..i] == list;
      MaskSaysAwaited(ws, list, abandoned);
    }

    /** `pop_update` */
    method PopUpdate(abandoned: nat -> bool) returns (r: Option<(nat, Mask, nat)>)
      requires Valid()
      modifies this`fdrs, this`updateLink, this`updates, this`popped
      ensures Valid()
      ensures r == None <==> old(updates) == []
      ensures r == None ==> Value() == old(Value())
      ensures r.Some? ==>
                var fd := old(updates)[0];
                && fd < |old(fdrs)| && Fd(fd) in old(lists) && InBounds(|ws|, old(lists)[Fd(fd)])
                && r.value.0 == fd && r.value.1 == MaskOf(ws, lists[Fd(fd)], abandoned)
                && r.value.2 == (if r.value.1 != 0 && old(fdrs)[fd].epoch < USER_EPOCH then USER_EPOCH else old(fdrs)[fd].epoch)
                && (forall e :: Includes(r.value.1, e) <==> Awaited(old(ws), old(lists)[Fd(fd)], abandoned, e))
                && (r.value.1 == 0 <==> forall e :: !Awaited(old(ws), old(lists)[Fd(fd)], abandoned, e))
                && updates == old(updates)[1..] && |fdrs| == |old(fdrs)|
                && fdrs[fd].epoch == (if r.value.1 == 0 then r.value.2 + 1 else r.value.2)
    {
      SentinelEnds(Value());
      if updateLink == LINK_SENTINEL { return None; }
      var fd := updateLink - 1;
      ghost var t := Value();
      ghost var list := ChainOf(t, fd);
      var mask := WatchListMask(fdrs[fd].whead, abandoned, list);
      var epoch := fdrs[fd].epoch;
      var later := epoch;
      if mask == 0 {
        later := epoch + 1;
      } else if epoch < USER_EPOCH {
        epoch, later := USER_EPOCH, USER_EPOCH;
      }
      PoppedOk(t, later);
      fdrs, updateLink := fdrs[fd := fdrs[fd].(updateLink := LINK_CLEAN, epoch := later)], fdrs[fd].updateLink;
      updates, popped := updates[1..], popped[fd := list];
      r := Some((fd, mask, epoch));
    }

    /** `hard_ensure`: room for the record of `fd`. */
    method HardEnsure(fd: nat)
      requires Valid() && |fdrs| <= fd <= MAX_FD
      modifies this`fdrs, this`lists, this`popped
      ensures Valid() && |fdrs| > fd && Value() == Grown(old(Value()), |fdrs|)
    {
      var capacity := NewCapacity(fd, |fdrs|);
      ghost var u := GrownTo(Value(), capacity);
      fdrs := Extended(fdrs, capacity);
      lists, popped := u.lists, u.popped;
    }

    /** A slot for a new watchrec: off the free list, or at the end of the vector. */
    method NewWatchrec(w: Watchrec) returns (wix: nat)
      requires freeLink <= |ws|
      modifies this`ws, this`freeLink
      ensures wix == if old(freeLink) != 0 then old(freeLink) else |old(ws)| + 1
      ensures ws == if old(freeLink) != 0 then old(ws)[wix - 1 := w] else old(ws) + [w]
      ensures freeLink == if old(freeLink) != 0 then old(ws)[wix - 1].link else 0
    {
      wix := freeLink;
      if wix != 0 {
        freeLink := ws[wix - 1].link;
        ws := ws[wix - 1 := w];
      } else {
        ws := ws + [w];
        wix := |ws|;
      }
    }

    /** Link slot wix at the end of the chain of fd. */
    method LinkLast(fd: nat, wix: nat)
      requires fd < |fdrs| && (fdrs[fd].whead != 0 ==> fdrs[fd].wtail <= |ws|)
      modifies this`ws, this`fdrs
      ensures var r := old(fdrs)[fd];
              && ws == SetLink(old(ws), if r.whead != 0 then r.wtail else 0, wix)
              && fdrs == old(fdrs)[fd := r.(whead := if r.whead != 0 then r.whead else wix, wtail := wix)]
    {
      if fdrs[fd].whead != 0 {
        ws := SetLink(ws, fdrs[fd].wtail, wix);
        fdrs := fdrs[fd := fdrs[fd].(wtail := wix)];
      } else {
        fdrs := fdrs[fd := fdrs[fd].(whead := wix, wtail := wix)];
      }
    }

    /** The real fields of the table once a watchrec has joined the chain. */
    method Enlink(fd: nat, w: Watchrec) returns (wix: nat)
      requires fd < |fdrs| && freeLink <= |ws| && Free in lists && Fd(fd) in lists
      requires fdrs[fd].whead != 0 ==> fdrs[fd].wtail <= |ws|
      modifies this`ws, this`freeLink, this`fdrs
      ensures var u := JoinedTable(old(Value()), fd, w); wix == NewSlot(old(Value())) && ws == u.ws && freeLink == u.freeLink && fdrs == u.fdrs
    {
      wix := NewWatchrec(w);
      LinkLast(fd, wix);
    }

    /** The end of `watch`: a watchrec for the new event joins the end of the chain. */
    method AppendWatch(fd: nat, imask: Mask, ev: nat) returns (wix: nat)
      requires Valid() && fd < |fdrs| && fd in updates
      modifies this`fdrs, this`ws, this`freeLink, this`lists, this`owner
      ensures Valid() && wix == NewSlot(old(Value()))
      ensures Free in old(lists) && Fd(fd) in old(lists) && lists == Joined(old(lists), Fd(fd), wix)
      ensures Watches(old(ws), ws, wix, ev, imask)
      ensures |fdrs| == |old(fdrs)| && fdrs[fd].body == old(fdrs)[fd].body
    {
      ghost var t := Value();
      JoinFacts(t, fd);
      var w := Watchrec(Some(ev), imask, LINK_CLEAN);
      ghost var u := JoinedOk(t, fd, w);
      wix := Enlink(fd, w);
      lists, owner := u.lists, u.owner;
      JoinedWatches(t, fd, w);
    }

    /** Make sure there is a record for `fd`. */
    method Ensure(fd: nat)
      requires Valid() && fd <= MAX_FD
      modifies this`fdrs, this`lists, this`popped
      ensures Valid() && fd < |fdrs| && Fd(fd) in lists
      ensures lists[Fd(fd)] == ChainAt(old(Value()), fd) && fdrs[fd].body == BodyAt(old(Value()), fd)
      ensures OthersKept(old(lists), lists, fd)
    {
      OldChain(Value(), fd);
      if fd >= |fdrs| { HardEnsure(fd); }
    }

    /** `fdi.body = body`, after `fd_close` if the descriptor belonged to another body. */
    method SetBody(fd: nat, body: nat, closed: nat -> bool) returns (fired: seq<Option<nat>>)
      requires Valid() && fd < |fdrs| && Fd(fd) in lists
      requires Evicted(fdrs[fd].body, body) ==> closed(fdrs[fd].body.value)
      modifies this
      ensures Valid() && |fdrs| == |old(fdrs)| && fdrs[fd].body == Some(body) && Fd(fd) in lists
      ensures fired == if Evicted(old(fdrs)[fd].body, body) then EventsOf(old(ws), old(lists)[Fd(fd)]) else []
      ensures lists[Fd(fd)] == if Evicted(old(fdrs)[fd].body, body) then [] else old(lists)[Fd(fd)]
      ensures OthersKept(old(lists), lists, fd) && SameOutside(old(ws), ws, old(lists)[Fd(fd)])
      ensures !Evicted(old(fdrs)[fd].body, body) ==> ws == old(ws)
    {
      fired := [];
      if fdrs[fd].body != Some(body) {
        if fdrs[fd].body.Some? {
          var r;
          r, fired := FdClose(fd, closed);
        }
        var gs := fdrs[fd := fdrs[fd].(body := Some(body))];
        BodyChanged(Value(), gs);
        fdrs := gs;
      }
    }

    /** The end of `watch`, from the update list on. */
    method MarkAndAppend(fd: nat, imask: Mask, ev: nat) returns (wix: nat)
      requires Valid() && fd < |fdrs| && Fd(fd) in lists
      modifies this
      ensures Valid() && fd < |fdrs| && fdrs[fd].body == old(fdrs)[fd].body && fd in updates
      ensures wix == NewSlot(old(Value())) && Watches(old(ws), ws, wix, ev, imask)
      ensures Free in old(lists) && lists == Joined(old(lists), Fd(fd), wix) && lists[Fd(fd)] == old(lists)[Fd(fd)] + [wix]
    {
      MarkedChain(Value(), fd);
      ListUpdate(fd);
      wix := AppendWatch(fd, imask, ev);
    }

    /** `watch`: wait for the fdevents in `imask` on `fd`. `wix` is 0 when the event cannot happen. */
    method Watch(fd: int, imask: Mask, body: nat, ev: nat, closed: nat -> bool) returns (wix: nat, fired: seq<Option<nat>>)
      requires Valid() && fd <= MAX_FD
      requires fd >= 0 && Evicted(BodyAt(Value(), fd), body) ==> closed(BodyAt(Value(), fd).value)
      modifies this
      ensures Valid()
      ensures fd < 0 || imask == 0 ==> wix == 0 && fired == [] && Value() == old(Value())
      ensures fd >= 0 && imask != 0 ==>
                var t := old(Value());
                && fd < |fdrs| && fdrs[fd].body == Some(body) && fd in updates && Fd(fd) in lists
                && fired == (if Evicted(BodyAt(t, fd), body) then EventsOf(t.ws, ChainAt(t, fd)) else [])
                && lists[Fd(fd)] == (if Evicted(BodyAt(t, fd), body) then [] else ChainAt(t, fd)) + [wix]
                && 1 <= wix <= |ws| && ws[wix - 1].ev == Some(ev) && ws[wix - 1].mask == imask
                && OthersKept(t.lists, lists, fd) && |t.ws| <= |ws|
                && forall k :: 0 <= k < |t.ws| && k + 1 != wix && (k + 1 !in ChainAt(t, fd) || !Evicted(BodyAt(t, fd), body)) ==>
                     ws[k].ev == t.ws[k].ev && ws[k].mask == t.ws[k].mask
    {
      wix, fired := 0, [];
      if fd < 0 || imask == 0 { return; }
      Ensure(fd);
      fired := SetBody(fd, body, closed);
      wix := MarkAndAppend(fd, imask, ev);
    }

    /** `active_watch_count` */
    method ActiveWatchCount() returns (n: nat)
      requires Valid()
      ensures n == |InUse(owner)|
    {
      FreeCount(Value());
      ChainFacts(Value(), Free);
      n := |ws|;
      var wix := freeLink;
      ghost var i: nat, list := 0, lists[Free];
      while wix != 0
        invariant i <= |list| && wix == (if i < |list| then list[i] else 0) && n == |ws| - i
        decreases |list| - i
      {
        assert LinkOf(ws, list[i]) == NextIn(list, i);
        n, wix, i := n - 1, ws[wix - 1].link, i + 1;
      }
    }
  }

  lemma OldChain(t: Table, fd: nat)
    requires TableOk(t)
    ensures fd < |t.fdrs| ==> Fd(fd) in t.lists
    ensures fd >= |t.fdrs| ==> Fd(fd) !in t.lists
  {
    if fd < |t.fdrs| { HeadMeansMore(t, fd); }
  }

  lemma BodyChanged(t: Table, gs: seq<Fdrec>)
    requires TableOk(t) && |gs| == |t.fdrs|
    requires forall f :: 0 <= f < |gs| ==> gs[f] == t.fdrs[f].(body := gs[f].body)
    ensures TableOk(t.(fdrs := gs))
  {
    UpdatesElsewhere(t.fdrs, t.updateLink, t.updates, gs);
    HeadsElsewhere(t.freeLink, t.fdrs, t.lists, t.tickets, gs);
  }

  lemma MarkedChain(t: Table, fd: nat)
    requires TableOk(t) && fd < |t.fdrs|
    ensures TableOk(Marked(t, fd)) && fd in Marked(t, fd).updates && Marked(t, fd).fdrs[fd].body == t.fdrs[fd].body
  {
    MarkedOk(t, fd);
    InListed(t.updates, fd);
  }

  /** The slots of a list, as a set: as many as the list is long, since it repeats none. */
  function SlotSet(list: seq<nat>): (r: set<nat>)
    requires NoDup(list)
    ensures |r| == |list| && forall x :: x in r <==> x in list
  {
    if list == [] then {} else
      var n := |list| - 1;
      assert list == list[..n] + [list[n]];
      assert list[n] !in list[..n];
      SlotSet(list[..n]) + {list[n]}
  }

  function UpTo(n: nat): (r: set<nat>)
    ensures |r| == n && forall x: nat :: x in r <==> 1 <= x <= n
  {
    if n == 0 then {} else UpTo(n - 1) + {n}
  }

  lemma FreeMembers(t: Table, x: nat)
    requires Base(t)
    ensures Free in t.lists && NoDup(t.lists[Free]) && (x in t.owner <==> 1 <= x <= |t.ws|)
    ensures x in t.lists[Free] <==> x in t.owner && t.owner[x] == Free
  {
    UnfoldSlots(t.ws, t.lists, t.owner);
    if x in t.lists[Free] {
      var k :| 0 <= k < |t.lists[Free]| && t.lists[Free][k] == x;
    }
  }

  /** The slots that are not free are as many as the slots less the length of the free list. */
  lemma FreeCount(t: Table)
    requires Base(t)
    ensures Free in t.lists && |InUse(t.owner)| == |t.ws| - |t.lists[Free]|
  {
    FreeMembers(t, 0);
    forall x: nat ensures (x in t.owner <==> 1 <= x <= |t.ws|) && (x in t.lists[Free] <==> x in t.owner && t.owner[x] == Free) {
      FreeMembers(t, x);
    }
    FreeAndUsed(t.owner, t.lists[Free], |t.ws|);
  }

  lemma FreeAndUsed(owner: map<nat, Owner>, list: seq<nat>, n: nat)
    requires NoDup(list) && (forall x :: x in owner <==> 1 <= x <= n)
    requires forall x :: x in list <==> x in owner && owner[x] == Free
    ensures |InUse(owner)| == n - |list|
  {
    DisjointCounts(SlotSet(list), InUse(owner), UpTo(n));
  }

  lemma DisjointCounts(a: set<nat>, b: set<nat>, c: set<nat>)
    requires a !! b && forall x: nat :: x in a + b <==> x in c
    ensures |c| == |a| + |b|
  {
    assert a + b == c;
    assert |a + b| == |a| + |b|;
  }

  /** Slot x has become a watch for these fdevents; the other slots watch for what they did. */
  ghost predicate Watches(ws: seq<Watchrec>, vs: seq<Watchrec>, x: nat, ev: nat, mask: Mask) {
    && 1 <= x <= |vs| && |ws| <= |vs| && vs[x - 1].ev == Some(ev) && vs[x - 1].mask == mask
    && forall k :: 0 <= k < |ws| && k != x - 1 ==> vs[k].ev == ws[k].ev && vs[k].mask == ws[k].mask
  }

  lemma JoinedWatches(t: Table, fd: nat, w: Watchrec)
    requires Base(t) && fd < |t.fdrs| && w.ev.Some?
    ensures Free in t.lists && Fd(fd) in t.lists && t.freeLink <= |t.ws| && (t.fdrs[fd].whead != 0 ==> t.fdrs[fd].wtail <= |t.ws|)
    ensures Watches(t.ws, JoinedTable(t, fd, w).ws, NewSlot(t), w.ev.value, w.mask)
  {
    JoinFacts(t, fd);
  }

  /** The smallest sufficient size: whole blocks for large descriptors, else doubling. */
  method NewCapacity(fd: nat, capacity: nat) returns (m: nat)
    requires capacity <= fd <= MAX_FD
    ensures fd < m <= MAX_FD + BLOCK_CAPACITY
    ensures fd >= BLOCK_CAPACITY ==> m % BLOCK_CAPACITY == 0 && m <= fd + BLOCK_CAPACITY
    ensures fd < BLOCK_CAPACITY ==> m >= FIRST_CAPACITY && m >= 2 * capacity && m <= Max(FIRST_CAPACITY, 2 * fd)
  {
    if fd >= BLOCK_CAPACITY {
      m := (fd / BLOCK_CAPACITY + 1) * BLOCK_CAPACITY;
    } else {
      m := Max(FIRST_CAPACITY, capacity * 2);
      while fd >= m
        invariant FIRST_CAPACITY <= m && 2 * capacity <= m <= Max(FIRST_CAPACITY, 2 * fd)
        decreases fd - m
      {
        m := m * 2;
      }
    }
  }

  lemma SentinelEnds(t: Table)
    requires TableOk(t)
    ensures t.updateLink == LINK_SENTINEL <==> t.updates == []
    ensures t.updates != [] ==> t.updateLink == t.updates[0] + 1 && t.updates[0] < |t.fdrs|
  {
  }

  lemma ClosedBase(t: Table, fd: nat, gs: seq<Fdrec>)
    requires Base(t) && OthersListed(t, fd) && fd < |t.fdrs| && Fd(fd) in t.lists && t.lists[Fd(fd)] == []
    requires gs == t.fdrs[fd := t.fdrs[fd].(wtail := LINK_CLEAN, epoch := t.fdrs[fd].epoch + 1, body := None)]
    ensures Base(t.(fdrs := gs)) && OthersListed(t.(fdrs := gs), fd)
  {
    UpdatesElsewhere(t.fdrs, t.updateLink, t.updates, gs);
    forall f | 0 <= f < |gs|
      ensures Fd(f) in t.lists && gs[f].whead == HeadOf(t.lists[Fd(f)])
      ensures t.lists[Fd(f)] != [] ==> gs[f].wtail == LastOf(t.lists[Fd(f)])
    {
      assert Fd(f) in t.lists;
    }
  }

  /** From table t, the first i slots of the chain have been freed and their events fired; kept folded. */
  ghost predicate Draining(t: Table, u: Table, fd: nat, i: nat, fired: seq<Option<nat>>) {
    Fd(fd) in u.lists && forall n {:trigger Unfold(n)} :: Unfold(n) ==> Drained(t, u, fd, i, fired)
  }

  ghost predicate Drained(t: Table, u: Table, fd: nat, i: nat, fired: seq<Option<nat>>) {
    && Fd(fd) in t.lists && Free in t.lists && fd < |t.fdrs| == |u.fdrs| && NoDup(t.lists[Fd(fd)])
    && i <= |t.lists[Fd(fd)]| && u.lists == DrainedLists(t.lists, Fd(fd), i)
    && fired == EventsOf(t.ws, t.lists[Fd(fd)][..i]) && SameOutside(t.ws, u.ws, t.lists[Fd(fd)])
    && (forall k :: i <= k < |t.lists[Fd(fd)]| ==> EventAt(u.ws, t.lists[Fd(fd)][k]) == EventAt(t.ws, t.lists[Fd(fd)][k]))
    && (forall g :: 0 <= g < |u.fdrs| ==> u.fdrs[g] == t.fdrs[g].(whead := if g == fd then u.fdrs[g].whead else t.fdrs[g].whead))
  }

  lemma DrainStarts(t: Table, fd: nat)
    requires TableOk(t) && fd < |t.fdrs|
    ensures Draining(t, t, fd, 0, [])
  {
    var list := ChainOf(t, fd);
    HeadMeansMore(t, fd);
    DrainNone(t.lists, Fd(fd));
    assert list[..0] == [];
  }

  lemma DrainTurn(t: Table, u: Table, fd: nat, i: nat, fired: seq<Option<nat>>)
    requires Base(u) && Draining(t, u, fd, i, fired) && u.lists[Fd(fd)] != []
    ensures Free in u.lists && 1 <= u.lists[Fd(fd)][0] <= |u.ws|
    ensures Draining(t, Recycled(u, Fd(fd)), fd, i + 1, fired + [EventAt(u.ws, u.lists[Fd(fd)][0])])
  {
    ChainFacts(u, Fd(fd));
    if Unfold(0) { DrainedTurn(t, u, fd, i, fired); }
  }

  lemma DrainedTurn(t: Table, u: Table, fd: nat, i: nat, fired: seq<Option<nat>>)
    requires Fd(fd) in u.lists && Free in u.lists && Drained(t, u, fd, i, fired) && u.lists[Fd(fd)] != []
    requires 1 <= u.lists[Fd(fd)][0] <= |u.ws|
    ensures Drained(t, Recycled(u, Fd(fd)), fd, i + 1, fired + [EventAt(u.ws, u.lists[Fd(fd)][0])])
  {
    DrainStep(t, u, Fd(fd), i);
    DrainedRest(t, u, fd, i);
  }

  lemma DrainedRest(t: Table, u: Table, fd: nat, i: nat)
    requires Fd(fd) in t.lists && i < |t.lists[Fd(fd)]| && NoDup(t.lists[Fd(fd)])
    requires Fd(fd) in u.lists && Free in u.lists && u.lists[Fd(fd)] != [] && u.lists[Fd(fd)][0] == t.lists[Fd(fd)][i]
    requires 1 <= u.lists[Fd(fd)][0] <= |u.ws|
    requires SameOutside(t.ws, u.ws, t.lists[Fd(fd)])
    requires forall k :: i <= k < |t.lists[Fd(fd)]| ==> EventAt(u.ws, t.lists[Fd(fd)][k]) == EventAt(t.ws, t.lists[Fd(fd)][k])
    ensures SameOutside(t.ws, Recycled(u, Fd(fd)).ws, t.lists[Fd(fd)])
    ensures forall k :: i < k < |t.lists[Fd(fd)]| ==>
              EventAt(Recycled(u, Fd(fd)).ws, t.lists[Fd(fd)][k]) == EventAt(t.ws, t.lists[Fd(fd)][k])
  {
    assert t.lists[Fd(fd)][i] in t.lists[Fd(fd)];
  }

  lemma DrainEnds(t: Table, u: Table, fd: nat, i: nat, fired: seq<Option<nat>>)
    requires Base(u) && Draining(t, u, fd, i, fired) && fd < |u.fdrs| && u.fdrs[fd].whead == 0
    ensures Fd(fd) in t.lists && Drained(t, u, fd, |t.lists[Fd(fd)]|, fired) && t.lists[Fd(fd)][..|t.lists[Fd(fd)]|] == t.lists[Fd(fd)]
  {
    HeadMeansMore(u, fd);
    if Unfold(0) { DrainedOut(t, u, fd, i, fired); }
  }

  lemma DrainedOut(t: Table, u: Table, fd: nat, i: nat, fired: seq<Option<nat>>)
    requires Drained(t, u, fd, i, fired) && Fd(fd) in u.lists && u.lists[Fd(fd)] == []
    ensures i == |t.lists[Fd(fd)]| && t.lists[Fd(fd)][..i] == t.lists[Fd(fd)]
  {
    assert u.lists[Fd(fd)] == t.lists[Fd(fd)][i..];
  }

  /** The head link of an fd's chain is clean exactly when the chain is empty. */
  lemma HeadMeansMore(t: Table, fd: nat)
    requires Base(t) && fd < |t.fdrs|
    ensures Fd(fd) in t.lists && Free in t.lists && t.fdrs[fd].whead == HeadOf(t.lists[Fd(fd)])
    ensures t.fdrs[fd].whead == 0 <==> t.lists[Fd(fd)] == []
  {
    ChainFacts(t, Fd(fd));
  }

  lemma ChainOf(t: Table, fd: nat) returns (list: seq<nat>)
    requires TableOk(t) && fd < |t.fdrs|
    ensures Fd(fd) in t.lists && list == t.lists[Fd(fd)] && Linked(t.ws, list) && NoDup(list) && t.fdrs[fd].whead == HeadOf(list)
    ensures Detached(t.tickets) !in t.lists
  {
    list := t.lists[Fd(fd)];
    UnfoldSlots(t.ws, t.lists, t.owner);
  }
}
