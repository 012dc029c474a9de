/** Singly linked lists threaded through one vector (cotamer/event_handle.hh:94-145): list values,
    and the partition of the vector's slots among them. */
module WatchLists {
  import opened Options

  /** fdevent: bit 0 read, bit 1 write, bit 2 close. */
  type Mask = bv3

  datatype Event = Read | Write | Close

  function BitOf(e: Event): Mask {
    match e
    case Read => 1
    case Write => 2
    case Close => 4
  }

  predicate Includes(mask: Mask, e: Event) {
    mask & BitOf(e) != 0
  }

  lemma MaskIsItsEvents(a: Mask, b: Mask)
    ensures forall e :: Includes(a | b, e) <==> Includes(a, e) || Includes(b, e)
    ensures a & b != 0 <==> exists e :: Includes(a, e) && Includes(b, e)
    ensures a != 0 <==> exists e :: Includes(a, e)
    ensures a == b <==> forall e :: Includes(a, e) <==> Includes(b, e)
  {
    forall e ensures Includes(a | b, e) <==> Includes(a, e) || Includes(b, e) { }
    assert Includes(a, Read) <==> a & 1 != 0;
    assert Includes(a, Write) <==> a & 2 != 0;
    assert Includes(a, Close) <==> a & 4 != 0;
    assert Includes(b, Read) <==> b & 1 != 0;
    assert Includes(b, Write) <==> b & 2 != 0;
    assert Includes(b, Close) <==> b & 4 != 0;
  }

  datatype Watchrec = Watchrec(ev: Option<nat>, mask: Mask, link: nat)

  /** Who a slot belongs to: the free list, the chain of a file descriptor, or a chain that
      `take_watch_list` has detached. */
  datatype Owner = Free | Fd(fd: nat) | Detached(ticket: nat)

  type Lists = map<Owner, seq<nat>>

  function HeadOf(list: seq<nat>): nat {
    if list == [] then 0 else list[0]
  }

  function LastOf(list: seq<nat>): nat {
    if list == [] then 0 else list[|list| - 1]
  }

  ghost predicate NoDup(list: seq<nat>) {
    forall i, j :: 0 <= i < j < |list| ==> list[i] != list[j]
  }

  ghost predicate InBounds(n: nat, list: seq<nat>) {
    forall k :: 0 <= k < |list| ==> 1 <= list[k] <= n
  }

  function LinkOf(ws: seq<Watchrec>, x: nat): nat
    requires 1 <= x <= |ws|
  {
    ws[x - 1].link
  }

  function NextIn(list: seq<nat>, k: nat): nat {
    if k + 1 < |list| then list[k + 1] else 0
  }

  /** Following the links visits `list` and ends. Links are slot numbers from 1; 0 ends. */
  ghost predicate Linked(ws: seq<Watchrec>, list: seq<nat>) {
    && InBounds(|ws|, list)
    && forall k {:trigger LinkOf(ws, list[k])} :: 0 <= k < |list| ==> LinkOf(ws, list[k]) == NextIn(list, k)
  }

  /** Every slot 1..n is in exactly one list, and once. */
  ghost predicate Partition(n: nat, lists: Lists, owner: map<nat, Owner>) {
    && (forall x :: x in owner <==> 1 <= x <= n)
    && (forall x :: x in owner ==> owner[x] in lists && x in lists[owner[x]])
    && (forall o, i :: o in lists && 0 <= i < |lists[o]| ==> lists[o][i] in owner && owner[lists[o][i]] == o)
    && (forall o :: o in lists ==> NoDup(lists[o]))
  }

  /** Two lists of a partition share no slot. */
  lemma PartsAreApart(n: nat, lists: Lists, owner: map<nat, Owner>, o: Owner, p: Owner, i: nat, j: nat)
    requires Partition(n, lists, owner) && o in lists && p in lists && i < |lists[o]| && j < |lists[p]|
    ensures lists[o][i] == lists[p][j] <==> o == p && i == j
  {
  }

  // ----- moving the head of one list to the front of another -----

  function MoveHead(lists: Lists, o: Owner, p: Owner): Lists
    requires o in lists && p in lists && lists[o] != []
  {
    lists[o := lists[o][1..]][p := [lists[o][0]] + lists[p]]
  }

  lemma MoveHeadPartition(n: nat, lists: Lists, owner: map<nat, Owner>, o: Owner, p: Owner)
    requires Partition(n, lists, owner) && o in lists && p in lists && o != p && lists[o] != []
    ensures Partition(n, MoveHead(lists, o, p), owner[lists[o][0] := p])
  {
    var x := lists[o][0];
    var moved := MoveHead(lists, o, p);
    var owned := owner[x := p];
    forall y | y in owned ensures owned[y] in moved && y in moved[owned[y]] {
      if y == x {
        assert moved[p][0] == x;
      } else {
        var k :| 0 <= k < |lists[owner[y]]| && lists[owner[y]][k] == y;
        if owner[y] == o {
          assert moved[o][k - 1] == y;
        } else if owner[y] == p {
          assert moved[p][k + 1] == y;
        }
      }
    }
    forall q, i | q in moved && 0 <= i < |moved[q]| ensures moved[q][i] in owned && owned[moved[q][i]] == q {
      if q == o {
        assert moved[q][i] == lists[o][i + 1];
      } else if q == p && i > 0 {
        assert moved[q][i] == lists[p][i - 1];
      }
    }
    forall q | q in moved ensures NoDup(moved[q]) {
      assert NoDup(lists[q]);
      if q == p {
        forall i | 0 <= i < |lists[p]| ensures lists[p][i] != x { PartsAreApart(n, lists, owner, o, p, 0, i); }
      }
    }
  }

  // ----- moving the head of the free list to the end of a chain -----

  function Append(lists: Lists, p: Owner, x: nat): Lists
    requires p in lists
  {
    lists[p := lists[p] + [x]]
  }

  function Behead(lists: Lists, o: Owner): Lists
    requires o in lists && lists[o] != []
  {
    lists[o := lists[o][1..]]
  }

  lemma ReusePartition(n: nat, lists: Lists, owner: map<nat, Owner>, o: Owner, p: Owner)
    requires Partition(n, lists, owner) && o in lists && p in lists && o != p && lists[o] != []
    ensures Partition(n, Append(Behead(lists, o), p, lists[o][0]), owner[lists[o][0] := p])
  {
    var x := lists[o][0];
    var moved := Append(Behead(lists, o), p, x);
    var owned := owner[x := p];
    forall y | y in owned ensures owned[y] in moved && y in moved[owned[y]] {
      if y == x {
        assert moved[p][|lists[p]|] == x;
      } else {
        var k :| 0 <= k < |lists[owner[y]]| && lists[owner[y]][k] == y;
        if owner[y] == o {
          assert moved[o][k - 1] == y;
        } else {
          assert moved[owner[y]][k] == y;
        }
      }
    }
    forall q, i | q in moved && 0 <= i < |moved[q]| ensures moved[q][i] in owned && owned[moved[q][i]] == q {
      if q == o {
        assert moved[q][i] == lists[o][i + 1];
      } else if q == p && i < |lists[p]| {
        assert moved[q][i] == lists[p][i];
      }
    }
    forall q | q in moved ensures NoDup(moved[q]) {
      assert NoDup(lists[q]);
      if q == p {
        forall i | 0 <= i < |lists[p]| ensures lists[p][i] != x { PartsAreApart(n, lists, owner, o, p, 0, i); }
      }
    }
  }

  /** A new slot at the end of the vector joins a chain. */
  lemma GrowPartition(n: nat, lists: Lists, owner: map<nat, Owner>, p: Owner)
    requires Partition(n, lists, owner) && p in lists
    ensures Partition(n + 1, Append(lists, p, n + 1), owner[n + 1 := p])
  {
    var grown := Append(lists, p, n + 1);
    var owned := owner[n + 1 := p];
    forall y | y in owned ensures owned[y] in grown && y in grown[owned[y]] {
      if y == n + 1 {
        assert grown[p][|lists[p]|] == y;
      } else {
        var k :| 0 <= k < |lists[owner[y]]| && lists[owner[y]][k] == y;
        assert grown[owner[y]][k] == y;
      }
    }
    forall q | q in grown ensures NoDup(grown[q]) {
      assert NoDup(lists[q]);
    }
  }

  // ----- splitting a chain -----

  /** The slots of `list` that satisfy `f`, in order. */
  function Filter(list: seq<nat>, f: nat -> bool): (r: seq<nat>)
    ensures |r| <= |list|
  {
    if list == [] then [] else
      var n := |list| - 1;
      Filter(list[..n], f) + if f(list[n]) then [list[n]] else []
  }

  lemma {:induction false} FilterKeeps(list: seq<nat>, f: nat -> bool)
    ensures forall x :: x in Filter(list, f) <==> x in list && f(x)
    ensures NoDup(list) ==> NoDup(Filter(list, f))
  {
    if list != [] {
      var n := |list| - 1;
      FilterKeeps(list[..n], f);
      assert list == list[..n] + [list[n]];
      if NoDup(list) {
        assert forall x :: x in list[..n] ==> x != list[n];
      }
    }
  }

  lemma FilterNext(list: seq<nat>, i: nat, f: nat -> bool)
    requires i < |list|
    ensures Filter(list[..i + 1], f) == Filter(list[..i], f) + if f(list[i]) then [list[i]] else []
  {
    assert list[..i + 1][..i] == list[..i];
  }

  function Not(f: nat -> bool): nat -> bool {
    (x: nat) => !f(x)
  }

  function Split(lists: Lists, o: Owner, p: Owner, f: nat -> bool): Lists
    requires o in lists
  {
    lists[o := Filter(lists[o], Not(f))][p := Filter(lists[o], f)]
  }

  function SplitOwner(owner: map<nat, Owner>, o: Owner, p: Owner, f: nat -> bool): map<nat, Owner> {
    map x | x in owner :: if owner[x] == o && f(x) then p else owner[x]
  }

  lemma SplitPartition(n: nat, lists: Lists, owner: map<nat, Owner>, o: Owner, p: Owner, f: nat -> bool)
    requires Partition(n, lists, owner) && o in lists && p !in lists
    ensures Partition(n, Split(lists, o, p, f), SplitOwner(owner, o, p, f))
  {
    var split := Split(lists, o, p, f);
    var owned := SplitOwner(owner, o, p, f);
    FilterKeeps(lists[o], f);
    FilterKeeps(lists[o], Not(f));
    forall y | y in owned ensures owned[y] in split && y in split[owned[y]] {
      assert y in lists[owner[y]];
    }
    forall q, i | q in split && 0 <= i < |split[q]| ensures split[q][i] in owned && owned[split[q][i]] == q {
      var y := split[q][i];
      assert y in split[q];
      if q == p || q == o {
        var k :| 0 <= k < |lists[o]| && lists[o][k] == y;
      }
    }
    forall q | q in split ensures NoDup(split[q]) {
      assert NoDup(lists[o]);
      if q != p { assert NoDup(lists[q]); }
    }
  }
}
