/** What transforming preserves: the meaning of two concurrent operations, and exactly when both orders agree. */
module DocDiamond {
  import opened Options
  import opened DocOps
  import opened DocEdits

  // ----- what two concurrent operations mean -----

  predicate InRange(doc: string, op: Op) {
    match op
    case Insert(p, _) => p <= |doc|
    case Delete(p, l) => p + l <= |doc|
  }

  predicate Deletes(op: Op, i: nat) {
    op.Delete? && op.pos <= i < op.pos + op.len
  }

  /** The text `x` inserts in front of position i, unless that point is strictly inside what `y` deletes. */
  function Inserts(x: Op, y: Op, i: nat): string {
    if x.Insert? && x.pos == i && !(y.Delete? && y.pos < i < y.pos + y.len) then x.text else ""
  }

  function Here(a: Op, b: Op, i: nat): string {
    Inserts(a, b, i) + Inserts(b, a, i)
  }

  function Left(doc: string, a: Op, b: Op, i: nat): string
    requires i < |doc|
  {
    if Deletes(a, i) || Deletes(b, i) then "" else [doc[i]]
  }

  /** The intended result, read off the original document from position i on: in front of every
      character what `a` and then `b` insert there, and of the characters those that neither deletes. */
  function Woven(doc: string, a: Op, b: Op, i: nat): string
    requires i <= |doc|
    decreases |doc| - i
  {
    if i == |doc| then Here(a, b, i) else Here(a, b, i) + (Left(doc, a, b, i) + Woven(doc, a, b, i + 1))
  }

  ghost predicate KeyOfWeaves(doc: string, a: Op, b: Op, i: nat, n: nat) {
    true
  }

  /** `Woven` from position i on is `r`, folded as the facts about edits are. */
  ghost predicate Weaves(doc: string, a: Op, b: Op, i: nat, r: string)
    requires i <= |doc|
  {
    forall n {:trigger KeyOfWeaves(doc, a, b, i, n)} :: KeyOfWeaves(doc, a, b, i, n) ==> Woven(doc, a, b, i) == r
  }

  lemma IsWoven(doc: string, a: Op, b: Op, i: nat, r: string)
    requires i <= |doc| && Weaves(doc, a, b, i, r)
    ensures Woven(doc, a, b, i) == r
  {
    assert KeyOfWeaves(doc, a, b, i, 0);
  }

  lemma End(doc: string, a: Op, b: Op, h: string)
    requires h == Here(a, b, |doc|)
    ensures Weaves(doc, a, b, |doc|, h)
  {
  }

  lemma KeptOne(doc: string, a: Op, b: Op, i: nat, h: string, r: string)
    requires i < |doc| && h == Here(a, b, i) && !Deletes(a, i) && !Deletes(b, i) && Weaves(doc, a, b, i + 1, r)
    ensures Weaves(doc, a, b, i, h + (doc[i..i + 1] + r))
  {
    IsWoven(doc, a, b, i + 1, r);
    assert doc[i..i + 1] == [doc[i]];
  }

  lemma GoneOne(doc: string, a: Op, b: Op, i: nat, h: string, r: string)
    requires i < |doc| && h == Here(a, b, i) && (Deletes(a, i) || Deletes(b, i)) && Weaves(doc, a, b, i + 1, r)
    ensures Weaves(doc, a, b, i, h + r)
  {
    IsWoven(doc, a, b, i + 1, r);
    Empty(r);
  }

  lemma Joined(doc: string, i: nat, j: nat, r: string)
    requires i < j <= |doc|
    ensures doc[i..j - 1] + ("" + (doc[j - 1..j] + r)) == doc[i..j] + r
  {
    Empty(doc[j - 1..j] + r);
    Assoc(doc[i..j - 1], doc[j - 1..j], r);
    assert doc[i..j - 1] + doc[j - 1..j] == doc[i..j];
  }

  /** A stretch nobody deletes and nobody inserts into comes through as it is ... */
  lemma {:induction false} Kept(doc: string, a: Op, b: Op, i: nat, j: nat, h: string, r: string)
    requires i < j <= |doc| && h == Here(a, b, i) && Weaves(doc, a, b, j, r)
    requires forall k :: i <= k < j ==> !Deletes(a, k) && !Deletes(b, k)
    requires forall k :: i < k < j ==> Here(a, b, k) == ""
    ensures Weaves(doc, a, b, i, h + (doc[i..j] + r))
    decreases j - i
  {
    if i + 1 == j {
      KeptOne(doc, a, b, i, h, r);
    } else {
      KeptOne(doc, a, b, j - 1, "", r);
      Kept(doc, a, b, i, j - 1, h, "" + (doc[j - 1..j] + r));
      Joined(doc, i, j, r);
    }
  }

  /** ... and a deleted stretch leaves only what is inserted at its start. */
  lemma {:induction false} Gone(doc: string, a: Op, b: Op, i: nat, j: nat, h: string, r: string)
    requires i < j <= |doc| && h == Here(a, b, i) && Weaves(doc, a, b, j, r)
    requires forall k :: i <= k < j ==> Deletes(a, k) || Deletes(b, k)
    requires forall k :: i < k < j ==> Here(a, b, k) == ""
    ensures Weaves(doc, a, b, i, h + r)
    decreases j - i
  {
    if i + 1 == j {
      GoneOne(doc, a, b, i, h, r);
    } else {
      GoneOne(doc, a, b, j - 1, "", r);
      Empty(r);
      Gone(doc, a, b, i, j - 1, h, r);
    }
  }

  // The same with empty stretches allowed and nothing inserted at their start.

  lemma Passed(doc: string, a: Op, b: Op, i: nat, j: nat, r: string)
    requires i <= j <= |doc| && Weaves(doc, a, b, j, r)
    requires forall k :: i <= k < j ==> !Deletes(a, k) && !Deletes(b, k) && Here(a, b, k) == ""
    ensures Weaves(doc, a, b, i, doc[i..j] + r)
  {
    if i < j {
      Kept(doc, a, b, i, j, "", r);
      Empty(doc[i..j] + r);
    } else {
      Nothing(doc, i);
      Empty(r);
    }
  }

  lemma Dropped(doc: string, a: Op, b: Op, i: nat, j: nat, r: string)
    requires i <= j <= |doc| && Weaves(doc, a, b, j, r)
    requires forall k :: i <= k < j ==> (Deletes(a, k) || Deletes(b, k)) && Here(a, b, k) == ""
    ensures Weaves(doc, a, b, i, r)
  {
    if i < j {
      Gone(doc, a, b, i, j, "", r);
      Empty(r);
    }
  }

  lemma Back(doc: string, a: Op, b: Op, i: nat, h: string)
    requires i <= |doc| && h == Here(a, b, i)
    requires forall k :: i <= k < |doc| ==> !Deletes(a, k) && !Deletes(b, k)
    requires forall k :: i < k <= |doc| ==> Here(a, b, k) == ""
    ensures Weaves(doc, a, b, i, h + doc[i..])
  {
    if i < |doc| {
      End(doc, a, b, "");
      Kept(doc, a, b, i, |doc|, h, "");
      Empty(doc[i..]);
    } else {
      End(doc, a, b, h);
      Empty(h);
    }
  }

  lemma BackPlain(doc: string, a: Op, b: Op, i: nat)
    requires i <= |doc|
    requires forall k :: i <= k < |doc| ==> !Deletes(a, k) && !Deletes(b, k)
    requires forall k :: i <= k <= |doc| ==> Here(a, b, k) == ""
    ensures Weaves(doc, a, b, i, doc[i..])
  {
    Back(doc, a, b, i, "");
    Empty(doc[i..]);
  }

  lemma Front(doc: string, a: Op, b: Op, i: nat, r: string)
    requires i <= |doc| && Weaves(doc, a, b, i, r)
    requires forall k :: 0 <= k < i ==> !Deletes(a, k) && !Deletes(b, k) && Here(a, b, k) == ""
    ensures Weaves(doc, a, b, 0, doc[..i] + r)
  {
    Passed(doc, a, b, 0, i, r);
  }

  // ----- the intended result of every pairing -----

  predicate Pair(a: Op, b: Op, x: Op, y: Op) {
    (a == x && b == y) || (a == y && b == x)
  }

  lemma HereOfInsert(a: Op, b: Op, p: nat, t: string, q: nat, l: nat, i: nat)
    requires Pair(a, b, Insert(p, t), Delete(q, l))
    ensures Here(a, b, i) == if i == p && !(q < p < q + l) then t else ""
  {
    Empty(t);
  }

  lemma HereOfDeletes(a: Op, b: Op, i: nat)
    requires a.Delete? && b.Delete?
    ensures Here(a, b, i) == ""
  {
  }

  /** `x` is the insert whose text comes first. */
  lemma WovenInserts(doc: string, a: Op, b: Op, x: Op, y: Op)
    requires a.Insert? && b.Insert? && InRange(doc, a) && InRange(doc, b)
    requires (x == a && y == b && a.pos <= b.pos) || (x == b && y == a && b.pos < a.pos)
    ensures Weaves(doc, a, b, 0, doc[..x.pos] + (x.text + (doc[x.pos..y.pos] + (y.text + doc[y.pos..]))))
  {
    Empty(x.text);
    Empty(y.text);
    if x.pos < y.pos {
      Back(doc, a, b, y.pos, y.text);
      Kept(doc, a, b, x.pos, y.pos, x.text, y.text + doc[y.pos..]);
      Front(doc, a, b, x.pos, x.text + (doc[x.pos..y.pos] + (y.text + doc[y.pos..])));
    } else {
      Back(doc, a, b, x.pos, x.text + y.text);
      Front(doc, a, b, x.pos, x.text + y.text + doc[y.pos..]);
      Assoc(x.text, y.text, doc[y.pos..]);
      Nothing(doc, x.pos);
      Empty(y.text + doc[y.pos..]);
    }
  }

  lemma WovenInsertFirst(doc: string, a: Op, b: Op, p: nat, t: string, q: nat, l: nat)
    requires p <= q && q + l <= |doc| && Pair(a, b, Insert(p, t), Delete(q, l))
    ensures Weaves(doc, a, b, 0, doc[..p] + (t + (doc[p..q] + doc[q + l..])))
  {
    if p < q {
      WovenInsertAhead(doc, a, b, p, t, q, l);
    } else {
      if l > 0 { WovenInsertAtDelete(doc, a, b, p, t, l); } else { WovenInsertAlone(doc, a, b, p, t); }
      Between(doc, p, doc[p + l..]);
    }
  }

  lemma Between(doc: string, p: nat, y: string)
    requires p <= |doc|
    ensures doc[p..p] + y == y
  {
    Nothing(doc, p);
    Empty(y);
  }

  lemma WovenInsertAhead(doc: string, a: Op, b: Op, p: nat, t: string, q: nat, l: nat)
    requires p < q && q + l <= |doc| && Pair(a, b, Insert(p, t), Delete(q, l))
    ensures Weaves(doc, a, b, 0, doc[..p] + (t + (doc[p..q] + doc[q + l..])))
  {
    var e := q + l;
    forall i: nat ensures Here(a, b, i) == if i == p then t else "" { HereOfInsert(a, b, p, t, q, l, i); }
    BackPlain(doc, a, b, e);
    Dropped(doc, a, b, q, e, doc[e..]);
    Kept(doc, a, b, p, q, t, doc[e..]);
    Front(doc, a, b, p, t + (doc[p..q] + doc[e..]));
  }

  lemma WovenInsertAtDelete(doc: string, a: Op, b: Op, p: nat, t: string, l: nat)
    requires 0 < l && p + l <= |doc| && Pair(a, b, Insert(p, t), Delete(p, l))
    ensures Weaves(doc, a, b, 0, doc[..p] + (t + doc[p + l..]))
  {
    var e := p + l;
    forall i: nat ensures Here(a, b, i) == if i == p then t else "" { HereOfInsert(a, b, p, t, p, l, i); }
    BackPlain(doc, a, b, e);
    Gone(doc, a, b, p, e, t, doc[e..]);
    Front(doc, a, b, p, t + doc[e..]);
  }

  lemma WovenInsertAlone(doc: string, a: Op, b: Op, p: nat, t: string)
    requires p <= |doc| && Pair(a, b, Insert(p, t), Delete(p, 0))
    ensures Weaves(doc, a, b, 0, doc[..p] + (t + doc[p..]))
  {
    forall i: nat ensures Here(a, b, i) == if i == p then t else "" { HereOfInsert(a, b, p, t, p, 0, i); }
    Back(doc, a, b, p, t);
    Front(doc, a, b, p, t + doc[p..]);
  }

  lemma WovenDeleteFirst(doc: string, a: Op, b: Op, p: nat, t: string, q: nat, l: nat)
    requires q < p && q + l <= p <= |doc| && Pair(a, b, Insert(p, t), Delete(q, l))
    ensures Weaves(doc, a, b, 0, doc[..q] + (doc[q + l..p] + (t + doc[p..])))
  {
    var e := q + l;
    forall i: nat ensures Here(a, b, i) == if i == p then t else "" { HereOfInsert(a, b, p, t, q, l, i); }
    Back(doc, a, b, p, t);
    Passed(doc, a, b, e, p, t + doc[p..]);
    Dropped(doc, a, b, q, e, doc[e..p] + (t + doc[p..]));
    Front(doc, a, b, q, doc[e..p] + (t + doc[p..]));
  }

  lemma WovenInsertLost(doc: string, a: Op, b: Op, p: nat, t: string, q: nat, l: nat)
    requires q < p < q + l <= |doc| && Pair(a, b, Insert(p, t), Delete(q, l))
    ensures Weaves(doc, a, b, 0, doc[..q] + doc[q + l..])
  {
    var e := q + l;
    forall i: nat ensures Here(a, b, i) == "" { HereOfInsert(a, b, p, t, q, l, i); }
    BackPlain(doc, a, b, e);
    Dropped(doc, a, b, q, e, doc[e..]);
    Front(doc, a, b, q, doc[e..]);
  }

  lemma WovenApart(doc: string, a: Op, b: Op, p: nat, l: nat, q: nat, m: nat)
    requires p + l <= q && q + m <= |doc| && Pair(a, b, Delete(p, l), Delete(q, m))
    ensures Weaves(doc, a, b, 0, doc[..p] + (doc[p + l..q] + doc[q + m..]))
  {
    var e, f := p + l, q + m;
    forall i: nat ensures Here(a, b, i) == "" { HereOfDeletes(a, b, i); }
    BackPlain(doc, a, b, f);
    Dropped(doc, a, b, q, f, doc[f..]);
    Passed(doc, a, b, e, q, doc[f..]);
    Dropped(doc, a, b, p, e, doc[e..q] + doc[f..]);
    Front(doc, a, b, p, doc[e..q] + doc[f..]);
  }

  lemma WovenJoined(doc: string, a: Op, b: Op, lo: nat, hi: nat)
    requires a.Delete? && b.Delete? && InRange(doc, a) && InRange(doc, b)
    requires a.pos <= b.pos + b.len && b.pos <= a.pos + a.len
    requires lo == Min(a.pos, b.pos) && hi == Max(a.pos + a.len, b.pos + b.len)
    ensures Weaves(doc, a, b, 0, doc[..lo] + doc[hi..])
  {
    forall i: nat ensures Here(a, b, i) == "" { HereOfDeletes(a, b, i); }
    BackPlain(doc, a, b, hi);
    Dropped(doc, a, b, lo, hi, doc[hi..]);
    Front(doc, a, b, lo, doc[hi..]);
  }

  // ----- one lemma per pairing: `y` is the second operation, transformed -----

  lemma Meets(doc: string, a: Op, b: Op, y: Op, r: string)
    requires Both(doc, a, y, r) && Weaves(doc, a, b, 0, r)
    ensures Apply(Apply(doc, a), y) == Woven(doc, a, b, 0)
  {
    Done(doc, a, y, r);
    IsWoven(doc, a, b, 0, r);
  }

  lemma InsertInsert(doc: string, p: nat, s: string, q: nat, t: string, y: Op) returns (r: string)
    requires p <= |doc| && q <= |doc| && y == Transform(Insert(q, t), Insert(p, s))
    ensures Both(doc, Insert(p, s), y, r) && Weaves(doc, Insert(p, s), Insert(q, t), 0, r)
  {
    if p <= q { r := InsertInsertAfter(doc, p, s, q, t); } else { r := InsertInsertBefore(doc, p, s, q, t); }
  }

  lemma InsertInsertAfter(doc: string, p: nat, s: string, q: nat, t: string) returns (r: string)
    requires p <= q <= |doc|
    ensures Both(doc, Insert(p, s), Insert(q + |s|, t), r) && Weaves(doc, Insert(p, s), Insert(q, t), 0, r)
  {
    WovenInserts(doc, Insert(p, s), Insert(q, t), Insert(p, s), Insert(q, t));
    InsertThenInsertAfter(doc, p, s, q, t, p, q);
    r := doc[..p] + (s + (doc[p..q] + (t + doc[q..])));
  }

  lemma InsertInsertBefore(doc: string, p: nat, s: string, q: nat, t: string) returns (r: string)
    requires q < p <= |doc|
    ensures Both(doc, Insert(p, s), Insert(q, t), r) && Weaves(doc, Insert(p, s), Insert(q, t), 0, r)
  {
    WovenInserts(doc, Insert(p, s), Insert(q, t), Insert(q, t), Insert(p, s));
    InsertThenInsertBefore(doc, p, s, q, t, p);
    r := doc[..q] + (t + (doc[q..p] + (s + doc[p..])));
  }

  lemma InsertDelete(doc: string, p: nat, t: string, q: nat, l: nat, y: Op) returns (r: string)
    requires p <= |doc| && q + l <= |doc| && y == Transform(Delete(q, l), Insert(p, t))
    ensures Both(doc, Insert(p, t), y, r) && Weaves(doc, Insert(p, t), Delete(q, l), 0, r)
  {
    var a, b, e := Insert(p, t), Delete(q, l), q + l;
    if p >= e && q < p {
      WovenDeleteFirst(doc, a, b, p, t, q, l);
      InsertThenDeleteBefore(doc, p, t, q, l, p);
      r := doc[..q] + (doc[e..p] + (t + doc[p..]));
    } else if p <= q {
      WovenInsertFirst(doc, a, b, p, t, q, l);
      InsertThenDeleteNext(doc, p, t, q, l, p, q, e, y);
      r := doc[..p] + (t + (doc[p..q] + doc[e..]));
    } else {
      WovenInsertLost(doc, a, b, p, t, q, l);
      InsertThenDeleteAround(doc, p, t, q, l, p, e);
      r := doc[..q] + doc[e..];
    }
  }

  lemma InsertThenDeleteNext(doc: string, p: nat, t: string, q: nat, l: nat, at: nat, from: nat, to: nat, y: Op)
    requires p <= q && at == Min(p, |doc|) && from == Min(q, |doc|) && to == Min(q + l, |doc|)
    requires y == Transform(Delete(q, l), Insert(p, t))
    ensures Both(doc, Insert(p, t), y, doc[..at] + (t + (doc[at..from] + doc[to..])))
  {
    if p == q && l == 0 {
      InsertThenDeleteNothing(doc, p, t, q, at, from, to);
    } else {
      InsertThenDeleteAfter(doc, p, t, q, l, at, from, to);
    }
  }

  lemma DeleteInsert(doc: string, p: nat, t: string, q: nat, l: nat, y: Op) returns (r: string)
    requires p <= |doc| && q + l <= |doc| && y == Transform(Insert(p, t), Delete(q, l))
    ensures Both(doc, Delete(q, l), y, r) && Weaves(doc, Delete(q, l), Insert(p, t), 0, r)
  {
    var a, b, e := Delete(q, l), Insert(p, t), q + l;
    if p <= q {
      WovenInsertFirst(doc, a, b, p, t, q, l);
      DeleteThenInsertBefore(doc, p, t, q, l, p, q, e);
      r := doc[..p] + (t + (doc[p..q] + doc[e..]));
    } else if p >= e {
      WovenDeleteFirst(doc, a, b, p, t, q, l);
      DeleteThenInsertAfter(doc, p, t, q, l, p);
      r := doc[..q] + (doc[e..p] + (t + doc[p..]));
    } else {
      WovenInsertLost(doc, a, b, p, t, q, l);
      DeleteThenInsertNothing(doc, q, l, q, e);
      r := doc[..q] + doc[e..];
    }
  }

  lemma DeleteDelete(doc: string, p: nat, l: nat, q: nat, m: nat, y: Op) returns (r: string)
    requires p + l <= |doc| && q + m <= |doc| && y == Transform(Delete(q, m), Delete(p, l))
    ensures Both(doc, Delete(p, l), y, r) && Weaves(doc, Delete(p, l), Delete(q, m), 0, r)
  {
    if q + m <= p {
      r := DeleteBefore(doc, p, l, q, m, y);
    } else if p + l <= q {
      r := DeleteAfter(doc, p, l, q, m, y);
    } else {
      var lo, hi := Min(p, q), Max(p + l, q + m);
      WovenJoined(doc, Delete(p, l), Delete(q, m), lo, hi);
      OverlappingDeletes(doc, p, p + l, q, q + m, lo, hi, y);
      r := doc[..lo] + doc[hi..];
    }
  }

  lemma DeleteBefore(doc: string, p: nat, l: nat, q: nat, m: nat, y: Op) returns (r: string)
    requires q + m <= p && p + l <= |doc| && y == Transform(Delete(q, m), Delete(p, l))
    ensures Both(doc, Delete(p, l), y, r) && Weaves(doc, Delete(p, l), Delete(q, m), 0, r)
  {
    WovenApart(doc, Delete(p, l), Delete(q, m), q, m, p, l);
    if p + l <= q {
      DeleteThenDeleteNowhere(doc, p, q, y);
    } else {
      DeleteThenDeleteBefore(doc, p, l, q, m);
    }
    r := doc[..q] + (doc[q + m..p] + doc[p + l..]);
  }

  lemma DeleteThenDeleteNowhere(doc: string, p: nat, q: nat, y: Op)
    requires p <= q <= p <= |doc| && y == Delete(p, 0)
    ensures Both(doc, Delete(p, 0), y, doc[..q] + (doc[q..p] + doc[p..]))
  {
    NothingDeleted(doc, p);
    Then(doc, Delete(p, 0), doc, Delete(p, 0), doc);
    Nothing(doc, p);
    Empty(doc[p..]);
    assert doc == doc[..p] + doc[p..];
  }

  lemma DeleteAfter(doc: string, p: nat, l: nat, q: nat, m: nat, y: Op) returns (r: string)
    requires p + l <= q && q + m <= |doc| && p < q + m && y == Transform(Delete(q, m), Delete(p, l))
    ensures Both(doc, Delete(p, l), y, r) && Weaves(doc, Delete(p, l), Delete(q, m), 0, r)
  {
    WovenApart(doc, Delete(p, l), Delete(q, m), p, l, q, m);
    DeleteThenDeleteAfter(doc, p, l, q, m);
    r := doc[..p] + (doc[p + l..q] + doc[q + m..]);
  }

  lemma OverlappingDeletes(doc: string, p: nat, e: nat, q: nat, f: nat, lo: nat, hi: nat, y: Op)
    requires p <= e <= |doc| && q <= f <= |doc| && p < f && q < e && lo == Min(p, q) && hi == Max(e, f)
    requires y == Transform(Delete(q, f - q), Delete(p, e - p))
    ensures Both(doc, Delete(p, e - p), y, doc[..lo] + doc[hi..])
  {
    if q >= p && f <= e {
      DeleteThenDeleteNothing(doc, p, e);
    } else {
      DeleteThenDeleteAcross(doc, p, e, lo, hi, y.len);
    }
  }

  /** For any two in-range operations, applying one and then the other, transformed, gives the
      intended result, with the text of the first in front where both insert at one position. */
  lemma TransformMeaning(doc: string, a: Op, b: Op)
    requires InRange(doc, a) && InRange(doc, b)
    ensures Apply(Apply(doc, a), Transform(b, a)) == Woven(doc, a, b, 0)
  {
    var y, r := Transform(b, a), "";
    match (a, b) {
      case (Insert(p, s), Insert(q, t)) => r := InsertInsert(doc, p, s, q, t, y);
      case (Insert(p, t), Delete(q, l)) => r := InsertDelete(doc, p, t, q, l, y);
      case (Delete(q, l), Insert(p, t)) => r := DeleteInsert(doc, p, t, q, l, y);
      case (Delete(p, l), Delete(q, m)) => r := DeleteDelete(doc, p, l, q, m, y);
    }
    Meets(doc, a, b, y, r);
  }

  // ----- the diamond property, and exactly when it holds -----

  predicate Diamond(doc: string, a: Op, b: Op) {
    Apply(Apply(doc, b), Transform(a, b)) == Apply(Apply(doc, a), Transform(b, a))
  }

  /** Two inserts at one position whose texts do not commute: nothing says whose comes first. */
  predicate Tied(a: Op, b: Op) {
    a.Insert? && b.Insert? && a.pos == b.pos && a.text + b.text != b.text + a.text
  }

  lemma Compare(doc: string, a: Op, b: Op, y: Op, x: Op, r: string, u: string)
    requires y == Transform(b, a) && x == Transform(a, b)
    requires Both(doc, a, y, r) && Both(doc, b, x, u)
    ensures Diamond(doc, a, b) <==> r == u
  {
    Done(doc, a, y, r);
    Done(doc, b, x, u);
  }

  lemma Cancel(front: string, x: string, y: string, back: string)
    requires |x| == |y|
    ensures front + (x + back) == front + (y + back) <==> x == y
  {
    var u, v := front + (x + back), front + (y + back);
    assert u[|front|..|front| + |x|] == x && v[|front|..|front| + |y|] == y;
  }

  lemma InsertsTogether(doc: string, p: nat, s: string, t: string)
    ensures Diamond(doc, Insert(p, s), Insert(p, t)) <==> s + t == t + s
  {
    var at := Min(p, |doc|);
    InsertThenInsertAfter(doc, p, s, p, t, at, at);
    InsertThenInsertAfter(doc, p, t, p, s, at, at);
    Nothing(doc, at);
    Compare(doc, Insert(p, s), Insert(p, t), Insert(p + |s|, t), Insert(p + |t|, s),
            doc[..at] + (s + ("" + (t + doc[at..]))), doc[..at] + (t + ("" + (s + doc[at..]))));
    Together(doc[..at], s, t, doc[at..]);
  }

  lemma Together(front: string, s: string, t: string, back: string)
    ensures front + (s + ("" + (t + back))) == front + (t + ("" + (s + back))) <==> s + t == t + s
  {
    Empty(t + back);
    Empty(s + back);
    Assoc(s, t, back);
    Assoc(t, s, back);
    Cancel(front, s + t, t + s, back);
  }

  lemma InsertsInOrder(doc: string, p: nat, s: string, q: nat, t: string)
    requires p <= |doc| && p < q
    ensures Diamond(doc, Insert(p, s), Insert(q, t))
  {
    var at := Min(q, |doc|);
    var r := doc[..p] + (s + (doc[p..at] + (t + doc[at..])));
    InsertThenInsertAfter(doc, p, s, q, t, p, at);
    InsertThenInsertBefore(doc, q, t, p, s, at);
    Compare(doc, Insert(p, s), Insert(q, t), Insert(q + |s|, t), Insert(p, s), r, r);
  }

  /** Both inserts beyond the end: the second text is split where the first position falls into it. */
  lemma InsertsBeyond(doc: string, p: nat, s: string, q: nat, t: string, j: nat)
    requires |doc| < p < q && j == Min(p - |doc|, |t|)
    ensures Diamond(doc, Insert(p, s), Insert(q, t)) <==> s + t[..j] == t[..j] + s
  {
    var r, u := doc + s + t, doc + (t[..j] + (s + t[j..]));
    InsertedAtEnd(doc, p, s);
    InsertedAtEnd(doc + s, q + |s|, t);
    Then(doc, Insert(p, s), doc + s, Insert(q + |s|, t), r);
    InsertedAtEnd(doc, q, t);
    Inserted(t, p - |doc|, s, j);
    EditRight(doc, t, Insert(p - |doc|, s), Insert(p, s), t[..j] + (s + t[j..]));
    Then(doc, Insert(q, t), doc + t, Insert(p, s), u);
    Compare(doc, Insert(p, s), Insert(q, t), Insert(q + |s|, t), Insert(p, s), r, u);
    Swapped(doc, s, t, t[..j], t[j..]);
  }

  lemma Swapped(front: string, s: string, t: string, x: string, y: string)
    requires t == x + y
    ensures front + s + t == front + (x + (s + y)) <==> s + x == x + s
  {
    Assoc(front, s, t);
    Assoc(s, x, y);
    Assoc(x, s, y);
    Cancel(front, s + x, x + s, y);
  }

  lemma InsertBeforeDelete(doc: string, p: nat, t: string, q: nat, l: nat, y: Op)
    requires p <= q && y == Transform(Delete(q, l), Insert(p, t))
    ensures Diamond(doc, Insert(p, t), Delete(q, l))
  {
    var at, from, to := Min(p, |doc|), Min(q, |doc|), Min(q + l, |doc|);
    var r := doc[..at] + (t + (doc[at..from] + doc[to..]));
    InsertThenDeleteNext(doc, p, t, q, l, at, from, to, y);
    DeleteThenInsertBefore(doc, p, t, q, l, at, from, to);
    Compare(doc, Insert(p, t), Delete(q, l), y, Insert(p, t), r, r);
  }

  lemma InsertPastDelete(doc: string, p: nat, t: string, q: nat, l: nat)
    requires q < p && q + l <= p && q + l <= |doc|
    ensures Diamond(doc, Insert(p, t), Delete(q, l))
  {
    var at := Min(p, |doc|);
    var r := doc[..q] + (doc[q + l..at] + (t + doc[at..]));
    InsertThenDeleteBefore(doc, p, t, q, l, at);
    DeleteThenInsertAfter(doc, p, t, q, l, at);
    Compare(doc, Insert(p, t), Delete(q, l), Delete(q, l), Insert(p - l, t), r, r);
  }

  /** The insert lands at the end, in reach of a deletion that was to take the end of the text. */
  lemma InsertPastEnd(doc: string, p: nat, t: string, q: nat, l: nat)
    requires q < p && q + l <= p && |doc| < q + l
    ensures Diamond(doc, Insert(p, t), Delete(q, l)) <==> l == 0 || t == "" || |doc| + |t| <= q
  {
    var n, with := |doc|, doc + t;
    var from, lo, hi := Min(q, n), Min(q, n + |t|), Min(q + l, n + |t|);
    InsertedAtEnd(doc, p, t);
    Deleted(with, q, l, lo, hi);
    Then(doc, Insert(p, t), with, Delete(q, l), with[..lo] + with[hi..]);
    Deleted(doc, q, l, from, n);
    Empty(doc[..from]);
    InsertedAtEnd(doc[..from], p - l, t);
    Then(doc, Delete(q, l), doc[..from], Insert(p - l, t), doc[..from] + t);
    Compare(doc, Insert(p, t), Delete(q, l), Delete(q, l), Insert(p - l, t), with[..lo] + with[hi..], doc[..from] + t);
    CutEnds(doc, t, with, from, q, l, lo, hi);
  }

  lemma CutEnds(doc: string, t: string, with: string, from: nat, q: nat, l: nat, lo: nat, hi: nat)
    requires with == doc + t && |doc| < q + l
    requires from == Min(q, |doc|) && lo == Min(q, |with|) && hi == Min(q + l, |with|)
    ensures with[..lo] + with[hi..] == doc[..from] + t <==> l == 0 || t == "" || |with| <= q
  {
    assert |with[..lo] + with[hi..]| == |with| - (hi - lo);
    if l == 0 || |with| <= q {
      assert with[..lo] + with[hi..] == with;
      assert doc[..from] == doc;
    } else if t == "" {
      assert with == doc;
    }
  }

  lemma InsertInsideDelete(doc: string, p: nat, t: string, q: nat, l: nat)
    requires q < p < q + l && q <= |doc|
    ensures Diamond(doc, Insert(p, t), Delete(q, l))
  {
    var at, to := Min(p, |doc|), Min(q + l, |doc|);
    var r := doc[..q] + doc[to..];
    InsertThenDeleteAround(doc, p, t, q, l, at, to);
    DeleteThenInsertNothing(doc, q, l, q, to);
    Compare(doc, Insert(p, t), Delete(q, l), Delete(q, l + |t|), Insert(0, ""), r, r);
  }

  lemma InsertInsideBeyond(doc: string, p: nat, t: string, q: nat, l: nat)
    requires |doc| < q < p < q + l
    ensures Diamond(doc, Insert(p, t), Delete(q, l)) <==> t == ""
  {
    var n, with := |doc|, doc + t;
    var lo := Min(q, n + |t|);
    InsertedAtEnd(doc, p, t);
    Deleted(with, q, l + |t|, lo, n + |t|);
    Then(doc, Insert(p, t), with, Delete(q, l + |t|), with[..lo] + with[n + |t|..]);
    DeleteThenInsertNothing(doc, q, l, n, n);
    Compare(doc, Insert(p, t), Delete(q, l), Delete(q, l + |t|), Insert(0, ""), with[..lo] + with[n + |t|..], doc[..n] + doc[n..]);
    assert |with[..lo] + with[n + |t|..]| == lo && |doc[..n] + doc[n..]| == n;
    if t == "" {
      assert with == doc;
    }
  }

  // Two deletions: cut both to the text first.

  lemma SameCut(doc: string, x: Op, y: Op)
    requires x.Delete? && y.Delete?
    requires Min(x.pos, |doc|) == Min(y.pos, |doc|) || Min(x.pos, |doc|) == Min(x.pos + x.len, |doc|)
    requires Min(x.pos + x.len, |doc|) - Min(x.pos, |doc|) == Min(y.pos + y.len, |doc|) - Min(y.pos, |doc|)
    ensures Apply(doc, x) == Apply(doc, y)
  {
    var i, j, k, m := Min(x.pos, |doc|), Min(x.pos + x.len, |doc|), Min(y.pos, |doc|), Min(y.pos + y.len, |doc|);
    Deleted(doc, x.pos, x.len, i, j);
    Deleted(doc, y.pos, y.len, k, m);
    Turned(doc, x, doc[..i] + doc[j..]);
    Turned(doc, y, doc[..k] + doc[m..]);
  }

  /** A deletion cut to the text. */
  function Cut(n: nat, op: Op): (r: Op)
    requires op.Delete?
    ensures r.Delete? && r.pos + r.len <= n
  {
    Delete(Min(op.pos, n), Min(op.pos + op.len, n) - Min(op.pos, n))
  }

  lemma CutTransformed(doc: string, a: Op, b: Op)
    requires a.Delete? && b.Delete?
    ensures Apply(Apply(doc, a), Transform(b, a)) == Apply(Apply(doc, Cut(|doc|, a)), Transform(Cut(|doc|, b), Cut(|doc|, a)))
  {
    var from, to := Min(a.pos, |doc|), Min(a.pos + a.len, |doc|);
    SameCut(doc, a, Cut(|doc|, a));
    Deleted(doc, a.pos, a.len, from, to);
    Turned(doc, a, doc[..from] + doc[to..]);
    CutOfTransformed(Apply(doc, a), |doc|, a, b);
  }

  lemma CutOfTransformed(doc: string, n: nat, a: Op, b: Op)
    requires a.Delete? && b.Delete? && |doc| == n - Cut(n, a).len
    ensures Apply(doc, Transform(b, a)) == Apply(doc, Transform(Cut(n, b), Cut(n, a)))
  {
    SameCut(doc, Transform(b, a), Transform(Cut(n, b), Cut(n, a)));
  }

  lemma DeletesWovenAlike(doc: string, a: Op, b: Op, i: nat)
    requires i <= |doc| && a.Delete? && b.Delete?
    ensures Woven(doc, a, b, i) == Woven(doc, b, a, i)
    decreases |doc| - i
  {
    HereOfDeletes(a, b, i);
    HereOfDeletes(b, a, i);
    if i < |doc| { DeletesWovenAlike(doc, a, b, i + 1); }
  }

  lemma DeletesAgree(doc: string, a: Op, b: Op)
    requires a.Delete? && b.Delete?
    ensures Diamond(doc, a, b)
  {
    var c, d := Cut(|doc|, a), Cut(|doc|, b);
    CutTransformed(doc, a, b);
    CutTransformed(doc, b, a);
    TransformMeaning(doc, c, d);
    TransformMeaning(doc, d, c);
    DeletesWovenAlike(doc, c, d, 0);
  }

  /** When both orders of two inserts agree on a text of length n: the texts commute, or the earlier
      one lies in the text, or, both being beyond it, the earlier one commutes with the part of the
      later one that its position skips. */
  predicate InsertsAgree(n: nat, p: nat, s: string, q: nat, t: string) {
    if p == q then s + t == t + s
    else if p < q then p <= n || (var j := Min(p - n, |t|); s + t[..j] == t[..j] + s)
    else q <= n || (var j := Min(q - n, |s|); t + s[..j] == s[..j] + t)
  }

  /** When both orders of an insert and a deletion agree on a text of length n. */
  predicate InsertDeleteAgree(n: nat, p: nat, t: string, q: nat, l: nat) {
    || p <= q
    || t == ""
    || if q + l <= p then q + l <= n || l == 0 || n + |t| <= q else q <= n
  }

  /** The exact condition of the diamond, on any two operations and the length of the text. */
  predicate DiamondGuard(n: nat, a: Op, b: Op) {
    match (a, b)
    case (Insert(p, s), Insert(q, t)) => InsertsAgree(n, p, s, q, t)
    case (Insert(p, t), Delete(q, l)) => InsertDeleteAgree(n, p, t, q, l)
    case (Delete(q, l), Insert(p, t)) => InsertDeleteAgree(n, p, t, q, l)
    case (Delete(_, _), Delete(_, _)) => true
  }

  lemma InsertsExactly(doc: string, p: nat, s: string, q: nat, t: string)
    ensures Diamond(doc, Insert(p, s), Insert(q, t)) <==> InsertsAgree(|doc|, p, s, q, t)
  {
    if p == q {
      InsertsTogether(doc, p, s, t);
    } else if p < q {
      if p <= |doc| { InsertsInOrder(doc, p, s, q, t); } else { InsertsBeyond(doc, p, s, q, t, Min(p - |doc|, |t|)); }
    } else {
      DiamondTurns(doc, Insert(p, s), Insert(q, t));
      if q <= |doc| { InsertsInOrder(doc, q, t, p, s); } else { InsertsBeyond(doc, q, t, p, s, Min(q - |doc|, |s|)); }
    }
  }

  lemma DiamondTurns(doc: string, a: Op, b: Op)
    ensures Diamond(doc, a, b) <==> Diamond(doc, b, a)
  {
  }

  lemma InsertDeleteExactly(doc: string, p: nat, t: string, q: nat, l: nat)
    ensures Diamond(doc, Insert(p, t), Delete(q, l)) <==> InsertDeleteAgree(|doc|, p, t, q, l)
  {
    if p <= q {
      InsertBeforeDelete(doc, p, t, q, l, Transform(Delete(q, l), Insert(p, t)));
    } else if q + l <= p {
      if q + l <= |doc| { InsertPastDelete(doc, p, t, q, l); } else { InsertPastEnd(doc, p, t, q, l); }
    } else {
      if q <= |doc| { InsertInsideDelete(doc, p, t, q, l); } else { InsertInsideBeyond(doc, p, t, q, l); }
    }
  }

  /** For any text and any two operations, in range or not, both orders agree exactly under the guard. */
  lemma DiamondAnywhere(doc: string, a: Op, b: Op)
    ensures Diamond(doc, a, b) <==> DiamondGuard(|doc|, a, b)
  {
    match (a, b) {
      case (Insert(p, s), Insert(q, t)) => InsertsExactly(doc, p, s, q, t);
      case (Insert(p, t), Delete(q, l)) => InsertDeleteExactly(doc, p, t, q, l);
      case (Delete(q, l), Insert(p, t)) =>
        DiamondTurns(doc, a, b);
        InsertDeleteExactly(doc, p, t, q, l);
      case (Delete(_, _), Delete(_, _)) => DeletesAgree(doc, a, b);
    }
  }

  /** Both orders agree, for all in-range pairs, except for tied inserts, and there they never agree. */
  lemma DiamondExactly(doc: string, a: Op, b: Op)
    requires InRange(doc, a) && InRange(doc, b)
    ensures Diamond(doc, a, b) <==> !Tied(a, b)
  {
    DiamondAnywhere(doc, a, b);
  }

  /** Clamping does not commute with transforming: out of range the diamond can fail without a tie. */
  lemma DiamondFailsOutOfRange()
    ensures !Diamond("", Insert(5, "x"), Insert(3, "yz")) && !Tied(Insert(5, "x"), Insert(3, "yz"))
  {
    assert Apply("", Insert(5, "x")) == "x" && Apply("", Insert(3, "yz")) == "yz";
    assert Apply("x", Insert(3, "yz")) == "xyz";
    assert Apply("yz", Insert(7, "x")) == "yzx";
  }

  // ----- whole sequences -----

  lemma TransformInRange(doc: string, a: Op, b: Op)
    requires InRange(doc, a) && InRange(doc, b)
    ensures InRange(Apply(doc, b), Transform(a, b))
  {
  }

  predicate InRangeAll(doc: string, ops: seq<Op>)
    decreases |ops|
  {
    ops != [] ==> InRange(doc, ops[0]) && InRangeAll(Apply(doc, ops[0]), ops[1..])
  }

  /** No step of carrying `a` through the sequence meets a tie. */
  predicate NeverTied(a: Op, committed: seq<Op>)
    decreases |committed|
  {
    committed != [] ==> !Tied(a, committed[0]) && NeverTied(Transform(a, committed[0]), committed[1..])
  }

  /** Every step of carrying `a` through the sequence meets the guard. */
  predicate GuardedAll(doc: string, a: Op, committed: seq<Op>)
    decreases |committed|
  {
    committed != [] ==>
      DiamondGuard(|doc|, a, committed[0]) && GuardedAll(Apply(doc, committed[0]), Transform(a, committed[0]), committed[1..])
  }

  /** The diamond over a committed sequence, in range or not: while every step meets the guard, both
      ways round give one text. */
  lemma {:induction false} SquareOverSequence(doc: string, a: Op, committed: seq<Op>)
    requires GuardedAll(doc, a, committed)
    ensures Apply(ApplyAll(doc, committed), TransformAll(a, committed)) == ApplyAll(Apply(doc, a), Carry(a, committed))
    decreases |committed|
  {
    if committed != [] {
      var b, rest := committed[0], committed[1..];
      DiamondAnywhere(doc, a, b);
      SquareOverSequence(Apply(doc, b), Transform(a, b), rest);
      assert Carry(a, committed)[1..] == Carry(Transform(a, b), rest);
    }
  }

  /** The diamond over a committed sequence: `transform_seq` yields an operation in range for the
      final text, the carried sequence is in range after `a`, and both ways round give one text. */
  lemma {:induction false} DiamondOverSequences(doc: string, a: Op, committed: seq<Op>)
    requires InRange(doc, a) && InRangeAll(doc, committed) && NeverTied(a, committed)
    ensures InRange(ApplyAll(doc, committed), TransformAll(a, committed))
    ensures InRangeAll(Apply(doc, a), Carry(a, committed))
    ensures Apply(ApplyAll(doc, committed), TransformAll(a, committed)) == ApplyAll(Apply(doc, a), Carry(a, committed))
    decreases |committed|
  {
    if committed != [] {
      var b, rest := committed[0], committed[1..];
      TransformInRange(doc, a, b);
      TransformInRange(doc, b, a);
      DiamondExactly(doc, a, b);
      DiamondOverSequences(Apply(doc, b), Transform(a, b), rest);
      assert Carry(a, committed)[1..] == Carry(Transform(a, b), rest);
    }
  }
}
