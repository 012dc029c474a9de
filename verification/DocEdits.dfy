/** What one or two edits make of a text, piece by piece. The facts are kept folded, each with its own
    key, so that a proof which only puts them together need not look inside. */
module DocEdits {
  import opened Options
  import opened DocOps

  ghost predicate KeyOfTurns(text: string, op: Op, n: nat) {
    true
  }

  /** `op` turns `text` into `r`. */
  ghost predicate Turns(text: string, op: Op, r: string) {
    forall n {:trigger KeyOfTurns(text, op, n)} :: KeyOfTurns(text, op, n) ==> Apply(text, op) == r
  }

  ghost predicate KeyOfBoth(text: string, x: Op, y: Op, n: nat) {
    true
  }

  /** `x` and then `y` turn `text` into `r`. */
  ghost predicate Both(text: string, x: Op, y: Op, r: string) {
    forall n {:trigger KeyOfBoth(text, x, y, n)} :: KeyOfBoth(text, x, y, n) ==> Apply(Apply(text, x), y) == r
  }

  lemma Turned(text: string, op: Op, r: string)
    requires Turns(text, op, r)
    ensures Apply(text, op) == r
  {
    assert KeyOfTurns(text, op, 0);
  }

  lemma Done(text: string, x: Op, y: Op, r: string)
    requires Both(text, x, y, r)
    ensures Apply(Apply(text, x), y) == r
  {
    assert KeyOfBoth(text, x, y, 0);
  }

  lemma Then(text: string, x: Op, m: string, y: Op, r: string)
    requires Turns(text, x, m) && Turns(m, y, r)
    ensures Both(text, x, y, r)
  {
    Turned(text, x, m);
    Turned(m, y, r);
  }

  // ----- strings -----

  lemma Assoc(x: string, y: string, z: string)
    ensures x + (y + z) == (x + y) + z
  {
  }

  lemma Empty(x: string)
    ensures "" + x == x && x + "" == x
  {
  }

  lemma TakeDrop(x: string, y: string, i: nat)
    requires i <= |y|
    ensures (x + y)[..|x| + i] == x + y[..i] && (x + y)[|x| + i..] == y[i..]
  {
  }

  lemma TakeDropLeft(x: string, y: string, i: nat)
    requires i <= |x|
    ensures (x + y)[..i] == x[..i] && (x + y)[i..] == x[i..] + y
  {
  }

  lemma DropDrop(doc: string, i: nat, j: nat)
    requires i <= j <= |doc|
    ensures doc[i..][..j - i] == doc[i..j] && doc[i..][j - i..] == doc[j..]
  {
  }

  lemma TakeTake(doc: string, i: nat, j: nat)
    requires i <= j <= |doc|
    ensures doc[..j][..i] == doc[..i] && doc[..j][i..] == doc[i..j]
  {
  }

  lemma Nothing(doc: string, i: nat)
    requires i <= |doc|
    ensures doc[i..i] == ""
  {
  }

  // ----- one edit: positions and lengths are cut to the text -----

  lemma Inserted(doc: string, p: nat, t: string, at: nat)
    requires at == Min(p, |doc|)
    ensures Turns(doc, Insert(p, t), doc[..at] + (t + doc[at..]))
  {
    Assoc(doc[..at], t, doc[at..]);
    Empty(doc[at..]);
  }

  lemma Deleted(doc: string, p: nat, l: nat, from: nat, to: nat)
    requires from == Min(p, |doc|) && to == Min(p + l, |doc|)
    ensures Turns(doc, Delete(p, l), doc[..from] + doc[to..])
  {
  }

  lemma NothingDeleted(doc: string, p: nat)
    ensures Turns(doc, Delete(p, 0), doc)
  {
  }

  lemma NothingInserted(doc: string, p: nat)
    ensures Turns(doc, Insert(p, ""), doc)
  {
  }

  lemma InsertedAtEnd(doc: string, p: nat, t: string)
    requires |doc| <= p
    ensures Turns(doc, Insert(p, t), doc + t)
  {
    Empty(doc + t);
    Empty(doc);
  }

  /** The same on the rest of a text ... */
  lemma InsertedIn(doc: string, i: nat, p: nat, t: string, at: nat)
    requires i <= at == Min(p, |doc|)
    ensures Turns(doc[i..], Insert(p - i, t), doc[i..at] + (t + doc[at..]))
  {
    Inserted(doc[i..], p - i, t, at - i);
    DropDrop(doc, i, at);
  }

  lemma DeletedIn(doc: string, i: nat, p: nat, l: nat, from: nat, to: nat)
    requires i <= from == Min(p, |doc|) && to == Min(p + l, |doc|)
    ensures Turns(doc[i..], Delete(p - i, l), doc[i..from] + doc[to..])
  {
    Deleted(doc[i..], p - i, l, from - i, to - i);
    DropDrop(doc, i, from);
    DropDrop(doc, i, to);
  }

  /** ... past one piece ... */
  lemma EditRight(x: string, y: string, op: Op, far: Op, r: string)
    requires Turns(y, op, r) && far == op.(pos := |x| + op.pos)
    ensures Turns(x + y, far, x + r)
  {
    Turned(y, op, r);
    if op.Insert? { InsertRight(x, y, op.pos, op.text); } else { DeleteRight(x, y, op.pos, op.len); }
  }

  lemma InsertRight(x: string, y: string, p: nat, t: string)
    ensures Apply(x + y, Insert(|x| + p, t)) == x + Apply(y, Insert(p, t))
  {
    var at := Min(p, |y|);
    TakeDrop(x, y, at);
    Assoc(x, y[..at], t);
    Assoc(x, y[..at] + t, y[at..]);
  }

  lemma DeleteRight(x: string, y: string, p: nat, l: nat)
    ensures Apply(x + y, Delete(|x| + p, l)) == x + Apply(y, Delete(p, l))
  {
    TakeDrop(x, y, Min(p, |y|));
    TakeDrop(x, y, Min(p + l, |y|));
    Assoc(x, y[..Min(p, |y|)], y[Min(p + l, |y|)..]);
  }

  /** ... past two pieces ... */
  lemma EditThird(x: string, t: string, y: string, op: Op, far: Op, r: string)
    requires Turns(y, op, r) && far == op.(pos := |x| + (|t| + op.pos))
    ensures Turns(x + (t + y), far, x + (t + r))
  {
    EditRight(t, y, op, op.(pos := |t| + op.pos), r);
    EditRight(x, t + y, op.(pos := |t| + op.pos), far, t + r);
  }

  /** ... on the front of a text, with something else behind it ... */
  lemma InsertLeft(doc: string, m: nat, y: string, p: nat, t: string, at: nat)
    requires m <= |doc| && at == Min(p, m + |y|) <= m
    ensures Turns(doc[..m] + y, Insert(p, t), doc[..at] + (t + (doc[at..m] + y)))
  {
    Inserted(doc[..m] + y, p, t, at);
    TakeDropLeft(doc[..m], y, at);
    TakeTake(doc, at, m);
  }

  lemma DeleteLeft(doc: string, m: nat, y: string, p: nat, l: nat)
    requires p + l <= m <= |doc|
    ensures Turns(doc[..m] + y, Delete(p, l), doc[..p] + (doc[p + l..m] + y))
  {
    Deleted(doc[..m] + y, p, l, p, p + l);
    TakeDropLeft(doc[..m], y, p);
    TakeDropLeft(doc[..m], y, p + l);
    TakeTake(doc, p, m);
    TakeTake(doc, p + l, m);
  }

  /** ... and across the boundary. */
  lemma DeleteAcross(doc: string, m: nat, y: string, p: nat, l: nat, to: nat)
    requires p <= m <= |doc| && m <= p + l && to == Min(p + l - m, |y|)
    ensures Turns(doc[..m] + y, Delete(p, l), doc[..p] + y[to..])
  {
    Deleted(doc[..m] + y, p, l, p, m + to);
    TakeDropLeft(doc[..m], y, p);
    TakeTake(doc, p, m);
    TakeDrop(doc[..m], y, to);
  }

  lemma DeleteOver(doc: string, at: nat, t: string, y: string, p: nat, l: nat, to: nat)
    requires p <= at <= |doc| && at <= p + l && to == Min(p + l - at, |y|)
    ensures Turns(doc[..at] + (t + y), Delete(p, l + |t|), doc[..p] + y[to..])
  {
    DeleteAcross(doc, at, t + y, p, l + |t|, |t| + to);
    TakeDrop(t, y, to);
  }

  // ----- two edits -----

  lemma InsertThenInsertAfter(doc: string, p: nat, t: string, q: nat, u: string, at: nat, bt: nat)
    requires p <= q && at == Min(p, |doc|) && bt == Min(q, |doc|)
    ensures Both(doc, Insert(p, t), Insert(q + |t|, u), doc[..at] + (t + (doc[at..bt] + (u + doc[bt..]))))
  {
    var r := doc[at..bt] + (u + doc[bt..]);
    Inserted(doc, p, t, at);
    InsertedIn(doc, at, q, u, bt);
    EditThird(doc[..at], t, doc[at..], Insert(q - at, u), Insert(q + |t|, u), r);
    Then(doc, Insert(p, t), doc[..at] + (t + doc[at..]), Insert(q + |t|, u), doc[..at] + (t + r));
  }

  lemma InsertThenInsertBefore(doc: string, p: nat, t: string, q: nat, u: string, at: nat)
    requires q <= at == Min(p, |doc|)
    ensures Both(doc, Insert(p, t), Insert(q, u), doc[..q] + (u + (doc[q..at] + (t + doc[at..]))))
  {
    var y := t + doc[at..];
    Inserted(doc, p, t, at);
    InsertLeft(doc, at, y, q, u, q);
    Then(doc, Insert(p, t), doc[..at] + y, Insert(q, u), doc[..q] + (u + (doc[q..at] + y)));
  }

  lemma InsertThenDeleteAfter(doc: string, p: nat, t: string, q: nat, l: nat, at: nat, from: nat, to: nat)
    requires p <= q && at == Min(p, |doc|) && from == Min(q, |doc|) && to == Min(q + l, |doc|)
    ensures Both(doc, Insert(p, t), Delete(q + |t|, l), doc[..at] + (t + (doc[at..from] + doc[to..])))
  {
    var r := doc[at..from] + doc[to..];
    Inserted(doc, p, t, at);
    DeletedIn(doc, at, q, l, from, to);
    EditThird(doc[..at], t, doc[at..], Delete(q - at, l), Delete(q + |t|, l), r);
    Then(doc, Insert(p, t), doc[..at] + (t + doc[at..]), Delete(q + |t|, l), doc[..at] + (t + r));
  }

  lemma InsertThenDeleteNothing(doc: string, p: nat, t: string, q: nat, at: nat, from: nat, to: nat)
    requires at == Min(p, |doc|) && from == at && to == at
    ensures Both(doc, Insert(p, t), Delete(q, 0), doc[..at] + (t + (doc[at..from] + doc[to..])))
  {
    var r := doc[..at] + (t + doc[at..]);
    Inserted(doc, p, t, at);
    NothingDeleted(r, q);
    Then(doc, Insert(p, t), r, Delete(q, 0), r);
    Nothing(doc, at);
    Empty(doc[at..]);
  }

  lemma InsertThenDeleteBefore(doc: string, p: nat, t: string, q: nat, l: nat, at: nat)
    requires q + l <= at == Min(p, |doc|)
    ensures Both(doc, Insert(p, t), Delete(q, l), doc[..q] + (doc[q + l..at] + (t + doc[at..])))
  {
    var y := t + doc[at..];
    Inserted(doc, p, t, at);
    DeleteLeft(doc, at, y, q, l);
    Then(doc, Insert(p, t), doc[..at] + y, Delete(q, l), doc[..q] + (doc[q + l..at] + y));
  }

  lemma InsertThenDeleteAround(doc: string, p: nat, t: string, q: nat, l: nat, at: nat, to: nat)
    requires q <= at <= q + l && at == Min(p, |doc|) && to == Min(q + l, |doc|)
    ensures Both(doc, Insert(p, t), Delete(q, l + |t|), doc[..q] + doc[to..])
  {
    Inserted(doc, p, t, at);
    DeleteOver(doc, at, t, doc[at..], q, l, to - at);
    DropDrop(doc, at, to);
    Then(doc, Insert(p, t), doc[..at] + (t + doc[at..]), Delete(q, l + |t|), doc[..q] + doc[to..]);
  }

  lemma DeleteThenInsertBefore(doc: string, p: nat, t: string, q: nat, l: nat, at: nat, from: nat, to: nat)
    requires p <= q && at == Min(p, |doc|) && from == Min(q, |doc|) && to == Min(q + l, |doc|)
    ensures Both(doc, Delete(q, l), Insert(p, t), doc[..at] + (t + (doc[at..from] + doc[to..])))
  {
    Deleted(doc, q, l, from, to);
    InsertLeft(doc, from, doc[to..], p, t, at);
    Then(doc, Delete(q, l), doc[..from] + doc[to..], Insert(p, t), doc[..at] + (t + (doc[at..from] + doc[to..])));
  }

  lemma DeleteThenInsertAfter(doc: string, p: nat, t: string, q: nat, l: nat, at: nat)
    requires q + l <= at == Min(p, |doc|)
    ensures Both(doc, Delete(q, l), Insert(p - l, t), doc[..q] + (doc[q + l..at] + (t + doc[at..])))
  {
    var to, r := q + l, doc[q + l..at] + (t + doc[at..]);
    Deleted(doc, q, l, q, to);
    InsertedIn(doc, to, p, t, at);
    EditRight(doc[..q], doc[to..], Insert(p - to, t), Insert(p - l, t), r);
    Then(doc, Delete(q, l), doc[..q] + doc[to..], Insert(p - l, t), doc[..q] + r);
  }

  lemma DeleteThenInsertNothing(doc: string, q: nat, l: nat, from: nat, to: nat)
    requires from == Min(q, |doc|) && to == Min(q + l, |doc|)
    ensures Both(doc, Delete(q, l), Insert(0, ""), doc[..from] + doc[to..])
  {
    Deleted(doc, q, l, from, to);
    NothingInserted(doc[..from] + doc[to..], 0);
    Then(doc, Delete(q, l), doc[..from] + doc[to..], Insert(0, ""), doc[..from] + doc[to..]);
  }

  lemma DeleteThenDeleteBefore(doc: string, p: nat, l: nat, q: nat, m: nat)
    requires q + m <= p && p + l <= |doc|
    ensures Both(doc, Delete(p, l), Delete(q, m), doc[..q] + (doc[q + m..p] + doc[p + l..]))
  {
    Deleted(doc, p, l, p, p + l);
    DeleteLeft(doc, p, doc[p + l..], q, m);
    Then(doc, Delete(p, l), doc[..p] + doc[p + l..], Delete(q, m), doc[..q] + (doc[q + m..p] + doc[p + l..]));
  }

  lemma DeleteThenDeleteAfter(doc: string, p: nat, l: nat, q: nat, m: nat)
    requires p + l <= q && q + m <= |doc|
    ensures Both(doc, Delete(p, l), Delete(q - l, m), doc[..p] + (doc[p + l..q] + doc[q + m..]))
  {
    var e, r := p + l, doc[p + l..q] + doc[q + m..];
    Deleted(doc, p, l, p, e);
    DeletedIn(doc, e, q, m, q, q + m);
    EditRight(doc[..p], doc[e..], Delete(q - e, m), Delete(q - l, m), r);
    Then(doc, Delete(p, l), doc[..p] + doc[e..], Delete(q - l, m), doc[..p] + r);
  }

  lemma DeleteThenDeleteAcross(doc: string, p: nat, e: nat, q: nat, f: nat, l: nat)
    requires q <= p <= e <= f <= |doc| && l == p - q + (f - e)
    ensures Both(doc, Delete(p, e - p), Delete(q, l), doc[..q] + doc[f..])
  {
    Deleted(doc, p, e - p, p, e);
    DeleteAcross(doc, p, doc[e..], q, l, f - e);
    DropDrop(doc, e, f);
    Then(doc, Delete(p, e - p), doc[..p] + doc[e..], Delete(q, l), doc[..q] + doc[f..]);
  }

  lemma DeleteThenDeleteNothing(doc: string, p: nat, e: nat)
    requires p <= e <= |doc|
    ensures Both(doc, Delete(p, e - p), Delete(0, 0), doc[..p] + doc[e..])
  {
    Deleted(doc, p, e - p, p, e);
    NothingDeleted(doc[..p] + doc[e..], 0);
    Then(doc, Delete(p, e - p), doc[..p] + doc[e..], Delete(0, 0), doc[..p] + doc[e..]);
  }
}
