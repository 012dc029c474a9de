/** Reading a document's committed operations out of the store and replaying them
    (pset4/doc_state.cc:7-101, pset4/doc_state.hh). */
module DocState {
  import opened Options
  import opened PancyDb
  import PancyDiff
  import opened DocOps
  import opened Codec

  datatype Committed = Committed(version: int, client: nat, seqNo: nat, op: Op, clientLabel: string)

  type Rows = map<string, Vv>

  /** The operation of `doc` that a row holds, if its key and its value parse. */
  function OpAt(rows: Rows, key: string, doc: string): Option<Committed>
    requires key in rows
  {
    if !Belongs(key, doc) || rows[key].version == NONEXISTENT_VERSION then None
    else
      var id := ParseOpSuffix(key[|OpPrefix(doc)|..]).value;
      match Deserialize(rows[key].value)
      case None => None
      case Some(op) => Some(Committed(rows[key].version, id.0, id.1, op, ""))
  }

  /** Ordered by version, no version twice. */
  ghost predicate Strict(ops: seq<Committed>) {
    forall i, j :: 0 <= i < j < |ops| ==> ops[i].version < ops[j].version
  }

  ghost predicate Stored(rows: Rows, doc: string, c: Committed) {
    exists key :: key in rows && OpAt(rows, key, doc) == Some(c)
  }

  /** `ops` is exactly what `doc` has in the store, in version order. */
  ghost predicate Reads(rows: Rows, doc: string, ops: seq<Committed>) {
    Strict(ops) && forall c :: c in ops <==> Stored(rows, doc, c)
  }

  ghost predicate VersionsUnique(rows: Rows) {
    forall k, l :: k in rows && l in rows && k != l ==> rows[k].version != rows[l].version
  }

  /** Every write stamps a fresh version, so no two rows ever share one. */
  lemma ProcessKeepsUnique(db: Db, req: Request)
    requires DbOk(db) && VersionsUnique(db.rows)
    ensures VersionsUnique(Process(db, req).0.rows)
  {
  }

  lemma {:induction false} AllKeepsUnique(db: Db, reqs: seq<Request>)
    requires DbOk(db) && VersionsUnique(db.rows)
    ensures DbOk(ProcessAll(db, reqs)) && VersionsUnique(ProcessAll(db, reqs).rows)
    decreases |reqs|
  {
    if reqs != [] {
      var n := |reqs| - 1;
      AllKeepsUnique(db, reqs[..n]);
      ProcessKeepsDbOk(ProcessAll(db, reqs[..n]), reqs[n]);
      ProcessKeepsUnique(ProcessAll(db, reqs[..n]), reqs[n]);
    }
  }

  // ----- read_ops -----

  /** The comparison `read_ops` sorts by. */
  predicate Precedes(x: Committed, y: Committed) {
    if x.version != y.version then x.version < y.version
    else if x.client != y.client then x.client < y.client
    else x.seqNo < y.seqNo
  }

  /** No element belongs before an earlier one. */
  ghost predicate Sorted(ops: seq<Committed>) {
    forall i, j :: 0 <= i < j < |ops| ==> !Precedes(ops[j], ops[i])
  }

  lemma SortedBelow(x: Committed, y: Committed, z: Committed)
    requires !Precedes(y, x) && !Precedes(z, y)
    ensures !Precedes(z, x)
  {
  }

  /** Where `c` goes in a sorted list: behind everything it does not precede. */
  method Place(out: seq<Committed>, c: Committed) returns (k: nat)
    requires Sorted(out)
    ensures k <= |out| && Sorted(out[..k] + [c] + out[k..])
  {
    k := |out|;
    while k > 0 && Precedes(c, out[k - 1])
      invariant k <= |out| && forall i :: k <= i < |out| ==> Precedes(c, out[i])
    {
      k := k - 1;
    }
    forall i | 0 <= i < k ensures !Precedes(c, out[i]) {
      SortedBelow(out[i], out[k - 1], c);
    }
  }

  /** `std::sort` */
  method SortOps(ops: seq<Committed>) returns (out: seq<Committed>)
    ensures Sorted(out) && multiset(out) == multiset(ops)
    ensures forall i, j :: 0 <= i < j < |out| ==>
              || out[i].version < out[j].version
              || (out[i].version == out[j].version && out[i].client < out[j].client)
              || (out[i].version == out[j].version && out[i].client == out[j].client && out[i].seqNo <= out[j].seqNo)
  {
    out := [];
    for i := 0 to |ops|
      invariant Sorted(out) && multiset(out) == multiset(ops[..i])
    {
      var k := Place(out, ops[i]);
      Inserting(out, k, ops[i]);
      assert ops[..i + 1] == ops[..i] + [ops[i]];
      out := out[..k] + [ops[i]] + out[k..];
    }
    assert ops[..|ops|] == ops;
  }

  lemma Inserting(out: seq<Committed>, k: nat, c: Committed)
    requires k <= |out|
    ensures multiset(out[..k] + [c] + out[k..]) == multiset(out) + multiset{c}
  {
    assert out == out[..k] + out[k..];
  }

  /** What the iterator meets, in its order. */
  ghost function Collected(rows: Rows, keys: seq<string>, doc: string): seq<Committed>
    requires forall i :: 0 <= i < |keys| ==> keys[i] in rows
  {
    if keys == [] then []
    else
      var rest, r := Collected(rows, keys[..|keys| - 1], doc), OpAt(rows, keys[|keys| - 1], doc);
      if r.Some? then rest + [r.value] else rest
  }

  /** `read_ops` returns exactly the document's parseable operations, each once for every key that holds
      it, sorted by version, client and sequence number; where versions are unique that makes the one
      reading of the store. `keys` is the order in which the iterator walks it. */
  method ReadOps(rows: Rows, keys: seq<string>, doc: string) returns (ops: seq<Committed>)
    requires PancyDiff.InOrder(keys, rows)
    ensures forall i :: 0 <= i < |keys| ==> keys[i] in rows
    ensures Sorted(ops) && multiset(ops) == multiset(Collected(rows, keys, doc))
    ensures forall c :: c in ops <==> Stored(rows, doc, c)
    ensures VersionsUnique(rows) ==> Reads(rows, doc, ops)
  {
    KeysDistinct(keys, rows);
    var out := Gather(rows, keys, doc);
    ops := SortOps(out);
    CollectedAll(rows, keys, doc, out, ops);
    if VersionsUnique(rows) {
      CollectedOnce(rows, keys, doc);
      SortedIsStrict(out, ops);
    }
  }

  /** The loop of `read_ops`. */
  method Gather(rows: Rows, keys: seq<string>, doc: string) returns (out: seq<Committed>)
    requires forall i :: 0 <= i < |keys| ==> keys[i] in rows
    ensures out == Collected(rows, keys, doc)
  {
    out := [];
    var n: nat := 0;
    while n < |keys|
      invariant n <= |keys| && out == Collected(rows, keys[..n], doc)
    {
      var key := keys[n];
      assert keys[..n + 1][..n] == keys[..n];
      if Belongs(key, doc) && rows[key].version != NONEXISTENT_VERSION {
        var op := DeserializeOp(rows[key].value);
        if op.Some? {
          var id := ParseOpSuffix(key[|OpPrefix(doc)|..]).value;
          out := out + [Committed(rows[key].version, id.0, id.1, op.value, "")];
        }
      }
      n := n + 1;
    }
    assert keys[..n] == keys;
  }

  lemma CollectedAll(rows: Rows, keys: seq<string>, doc: string, out: seq<Committed>, ops: seq<Committed>)
    requires PancyDiff.InOrder(keys, rows) && forall i :: 0 <= i < |keys| ==> keys[i] in rows
    requires out == Collected(rows, keys, doc) && multiset(ops) == multiset(out)
    ensures forall c :: c in ops <==> Stored(rows, doc, c)
  {
    forall c ensures c in ops <==> Stored(rows, doc, c) {
      assert c in ops <==> c in multiset(ops);
      assert c in out <==> c in multiset(out);
      CollectedIs(rows, keys, doc, c);
      if Stored(rows, doc, c) {
        var key :| key in rows && OpAt(rows, key, doc) == Some(c);
        assert key in keys && HoldsAt(rows, key, doc, c);
      }
    }
  }

  ghost predicate HoldsAt(rows: Rows, key: string, doc: string, c: Committed) {
    key in rows && OpAt(rows, key, doc) == Some(c)
  }

  ghost predicate MetIn(rows: Rows, keys: seq<string>, doc: string, c: Committed) {
    exists k :: k in keys && HoldsAt(rows, k, doc, c)
  }

  lemma MetOneMore(rows: Rows, keys: seq<string>, doc: string, c: Committed)
    requires keys != []
    ensures MetIn(rows, keys, doc, c) <==> MetIn(rows, keys[..|keys| - 1], doc, c) || HoldsAt(rows, keys[|keys| - 1], doc, c)
  {
    var rest, last := keys[..|keys| - 1], keys[|keys| - 1];
    assert keys == rest + [last];
    if MetIn(rows, rest, doc, c) {
      var k :| k in rest && HoldsAt(rows, k, doc, c);
      assert k in keys;
    }
  }

  lemma {:induction false} CollectedIs(rows: Rows, keys: seq<string>, doc: string, c: Committed)
    requires forall i :: 0 <= i < |keys| ==> keys[i] in rows
    ensures c in Collected(rows, keys, doc) <==> MetIn(rows, keys, doc, c)
  {
    if keys != [] {
      CollectedIs(rows, keys[..|keys| - 1], doc, c);
      MetOneMore(rows, keys, doc, c);
    }
  }

  ghost predicate Distinct(ops: seq<Committed>) {
    forall i, j :: 0 <= i < j < |ops| ==> ops[i].version != ops[j].version
  }

  /** With unique versions no version is met twice. */
  lemma {:induction false} CollectedOnce(rows: Rows, keys: seq<string>, doc: string)
    requires VersionsUnique(rows) && forall i :: 0 <= i < |keys| ==> keys[i] in rows
    requires forall i, j :: 0 <= i < j < |keys| ==> keys[i] != keys[j]
    ensures Distinct(Collected(rows, keys, doc))
  {
    if keys != [] {
      var n := |keys| - 1;
      var rest, r := Collected(rows, keys[..n], doc), OpAt(rows, keys[n], doc);
      CollectedOnce(rows, keys[..n], doc);
      if r.Some? {
        forall i | 0 <= i < |rest| ensures rest[i].version != r.value.version {
          CollectedIs(rows, keys[..n], doc, rest[i]);
          var k :| k in keys[..n] && HoldsAt(rows, k, doc, rest[i]);
        }
      }
    }
  }

  lemma CountsTwice(ops: seq<Committed>, i: nat, j: nat)
    requires i < j < |ops| && ops[i] == ops[j]
    ensures multiset(ops)[ops[i]] >= 2
  {
    assert ops == ops[..j] + ops[j..];
    assert ops[i] == ops[..j][i] && ops[i] in ops[..j];
    assert ops[i] == ops[j..][0] && ops[i] in ops[j..];
  }

  lemma {:induction false} CountsOnce(ops: seq<Committed>, c: Committed)
    requires Distinct(ops)
    ensures multiset(ops)[c] <= 1
  {
    if ops != [] {
      var n := |ops| - 1;
      CountsOnce(ops[..n], c);
      assert ops == ops[..n] + [ops[n]];
      if c == ops[n] { assert c !in ops[..n]; }
    }
  }

  lemma SortedIsStrict(ops: seq<Committed>, out: seq<Committed>)
    requires Distinct(ops) && Sorted(out) && multiset(out) == multiset(ops)
    ensures Strict(out)
  {
    forall i, j | 0 <= i < j < |out| ensures out[i].version < out[j].version {
      assert out[i] in multiset(ops) && out[j] in multiset(ops);
      assert out[i] in ops && out[j] in ops;
      if out[i] == out[j] {
        CountsTwice(out, i, j);
        CountsOnce(ops, out[i]);
      }
    }
  }

  lemma KeysDistinct(keys: seq<string>, rows: Rows)
    requires PancyDiff.InOrder(keys, rows)
    ensures forall i :: 0 <= i < |keys| ==> keys[i] in rows
    ensures forall i, j :: 0 <= i < j < |keys| ==> keys[i] != keys[j]
  {
    forall i | 0 <= i < |keys| ensures keys[i] in rows { PancyDiff.KeysAreRows(keys, rows, i); }
    forall i, j | 0 <= i < j < |keys| ensures keys[i] != keys[j] { PancyDiff.BeforeIsOrder(keys[i], keys[j]); }
  }

  // ----- replay -----

  function Replay(ops: seq<Committed>): string {
    if ops == [] then "" else Apply(Replay(ops[..|ops| - 1]), ops[|ops| - 1].op)
  }

  /** `reconstruct` */
  method Reconstruct(ops: seq<Committed>) returns (text: string)
    ensures text == Replay(ops)
  {
    text := "";
    assert ops[..0] == [];
    for i := 0 to |ops|
      invariant text == Replay(ops[..i])
    {
      assert ops[..i + 1][..i] == ops[..i];
      text := Apply(text, ops[i].op);
    }
    assert ops[..|ops|] == ops;
  }

  // ----- one database, one reading; later databases, longer readings -----

  /** Everything in `b` beyond `a` is later than all of `a`. */
  ghost predicate Extends(a: seq<Committed>, b: seq<Committed>) {
    (forall c :: c in a ==> c in b) && forall c, d :: c in b && c !in a && d in a ==> d.version < c.version
  }

  lemma IndexOf(ops: seq<Committed>, c: Committed, n: nat) returns (j: nat)
    requires c in ops && n <= |ops| && forall k :: 0 <= k < n ==> ops[k] != c
    ensures n <= j < |ops| && ops[j] == c
  {
    j :| 0 <= j < |ops| && ops[j] == c;
  }

  /** The next element of the shorter list is the next element of the longer one. */
  lemma PrefixStep(a: seq<Committed>, b: seq<Committed>, i: nat)
    requires Strict(a) && Strict(b) && Extends(a, b) && i < |a| && i <= |b| && a[..i] == b[..i]
    ensures i < |b| && a[i] == b[i]
  {
    forall k | 0 <= k < i ensures a[k] == b[k] { assert a[..i][k] == b[..i][k]; }
    assert a[i] in a;
    var j := IndexOf(b, a[i], i);
    if j > i {
      assert b[i] in b && b[i].version < a[i].version;
      if b[i] in a {
        var k := IndexOf(a, b[i], i);
      }
      assert false;
    }
  }

  lemma {:induction false} SortedPrefix(a: seq<Committed>, b: seq<Committed>, n: nat)
    requires Strict(a) && Strict(b) && Extends(a, b) && n <= |a|
    ensures n <= |b| && a[..n] == b[..n]
    decreases n
  {
    if n > 0 {
      SortedPrefix(a, b, n - 1);
      PrefixStep(a, b, n - 1);
    }
  }

  /** What a store holds of a document determines the reading. */
  lemma ReadsUnique(rows: Rows, doc: string, a: seq<Committed>, b: seq<Committed>)
    requires Reads(rows, doc, a) && Reads(rows, doc, b)
    ensures a == b
  {
    SortedPrefix(a, b, |a|);
    SortedPrefix(b, a, |b|);
  }

  /** No request in the list overwrites or removes an operation of `doc`. */
  ghost predicate OnlyCreates(db: Db, reqs: seq<Request>, doc: string) {
    reqs != [] ==>
      var n := |reqs| - 1;
      var before := ProcessAll(db, reqs[..n]);
      && OnlyCreates(db, reqs[..n], doc)
      && (Belongs(reqs[n].key, doc) && reqs[n].key in before.rows ==> Process(before, reqs[n]).0 == before)
  }

  /** The document's rows are still there, and its new rows are newer. */
  ghost predicate Grown(db: Db, later: Db, doc: string) {
    && later.nextVersion >= db.nextVersion
    && (forall k :: k in db.rows && Belongs(k, doc) ==> k in later.rows && later.rows[k] == db.rows[k])
    && (forall k :: k in later.rows && k !in db.rows && Belongs(k, doc) ==> later.rows[k].version >= db.nextVersion)
  }

  lemma {:induction false} AllGrown(db: Db, reqs: seq<Request>, doc: string)
    requires DbOk(db) && OnlyCreates(db, reqs, doc)
    ensures Grown(db, ProcessAll(db, reqs), doc)
    decreases |reqs|
  {
    if reqs != [] {
      var n := |reqs| - 1;
      AllGrown(db, reqs[..n], doc);
      GrownStep(db, ProcessAll(db, reqs[..n]), reqs[n], doc);
    }
  }

  lemma GrownStep(db: Db, mid: Db, req: Request, doc: string)
    requires Grown(db, mid, doc) && (Belongs(req.key, doc) && req.key in mid.rows ==> Process(mid, req).0 == mid)
    ensures Grown(db, Process(mid, req).0, doc)
  {
  }

  /** While operation keys are only ever created, an earlier state's reading is a prefix of a later one's. */
  lemma EarlierIsPrefix(db: Db, reqs: seq<Request>, doc: string, a: seq<Committed>, b: seq<Committed>)
    requires DbOk(db) && OnlyCreates(db, reqs, doc)
    requires Reads(db.rows, doc, a) && Reads(ProcessAll(db, reqs).rows, doc, b)
    ensures a <= b
  {
    var later := ProcessAll(db, reqs);
    AllGrown(db, reqs, doc);
    GrownReads(db, later, doc, a, b);
    SortedPrefix(a, b, |a|);
  }

  lemma GrownReads(db: Db, later: Db, doc: string, a: seq<Committed>, b: seq<Committed>)
    requires DbOk(db) && Grown(db, later, doc) && Reads(db.rows, doc, a) && Reads(later.rows, doc, b)
    ensures Extends(a, b)
  {
    forall c | c in a ensures c in b && c.version < db.nextVersion {
      var key :| key in db.rows && OpAt(db.rows, key, doc) == Some(c);
      assert OpAt(later.rows, key, doc) == Some(c);
    }
    forall c | c in b && c !in a ensures c.version >= db.nextVersion {
      var key :| key in later.rows && OpAt(later.rows, key, doc) == Some(c);
      if key in db.rows { NotStored(db.rows, key, doc, c); }
    }
  }

  lemma NotStored(rows: Rows, key: string, doc: string, c: Committed)
    requires key in rows && !Stored(rows, doc, c)
    ensures OpAt(rows, key, doc) != Some(c)
  {
  }

  // ----- committing an operation -----

  /** An operation stored under its key is read back as itself, and by no other document. */
  lemma StoredIsRead(rows: Rows, doc: string, client: nat, seqNo: nat, op: Op, version: int, other: string)
    requires client < WORD64 && seqNo < WORD64 && Storable(op) && version != NONEXISTENT_VERSION
    ensures var key := OpKey(doc, client, seqNo);
            OpAt(rows[key := Vv(Serialize(op), version)], key, other)
              == if other == doc then Some(Committed(version, client, seqNo, op, "")) else None
  {
    KeyRoundTrip(doc, client, seqNo);
    RoundTrip(op);
    var key := OpKey(doc, client, seqNo);
    assert |key| > |OpPrefix(doc)|;
    if Belongs(key, other) { Isolation(key, doc, other); }
  }

  /** A new row adds what it holds to what is stored, and takes nothing away. */
  lemma NewRow(rows: Rows, key: string, vv: Vv, doc: string, d: Committed)
    requires key !in rows
    ensures Stored(rows[key := vv], doc, d) <==> Stored(rows, doc, d) || OpAt(rows[key := vv], key, doc) == Some(d)
  {
    var more := rows[key := vv];
    if Stored(rows, doc, d) {
      var k :| k in rows && OpAt(rows, k, doc) == Some(d);
      assert OpAt(more, k, doc) == Some(d);
    }
    if Stored(more, doc, d) {
      var k :| k in more && OpAt(more, k, doc) == Some(d);
      if k != key { assert OpAt(more, k, doc) == OpAt(rows, k, doc); }
    }
  }

  lemma StoredIsOld(db: Db, doc: string, d: Committed)
    requires DbOk(db) && Stored(db.rows, doc, d)
    ensures d.version < db.nextVersion
  {
    var k :| k in db.rows && OpAt(db.rows, k, doc) == Some(d);
  }

  lemma AppendReads(rows: Rows, more: Rows, doc: string, ops: seq<Committed>, c: Committed)
    requires Reads(rows, doc, ops) && forall d :: Stored(more, doc, d) <==> Stored(rows, doc, d) || d == c
    requires forall d :: d in ops ==> d.version < c.version
    ensures Reads(more, doc, ops + [c])
  {
    forall i | 0 <= i < |ops| ensures ops[i].version < c.version { assert ops[i] in ops; }
  }

  /** Committing an operation appends it to its document's reading and leaves every other document's alone. */
  lemma CommitAppends(db: Db, doc: string, client: nat, seqNo: nat, op: Op, other: string, ops: seq<Committed>)
    requires DbOk(db) && client < WORD64 && seqNo < WORD64 && Storable(op)
    requires OpKey(doc, client, seqNo) !in db.rows && Reads(db.rows, other, ops)
    ensures Reads(Write(db, OpKey(doc, client, seqNo), Serialize(op)).rows, other,
                  if other == doc then ops + [Committed(db.nextVersion, client, seqNo, op, "")] else ops)
  {
    var key, vv := OpKey(doc, client, seqNo), Vv(Serialize(op), db.nextVersion);
    StoredIsRead(db.rows, doc, client, seqNo, op, db.nextVersion, other);
    forall d ensures Stored(db.rows[key := vv], other, d) <==>
                     Stored(db.rows, other, d) || OpAt(db.rows[key := vv], key, other) == Some(d) {
      NewRow(db.rows, key, vv, other, d);
    }
    if other == doc {
      forall d | d in ops ensures d.version < db.nextVersion { StoredIsOld(db, doc, d); }
      AppendReads(db.rows, db.rows[key := vv], doc, ops, Committed(db.nextVersion, client, seqNo, op, ""));
    }
  }
}
