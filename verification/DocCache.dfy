/** The HTTP server's incremental copy of a document: per_doc_cache
    (pset4/http_server.cc:161-249, 297-357). */
module DocCache {
  import opened Options
  import opened DocOps
  import opened DocState
  import opened PancyDb
  import PancyDiff

  /** The same row of the store, whatever client label it has been given. */
  predicate SameRow(x: Committed, y: Committed) {
    x.(clientLabel := "") == y.(clientLabel := "")
  }

  predicate SameId(x: Committed, y: Committed) {
    x.client == y.client && x.seqNo == y.seqNo
  }

  ghost predicate SameRows(a: seq<Committed>, b: seq<Committed>) {
    |a| == |b| && forall i :: 0 <= i < |a| ==> SameRow(a[i], b[i])
  }

  /** Replay does not look at labels. */
  lemma {:induction false} SameRowsReplay(a: seq<Committed>, b: seq<Committed>)
    requires SameRows(a, b)
    ensures Replay(a) == Replay(b)
  {
    if a != [] {
      var n := |a| - 1;
      SameRowsReplay(a[..n], b[..n]);
      assert SameRow(a[n], b[n]);
    }
  }

  function LastVersion(ops: seq<Committed>): int {
    if ops == [] then 0 else ops[|ops| - 1].version
  }

  /** A version names one operation, in whichever list it appears. */
  ghost predicate VersionsName(a: seq<Committed>, b: seq<Committed>) {
    forall i, j :: 0 <= i < |a| && 0 <= j < |b| && a[i].version == b[j].version ==> a[i].op == b[j].op
  }

  ghost predicate IdsDistinct(ops: seq<Committed>) {
    forall i, j :: 0 <= i < j < |ops| ==> !SameId(ops[i], ops[j])
  }

  /** A row that survives with a label keeps it. */
  ghost predicate LabelsKept(a: seq<Committed>, b: seq<Committed>) {
    forall i, j :: 0 <= i < |a| && 0 <= j < |b| && SameId(a[i], b[j]) && a[i].clientLabel != "" ==> b[j].clientLabel == a[i].clientLabel
  }

  function IdOf(c: Committed): (nat, nat) {
    (c.client, c.seqNo)
  }

  /** The label of the first labelled row with this id, or none. */
  function FirstLabel(ops: seq<Committed>, id: (nat, nat)): string {
    if ops == [] then "" else
      var found, o := FirstLabel(ops[..|ops| - 1], id), ops[|ops| - 1];
      if found == "" && IdOf(o) == id then o.clientLabel else found
  }

  /** No row before the j-th has its id. */
  ghost predicate FirstOfId(ops: seq<Committed>, j: nat)
    requires j < |ops|
  {
    forall k :: 0 <= k < j ==> IdOf(ops[k]) != IdOf(ops[j])
  }

  /** What a rebuild makes of the labels: each goes to the first row of its id, and to no other. */
  ghost predicate LabelsCarried(a: seq<Committed>, b: seq<Committed>) {
    forall j :: 0 <= j < |b| ==> b[j].clientLabel == if FirstOfId(b, j) then FirstLabel(a, IdOf(b[j])) else ""
  }

  /** Row i is the first with the id of `c`, or there is none and i is the number of rows. */
  ghost predicate PlaceOf(ops: seq<Committed>, c: Committed, i: nat) {
    i <= |ops| && (i < |ops| ==> SameId(ops[i], c)) && forall k :: 0 <= k < i ==> !SameId(ops[k], c)
  }

  /** Row i with this label, unless it has one. */
  function Labelled(ops: seq<Committed>, i: nat, name: string): seq<Committed>
    requires i < |ops|
  {
    if ops[i].clientLabel == "" then ops[i := ops[i].(clientLabel := name)] else ops
  }

  /** The test for the fast path: what is cached is a prefix of what was read. */
  predicate AppendOnly(ops: seq<Committed>, latest: seq<Committed>) {
    |ops| <= |latest| &&
    forall i :: 0 <= i < |ops| ==> latest[i].version == ops[i].version && SameId(latest[i], ops[i])
  }

  class PerDocCache {
    var ops: seq<Committed>
    var clientLabels: map<nat, string>
    var text: string
    var version: int
    var epoch: nat

    /** The text is the replay of the operations, which are in version order; the version is the last one's. */
    ghost predicate Valid()
      reads this
    {
      && text == Replay(ops) && Strict(ops) && version == LastVersion(ops)
      && (forall i :: 0 <= i < |ops| ==> ops[i].version > 0)
      && (forall k :: k in clientLabels ==> clientLabels[k] != "")
    }

    constructor ()
      ensures Valid() && ops == [] && text == ""
    {
      ops, clientLabels, text, version, epoch := [], map[], "", 0, 0;
    }

    method IsAppendOnly(latest: seq<Committed>) returns (r: bool)
      ensures r == AppendOnly(ops, latest)
    {
      if |latest| < |ops| { return false; }
      var i: nat := 0;
      while i < |ops|
        invariant i <= |ops| && forall k :: 0 <= k < i ==> latest[k].version == ops[k].version && SameId(latest[k], ops[k])
      {
        if latest[i].version != ops[i].version || latest[i].client != ops[i].client || latest[i].seqNo != ops[i].seqNo {
          return false;
        }
        i := i + 1;
      }
      r := true;
    }

    /** Rows from n on carry the label learnt for their client, if any. */
    ghost predicate NewLabelled(n: nat)
      reads this
    {
      forall k :: n <= k < |ops| ==> ops[k].clientLabel == if ops[k].client in clientLabels then clientLabels[ops[k].client] else ""
    }

    /** The fast path: apply and keep the new operations only. */
    method AppendNew(latest: seq<Committed>)
      requires AppendOnly(ops, latest) && text == Replay(ops) && SameRows(ops, latest[..|ops|])
      requires forall i :: 0 <= i < |latest| ==> latest[i].clientLabel == ""
      modifies this`ops, this`text
      ensures SameRows(ops, latest) && text == Replay(ops) && old(ops) <= ops
      ensures NewLabelled(|old(ops)|)
    {
      var i := |ops|;
      while i < |latest|
        invariant |old(ops)| <= i == |ops| <= |latest| && SameRows(ops, latest[..i]) && text == Replay(ops) && old(ops) <= ops
        invariant NewLabelled(|old(ops)|)
      {
        var c := latest[i];
        if c.client in clientLabels { c := c.(clientLabel := clientLabels[c.client]); }
        OneMoreRow(ops, latest, i, c);
        text := Apply(text, c.op);
        ops := ops + [c];
        i := i + 1;
      }
      assert latest[..i] == latest;
    }

    /** The slow path: take over what was read, with the labels learnt so far, and replay it all. */
    method Rebuild(latest: seq<Committed>)
      requires forall i :: 0 <= i < |latest| ==> latest[i].clientLabel == ""
      modifies this`ops, this`text
      ensures SameRows(ops, latest) && text == Replay(ops) && LabelsCarried(old(ops), ops)
      ensures IdsDistinct(old(ops)) && IdsDistinct(latest) ==> LabelsKept(old(ops), ops)
    {
      var saved := SaveLabels(ops);
      SavedLabelsOf(ops);
      ops := Relabel(latest, ops, saved);
      CarriedAreKept(old(ops), ops, latest);
      text := Reconstruct(ops);
    }

    /** `refresh_ops_from_db`: bring the cache up to date with the store. */
    method RefreshOpsFromDb(rows: Rows, keys: seq<string>, doc: string) returns (ghost latest: seq<Committed>)
      requires Valid() && PancyDiff.InOrder(keys, rows) && VersionsUnique(rows)
      requires forall k :: k in rows ==> rows[k].version >= 1
      requires forall l :: Reads(rows, doc, l) ==> VersionsName(ops, l)
      modifies this
      ensures Valid() && Reads(rows, doc, latest)
      ensures SameRows(ops, latest) && text == Replay(latest)
      ensures if AppendOnly(old(ops), latest) then old(ops) <= ops && NewLabelled(|old(ops)|) else LabelsCarried(old(ops), ops)
      ensures IdsDistinct(old(ops)) && IdsDistinct(latest) ==> LabelsKept(old(ops), ops)
      ensures epoch == old(epoch) ==> ops == old(ops) && text == old(text)
      ensures epoch == old(epoch) + if SameRows(old(ops), latest) then 0 else 1
      ensures clientLabels == old(clientLabels)
    {
      var read := ReadOps(rows, keys, doc);
      latest := read;
      ReadsPlain(rows, doc, read);
      if read == [] {
        if ops != [] {
          ops, text, version, epoch := [], "", 0, epoch + 1;
        }
        return;
      }
      var appendOnly := IsAppendOnly(read);
      if appendOnly {
        RefreshFast(read);
      } else {
        RefreshSlow(read);
      }
    }

    method RefreshFast(read: seq<Committed>)
      requires Valid() && AppendOnly(ops, read) && VersionsName(ops, read) && Strict(read) && read != []
      requires forall i :: 0 <= i < |read| ==> read[i].version >= 1 && read[i].clientLabel == ""
      modifies this`ops, this`text, this`version, this`epoch
      ensures Valid() && SameRows(ops, read) && text == Replay(read) && old(ops) <= ops && NewLabelled(|old(ops)|)
      ensures IdsDistinct(read) ==> LabelsKept(old(ops), ops)
      ensures epoch == old(epoch) ==> ops == old(ops) && text == old(text)
      ensures epoch == old(epoch) + if SameRows(old(ops), read) then 0 else 1
    {
      PrefixRows(ops, read);
      AppendNew(read);
      FastPathTells(old(ops), ops, read);
      if read[|read| - 1].version != version {
        version, epoch := read[|read| - 1].version, epoch + 1;
      }
    }

    method RefreshSlow(read: seq<Committed>)
      requires Valid() && Strict(read) && read != []
      requires forall i :: 0 <= i < |read| ==> read[i].version >= 1 && read[i].clientLabel == ""
      modifies this`ops, this`text, this`version, this`epoch
      ensures Valid() && SameRows(ops, read) && text == Replay(read) && LabelsCarried(old(ops), ops)
      ensures IdsDistinct(old(ops)) && IdsDistinct(read) ==> LabelsKept(old(ops), ops)
      ensures epoch == old(epoch) + 1 && version == read[|read| - 1].version
    {
      Rebuild(read);
      RowsTellAll(ops, read);
      version, epoch := read[|read| - 1].version, epoch + 1;
    }

    /** `note_committed`: an operation the server has just seen committed. */
    method NoteCommitted(c: Committed) returns (ghost i: nat)
      requires Valid()
      modifies this
      ensures Valid() && PlaceOf(old(ops), c, i)
      ensures clientLabels == if c.clientLabel != "" then old(clientLabels)[c.client := c.clientLabel] else old(clientLabels)
      ensures i < |old(ops)| ==>
                ops == Labelled(old(ops), i, c.clientLabel) && text == old(text) && version == old(version) && epoch == old(epoch)
      ensures i == |old(ops)| ==>
                if c.version > old(version) then ops == old(ops) + [c] && text == Apply(old(text), c.op) && epoch == old(epoch) + 1
                else ops == old(ops) && text == old(text) && epoch == old(epoch)
      ensures IdsDistinct(old(ops)) ==> IdsDistinct(ops)
    {
      if c.clientLabel != "" { clientLabels := clientLabels[c.client := c.clientLabel]; }
      var place := FindSameId(c);
      i := place;
      NotingKeepsIds(ops, c, i);
      if place < |ops| {
        if ops[place].clientLabel == "" && c.clientLabel != "" { UpgradeLabel(place, c.clientLabel); }
        return;
      }
      if c.version > version { Append(c); }
    }

    /** The first row with the operation's client and sequence number, or the number of rows. */
    method FindSameId(c: Committed) returns (i: nat)
      ensures PlaceOf(ops, c, i)
    {
      i := 0;
      while i < |ops| && !SameId(ops[i], c)
        invariant i <= |ops| && forall k :: 0 <= k < i ==> !SameId(ops[k], c)
      {
        i := i + 1;
      }
    }

    method UpgradeLabel(i: nat, name: string)
      requires Valid() && i < |ops| && ops[i].clientLabel == ""
      modifies this`ops
      ensures Valid() && ops == old(ops)[i := old(ops)[i].(clientLabel := name)] && SameRows(ops, old(ops))
    {
      ops := ops[i := ops[i].(clientLabel := name)];
      SameRowsReplay(ops, old(ops));
    }

    method Append(c: Committed)
      requires Valid() && c.version > version
      modifies this`ops, this`text, this`version, this`epoch
      ensures Valid() && ops == old(ops) + [c] && text == Apply(old(text), c.op) && epoch == old(epoch) + 1
    {
      AppendedRow(ops, c);
      var longer := ops + [c];
      text := Apply(text, c.op);
      ops, version, epoch := longer, c.version, epoch + 1;
    }

    /** `note_client_label`: give the client's unlabelled operations their label. */
    method NoteClientLabel(client: nat, name: string)
      requires Valid()
      modifies this`clientLabels, this`ops
      ensures Valid()
      ensures |ops| == |old(ops)| && forall i :: 0 <= i < |ops| ==>
                ops[i] == if name != "" && old(ops)[i].client == client && old(ops)[i].clientLabel == ""
                          then old(ops)[i].(clientLabel := name) else old(ops)[i]
      ensures clientLabels == if name == "" then old(clientLabels) else old(clientLabels)[client := name]
    {
      if name == "" { return; }
      clientLabels := clientLabels[client := name];
      var i: nat := 0;
      while i < |ops|
        invariant i <= |ops| == |old(ops)| && clientLabels == old(clientLabels)[client := name]
        invariant forall k :: i <= k < |ops| ==> ops[k] == old(ops)[k]
        invariant forall k :: 0 <= k < i ==>
                    ops[k] == if old(ops)[k].client == client && old(ops)[k].clientLabel == ""
                              then old(ops)[k].(clientLabel := name) else old(ops)[k]
      {
        if ops[i].client == client && ops[i].clientLabel == "" {
          ops := ops[i := ops[i].(clientLabel := name)];
        }
        i := i + 1;
      }
      SameRowsReplay(ops, old(ops));
    }
  }

  // ----- labels -----

  type Saved = map<(nat, nat), string>

  /** The labels of the cached rows, by client and sequence number; the first row wins. */
  function SavedLabels(ops: seq<Committed>): Saved {
    if ops == [] then map[] else
      var saved, o := SavedLabels(ops[..|ops| - 1]), ops[|ops| - 1];
      if o.clientLabel != "" && (o.client, o.seqNo) !in saved then saved[(o.client, o.seqNo) := o.clientLabel] else saved
  }

  method SaveLabels(ops: seq<Committed>) returns (saved: Saved)
    ensures saved == SavedLabels(ops)
  {
    saved := map[];
    assert ops[..0] == [];
    for i := 0 to |ops|
      invariant saved == SavedLabels(ops[..i])
    {
      assert ops[..i + 1][..i] == ops[..i];
      var o := ops[i];
      if o.clientLabel != "" && (o.client, o.seqNo) !in saved {
        saved := saved[(o.client, o.seqNo) := o.clientLabel];
      }
    }
    assert ops[..|ops|] == ops;
  }

  /** The table holds, for every id that has one, its first label. */
  lemma {:induction false} SavedLabelsOf(ops: seq<Committed>)
    ensures forall id :: (if id in SavedLabels(ops) then SavedLabels(ops)[id] else "") == FirstLabel(ops, id)
    ensures forall id :: id in SavedLabels(ops) ==> SavedLabels(ops)[id] != ""
  {
    if ops != [] {
      var rest, o := ops[..|ops| - 1], ops[|ops| - 1];
      SavedLabelsOf(rest);
      forall id ensures (if id in SavedLabels(ops) then SavedLabels(ops)[id] else "") == FirstLabel(ops, id) {
        assert FirstLabel(ops, id) == if FirstLabel(rest, id) == "" && IdOf(o) == id then o.clientLabel else FirstLabel(rest, id);
        assert (if id in SavedLabels(rest) then SavedLabels(rest)[id] else "") == FirstLabel(rest, id);
      }
    }
  }

  /** Give each row the label saved for it; a label, once handed on, is gone from the table. */
  method Relabel(latest: seq<Committed>, ghost before: seq<Committed>, labels: Saved) returns (ops: seq<Committed>)
    requires forall i :: 0 <= i < |latest| ==> latest[i].clientLabel == ""
    requires forall id :: (if id in labels then labels[id] else "") == FirstLabel(before, id)
    ensures SameRows(ops, latest) && LabelsCarried(before, ops)
  {
    ops := latest;
    var saved := labels;
    var i: nat := 0;
    while i < |ops|
      invariant i <= |ops| && SameRows(ops, latest)
      invariant forall k :: i <= k < |ops| ==> ops[k] == latest[k]
      invariant saved.Keys == labels.Keys
      invariant forall k: nat :: i <= k < |ops| && IdOf(latest[k]) in saved ==>
                  saved[IdOf(latest[k])] == if SeenBefore(latest, i, IdOf(latest[k])) then "" else labels[IdOf(latest[k])]
      invariant forall k: nat :: k < i ==>
                  ops[k].clientLabel == if SeenBefore(latest, k, IdOf(latest[k])) then "" else FirstLabel(before, IdOf(latest[k]))
    {
      var id := IdOf(ops[i]);
      if id in saved {
        ops := ops[i := ops[i].(clientLabel := saved[id])];
        saved := saved[id := ""];
      }
      SeenOneMore(latest, i);
      i := i + 1;
    }
    forall j | 0 <= j < |ops| ensures IdOf(ops[j]) == IdOf(latest[j]) && (FirstOfId(ops, j) <==> !SeenBefore(latest, j, IdOf(latest[j]))) {
      assert forall k :: 0 <= k < |ops| ==> SameRow(ops[k], latest[k]);
    }
  }

  /** One of the first n rows has this id. */
  ghost predicate SeenBefore(ops: seq<Committed>, n: nat, id: (nat, nat))
    requires n <= |ops|
  {
    exists k :: 0 <= k < n && IdOf(ops[k]) == id
  }

  lemma SeenOneMore(ops: seq<Committed>, n: nat)
    requires n < |ops|
    ensures forall id :: SeenBefore(ops, n + 1, id) <==> SeenBefore(ops, n, id) || IdOf(ops[n]) == id
  {
    forall id | SeenBefore(ops, n, id) || IdOf(ops[n]) == id ensures SeenBefore(ops, n + 1, id) {
      var k :| 0 <= k <= n && IdOf(ops[k]) == id;
    }
  }

  /** With distinct ids on both sides, carrying the labels loses none. */
  lemma CarriedAreKept(a: seq<Committed>, b: seq<Committed>, latest: seq<Committed>)
    requires LabelsCarried(a, b) && SameRows(b, latest)
    ensures IdsDistinct(a) && IdsDistinct(latest) ==> LabelsKept(a, b)
  {
    if IdsDistinct(a) && IdsDistinct(latest) {
      forall i, j | 0 <= i < |a| && 0 <= j < |b| && SameId(a[i], b[j]) && a[i].clientLabel != ""
        ensures b[j].clientLabel == a[i].clientLabel
      {
        assert forall k :: 0 <= k < |b| ==> SameRow(b[k], latest[k]);
        assert FirstOfId(b, j);
        OnlyLabel(a, i);
      }
    }
  }

  lemma {:induction false} OnlyLabel(ops: seq<Committed>, i: nat)
    requires i < |ops| && IdsDistinct(ops)
    ensures FirstLabel(ops, IdOf(ops[i])) == ops[i].clientLabel
  {
    var n := |ops| - 1;
    if i == n {
      NoLabel(ops[..n], IdOf(ops[i]));
    } else {
      OnlyLabel(ops[..n], i);
    }
  }

  lemma {:induction false} NoLabel(ops: seq<Committed>, id: (nat, nat))
    requires forall k :: 0 <= k < |ops| ==> IdOf(ops[k]) != id
    ensures FirstLabel(ops, id) == ""
  {
    if ops != [] { NoLabel(ops[..|ops| - 1], id); }
  }

  lemma NotingKeepsIds(ops: seq<Committed>, c: Committed, i: nat)
    requires PlaceOf(ops, c, i)
    ensures IdsDistinct(ops) ==> if i < |ops| then IdsDistinct(Labelled(ops, i, c.clientLabel)) else IdsDistinct(ops + [c])
    ensures i < |ops| && c.clientLabel == "" ==> Labelled(ops, i, c.clientLabel) == ops
  {
  }

  // ----- the fast path -----

  lemma OneMoreRow(ops: seq<Committed>, latest: seq<Committed>, i: nat, c: Committed)
    requires i == |ops| < |latest| && SameRows(ops, latest[..i]) && SameRow(c, latest[i])
    ensures SameRows(ops + [c], latest[..i + 1]) && Replay(ops + [c]) == Apply(Replay(ops), c.op)
  {
    assert (ops + [c])[..i] == ops;
    assert forall k :: 0 <= k < i ==> latest[..i + 1][k] == latest[..i][k];
  }

  lemma AppendedRow(ops: seq<Committed>, c: Committed)
    requires Strict(ops) && c.version > LastVersion(ops)
    ensures Strict(ops + [c]) && LastVersion(ops + [c]) == c.version
    ensures Replay(ops + [c]) == Apply(Replay(ops), c.op)
  {
    assert (ops + [c])[..|ops|] == ops;
  }

  lemma ReadsPlain(rows: Rows, doc: string, ops: seq<Committed>)
    requires Reads(rows, doc, ops) && forall k :: k in rows ==> rows[k].version >= 1
    ensures forall i :: 0 <= i < |ops| ==> ops[i].clientLabel == "" && ops[i].version >= 1
  {
    forall i | 0 <= i < |ops| ensures ops[i].clientLabel == "" && ops[i].version >= 1 {
      assert ops[i] in ops;
      var key :| key in rows && OpAt(rows, key, doc) == Some(ops[i]);
    }
  }

  /** A prefix with the same versions and ids has the same operations too, if versions name operations. */
  lemma PrefixRows(ops: seq<Committed>, latest: seq<Committed>)
    requires AppendOnly(ops, latest) && VersionsName(ops, latest)
    ensures SameRows(ops, latest[..|ops|])
  {
  }

  lemma FastPathDone(before: seq<Committed>, ops: seq<Committed>, latest: seq<Committed>)
    requires before <= ops && SameRows(ops, latest)
    ensures IdsDistinct(latest) ==> LabelsKept(before, ops)
  {
    assert forall i :: 0 <= i < |before| ==> before[i] == ops[i];
    if IdsDistinct(latest) {
      forall i, j | 0 <= i < |ops| && 0 <= j < |ops| && SameId(ops[i], ops[j]) ensures i == j {
        assert SameRow(ops[i], latest[i]) && SameRow(ops[j], latest[j]);
        assert SameId(latest[i], latest[j]);
      }
    }
  }

  /** Appending rows moves the version on. */
  lemma NoNewRows(before: seq<Committed>, ops: seq<Committed>)
    requires before <= ops && Strict(ops) && forall i :: 0 <= i < |ops| ==> ops[i].version > 0
    ensures LastVersion(before) == LastVersion(ops) ==> ops == before
  {
    if |before| < |ops| && before != [] { assert before[|before| - 1] == ops[|before| - 1]; }
  }

  lemma SameUnlessGrown(before: seq<Committed>, ops: seq<Committed>, latest: seq<Committed>)
    requires before <= ops && SameRows(ops, latest)
    ensures SameRows(before, latest) <==> ops == before
  {
  }

  /** All that is known once the new rows are there. */
  lemma FastPathTells(before: seq<Committed>, ops: seq<Committed>, latest: seq<Committed>)
    requires before <= ops && SameRows(ops, latest) && Strict(latest) && latest != []
    requires forall i :: 0 <= i < |latest| ==> latest[i].version >= 1
    ensures Strict(ops) && Replay(ops) == Replay(latest) && LastVersion(ops) == latest[|latest| - 1].version
    ensures forall i :: 0 <= i < |ops| ==> ops[i].version > 0
    ensures IdsDistinct(latest) ==> LabelsKept(before, ops)
    ensures (SameRows(before, latest) <==> ops == before) && (LastVersion(before) == LastVersion(ops) <==> ops == before)
  {
    FastPathDone(before, ops, latest);
    RowsTellAll(ops, latest);
    NoNewRows(before, ops);
    SameUnlessGrown(before, ops, latest);
  }

  lemma RowsTellAll(ops: seq<Committed>, latest: seq<Committed>)
    requires SameRows(ops, latest) && Strict(latest) && forall i :: 0 <= i < |latest| ==> latest[i].version >= 1
    ensures Strict(ops) && LastVersion(ops) == LastVersion(latest) && Replay(ops) == Replay(latest)
    ensures forall i :: 0 <= i < |ops| ==> ops[i].version > 0
  {
    SameRowsReplay(ops, latest);
    forall i | 0 <= i < |ops| ensures ops[i].version == latest[i].version { assert SameRow(ops[i], latest[i]); }
  }

  /** Within one history a version names one operation, so the cache may compare versions. */
  lemma HistoryNames(db: Db, reqs: seq<Request>, doc: string, x: seq<Committed>, y: seq<Committed>)
    requires DbOk(db) && VersionsUnique(db.rows)
    requires Reads(db.rows, doc, x) && Reads(ProcessAll(db, reqs).rows, doc, y)
    ensures VersionsName(x, y)
  {
    PancyDiff.ProcessAllLater(db, reqs);
    var later := ProcessAll(db, reqs);
    forall i, j | 0 <= i < |x| && 0 <= j < |y| && x[i].version == y[j].version ensures x[i].op == y[j].op {
      assert x[i] in x && y[j] in y;
      var k :| k in db.rows && OpAt(db.rows, k, doc) == Some(x[i]);
      var l :| l in later.rows && OpAt(later.rows, l, doc) == Some(y[j]);
      assert PancyDiff.FromOrAfter(db, l, later.rows[l]);
      assert l == k;
    }
  }
}
