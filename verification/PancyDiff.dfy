/** Comparing two stores up to a version skew: `pancydb::diff` (pset4/pancydb.cc:91-155). */
module PancyDiff {
  import opened Options
  import opened PancyDb

  // ----- one key -----

  /** The newest remembered removal of `key` at or after version `min`. */
  function RecentRemoval(removes: seq<RecentRemove>, key: string, min: int): (r: Option<Vv>)
    decreases |removes|
  {
    if removes == [] then None
    else if removes[0].key == key && removes[0].removeVersion >= min then Some(removes[0].vv)
    else RecentRemoval(removes[1..], key, min)
  }

  /** A row, or else the recent removal that stands in for it. */
  function Trace(db: Db, key: string, min: int): Option<Vv> {
    if key in db.rows then Some(db.rows[key]) else RecentRemoval(db.removes, key, min)
  }

  predicate RemovesComplete(db: Db, min: int) {
    |db.removes| < MAX_RECENT_REMOVES || db.removes[|db.removes| - 1].removeVersion <= min
  }

  /** The verdict of the loop body on a key of at least one of the two stores, `a` the newer. */
  predicate Mismatch(a: Db, b: Db, min: int, key: string) {
    var av, bv := Trace(a, key, min), Trace(b, key, min);
    if av.Some? && bv.None? && av.value.version >= min then false
    else if av.None? && !RemovesComplete(a, min) then false
    else
      || av.None? || bv.None?
      || av.value.version < bv.value.version
      || (av.value.version > bv.value.version && av.value.version < min)
      || (av.value.version == bv.value.version && av.value.value != bv.value.value)
  }

  ghost predicate Differ(a: Db, b: Db, skew: nat) {
    exists key :: (key in a.rows || key in b.rows) && Mismatch(a, b, a.nextVersion - skew, key)
  }

  // ----- no false alarm -----

  /** What the log of removals still says of a row of `b` that `a` no longer has: the removal is
      there, or the log is full of later ones. */
  ghost predicate RemovalKnown(b: Db, a: Db, key: string) {
    || (exists i :: 0 <= i < |a.removes| && a.removes[i].key == key && a.removes[i].removeVersion >= b.nextVersion)
    || (|a.removes| == MAX_RECENT_REMOVES && a.removes[MAX_RECENT_REMOVES - 1].removeVersion > b.nextVersion)
  }

  /** A value `a` holds or held: written after `b`, or taken over from it. */
  predicate FromOrAfter(b: Db, key: string, vv: Vv) {
    vv.version >= b.nextVersion || (key in b.rows && vv == b.rows[key])
  }

  /** `a` comes after `b` in one history. */
  ghost predicate Later(b: Db, a: Db) {
    && DbOk(a) && a.nextVersion >= b.nextVersion
    && (forall k :: k in a.rows ==> FromOrAfter(b, k, a.rows[k]))
    && (forall i :: 0 <= i < |a.removes| && a.removes[i].removeVersion >= b.nextVersion ==>
          FromOrAfter(b, a.removes[i].key, a.removes[i].vv))
    && (forall k :: k in b.rows && k !in a.rows ==> RemovalKnown(b, a, k))
  }

  lemma EraseKeepsKnown(b: Db, a: Db, key: string, k: string)
    requires Later(b, a) && key in a.rows && k in b.rows && (k == key || k !in a.rows)
    ensures RemovalKnown(b, Erase(a, key), k)
  {
    var c := Erase(a, key);
    assert c.removes[0] == RecentRemove(key, a.rows[key], a.nextVersion);
    if k != key {
      assert RemovalKnown(b, a, k);
      if |a.removes| < MAX_RECENT_REMOVES {
        var i :| 0 <= i < |a.removes| && a.removes[i].key == k && a.removes[i].removeVersion >= b.nextVersion;
        assert c.removes[i + 1] == a.removes[i];
      } else {
        assert c.removes[MAX_RECENT_REMOVES - 1] == a.removes[MAX_RECENT_REMOVES - 2];
        if i :| 0 <= i < |a.removes| && a.removes[i].key == k && a.removes[i].removeVersion >= b.nextVersion {
          if i < MAX_RECENT_REMOVES - 1 { assert c.removes[i + 1] == a.removes[i]; }
        }
      }
    }
  }

  lemma EraseKeepsLater(b: Db, a: Db, key: string)
    requires Later(b, a) && key in a.rows
    ensures Later(b, Erase(a, key))
  {
    var c := Erase(a, key);
    ProcessKeepsDbOk(a, Remove(0, key, -1));
    forall i | 0 <= i < |c.removes| && c.removes[i].removeVersion >= b.nextVersion
      ensures FromOrAfter(b, c.removes[i].key, c.removes[i].vv)
    {
      if i > 0 { assert c.removes[i] == a.removes[i - 1]; }
    }
    forall k | k in b.rows && k !in c.rows ensures RemovalKnown(b, c, k) { EraseKeepsKnown(b, a, key, k); }
  }

  lemma ProcessKeepsLater(b: Db, a: Db, req: Request)
    requires Later(b, a)
    ensures Later(b, Process(a, req).0)
  {
    ProcessKeepsDbOk(a, req);
    var c := Process(a, req).0;
    if req.Remove? {
      if c != a { EraseKeepsLater(b, a, req.key); }
    } else {
      forall k | k in b.rows && k !in c.rows ensures RemovalKnown(b, c, k) { assert RemovalKnown(b, a, k); }
    }
  }

  lemma {:induction false} ProcessAllLater(b: Db, reqs: seq<Request>)
    requires DbOk(b)
    ensures Later(b, ProcessAll(b, reqs))
    decreases |reqs|
  {
    if reqs != [] {
      ProcessAllLater(b, reqs[..|reqs| - 1]);
      ProcessKeepsLater(b, ProcessAll(b, reqs[..|reqs| - 1]), reqs[|reqs| - 1]);
    }
  }

  /** The newest match, if any, is the first. */
  lemma {:induction false} RecentRemovalIs(removes: seq<RecentRemove>, key: string, min: int)
    ensures match RecentRemoval(removes, key, min)
            case None => forall i :: 0 <= i < |removes| && removes[i].removeVersion >= min ==> removes[i].key != key
            case Some(vv) => exists i :: 0 <= i < |removes| && removes[i].key == key && removes[i].removeVersion >= min
                                         && removes[i].vv == vv && forall j :: 0 <= j < i && removes[j].removeVersion >= min ==> removes[j].key != key
    decreases |removes|
  {
    if removes != [] {
      if removes[0].key == key && removes[0].removeVersion >= min {
        assert removes[0].vv == RecentRemoval(removes, key, min).value;
      } else {
        RecentRemovalIs(removes[1..], key, min);
        var rest := RecentRemoval(removes[1..], key, min);
        if rest.Some? {
          var i :| 0 <= i < |removes[1..]| && removes[1..][i].key == key && removes[1..][i].removeVersion >= min
                   && removes[1..][i].vv == rest.value && forall j :: 0 <= j < i && removes[1..][j].removeVersion >= min ==> removes[1..][j].key != key;
          assert removes[i + 1] == removes[1..][i];
          assert forall j :: 0 < j < i + 1 ==> removes[j] == removes[1..][j - 1];
        } else {
          assert forall j :: 0 < j < |removes| ==> removes[j] == removes[1..][j - 1];
        }
      }
    }
  }

  /** A removal found for a row of `b` that `a` lacks happened after `b`. */
  lemma FoundIsLater(b: Db, a: Db, key: string, min: int)
    requires Later(b, a) && key in b.rows && key !in a.rows && min <= b.nextVersion
    ensures var av := RecentRemoval(a.removes, key, min);
            (av.Some? ==> FromOrAfter(b, key, av.value)) && (av.None? ==> !RemovesComplete(a, min))
  {
    RecentRemovalIs(a.removes, key, min);
    assert RemovalKnown(b, a, key);
  }

  lemma KeyMatches(b: Db, a: Db, key: string, min: int)
    requires DbOk(b) && Later(b, a) && min <= b.nextVersion && (key in a.rows || key in b.rows)
    ensures !Mismatch(a, b, min, key)
  {
    if key !in a.rows {
      FoundIsLater(b, a, key, min);
    } else if key !in b.rows {
      RecentRemovalIs(b.removes, key, min);
    }
  }

  lemma LaterMatches(b: Db, a: Db, skew: nat)
    requires DbOk(b) && Later(b, a) && a.nextVersion <= b.nextVersion + skew
    ensures !Differ(a, b, skew)
  {
    var min := a.nextVersion - skew;
    forall key | key in a.rows || key in b.rows ensures !Mismatch(a, b, min, key) { KeyMatches(b, a, key, min); }
  }

  /** No false alarm: a store whose history extends the other's by at most `skew` mutations does not
      differ from it, even if the log of removals has dropped entries. */
  lemma NoFalseAlarm(b: Db, reqs: seq<Request>, skew: nat)
    requires DbOk(b) && ProcessAll(b, reqs).nextVersion <= b.nextVersion + skew
    ensures !Differ(ProcessAll(b, reqs), b, skew)
  {
    ProcessAllLater(b, reqs);
    LaterMatches(b, ProcessAll(b, reqs), skew);
  }

  /** With no skew allowed, stores differ exactly when their maps do. */
  lemma ExactWithoutSkew(a: Db, b: Db)
    requires DbOk(a) && DbOk(b) && a.nextVersion >= b.nextVersion
    ensures !Differ(a, b, 0) <==> a.rows == b.rows
  {
    forall key | key in a.rows || key in b.rows
      ensures Mismatch(a, b, a.nextVersion, key) <==> !(key in a.rows && key in b.rows && a.rows[key] == b.rows[key])
    {
      RecentRemovalIs(a.removes, key, a.nextVersion);
      RecentRemovalIs(b.removes, key, a.nextVersion);
    }
    if a.rows != b.rows {
      if a.rows.Keys == b.rows.Keys {
        var key :| key in a.rows && a.rows[key] != b.rows[key];
      } else {
        var key :| (key in a.rows) != (key in b.rows);
      }
    }
  }

  // ----- what is reported, in terms of rows and removal logs -----

  /** Entry i of the log is the newest removal of `key` at or after version `min`. */
  ghost predicate LastRemoved(removes: seq<RecentRemove>, i: nat, key: string, min: int) {
    && i < |removes| && removes[i].key == key && removes[i].removeVersion >= min
    && forall j :: 0 <= j < i && removes[j].removeVersion >= min ==> removes[j].key != key
  }

  ghost predicate NeverRemoved(removes: seq<RecentRemove>, key: string, min: int) {
    forall i :: 0 <= i < |removes| && removes[i].removeVersion >= min ==> removes[i].key != key
  }

  /** A value the newer store has or had may follow one the older has or had: it is the same one, or
      a later one from inside the window. */
  ghost predicate Follows(newer: Vv, older: Vv, min: int) {
    if newer.version == older.version then newer.value == older.value
    else newer.version > older.version && newer.version >= min
  }

  /** How the two stores may differ at a key without a report. If both have it, the newer row follows
      the older. If only the newer has it, the older removed a row it follows, or the row is from
      inside the window. If only the older has it, the newer removed a row that follows it, or the
      newer's log of removals is full and does not reach back to the window's start. */
  ghost predicate Explained(a: Db, b: Db, min: int, key: string) {
    if key in a.rows && key in b.rows then Follows(a.rows[key], b.rows[key], min)
    else if key in a.rows then
      || (NeverRemoved(b.removes, key, min) && a.rows[key].version >= min)
      || exists i: nat :: LastRemoved(b.removes, i, key, min) && Follows(a.rows[key], b.removes[i].vv, min)
    else if key in b.rows then
      || (NeverRemoved(a.removes, key, min) && |a.removes| >= MAX_RECENT_REMOVES && a.removes[|a.removes| - 1].removeVersion > min)
      || exists i: nat :: LastRemoved(a.removes, i, key, min) && Follows(a.removes[i].vv, b.rows[key], min)
    else true
  }

  ghost predicate AllExplained(a: Db, b: Db, min: int) {
    forall key :: key in a.rows || key in b.rows ==> Explained(a, b, min, key)
  }

  /** The first key at which the difference is not explained. */
  ghost predicate FirstUnexplained(a: Db, b: Db, min: int, key: string) {
    && (key in a.rows || key in b.rows) && !Explained(a, b, min, key)
    && forall k :: (k in a.rows || k in b.rows) && !Explained(a, b, min, k) ==> k == key || Before(key, k)
  }

  lemma RemovalFound(removes: seq<RecentRemove>, key: string, min: int)
    ensures RecentRemoval(removes, key, min).None? <==> NeverRemoved(removes, key, min)
    ensures forall i: nat :: LastRemoved(removes, i, key, min) ==> RecentRemoval(removes, key, min) == Some(removes[i].vv)
    ensures RecentRemoval(removes, key, min).Some? ==> exists i: nat :: LastRemoved(removes, i, key, min)
  {
    RecentRemovalIs(removes, key, min);
    var r := RecentRemoval(removes, key, min);
    if r.Some? {
      var i :| 0 <= i < |removes| && removes[i].key == key && removes[i].removeVersion >= min
               && removes[i].vv == r.value && forall j :: 0 <= j < i && removes[j].removeVersion >= min ==> removes[j].key != key;
      assert LastRemoved(removes, i, key, min);
    }
  }

  lemma MismatchExactly(a: Db, b: Db, min: int, key: string)
    requires key in a.rows || key in b.rows
    ensures Mismatch(a, b, min, key) <==> !Explained(a, b, min, key)
  {
    RemovalFound(a.removes, key, min);
    RemovalFound(b.removes, key, min);
    if key in a.rows && key !in b.rows {
      if RecentRemoval(b.removes, key, min).Some? { var i: nat :| LastRemoved(b.removes, i, key, min); }
    } else if key !in a.rows {
      if RecentRemoval(a.removes, key, min).Some? { var i: nat :| LastRemoved(a.removes, i, key, min); }
    }
  }

  /** What is reported, for every skew: nothing exactly if every difference is explained. */
  lemma ReportsExactly(a: Db, b: Db, skew: nat)
    ensures !Differ(a, b, skew) <==> AllExplained(a, b, a.nextVersion - skew)
  {
    var min := a.nextVersion - skew;
    if Differ(a, b, skew) {
      var key :| (key in a.rows || key in b.rows) && Mismatch(a, b, min, key);
      MismatchExactly(a, b, min, key);
    } else {
      forall key | key in a.rows || key in b.rows ensures Explained(a, b, min, key) { MismatchExactly(a, b, min, key); }
    }
  }

  // ----- the loop -----

  /** `<` on strings, as std::string compares them. */
  predicate Before(x: string, y: string)
    decreases |x|
  {
    y != [] && (x == [] || x[0] < y[0] || (x[0] == y[0] && Before(x[1..], y[1..])))
  }

  lemma {:induction false} BeforeIsOrder(x: string, y: string)
    ensures x == y || Before(x, y) || Before(y, x)
    ensures !(Before(x, y) && Before(y, x)) && (Before(x, y) ==> x != y)
    decreases |x|
  {
    if x != [] && y != [] && x[0] == y[0] {
      BeforeIsOrder(x[1..], y[1..]);
      assert x == [x[0]] + x[1..] && y == [y[0]] + y[1..];
    }
  }

  lemma {:induction false} BeforeTransitive(x: string, y: string, z: string)
    requires Before(x, y) && Before(y, z)
    ensures Before(x, z)
    decreases |x|
  {
    if x != [] && x[0] == y[0] == z[0] { BeforeTransitive(x[1..], y[1..], z[1..]); }
  }

  /** The keys of a map in the order its iterator visits them. */
  ghost predicate InOrder(keys: seq<string>, rows: map<string, Vv>) {
    && (forall k :: k in rows <==> k in keys)
    && forall i, j :: 0 <= i < j < |keys| ==> Before(keys[i], keys[j])
  }

  method FindRecentRemove(db: Db, key: string, min: int) returns (r: Option<Vv>)
    ensures r == RecentRemoval(db.removes, key, min)
  {
    var i: nat := 0;
    assert db.removes[0..] == db.removes;
    while i < |db.removes|
      invariant i <= |db.removes| && RecentRemoval(db.removes, key, min) == RecentRemoval(db.removes[i..], key, min)
    {
      assert db.removes[i..][1..] == db.removes[i + 1..];
      if db.removes[i].key == key && db.removes[i].removeVersion >= min {
        return Some(db.removes[i].vv);
      }
      i := i + 1;
    }
    r := None;
  }

  /** The value to compare at a key: the row, or else a recent removal. */
  method FindVersion(db: Db, present: bool, key: string, min: int) returns (r: Option<Vv>)
    requires present <==> key in db.rows
    ensures r == Trace(db, key, min)
  {
    if present { r := Some(db.rows[key]); } else { r := FindRecentRemove(db, key, min); }
  }

  /** Both iterators have passed the same keys. */
  ghost predicate Abreast(ks: seq<string>, i: nat, ls: seq<string>, j: nat)
    requires i <= |ks| && j <= |ls|
  {
    && (forall x, y :: 0 <= x < i && j <= y < |ls| ==> Before(ks[x], ls[y]))
    && (forall x, y :: i <= x < |ks| && 0 <= y < j ==> Before(ls[y], ks[x]))
  }

  lemma KeysAreRows(keys: seq<string>, rows: map<string, Vv>, i: nat)
    requires InOrder(keys, rows) && i < |keys|
    ensures keys[i] in rows
  {
    assert keys[i] in keys;
  }

  /** A key ahead on one side is on the other side only if it is ahead there too. */
  lemma AheadOnly(ks: seq<string>, i: nat, ls: seq<string>, j: nat, rows: map<string, Vv>)
    requires i < |ks| && j <= |ls| && Abreast(ks, i, ls, j) && InOrder(ls, rows)
    requires j < |ls| ==> Before(ks[i], ls[j])
    ensures ks[i] !in rows
  {
    if ks[i] in rows {
      var y :| 0 <= y < |ls| && ls[y] == ks[i];
      BeforeIsOrder(ks[i], ls[y]);
      if y > j {
        BeforeIsOrder(ks[i], ls[j]);
      }
    }
  }

  /** The keys passed so far agree. */
  ghost predicate Agreed(a: Db, b: Db, min: int, keys: seq<string>, i: nat)
    requires i <= |keys|
  {
    forall x :: 0 <= x < i ==> !Mismatch(a, b, min, keys[x])
  }

  /** A key at which neither iterator can be before it. */
  ghost predicate First(ks: seq<string>, i: nat, ls: seq<string>, j: nat, key: string)
    requires i <= |ks| && j <= |ls|
  {
    && (forall x :: i <= x < |ks| ==> ks[x] == key || Before(key, ks[x]))
    && (forall y :: j <= y < |ls| ==> ls[y] == key || Before(key, ls[y]))
  }

  /** The comparison of the two iterators: which of them, if not both, is at the smaller key. */
  method CompareKeys(ks: seq<string>, i: nat, ls: seq<string>, j: nat, ghost aRows: map<string, Vv>, ghost bRows: map<string, Vv>)
    returns (inA: bool, inB: bool, key: string)
    requires i <= |ks| && j <= |ls| && (i < |ks| || j < |ls|) && Abreast(ks, i, ls, j) && InOrder(ks, aRows) && InOrder(ls, bRows)
    ensures inA || inB
    ensures inA ==> i < |ks| && key == ks[i]
    ensures inB ==> j < |ls| && key == ls[j]
    ensures (inA <==> key in aRows) && (inB <==> key in bRows)
    ensures First(ks, i, ls, j, key) && Abreast(ks, if inA then i + 1 else i, ls, if inB then j + 1 else j)
  {
    if i < |ks| { KeysAreRows(ks, aRows, i); }
    if j < |ls| { KeysAreRows(ls, bRows, j); }
    if i == |ks| {
      inA, inB, key := false, true, ls[j];
      OnlyInSecond(ks, i, ls, j, aRows);
    } else if j == |ls| {
      inA, inB, key := true, false, ks[i];
      AheadOnly(ks, i, ls, j, bRows);
    } else if ks[i] == ls[j] {
      inA, inB, key := true, true, ks[i];
    } else {
      BeforeIsOrder(ks[i], ls[j]);
      if Before(ks[i], ls[j]) {
        inA, inB, key := true, false, ks[i];
        AheadOnly(ks, i, ls, j, bRows);
      } else {
        inA, inB, key := false, true, ls[j];
        OnlyInSecond(ks, i, ls, j, aRows);
      }
    }
    AdvanceKeeps(ks, i, ls, j, key, inA, inB);
  }

  lemma OnlyInSecond(ks: seq<string>, i: nat, ls: seq<string>, j: nat, rows: map<string, Vv>)
    requires i <= |ks| && j < |ls| && Abreast(ks, i, ls, j) && InOrder(ks, rows)
    requires i < |ks| ==> Before(ls[j], ks[i])
    ensures ls[j] !in rows
  {
    AheadOnly(ls, j, ks, i, rows);
  }

  lemma AdvanceKeeps(ks: seq<string>, i: nat, ls: seq<string>, j: nat, key: string, inA: bool, inB: bool)
    requires i <= |ks| && j <= |ls| && Abreast(ks, i, ls, j) && (inA || inB)
    requires forall x, y :: 0 <= x < y < |ks| ==> Before(ks[x], ks[y])
    requires forall x, y :: 0 <= x < y < |ls| ==> Before(ls[x], ls[y])
    requires if inA then i < |ks| && key == ks[i] else i == |ks| || Before(key, ks[i])
    requires if inB then j < |ls| && key == ls[j] else j == |ls| || Before(key, ls[j])
    ensures First(ks, i, ls, j, key) && Abreast(ks, if inA then i + 1 else i, ls, if inB then j + 1 else j)
  {
    forall x | i <= x < |ks| ensures if inA && x == i then ks[x] == key else Before(key, ks[x]) {
      if !inA && x > i { BeforeTransitive(key, ks[i], ks[x]); }
    }
    forall y | j <= y < |ls| ensures if inB && y == j then ls[y] == key else Before(key, ls[y]) {
      if !inB && y > j { BeforeTransitive(key, ls[j], ls[y]); }
    }
  }

  /** `diff`: nothing if the stores agree up to `skew`, else the first key at which they do not.
      `ks` and `ls` are the orders in which the iterators walk the maps. */
  method DiffNewer(a: Db, b: Db, skew: nat, ks: seq<string>, ls: seq<string>) returns (r: Option<string>)
    requires a.nextVersion >= b.nextVersion && InOrder(ks, a.rows) && InOrder(ls, b.rows)
    ensures r == None <==> !Differ(a, b, skew)
    ensures r == None <==> AllExplained(a, b, a.nextVersion - skew)
    ensures r.Some? ==> FirstUnexplained(a, b, a.nextVersion - skew, r.value)
  {
    var min := a.nextVersion - skew;
    var removesComplete := |a.removes| < MAX_RECENT_REMOVES || a.removes[|a.removes| - 1].removeVersion <= min;
    var i: nat, j: nat := 0, 0;
    while i < |ks| || j < |ls|
      invariant i <= |ks| && j <= |ls| && Abreast(ks, i, ls, j)
      invariant Agreed(a, b, min, ks, i) && Agreed(a, b, min, ls, j)
      decreases |ks| - i + |ls| - j
    {
      var inA, inB, key := CompareKeys(ks, i, ls, j, a.rows, b.rows);
      var av := FindVersion(a, inA, key, min);
      var bv := FindVersion(b, inB, key, min);
      var bad := Verdict(av, bv, min, removesComplete);
      assert bad == Mismatch(a, b, min, key);
      if bad {
        FirstIsLeast(a, b, min, ks, i, ls, j, key);
        ReportsExactly(a, b, skew);
        return Some(key);
      }
      if inA { i := i + 1; }
      if inB { j := j + 1; }
    }
    AllAgreed(a, b, min, ks, ls);
    ReportsExactly(a, b, skew);
    r := None;
  }

  lemma AllAgreed(a: Db, b: Db, min: int, ks: seq<string>, ls: seq<string>)
    requires InOrder(ks, a.rows) && InOrder(ls, b.rows) && Agreed(a, b, min, ks, |ks|) && Agreed(a, b, min, ls, |ls|)
    ensures forall key :: key in a.rows || key in b.rows ==> !Mismatch(a, b, min, key)
  {
    forall key | key in a.rows || key in b.rows ensures !Mismatch(a, b, min, key) {
      if key in a.rows { assert key in ks; } else { assert key in ls; }
    }
  }

  /** The version correspondence of the loop body: is it an error? */
  method Verdict(av: Option<Vv>, bv: Option<Vv>, min: int, removesComplete: bool) returns (bad: bool)
    ensures bad ==
      if av.Some? && bv.None? && av.value.version >= min then false
      else if av.None? && !removesComplete then false
      else
        || av.None? || bv.None?
        || av.value.version < bv.value.version
        || (av.value.version > bv.value.version && av.value.version < min)
        || (av.value.version == bv.value.version && av.value.value != bv.value.value)
  {
    if av.Some? && bv.None? && av.value.version >= min {
      bad := false;
    } else if av.None? && !removesComplete {
      bad := false;
    } else {
      bad := av.None? || bv.None? || av.value.version < bv.value.version
        || (av.value.version > bv.value.version && av.value.version < min)
        || (av.value.version == bv.value.version && av.value.value != bv.value.value);
    }
  }

  lemma FirstIsLeast(a: Db, b: Db, min: int, ks: seq<string>, i: nat, ls: seq<string>, j: nat, key: string)
    requires i <= |ks| && j <= |ls| && First(ks, i, ls, j, key) && InOrder(ks, a.rows) && InOrder(ls, b.rows)
    requires Agreed(a, b, min, ks, i) && Agreed(a, b, min, ls, j) && (key in a.rows || key in b.rows) && Mismatch(a, b, min, key)
    ensures FirstUnexplained(a, b, min, key)
  {
    MismatchExactly(a, b, min, key);
    forall k | (k in a.rows || k in b.rows) && !Explained(a, b, min, k) ensures k == key || Before(key, k) {
      MismatchExactly(a, b, min, k);
      if k in a.rows {
        var x :| 0 <= x < |ks| && ks[x] == k;
      } else {
        var y :| 0 <= y < |ls| && ls[y] == k;
      }
    }
  }

  /** `diff`, called on either store. */
  method Diff(a: Db, b: Db, skew: nat, ks: seq<string>, ls: seq<string>) returns (r: Option<string>)
    requires InOrder(ks, a.rows) && InOrder(ls, b.rows)
    ensures r == None <==> if a.nextVersion < b.nextVersion then !Differ(b, a, skew) else !Differ(a, b, skew)
    ensures if a.nextVersion < b.nextVersion then r == None <==> AllExplained(b, a, b.nextVersion - skew)
            else r == None <==> AllExplained(a, b, a.nextVersion - skew)
  {
    if a.nextVersion < b.nextVersion {
      r := DiffNewer(b, a, skew, ls, ks);
    } else {
      r := DiffNewer(a, b, skew, ks, ls);
    }
  }
}
