/** What a client of the store may rely on, in terms of stored values, versions and answers only. */
module PancyLaws {
  import opened Options
  import opened PancyDb

  // ----- one request -----

  /** A get answers with the stored value and version, or with the empty value and version 0, and
      changes nothing. */
  lemma GetReturnsStored(db: Db, serial: nat, key: string)
    ensures Process(db, Get(serial, key)) ==
            (db, if key in db.rows then GetResponse(serial, Ok, db.rows[key].value, db.rows[key].version)
                 else GetResponse(serial, Ok, "", 0))
  {
  }

  /** The value and version a client sees at a key: empty and 0 if the key is absent. */
  function Seen(db: Db, key: string): (string, int) {
    if key in db.rows then (db.rows[key].value, db.rows[key].version) else ("", 0)
  }

  /** When a mutation may proceed: the version asked for, if any is, is the one stored, a
      compare-and-swap also expects the stored value, and a removal finds the key. */
  predicate Permitted(db: Db, req: Request) {
    var (value, version) := Seen(db, req.key);
    match req
    case Get(_, _) => true
    case Put(_, _, _, wanted) => wanted < 0 || wanted == version
    case Cas(_, _, expected, _, wanted) => expected == value && (wanted < 0 || wanted == version)
    case Remove(_, _, wanted) => req.key in db.rows && (wanted < 0 || wanted == version)
  }

  /** `after` differs from `before` at one key at most. */
  ghost predicate OnlyAt(before: Db, after: Db, key: string) {
    forall k :: k != key ==> (k in after.rows <==> k in before.rows) && (k in after.rows ==> after.rows[k] == before.rows[k])
  }

  /** A put or compare-and-swap succeeds exactly when it is permitted. It then stores the new value
      under a version never used before, which it answers together with the version it replaced, and
      a get that follows sees both. */
  lemma WriteIsSeen(db: Db, req: Request, serial: nat)
    requires DbOk(db) && (req.Put? || req.Cas?)
    ensures var (after, resp) := Process(db, req);
            var value := if req.Put? then req.value else req.desired;
            && (resp.err == Ok <==> Permitted(db, req))
            && (Permitted(db, req) ==>
                  && Process(after, Get(serial, req.key)).1 == GetResponse(serial, Ok, value, resp.version)
                  && resp.previousVersion == Seen(db, req.key).1 && resp.actual == ""
                  && (forall k :: k in db.rows ==> db.rows[k].version < resp.version)
                  && (forall i :: 0 <= i < |db.removes| ==> db.removes[i].removeVersion < resp.version)
                  && after.removes == db.removes && OnlyAt(db, after, req.key))
  {
  }

  /** A removal succeeds exactly when it is permitted; then the key is gone, and the removal is the
      newest one remembered, with the row as it was. */
  lemma RemoveIsSeen(db: Db, req: Request, serial: nat)
    requires DbOk(db) && req.Remove?
    ensures var (after, resp) := Process(db, req);
            && (resp.err == Ok <==> Permitted(db, req))
            && (resp.err == NotFound <==> req.key !in db.rows)
            && (Permitted(db, req) ==>
                  && req.key !in after.rows && OnlyAt(db, after, req.key)
                  && Process(after, Get(serial, req.key)).1 == GetResponse(serial, Ok, "", 0)
                  && resp == RemoveResponse(req.serial, Ok, "", db.rows[req.key].version, 0)
                  && after.removes != [] && after.removes[0].key == req.key && after.removes[0].vv == db.rows[req.key]
                  && (forall k :: k in db.rows ==> db.rows[k].version < after.removes[0].removeVersion)
                  && after.removes[1..] == (if |db.removes| < MAX_RECENT_REMOVES then db.removes else db.removes[..MAX_RECENT_REMOVES - 1]))
  {
    var log := [RecentRemove(req.key, Find(db.rows, req.key), db.nextVersion)] + db.removes;
    assert log[1..] == db.removes;
    if |log| > MAX_RECENT_REMOVES { assert log[..MAX_RECENT_REMOVES][1..] == db.removes[..MAX_RECENT_REMOVES - 1]; }
  }

  /** A refused request changes nothing and is told the value and version stored. */
  lemma RefusalChangesNothing(db: Db, req: Request)
    requires !Permitted(db, req)
    ensures var (after, resp) := Process(db, req);
            after == db && resp.err != Ok && (resp.actual, resp.version) == Seen(db, req.key) && resp.previousVersion == resp.version
  {
  }

  /** The answer is of the request's kind and carries its serial. */
  lemma AnswersInKind(db: Db, req: Request)
    ensures var resp := Process(db, req).1;
            && resp.serial == req.serial
            && (req.Get? <==> resp.GetResponse?) && (req.Put? <==> resp.PutResponse?)
            && (req.Cas? <==> resp.CasResponse?) && (req.Remove? <==> resp.RemoveResponse?)
  {
  }

  // ----- a history of requests -----

  /** Does the request change its key in the state the first i requests of the history lead to? */
  predicate Succeeds(db: Db, reqs: seq<Request>, i: nat)
    requires i < |reqs|
  {
    !reqs[i].Get? && Process(ProcessAll(db, reqs[..i]), reqs[i]).1.err == Ok
  }

  /** What a successful mutation leaves at its key. */
  function Left(db: Db, reqs: seq<Request>, i: nat): (string, int)
    requires i < |reqs| && !reqs[i].Get?
  {
    if reqs[i].Remove? then ("", 0)
    else (if reqs[i].Put? then reqs[i].value else reqs[i].desired, Process(ProcessAll(db, reqs[..i]), reqs[i]).1.version)
  }

  lemma {:induction false} HistoryKeepsDbOk(db: Db, reqs: seq<Request>)
    requires DbOk(db)
    ensures DbOk(ProcessAll(db, reqs)) && db.nextVersion <= ProcessAll(db, reqs).nextVersion
    decreases |reqs|
  {
    if reqs != [] {
      HistoryKeepsDbOk(db, reqs[..|reqs| - 1]);
      ProcessKeepsDbOk(ProcessAll(db, reqs[..|reqs| - 1]), reqs[|reqs| - 1]);
    }
  }

  /** A key is read as it was until a mutation of it succeeds ... */
  lemma {:induction false} UntouchedSince(db: Db, reqs: seq<Request>, key: string, m: nat)
    requires DbOk(db) && m <= |reqs|
    requires forall j :: m <= j < |reqs| && reqs[j].key == key ==> !Succeeds(db, reqs, j)
    ensures Seen(ProcessAll(db, reqs), key) == Seen(ProcessAll(db, reqs[..m]), key)
    decreases |reqs|
  {
    var last := |reqs| - 1;
    if m == |reqs| {
      assert reqs[..m] == reqs;
    } else {
      var init := reqs[..last];
      assert forall j :: m <= j < last ==> init[..j] == reqs[..j];
      UntouchedSince(db, init, key, m);
      assert init[..m] == reqs[..m];
      HistoryKeepsDbOk(db, init);
      assert reqs[last].key == key ==> !Succeeds(db, reqs, last);
      if !reqs[last].Get? { MutationSeen(ProcessAll(db, init), reqs[last], key); }
    }
  }

  /** ... and the last one that succeeds decides. */
  lemma LastWriteWins(db: Db, reqs: seq<Request>, key: string, i: nat)
    requires DbOk(db) && i < |reqs| && reqs[i].key == key && Succeeds(db, reqs, i)
    requires forall j :: i < j < |reqs| && reqs[j].key == key ==> !Succeeds(db, reqs, j)
    ensures Seen(ProcessAll(db, reqs), key) == Left(db, reqs, i)
  {
    UntouchedSince(db, reqs, key, i + 1);
    assert reqs[..i + 1][..i] == reqs[..i];
    HistoryKeepsDbOk(db, reqs[..i]);
    MutationSeen(ProcessAll(db, reqs[..i]), reqs[i], key);
  }

  lemma MutationSeen(db: Db, req: Request, key: string)
    requires DbOk(db) && !req.Get?
    ensures var (after, resp) := Process(db, req);
            Seen(after, key) ==
            if req.key != key || resp.err != Ok then Seen(db, key)
            else if req.Remove? then ("", 0)
            else (if req.Put? then req.value else req.desired, resp.version)
  {
    if !Permitted(db, req) {
      RefusalChangesNothing(db, req);
    } else if req.Remove? {
      RemoveIsSeen(db, req, 0);
    } else {
      WriteIsSeen(db, req, 0);
    }
  }

  /** A version once overwritten never comes back ... */
  lemma {:induction false} VersionGone(db: Db, reqs: seq<Request>, key: string, version: int)
    requires DbOk(db) && 0 < version < db.nextVersion && Seen(db, key).1 != version
    ensures Seen(ProcessAll(db, reqs), key).1 != version
    decreases |reqs|
  {
    if reqs != [] {
      VersionGone(db, reqs[..|reqs| - 1], key, version);
      HistoryKeepsDbOk(db, reqs[..|reqs| - 1]);
    }
  }

  lemma HistoryJoins(db: Db, xs: seq<Request>, ys: seq<Request>)
    ensures ProcessAll(db, xs + ys) == ProcessAll(ProcessAll(db, xs), ys)
    decreases |ys|
  {
    if ys != [] {
      HistoryJoins(db, xs, ys[..|ys| - 1]);
      assert (xs + ys)[..|xs + ys| - 1] == xs + ys[..|ys| - 1];
    } else {
      assert xs + ys == xs;
    }
  }

  /** ... so of all mutations of a key that insist on the same existing version, at most one succeeds. */
  lemma OneWinnerPerVersion(db: Db, reqs: seq<Request>, i: nat, j: nat)
    requires DbOk(db) && i < j < |reqs| && reqs[i].key == reqs[j].key && !reqs[i].Get? && !reqs[j].Get?
    requires reqs[i].versionMatch == reqs[j].versionMatch > 0
    ensures !(Succeeds(db, reqs, i) && Succeeds(db, reqs, j))
  {
    if Succeeds(db, reqs, i) {
      var before := ProcessAll(db, reqs[..i]);
      var (after, resp) := Process(before, reqs[i]);
      HistoryKeepsDbOk(db, reqs[..i]);
      ProcessKeepsDbOk(before, reqs[i]);
      MutationSeen(before, reqs[i], reqs[i].key);
      VersionGone(after, reqs[i + 1..j], reqs[j].key, reqs[i].versionMatch);
      HistoryJoins(db, reqs[..i + 1], reqs[i + 1..j]);
      assert reqs[..i + 1] + reqs[i + 1..j] == reqs[..j] && reqs[..i + 1][..i] == reqs[..i];
    }
  }
}
