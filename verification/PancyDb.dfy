/** The versioned key/value store each replica applies requests to
    (pset4/pancydb.hh, pset4/pancydb.cc, and the message types of pset4/pancy_msgs.hh).

    The store is an object whose fields the handlers update in place, so it is a class here.
    Its abstract value is a `Db`, and `Process` says what one request does to that value. */
module PancyDb {
  import opened Options

  const NONEXISTENT_VERSION := 0
  const MAX_RECENT_REMOVES := 100

  datatype ErrCode = Ok | NotFound | NoMatch | Redirect

  datatype Request =
    | Get(serial: nat, key: string)
    | Put(serial: nat, key: string, value: string, versionMatch: int)
    | Cas(serial: nat, key: string, expected: string, desired: string, versionMatch: int)
    | Remove(serial: nat, key: string, versionMatch: int)

  datatype Response =
    | Redirection(serial: nat, err: ErrCode, redirection: nat)
    | GetResponse(serial: nat, err: ErrCode, value: string, version: int)
    | PutResponse(serial: nat, err: ErrCode, actual: string, previousVersion: int, version: int)
    | CasResponse(serial: nat, err: ErrCode, actual: string, previousVersion: int, version: int)
    | RemoveResponse(serial: nat, err: ErrCode, actual: string, previousVersion: int, version: int)

  /** A value together with the version of the mutation that wrote it. */
  datatype Vv = Vv(value: string, version: int)

  datatype RecentRemove = RecentRemove(key: string, vv: Vv, removeVersion: int)

  datatype Db = Db(nextVersion: int, rows: map<string, Vv>, removes: seq<RecentRemove>)

  const NONEXISTENT := Vv("", NONEXISTENT_VERSION)
  const EMPTY_DB := Db(1, map[], [])

  /** What `find_vvptr` points at: the row, or the shared nonexistent cell. */
  function Find(rows: map<string, Vv>, key: string): Vv {
    if key in rows then rows[key] else NONEXISTENT
  }

  /** The effect of a successful write: a fresh version is stamped on the row. */
  function Write(db: Db, key: string, value: string): Db {
    db.(rows := db.rows[key := Vv(value, db.nextVersion)], nextVersion := db.nextVersion + 1)
  }

  /** Newest first, at most MAX_RECENT_REMOVES of them. */
  function Trimmed(removes: seq<RecentRemove>): seq<RecentRemove> {
    if |removes| > MAX_RECENT_REMOVES then removes[..MAX_RECENT_REMOVES] else removes
  }

  function Erase(db: Db, key: string): Db
    requires key in db.rows
  {
    Db(db.nextVersion + 1, db.rows - {key},
       Trimmed([RecentRemove(key, db.rows[key], db.nextVersion)] + db.removes))
  }

  predicate VersionRejects(versionMatch: int, version: int) {
    versionMatch >= 0 && versionMatch != version
  }

  function Process(db: Db, req: Request): (Db, Response) {
    var vv := Find(db.rows, req.key);
    match req
    case Get(s, k) =>
      (db, GetResponse(s, Ok, vv.value, vv.version))
    case Put(s, k, v, vm) =>
      if VersionRejects(vm, vv.version) then (db, PutResponse(s, NoMatch, vv.value, vv.version, vv.version))
      else (Write(db, k, v), PutResponse(s, Ok, "", vv.version, db.nextVersion))
    case Cas(s, k, e, d, vm) =>
      if e != vv.value || VersionRejects(vm, vv.version)
      then (db, CasResponse(s, NoMatch, vv.value, vv.version, vv.version))
      else (Write(db, k, d), CasResponse(s, Ok, "", vv.version, db.nextVersion))
    case Remove(s, k, vm) =>
      if k !in db.rows then (db, RemoveResponse(s, NotFound, "", NONEXISTENT_VERSION, NONEXISTENT_VERSION))
      else if VersionRejects(vm, vv.version) then (db, RemoveResponse(s, NoMatch, vv.value, vv.version, vv.version))
      else (Erase(db, k), RemoveResponse(s, Ok, "", vv.version, NONEXISTENT_VERSION))
  }

  /** Every row and every remembered removal carries a version handed out before now, and
      removals are remembered newest first. */
  ghost predicate DbOk(db: Db) {
    && 1 <= db.nextVersion
    && (forall k :: k in db.rows ==> 1 <= db.rows[k].version < db.nextVersion)
    && |db.removes| <= MAX_RECENT_REMOVES
    && (forall i :: 0 <= i < |db.removes| ==>
          1 <= db.removes[i].vv.version < db.removes[i].removeVersion < db.nextVersion)
    && (forall i, j :: 0 <= i < j < |db.removes| ==> db.removes[j].removeVersion < db.removes[i].removeVersion)
  }

  lemma ProcessKeepsDbOk(db: Db, req: Request)
    requires DbOk(db)
    ensures DbOk(Process(db, req).0)
  {
  }

  /** A history of requests. */
  function ProcessAll(db: Db, reqs: seq<Request>): Db {
    if reqs == [] then db else Process(ProcessAll(db, reqs[..|reqs| - 1]), reqs[|reqs| - 1]).0
  }

  class Pancydb {
    var nextVersion: int
    var rows: map<string, Vv>
    var recentRemoves: seq<RecentRemove>

    ghost function Abs(): Db
      reads this
    {
      Db(nextVersion, rows, recentRemoves)
    }

    ghost predicate Valid()
      reads this
    {
      DbOk(Abs())
    }

    constructor ()
      ensures Valid() && Abs() == EMPTY_DB
    {
      nextVersion := 1;
      rows := map[];
      recentRemoves := [];
    }

    /** `emplace_vvptr`: an existing row is left alone. */
    method Emplace(key: string, value: string) returns (inserted: bool)
      modifies this`rows
      ensures inserted == (key !in old(rows))
      ensures rows == if inserted then old(rows)[key := Vv(value, nextVersion)] else old(rows)
    {
      inserted := key !in rows;
      if inserted {
        rows := rows[key := Vv(value, nextVersion)];
      }
    }

    method ProcessPut(req: Request) returns (resp: Response)
      requires Valid() && req.Put?
      modifies this
      ensures Valid() && (Abs(), resp) == Process(old(Abs()), req)
    {
      ProcessKeepsDbOk(Abs(), req);
      var vv := Find(rows, req.key);
      if req.versionMatch >= 0 && req.versionMatch != vv.version {
        return PutResponse(req.serial, NoMatch, vv.value, vv.version, vv.version);
      } else if vv.version == NONEXISTENT_VERSION {
        var _ := Emplace(req.key, req.value);
        nextVersion := nextVersion + 1;
        return PutResponse(req.serial, Ok, "", NONEXISTENT_VERSION, rows[req.key].version);
      }
      var previous := vv.version;
      rows := rows[req.key := Vv(req.value, nextVersion)];
      nextVersion := nextVersion + 1;
      resp := PutResponse(req.serial, Ok, "", previous, rows[req.key].version);
    }

    method ProcessCas(req: Request) returns (resp: Response)
      requires Valid() && req.Cas?
      modifies this
      ensures Valid() && (Abs(), resp) == Process(old(Abs()), req)
    {
      ProcessKeepsDbOk(Abs(), req);
      var vv := Find(rows, req.key);
      if req.expected != vv.value || (req.versionMatch >= 0 && req.versionMatch != vv.version) {
        return CasResponse(req.serial, NoMatch, vv.value, vv.version, vv.version);
      } else if vv.version == NONEXISTENT_VERSION {
        var _ := Emplace(req.key, req.desired);
        nextVersion := nextVersion + 1;
        return CasResponse(req.serial, Ok, "", NONEXISTENT_VERSION, rows[req.key].version);
      }
      var previous := vv.version;
      rows := rows[req.key := Vv(req.desired, nextVersion)];
      nextVersion := nextVersion + 1;
      resp := CasResponse(req.serial, Ok, "", previous, rows[req.key].version);
    }

    method DoRemove(key: string)
      requires Valid() && key in rows
      modifies this
      ensures Valid() && Abs() == Erase(old(Abs()), key)
    {
      recentRemoves := [RecentRemove(key, rows[key], nextVersion)] + recentRemoves;
      ghost var full := recentRemoves;
      while |recentRemoves| > MAX_RECENT_REMOVES
        invariant |recentRemoves| <= |full| && recentRemoves == full[..|recentRemoves|]
        invariant |recentRemoves| >= if |full| < MAX_RECENT_REMOVES then |full| else MAX_RECENT_REMOVES
        invariant nextVersion == old(nextVersion) && rows == old(rows)
      {
        recentRemoves := recentRemoves[..|recentRemoves| - 1];
      }
      nextVersion := nextVersion + 1;
      rows := rows - {key};
      ProcessKeepsDbOk(old(Abs()), Remove(0, key, -1));
    }

    method ProcessRemove(req: Request) returns (resp: Response)
      requires Valid() && req.Remove?
      modifies this
      ensures Valid() && (Abs(), resp) == Process(old(Abs()), req)
    {
      if req.key !in rows {
        return RemoveResponse(req.serial, NotFound, "", NONEXISTENT_VERSION, NONEXISTENT_VERSION);
      }
      var vv := rows[req.key];
      if req.versionMatch >= 0 && req.versionMatch != vv.version {
        return RemoveResponse(req.serial, NoMatch, vv.value, vv.version, vv.version);
      }
      DoRemove(req.key);
      resp := RemoveResponse(req.serial, Ok, "", vv.version, NONEXISTENT_VERSION);
    }

    method ProcessReq(req: Request) returns (resp: Response)
      requires Valid()
      modifies this
      ensures Valid() && (Abs(), resp) == Process(old(Abs()), req)
    {
      match req
      case Get(s, k) =>
        var vv := Find(rows, k);
        resp := GetResponse(s, Ok, vv.value, vv.version);
      case Put(_, _, _, _) => resp := ProcessPut(req);
      case Cas(_, _, _, _, _) => resp := ProcessCas(req);
      case Remove(_, _, _) => resp := ProcessRemove(req);
    }
  }
}
