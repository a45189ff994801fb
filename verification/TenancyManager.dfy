/** The in-memory tenancy indexes of a server process
    (pkg/multitenancy/tenancy_manager/tenancy_manager.go and tenancy_base.go).

    A loaded tenancy owns one open database handle.  `Cache` is the abstract state of the
    manager; the functions on it are the specification of the methods of the class
    `TenancyManager` at the end of this file. */
module TenancyCache {
  import opened Prelude

  /** A row of the tenancies table, without its primary key. */
  datatype TenancyRow = TenancyRow(
    path: string, poolId: string, role: string, customerId: string,
    dbName: string, active: bool, description: string)

  /** A loaded tenancy.  The handle number identifies its database connection. */
  datatype Tenancy = Tenancy(id: string, row: TenancyRow, handle: nat)

  datatype Operation =
    | OpAdd | OpDelete | OpActivate | OpDeactivate | OpSetPath | OpSetRole | OpSetCustomer | OpChangePoolOrDb

  datatype Notification = Notification(tenancy: string, operation: Operation)

  /** What the environment answers while a tenancy is initialised. */
  datatype Environment = AllUp | NoCustomer | ConnectFails | ForeignDatabase

  datatype LoadError = UnknownTenancy | CustomerNotFound | PoolNotFound | ConnectionFailed | NotOwnDatabase

  /** `handles` counts the connections made so far, so it is also the next handle number. */
  datatype Cache = Cache(
    byId: map<string, Tenancy>, byPath: map<string, Tenancy>,
    handles: nat, open: set<nat>, closed: seq<nat>)

  const EMPTY: Cache := Cache(map[], map[], 0, {}, [])

  function CloseHandle(c: Cache, handle: nat): Cache {
    c.(open := c.open - {handle}, closed := c.closed + [handle])
  }

  /** The path entry is deleted whoever owns it. */
  function Unload(c: Cache, id: string): Cache {
    if id in c.byId then
      var t := c.byId[id];
      CloseHandle(c, t.handle).(byId := c.byId - {id}, byPath := c.byPath - {t.row.path})
    else
      c
  }

  /** A connection that fails to open never gets a handle; one to a foreign database is closed again. */
  function LoadFromData(c: Cache, pools: map<string, bool>, id: string, row: TenancyRow, env: Environment)
    : (Cache, Result<Option<Tenancy>, LoadError>)
  {
    if env == NoCustomer then (c, Err(CustomerNotFound))
    else if row.poolId !in pools then (c, Err(PoolNotFound))
    else if !pools[row.poolId] then (c, Ok(None))
    else if env == ConnectFails then (c, Err(ConnectionFailed))
    else
      var live := c.(handles := c.handles + 1, open := c.open + {c.handles});
      if env == ForeignDatabase then (CloseHandle(live, c.handles), Err(NotOwnDatabase))
      else
        var t := Tenancy(id, row, c.handles);
        (live.(byId := c.byId[id := t], byPath := c.byPath[row.path := t]), Ok(Some(t)))
  }

  /** A connection is made and kept: the tenancy becomes loaded. */
  predicate Loads(pools: map<string, bool>, row: TenancyRow, env: Environment) {
    env == AllUp && row.poolId in pools && pools[row.poolId]
  }

  /** An error, which a skipped tenancy of an inactive pool is not. */
  predicate Fails(pools: map<string, bool>, row: TenancyRow, env: Environment) {
    env == NoCustomer || row.poolId !in pools || (pools[row.poolId] && env != AllUp)
  }

  /** The current database is read, not the state at the time of publishing. */
  function Load(c: Cache, pools: map<string, bool>, db: map<string, TenancyRow>, id: string, env: Environment)
    : (Cache, Result<Option<Tenancy>, LoadError>)
  {
    if id in db then LoadFromData(c, pools, id, db[id], env) else (c, Err(UnknownTenancy))
  }

  function Notify(c: Cache, pools: map<string, bool>, db: map<string, TenancyRow>, msg: Notification, env: Environment): Cache {
    var unloaded := Unload(c, msg.tenancy);
    if msg.operation == OpDelete then unloaded else Load(unloaded, pools, db, msg.tenancy, env).0
  }

  /** The rows of the listing are loaded in order up to the first error. */
  function LoadAll(c: Cache, pools: map<string, bool>, rows: seq<(string, TenancyRow, Environment)>): (Cache, bool)
    decreases |rows|
  {
    if rows == [] then (c, true)
    else
      var (next, r) := LoadFromData(c, pools, rows[0].0, rows[0].1, rows[0].2);
      if r.Err? then (next, false) else LoadAll(next, pools, rows[1..])
  }

  function Lookup(c: Cache, path: string): Option<Tenancy> {
    if path in c.byPath then Some(c.byPath[path]) else None
  }

  /** The set of handles owned by loaded tenancies. */
  function Owned(c: Cache): set<nat> {
    set id | id in c.byId :: c.byId[id].handle
  }

  /** Every open handle belongs to exactly one loaded tenancy, every handle is open or was closed
      once, and a path entry is a loaded tenancy with that path. */
  ghost predicate WellFormed(c: Cache) {
    && (forall id | id in c.byId :: c.byId[id].id == id)
    && (forall i, j | i in c.byId && j in c.byId && i != j :: c.byId[i].handle != c.byId[j].handle)
    && c.open == Owned(c)
    && (forall h: nat :: h < c.handles <==> h in c.open || h in c.closed)
    && (forall a, b | 0 <= a < b < |c.closed| :: c.closed[a] != c.closed[b])
    && (forall h | h in c.closed :: h !in c.open)
    && PathsOwned(c)
  }

  ghost predicate PathsOwned(c: Cache) {
    forall p | p in c.byPath :: OwnsPath(c, p)
  }

  ghost predicate OwnsPath(c: Cache, p: string)
    requires p in c.byPath
  {
    var t := c.byPath[p];
    t.row.path == p && t.id in c.byId && c.byId[t.id] == t
  }

  /** How loading answers, by cause, and what it leaves: a new tenancy under its identifier and its path
      and nothing else, or the indexes as they were. */
  lemma LoadedExactly(c: Cache, pools: map<string, bool>, id: string, row: TenancyRow, env: Environment)
    ensures var (d, r) := LoadFromData(c, pools, id, row, env); var served := row.poolId in pools && pools[row.poolId];
      && (r == Err(CustomerNotFound) <==> env == NoCustomer)
      && (r == Err(PoolNotFound) <==> env != NoCustomer && row.poolId !in pools)
      && (r == Ok(None) <==> env != NoCustomer && row.poolId in pools && !served)
      && (r == Err(ConnectionFailed) <==> served && env == ConnectFails)
      && (r == Err(NotOwnDatabase) <==> served && env == ForeignDatabase)
      && (Loads(pools, row, env) ==>
            && r == Ok(Some(Tenancy(id, row, c.handles)))
            && d.byId.Keys == c.byId.Keys + {id} && d.byPath.Keys == c.byPath.Keys + {row.path}
            && (forall i | i in d.byId :: d.byId[i] == if i == id then r.value.value else c.byId[i])
            && (forall p | p in d.byPath :: d.byPath[p] == if p == row.path then r.value.value else c.byPath[p]))
      && (!Loads(pools, row, env) ==> d.byId == c.byId && d.byPath == c.byPath && d.open - {c.handles} == c.open - {c.handles})
  {}

  lemma CurrentIsLoaded(c: Cache, pools: map<string, bool>, db: map<string, TenancyRow>, id: string, env: Environment)
    ensures id !in db ==> Load(c, pools, db, id, env) == (c, Err(UnknownTenancy))
    ensures id in db ==> Load(c, pools, db, id, env) == LoadFromData(c, pools, id, db[id], env)
  {}

  /** Unloading takes the tenancy out of the index, and its path with it. */
  lemma UnloadedExactly(c: Cache, id: string)
    ensures id !in c.byId ==> Unload(c, id) == c
    ensures id in c.byId ==> var d := Unload(c, id);
      && d.byId.Keys == c.byId.Keys - {id} && (forall i | i in d.byId :: d.byId[i] == c.byId[i])
      && d.byPath.Keys == c.byPath.Keys - {c.byId[id].row.path} && (forall p | p in d.byPath :: d.byPath[p] == c.byPath[p])
  {}

  lemma UnloadKeeps(c: Cache, id: string)
    requires WellFormed(c)
    ensures WellFormed(Unload(c, id)) && id !in Unload(c, id).byId
  {
    if id in c.byId {
      var d := Unload(c, id);
      var h := c.byId[id].handle;
      assert h in Owned(c);
      forall x | x in d.open ensures x in Owned(d) {
        var i :| i in c.byId && c.byId[i].handle == x;
        assert i in d.byId && d.byId[i].handle == x;
      }
      forall p | p in d.byPath ensures OwnsPath(d, p) {
        assert OwnsPath(c, p);
      }
    }
  }

  /** An open handle that no loaded tenancy owns. */
  ghost predicate Leaked(c: Cache) {
    exists h: nat :: h < c.handles && h in c.open && h !in Owned(c)
  }

  lemma LeakedIsNotWellFormed(c: Cache)
    requires Leaked(c)
    ensures !WellFormed(c) && c.open != {}
  {}

  /** Loading a loaded identifier leaves its old handle without an owner. */
  lemma ReloadLeaks(c: Cache, pools: map<string, bool>, id: string, row: TenancyRow, env: Environment)
    requires WellFormed(c) && Loads(pools, row, env) && id in c.byId
    ensures Leaked(LoadFromData(c, pools, id, row, env).0)
  {
    var d := LoadFromData(c, pools, id, row, env).0;
    var h := c.byId[id].handle;
    assert h in Owned(c) && h in d.open && h < d.handles;
    assert forall i | i in d.byId :: d.byId[i].handle != h;
  }

  lemma NewKeeps(c: Cache, pools: map<string, bool>, id: string, row: TenancyRow, env: Environment)
    requires WellFormed(c) && Loads(pools, row, env) && id !in c.byId
    ensures WellFormed(LoadFromData(c, pools, id, row, env).0)
  {
    var d := LoadFromData(c, pools, id, row, env).0;
    assert c.handles !in c.open && d.byId[id].handle == c.handles;
    forall x | x in d.open ensures x in Owned(d) {
      if x != c.handles {
        var i :| i in c.byId && c.byId[i].handle == x;
        assert i in d.byId && d.byId[i].handle == x;
      }
    }
    forall p | p in d.byPath ensures OwnsPath(d, p) {
      if p != row.path { assert OwnsPath(c, p); }
    }
  }

  lemma ForeignKeeps(c: Cache, pools: map<string, bool>, id: string, row: TenancyRow)
    requires WellFormed(c)
    ensures WellFormed(LoadFromData(c, pools, id, row, ForeignDatabase).0)
  {
    var d := LoadFromData(c, pools, id, row, ForeignDatabase).0;
    assert d.open == c.open && Owned(d) == Owned(c);
    forall p | p in d.byPath ensures OwnsPath(d, p) { assert OwnsPath(c, p); }
  }

  /** Loading keeps the handles accounted for exactly when it does not load an identifier that is
      loaded already: then the old handle would stay open without an owner. */
  lemma LoadKeepsExactly(c: Cache, pools: map<string, bool>, id: string, row: TenancyRow, env: Environment)
    requires WellFormed(c)
    ensures WellFormed(LoadFromData(c, pools, id, row, env).0) <==> !(Loads(pools, row, env) && id in c.byId)
  {
    if Loads(pools, row, env) {
      if id in c.byId {
        ReloadLeaks(c, pools, id, row, env);
        LeakedIsNotWellFormed(LoadFromData(c, pools, id, row, env).0);
      } else {
        NewKeeps(c, pools, id, row, env);
      }
    } else if env == ForeignDatabase {
      ForeignKeeps(c, pools, id, row);
    }
  }

  lemma NotifyKeeps(c: Cache, pools: map<string, bool>, db: map<string, TenancyRow>, msg: Notification, env: Environment)
    requires WellFormed(c)
    ensures WellFormed(Notify(c, pools, db, msg, env))
  {
    UnloadKeeps(c, msg.tenancy);
    if msg.tenancy in db {
      LoadKeepsExactly(Unload(c, msg.tenancy), pools, msg.tenancy, db[msg.tenancy], env);
    }
  }

  predicate DistinctIds(rows: seq<(string, TenancyRow, Environment)>) {
    forall a, b | 0 <= a < b < |rows| :: rows[a].0 != rows[b].0
  }

  /** Row `k` of the listing is reached and becomes loaded. */
  predicate LoadsRow(pools: map<string, bool>, rows: seq<(string, TenancyRow, Environment)>, k: nat)
    requires k < |rows|
  {
    && Loads(pools, rows[k].1, rows[k].2)
    && forall m | 0 <= m < k :: !Fails(pools, rows[m].1, rows[m].2)
  }

  /** No row that becomes loaded is loaded already. */
  predicate Anew(c: Cache, pools: map<string, bool>, rows: seq<(string, TenancyRow, Environment)>) {
    forall k | 0 <= k < |rows| && LoadsRow(pools, rows, k) :: rows[k].0 !in c.byId
  }

  lemma LoadKeepsLeak(c: Cache, pools: map<string, bool>, id: string, row: TenancyRow, env: Environment, h: nat)
    requires h < c.handles && h in c.open && h !in Owned(c)
    ensures var d := LoadFromData(c, pools, id, row, env).0; h < d.handles && h in d.open && h !in Owned(d)
  {
    var d := LoadFromData(c, pools, id, row, env).0;
    forall i | i in d.byId ensures d.byId[i].handle != h {
      if i in c.byId && d.byId[i] == c.byId[i] { assert c.byId[i].handle in Owned(c); }
    }
  }

  lemma UnloadKeepsLeak(c: Cache, id: string, h: nat)
    requires h < c.handles && h in c.open && h !in Owned(c)
    ensures var d := Unload(c, id); h < d.handles && h in d.open && h !in Owned(d)
  {
    var d := Unload(c, id);
    if id in c.byId { assert c.byId[id].handle in Owned(c); }
    forall i | i in d.byId ensures d.byId[i].handle != h { assert c.byId[i].handle in Owned(c); }
  }

  lemma {:induction false} LoadAllKeepsLeak(c: Cache, pools: map<string, bool>, rows: seq<(string, TenancyRow, Environment)>)
    requires Leaked(c)
    ensures Leaked(LoadAll(c, pools, rows).0)
    decreases |rows|
  {
    if rows != [] {
      var h: nat :| h < c.handles && h in c.open && h !in Owned(c);
      LoadKeepsLeak(c, pools, rows[0].0, rows[0].1, rows[0].2, h);
      var (next, r) := LoadFromData(c, pools, rows[0].0, rows[0].1, rows[0].2);
      if r.Ok? { LoadAllKeepsLeak(next, pools, rows[1..]); }
    }
  }

  lemma AnewStep(c: Cache, pools: map<string, bool>, rows: seq<(string, TenancyRow, Environment)>)
    requires DistinctIds(rows) && rows != []
    ensures var (next, r) := LoadFromData(c, pools, rows[0].0, rows[0].1, rows[0].2);
      && (r.Err? <==> Fails(pools, rows[0].1, rows[0].2))
      && (Anew(c, pools, rows) <==>
            !(Loads(pools, rows[0].1, rows[0].2) && rows[0].0 in c.byId) && (r.Ok? ==> Anew(next, pools, rows[1..])))
  {
    var (next, r) := LoadFromData(c, pools, rows[0].0, rows[0].1, rows[0].2);
    var rest := rows[1..];
    if r.Ok? {
      forall k | 0 <= k < |rest|
        ensures LoadsRow(pools, rows, k + 1) <==> LoadsRow(pools, rest, k)
        ensures rest[k].0 in next.byId <==> rows[k + 1].0 in c.byId {
        assert rest[k] == rows[k + 1];
        assert forall m | 0 <= m < k :: rest[m] == rows[m + 1];
        assert forall m | 0 < m <= k :: rows[m] == rest[m - 1];
      }
      if Anew(next, pools, rest) && !(Loads(pools, rows[0].1, rows[0].2) && rows[0].0 in c.byId) {
        forall k | 0 <= k < |rows| && LoadsRow(pools, rows, k) ensures rows[k].0 !in c.byId {
          if k > 0 { assert LoadsRow(pools, rest, k - 1); }
        }
      }
      if Anew(c, pools, rows) {
        forall k | 0 <= k < |rest| && LoadsRow(pools, rest, k) ensures rest[k].0 !in next.byId {
          assert LoadsRow(pools, rows, k + 1);
        }
      }
    }
    if Anew(c, pools, rows) && Loads(pools, rows[0].1, rows[0].2) { assert LoadsRow(pools, rows, 0); }
  }

  /** Loading a listing keeps the handles accounted for exactly when it meets no loaded identifier;
      otherwise a handle is lost. */
  lemma {:induction false} LoadAllKeepsExactly(c: Cache, pools: map<string, bool>, rows: seq<(string, TenancyRow, Environment)>)
    requires WellFormed(c) && DistinctIds(rows)
    ensures WellFormed(LoadAll(c, pools, rows).0) <==> Anew(c, pools, rows)
    ensures !Anew(c, pools, rows) ==> Leaked(LoadAll(c, pools, rows).0)
    decreases |rows|
  {
    if rows != [] {
      var (next, r) := LoadFromData(c, pools, rows[0].0, rows[0].1, rows[0].2);
      AnewStep(c, pools, rows);
      LoadKeepsExactly(c, pools, rows[0].0, rows[0].1, rows[0].2);
      if Loads(pools, rows[0].1, rows[0].2) && rows[0].0 in c.byId {
        ReloadLeaks(c, pools, rows[0].0, rows[0].1, rows[0].2);
        LoadAllKeepsLeak(next, pools, rows[1..]);
        LeakedIsNotWellFormed(LoadAll(c, pools, rows).0);
      } else if r.Ok? {
        LoadAllKeepsExactly(next, pools, rows[1..]);
      }
    }
  }

  /** The listing is loaded without an error exactly if no row fails. */
  lemma {:induction false} ListingSucceedsExactly(c: Cache, pools: map<string, bool>, rows: seq<(string, TenancyRow, Environment)>)
    ensures LoadAll(c, pools, rows).1 <==> forall k | 0 <= k < |rows| :: !Fails(pools, rows[k].1, rows[k].2)
    decreases |rows|
  {
    if rows != [] {
      var (next, r) := LoadFromData(c, pools, rows[0].0, rows[0].1, rows[0].2);
      assert r.Err? <==> Fails(pools, rows[0].1, rows[0].2);
      if r.Ok? {
        ListingSucceedsExactly(next, pools, rows[1..]);
        assert forall k | 1 <= k < |rows| :: rows[k] == rows[1..][k - 1];
        assert forall k | 0 <= k < |rows| - 1 :: rows[1..][k] == rows[k + 1];
      }
    }
  }

  function CloseAll(c: Cache, ts: seq<Tenancy>): Cache
    decreases |ts|
  {
    if ts == [] then c else CloseAll(CloseHandle(c, ts[0].handle), ts[1..])
  }

  /** `Close` closes the handle of every loaded tenancy, in the order `ts` the map happens to
      yield them, and then forgets both indexes. */
  function Shut(c: Cache, ts: seq<Tenancy>): Cache {
    CloseAll(c, ts).(byId := map[], byPath := map[])
  }

  /** `ts` lists the values of the map, each key once. */
  ghost predicate Lists(ts: seq<Tenancy>, byId: map<string, Tenancy>) {
    && (forall a | 0 <= a < |ts| :: ts[a].id in byId && byId[ts[a].id] == ts[a])
    && (forall a, b | 0 <= a < b < |ts| :: ts[a].id != ts[b].id)
    && (forall id | id in byId :: byId[id] in ts)
  }

  lemma {:induction false} CloseAllEffect(c: Cache, ts: seq<Tenancy>)
    ensures CloseAll(c, ts) == c.(open := CloseAll(c, ts).open, closed := CloseAll(c, ts).closed)
    ensures CloseAll(c, ts).open == c.open - set t | t in ts :: t.handle
    ensures CloseAll(c, ts).closed == c.closed + seq(|ts|, k requires 0 <= k < |ts| => ts[k].handle)
    decreases |ts|
  {
    if ts == [] {
      assert seq(|ts|, k requires 0 <= k < |ts| => ts[k].handle) == [];
    } else {
      var c' := CloseHandle(c, ts[0].handle);
      CloseAllEffect(c', ts[1..]);
      forall h | h in c.open ensures h in CloseAll(c, ts).open <==> h !in set t | t in ts :: t.handle {
        assert forall t :: t in ts <==> t == ts[0] || t in ts[1..];
      }
      var tail := ts[1..];
      assert seq(|ts|, k requires 0 <= k < |ts| => ts[k].handle)
          == [ts[0].handle] + seq(|tail|, k requires 0 <= k < |tail| => tail[k].handle);
    }
  }

  /** After `Close` no handle is open, every handle ever made was closed exactly once, and the
      manager is ready to be used again. */
  lemma ShutReleasesAll(c: Cache, ts: seq<Tenancy>)
    requires WellFormed(c) && Lists(ts, c.byId)
    ensures var d := Shut(c, ts);
            && d.open == {} && d.byId == map[] && d.byPath == map[] && WellFormed(d)
            && |d.closed| == |c.closed| + |ts|
            && forall h: nat :: h < c.handles <==> h in d.closed
  {
    CloseAllEffect(c, ts);
    var d := Shut(c, ts);
    var handles := seq(|ts|, k requires 0 <= k < |ts| => ts[k].handle);
    forall h | h in c.open ensures h in handles {
      var id :| id in c.byId && c.byId[id].handle == h;
      var k :| 0 <= k < |ts| && ts[k] == c.byId[id];
      assert handles[k] == h;
    }
    forall h | h in handles ensures h in c.open && h !in c.closed {
      var k :| 0 <= k < |handles| && handles[k] == h;
      assert c.byId[ts[k].id].handle == h;
      assert h in Owned(c);
    }
    forall a, b | 0 <= a < b < |d.closed| ensures d.closed[a] != d.closed[b] {
      if a >= |c.closed| {
        assert ts[a - |c.closed|].id != ts[b - |c.closed|].id;
      } else if b >= |c.closed| {
        assert d.closed[b] == handles[b - |c.closed|];
        assert handles[b - |c.closed|] in handles;
        assert d.closed[a] in c.closed;
      }
    }
    forall h | h in c.open ensures exists t :: t in ts && t.handle == h {
      var id :| id in c.byId && c.byId[id].handle == h;
      assert c.byId[id] in ts;
    }
    assert d.open == {};
  }

  lemma CloseAllKeepsLeak(c: Cache, ts: seq<Tenancy>)
    requires Leaked(c) && Lists(ts, c.byId)
    ensures Leaked(Shut(c, ts))
  {
    var h: nat :| h < c.handles && h in c.open && h !in Owned(c);
    CloseAllEffect(c, ts);
    forall t | t in ts ensures t.handle != h {
      var k :| 0 <= k < |ts| && ts[k] == t;
      assert c.byId[t.id].handle in Owned(c);
    }
    assert h in Shut(c, ts).open;
  }

  /** One thing that happens to a server process.  Handling a notification is an unloading and, unless
      it says that the tenancy was deleted, a loading; the listing is loaded row by row; the two run side
      by side, and nothing is assumed about the rows they read, nor about failures. */
  datatype ServerStep =
    | UnloadOne(id: string)
    | LoadOne(id: string, row: TenancyRow, env: Environment)
    | Stop(loaded: seq<Tenancy>)

  ghost predicate Enabled(c: Cache, s: ServerStep) {
    s.Stop? ==> Lists(s.loaded, c.byId)
  }

  function Apply(c: Cache, pools: map<string, bool>, s: ServerStep): Cache {
    match s
    case UnloadOne(id) => Unload(c, id)
    case LoadOne(id, row, env) => LoadFromData(c, pools, id, row, env).0
    case Stop(loaded) => Shut(c, loaded)
  }

  ghost predicate ServerRun(states: seq<Cache>, steps: seq<ServerStep>, pools: map<string, bool>) {
    && |states| == |steps| + 1
    && states[0] == EMPTY
    && forall k | 0 <= k < |steps| :: Enabled(states[k], steps[k]) && states[k + 1] == Apply(states[k], pools, steps[k])
  }

  /** A tenancy that is loaded already is loaded again. */
  predicate Reloads(c: Cache, pools: map<string, bool>, s: ServerStep) {
    s.LoadOne? && Loads(pools, s.row, s.env) && s.id in c.byId
  }

  ghost predicate NeverReloads(states: seq<Cache>, steps: seq<ServerStep>, pools: map<string, bool>, n: nat)
    requires n < |states| && |states| == |steps| + 1
  {
    forall k | 0 <= k < n :: !Reloads(states[k], pools, steps[k])
  }

  lemma StepKeepsLeak(c: Cache, pools: map<string, bool>, s: ServerStep)
    requires Leaked(c) && Enabled(c, s)
    ensures Leaked(Apply(c, pools, s))
  {
    var h: nat :| h < c.handles && h in c.open && h !in Owned(c);
    match s
    case UnloadOne(id) => UnloadKeepsLeak(c, id, h);
    case LoadOne(id, row, env) => LoadKeepsLeak(c, pools, id, row, env, h);
    case Stop(loaded) => CloseAllKeepsLeak(c, loaded);
  }

  lemma StepKeepsExactly(c: Cache, pools: map<string, bool>, s: ServerStep)
    requires WellFormed(c) && Enabled(c, s)
    ensures WellFormed(Apply(c, pools, s)) <==> !Reloads(c, pools, s)
    ensures Reloads(c, pools, s) ==> Leaked(Apply(c, pools, s))
    ensures s.Stop? ==> Apply(c, pools, s).open == {}
  {
    match s
    case UnloadOne(id) => UnloadKeeps(c, id);
    case LoadOne(id, row, env) =>
      LoadKeepsExactly(c, pools, id, row, env);
      if Reloads(c, pools, s) { ReloadLeaks(c, pools, id, row, env); }
    case Stop(loaded) => ShutReleasesAll(c, loaded);
  }

  /** Handle conservation over every run of unloadings, loadings and closings: the handles stay
      accounted for exactly as long as no loaded tenancy is loaded again, by the handler or the listing;
      a handle lost then is never closed, not even by closing the manager. */
  lemma {:induction false} HandlesConserved(states: seq<Cache>, steps: seq<ServerStep>, pools: map<string, bool>, n: nat)
    requires ServerRun(states, steps, pools) && n < |states|
    ensures WellFormed(states[n]) <==> NeverReloads(states, steps, pools, n)
    ensures !WellFormed(states[n]) ==> Leaked(states[n])
    ensures n > 0 && steps[n - 1].Stop? ==> (states[n].open == {} <==> NeverReloads(states, steps, pools, n))
  {
    if n == 0 {
      assert Owned(EMPTY) == {};
    } else {
      HandlesConserved(states, steps, pools, n - 1);
      var c := states[n - 1];
      assert Enabled(c, steps[n - 1]) && states[n] == Apply(c, pools, steps[n - 1]);
      if WellFormed(c) {
        StepKeepsExactly(c, pools, steps[n - 1]);
      } else {
        StepKeepsLeak(c, pools, steps[n - 1]);
      }
      if Leaked(states[n]) { LeakedIsNotWellFormed(states[n]); }
      assert NeverReloads(states, steps, pools, n) <==>
        NeverReloads(states, steps, pools, n - 1) && !Reloads(c, pools, steps[n - 1]);
    }
  }

  /** The manager itself.  The mutex makes each method one atomic step. */
  class TenancyManager {
    const pools: map<string, bool>
    var tenanciesById: map<string, Tenancy>
    var tenanciesByPath: map<string, Tenancy>
    var handles: nat
    var open: set<nat>
    var closed: seq<nat>

    ghost function State(): Cache
      reads this
    {
      Cache(tenanciesById, tenanciesByPath, handles, open, closed)
    }

    constructor (pools: map<string, bool>)
      ensures this.pools == pools && State() == EMPTY
    {
      this.pools := pools;
      tenanciesById, tenanciesByPath := map[], map[];
      handles, open, closed := 0, {}, [];
    }

    method Connect() returns (handle: nat)
      modifies this
      ensures handle == old(handles)
      ensures State() == old(State()).(handles := old(handles) + 1, open := old(open) + {handle})
    {
      handle := handles;
      handles, open := handles + 1, open + {handles};
    }

    method CloseDb(handle: nat)
      modifies this
      ensures State() == CloseHandle(old(State()), handle)
    {
      open, closed := open - {handle}, closed + [handle];
    }

    method UnloadTenancy(id: string)
      modifies this
      ensures State() == Unload(old(State()), id)
    {
      if id in tenanciesById {
        var tenancy := tenanciesById[id];
        CloseDb(tenancy.handle);
        tenanciesById := tenanciesById - {id};
        tenanciesByPath := tenanciesByPath - {tenancy.row.path};
      }
    }

    method LoadTenancyFromData(id: string, row: TenancyRow, env: Environment)
      returns (r: Result<Option<Tenancy>, LoadError>)
      modifies this
      ensures (State(), r) == LoadFromData(old(State()), pools, id, row, env)
    {
      if env == NoCustomer { return Err(CustomerNotFound); }
      if row.poolId !in pools { return Err(PoolNotFound); }
      if !pools[row.poolId] { return Ok(None); }
      if env == ConnectFails { return Err(ConnectionFailed); }
      var handle := Connect();
      if env == ForeignDatabase {
        CloseDb(handle);
        return Err(NotOwnDatabase);
      }
      var tenancy := Tenancy(id, row, handle);
      tenanciesById := tenanciesById[id := tenancy];
      tenanciesByPath := tenanciesByPath[row.path := tenancy];
      return Ok(Some(tenancy));
    }

    method LoadTenancy(db: map<string, TenancyRow>, id: string, env: Environment)
      returns (r: Result<Option<Tenancy>, LoadError>)
      modifies this
      ensures (State(), r) == Load(old(State()), pools, db, id, env)
    {
      if id !in db { return Err(UnknownTenancy); }
      r := LoadTenancyFromData(id, db[id], env);
    }

    method Handle(db: map<string, TenancyRow>, msg: Notification, env: Environment) returns (ok: bool)
      modifies this
      ensures State() == Notify(old(State()), pools, db, msg, env)
      ensures ok == (msg.operation == OpDelete || Load(Unload(old(State()), msg.tenancy), pools, db, msg.tenancy, env).1.Ok?)
    {
      UnloadTenancy(msg.tenancy);
      ok := true;
      if msg.operation != OpDelete {
        var r := LoadTenancy(db, msg.tenancy, env);
        ok := r.Ok?;
      }
    }

    method LoadTenancies(rows: seq<(string, TenancyRow, Environment)>) returns (ok: bool)
      modifies this
      ensures (State(), ok) == LoadAll(old(State()), pools, rows)
    {
      var i := 0;
      while i < |rows|
        invariant 0 <= i <= |rows|
        invariant LoadAll(State(), pools, rows[i..]) == LoadAll(old(State()), pools, rows)
      {
        var r := LoadTenancyFromData(rows[i].0, rows[i].1, rows[i].2);
        assert rows[i..][1..] == rows[i + 1..];
        if r.Err? { return false; }
        i := i + 1;
      }
      return true;
    }

    /** `order` is the order in which the map iteration yields the tenancies. */
    method Close(order: seq<Tenancy>)
      requires Lists(order, tenanciesById)
      modifies this
      ensures State() == Shut(old(State()), order)
    {
      var i := 0;
      while i < |order|
        invariant 0 <= i <= |order|
        invariant tenanciesById == old(tenanciesById) && tenanciesByPath == old(tenanciesByPath)
        invariant CloseAll(State(), order[i..]) == CloseAll(old(State()), order)
      {
        CloseDb(order[i].handle);
        assert order[i..][1..] == order[i + 1..];
        i := i + 1;
      }
      assert order[i..] == [];
      CloseAllEffect(old(State()), order);
      tenanciesById, tenanciesByPath := map[], map[];
    }

    method TenancyByPath(path: string) returns (r: Option<Tenancy>)
      ensures r == Lookup(State(), path)
    {
      if path !in tenanciesByPath { return None; }
      return Some(tenanciesByPath[path]);
    }
  }
}
