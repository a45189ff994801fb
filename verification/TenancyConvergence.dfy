/** Convergence of the tenancy indexes of a server that serves one pool.

    Administrators change the tenancies table and publish a notification
    (tenancy_controller.go); the server takes notifications from a first-in first-out queue and
    re-reads the table, and loads the rows of its initial listing one after the other
    (tenancy_manager.go).  An administrator's database update together with its publications is one
    step.  The handler of notifications takes three steps, unloading, reading and loading, and the
    listing one for reading it and one for each row; the two run side by side. */
module TenancyConvergence {
  import opened Prelude
  import opened TenancyCache

  /** The pool store of the administrator's process: pools by identifier, and names. */
  datatype PoolStore = PoolStore(active: map<string, bool>, names: map<string, string>)

  /** An argument is tried as an identifier first and as a name second. */
  function FindPool(store: PoolStore, arg: string): Option<string> {
    if arg in store.active then Some(arg)
    else if arg in store.names && store.names[arg] in store.active then Some(store.names[arg])
    else None
  }

  /** What the handler of notifications is doing: it reads the row of a tenancy, or holds a row to load. */
  datatype Busy = Idle | Reading(id: string) | Storing(id: string, row: TenancyRow)

  /** `listing` is absent until the server has read the listing, and then holds the rows that are
      still to be loaded. */
  datatype System = System(
    db: map<string, TenancyRow>, queue: seq<Notification>, cache: Cache, busy: Busy,
    listing: Option<seq<(string, TenancyRow)>>)

  /** What the lookup of a customer and the work on a new database answer: the customer, the names
      generated where the input has none, and whether the database could be made ready. */
  datatype Creation = Creation(customer: Option<string>, path: string, dbName: string, ready: bool)

  /** The pool and the customer of an added `row` are arguments as they were typed, identifiers or
      names; the customer of `SetCustomer` is the one found; `env` is what the trial connection of a
      moved tenancy meets. */
  datatype AdminOp =
    | Add(id: string, row: TenancyRow, creation: Creation)
    | SetPath(id: string, path: string)
    | SetRole(id: string, role: string)
    | SetCustomer(id: string, customer: Option<string>)
    | SetActive(id: string, active: bool)
    | ChangePoolOrDb(id: string, pool: string, dbName: string, env: Environment)
    | Delete(id: string, withDatabase: bool)

  datatype AdminError =
    | TenancyNotFound | CustomerUnknown | PoolUnknown | PoolNotActive | ConflictPath | ConflictRole
    | DatabaseFailed | DbConstraint | Unsupported

  predicate PathTaken(db: map<string, TenancyRow>, path: string) {
    exists i | i in db :: db[i].path == path
  }

  predicate PathTakenInPool(db: map<string, TenancyRow>, poolId: string, path: string) {
    exists i | i in db :: db[i].poolId == poolId && db[i].path == path
  }

  predicate RoleTaken(db: map<string, TenancyRow>, customerId: string, role: string) {
    exists i | i in db :: db[i].customerId == customerId && db[i].role == role
  }

  /** A publication reaches the server only when it is addressed to the pool the server serves. */
  function Publish(queue: seq<Notification>, self: string, poolId: string, msg: Notification): seq<Notification> {
    if poolId == self then queue + [msg] else queue
  }

  /** Write one row and tell the pool of that row. */
  function Write(s: System, self: string, id: string, row: TenancyRow, op: Operation): System {
    s.(db := s.db[id := row], queue := Publish(s.queue, self, row.poolId, Notification(id, op)))
  }

  /** What the operation log and the notification of an operation say. */
  function Logged(op: AdminOp): Operation {
    match op
    case Add(_, _, _) => OpAdd
    case SetPath(_, _) => OpSetPath
    case SetRole(_, _) => OpSetRole
    case SetCustomer(_, _) => OpSetCustomer
    case SetActive(_, active) => if active then OpActivate else OpDeactivate
    case ChangePoolOrDb(_, _, _, _) => OpChangePoolOrDb
    case Delete(_, _) => OpDelete
  }

  function Administer(s: System, self: string, store: PoolStore, op: AdminOp): (System, Option<AdminError>) {
    match op
    case Add(id, row, creation) => AddTenancy(s, self, store, id, row, creation)
    case ChangePoolOrDb(id, pool, dbName, env) => MoveTenancy(s, self, store, id, pool, dbName, env)
    case SetPath(id, path) =>
      if id !in s.db then (s, Some(TenancyNotFound))
      else if PathTakenInPool(s.db, s.db[id].poolId, path) then (s, Some(ConflictPath))
      else if PathTaken(s.db, path) then (s, Some(DbConstraint))
      else (Write(s, self, id, s.db[id].(path := path), OpSetPath), None)
    case SetRole(id, role) =>
      if id !in s.db then (s, Some(TenancyNotFound))
      else if RoleTaken(s.db, s.db[id].customerId, role) then (s, Some(ConflictRole))
      else (Write(s, self, id, s.db[id].(role := role), OpSetRole), None)
    case SetCustomer(id, customer) =>
      if id !in s.db then (s, Some(TenancyNotFound))
      else if customer.None? then (s, Some(CustomerUnknown))
      else if RoleTaken(s.db, customer.value, s.db[id].role) then (s, Some(ConflictRole))
      else (Write(s, self, id, s.db[id].(customerId := customer.value), OpSetCustomer), None)
    case SetActive(id, active) =>
      if id !in s.db then (s, Some(TenancyNotFound))
      else (Write(s, self, id, s.db[id].(active := active), if active then OpActivate else OpDeactivate), None)
    case Delete(id, withDatabase) =>
      if withDatabase then (s, Some(Unsupported))
      else if id !in s.db then (s, Some(TenancyNotFound))
      else
        var queue := Publish(s.queue, self, s.db[id].poolId, Notification(id, OpDelete));
        (s.(db := s.db - {id}, queue := queue), None)
  }

  /** The row that is created.  The data never says that it is active. */
  function Created(row: TenancyRow, poolId: string, creation: Creation): TenancyRow
    requires creation.customer.Some?
  {
    row.(poolId := poolId, customerId := creation.customer.value, active := false,
         path := if row.path == "" then creation.path else row.path,
         dbName := if row.dbName == "" then creation.dbName else row.dbName)
  }

  /** Conflicts are looked for with the data as it was typed; what they miss is left to the unique
      indexes of the table. */
  function AddTenancy(s: System, self: string, store: PoolStore, id: string, row: TenancyRow, creation: Creation)
    : (System, Option<AdminError>)
  {
    var found := FindPool(store, row.poolId);
    if creation.customer.None? then (s, Some(CustomerUnknown))
    else if found.None? then (s, Some(PoolUnknown))
    else if !store.active[found.value] then (s, Some(PoolNotActive))
    else if RoleTaken(s.db, row.customerId, row.role) then (s, Some(ConflictRole))
    else if PathTakenInPool(s.db, row.poolId, row.path) then (s, Some(ConflictPath))
    else if !creation.ready then (s, Some(DatabaseFailed))
    else
      var created := Created(row, found.value, creation);
      if id in s.db || PathTaken(s.db, created.path) || RoleTaken(s.db, created.customerId, created.role) then (s, Some(DbConstraint))
      else (Write(s, self, id, created, OpAdd), None)
  }

  /** The old pool is told to forget the tenancy when it differs from the raw argument, which may
      be the name of the very same pool; the new pool is told in any case. */
  function MoveTenancy(s: System, self: string, store: PoolStore, id: string, pool: string, dbName: string, env: Environment)
    : (System, Option<AdminError>)
  {
    if id !in s.db then (s, Some(TenancyNotFound))
    else
      var row := s.db[id];
      var arg := if pool == "" then row.poolId else pool;
      var found := FindPool(store, arg);
      if found.None? then (s, Some(PoolUnknown))
      else if found.value != row.poolId && PathTakenInPool(s.db, found.value, row.path) then (s, Some(ConflictPath))
      else if env == NoCustomer then (s, Some(CustomerUnknown))
      else if !store.active[found.value] then (s, Some(PoolNotActive))
      else if env != AllUp then (s, Some(DatabaseFailed))
      else
        var queue := if row.poolId != arg then Publish(s.queue, self, row.poolId, Notification(id, OpDelete)) else s.queue;
        var moved := row.(poolId := found.value, dbName := if dbName == "" then row.dbName else dbName);
        (Write(s.(queue := queue), self, id, moved, OpChangePoolOrDb), None)
  }

  /** In self-pool mode the server's pool store holds its own, active, pool only. */
  function ServedPools(self: string): map<string, bool> {
    map[self := true]
  }

  predicate Served(db: map<string, TenancyRow>, self: string, id: string) {
    id in db && db[id].poolId == self
  }

  // ---------------------------------------------------------------- steps of the server

  /** The next notification is taken from the queue and its tenancy is unloaded. */
  function Take(s: System): System
    requires s.busy.Idle? && s.queue != []
  {
    var msg := s.queue[0];
    s.(queue := s.queue[1..], cache := Unload(s.cache, msg.tenancy),
       busy := if msg.operation == OpDelete then Idle else Reading(msg.tenancy))
  }

  /** The row is read again; a tenancy that is gone or in another pool is not loaded. */
  function Read(s: System, self: string): System
    requires s.busy.Reading?
  {
    s.(busy := if Served(s.db, self, s.busy.id) then Storing(s.busy.id, s.db[s.busy.id]) else Idle)
  }

  function Put(c: Cache, self: string, id: string, row: TenancyRow): Cache {
    LoadFromData(c, ServedPools(self), id, row, AllUp).0
  }

  /** The tenancy is loaded with the row that was read. */
  function Store(s: System, self: string): System
    requires s.busy.Storing?
  {
    s.(cache := Put(s.cache, self, s.busy.id, s.busy.row), busy := Idle)
  }

  predicate Awaiting(s: System) {
    s.listing.Some? && s.listing.value != []
  }

  /** The next row of the listing is loaded as it was read. */
  function LoadRow(s: System, self: string): System
    requires Awaiting(s)
  {
    var (id, row) := s.listing.value[0];
    s.(cache := Put(s.cache, self, id, row), listing := Some(s.listing.value[1..]))
  }

  /** With nothing in between, a notification is handled as `Handle` handles it. */
  lemma HandlingIsNotify(s: System, self: string)
    requires s.busy.Idle? && s.queue != []
    ensures var taken := Take(s); var read := if taken.busy.Reading? then Read(taken, self) else taken;
      var done := if read.busy.Storing? then Store(read, self) else read;
      done.busy.Idle? && done.cache == Notify(s.cache, ServedPools(self), s.db, s.queue[0], AllUp)
  {}

  function LoadRows(s: System, self: string): System
    decreases if s.listing.Some? then |s.listing.value| else 0
  {
    if Awaiting(s) then LoadRows(LoadRow(s, self), self) else s
  }

  function Connected(rows: seq<(string, TenancyRow)>): seq<(string, TenancyRow, Environment)> {
    seq(|rows|, k requires 0 <= k < |rows| => (rows[k].0, rows[k].1, AllUp))
  }

  /** With nothing in between, the listing is loaded as `LoadTenancies` loads it. */
  lemma {:induction false} RowsAreTheListing(s: System, self: string)
    requires s.listing.Some? && forall k | 0 <= k < |s.listing.value| :: s.listing.value[k].1.poolId == self
    ensures LoadRows(s, self).cache == LoadAll(s.cache, ServedPools(self), Connected(s.listing.value)).0
    decreases |s.listing.value|
  {
    var rows := s.listing.value;
    if rows != [] {
      RowsAreTheListing(LoadRow(s, self), self);
      assert Connected(rows)[1..] == Connected(rows[1..]);
    }
  }

  // ---------------------------------------------------------------- the invariant

  ghost predicate Pending(q: seq<Notification>, id: string) {
    exists k :: 0 <= k < |q| && q[k].tenancy == id
  }

  /** Some notification of `i` stands before some notification of `j`. */
  ghost predicate Before(q: seq<Notification>, i: string, j: string) {
    exists a, b :: 0 <= a < b < |q| && q[a].tenancy == i && q[b].tenancy == j
  }

  /** The index entry of `id` agrees with the table. */
  ghost predicate UpToDate(s: System, self: string, id: string) {
    && (id in s.cache.byId <==> Served(s.db, self, id))
    && (id in s.cache.byId ==> s.cache.byId[id].row == s.db[id])
  }

  /** `id` can be found by the path it was loaded with. */
  ghost predicate Findable(c: Cache, id: string)
    requires id in c.byId
  {
    var p := c.byId[id].row.path;
    p in c.byPath && c.byPath[p] == c.byId[id]
  }

  ghost predicate UniquePaths(db: map<string, TenancyRow>) {
    forall i, j | i in db && j in db && i != j :: db[i].path != db[j].path
  }

  ghost predicate KnownPools(db: map<string, TenancyRow>, store: PoolStore) {
    forall i | i in db :: db[i].poolId in store.active
  }

  /** Tenancies are indexed under their own identifiers and paths, and handles are never reused. */
  ghost predicate Keyed(c: Cache) {
    && (forall id | id in c.byId :: c.byId[id].id == id && c.byId[id].handle < c.handles)
    && (forall p | p in c.byPath :: c.byPath[p].row.path == p && c.byPath[p].handle < c.handles)
  }

  /** The notification says the contrary of the table. */
  predicate Contrary(db: map<string, TenancyRow>, self: string, msg: Notification) {
    (msg.operation == OpDelete) == Served(db, self, msg.tenancy)
  }

  /** Such a notification is followed by the one of the operation that made it so. */
  ghost predicate ContraryIsFollowed(s: System, self: string) {
    && (forall a | 0 <= a < |s.queue| && Contrary(s.db, self, s.queue[a]) :: Pending(s.queue[a + 1..], s.queue[a].tenancy))
    && (s.busy.Reading? && !Served(s.db, self, s.busy.id) ==> Pending(s.queue, s.busy.id))
  }

  /** Rows of the served pool that do not touch each other. */
  ghost predicate Apart(rows: seq<(string, TenancyRow)>, self: string) {
    && (forall k | 0 <= k < |rows| :: rows[k].1.poolId == self)
    && (forall a, b | 0 <= a < b < |rows| :: rows[a].0 != rows[b].0 && rows[a].1.path != rows[b].1.path)
  }

  ghost predicate CurrentRow(s: System, id: string, row: TenancyRow) {
    id in s.db && s.db[id] == row
  }

  predicate IsBusy(s: System, id: string) {
    !s.busy.Idle? && s.busy.id == id
  }

  /** The tenancy is about to be loaded by the handler. */
  predicate InFlight(s: System, id: string) {
    s.busy.Storing? && s.busy.id == id
  }

  ghost predicate Awaited(s: System, id: string) {
    s.listing.Some? && exists k :: 0 <= k < |s.listing.value| && s.listing.value[k].0 == id
  }

  /** The handler is about to load the tenancy, or the listing will bring what is not loaded yet. */
  ghost predicate Expected(s: System, id: string) {
    IsBusy(s, id) || (id !in s.cache.byId && (s.listing.None? || Awaited(s, id)))
  }

  ghost predicate UnloadedIsExpected(s: System, self: string) {
    forall id: string | id !in s.cache.byId :: UpToDate(s, self, id) || Pending(s.queue, id) || Expected(s, id)
  }

  /** What every step keeps, whatever the listing brings. */
  ghost predicate Basics(s: System, self: string, store: PoolStore) {
    && Keyed(s.cache)
    && UniquePaths(s.db)
    && KnownPools(s.db, store)
    && ContraryIsFollowed(s, self)
    && UnloadedIsExpected(s, self)
    && (s.listing.Some? ==> Apart(s.listing.value, self))
    && (s.busy.Storing? ==> s.busy.row.poolId == self && (CurrentRow(s, s.busy.id, s.busy.row) || Pending(s.queue, s.busy.id)))
  }

  ghost predicate StaleIsPending(s: System, self: string) {
    forall id | id in s.cache.byId :: UpToDate(s, self, id) || Pending(s.queue, id)
  }

  ghost predicate HiddenIsPending(s: System) {
    forall id | id in s.cache.byId :: Findable(s.cache, id) || Pending(s.queue, id) || InFlight(s, id)
  }

  /** Unloading one of two tenancies with the same path deletes the path entry of the other: both will
      be handled again. */
  ghost predicate OverlapIsPending(s: System) {
    forall i, j | i in s.cache.byId && j in s.cache.byId && i != j && !InFlight(s, i) && !InFlight(s, j)
      && s.cache.byId[i].row.path == s.cache.byId[j].row.path && Findable(s.cache, j) ::
      Pending(s.queue, i) && Pending(s.queue, j)
  }

  /** A loaded stale path that now belongs to `j`: the stale owner is handled first. */
  ghost predicate StaleOverlapOrdered(s: System, self: string) {
    forall i, j | i in s.cache.byId && !InFlight(s, i) && i != j
      && Served(s.db, self, j) && s.db[j].path == s.cache.byId[i].row.path ::
      Before(s.queue, i, j)
  }

  /** A row that waits to be loaded is as good as a loaded one: it is current or pending, and so are
      the tenancies whose path it would take or keep. */
  ghost predicate RowWaits(s: System, self: string, id: string, row: TenancyRow) {
    && (CurrentRow(s, id, row) || Pending(s.queue, id))
    && (forall i | i in s.cache.byId && i != id && !InFlight(s, i) && s.cache.byId[i].row.path == row.path ::
          Pending(s.queue, i) && Pending(s.queue, id))
    && (forall j | j != id && Served(s.db, self, j) && s.db[j].path == row.path :: Before(s.queue, id, j))
  }

  /** `handled` are the tenancies of the notifications taken since the listing was read. */
  ghost predicate ListedWait(s: System, self: string, handled: set<string>) {
    s.listing.Some? ==>
      forall k | 0 <= k < |s.listing.value| && s.listing.value[k].0 !in handled ::
        RowWaits(s, self, s.listing.value[k].0, s.listing.value[k].1)
  }

  /** The row in the hands of the handler waits too, and does not get in the way of the listing. */
  ghost predicate StoredWaits(s: System, self: string, handled: set<string>) {
    s.busy.Storing? ==>
      && RowWaits(s, self, s.busy.id, s.busy.row)
      && (s.listing.Some? ==>
            forall k | 0 <= k < |s.listing.value| && s.listing.value[k].0 !in handled
              && s.listing.value[k].0 != s.busy.id && s.listing.value[k].1.path == s.busy.row.path ::
              Pending(s.queue, s.busy.id) && Pending(s.queue, s.listing.value[k].0))
  }

  ghost predicate Inv(s: System, self: string, store: PoolStore, handled: set<string>) {
    && Basics(s, self, store)
    && StaleIsPending(s, self)
    && HiddenIsPending(s)
    && OverlapIsPending(s)
    && StaleOverlapOrdered(s, self)
    && ListedWait(s, self, handled)
    && StoredWaits(s, self, handled)
  }

  // ---------------------------------------------------------------- administrator steps

  /** What all successful administrator steps have in common: one row changes and, if the served
      pool has or had the row, the last notification is one of that row, and not a deletion if the
      row is there. */
  ghost predicate AdminStep(s: System, t: System, self: string, store: PoolStore, id: string) {
    && t.cache == s.cache && t.listing == s.listing && t.busy == s.busy
    && t.db - {id} == s.db - {id}
    && UniquePaths(t.db) && KnownPools(t.db, store)
    && |s.queue| <= |t.queue| && t.queue[..|s.queue|] == s.queue
    && (forall k | |s.queue| <= k < |t.queue| :: t.queue[k].tenancy == id
          && (t.queue[k].operation != OpDelete ==> Served(t.db, self, id)))
    && (Served(s.db, self, id) ==> |s.queue| < |t.queue|)
    && (Served(t.db, self, id) ==> |s.queue| < |t.queue| && t.queue[|t.queue| - 1].operation != OpDelete)
  }

  lemma PrefixKeepsOrder(q: seq<Notification>, r: seq<Notification>)
    requires |q| <= |r| && r[..|q|] == q
    ensures forall i :: Pending(q, i) ==> Pending(r, i)
    ensures forall i, j :: Before(q, i, j) ==> Before(r, i, j)
    ensures forall i, j :: |q| < |r| && r[|r| - 1].tenancy == j && Pending(q, i) ==> Before(r, i, j)
  {
    assert forall k :: 0 <= k < |q| ==> q[k] == r[k];
  }

  lemma OtherRowsStay(s: System, t: System, self: string, store: PoolStore, id: string)
    requires AdminStep(s, t, self, store, id)
    ensures forall x | x != id :: (x in t.db <==> x in s.db) && (x in t.db ==> t.db[x] == s.db[x])
    ensures |s.queue| < |t.queue| ==> t.queue[|t.queue| - 1].tenancy == id && Pending(t.queue, id)
    ensures |s.queue| == |t.queue| ==> t.queue == s.queue
  {
    forall x | x != id ensures (x in t.db <==> x in s.db) && (x in t.db ==> t.db[x] == s.db[x]) {
      assert x in t.db - {id} <==> x in s.db - {id};
    }
  }

  lemma AdminStepKeepsFollowed(s: System, t: System, self: string, store: PoolStore, id: string)
    requires ContraryIsFollowed(s, self) && AdminStep(s, t, self, store, id)
    ensures ContraryIsFollowed(t, self)
  {
    OtherRowsStay(s, t, self, store, id);
    PrefixKeepsOrder(s.queue, t.queue);
    forall a | 0 <= a < |t.queue| && Contrary(t.db, self, t.queue[a]) ensures Pending(t.queue[a + 1..], t.queue[a].tenancy) {
      var rest := t.queue[a + 1..];
      if t.queue[a].tenancy == id && |s.queue| < |t.queue| {
        assert a < |t.queue| - 1;
        assert rest[|rest| - 1].tenancy == id;
      } else {
        assert s.queue[a] == t.queue[a];
        assert Pending(s.queue[a + 1..], t.queue[a].tenancy);
        PrefixKeepsOrder(s.queue[a + 1..], rest);
      }
    }
  }

  lemma AdminStepKeepsBasics(s: System, t: System, self: string, store: PoolStore, id: string)
    requires Basics(s, self, store) && AdminStep(s, t, self, store, id)
    ensures Basics(t, self, store)
  {
    AdminStepKeepsFollowed(s, t, self, store, id);
    PrefixKeepsOrder(s.queue, t.queue);
    OtherRowsStay(s, t, self, store, id);
    forall x: string | x !in t.cache.byId ensures UpToDate(t, self, x) || Pending(t.queue, x) || Expected(t, x) {
      assert UpToDate(s, self, x) || Pending(s.queue, x) || Expected(s, x);
    }
  }

  lemma AdminStepKeepsRow(s: System, t: System, self: string, store: PoolStore, id: string, x: string, row: TenancyRow)
    requires RowWaits(s, self, x, row) && row.poolId == self && AdminStep(s, t, self, store, id)
    ensures RowWaits(t, self, x, row)
  {
    PrefixKeepsOrder(s.queue, t.queue);
    OtherRowsStay(s, t, self, store, id);
  }

  lemma AdminStepKeepsRows(s: System, t: System, self: string, store: PoolStore, id: string, handled: set<string>)
    requires Inv(s, self, store, handled) && AdminStep(s, t, self, store, id)
    ensures ListedWait(t, self, handled) && StoredWaits(t, self, handled)
  {
    PrefixKeepsOrder(s.queue, t.queue);
    if s.listing.Some? {
      forall k | 0 <= k < |t.listing.value| && t.listing.value[k].0 !in handled
        ensures RowWaits(t, self, t.listing.value[k].0, t.listing.value[k].1) {
        AdminStepKeepsRow(s, t, self, store, id, s.listing.value[k].0, s.listing.value[k].1);
      }
    }
    if s.busy.Storing? { AdminStepKeepsRow(s, t, self, store, id, s.busy.id, s.busy.row); }
  }

  lemma AdminStepKeepsOverlap(s: System, t: System, self: string, store: PoolStore, id: string)
    requires StaleIsPending(s, self) && StaleOverlapOrdered(s, self) && AdminStep(s, t, self, store, id)
    ensures StaleOverlapOrdered(t, self)
  {
    PrefixKeepsOrder(s.queue, t.queue);
    OtherRowsStay(s, t, self, store, id);
    forall i, j | i in t.cache.byId && !InFlight(t, i) && i != j
        && Served(t.db, self, j) && t.db[j].path == t.cache.byId[i].row.path
      ensures Before(t.queue, i, j)
    {
      if j == id {
        // the last notification is one of j; i is stale and therefore pending before it
        assert UpToDate(s, self, i) || Pending(s.queue, i);
      } else {
        assert Before(s.queue, i, j);
      }
    }
  }

  lemma AdminStepKeepsPending(s: System, t: System, self: string, store: PoolStore, id: string)
    requires StaleIsPending(s, self) && HiddenIsPending(s) && OverlapIsPending(s) && AdminStep(s, t, self, store, id)
    ensures StaleIsPending(t, self) && HiddenIsPending(t) && OverlapIsPending(t)
  {
    PrefixKeepsOrder(s.queue, t.queue);
    OtherRowsStay(s, t, self, store, id);
    forall x | x in t.cache.byId ensures UpToDate(t, self, x) || Pending(t.queue, x) {
      assert UpToDate(s, self, x) || Pending(s.queue, x);
    }
  }

  lemma AdminStepKeeps(s: System, t: System, self: string, store: PoolStore, id: string, handled: set<string>)
    requires Inv(s, self, store, handled) && AdminStep(s, t, self, store, id)
    ensures Inv(t, self, store, handled)
  {
    AdminStepKeepsBasics(s, t, self, store, id);
    AdminStepKeepsPending(s, t, self, store, id);
    AdminStepKeepsOverlap(s, t, self, store, id);
    AdminStepKeepsRows(s, t, self, store, id, handled);
  }

  lemma WriteIsStep(s: System, self: string, store: PoolStore, id: string, row: TenancyRow, op: Operation)
    requires UniquePaths(s.db) && KnownPools(s.db, store)
    requires row.poolId in store.active && op != OpDelete
    requires forall i | i in s.db && i != id :: s.db[i].path != row.path
    requires id in s.db ==> s.db[id].poolId == row.poolId
    ensures AdminStep(s, Write(s, self, id, row, op), self, store, id)
  {}

  /** The old pool may be told first; it need not be if the tenancy stays there. */
  lemma MovedIsStep(s: System, self: string, store: PoolStore, id: string, row: TenancyRow, told: bool)
    requires UniquePaths(s.db) && KnownPools(s.db, store) && id in s.db && row.poolId in store.active
    requires row.path == s.db[id].path && (!told ==> row.poolId == s.db[id].poolId)
    ensures var queue := if told then Publish(s.queue, self, s.db[id].poolId, Notification(id, OpDelete)) else s.queue;
      AdminStep(s, Write(s.(queue := queue), self, id, row, OpChangePoolOrDb), self, store, id)
  {}

  lemma MoveIsStep(s: System, self: string, store: PoolStore, id: string, pool: string, dbName: string, env: Environment)
    requires UniquePaths(s.db) && KnownPools(s.db, store)
    ensures var (t, err) := MoveTenancy(s, self, store, id, pool, dbName, env);
            if err.Some? then t == s else AdminStep(s, t, self, store, id)
  {
    var (t, err) := MoveTenancy(s, self, store, id, pool, dbName, env);
    if err.None? {
      var arg := if pool == "" then s.db[id].poolId else pool;
      // an argument equal to the old pool's identifier finds the old pool
      assert arg == s.db[id].poolId ==> FindPool(store, arg) == Some(arg);
      MovedIsStep(s, self, store, id, t.db[id], s.db[id].poolId != arg);
    }
  }

  lemma AddIsStep(s: System, self: string, store: PoolStore, id: string, row: TenancyRow, creation: Creation)
    requires UniquePaths(s.db) && KnownPools(s.db, store)
    ensures var (t, err) := AddTenancy(s, self, store, id, row, creation);
            if err.Some? then t == s else AdminStep(s, t, self, store, id)
  {
    var (t, err) := AddTenancy(s, self, store, id, row, creation);
    if err.None? { WriteIsStep(s, self, store, id, t.db[id], OpAdd); }
  }

  lemma DeleteIsStep(s: System, self: string, store: PoolStore, id: string)
    requires UniquePaths(s.db) && KnownPools(s.db, store) && id in s.db
    ensures AdminStep(s, Administer(s, self, store, Delete(id, false)).0, self, store, id)
  {}

  lemma AdministerIsStep(s: System, self: string, store: PoolStore, op: AdminOp)
    requires UniquePaths(s.db) && KnownPools(s.db, store)
    ensures var (t, err) := Administer(s, self, store, op);
            if err.Some? then t == s else AdminStep(s, t, self, store, op.id)
  {
    match op
    case Add(id, row, creation) => AddIsStep(s, self, store, id, row, creation);
    case ChangePoolOrDb(id, pool, dbName, env) => MoveIsStep(s, self, store, id, pool, dbName, env);
    case Delete(id, withDatabase) =>
      if !withDatabase && id in s.db { DeleteIsStep(s, self, store, id); }
    case SetPath(_, _) => SetIsStep(s, self, store, op);
    case SetRole(_, _) => SetIsStep(s, self, store, op);
    case SetCustomer(_, _) => SetIsStep(s, self, store, op);
    case SetActive(_, _) => SetIsStep(s, self, store, op);
  }

  /** The operations that write one column. */
  lemma SetIsStep(s: System, self: string, store: PoolStore, op: AdminOp)
    requires UniquePaths(s.db) && KnownPools(s.db, store)
    requires op.SetPath? || op.SetRole? || op.SetCustomer? || op.SetActive?
    ensures var (t, err) := Administer(s, self, store, op);
            if err.Some? then t == s else AdminStep(s, t, self, store, op.id)
  {
    var (t, err) := Administer(s, self, store, op);
    if err.None? {
      var kind := Logged(op);
      assert t == Write(s, self, op.id, t.db[op.id], kind);
      WriteIsStep(s, self, store, op.id, t.db[op.id], kind);
    }
  }

  lemma AdministerKeeps(s: System, self: string, store: PoolStore, op: AdminOp, handled: set<string>)
    requires Inv(s, self, store, handled)
    ensures Inv(Administer(s, self, store, op).0, self, store, handled)
  {
    var (t, err) := Administer(s, self, store, op);
    AdministerIsStep(s, self, store, op);
    if err.None? { AdminStepKeeps(s, t, self, store, op.id, handled); }
  }

  // ---------------------------------------------------------------- what an operation writes

  /** The argument names this pool, by its identifier or else by its name. */
  ghost predicate NamesPool(store: PoolStore, arg: string, pool: string) {
    pool in store.active && (arg == pool || (arg !in store.active && arg in store.names && store.names[arg] == pool))
  }

  ghost predicate Told(s: System, t: System, self: string, pool: string, msg: Notification) {
    t.queue == if pool == self then s.queue + [msg] else s.queue
  }

  /** A new row: the data as typed, with the pool and the customer found and the missing names generated. */
  ghost predicate Adds(s: System, t: System, self: string, store: PoolStore, id: string, row: TenancyRow, creation: Creation) {
    && id !in s.db && t.db.Keys == s.db.Keys + {id} && creation.customer.Some?
    && var added := t.db[id];
       && NamesPool(store, row.poolId, added.poolId) && store.active[added.poolId]
       && added.customerId == creation.customer.value && added.role == row.role && added.description == row.description
       && added.path == (if row.path != "" then row.path else creation.path)
       && added.dbName == (if row.dbName != "" then row.dbName else creation.dbName)
       && !added.active
       && Told(s, t, self, added.poolId, Notification(id, OpAdd))
  }

  /** Only the pool and the database change.  A pool that is left is told to forget the tenancy, the pool
      it is in afterwards to load it; the same pool given by its name is told both. */
  ghost predicate Moves(s: System, t: System, self: string, store: PoolStore, id: string, pool: string, dbName: string) {
    && id in s.db && t.db.Keys == s.db.Keys
    && var was, moved := s.db[id], t.db[id];
       && NamesPool(store, if pool != "" then pool else was.poolId, moved.poolId) && store.active[moved.poolId]
       && moved.dbName == (if dbName != "" then dbName else was.dbName)
       && moved == was.(poolId := moved.poolId, dbName := moved.dbName)
       && var forget, load := [Notification(id, OpDelete)], [Notification(id, OpChangePoolOrDb)];
          var left := was.poolId == self && (moved.poolId != self || (pool != "" && pool != self));
          t.queue == s.queue + (if left then forget else []) + (if moved.poolId == self then load else [])
  }

  /** One column of the row changes, and its pool is told. */
  ghost predicate Sets(s: System, t: System, self: string, id: string, row: TenancyRow, operation: Operation) {
    id in s.db && t.db == s.db[id := row] && Told(s, t, self, s.db[id].poolId, Notification(id, operation))
  }

  lemma FindPoolMeans(store: PoolStore, arg: string)
    ensures FindPool(store, arg).Some? ==> NamesPool(store, arg, FindPool(store, arg).value)
    ensures FindPool(store, arg).None? ==> forall pool :: !NamesPool(store, arg, pool)
    ensures forall p, q | NamesPool(store, arg, p) && NamesPool(store, arg, q) :: p == q
  {}

  lemma MoveWrites(s: System, self: string, store: PoolStore, id: string, pool: string, dbName: string, env: Environment)
    requires KnownPools(s.db, store) && MoveTenancy(s, self, store, id, pool, dbName, env).1.None?
    ensures Moves(s, MoveTenancy(s, self, store, id, pool, dbName, env).0, self, store, id, pool, dbName)
  {
    var t := MoveTenancy(s, self, store, id, pool, dbName, env).0;
    FindPoolMeans(store, if pool != "" then pool else s.db[id].poolId);
    assert t.db.Keys == s.db.Keys;
  }

  lemma AddWrites(s: System, self: string, store: PoolStore, id: string, row: TenancyRow, creation: Creation)
    requires AddTenancy(s, self, store, id, row, creation).1.None?
    ensures Adds(s, AddTenancy(s, self, store, id, row, creation).0, self, store, id, row, creation)
  {
    FindPoolMeans(store, row.poolId);
  }

  /** What the operation asks for. */
  ghost predicate Writes(s: System, t: System, self: string, store: PoolStore, op: AdminOp) {
    match op
    case Add(id, row, creation) => Adds(s, t, self, store, id, row, creation)
    case ChangePoolOrDb(id, pool, dbName, _) => Moves(s, t, self, store, id, pool, dbName)
    case SetPath(id, path) => id in s.db && Sets(s, t, self, id, s.db[id].(path := path), OpSetPath)
    case SetRole(id, role) => id in s.db && Sets(s, t, self, id, s.db[id].(role := role), OpSetRole)
    case SetCustomer(id, customer) =>
      customer.Some? && id in s.db && Sets(s, t, self, id, s.db[id].(customerId := customer.value), OpSetCustomer)
    case SetActive(id, active) =>
      id in s.db && Sets(s, t, self, id, s.db[id].(active := active), if active then OpActivate else OpDeactivate)
    case Delete(id, withDatabase) =>
      && !withDatabase && id in s.db && t.db == s.db - {id}
      && Told(s, t, self, s.db[id].poolId, Notification(id, OpDelete))
  }

  /** What a successful operation writes, column by column, and whom it tells. */
  lemma WrittenExactly(s: System, self: string, store: PoolStore, op: AdminOp)
    requires UniquePaths(s.db) && KnownPools(s.db, store) && Administer(s, self, store, op).1.None?
    ensures var t := Administer(s, self, store, op).0;
      && (t.cache, t.busy, t.listing) == (s.cache, s.busy, s.listing)
      && (forall i | i in s.db && i != op.id :: i in t.db && t.db[i] == s.db[i])
      && Writes(s, t, self, store, op)
  {
    AdministerIsStep(s, self, store, op);
    OtherRowsStay(s, Administer(s, self, store, op).0, self, store, op.id);
    match op
    case Add(id, row, creation) => AddWrites(s, self, store, id, row, creation);
    case ChangePoolOrDb(id, pool, dbName, env) => MoveWrites(s, self, store, id, pool, dbName, env);
    case SetPath(_, _) =>
    case SetRole(_, _) =>
    case SetCustomer(_, _) =>
    case SetActive(_, _) =>
    case Delete(_, _) =>
  }

  ghost predicate NobodyHas(db: map<string, TenancyRow>, path: string) {
    forall i | i in db :: db[i].path != path
  }

  ghost predicate FreeInPool(db: map<string, TenancyRow>, pool: string, path: string) {
    forall i | i in db :: !(db[i].poolId == pool && db[i].path == path)
  }

  ghost predicate FreeRole(db: map<string, TenancyRow>, customer: string, role: string) {
    forall i | i in db :: !(db[i].customerId == customer && db[i].role == role)
  }

  /** Why an operation on one column is refused; it is, exactly if one of these reasons is there, and then
      nothing changes. */
  lemma SetRefusedExactly(s: System, self: string, store: PoolStore, op: AdminOp)
    ensures var (t, err) := Administer(s, self, store, op);
      && (err.Some? ==> t == s)
      && match op
         case SetPath(id, path) =>
           err == if id !in s.db then Some(TenancyNotFound)
                  else if !FreeInPool(s.db, s.db[id].poolId, path) then Some(ConflictPath)
                  else if !NobodyHas(s.db, path) then Some(DbConstraint) else None
         case SetRole(id, role) =>
           err == if id !in s.db then Some(TenancyNotFound)
                  else if !FreeRole(s.db, s.db[id].customerId, role) then Some(ConflictRole) else None
         case SetCustomer(id, customer) =>
           err == if id !in s.db then Some(TenancyNotFound)
                  else if customer.None? then Some(CustomerUnknown)
                  else if !FreeRole(s.db, customer.value, s.db[id].role) then Some(ConflictRole) else None
         case SetActive(id, _) => err == if id !in s.db then Some(TenancyNotFound) else None
         case Delete(id, withDatabase) =>
           err == if withDatabase then Some(Unsupported) else if id !in s.db then Some(TenancyNotFound) else None
         case Add(_, _, _) => true
         case ChangePoolOrDb(_, _, _, _) => true
  {}

  /** Why an addition is refused. */
  lemma AddRefusedExactly(s: System, self: string, store: PoolStore, id: string, row: TenancyRow, creation: Creation)
    ensures var (t, err) := AddTenancy(s, self, store, id, row, creation);
      && (err.Some? ==> t == s)
      && (err == Some(CustomerUnknown) <==> creation.customer.None?)
      && (creation.customer.Some? ==>
           (err == Some(PoolUnknown) <==> forall pool :: !NamesPool(store, row.poolId, pool)))
      && (forall pool | creation.customer.Some? && NamesPool(store, row.poolId, pool) ::
           err == if !store.active[pool] then Some(PoolNotActive)
                  else if !FreeRole(s.db, row.customerId, row.role) then Some(ConflictRole)
                  else if !FreeInPool(s.db, row.poolId, row.path) then Some(ConflictPath)
                  else if !creation.ready then Some(DatabaseFailed)
                  else if id in s.db || !NobodyHas(s.db, if row.path != "" then row.path else creation.path)
                          || !FreeRole(s.db, creation.customer.value, row.role) then Some(DbConstraint)
                  else None)
  {
    FindPoolMeans(store, row.poolId);
  }

  /** Why a move is refused. */
  lemma MoveRefusedExactly(s: System, self: string, store: PoolStore, id: string, pool: string, dbName: string, env: Environment)
    ensures var (t, err) := MoveTenancy(s, self, store, id, pool, dbName, env);
      && (err.Some? ==> t == s)
      && (err == Some(TenancyNotFound) <==> id !in s.db)
      && (id in s.db ==> var arg := if pool != "" then pool else s.db[id].poolId;
           && (err == Some(PoolUnknown) <==> forall p :: !NamesPool(store, arg, p))
           && (forall p | NamesPool(store, arg, p) ::
                 err == if p != s.db[id].poolId && !FreeInPool(s.db, p, s.db[id].path) then Some(ConflictPath)
                        else if env == NoCustomer then Some(CustomerUnknown)
                        else if !store.active[p] then Some(PoolNotActive)
                        else if env != AllUp then Some(DatabaseFailed) else None))
  {
    if id in s.db { FindPoolMeans(store, if pool != "" then pool else s.db[id].poolId); }
  }

  ghost predicate UniqueRoles(db: map<string, TenancyRow>) {
    forall i, j | i in db && j in db && i != j :: !(db[i].customerId == db[j].customerId && db[i].role == db[j].role)
  }

  lemma RowKeepsRoles(db: map<string, TenancyRow>, next: map<string, TenancyRow>, id: string)
    requires UniqueRoles(db) && forall i | i in next && i != id :: i in db && next[i] == db[i]
    requires id in next ==> forall i | i in db && i != id ::
               !(db[i].customerId == next[id].customerId && db[i].role == next[id].role)
    ensures UniqueRoles(next)
  {}

  /** No operation gives two tenancies of a customer the same role, or two tenancies the same path. */
  lemma TableStaysUnique(s: System, self: string, store: PoolStore, op: AdminOp)
    requires UniquePaths(s.db) && KnownPools(s.db, store) && UniqueRoles(s.db)
    ensures var t := Administer(s, self, store, op).0; UniquePaths(t.db) && UniqueRoles(t.db)
  {
    var (t, err) := Administer(s, self, store, op);
    AdministerIsStep(s, self, store, op);
    if err.None? {
      OtherRowsStay(s, t, self, store, op.id);
      RowKeepsRoles(s.db, t.db, op.id);
    }
  }

  // ---------------------------------------------------------------- handling notifications

  lemma TailKeepsOrder(q: seq<Notification>, k: string)
    requires q != [] && q[0].tenancy == k
    ensures forall i :: i != k && Pending(q, i) ==> Pending(q[1..], i)
    ensures forall i, j :: i != k && Before(q, i, j) ==> Before(q[1..], i, j)
    ensures forall j :: Before(q, k, j) ==> Pending(q[1..], j)
  {
    var r := q[1..];
    forall i | i != k && Pending(q, i) ensures Pending(r, i) {
      var a :| 0 <= a < |q| && q[a].tenancy == i;
      assert r[a - 1].tenancy == i;
    }
    forall i, j | i != k && Before(q, i, j) ensures Before(r, i, j) {
      var a, b :| 0 <= a < b < |q| && q[a].tenancy == i && q[b].tenancy == j;
      assert r[a - 1].tenancy == i && r[b - 1].tenancy == j;
    }
    forall j | Before(q, k, j) ensures Pending(r, j) {
      var a, b :| 0 <= a < b < |q| && q[a].tenancy == k && q[b].tenancy == j;
      assert r[b - 1].tenancy == j;
    }
  }

  lemma UnloadEffect(c: Cache, k: string)
    requires Keyed(c)
    ensures var d := Unload(c, k);
            && Keyed(d) && d.byId == c.byId - {k}
            && (forall i | i in d.byId :: Findable(d, i) <==>
                  Findable(c, i) && !(k in c.byId && c.byId[k].row.path == c.byId[i].row.path))
  {}

  lemma TailKeepsFollowed(s: System, t: System, self: string)
    requires ContraryIsFollowed(s, self) && s.queue != [] && t.queue == s.queue[1..] && t.db == s.db && t.busy.Idle?
    ensures ContraryIsFollowed(t, self)
  {
    forall a | 0 <= a < |t.queue| && Contrary(t.db, self, t.queue[a]) ensures Pending(t.queue[a + 1..], t.queue[a].tenancy) {
      assert t.queue[a] == s.queue[a + 1] && t.queue[a + 1..] == s.queue[a + 2..];
    }
  }

  /** What is dropped before the listing is read, the listing will bring. */
  lemma DropKeeps(s: System, self: string, store: PoolStore)
    requires Basics(s, self, store) && s.cache == EMPTY && s.busy.Idle? && s.listing.None? && s.queue != []
    ensures Inv(s.(queue := s.queue[1..]), self, store, {})
  {
    TailKeepsFollowed(s, s.(queue := s.queue[1..]), self);
  }

  lemma TakeKeepsBasics(s: System, self: string, store: PoolStore)
    requires Basics(s, self, store) && s.busy.Idle? && s.queue != []
    ensures Basics(Take(s), self, store)
  {
    var t, k := Take(s), s.queue[0].tenancy;
    UnloadEffect(s.cache, k);
    TailKeepsOrder(s.queue, k);
    TailKeepsFollowed(s, t.(busy := Idle), self);
    assert Contrary(s.db, self, s.queue[0]) ==> Pending(s.queue[0 + 1..], k);
    forall id: string | id !in t.cache.byId ensures UpToDate(t, self, id) || Pending(t.queue, id) || Expected(t, id) {
      if id != k { assert UpToDate(s, self, id) || Pending(s.queue, id) || Expected(s, id); }
    }
  }

  lemma TakeKeepsRows(s: System, self: string, store: PoolStore, handled: set<string>)
    requires Inv(s, self, store, handled) && s.busy.Idle? && s.queue != []
    ensures ListedWait(Take(s), self, handled + {s.queue[0].tenancy})
  {
    var t, k := Take(s), s.queue[0].tenancy;
    UnloadEffect(s.cache, k);
    TailKeepsOrder(s.queue, k);
    if s.listing.Some? {
      forall n | 0 <= n < |t.listing.value| && t.listing.value[n].0 !in handled + {k}
        ensures RowWaits(t, self, t.listing.value[n].0, t.listing.value[n].1) {
        assert RowWaits(s, self, s.listing.value[n].0, s.listing.value[n].1);
      }
    }
  }

  lemma TakeKeepsPending(s: System, self: string, store: PoolStore, handled: set<string>)
    requires Inv(s, self, store, handled) && s.busy.Idle? && s.queue != []
    ensures StaleIsPending(Take(s), self) && HiddenIsPending(Take(s))
  {
    var t, k := Take(s), s.queue[0].tenancy;
    UnloadEffect(s.cache, k);
    TailKeepsOrder(s.queue, k);
    forall id | id in t.cache.byId
      ensures UpToDate(t, self, id) || Pending(t.queue, id)
      ensures Findable(t.cache, id) || Pending(t.queue, id) {
      assert UpToDate(s, self, id) || Pending(s.queue, id);
    }
  }

  lemma TakeKeepsOverlap(s: System, self: string)
    requires Keyed(s.cache) && OverlapIsPending(s) && StaleOverlapOrdered(s, self) && s.busy.Idle? && s.queue != []
    ensures OverlapIsPending(Take(s)) && StaleOverlapOrdered(Take(s), self)
  {
    UnloadEffect(s.cache, s.queue[0].tenancy);
    TailKeepsOrder(s.queue, s.queue[0].tenancy);
  }

  lemma TakeKeeps(s: System, self: string, store: PoolStore, handled: set<string>)
    requires Inv(s, self, store, handled) && s.busy.Idle? && s.queue != []
    ensures Inv(Take(s), self, store, handled + {s.queue[0].tenancy})
  {
    TakeKeepsOverlap(s, self);
    TakeKeepsBasics(s, self, store);
    TakeKeepsPending(s, self, store, handled);
    TakeKeepsRows(s, self, store, handled);
  }

  /** The row that has just been read is current. */
  lemma ReadKeepsRows(s: System, self: string, store: PoolStore, handled: set<string>)
    requires Inv(s, self, store, handled) && s.busy.Reading?
    ensures ListedWait(Read(s, self), self, handled) && StoredWaits(Read(s, self), self, handled)
  {
    var t := Read(s, self);
    if s.listing.Some? {
      forall n | 0 <= n < |t.listing.value| && t.listing.value[n].0 !in handled
        ensures RowWaits(t, self, t.listing.value[n].0, t.listing.value[n].1) {
        assert RowWaits(s, self, s.listing.value[n].0, s.listing.value[n].1);
      }
    }
    if t.busy.Storing? {
      forall i | i in t.cache.byId && i != t.busy.id && t.cache.byId[i].row.path == t.busy.row.path
        ensures Pending(t.queue, i) && Pending(t.queue, t.busy.id) {
        assert Before(s.queue, i, t.busy.id);
      }
    }
  }

  lemma ReadKeepsBasics(s: System, self: string, store: PoolStore)
    requires Basics(s, self, store) && s.busy.Reading?
    ensures Basics(Read(s, self), self, store)
  {
    var t := Read(s, self);
    forall id: string | id !in t.cache.byId ensures UpToDate(t, self, id) || Pending(t.queue, id) || Expected(t, id) {
      assert UpToDate(s, self, id) || Pending(s.queue, id) || Expected(s, id);
    }
  }

  lemma ReadKeeps(s: System, self: string, store: PoolStore, handled: set<string>)
    requires Inv(s, self, store, handled) && s.busy.Reading?
    ensures Inv(Read(s, self), self, store, handled)
  {
    ReadKeepsBasics(s, self, store);
    ReadKeepsRows(s, self, store, handled);
  }

  // ---------------------------------------------------------------- loading a row

  /** The effect of one row of the served pool on the indexes. */
  lemma PutEffect(c: Cache, self: string, id: string, row: TenancyRow)
    requires Keyed(c) && row.poolId == self
    ensures var d := Put(c, self, id, row);
            && Keyed(d)
            && d.byId == c.byId[id := Tenancy(id, row, c.handles)]
            && d.byPath == c.byPath[row.path := Tenancy(id, row, c.handles)]
            && Findable(d, id)
            && (forall i | i in c.byId && i != id :: Findable(d, i) <==> Findable(c, i) && c.byId[i].row.path != row.path)
  {}

  /** `t` is `s` after the row was loaded by the handler or by the listing. */
  ghost predicate PutStep(s: System, t: System, self: string, id: string, row: TenancyRow) {
    && t.db == s.db && t.queue == s.queue && t.cache == Put(s.cache, self, id, row)
    && (t.busy == s.busy || (t.busy.Idle? && InFlight(s, id)))
  }

  /** A waiting row takes its path only from tenancies that will be handled again. */
  lemma PutKeeps(s: System, t: System, self: string, store: PoolStore, handled: set<string>, id: string, row: TenancyRow)
    requires Inv(s, self, store, handled) && row.poolId == self && RowWaits(s, self, id, row)
    requires PutStep(s, t, self, id, row)
    ensures StaleIsPending(t, self) && HiddenIsPending(t) && OverlapIsPending(t) && StaleOverlapOrdered(t, self)
  {
    PutEffect(s.cache, self, id, row);
    forall i | i in t.cache.byId && i != id
      ensures UpToDate(t, self, i) || Pending(t.queue, i)
      ensures Findable(t.cache, i) || Pending(t.queue, i) || InFlight(t, i) {
      assert UpToDate(s, self, i) || Pending(s.queue, i);
      assert Findable(s.cache, i) || Pending(s.queue, i) || InFlight(s, i);
    }
    forall i, j | i in t.cache.byId && j in t.cache.byId && i != j && !InFlight(t, i) && !InFlight(t, j)
        && t.cache.byId[i].row.path == t.cache.byId[j].row.path && Findable(t.cache, j)
      ensures Pending(t.queue, i) && Pending(t.queue, j)
    {
      if j != id { assert i != id && Findable(s.cache, j); }
    }
  }

  /** Another waiting row goes on waiting; only their paths must not meet unless both are pending. */
  lemma PutKeepsRow(s: System, t: System, self: string, id: string, row: TenancyRow, x: string, other: TenancyRow)
    requires Keyed(s.cache) && row.poolId == self && PutStep(s, t, self, id, row)
    requires RowWaits(s, self, x, other)
    requires x == id || other.path != row.path || (Pending(s.queue, id) && Pending(s.queue, x)) || InFlight(t, id)
    ensures RowWaits(t, self, x, other)
  {
    PutEffect(s.cache, self, id, row);
  }

  lemma StoreKeepsBasics(s: System, self: string, store: PoolStore)
    requires Basics(s, self, store) && s.busy.Storing?
    ensures Basics(Store(s, self), self, store)
  {
    var t := Store(s, self);
    PutEffect(s.cache, self, s.busy.id, s.busy.row);
    forall id: string | id !in t.cache.byId ensures UpToDate(t, self, id) || Pending(t.queue, id) || Expected(t, id) {
      assert UpToDate(s, self, id) || Pending(s.queue, id) || Expected(s, id);
    }
  }

  lemma StoreKeeps(s: System, self: string, store: PoolStore, handled: set<string>)
    requires Inv(s, self, store, handled) && s.busy.Storing?
    ensures Inv(Store(s, self), self, store, handled)
  {
    var t := Store(s, self);
    StoreKeepsBasics(s, self, store);
    PutKeeps(s, t, self, store, handled, s.busy.id, s.busy.row);
    if s.listing.Some? {
      forall n | 0 <= n < |t.listing.value| && t.listing.value[n].0 !in handled
        ensures RowWaits(t, self, t.listing.value[n].0, t.listing.value[n].1) {
        PutKeepsRow(s, t, self, s.busy.id, s.busy.row, s.listing.value[n].0, s.listing.value[n].1);
      }
    }
  }

  // ---------------------------------------------------------------- the listing

  /** The rows of the served pool, in any order. */
  ghost predicate Listing(rows: seq<(string, TenancyRow)>, db: map<string, TenancyRow>, self: string) {
    && (forall a, b | 0 <= a < b < |rows| :: rows[a].0 != rows[b].0)
    && (forall k | 0 <= k < |rows| :: Served(db, self, rows[k].0) && db[rows[k].0] == rows[k].1)
    && (forall id | Served(db, self, id) :: exists k :: 0 <= k < |rows| && rows[k].0 == id)
  }

  lemma ListingKeepsBasics(s: System, self: string, store: PoolStore, rows: seq<(string, TenancyRow)>)
    requires Basics(s, self, store) && !Awaiting(s) && Listing(rows, s.db, self)
    ensures Basics(s.(listing := Some(rows)), self, store)
  {
    var t := s.(listing := Some(rows));
    forall id: string | id !in t.cache.byId ensures UpToDate(t, self, id) || Pending(t.queue, id) || Expected(t, id) {
      assert UpToDate(s, self, id) || Pending(s.queue, id) || Expected(s, id);
    }
  }

  /** The rows that have just been read are current. */
  lemma ListingKeeps(s: System, self: string, store: PoolStore, rows: seq<(string, TenancyRow)>, handled: set<string>)
    requires Inv(s, self, store, handled) && !Awaiting(s) && Listing(rows, s.db, self)
    ensures Inv(s.(listing := Some(rows)), self, store, {})
  {
    var t := s.(listing := Some(rows));
    ListingKeepsBasics(s, self, store, rows);
    forall k | 0 <= k < |rows| ensures RowWaits(t, self, rows[k].0, rows[k].1) {
      forall i | i in s.cache.byId && i != rows[k].0 && !InFlight(s, i) && s.cache.byId[i].row.path == rows[k].1.path
        ensures Pending(s.queue, i) && Pending(s.queue, rows[k].0) {
        assert Before(s.queue, i, rows[k].0);
      }
    }
    if s.busy.Storing? {
      assert RowWaits(s, self, s.busy.id, s.busy.row) && RowWaits(t, self, s.busy.id, s.busy.row);
      forall k | 0 <= k < |rows| && rows[k].0 != s.busy.id && rows[k].1.path == s.busy.row.path
        ensures Pending(s.queue, s.busy.id) && Pending(s.queue, rows[k].0) {
        assert Before(s.queue, s.busy.id, rows[k].0);
      }
    }
  }

  lemma RowKeepsBasics(s: System, self: string, store: PoolStore)
    requires Basics(s, self, store) && Awaiting(s)
    ensures Basics(LoadRow(s, self), self, store)
  {
    var t := LoadRow(s, self);
    PutEffect(s.cache, self, s.listing.value[0].0, s.listing.value[0].1);
    OthersAwaited(s, self);
    forall id: string | id !in t.cache.byId ensures UpToDate(t, self, id) || Pending(t.queue, id) || Expected(t, id) {
      assert UpToDate(s, self, id) || Pending(s.queue, id) || Expected(s, id);
    }
  }

  lemma OthersAwaited(s: System, self: string)
    requires Awaiting(s)
    ensures forall i :: Awaited(s, i) && i != s.listing.value[0].0 ==> Awaited(LoadRow(s, self), i)
    ensures forall i :: Awaited(LoadRow(s, self), i) ==> Awaited(s, i)
  {
    var t := LoadRow(s, self);
    forall i | Awaited(s, i) && i != s.listing.value[0].0 ensures Awaited(t, i) {
      var k :| 0 <= k < |s.listing.value| && s.listing.value[k].0 == i;
      assert t.listing.value[k - 1].0 == i;
    }
    forall i | Awaited(t, i) ensures Awaited(s, i) {
      var k :| 0 <= k < |t.listing.value| && t.listing.value[k].0 == i;
      assert s.listing.value[k + 1].0 == i;
    }
  }

  /** The row is current, or no notification of its tenancy was taken since it was read. */
  ghost predicate RowInTime(s: System, handled: set<string>)
    requires Awaiting(s)
  {
    CurrentRow(s, s.listing.value[0].0, s.listing.value[0].1) || s.listing.value[0].0 !in handled
  }

  lemma RowInTimeWaits(s: System, self: string, store: PoolStore, handled: set<string>)
    requires Inv(s, self, store, handled) && Awaiting(s) && RowInTime(s, handled)
    ensures RowWaits(s, self, s.listing.value[0].0, s.listing.value[0].1)
  {
    var (id, row) := s.listing.value[0];
    assert row.poolId == self;
    if CurrentRow(s, id, row) {
      forall i | i in s.cache.byId && i != id && !InFlight(s, i) && s.cache.byId[i].row.path == row.path
        ensures Pending(s.queue, i) && Pending(s.queue, id) {
        assert Before(s.queue, i, id);
      }
    }
  }

  lemma RowKeepsRows(s: System, self: string, store: PoolStore, handled: set<string>)
    requires Inv(s, self, store, handled) && Awaiting(s) && RowInTime(s, handled)
    ensures ListedWait(LoadRow(s, self), self, handled) && StoredWaits(LoadRow(s, self), self, handled)
  {
    var t := LoadRow(s, self);
    var (id, row) := s.listing.value[0];
    forall k | 0 <= k < |t.listing.value| && t.listing.value[k].0 !in handled
      ensures RowWaits(t, self, t.listing.value[k].0, t.listing.value[k].1) {
      assert t.listing.value[k] == s.listing.value[k + 1];
      PutKeepsRow(s, t, self, id, row, t.listing.value[k].0, t.listing.value[k].1);
    }
    if s.busy.Storing? {
      assert CurrentRow(s, id, row) && id != s.busy.id && row.path == s.busy.row.path ==> Before(s.queue, s.busy.id, id);
      PutKeepsRow(s, t, self, id, row, s.busy.id, s.busy.row);
    }
  }

  lemma RowKeeps(s: System, self: string, store: PoolStore, handled: set<string>)
    requires Inv(s, self, store, handled) && Awaiting(s) && RowInTime(s, handled)
    ensures Inv(LoadRow(s, self), self, store, handled)
  {
    RowKeepsBasics(s, self, store);
    RowKeepsRows(s, self, store, handled);
    RowInTimeWaits(s, self, store, handled);
    PutKeeps(s, LoadRow(s, self), self, store, handled, s.listing.value[0].0, s.listing.value[0].1);
  }

  // ---------------------------------------------------------------- whole runs

  datatype Event = Admin(op: AdminOp) | Dropped | Taken | Reread | Stored | Listed(rows: seq<(string, TenancyRow)>) | RowLoaded

  /** Administration, the handling of notifications and the loading of the listing interleave freely.
      Until the handler is installed notifications are dropped. */
  ghost predicate Happens(s: System, t: System, e: Event, self: string, store: PoolStore) {
    match e
    case Admin(op) => t == Administer(s, self, store, op).0
    case Dropped => s.cache == EMPTY && s.busy.Idle? && s.listing.None? && s.queue != [] && t == s.(queue := s.queue[1..])
    case Taken => s.busy.Idle? && s.queue != [] && t == Take(s)
    case Reread => s.busy.Reading? && t == Read(s, self)
    case Stored => s.busy.Storing? && t == Store(s, self)
    case Listed(rows) => !Awaiting(s) && Listing(rows, s.db, self) && t == s.(listing := Some(rows))
    case RowLoaded => Awaiting(s) && t == LoadRow(s, self)
  }

  /** The server has just subscribed: nothing is queued, handled, listed or loaded. */
  ghost predicate Initial(s: System, store: PoolStore) {
    UniquePaths(s.db) && KnownPools(s.db, store) && s == System(s.db, [], EMPTY, Idle, None)
  }

  ghost predicate Run(states: seq<System>, events: seq<Event>, self: string, store: PoolStore) {
    && |states| == |events| + 1
    && Initial(states[0], store)
    && forall k | 0 <= k < |events| :: Happens(states[k], states[k + 1], events[k], self, store)
  }

  /** The tenancies whose notifications were taken since the listing was read. */
  ghost function Handled(states: seq<System>, events: seq<Event>, n: nat): set<string>
    requires n <= |events| < |states|
  {
    if n == 0 || events[n - 1].Listed? then {}
    else
      var before := Handled(states, events, n - 1);
      if events[n - 1].Taken? && states[n - 1].queue != [] then before + {states[n - 1].queue[0].tenancy} else before
  }

  /** Every row of the listing that was loaded before state `n` was in time. */
  ghost predicate InTime(states: seq<System>, events: seq<Event>, n: nat)
    requires n <= |events| < |states|
  {
    forall k | 0 <= k < n && events[k].RowLoaded? && Awaiting(states[k]) :: RowInTime(states[k], Handled(states, events, k))
  }

  lemma InitialInv(s: System, self: string, store: PoolStore)
    requires Initial(s, store)
    ensures Inv(s, self, store, {})
  {}

  lemma EventKeepsBasics(s: System, t: System, e: Event, self: string, store: PoolStore)
    requires Basics(s, self, store) && Happens(s, t, e, self, store)
    ensures Basics(t, self, store)
  {
    match e
    case Admin(op) =>
      AdministerIsStep(s, self, store, op);
      if t != s { AdminStepKeepsBasics(s, t, self, store, op.id); }
    case Dropped => DropKeeps(s, self, store);
    case Taken => TakeKeepsBasics(s, self, store);
    case Reread => ReadKeepsBasics(s, self, store);
    case Stored => StoreKeepsBasics(s, self, store);
    case Listed(rows) => ListingKeepsBasics(s, self, store, rows);
    case RowLoaded => RowKeepsBasics(s, self, store);
  }

  lemma {:induction false} RunKeepsBasics(states: seq<System>, events: seq<Event>, self: string, store: PoolStore, n: nat)
    requires Run(states, events, self, store) && n < |states|
    ensures Basics(states[n], self, store)
  {
    if n == 0 {
      InitialInv(states[0], self, store);
    } else {
      RunKeepsBasics(states, events, self, store, n - 1);
      EventKeepsBasics(states[n - 1], states[n], events[n - 1], self, store);
    }
  }

  /** In every interleaving in which the rows of the listing are loaded in time, the invariant holds. */
  lemma {:induction false} RunInv(states: seq<System>, events: seq<Event>, self: string, store: PoolStore, n: nat)
    requires Run(states, events, self, store) && n < |states| && InTime(states, events, n)
    ensures Inv(states[n], self, store, Handled(states, events, n))
  {
    if n == 0 {
      InitialInv(states[0], self, store);
    } else {
      RunInv(states, events, self, store, n - 1);
      var s, handled := states[n - 1], Handled(states, events, n - 1);
      assert Happens(s, states[n], events[n - 1], self, store);
      match events[n - 1]
      case Admin(op) => AdministerKeeps(s, self, store, op, handled);
      case Dropped => DropKeeps(s, self, store);
      case Taken => TakeKeeps(s, self, store, handled);
      case Reread => ReadKeeps(s, self, store, handled);
      case Stored => StoreKeeps(s, self, store, handled);
      case Listed(rows) => ListingKeeps(s, self, store, rows, handled);
      case RowLoaded => RowKeeps(s, self, store, handled);
    }
  }

  /** The listing is loaded, nothing is queued and nothing is being handled. */
  predicate Quiet(s: System) {
    s.queue == [] && s.busy.Idle? && s.listing == Some([])
  }

  /** The tenancies of the served pool are loaded as the table has them, and found by their paths. */
  ghost predicate Mirrors(s: System, self: string) {
    && (forall id :: id in s.cache.byId <==> Served(s.db, self, id))
    && (forall id | id in s.cache.byId :: s.cache.byId[id].id == id && s.cache.byId[id].row == s.db[id])
    && (forall id | id in s.cache.byId :: Findable(s.cache, id))
  }

  lemma QuietMirrors(s: System, self: string, store: PoolStore, handled: set<string>)
    requires Inv(s, self, store, handled) && Quiet(s)
    ensures Mirrors(s, self)
  {
    forall id: string ensures UpToDate(s, self, id) {
      assert id in s.cache.byId ==> UpToDate(s, self, id) || Pending(s.queue, id);
    }
  }

  /** The handler goes on until it has nothing to do. */
  function Drain(s: System, self: string): System
    decreases |s.queue|, if s.busy.Reading? then 2 else if s.busy.Storing? then 1 else 0
  {
    match s.busy
    case Reading(_) => Drain(Read(s, self), self)
    case Storing(_, _) => Drain(Store(s, self), self)
    case Idle => if s.queue == [] then s else Drain(Take(s), self)
  }

  /** From every state of the invariant, letting the handler go on is enough. */
  lemma {:induction false} DrainConverges(s: System, self: string, store: PoolStore, handled: set<string>)
    requires Inv(s, self, store, handled) && s.listing == Some([])
    ensures Drain(s, self).db == s.db && Mirrors(Drain(s, self), self)
    decreases |s.queue|, if s.busy.Reading? then 2 else if s.busy.Storing? then 1 else 0
  {
    match s.busy
    case Reading(_) =>
      ReadKeeps(s, self, store, handled);
      DrainConverges(Read(s, self), self, store, handled);
    case Storing(_, _) =>
      StoreKeeps(s, self, store, handled);
      DrainConverges(Store(s, self), self, store, handled);
    case Idle =>
      if s.queue == [] {
        QuietMirrors(s, self, store, handled);
      } else {
        TakeKeeps(s, self, store, handled);
        DrainConverges(Take(s), self, store, handled + {s.queue[0].tenancy});
      }
  }

  // ---------------------------------------------------------------- the controller

  /** The administrator's side, method by method.  `queue` holds the publications that reach the
      pool `self`; `oplog` the operations recorded. */
  class TenancyController {
    const self: string
    const pools: PoolStore
    var db: map<string, TenancyRow>
    var queue: seq<Notification>
    var oplog: seq<(string, Operation)>

    constructor (self: string, pools: PoolStore, db: map<string, TenancyRow>)
      ensures this.self == self && this.pools == pools && this.db == db && queue == [] && oplog == []
    {
      this.self, this.pools, this.db := self, pools, db;
      queue, oplog := [], [];
    }

    /** This controller together with the state of a server. */
    ghost function With(cache: Cache, busy: Busy, listing: Option<seq<(string, TenancyRow)>>): System
      reads this
    {
      System(db, queue, cache, busy, listing)
    }

    /** The outcome of the operation, in terms of the database, the queue and the log it started with. */
    twostate predicate Did(op: AdminOp, new err: Option<AdminError>)
      reads this
    {
      && (forall cache, busy, listing ::
            (With(cache, busy, listing), err) == Administer(old(With(cache, busy, listing)), self, pools, op))
      && oplog == (if err.Some? then old(oplog) else old(oplog) + [(op.id, Logged(op))])
    }

    method PublishOp(poolId: string, msg: Notification)
      modifies this`queue
      ensures queue == Publish(old(queue), self, poolId, msg)
    {
      if poolId == self { queue := queue + [msg]; }
    }

    method AddTenancy(id: string, row: TenancyRow, creation: Creation) returns (err: Option<AdminError>)
      modifies this
      ensures Did(Add(id, row, creation), err)
    {
      if creation.customer.None? { return Some(CustomerUnknown); }
      var found := FindPool(pools, row.poolId);
      if found.None? { return Some(PoolUnknown); }
      if !pools.active[found.value] { return Some(PoolNotActive); }
      if RoleTaken(db, row.customerId, row.role) { return Some(ConflictRole); }
      var created := row.(customerId := creation.customer.value, poolId := found.value, active := false);
      if created.path == "" { created := created.(path := creation.path); }
      if created.dbName == "" { created := created.(dbName := creation.dbName); }
      if PathTakenInPool(db, row.poolId, row.path) { return Some(ConflictPath); }
      if !creation.ready { return Some(DatabaseFailed); }
      if id in db || PathTaken(db, created.path) || RoleTaken(db, created.customerId, created.role) {
        return Some(DbConstraint);
      }
      db := db[id := created];
      oplog := oplog + [(id, OpAdd)];
      PublishOp(found.value, Notification(id, OpAdd));
      return None;
    }

    method SetTenancyPath(id: string, path: string) returns (err: Option<AdminError>)
      modifies this
      ensures Did(SetPath(id, path), err)
    {
      if id !in db { return Some(TenancyNotFound); }
      var row := db[id];
      if PathTakenInPool(db, row.poolId, path) { return Some(ConflictPath); }
      if PathTaken(db, path) { return Some(DbConstraint); }
      db := db[id := row.(path := path)];
      oplog := oplog + [(id, OpSetPath)];
      PublishOp(row.poolId, Notification(id, OpSetPath));
      return None;
    }

    method SetTenancyRole(id: string, role: string) returns (err: Option<AdminError>)
      modifies this
      ensures Did(SetRole(id, role), err)
    {
      if id !in db { return Some(TenancyNotFound); }
      var row := db[id];
      if RoleTaken(db, row.customerId, role) { return Some(ConflictRole); }
      db := db[id := row.(role := role)];
      oplog := oplog + [(id, OpSetRole)];
      PublishOp(row.poolId, Notification(id, OpSetRole));
      return None;
    }

    method SetTenancyCustomer(id: string, customer: Option<string>) returns (err: Option<AdminError>)
      modifies this
      ensures Did(SetCustomer(id, customer), err)
    {
      if id !in db { return Some(TenancyNotFound); }
      var row := db[id];
      if customer.None? { return Some(CustomerUnknown); }
      if RoleTaken(db, customer.value, row.role) { return Some(ConflictRole); }
      db := db[id := row.(customerId := customer.value)];
      oplog := oplog + [(id, OpSetCustomer)];
      PublishOp(row.poolId, Notification(id, OpSetCustomer));
      return None;
    }

    /** `Activate` and `Deactivate`. */
    method SetTenancyActive(id: string, active: bool) returns (err: Option<AdminError>)
      modifies this
      ensures Did(SetActive(id, active), err)
    {
      if id !in db { return Some(TenancyNotFound); }
      var row := db[id];
      var op := if active then OpActivate else OpDeactivate;
      db := db[id := row.(active := active)];
      oplog := oplog + [(id, op)];
      PublishOp(row.poolId, Notification(id, op));
      return None;
    }

    method ChangeTenancyPoolOrDb(id: string, poolId: string, dbName: string, env: Environment) returns (err: Option<AdminError>)
      modifies this
      ensures Did(ChangePoolOrDb(id, poolId, dbName, env), err)
    {
      if id !in db { return Some(TenancyNotFound); }
      var row := db[id];
      var pId := if poolId == "" then row.poolId else poolId;
      var found := FindPool(pools, pId);
      if found.None? { return Some(PoolUnknown); }
      if found.value != row.poolId && PathTakenInPool(db, found.value, row.path) { return Some(ConflictPath); }
      if env == NoCustomer { return Some(CustomerUnknown); }
      if !pools.active[found.value] { return Some(PoolNotActive); }
      if env != AllUp { return Some(DatabaseFailed); }
      db := db[id := row.(poolId := found.value, dbName := if dbName == "" then row.dbName else dbName)];
      oplog := oplog + [(id, OpChangePoolOrDb)];
      if row.poolId != pId { PublishOp(row.poolId, Notification(id, OpDelete)); }
      PublishOp(found.value, Notification(id, OpChangePoolOrDb));
      return None;
    }

    method DeleteTenancy(id: string, withDatabase: bool) returns (err: Option<AdminError>)
      modifies this
      ensures Did(Delete(id, withDatabase), err)
    {
      if withDatabase { return Some(Unsupported); }
      if id !in db { return Some(TenancyNotFound); }
      var row := db[id];
      db := db - {id};
      oplog := oplog + [(id, OpDelete)];
      PublishOp(row.poolId, Notification(id, OpDelete));
      return None;
    }
  }
}
