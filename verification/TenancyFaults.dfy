/** What can go wrong with the tenancy indexes, and exactly when.

    A fault is something that the queue and the listing will not repair.  Each kind of fault has an
    exact history: it is there if and only if some event caused it and no later event cured it.  From
    this follow the exact conditions under which the indexes mirror the table. */
module TenancyFaults {
  import opened Prelude
  import opened TenancyCache
  import opened TenancyConvergence

  datatype Fault =
    | Outdated(id: string)  // the index by identifier disagrees with the table
    | Hidden(id: string)    // a loaded tenancy is not found by its path
    | Stray(path: string)   // the index by path holds a tenancy that is not loaded any more

  ghost predicate IsStray(c: Cache, path: string) {
    path in c.byPath && !OwnsPath(c, path)
  }

  ghost predicate IsHidden(c: Cache, id: string) {
    id in c.byId && !Findable(c, id)
  }

  ghost predicate Faulty(s: System, self: string, f: Fault) {
    match f
    case Outdated(id) => !UpToDate(s, self, id) && !Pending(s.queue, id) && !Expected(s, id)
    case Hidden(id) => IsHidden(s.cache, id)
    case Stray(path) => IsStray(s.cache, path)
  }

  /** The row that is loaded, by the handler or by the listing. */
  function Loading(s: System, e: Event): Option<(string, TenancyRow)> {
    if e.Stored? && s.busy.Storing? then Some((s.busy.id, s.busy.row))
    else if e.RowLoaded? && Awaiting(s) then Some(s.listing.value[0])
    else None
  }

  /** The tenancy that is unloaded. */
  function Unloading(s: System, e: Event): Option<string> {
    if e.Taken? && s.queue != [] then Some(s.queue[0].tenancy) else None
  }

  predicate Concerns(s: System, e: Event, id: string) {
    Unloading(s, e) == Some(id) || (Loading(s, e).Some? && Loading(s, e).value.0 == id)
  }

  /** A tenancy is unloaded from this path or loaded under it. */
  predicate Touches(s: System, e: Event, path: string) {
    || (Loading(s, e).Some? && Loading(s, e).value.1.path == path)
    || (Unloading(s, e).Some? && Unloading(s, e).value in s.cache.byId && s.cache.byId[Unloading(s, e).value].row.path == path)
  }

  /** The listing brings a row that is neither current nor going to be corrected. */
  ghost predicate LoadsOutdated(s: System, e: Event, id: string) {
    && e.RowLoaded? && Awaiting(s) && s.listing.value[0].0 == id
    && !CurrentRow(s, id, s.listing.value[0].1) && !Pending(s.queue, id) && !IsBusy(s, id)
  }

  /** Another tenancy is unloaded from the path of this one or loaded under it. */
  predicate Displaces(s: System, e: Event, id: string) {
    id in s.cache.byId && !Concerns(s, e, id) && Touches(s, e, s.cache.byId[id].row.path)
  }

  /** A loaded tenancy is loaded again, under another path. */
  ghost predicate LeavesBehind(s: System, e: Event, path: string) {
    && Loading(s, e).Some? && Loading(s, e).value.1.path != path
    && var id := Loading(s, e).value.0;
       id in s.cache.byId && s.cache.byId[id].row.path == path && Findable(s.cache, id)
  }

  ghost predicate Causes(s: System, e: Event, f: Fault) {
    match f
    case Outdated(id) => LoadsOutdated(s, e, id)
    case Hidden(id) => Displaces(s, e, id)
    case Stray(path) => LeavesBehind(s, e, path)
  }

  /** An operation on this tenancy that the server is told of. */
  predicate Announces(s: System, e: Event, self: string, store: PoolStore, id: string) {
    e.Admin? && e.op.id == id && |Administer(s, self, store, e.op).0.queue| > |s.queue|
  }

  predicate Cures(s: System, e: Event, self: string, store: PoolStore, f: Fault) {
    match f
    case Outdated(id) => Concerns(s, e, id) || Announces(s, e, self, store, id)
    case Hidden(id) => Concerns(s, e, id)
    case Stray(path) => Touches(s, e, path)
  }

  // ---------------------------------------------------------------- one step

  lemma OutdatedByWrite(s: System, t: System, changed: string, self: string, store: PoolStore, id: string)
    requires Basics(s, self, store) && AdminStep(s, t, self, store, changed)
    ensures Faulty(t, self, Outdated(id)) <==>
              Faulty(s, self, Outdated(id)) && !(changed == id && |t.queue| > |s.queue|)
  {
    OtherRowsStay(s, t, self, store, changed);
    PrefixKeepsOrder(s.queue, t.queue);
    if changed != id {
      forall k | 0 <= k < |t.queue| && t.queue[k].tenancy == id ensures Pending(s.queue, id) {
        assert k < |s.queue| && s.queue[k] == t.queue[k];
      }
    }
  }

  lemma OutdatedByAdmin(s: System, t: System, op: AdminOp, self: string, store: PoolStore, id: string)
    requires Basics(s, self, store) && t == Administer(s, self, store, op).0
    ensures Faulty(t, self, Outdated(id)) <==>
              Faulty(s, self, Outdated(id)) && !Announces(s, Admin(op), self, store, id)
  {
    AdministerIsStep(s, self, store, op);
    if t != s { OutdatedByWrite(s, t, op.id, self, store, id); }
  }

  lemma OutdatedByTake(s: System, self: string, store: PoolStore, id: string)
    requires Basics(s, self, store) && s.busy.Idle? && s.queue != []
    ensures Faulty(Take(s), self, Outdated(id)) <==> Faulty(s, self, Outdated(id)) && s.queue[0].tenancy != id
  {
    var t := Take(s);
    UnloadEffect(s.cache, s.queue[0].tenancy);
    TailKeepsOrder(s.queue, s.queue[0].tenancy);
    assert Contrary(s.db, self, s.queue[0]) ==> Pending(s.queue[0 + 1..], s.queue[0].tenancy);
    if Pending(t.queue, id) {
      var k :| 0 <= k < |t.queue| && t.queue[k].tenancy == id;
      assert s.queue[k + 1].tenancy == id;
    }
  }

  lemma OutdatedByRow(s: System, self: string, store: PoolStore, id: string)
    requires Basics(s, self, store) && Awaiting(s)
    ensures Faulty(LoadRow(s, self), self, Outdated(id)) <==>
              LoadsOutdated(s, RowLoaded, id) || (Faulty(s, self, Outdated(id)) && s.listing.value[0].0 != id)
  {
    PutEffect(s.cache, self, s.listing.value[0].0, s.listing.value[0].1);
    OthersAwaited(s, self);
  }

  /** Reading and storing a row repairs what nobody calls a fault yet. */
  lemma OutdatedByHandler(s: System, t: System, e: Event, self: string, store: PoolStore, id: string)
    requires Basics(s, self, store) && Happens(s, t, e, self, store) && (e.Reread? || e.Stored?)
    ensures Faulty(t, self, Outdated(id)) <==> Faulty(s, self, Outdated(id))
    ensures Concerns(s, e, id) ==> !Faulty(s, self, Outdated(id))
  {
    if e.Stored? { PutEffect(s.cache, self, s.busy.id, s.busy.row); }
  }

  /** Whatever is not loaded yet is not outdated. */
  lemma UnloadedIsNoFault(s: System, self: string, store: PoolStore, id: string)
    requires Basics(s, self, store) && id !in s.cache.byId
    ensures !Faulty(s, self, Outdated(id))
  {
    assert UpToDate(s, self, id) || Pending(s.queue, id) || Expected(s, id);
  }

  lemma OutdatedStep(s: System, t: System, e: Event, self: string, store: PoolStore, id: string)
    requires Basics(s, self, store) && Basics(t, self, store) && Happens(s, t, e, self, store)
    ensures Faulty(t, self, Outdated(id)) <==>
              Causes(s, e, Outdated(id)) || (Faulty(s, self, Outdated(id)) && !Cures(s, e, self, store, Outdated(id)))
  {
    if id !in s.cache.byId { UnloadedIsNoFault(s, self, store, id); }
    if id !in t.cache.byId { UnloadedIsNoFault(t, self, store, id); }
    match e
    case Admin(op) => OutdatedByAdmin(s, t, op, self, store, id);
    case Dropped =>
    case Taken => OutdatedByTake(s, self, store, id);
    case Reread => OutdatedByHandler(s, t, e, self, store, id);
    case Stored => OutdatedByHandler(s, t, e, self, store, id);
    case Listed(rows) =>
    case RowLoaded => OutdatedByRow(s, self, store, id);
  }

  /** What the events do to the indexes: nothing, an unloading or a loading. */
  lemma IndexesAfter(s: System, t: System, e: Event, self: string, store: PoolStore)
    requires Basics(s, self, store) && Happens(s, t, e, self, store)
    ensures Loading(s, e).Some? ==>
      && t.cache == Put(s.cache, self, Loading(s, e).value.0, Loading(s, e).value.1) && Loading(s, e).value.1.poolId == self
      && Unloading(s, e).None?
    ensures Unloading(s, e).Some? ==> t.cache == Unload(s.cache, Unloading(s, e).value)
    ensures Loading(s, e).None? && Unloading(s, e).None? ==> t.cache == s.cache
  {
    if e.Admin? { AdministerIsStep(s, self, store, e.op); }
  }

  lemma HiddenByPut(c: Cache, self: string, k: string, row: TenancyRow, id: string)
    requires Keyed(c) && row.poolId == self
    ensures IsHidden(Put(c, self, k, row), id) <==>
              (id in c.byId && id != k && (c.byId[id].row.path == row.path || IsHidden(c, id)))
  {
    PutEffect(c, self, k, row);
  }

  lemma HiddenByUnload(c: Cache, k: string, id: string)
    requires Keyed(c)
    ensures IsHidden(Unload(c, k), id) <==>
              (id in c.byId && id != k && ((k in c.byId && c.byId[k].row.path == c.byId[id].row.path) || IsHidden(c, id)))
  {
    UnloadEffect(c, k);
  }

  lemma HiddenStep(s: System, t: System, e: Event, self: string, store: PoolStore, id: string)
    requires Basics(s, self, store) && Happens(s, t, e, self, store)
    ensures Faulty(t, self, Hidden(id)) <==>
              Causes(s, e, Hidden(id)) || (Faulty(s, self, Hidden(id)) && !Cures(s, e, self, store, Hidden(id)))
  {
    IndexesAfter(s, t, e, self, store);
    if Loading(s, e).Some? { HiddenByPut(s.cache, self, Loading(s, e).value.0, Loading(s, e).value.1, id); }
    if Unloading(s, e).Some? { HiddenByUnload(s.cache, Unloading(s, e).value, id); }
  }

  lemma StrayByPut(c: Cache, self: string, id: string, row: TenancyRow, path: string)
    requires Keyed(c) && row.poolId == self
    ensures IsStray(Put(c, self, id, row), path) <==>
              (row.path != path && (IsStray(c, path) || (id in c.byId && c.byId[id].row.path == path && Findable(c, id))))
  {
    PutEffect(c, self, id, row);
  }

  lemma StrayByUnload(c: Cache, id: string, path: string)
    requires Keyed(c)
    ensures IsStray(Unload(c, id), path) <==> IsStray(c, path) && !(id in c.byId && c.byId[id].row.path == path)
  {}

  lemma StrayStep(s: System, t: System, e: Event, self: string, store: PoolStore, path: string)
    requires Basics(s, self, store) && Happens(s, t, e, self, store)
    ensures Faulty(t, self, Stray(path)) <==>
              Causes(s, e, Stray(path)) || (Faulty(s, self, Stray(path)) && !Cures(s, e, self, store, Stray(path)))
  {
    IndexesAfter(s, t, e, self, store);
    if Loading(s, e).Some? { StrayByPut(s.cache, self, Loading(s, e).value.0, Loading(s, e).value.1, path); }
    if Unloading(s, e).Some? { StrayByUnload(s.cache, Unloading(s, e).value, path); }
  }

  // ---------------------------------------------------------------- whole runs

  /** Some event before state `n` caused the fault, and no later one cured it. */
  ghost predicate Lasting(states: seq<System>, events: seq<Event>, self: string, store: PoolStore, n: nat, f: Fault)
    requires n <= |events| < |states|
  {
    exists k :: 0 <= k < n && Causes(states[k], events[k], f)
      && forall m | k < m < n :: !Cures(states[m], events[m], self, store, f)
  }

  lemma LastingStep(states: seq<System>, events: seq<Event>, self: string, store: PoolStore, n: nat, f: Fault)
    requires 0 < n <= |events| < |states|
    ensures Lasting(states, events, self, store, n, f) <==>
              || Causes(states[n - 1], events[n - 1], f)
              || (Lasting(states, events, self, store, n - 1, f) && !Cures(states[n - 1], events[n - 1], self, store, f))
  {
    if Lasting(states, events, self, store, n - 1, f) && !Cures(states[n - 1], events[n - 1], self, store, f) {
      var k :| 0 <= k < n - 1 && Causes(states[k], events[k], f)
        && forall m | k < m < n - 1 :: !Cures(states[m], events[m], self, store, f);
      assert forall m | k < m < n :: !Cures(states[m], events[m], self, store, f);
    }
  }

  /** In every state of every run a fault is there exactly if it was caused and has not been cured. */
  lemma {:induction false} FaultsExactly(states: seq<System>, events: seq<Event>, self: string, store: PoolStore, n: nat, f: Fault)
    requires Run(states, events, self, store) && n < |states|
    ensures Faulty(states[n], self, f) <==> Lasting(states, events, self, store, n, f)
  {
    RunKeepsBasics(states, events, self, store, n);
    if n > 0 {
      var s, t, e := states[n - 1], states[n], events[n - 1];
      RunKeepsBasics(states, events, self, store, n - 1);
      FaultsExactly(states, events, self, store, n - 1, f);
      LastingStep(states, events, self, store, n, f);
      assert Happens(s, t, e, self, store);
      match f
      case Outdated(id) => OutdatedStep(s, t, e, self, store, id);
      case Hidden(id) => HiddenStep(s, t, e, self, store, id);
      case Stray(path) => StrayStep(s, t, e, self, store, path);
    }
  }

  /** The indexes are exactly the tenancies of the served pool, by identifier and by path. */
  ghost predicate Converged(s: System, self: string) {
    Mirrors(s, self) && PathsOwned(s.cache)
  }

  lemma QuietExactly(s: System, self: string, store: PoolStore)
    requires Basics(s, self, store) && Quiet(s)
    ensures Converged(s, self) <==> forall f :: !Faulty(s, self, f)
    ensures Mirrors(s, self) <==> forall f: Fault | !f.Stray? :: !Faulty(s, self, f)
  {
    if Mirrors(s, self) {
      forall f: Fault | !f.Stray? ensures !Faulty(s, self, f) {
        assert f.Outdated? ==> UpToDate(s, self, f.id);
      }
    }
    if forall f: Fault | !f.Stray? :: !Faulty(s, self, f) {
      forall id: string ensures UpToDate(s, self, id) && (id in s.cache.byId ==> Findable(s.cache, id)) {
        assert !Faulty(s, self, Outdated(id)) && !Faulty(s, self, Hidden(id));
      }
    }
    if PathsOwned(s.cache) {
      assert forall p :: !Faulty(s, self, Stray(p));
    }
    if forall f :: !Faulty(s, self, f) {
      forall p | p in s.cache.byPath ensures OwnsPath(s.cache, p) { assert !Faulty(s, self, Stray(p)); }
    }
  }

  /** Convergence: in every run, whenever the listing is loaded and the queue is empty, the indexes are
      exact if and only if no fault was caused that has not been cured. */
  lemma Convergence(states: seq<System>, events: seq<Event>, self: string, store: PoolStore, n: nat)
    requires Run(states, events, self, store) && n < |states| && Quiet(states[n])
    ensures Converged(states[n], self) <==> forall f :: !Lasting(states, events, self, store, n, f)
    ensures Mirrors(states[n], self) <==> forall f: Fault | !f.Stray? :: !Lasting(states, events, self, store, n, f)
  {
    RunKeepsBasics(states, events, self, store, n);
    QuietExactly(states[n], self, store);
    forall f ensures Faulty(states[n], self, f) <==> Lasting(states, events, self, store, n, f) {
      FaultsExactly(states, events, self, store, n, f);
    }
  }

  /** When every row of the listing is loaded in time, whatever was loaded before it, the tenancies are
      loaded as the table has them and found by their paths; at most stray paths remain, exactly those
      that a reloaded tenancy left behind and nothing has touched since. */
  lemma ConvergenceInTime(states: seq<System>, events: seq<Event>, self: string, store: PoolStore, n: nat)
    requires Run(states, events, self, store) && n < |states| && Quiet(states[n]) && InTime(states, events, n)
    ensures Mirrors(states[n], self)
    ensures Converged(states[n], self) <==> forall path :: !Lasting(states, events, self, store, n, Stray(path))
  {
    RunInv(states, events, self, store, n);
    QuietMirrors(states[n], self, store, Handled(states, events, n));
    Convergence(states, events, self, store, n);
  }

  /** What a request finds by its path then: the tenancy of the served pool whose row has that path; a
      path that no such row has is found exactly if it was left behind. */
  lemma LookupExactly(states: seq<System>, events: seq<Event>, self: string, store: PoolStore, n: nat, path: string)
    requires Run(states, events, self, store) && n < |states| && Quiet(states[n]) && InTime(states, events, n)
    ensures var s := states[n]; var found := Lookup(s.cache, path);
      if exists id :: Served(s.db, self, id) && s.db[id].path == path then
        found.Some? && Served(s.db, self, found.value.id) && s.db[found.value.id] == found.value.row
        && found.value.row.path == path
      else
        found.Some? <==> Lasting(states, events, self, store, n, Stray(path))
  {
    var s := states[n];
    ConvergenceInTime(states, events, self, store, n);
    FaultsExactly(states, events, self, store, n, Stray(path));
    if id :| Served(s.db, self, id) && s.db[id].path == path {
      assert id in s.cache.byId && Findable(s.cache, id);
    }
  }

  // ---------------------------------------------------------------- handles

  /** No row loaded before state `n` was one of a tenancy that was loaded already. */
  ghost predicate LoadedOnce(states: seq<System>, events: seq<Event>, n: nat)
    requires n <= |events| < |states|
  {
    forall k | 0 <= k < n && Loading(states[k], events[k]).Some? ::
      Loading(states[k], events[k]).value.0 !in states[k].cache.byId
  }

  /** The handles stay accounted for exactly as long as no loaded tenancy is loaded again; otherwise one
      is lost for good. */
  lemma {:induction false} HandlesExactly(states: seq<System>, events: seq<Event>, self: string, store: PoolStore, n: nat)
    requires Run(states, events, self, store) && n < |states|
    ensures WellFormed(states[n].cache) <==> LoadedOnce(states, events, n)
    ensures !LoadedOnce(states, events, n) ==> Leaked(states[n].cache)
  {
    if n == 0 {
      assert Owned(EMPTY) == {};
    } else {
      var s, t, e := states[n - 1], states[n], events[n - 1];
      HandlesExactly(states, events, self, store, n - 1);
      RunKeepsBasics(states, events, self, store, n - 1);
      assert Happens(s, t, e, self, store);
      HandlesStep(s, t, e, self, store);
      if Leaked(t.cache) { LeakedIsNotWellFormed(t.cache); }
      assert LoadedOnce(states, events, n) <==>
        LoadedOnce(states, events, n - 1) && (Loading(s, e).Some? ==> Loading(s, e).value.0 !in s.cache.byId);
    }
  }

  lemma HandlesStep(s: System, t: System, e: Event, self: string, store: PoolStore)
    requires Basics(s, self, store) && Happens(s, t, e, self, store)
    ensures Leaked(s.cache) ==> Leaked(t.cache)
    ensures WellFormed(s.cache) ==>
      if Loading(s, e).Some? && Loading(s, e).value.0 in s.cache.byId then Leaked(t.cache) else WellFormed(t.cache)
  {
    var pools := ServedPools(self);
    IndexesAfter(s, t, e, self, store);
    if h: nat :| h < s.cache.handles && h in s.cache.open && h !in Owned(s.cache) {
      if Loading(s, e).Some? { LoadKeepsLeak(s.cache, pools, Loading(s, e).value.0, Loading(s, e).value.1, AllUp, h); }
      if Unloading(s, e).Some? { UnloadKeepsLeak(s.cache, Unloading(s, e).value, h); }
    }
    if WellFormed(s.cache) {
      if Loading(s, e).Some? {
        var (id, row) := Loading(s, e).value;
        if id in s.cache.byId { ReloadLeaks(s.cache, pools, id, row, AllUp); } else { NewKeeps(s.cache, pools, id, row, AllUp); }
      }
      if Unloading(s, e).Some? { UnloadKeeps(s.cache, Unloading(s, e).value); }
    }
  }

  /** Without a reload nothing is left behind. */
  lemma LoadedOnceConverges(states: seq<System>, events: seq<Event>, self: string, store: PoolStore, n: nat)
    requires Run(states, events, self, store) && n < |states| && Quiet(states[n])
    requires InTime(states, events, n) && LoadedOnce(states, events, n)
    ensures Converged(states[n], self) && WellFormed(states[n].cache)
  {
    ConvergenceInTime(states, events, self, store, n);
    HandlesExactly(states, events, self, store, n);
  }

  // ---------------------------------------------------------------- runs that show the limits

  const EARLY_STORE := PoolStore(map["a" := true], map[])
  const EARLY_ROW := TenancyRow("p", "a", "r", "c", "d", false, "")
  const MOVED_ROW := EARLY_ROW.(path := "q")
  const EARLY_ADDITION := [Admin(Add("x", EARLY_ROW, Creation(Some("c"), "", "", true))), Taken, Reread, Stored]
  const EARLY_EVENTS := EARLY_ADDITION + [Admin(SetPath("x", "q")), Listed([("x", MOVED_ROW)]), RowLoaded, Taken, Reread, Stored]
  const HARMLESS_EVENTS := EARLY_ADDITION + [Listed([("x", EARLY_ROW)]), RowLoaded]

  const EARLY_CACHE := var first := Tenancy("x", EARLY_ROW, 0); Cache(map["x" := first], map["p" := first], 1, {0}, [])

  /** The states while an addition is handled before the listing is read. */
  ghost function AdditionStates(): (states: seq<System>)
    ensures |states| == 5
  {
    var db := map["x" := EARLY_ROW];
    [ System(map[], [], EMPTY, Idle, None), System(db, [Notification("x", OpAdd)], EMPTY, Idle, None),
      System(db, [], EMPTY, Reading("x"), None), System(db, [], EMPTY, Storing("x", EARLY_ROW), None),
      System(db, [], EARLY_CACHE, Idle, None) ]
  }

  /** Then the path changes, the listing is loaded, and the change is handled. */
  ghost function EarlyStates(): (states: seq<System>)
    ensures |states| == 11
  {
    var db := map["x" := MOVED_ROW];
    var pending := [Notification("x", OpSetPath)];
    var first, second, third := EARLY_CACHE.byId["x"], Tenancy("x", MOVED_ROW, 1), Tenancy("x", MOVED_ROW, 2);
    var unloaded := Cache(map[], map["p" := first], 2, {0}, [1]);
    AdditionStates() +
    [ System(db, pending, EARLY_CACHE, Idle, None),
      System(db, pending, EARLY_CACHE, Idle, Some([("x", MOVED_ROW)])),
      System(db, pending, Cache(map["x" := second], map["p" := first, "q" := second], 2, {0, 1}, []), Idle, Some([])),
      System(db, [], unloaded, Reading("x"), Some([])),
      System(db, [], unloaded, Storing("x", MOVED_ROW), Some([])),
      System(db, [], Cache(map["x" := third], map["p" := first, "q" := third], 3, {0, 2}, [1]), Idle, Some([])) ]
  }

  /** The path does not change. */
  ghost function HarmlessStates(): (states: seq<System>)
    ensures |states| == 7
  {
    var db := map["x" := EARLY_ROW];
    var again := Tenancy("x", EARLY_ROW, 1);
    AdditionStates() +
    [ System(db, [], EARLY_CACHE, Idle, Some([("x", EARLY_ROW)])),
      System(db, [], Cache(map["x" := again], map["p" := again], 2, {0, 1}, []), Idle, Some([])) ]
  }

  lemma AdditionRun()
    ensures Run(AdditionStates(), EARLY_ADDITION, "a", EARLY_STORE)
  {
    var states := AdditionStates();
    assert Unload(EMPTY, "x") == EMPTY;
    assert Take(states[1]) == states[2] && Read(states[2], "a") == states[3];
    assert Store(states[3], "a").cache == states[4].cache;
  }

  /** A run goes on with these states. */
  lemma RunsJoin(states: seq<System>, events: seq<Event>, more: seq<System>, later: seq<Event>)
    requires Run(states, events, "a", EARLY_STORE) && |more| == |later|
    requires later != [] ==> Happens(states[|events|], more[0], later[0], "a", EARLY_STORE)
    requires forall k | 0 < k < |later| :: Happens(more[k - 1], more[k], later[k], "a", EARLY_STORE)
    ensures Run(states + more, events + later, "a", EARLY_STORE)
  {
    forall k | 0 <= k < |events + later|
      ensures Happens((states + more)[k], (states + more)[k + 1], (events + later)[k], "a", EARLY_STORE) {
      if k < |events| {
        assert Happens(states[k], states[k + 1], events[k], "a", EARLY_STORE);
      } else if k > |events| {
        var m := k - |events|;
        assert Happens(more[m - 1], more[m], later[m], "a", EARLY_STORE);
      }
    }
  }

  lemma OneRowListing(row: TenancyRow)
    requires row.poolId == "a"
    ensures Listing([("x", row)], map["x" := row], "a") && [("x", row)][1..] == []
  {
    assert [("x", row)][0].0 == "x";
  }

  lemma EarlyChange()
    ensures Happens(EarlyStates()[4], EarlyStates()[5], EARLY_EVENTS[4], "a", EARLY_STORE)
  {}

  lemma EarlyReload()
    ensures var states := EarlyStates();
      && Happens(states[5], states[6], EARLY_EVENTS[5], "a", EARLY_STORE)
      && Happens(states[6], states[7], RowLoaded, "a", EARLY_STORE)
  {
    OneRowListing(MOVED_ROW);
    assert LoadRow(EarlyStates()[6], "a").cache == EarlyStates()[7].cache;
  }

  lemma EarlyTaking()
    ensures Happens(EarlyStates()[7], EarlyStates()[8], Taken, "a", EARLY_STORE)
  {
    var states := EarlyStates();
    var unloaded := Unload(states[7].cache, "x");
    assert unloaded.byId == map[] && unloaded.byPath == map["p" := EARLY_CACHE.byId["x"]] && unloaded.open == {0};
    assert Take(states[7]) == states[8];
  }

  lemma EarlyStoring()
    ensures Happens(EarlyStates()[8], EarlyStates()[9], Reread, "a", EARLY_STORE)
    ensures Happens(EarlyStates()[9], EarlyStates()[10], Stored, "a", EARLY_STORE)
  {
    assert Store(EarlyStates()[9], "a").cache == EarlyStates()[10].cache;
  }

  lemma EarlyRun()
    ensures Run(EarlyStates(), EARLY_EVENTS, "a", EARLY_STORE)
  {
    AdditionRun();
    EarlyChange();
    EarlyReload();
    EarlyTaking();
    EarlyStoring();
    RunsJoin(AdditionStates(), EARLY_ADDITION, EarlyStates()[5..], EARLY_EVENTS[4..]);
    assert EarlyStates() == AdditionStates() + EarlyStates()[5..] && EARLY_EVENTS == EARLY_ADDITION + EARLY_EVENTS[4..];
  }

  lemma EarlyIsInTime()
    ensures InTime(EarlyStates(), EARLY_EVENTS, 10)
  {
    assert forall k | 0 <= k < 10 :: EARLY_EVENTS[k].RowLoaded? ==> k == 6;
    assert RowInTime(EarlyStates()[6], Handled(EarlyStates(), EARLY_EVENTS, 6));
  }

  lemma EarlyLeak()
    ensures Leaked(EarlyStates()[10].cache)
  {
    EarlyRun();
    HandlesExactly(EarlyStates(), EARLY_EVENTS, "a", EARLY_STORE, 10);
    assert Loading(EarlyStates()[6], EARLY_EVENTS[6]).Some?;
  }

  /** Here the old path is still served in the end, and a handle is lost. */
  lemma EarlyDeliveryBreaks()
    ensures var states := EarlyStates();
      && Run(states, EARLY_EVENTS, "a", EARLY_STORE) && Quiet(states[10]) && InTime(states, EARLY_EVENTS, 10)
      && Lasting(states, EARLY_EVENTS, "a", EARLY_STORE, 10, Stray("p")) && Lookup(states[10].cache, "p").Some?
      && (forall id | id in states[10].db :: states[10].db[id].path != "p")
      && Leaked(states[10].cache)
  {
    EarlyRun();
    EarlyIsInTime();
    EarlyLeak();
    FaultsExactly(EarlyStates(), EARLY_EVENTS, "a", EARLY_STORE, 10, Stray("p"));
  }

  lemma HarmlessRun()
    ensures Run(HarmlessStates(), HARMLESS_EVENTS, "a", EARLY_STORE)
  {
    var states := HarmlessStates();
    AdditionRun();
    OneRowListing(EARLY_ROW);
    assert LoadRow(states[5], "a").cache == states[6].cache;
    assert Happens(states[4], states[5], HARMLESS_EVENTS[4], "a", EARLY_STORE);
    assert Happens(states[5], states[6], RowLoaded, "a", EARLY_STORE);
    RunsJoin(AdditionStates(), EARLY_ADDITION, states[5..], HARMLESS_EVENTS[4..]);
    assert states == AdditionStates() + states[5..] && HARMLESS_EVENTS == EARLY_ADDITION + HARMLESS_EVENTS[4..];
  }

  lemma HarmlessLeak()
    ensures Leaked(HarmlessStates()[6].cache)
  {
    HarmlessRun();
    HandlesExactly(HarmlessStates(), HARMLESS_EVENTS, "a", EARLY_STORE, 6);
    assert Loading(HarmlessStates()[5], HARMLESS_EVENTS[5]).Some?;
  }

  /** Here the indexes converge, although a handle is lost. */
  lemma HarmlessReload()
    ensures var states := HarmlessStates();
      && Run(states, HARMLESS_EVENTS, "a", EARLY_STORE) && Quiet(states[6])
      && Converged(states[6], "a") && Leaked(states[6].cache)
  {
    HarmlessRun();
    HarmlessLeak();
  }

  /** A row that is not in time can bring a deleted tenancy back: its deletion is handled after the
      listing was read and before the row is loaded. */
  lemma StaleRowRevives(s: System, self: string, store: PoolStore, id: string, row: TenancyRow)
    requires Initial(s, store) && row.poolId == self && Listing([(id, row)], s.db, self)
    ensures var listed := s.(listing := Some([(id, row)]));
      var deleted := Administer(listed, self, store, Delete(id, false)).0;
      && deleted.queue == [Notification(id, OpDelete)]
      && var t := LoadRow(Take(deleted), self);
         Quiet(t) && Faulty(t, self, Outdated(id)) && id in t.cache.byId && id !in t.db
  {
    assert [(id, row)][1..] == [];
    assert Served(s.db, self, [(id, row)][0].0) && s.db[id] == [(id, row)][0].1;
    var deleted := Administer(s.(listing := Some([(id, row)])), self, store, Delete(id, false)).0;
    assert Unload(EMPTY, id) == EMPTY && Take(deleted) == System(s.db - {id}, [], EMPTY, Idle, Some([(id, row)]));
  }
}
