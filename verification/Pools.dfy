/** Pools, services and their bindings (pkg/pool/pool_controller.go, pkg/pool/pool.go).

    Three tables keyed by generated identifiers.  The uniqueness of names and of roles and the absence
    of dangling bindings follow from the checks of the operations alone; the unique indexes of the
    database are not needed for a sequential run. */
module Pools {
  import opened Prelude

  datatype Row = Row(name: string, active: bool)

  type Table = map<string, Row>

  datatype Association = Association(poolId: string, serviceId: string, role: string)

  datatype Tables = Tables(pools: Table, services: Table, bindings: map<string, Association>)

  datatype Fields = Fields(name: Option<string>, active: Option<bool>)

  datatype Outcome =
    | Done | Duplicate
    | PoolNotFound | ServiceNotFound | PoolNameConflict | ServiceNameConflict | RoleConflict
    | BindingsExist | BoundToPool

  /** A key is an identifier or, on request, a name. */
  datatype Key = Key(value: string, byName: bool)

  datatype Op =
    | AddPool(newId: string, row: Row)
    | UpdatePool(key: Key, fields: Fields)
    | DeletePool(key: Key)
    | AddService(newId: string, row: Row)
    | UpdateService(key: Key, fields: Fields)
    | DeleteService(key: Key)
    | Bind(newId: string, pool: string, service: string, role: string, byName: bool)
    | Unbind(key: Key, role: string)
    | UnbindAll(key: Key)
    | UnbindEverywhere(key: Key)

  // ---------------------------------------------------------------- lookups

  ghost predicate NameTaken(t: Table, name: string) {
    exists id :: id in t && t[id].name == name
  }

  /** The row with this identifier or this name. */
  ghost function Find(t: Table, key: Key): (id: Option<string>)
    ensures id.Some? ==> id.value in t && (if key.byName then t[id.value].name == key.value else id.value == key.value)
    ensures id.None? ==> if key.byName then !NameTaken(t, key.value) else key.value !in t
  {
    if !key.byName then (if key.value in t then Some(key.value) else None)
    else if NameTaken(t, key.value) then
      var id :| id in t && t[id].name == key.value;
      Some(id)
    else None
  }

  /** The identifier a key stands for: an identifier is taken as it is, known or not. */
  ghost function Identify(t: Table, key: Key): string {
    if !key.byName then key.value else if Find(t, key).Some? then Find(t, key).value else ""
  }

  function OfPool(bindings: map<string, Association>, poolId: string): set<string> {
    set a | a in bindings && bindings[a].poolId == poolId
  }

  function OfService(bindings: map<string, Association>, serviceId: string): set<string> {
    set a | a in bindings && bindings[a].serviceId == serviceId
  }

  function OfRole(bindings: map<string, Association>, poolId: string, role: string): set<string> {
    set a | a in bindings && bindings[a].poolId == poolId && bindings[a].role == role
  }

  // ---------------------------------------------------------------- operations

  ghost function AddRow(t: Table, id: string, row: Row, conflict: Outcome): (Table, Outcome) {
    if NameTaken(t, row.name) then (t, conflict)
    else if id in t then (t, Duplicate)
    else (t[id := row], Done)
  }

  function Changed(row: Row, fields: Fields): Row {
    Row(if fields.name.Some? then fields.name.value else row.name, if fields.active.Some? then fields.active.value else row.active)
  }

  /** A new name must not be in use, not even by the updated row. */
  ghost function UpdateRow(t: Table, key: Key, fields: Fields, conflict: Outcome, notFound: Outcome): (Table, Outcome) {
    if fields.name.Some? && NameTaken(t, fields.name.value) then (t, conflict)
    else
      var id := Find(t, key);
      if id.None? then (t, notFound) else (t[id.value := Changed(t[id.value], fields)], Done)
  }

  ghost function Apply(t: Tables, op: Op): (Tables, Outcome) {
    match op
    case AddPool(newId, row) =>
      var (pools, outcome) := AddRow(t.pools, newId, row, PoolNameConflict);
      (t.(pools := pools), outcome)
    case AddService(newId, row) =>
      var (services, outcome) := AddRow(t.services, newId, row, ServiceNameConflict);
      (t.(services := services), outcome)
    case UpdatePool(key, fields) =>
      var (pools, outcome) := UpdateRow(t.pools, key, fields, PoolNameConflict, PoolNotFound);
      (t.(pools := pools), outcome)
    case UpdateService(key, fields) =>
      var (services, outcome) := UpdateRow(t.services, key, fields, ServiceNameConflict, ServiceNotFound);
      (t.(services := services), outcome)
    case DeletePool(key) =>
      var id := Identify(t.pools, key);
      if id == "" then (t, Done)
      else if OfPool(t.bindings, id) != {} then (t, BindingsExist)
      else (t.(pools := t.pools - {id}), Done)
    case DeleteService(key) =>
      var id := Identify(t.services, key);
      if id == "" then (t, Done)
      else if OfService(t.bindings, id) != {} then (t, BoundToPool)
      else (t.(services := t.services - {id}), Done)
    case Bind(newId, pool, service, role, byName) =>
      var poolId := Find(t.pools, Key(pool, byName));
      if poolId.None? then (t, PoolNotFound)
      else
        var serviceId := Find(t.services, Key(service, byName));
        if serviceId.None? then (t, ServiceNotFound)
        else if OfRole(t.bindings, poolId.value, role) != {} then (t, RoleConflict)
        else if newId in t.bindings then (t, Duplicate)
        else (t.(bindings := t.bindings[newId := Association(poolId.value, serviceId.value, role)]), Done)
    case Unbind(key, role) =>
      var id := Identify(t.pools, key);
      if id == "" then (t, Done) else (t.(bindings := t.bindings - OfRole(t.bindings, id, role)), Done)
    case UnbindAll(key) =>
      var id := Identify(t.pools, key);
      if id == "" then (t, Done) else (t.(bindings := t.bindings - OfPool(t.bindings, id)), Done)
    case UnbindEverywhere(key) =>
      var id := Identify(t.services, key);
      if id == "" then (t, Done) else (t.(bindings := t.bindings - OfService(t.bindings, id)), Done)
  }

  // ---------------------------------------------------------------- integrity

  ghost predicate UniqueNames(t: Table) {
    forall a, b | a in t && b in t && t[a].name == t[b].name :: a == b
  }

  ghost predicate UniqueRoles(bindings: map<string, Association>) {
    forall a, b | a in bindings && b in bindings && bindings[a].poolId == bindings[b].poolId && bindings[a].role == bindings[b].role ::
      a == b
  }

  ghost predicate NoDangling(t: Tables) {
    forall a | a in t.bindings :: t.bindings[a].poolId in t.pools && t.bindings[a].serviceId in t.services
  }

  /** The empty identifier stands for "unknown" and is never generated. */
  ghost predicate Identified(t: Tables) {
    "" !in t.pools && "" !in t.services
  }

  ghost predicate Generated(op: Op) {
    op.AddPool? || op.AddService? || op.Bind? ==> op.newId != ""
  }

  ghost predicate Integrity(t: Tables) {
    UniqueNames(t.pools) && UniqueNames(t.services) && UniqueRoles(t.bindings) && NoDangling(t) && Identified(t)
  }

  lemma AddKeepsUnique(t: Table, id: string, row: Row, conflict: Outcome)
    requires UniqueNames(t)
    ensures var u := AddRow(t, id, row, conflict).0; UniqueNames(u) && t.Keys <= u.Keys <= t.Keys + {id}
  {}

  lemma UpdateKeepsUnique(t: Table, key: Key, fields: Fields, conflict: Outcome, notFound: Outcome)
    requires UniqueNames(t)
    ensures var u := UpdateRow(t, key, fields, conflict, notFound).0; UniqueNames(u) && u.Keys == t.Keys
  {}

  lemma DeletePoolKeeps(t: Tables, key: Key)
    requires Integrity(t)
    ensures Integrity(Apply(t, DeletePool(key)).0)
  {
    var id := Identify(t.pools, key);
    assert forall a | a in t.bindings && t.bindings[a].poolId == id :: a in OfPool(t.bindings, id);
  }

  lemma DeleteServiceKeeps(t: Tables, key: Key)
    requires Integrity(t)
    ensures Integrity(Apply(t, DeleteService(key)).0)
  {
    var id := Identify(t.services, key);
    assert forall a | a in t.bindings && t.bindings[a].serviceId == id :: a in OfService(t.bindings, id);
  }

  lemma BindKeeps(t: Tables, op: Op)
    requires Integrity(t) && op.Bind?
    ensures Integrity(Apply(t, op).0)
  {
    var poolId := Find(t.pools, Key(op.pool, op.byName));
    if poolId.Some? {
      assert forall a | a in t.bindings && t.bindings[a].poolId == poolId.value && t.bindings[a].role == op.role ::
               a in OfRole(t.bindings, poolId.value, op.role);
    }
  }

  lemma FewerBindingsKeep(t: Tables, dropped: set<string>)
    requires Integrity(t)
    ensures Integrity(t.(bindings := t.bindings - dropped))
  {}

  lemma StepKeepsIntegrity(t: Tables, op: Op)
    requires Integrity(t) && Generated(op)
    ensures Integrity(Apply(t, op).0)
  {
    match op
    case AddPool(newId, row) => AddKeepsUnique(t.pools, newId, row, PoolNameConflict);
    case AddService(newId, row) => AddKeepsUnique(t.services, newId, row, ServiceNameConflict);
    case UpdatePool(key, fields) => UpdateKeepsUnique(t.pools, key, fields, PoolNameConflict, PoolNotFound);
    case UpdateService(key, fields) => UpdateKeepsUnique(t.services, key, fields, ServiceNameConflict, ServiceNotFound);
    case DeletePool(key) => DeletePoolKeeps(t, key);
    case DeleteService(key) => DeleteServiceKeeps(t, key);
    case Bind(_, _, _, _, _) => BindKeeps(t, op);
    case Unbind(key, role) => FewerBindingsKeep(t, OfRole(t.bindings, Identify(t.pools, key), role));
    case UnbindAll(key) => FewerBindingsKeep(t, OfPool(t.bindings, Identify(t.pools, key)));
    case UnbindEverywhere(key) => FewerBindingsKeep(t, OfService(t.bindings, Identify(t.services, key)));
  }

  ghost function Run(t: Tables, ops: seq<Op>): Tables
    decreases |ops|
  {
    if ops == [] then t else Run(Apply(t, ops[0]).0, ops[1..])
  }

  const EMPTY := Tables(map[], map[], map[])

  /** Over every run, names stay unique, a pool has at most one binding for a role, and every binding
      leads from an existing pool to an existing service. */
  lemma {:induction false} RunKeepsIntegrity(t: Tables, ops: seq<Op>)
    requires Integrity(t) && forall op | op in ops :: Generated(op)
    ensures Integrity(Run(t, ops))
    decreases |ops|
  {
    if ops != [] {
      StepKeepsIntegrity(t, ops[0]);
      RunKeepsIntegrity(Apply(t, ops[0]).0, ops[1..]);
    }
  }

  // ---------------------------------------------------------------- what operations do

  ghost predicate KeyOf(t: Table, key: Key, id: string) {
    id in t && if key.byName then t[id].name == key.value else id == key.value
  }

  ghost predicate Unknown(t: Table, key: Key) {
    forall id :: !KeyOf(t, key, id)
  }

  lemma FindMeans(t: Table, key: Key)
    requires UniqueNames(t)
    ensures Find(t, key).None? <==> Unknown(t, key)
    ensures forall id :: Find(t, key) == Some(id) <==> KeyOf(t, key, id)
  {
    if Find(t, key).Some? { assert KeyOf(t, key, Find(t, key).value); }
  }

  /** A row enters the table under its new identifier unless its name is in use. */
  ghost predicate Adds(t: Table, u: Table, newId: string, row: Row, outcome: Outcome, conflict: Outcome) {
    if exists id :: id in t && t[id].name == row.name then outcome == conflict && u == t
    else if newId in t then outcome == Duplicate && u == t
    else outcome == Done && u == t[newId := row]
  }

  /** The given fields of the row change unless the new name is in use or there is no such row. */
  ghost predicate Updates(t: Table, u: Table, key: Key, fields: Fields, outcome: Outcome, conflict: Outcome, notFound: Outcome) {
    if fields.name.Some? && exists id :: id in t && t[id].name == fields.name.value then outcome == conflict && u == t
    else if Unknown(t, key) then outcome == notFound && u == t
    else
      && outcome == Done && u.Keys == t.Keys
      && forall id | id in t ::
           if KeyOf(t, key, id) then
             && u[id].name == (if fields.name.Some? then fields.name.value else t[id].name)
             && u[id].active == (if fields.active.Some? then fields.active.value else t[id].active)
           else u[id] == t[id]
  }

  /** What adding and updating do; nothing else changes. */
  lemma RowsExactly(t: Tables, op: Op)
    requires Integrity(t)
    ensures var (u, outcome) := Apply(t, op);
      match op
      case AddPool(newId, row) =>
        u == t.(pools := u.pools) && Adds(t.pools, u.pools, newId, row, outcome, PoolNameConflict)
      case AddService(newId, row) =>
        u == t.(services := u.services) && Adds(t.services, u.services, newId, row, outcome, ServiceNameConflict)
      case UpdatePool(key, fields) =>
        u == t.(pools := u.pools) && Updates(t.pools, u.pools, key, fields, outcome, PoolNameConflict, PoolNotFound)
      case UpdateService(key, fields) =>
        u == t.(services := u.services) && Updates(t.services, u.services, key, fields, outcome, ServiceNameConflict, ServiceNotFound)
      case _ => true
  {
    match op
    case UpdatePool(key, fields) => FindMeans(t.pools, key);
    case UpdateService(key, fields) => FindMeans(t.services, key);
    case _ =>
  }

  /** What deleting does: the row goes unless it is bound; what is unknown needs no deletion. */
  lemma DeletionExactly(t: Tables, key: Key)
    requires Integrity(t)
    ensures var (u, outcome) := Apply(t, DeletePool(key));
      && (Unknown(t.pools, key) ==> (u, outcome) == (t, Done))
      && (forall id | KeyOf(t.pools, key, id) ::
            if exists a :: a in t.bindings && t.bindings[a].poolId == id then (u, outcome) == (t, BindingsExist)
            else (u, outcome) == (t.(pools := t.pools - {id}), Done))
    ensures var (u, outcome) := Apply(t, DeleteService(key));
      && (Unknown(t.services, key) ==> (u, outcome) == (t, Done))
      && (forall id | KeyOf(t.services, key, id) ::
            if exists a :: a in t.bindings && t.bindings[a].serviceId == id then (u, outcome) == (t, BoundToPool)
            else (u, outcome) == (t.(services := t.services - {id}), Done))
  {
    FindMeans(t.pools, key);
    FindMeans(t.services, key);
    forall id: string
      ensures OfPool(t.bindings, id) != {} <==> exists a :: a in t.bindings && t.bindings[a].poolId == id
      ensures OfService(t.bindings, id) != {} <==> exists a :: a in t.bindings && t.bindings[a].serviceId == id {
      if a :| a in t.bindings && t.bindings[a].poolId == id { assert a in OfPool(t.bindings, id); }
      if a :| a in t.bindings && t.bindings[a].serviceId == id { assert a in OfService(t.bindings, id); }
    }
    if !key.byName {
      assert KeyOf(t.pools, key, key.value) <==> key.value in t.pools;
      assert KeyOf(t.services, key, key.value) <==> key.value in t.services;
      assert key.value !in t.pools ==> OfPool(t.bindings, key.value) == {} && t.pools - {key.value} == t.pools;
      assert key.value !in t.services ==> OfService(t.bindings, key.value) == {} && t.services - {key.value} == t.services;
    }
  }

  /** What binding does: the service is bound to the pool for a role that the pool has no service for. */
  lemma BindingExactly(t: Tables, newId: string, pool: string, service: string, role: string, byName: bool)
    requires Integrity(t)
    ensures var (u, outcome) := Apply(t, Bind(newId, pool, service, role, byName));
      && (Unknown(t.pools, Key(pool, byName)) ==> (u, outcome) == (t, PoolNotFound))
      && (!Unknown(t.pools, Key(pool, byName)) && Unknown(t.services, Key(service, byName)) ==>
            (u, outcome) == (t, ServiceNotFound))
      && (forall p, s | KeyOf(t.pools, Key(pool, byName), p) && KeyOf(t.services, Key(service, byName), s) ::
            if exists a :: a in t.bindings && t.bindings[a].poolId == p && t.bindings[a].role == role then
              (u, outcome) == (t, RoleConflict)
            else if newId in t.bindings then (u, outcome) == (t, Duplicate)
            else (u, outcome) == (t.(bindings := t.bindings[newId := Association(p, s, role)]), Done))
  {
    FindMeans(t.pools, Key(pool, byName));
    FindMeans(t.services, Key(service, byName));
    forall p: string
      ensures OfRole(t.bindings, p, role) != {} <==>
                exists a :: a in t.bindings && t.bindings[a].poolId == p && t.bindings[a].role == role {
      if a :| a in t.bindings && t.bindings[a].poolId == p && t.bindings[a].role == role { assert a in OfRole(t.bindings, p, role); }
    }
  }

  /** Exactly these bindings are gone; nothing else changes. */
  ghost predicate Drops(t: Tables, u: Tables, gone: Association -> bool) {
    && u == t.(bindings := u.bindings)
    && (forall a :: a in u.bindings <==> a in t.bindings && !gone(t.bindings[a]))
    && (forall a | a in u.bindings :: u.bindings[a] == t.bindings[a])
  }

  /** Which bindings are removed: of the pool for the role, of the pool, and of the service. */
  lemma UnbindingExactly(t: Tables, key: Key, role: string)
    requires Integrity(t)
    ensures var (u, outcome) := Apply(t, Unbind(key, role));
      outcome == Done && Drops(t, u, (b: Association) => KeyOf(t.pools, key, b.poolId) && b.role == role)
    ensures var (u, outcome) := Apply(t, UnbindAll(key));
      outcome == Done && Drops(t, u, (b: Association) => KeyOf(t.pools, key, b.poolId))
    ensures var (u, outcome) := Apply(t, UnbindEverywhere(key));
      outcome == Done && Drops(t, u, (b: Association) => KeyOf(t.services, key, b.serviceId))
  {
    FindMeans(t.pools, key);
    FindMeans(t.services, key);
  }

  // ---------------------------------------------------------------- what operations undo

  /** Deleting what was just added gives back the tables. */
  lemma DeleteUndoesAdd(t: Tables, newId: string, row: Row)
    requires Integrity(t) && newId != ""
    ensures var (added, outcome) := Apply(t, AddPool(newId, row));
      outcome == Done ==> Apply(added, DeletePool(Key(newId, false))) == Apply(added, DeletePool(Key(row.name, true))) == (t, Done)
    ensures var (added, outcome) := Apply(t, AddService(newId, row));
      outcome == Done ==>
        Apply(added, DeleteService(Key(newId, false))) == Apply(added, DeleteService(Key(row.name, true))) == (t, Done)
  {
    AddThenRemove(t.pools, newId, row, PoolNameConflict);
    AddThenRemove(t.services, newId, row, ServiceNameConflict);
    assert newId !in t.pools ==> OfPool(t.bindings, newId) == {};
    assert newId !in t.services ==> OfService(t.bindings, newId) == {};
  }

  lemma AddThenRemove(t: Table, newId: string, row: Row, conflict: Outcome)
    ensures var (added, outcome) := AddRow(t, newId, row, conflict); conflict != Done && outcome == Done ==>
      newId !in t && added - {newId} == t && Find(added, Key(row.name, true)) == Some(newId)
  {
    var added := AddRow(t, newId, row, conflict).0;
    if conflict != Done && AddRow(t, newId, row, conflict).1 == Done {
      assert added[newId].name == row.name;
    }
  }

  /** Removing a binding that was just made gives back the tables. */
  lemma UnbindUndoesBind(t: Tables, newId: string, pool: string, service: string, role: string, byName: bool)
    requires Integrity(t)
    ensures var (bound, outcome) := Apply(t, Bind(newId, pool, service, role, byName));
      outcome == Done ==> Apply(bound, Unbind(Key(pool, byName), role)) == (t, Done)
  {
    var (bound, outcome) := Apply(t, Bind(newId, pool, service, role, byName));
    if outcome == Done {
      var poolId := Find(t.pools, Key(pool, byName)).value;
      assert forall a | a in t.bindings :: a !in OfRole(t.bindings, poolId, role);
      DropNewest(t.bindings, newId, bound.bindings[newId]);
    }
  }

  lemma DropNewest(bindings: map<string, Association>, newId: string, b: Association)
    requires newId !in bindings && forall a | a in bindings :: a !in OfRole(bindings, b.poolId, b.role)
    ensures var more := bindings[newId := b]; more - OfRole(more, b.poolId, b.role) == bindings
  {
    var more := bindings[newId := b];
    forall a | a in bindings ensures a !in OfRole(more, b.poolId, b.role) { assert a !in OfRole(bindings, b.poolId, b.role); }
    assert OfRole(more, b.poolId, b.role) == {newId};
  }

  /** A known pool or service can be deleted exactly when nothing is bound to it, and always after its
      bindings were removed. */
  lemma DeletableExactly(t: Tables, key: Key)
    requires Integrity(t)
    ensures Find(t.pools, key).Some? ==> var id := Find(t.pools, key).value;
      && (Apply(t, DeletePool(key)) == (t.(pools := t.pools - {id}), Done) <==>
            forall a | a in t.bindings :: t.bindings[a].poolId != id)
      && var unbound := Apply(t, UnbindAll(key)).0;
         Apply(unbound, DeletePool(key)) == (unbound.(pools := t.pools - {id}), Done)
    ensures Find(t.services, key).Some? ==> var id := Find(t.services, key).value;
      && (Apply(t, DeleteService(key)) == (t.(services := t.services - {id}), Done) <==>
            forall a | a in t.bindings :: t.bindings[a].serviceId != id)
      && var unbound := Apply(t, UnbindEverywhere(key)).0;
         Apply(unbound, DeleteService(key)) == (unbound.(services := t.services - {id}), Done)
  {
    if Find(t.pools, key).Some? {
      var id := Find(t.pools, key).value;
      assert OfPool(t.bindings, id) == {} <==> forall a | a in t.bindings :: a !in OfPool(t.bindings, id);
      assert OfPool(t.bindings - OfPool(t.bindings, id), id) == {};
    }
    if Find(t.services, key).Some? {
      var id := Find(t.services, key).value;
      assert OfService(t.bindings, id) == {} <==> forall a | a in t.bindings :: a !in OfService(t.bindings, id);
      assert OfService(t.bindings - OfService(t.bindings, id), id) == {};
    }
  }

  // ---------------------------------------------------------------- loading a pool

  /** A row of the join of bindings, pools and services. */
  datatype Binding = Binding(
    id: string, role: string, poolId: string, poolName: string, serviceId: string, serviceName: string, active: bool)

  /** The bindings of a pool that survive the join. */
  function Joined(t: Tables, poolId: string): set<string> {
    set a | a in t.bindings && t.bindings[a].poolId == poolId && poolId in t.pools && t.bindings[a].serviceId in t.services
  }

  function JoinRow(t: Tables, poolId: string, a: string): Binding
    requires a in Joined(t, poolId)
  {
    var b := t.bindings[a];
    Binding(a, b.role, poolId, t.pools[poolId].name, b.serviceId, t.services[b.serviceId].name, t.services[b.serviceId].active)
  }

  /** The join in any order: one row for each joined binding. */
  ghost predicate IsJoin(t: Tables, poolId: string, rows: seq<Binding>) {
    && (forall k | 0 <= k < |rows| :: rows[k].id in Joined(t, poolId) && rows[k] == JoinRow(t, poolId, rows[k].id))
    && (forall j, k | 0 <= j < k < |rows| :: rows[j].id != rows[k].id)
    && (forall a | a in Joined(t, poolId) :: exists k :: 0 <= k < |rows| && rows[k].id == a)
  }

  /** Later rows replace earlier ones of the same role. */
  function ByRole(rows: seq<Binding>): map<string, Binding> {
    if rows == [] then map[] else ByRole(rows[..|rows| - 1])[rows[|rows| - 1].role := rows[|rows| - 1]]
  }

  /** A role is known exactly if some row has it. */
  lemma {:induction false} RolesOfRows(rows: seq<Binding>)
    ensures forall role :: role in ByRole(rows) <==> exists k :: 0 <= k < |rows| && rows[k].role == role
    decreases |rows|
  {
    if rows != [] {
      var n := |rows| - 1;
      var before := rows[..n];
      RolesOfRows(before);
      assert ByRole(rows) == ByRole(before)[rows[n].role := rows[n]];
      forall role ensures role in ByRole(rows) <==> exists k :: 0 <= k < |rows| && rows[k].role == role {
        if k :| 0 <= k < |rows| && rows[k].role == role {
          if k < n { assert before[k].role == role; }
        }
        if role in ByRole(rows) && role != rows[n].role {
          assert role in ByRole(before);
          var k :| 0 <= k < |before| && before[k].role == role;
          assert rows[k].role == role;
        }
      }
    }
  }

  lemma {:induction false} ByRoleKeepsDistinct(rows: seq<Binding>)
    requires forall j, k | 0 <= j < k < |rows| :: rows[j].role != rows[k].role
    ensures |ByRole(rows)| == |rows|
    ensures forall k | 0 <= k < |rows| :: rows[k].role in ByRole(rows) && ByRole(rows)[rows[k].role] == rows[k]
    decreases |rows|
  {
    if rows != [] {
      var n := |rows| - 1;
      var before := rows[..n];
      ByRoleKeepsDistinct(before);
      RolesOfRows(before);
      assert rows[n].role !in ByRole(before);
      forall k | 0 <= k < |rows| ensures rows[k].role in ByRole(rows) && ByRole(rows)[rows[k].role] == rows[k] {
        if k < n { assert before[k] == rows[k]; }
      }
    }
  }

  /** In whatever order the database returns the rows: a loaded pool knows a service for a role exactly
      when the pool is bound to one for that role, it is that service, and no binding is lost. */
  lemma LoadedServicesExactly(t: Tables, poolId: string, rows: seq<Binding>)
    requires Integrity(t) && poolId in t.pools && IsJoin(t, poolId, rows)
    ensures var services := ByRole(rows);
      && |services| == |rows|
      && (forall role :: role in services <==>
            exists a :: a in t.bindings && t.bindings[a].poolId == poolId && t.bindings[a].role == role)
      && (forall a | a in t.bindings && t.bindings[a].poolId == poolId ::
            t.bindings[a].role in services &&
            var b := services[t.bindings[a].role];
            && (b.id, b.role, b.poolId, b.serviceId) == (a, t.bindings[a].role, poolId, t.bindings[a].serviceId)
            && b.poolName == t.pools[poolId].name && b.serviceName == t.services[b.serviceId].name
            && b.active == t.services[b.serviceId].active)
  {
    forall j, k | 0 <= j < k < |rows| ensures rows[j].role != rows[k].role {
      assert rows[j].id != rows[k].id;
    }
    ByRoleKeepsDistinct(rows);
    RolesOfRows(rows);
    forall a | a in t.bindings && t.bindings[a].poolId == poolId
      ensures t.bindings[a].role in ByRole(rows) && ByRole(rows)[t.bindings[a].role] == JoinRow(t, poolId, a) {
      assert a in Joined(t, poolId);
      var k :| 0 <= k < |rows| && rows[k].id == a;
    }
  }

  // ---------------------------------------------------------------- the controller

  class Pool {
    const id: string
    const row: Row
    var services: map<string, Binding>

    constructor (id: string, row: Row)
      ensures this.id == id && this.row == row && services == map[]
    {
      this.id, this.row, services := id, row, map[];
    }

    method SetServices(rows: seq<Binding>)
      modifies this`services
      ensures services == ByRole(rows)
    {
      services := map[];
      var k := 0;
      while k < |rows|
        invariant 0 <= k <= |rows| && services == ByRole(rows[..k])
      {
        assert rows[..k + 1][..k] == rows[..k];
        services := services[rows[k].role := rows[k]];
        k := k + 1;
      }
      assert rows[..k] == rows;
    }

    method Service(role: string) returns (service: Option<Binding>)
      ensures service == if role in services then Some(services[role]) else None
    {
      if role !in services { return None; }
      return Some(services[role]);
    }
  }

  class PoolController {
    var pools: Table
    var services: Table
    var bindings: map<string, Association>

    ghost function Now(): Tables
      reads this
    {
      Tables(pools, services, bindings)
    }

    ghost predicate Valid()
      reads this
    {
      Integrity(Now())
    }

    constructor ()
      ensures Valid() && Now() == EMPTY
    {
      pools, services, bindings := map[], map[], map[];
    }

    method FindRow(table: Table, key: Key) returns (id: Option<string>)
      requires UniqueNames(table)
      ensures id == Find(table, key)
    {
      if key.byName {
        if it :| it in table && table[it].name == key.value { return Some(it); }
        return None;
      }
      if key.value in table { return Some(key.value); }
      return None;
    }

    method IdOf(table: Table, key: Key) returns (id: string)
      requires UniqueNames(table)
      ensures id == Identify(table, key)
    {
      if !key.byName { return key.value; }
      var found := FindRow(table, key);
      return if found.Some? then found.value else "";
    }

    method IsNameTaken(table: Table, name: string) returns (taken: bool)
      ensures taken == NameTaken(table, name)
    {
      taken := exists id :: id in table && table[id].name == name;
    }

    method AddPool(newId: string, row: Row) returns (outcome: Outcome)
      requires Valid() && newId != ""
      modifies this
      ensures Valid() && (Now(), outcome) == Apply(old(Now()), Op.AddPool(newId, row))
    {
      StepKeepsIntegrity(Now(), Op.AddPool(newId, row));
      var taken := IsNameTaken(pools, row.name);
      if taken { return PoolNameConflict; }
      if newId in pools { return Duplicate; }
      pools := pools[newId := row];
      return Done;
    }

    method AddService(newId: string, row: Row) returns (outcome: Outcome)
      requires Valid() && newId != ""
      modifies this
      ensures Valid() && (Now(), outcome) == Apply(old(Now()), Op.AddService(newId, row))
    {
      StepKeepsIntegrity(Now(), Op.AddService(newId, row));
      var taken := IsNameTaken(services, row.name);
      if taken { return ServiceNameConflict; }
      if newId in services { return Duplicate; }
      services := services[newId := row];
      return Done;
    }

    method UpdatePool(key: Key, fields: Fields) returns (outcome: Outcome)
      requires Valid()
      modifies this
      ensures Valid() && (Now(), outcome) == Apply(old(Now()), Op.UpdatePool(key, fields))
    {
      StepKeepsIntegrity(Now(), Op.UpdatePool(key, fields));
      if fields.name.Some? {
        var taken := IsNameTaken(pools, fields.name.value);
        if taken { return PoolNameConflict; }
      }
      var id := FindRow(pools, key);
      if id.None? { return PoolNotFound; }
      pools := pools[id.value := Changed(pools[id.value], fields)];
      return Done;
    }

    method UpdateService(key: Key, fields: Fields) returns (outcome: Outcome)
      requires Valid()
      modifies this
      ensures Valid() && (Now(), outcome) == Apply(old(Now()), Op.UpdateService(key, fields))
    {
      StepKeepsIntegrity(Now(), Op.UpdateService(key, fields));
      if fields.name.Some? {
        var taken := IsNameTaken(services, fields.name.value);
        if taken { return ServiceNameConflict; }
      }
      var id := FindRow(services, key);
      if id.None? { return ServiceNotFound; }
      services := services[id.value := Changed(services[id.value], fields)];
      return Done;
    }

    method DeletePool(key: Key) returns (outcome: Outcome)
      requires Valid()
      modifies this
      ensures Valid() && (Now(), outcome) == Apply(old(Now()), Op.DeletePool(key))
    {
      StepKeepsIntegrity(Now(), Op.DeletePool(key));
      var id := IdOf(pools, key);
      if id == "" { return Done; }
      if OfPool(bindings, id) != {} { return BindingsExist; }
      pools := pools - {id};
      return Done;
    }

    method DeleteService(key: Key) returns (outcome: Outcome)
      requires Valid()
      modifies this
      ensures Valid() && (Now(), outcome) == Apply(old(Now()), Op.DeleteService(key))
    {
      StepKeepsIntegrity(Now(), Op.DeleteService(key));
      var id := IdOf(services, key);
      if id == "" { return Done; }
      if OfService(bindings, id) != {} { return BoundToPool; }
      services := services - {id};
      return Done;
    }

    method AddServiceToPool(newId: string, pool: string, service: string, role: string, byName: bool) returns (outcome: Outcome)
      requires Valid() && newId != ""
      modifies this
      ensures Valid() && (Now(), outcome) == Apply(old(Now()), Bind(newId, pool, service, role, byName))
    {
      StepKeepsIntegrity(Now(), Bind(newId, pool, service, role, byName));
      var poolId := FindRow(pools, Key(pool, byName));
      if poolId.None? { return PoolNotFound; }
      var serviceId := FindRow(services, Key(service, byName));
      if serviceId.None? { return ServiceNotFound; }
      if OfRole(bindings, poolId.value, role) != {} { return RoleConflict; }
      if newId in bindings { return Duplicate; }
      bindings := bindings[newId := Association(poolId.value, serviceId.value, role)];
      return Done;
    }

    /** One binding is read and deleted; there is no other. */
    method RemoveServiceFromPool(key: Key, role: string) returns (outcome: Outcome)
      requires Valid()
      modifies this
      ensures Valid() && (Now(), outcome) == Apply(old(Now()), Unbind(key, role))
    {
      StepKeepsIntegrity(Now(), Unbind(key, role));
      var id := IdOf(pools, key);
      if id == "" { return Done; }
      if a :| a in bindings && bindings[a].poolId == id && bindings[a].role == role {
        assert OfRole(bindings, id, role) == {a};
        bindings := bindings - {a};
      } else {
        assert OfRole(bindings, id, role) == {} && bindings - {} == bindings;
      }
      return Done;
    }

    method RemoveAllServicesFromPool(key: Key) returns (outcome: Outcome)
      requires Valid()
      modifies this
      ensures Valid() && (Now(), outcome) == Apply(old(Now()), UnbindAll(key))
    {
      StepKeepsIntegrity(Now(), UnbindAll(key));
      var id := IdOf(pools, key);
      if id == "" { return Done; }
      bindings := bindings - OfPool(bindings, id);
      return Done;
    }

    method RemoveServiceFromAllPools(key: Key) returns (outcome: Outcome)
      requires Valid()
      modifies this
      ensures Valid() && (Now(), outcome) == Apply(old(Now()), UnbindEverywhere(key))
    {
      StepKeepsIntegrity(Now(), UnbindEverywhere(key));
      var id := IdOf(services, key);
      if id == "" { return Done; }
      bindings := bindings - OfService(bindings, id);
      return Done;
    }

    /** The join, in any order. */
    method GetPoolBindings(id: string) returns (rows: seq<Binding>)
      ensures if id == "" then rows == [] else IsJoin(Now(), id, rows)
    {
      rows := [];
      if id == "" { return; }
      var t := Tables(pools, services, bindings);
      var left := Joined(t, id);
      while left != {}
        invariant left <= Joined(t, id)
        invariant forall k | 0 <= k < |rows| ::
                    rows[k].id in Joined(t, id) && rows[k].id !in left && rows[k] == JoinRow(t, id, rows[k].id)
        invariant forall j, k | 0 <= j < k < |rows| :: rows[j].id != rows[k].id
        invariant forall a | a in Joined(t, id) && a !in left :: exists k :: 0 <= k < |rows| && rows[k].id == a
        decreases |left|
      {
        var a :| a in left;
        ghost var before := rows;
        rows := rows + [JoinRow(t, id, a)];
        left := left - {a};
        forall b | b in Joined(t, id) && b !in left ensures exists k :: 0 <= k < |rows| && rows[k].id == b {
          if b == a {
            assert rows[|before|].id == b;
          } else {
            var k :| 0 <= k < |before| && before[k].id == b;
            assert rows[k].id == b;
          }
        }
      }
    }

    /** The loaded pool has a service for a role exactly when a binding for that role exists. */
    method LoadPool(key: Key) returns (pool: Pool?)
      requires Valid()
      ensures pool == null <==> Find(pools, key) == None
      ensures pool != null ==> fresh(pool) && Find(pools, key) == Some(pool.id) && pool.row == pools[pool.id]
      ensures pool != null ==> forall role :: role in pool.services <==>
                exists a :: a in bindings && bindings[a].poolId == pool.id && bindings[a].role == role
      ensures pool != null ==> forall a | a in bindings && bindings[a].poolId == pool.id ::
                bindings[a].role in pool.services && pool.services[bindings[a].role].serviceId == bindings[a].serviceId
    {
      var id := FindRow(pools, key);
      if id.None? { return null; }
      pool := new Pool(id.value, pools[id.value]);
      var rows := GetPoolBindings(id.value);
      pool.SetServices(rows);
      LoadedServicesExactly(Now(), id.value, rows);
    }
  }
}
