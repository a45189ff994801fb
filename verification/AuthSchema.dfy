/** Aggregation of authentication handlers (pkg/auth/auth_schema.go, pkg/auth/auth_manager.go).

    A handler answers whether its section was found in the request and with which error.  What a
    handler does may depend on everything done before it in the request, which is represented by the
    calls made so far: the order of calls is part of the meaning of a schema. */
module AuthSchema {
  import opened Prelude

  datatype Reply = Reply(found: bool, error: Option<string>)

  const NO_SECTION := Reply(false, Some("no auth section in request"))

  datatype Handler = Leaf(id: nat, genuine: bool) | Schema(or: bool, handlers: seq<Handler>)

  type Calls = seq<nat>

  /** How the leaves behave: the reply of a leaf after the calls made so far. */
  type World = (nat, Calls) -> Reply

  /** A schema is always a real handler. */
  predicate IsReal(h: Handler) {
    h.Schema? || h.genuine
  }

  // ---------------------------------------------------------------- what the loop computes

  function Run(world: World, h: Handler, calls: Calls): (Reply, Calls)
    decreases h, 0
  {
    match h
    case Leaf(id, _) => (world(id, calls), calls + [id])
    case Schema(or, handlers) =>
      if handlers == [] then (Reply(false, None), calls) else RunFrom(world, or, handlers, 0, false, calls)
  }

  /** The handlers from index `k` on; `any` tells whether a section was found before. */
  function RunFrom(world: World, or: bool, hs: seq<Handler>, k: nat, any: bool, calls: Calls): (Reply, Calls)
    requires k <= |hs|
    decreases hs, |hs| - k
  {
    if k == |hs| then (if any then Reply(true, None) else NO_SECTION, calls)
    else
      var (reply, after) := Run(world, hs[k], calls);
      if !IsReal(hs[k]) || (!reply.found && or) then RunFrom(world, or, hs, k + 1, any, after)
      else if reply.error.Some? then (reply, after)
      else if or then (Reply(true, None), after)
      else RunFrom(world, or, hs, k + 1, any || reply.found, after)
  }

  // ---------------------------------------------------------------- what a schema means

  /** The calls made when the first `k` handlers run one after another. */
  function CallsAt(world: World, hs: seq<Handler>, k: nat, calls: Calls): Calls
    requires k <= |hs|
  {
    if k == 0 then calls else Run(world, hs[k - 1], CallsAt(world, hs, k - 1, calls)).1
  }

  function ReplyAt(world: World, hs: seq<Handler>, k: nat, calls: Calls): Reply
    requires k < |hs|
  {
    Run(world, hs[k], CallsAt(world, hs, k, calls)).0
  }

  /** Handler `k` ends the loop: a real handler that found its section (or), or that erred (and). */
  ghost predicate Stops(world: World, or: bool, hs: seq<Handler>, k: nat, calls: Calls)
    requires k < |hs|
  {
    var reply := ReplyAt(world, hs, k, calls);
    IsReal(hs[k]) && if or then reply.found else reply.error.Some?
  }

  ghost predicate Counts(world: World, hs: seq<Handler>, k: nat, calls: Calls)
    requires k < |hs|
  {
    IsReal(hs[k]) && ReplyAt(world, hs, k, calls).found
  }

  /** The loop stands before handler `k`: none has stopped it, and `any` sums up what was found. */
  ghost predicate Reached(world: World, or: bool, hs: seq<Handler>, k: nat, any: bool, calls: Calls)
    requires k <= |hs|
  {
    && (forall m | 0 <= m < k :: !Stops(world, or, hs, m, calls))
    && (any <==> exists m | 0 <= m < k :: Counts(world, hs, m, calls))
  }

  /** The result when the loop is stopped by handler `k`, or by none if `k` is past the end. */
  ghost predicate Ends(world: World, or: bool, hs: seq<Handler>, k: nat, calls: Calls, result: (Reply, Calls))
    requires k <= |hs|
  {
    && (forall m | 0 <= m < k :: !Stops(world, or, hs, m, calls))
    && if k < |hs| then
         Stops(world, or, hs, k, calls) && result == (ReplyAt(world, hs, k, calls), CallsAt(world, hs, k + 1, calls))
       else
         result == (if exists m | 0 <= m < k :: Counts(world, hs, m, calls) then Reply(true, None) else NO_SECTION,
                    CallsAt(world, hs, k, calls))
  }

  lemma {:induction false} RunFromEnds(world: World, or: bool, hs: seq<Handler>, k: nat, any: bool, calls: Calls) returns (end: nat)
    requires k <= |hs| && Reached(world, or, hs, k, any, calls)
    ensures end <= |hs| && Ends(world, or, hs, end, calls, RunFrom(world, or, hs, k, any, CallsAt(world, hs, k, calls)))
    decreases |hs| - k
  {
    if k == |hs| || Stops(world, or, hs, k, calls) {
      end := k;
    } else {
      var reply := ReplyAt(world, hs, k, calls);
      var more := if !IsReal(hs[k]) || (!reply.found && or) then any else any || reply.found;
      assert CallsAt(world, hs, k + 1, calls) == Run(world, hs[k], CallsAt(world, hs, k, calls)).1;
      assert more <==> any || Counts(world, hs, k, calls);
      end := RunFromEnds(world, or, hs, k + 1, more, calls);
    }
  }

  lemma RunEnds(world: World, or: bool, hs: seq<Handler>, calls: Calls) returns (end: nat)
    requires hs != []
    ensures end <= |hs| && Ends(world, or, hs, end, calls, Run(world, Schema(or, hs), calls))
  {
    end := RunFromEnds(world, or, hs, 0, false, calls);
  }

  /** What the end of an "or" loop says about its result. */
  lemma OrEnds(world: World, hs: seq<Handler>, calls: Calls, end: nat, result: (Reply, Calls))
    requires end <= |hs| && Ends(world, true, hs, end, calls, result)
    ensures result.0.found <==> end < |hs|
    ensures end < |hs| ==> Counts(world, hs, end, calls)
    ensures forall k | 0 <= k < end :: !Counts(world, hs, k, calls)
    ensures end == |hs| ==> result == (NO_SECTION, CallsAt(world, hs, |hs|, calls))
  {
    forall k | 0 <= k < end ensures !Counts(world, hs, k, calls) { assert !Stops(world, true, hs, k, calls); }
  }

  /** An "or" schema is decided by the first real handler that finds its section: its reply is the
      reply of the schema and nothing is called after it.  Without such a handler every handler is
      called and the schema fails, unless it is empty. */
  lemma OrMeans(world: World, hs: seq<Handler>, calls: Calls)
    ensures var (reply, after) := Run(world, Schema(true, hs), calls);
      && (reply.found <==> exists k | 0 <= k < |hs| :: Counts(world, hs, k, calls))
      && (forall k | 0 <= k < |hs| && Counts(world, hs, k, calls)
            && (forall m | 0 <= m < k :: !Counts(world, hs, m, calls)) ::
            reply == ReplyAt(world, hs, k, calls) && after == CallsAt(world, hs, k + 1, calls))
      && (!reply.found ==>
            (after == CallsAt(world, hs, |hs|, calls) && reply == if hs == [] then Reply(false, None) else NO_SECTION))
  {
    if hs != [] {
      var end := RunEnds(world, true, hs, calls);
      OrEnds(world, hs, calls, end, Run(world, Schema(true, hs), calls));
      forall k | 0 <= k < |hs| && Counts(world, hs, k, calls) && (forall m | 0 <= m < k :: !Counts(world, hs, m, calls))
        ensures k == end {}
    }
  }

  /** No real handler errs and some real handler finds its section. */
  ghost predicate AllPass(world: World, hs: seq<Handler>, calls: Calls) {
    && (forall k | 0 <= k < |hs| && IsReal(hs[k]) :: ReplyAt(world, hs, k, calls).error.None?)
    && exists k | 0 <= k < |hs| :: Counts(world, hs, k, calls)
  }

  /** What the end of an "and" loop says about its result. */
  lemma AndEnds(world: World, hs: seq<Handler>, calls: Calls, end: nat, result: (Reply, Calls))
    requires end <= |hs| && Ends(world, false, hs, end, calls, result)
    ensures result.0.error.None? <==> AllPass(world, hs, calls)
    ensures end == |hs| ==> result.1 == CallsAt(world, hs, |hs|, calls)
    ensures end == |hs| ==> result.0 == if result.0.error.None? then Reply(true, None) else NO_SECTION
    ensures end < |hs| ==> result.0.error.Some?
  {
    if end < |hs| {
      assert Stops(world, false, hs, end, calls);
    } else {
      forall k | 0 <= k < |hs| && IsReal(hs[k]) ensures ReplyAt(world, hs, k, calls).error.None? {
        assert !Stops(world, false, hs, k, calls);
      }
    }
  }

  /** An "and" schema succeeds exactly when it is empty, or no real handler errs and some real handler
      finds its section; otherwise it fails with the first error, or for want of a section. */
  lemma AndMeans(world: World, hs: seq<Handler>, calls: Calls)
    ensures var (reply, after) := Run(world, Schema(false, hs), calls);
      && (reply.error.None? <==> hs == [] || AllPass(world, hs, calls))
      && (reply.error.None? ==> reply.found == (hs != []) && after == CallsAt(world, hs, |hs|, calls))
      && (forall k | 0 <= k < |hs| && Stops(world, false, hs, k, calls)
            && (forall m | 0 <= m < k :: !Stops(world, false, hs, m, calls)) ::
            reply == ReplyAt(world, hs, k, calls) && after == CallsAt(world, hs, k + 1, calls))
      && ((forall k | 0 <= k < |hs| :: !Stops(world, false, hs, k, calls)) && reply.error.Some? ==>
            reply == NO_SECTION && after == CallsAt(world, hs, |hs|, calls))
  {
    if hs != [] {
      var end := RunEnds(world, false, hs, calls);
      AndEnds(world, hs, calls, end, Run(world, Schema(false, hs), calls));
      forall k | 0 <= k < |hs| && Stops(world, false, hs, k, calls) && (forall m | 0 <= m < k :: !Stops(world, false, hs, m, calls))
        ensures k == end {}
    }
  }

  // ---------------------------------------------------------------- nested alternatives

  /** In an "or", what was found before does not matter: the loop ends with the first finding. */
  lemma {:induction false} RunFromConcat(world: World, a: seq<Handler>, b: seq<Handler>, k: nat, calls: Calls)
    requires k <= |a|
    ensures var (reply, after) := RunFrom(world, true, a, k, false, calls);
      RunFrom(world, true, a + b, k, false, calls) ==
        if reply.found then (reply, after) else RunFrom(world, true, a + b, |a|, false, after)
    decreases |a| - k
  {
    if k < |a| {
      assert (a + b)[k] == a[k];
      RunFromConcat(world, a, b, k + 1, Run(world, a[k], calls).1);
    }
  }

  lemma {:induction false} RunFromSuffix(world: World, a: seq<Handler>, b: seq<Handler>, k: nat, calls: Calls)
    requires k <= |b|
    ensures RunFrom(world, true, a + b, |a| + k, false, calls) == RunFrom(world, true, b, k, false, calls)
    decreases |b| - k
  {
    if k < |b| {
      assert (a + b)[|a| + k] == b[k];
      RunFromSuffix(world, a, b, k + 1, Run(world, b[k], calls).1);
    }
  }

  /** Alternatives run one list after the other. */
  lemma OrConcat(world: World, a: seq<Handler>, b: seq<Handler>, calls: Calls)
    ensures var (reply, after) := RunFrom(world, true, a, 0, false, calls);
      RunFrom(world, true, a + b, 0, false, calls) == if reply.found then (reply, after) else RunFrom(world, true, b, 0, false, after)
  {
    RunFromConcat(world, a, b, 0, calls);
    RunFromSuffix(world, a, b, 0, RunFrom(world, true, a, 0, false, calls).1);
  }

  lemma NothingFound(world: World, hs: seq<Handler>, calls: Calls)
    ensures var (reply, after) := RunFrom(world, true, hs, 0, false, calls); !reply.found ==> reply == NO_SECTION
  {
    var end := RunFromEnds(world, true, hs, 0, false, calls);
    assert forall k | 0 <= k < |hs| :: Stops(world, true, hs, k, calls) <==> Counts(world, hs, k, calls);
  }

  lemma OneAlternative(world: World, inner: seq<Handler>, calls: Calls)
    ensures RunFrom(world, true, [Schema(true, inner)], 0, false, calls) == RunFrom(world, true, inner, 0, false, calls)
  {
    var one := [Schema(true, inner)];
    NothingFound(world, inner, calls);
    var (reply, after) := Run(world, Schema(true, inner), calls);
    assert RunFrom(world, true, one, 1, false, after) == (NO_SECTION, after);
  }

  /** Writing the alternatives of a nested "or" directly into the enclosing one changes neither the
      calls nor the result, for every behaviour of the leaves, exactly when something is left to try:
      only the schema that holds nothing but empty alternatives fails where the empty schema passes. */
  lemma SplicePreserves(before: seq<Handler>, inner: seq<Handler>, after: seq<Handler>)
    ensures (forall world: World, calls ::
               Run(world, Schema(true, before + [Schema(true, inner)] + after), calls)
               == Run(world, Schema(true, before + inner + after), calls))
            <==> inner != [] || before + after != []
  {
    var nested, flat := before + [Schema(true, inner)] + after, before + inner + after;
    forall world: World, calls
      ensures RunFrom(world, true, nested, 0, false, calls) == RunFrom(world, true, flat, 0, false, calls)
    {
      OrConcat(world, before + [Schema(true, inner)], after, calls);
      OrConcat(world, before, [Schema(true, inner)], calls);
      OrConcat(world, before + inner, after, calls);
      OrConcat(world, before, inner, calls);
      OneAlternative(world, inner, RunFrom(world, true, before, 0, false, calls).1);
    }
    if inner == [] && before + after == [] {
      assert flat == [];
      var quiet: World := (id, calls) => Reply(false, None);
      assert RunFrom(quiet, true, flat, 0, false, []) == (NO_SECTION, []);
      assert Run(quiet, Schema(true, nested), []) != Run(quiet, Schema(true, flat), []);
    } else {
      assert flat != [];
    }
  }

  // ---------------------------------------------------------------- stores of named handlers

  type Store = map<string, Handler>

  /** The first handler of a name stays. */
  function AddHandler(store: Store, name: string, handler: Handler): Store {
    if name in store then store else store[name := handler]
  }

  datatype SchemaConfig = SchemaConfig(name: string, or: bool, handlers: seq<string>)

  datatype Stores = Stores(handlers: Store, schemas: Store)

  /** All names, or the first unknown one. */
  function Resolve(store: Store, names: seq<string>): (found: Result<seq<Handler>, string>)
    ensures found.Ok? <==> forall n | n in names :: n in store
    decreases |names|
  {
    if names == [] then Ok([])
    else
      var last := names[|names| - 1];
      var before := Resolve(store, names[..|names| - 1]);
      if before.Err? then before
      else if last !in store then Err(last)
      else Ok(before.value + [store[last]])
  }

  function InitSchema(stores: Stores, config: SchemaConfig): Result<Stores, string> {
    var found := Resolve(stores.handlers, config.handlers);
    if found.Err? then Err(found.error)
    else
      var schema := Schema(config.or, found.value);
      Ok(Stores(AddHandler(stores.handlers, config.name, schema), AddHandler(stores.schemas, config.name, schema)))
  }

  function InitSchemas(stores: Stores, configs: seq<SchemaConfig>): Result<Stores, string>
    decreases |configs|
  {
    if configs == [] then Ok(stores)
    else
      var first := InitSchema(stores, configs[0]);
      if first.Err? then first else InitSchemas(first.value, configs[1..])
  }

  ghost function Names(configs: seq<SchemaConfig>): set<string> {
    set k | 0 <= k < |configs| :: configs[k].name
  }

  /** Every schema refers only to what was there before it. */
  ghost predicate Ordered(known: set<string>, configs: seq<SchemaConfig>) {
    forall k, n | 0 <= k < |configs| && n in configs[k].handlers :: n in known || n in Names(configs[..k])
  }

  /** A schema with the configured operator and the handlers of the configured names, in order. */
  ghost predicate Configured(store: Store, config: SchemaConfig, schema: Handler) {
    && schema.Schema? && schema.or == config.or && |schema.handlers| == |config.handlers|
    && forall i | 0 <= i < |config.handlers| :: config.handlers[i] in store && schema.handlers[i] == store[config.handlers[i]]
  }

  /** The first configuration of a name that was not taken before. */
  ghost predicate Introduces(store: Store, configs: seq<SchemaConfig>, k: nat)
    requires k < |configs|
  {
    configs[k].name !in store && configs[k].name !in Names(configs[..k])
  }

  lemma {:induction false} ResolvedInOrder(store: Store, names: seq<string>)
    ensures var found := Resolve(store, names);
      found.Ok? ==> |found.value| == |names| && forall i | 0 <= i < |names| :: names[i] in store && found.value[i] == store[names[i]]
    ensures var found := Resolve(store, names);
      found.Err? ==> exists i :: 0 <= i < |names| && names[i] == found.error && found.error !in store
                                 && forall m | 0 <= m < i :: names[m] in store
    decreases |names|
  {
    if names != [] {
      var n := |names| - 1;
      ResolvedInOrder(store, names[..n]);
      var before := Resolve(store, names[..n]);
      if before.Err? {
        var i :| 0 <= i < n && names[..n][i] == before.error && forall m | 0 <= m < i :: names[..n][m] in store;
        assert names[i] == before.error && forall m | 0 <= m < i :: names[m] == names[..n][m];
      } else {
        assert forall m | 0 <= m < n :: names[m] == names[..n][m];
        assert names[n] == names[|names| - 1];
      }
    }
  }

  lemma ConfiguredStays(store: Store, wider: Store, config: SchemaConfig, schema: Handler)
    requires Configured(store, config, schema)
    requires forall n | n in store :: n in wider && wider[n] == store[n]
    ensures Configured(wider, config, schema)
  {}

  /** An accepted configuration leaves under each new name the schema that was configured for it, built
      from the handlers that are known under the configured names. */
  lemma {:induction false} StoredAsConfigured(stores: Stores, configs: seq<SchemaConfig>, k: nat)
    requires InitSchemas(stores, configs).Ok? && k < |configs|
    ensures var t := InitSchemas(stores, configs).value; var name := configs[k].name;
      && (Introduces(stores.handlers, configs, k) ==> name in t.handlers && Configured(t.handlers, configs[k], t.handlers[name]))
      && (Introduces(stores.schemas, configs, k) ==> name in t.schemas && Configured(t.handlers, configs[k], t.schemas[name]))
    decreases |configs|
  {
    var first := InitSchema(stores, configs[0]).value;
    var rest := configs[1..];
    AcceptedExactly(first, rest);
    var t := InitSchemas(stores, configs).value;
    if k == 0 {
      ResolvedInOrder(stores.handlers, configs[0].handlers);
      var schema := Schema(configs[0].or, Resolve(stores.handlers, configs[0].handlers).value);
      ConfiguredStays(stores.handlers, t.handlers, configs[0], schema);
    } else {
      FirstName(configs, k);
      StoredAsConfigured(first, rest, k - 1);
    }
  }

  lemma OrderedStep(known: set<string>, configs: seq<SchemaConfig>)
    requires configs != []
    ensures Ordered(known, configs) <==>
      (forall n | n in configs[0].handlers :: n in known) && Ordered(known + {configs[0].name}, configs[1..])
  {
    var rest := configs[1..];
    assert Names(configs[..0]) == {};
    if Ordered(known, configs) {
      forall k, n | 0 <= k < |rest| && n in rest[k].handlers
        ensures n in known + {configs[0].name} || n in Names(rest[..k]) {
        assert n in configs[k + 1].handlers;
        FirstName(configs, k + 1);
      }
      assert forall n | n in configs[0].handlers :: n in known;
    } else if forall n | n in configs[0].handlers :: n in known {
      var k, n :| 0 <= k < |configs| && n in configs[k].handlers && n !in known && n !in Names(configs[..k]);
      FirstName(configs, k);
      var m := k - 1;
      assert rest[m] == configs[k] && n in rest[m].handlers && n !in Names(rest[..m]) && n !in known + {configs[0].name};
    }
  }

  lemma FirstName(configs: seq<SchemaConfig>, k: nat)
    requires 0 < k <= |configs|
    ensures Names(configs[..k]) == {configs[0].name} + Names(configs[1..][..k - 1])
  {
    assert configs[..k] == [configs[0]] + configs[1..][..k - 1];
    NamesConcat([configs[0]], configs[1..][..k - 1]);
    assert [configs[0]][0].name in Names([configs[0]]);
  }

  lemma NamesConcat(a: seq<SchemaConfig>, b: seq<SchemaConfig>)
    ensures Names(a + b) == Names(a) + Names(b)
  {
    forall n | n in Names(a) + Names(b) ensures n in Names(a + b) {
      if n in Names(a) {
        var k :| 0 <= k < |a| && a[k].name == n;
        assert (a + b)[k].name == n;
      } else {
        var k :| 0 <= k < |b| && b[k].name == n;
        assert (a + b)[|a| + k].name == n;
      }
    }
  }

  /** The configuration is accepted exactly when no schema refers to itself, to a later one or to an
      unknown name.  Names that were known before keep their handlers. */
  lemma {:induction false} AcceptedExactly(stores: Stores, configs: seq<SchemaConfig>)
    ensures InitSchemas(stores, configs).Ok? <==> Ordered(stores.handlers.Keys, configs)
    ensures InitSchemas(stores, configs).Ok? ==>
      var t := InitSchemas(stores, configs).value;
      && t.handlers.Keys == stores.handlers.Keys + Names(configs) && t.schemas.Keys == stores.schemas.Keys + Names(configs)
      && (forall n | n in stores.handlers :: t.handlers[n] == stores.handlers[n])
      && (forall n | n in stores.schemas :: t.schemas[n] == stores.schemas[n])
    decreases |configs|
  {
    if configs != [] {
      OrderedStep(stores.handlers.Keys, configs);
      assert configs == [configs[0]] + configs[1..];
      NamesConcat([configs[0]], configs[1..]);
      assert Names([configs[0]]) == {configs[0].name} by { assert [configs[0]][0].name in Names([configs[0]]); }
      var first := InitSchema(stores, configs[0]);
      if first.Ok? {
        assert first.value.handlers.Keys == stores.handlers.Keys + {configs[0].name};
        assert first.value.schemas.Keys == stores.schemas.Keys + {configs[0].name};
        AcceptedExactly(first.value, configs[1..]);
      }
    }
  }

  // ---------------------------------------------------------------- handlers as objects

  /** A handler is shared by reference; `tree` is what it unfolds to. */
  class AuthHandler {
    const isSchema: bool
    const id: nat
    const genuine: bool
    const or: bool
    var handlers: seq<AuthHandler>
    ghost var tree: Handler

    constructor Method(id: nat, genuine: bool)
      ensures !isSchema && handlers == [] && tree == Leaf(id, genuine)
      ensures this.id == id && this.genuine == genuine
    {
      isSchema, this.id, this.genuine, or := false, id, genuine, false;
      handlers, tree := [], Leaf(id, genuine);
    }

    constructor Schema(or: bool)
      ensures isSchema && handlers == [] && this.or == or && tree == Handler.Schema(or, [])
    {
      isSchema, id, genuine, this.or := true, 0, true, or;
      handlers, tree := [], Handler.Schema(or, []);
    }

    method Append(handler: AuthHandler)
      requires isSchema && tree.Schema?
      modifies this
      ensures handlers == old(handlers) + [handler]
      ensures tree == old(tree).(handlers := old(tree).handlers + [old(handler.tree)])
    {
      tree := tree.(handlers := tree.handlers + [handler.tree]);
      handlers := handlers + [handler];
    }
  }

  /** Each object unfolds to the tree made of the trees of its handlers. */
  ghost predicate Wired(all: set<AuthHandler>)
    reads all
  {
    forall h {:trigger WiredOne(all, h)} | h in all :: WiredOne(all, h)
  }

  ghost predicate WiredOne(all: set<AuthHandler>, h: AuthHandler)
    requires h in all
    reads all
  {
    if h.isSchema then
      && h.tree.Schema? && h.tree.or == h.or && |h.tree.handlers| == |h.handlers|
      && forall k | 0 <= k < |h.handlers| :: h.handlers[k] in all && h.tree.handlers[k] == h.handlers[k].tree
    else h.tree == Leaf(h.id, h.genuine)
  }

  function Depth(h: Handler): nat {
    match h
    case Leaf(_, _) => 0
    case Schema(_, handlers) => 1 + DepthOf(handlers)
  }

  function DepthOf(hs: seq<Handler>): (d: nat)
    ensures forall k | 0 <= k < |hs| :: Depth(hs[k]) <= d
  {
    if hs == [] then 0
    else
      var rest := DepthOf(hs[1..]);
      assert forall k | 1 <= k < |hs| :: hs[k] == hs[1..][k - 1];
      if Depth(hs[0]) > rest then Depth(hs[0]) else rest
  }

  /** No chain of references leads back to where it started. */
  lemma {:induction false} NoCycles(all: set<AuthHandler>, chain: seq<AuthHandler>)
    requires Wired(all) && |chain| > 1 && chain[0] in all
    requires forall k {:trigger chain[k]} | 0 <= k < |chain| - 1 :: chain[k].isSchema && chain[k + 1] in chain[k].handlers
    ensures chain[|chain| - 1] in all && Depth(chain[|chain| - 1].tree) < Depth(chain[0].tree)
    ensures chain[|chain| - 1] != chain[0]
    decreases |chain|
  {
    assert WiredOne(all, chain[0]);
    assert chain[0].isSchema && chain[1] in chain[0].handlers;
    var k :| 0 <= k < |chain[0].handlers| && chain[0].handlers[k] == chain[1];
    assert Depth(chain[0].tree.handlers[k]) <= DepthOf(chain[0].tree.handlers);
    if |chain| > 2 {
      var rest := chain[1..];
      forall m {:trigger rest[m]} | 0 <= m < |rest| - 1 ensures rest[m].isSchema && rest[m + 1] in rest[m].handlers {
        assert rest[m] == chain[m + 1];
      }
      NoCycles(all, rest);
    }
  }

  /** Handling a request terminates and computes what the tree of the handler means. */
  method Handle(h: AuthHandler, world: World, calls: Calls, ghost all: set<AuthHandler>) returns (reply: Reply, after: Calls)
    requires h in all && Wired(all)
    ensures (reply, after) == Run(world, h.tree, calls)
    decreases h.tree
  {
    assert WiredOne(all, h);
    if !h.isSchema {
      return world(h.id, calls), calls + [h.id];
    }
    after := calls;
    var authMethodFound := false;
    var k := 0;
    while k < |h.handlers|
      invariant 0 <= k <= |h.handlers|
      invariant h.handlers != [] ==>
                  RunFrom(world, h.or, h.tree.handlers, k, authMethodFound, after) == Run(world, h.tree, calls)
      invariant h.handlers == [] ==> after == calls && !authMethodFound
    {
      var handler := h.handlers[k];
      var called := h.tree.handlers[k];
      assert WiredOne(all, handler) && called == handler.tree;
      var found: Reply;
      found, after := Handle(handler, world, after, all);
      k := k + 1;
      if !(handler.isSchema || handler.genuine) || (!found.found && h.or) { continue; }
      if found.error.Some? { return found, after; }
      if h.or { return Reply(found.found, None), after; }
      if found.found { authMethodFound := true; }
    }
    if |h.handlers| != 0 && !authMethodFound { return NO_SECTION, after; }
    return Reply(authMethodFound, None), after;
  }

  lemma WiredLeaf(all: set<AuthHandler>, h: AuthHandler)
    requires Wired(all) && !h.isSchema && h.tree == Leaf(h.id, h.genuine)
    ensures Wired(all + {h})
  {
    WiderIsWired(all, all + {h});
  }

  /** What is wired stays wired among more objects. */
  lemma WiderIsWired(all: set<AuthHandler>, more: set<AuthHandler>)
    requires Wired(all) && all <= more
    ensures forall h {:trigger WiredOne(more, h)} | h in all :: WiredOne(more, h)
  {
    forall h | h in all ensures WiredOne(more, h) { assert WiredOne(all, h); }
  }

  lemma WiredSchema(all: set<AuthHandler>, h: AuthHandler)
    requires Wired(all) && h.isSchema && h.tree.Schema? && h.tree.or == h.or && |h.tree.handlers| == |h.handlers|
    requires forall k | 0 <= k < |h.handlers| :: h.handlers[k] in all && h.tree.handlers[k] == h.handlers[k].tree
    ensures Wired(all + {h})
  {
    WiderIsWired(all, all + {h});
  }

  ghost function TreesOf(store: map<string, AuthHandler>): Store
    reads store.Values
  {
    map n | n in store :: store[n].tree
  }

  lemma TreesOfUpdate(store: map<string, AuthHandler>, name: string, handler: AuthHandler)
    ensures TreesOf(store[name := handler]) == TreesOf(store)[name := handler.tree]
    ensures store[name := handler].Values <= store.Values + {handler}
  {}

  class AuthManager {
    var handlers: map<string, AuthHandler>
    var schemas: map<string, AuthHandler>
    ghost var all: set<AuthHandler>

    ghost predicate Valid()
      reads this, all
    {
      Wired(all) && handlers.Values <= all && schemas.Values <= all
    }

    ghost function View(): Stores
      requires Valid()
      reads this, all
    {
      Stores(TreesOf(handlers), TreesOf(schemas))
    }

    constructor ()
      ensures Valid() && View() == Stores(map[], map[]) && all == {}
    {
      handlers, schemas, all := map[], map[], {};
    }

    method PutHandler(name: string, handler: AuthHandler)
      requires Valid() && handler in all
      modifies this`handlers
      ensures Valid() && TreesOf(handlers) == AddHandler(old(TreesOf(handlers)), name, handler.tree)
    {
      TreesOfUpdate(handlers, name, handler);
      if name !in handlers { handlers := handlers[name := handler]; }
    }

    method PutSchema(name: string, handler: AuthHandler)
      requires Valid() && handler in all
      modifies this`schemas
      ensures Valid() && TreesOf(schemas) == AddHandler(old(TreesOf(schemas)), name, handler.tree)
    {
      TreesOfUpdate(schemas, name, handler);
      if name !in schemas { schemas := schemas[name := handler]; }
    }

    /** A new handler enters the stores under a name that is not taken there. */
    method Enter(name: string, handler: AuthHandler, alone: bool)
      requires Valid() && Wired(all + {handler})
      modifies this
      ensures Valid() && all == old(all) + {handler}
      ensures View() == Stores(AddHandler(old(View()).handlers, name, handler.tree),
                               if alone then AddHandler(old(View()).schemas, name, handler.tree) else old(View()).schemas)
    {
      all := all + {handler};
      PutHandler(name, handler);
      if alone { PutSchema(name, handler); }
    }

    /** An authentication method, which may be a schema of its own. */
    method AddMethod(name: string, id: nat, genuine: bool, alone: bool)
      requires Valid()
      modifies this
      ensures Valid() && fresh(all - old(all))
      ensures View() == Stores(AddHandler(old(View()).handlers, name, Leaf(id, genuine)),
                               if alone then AddHandler(old(View()).schemas, name, Leaf(id, genuine)) else old(View()).schemas)
    {
      var handler := new AuthHandler.Method(id, genuine);
      WiredLeaf(all, handler);
      Enter(name, handler, alone);
    }

    /** The named handlers are looked up and appended one by one; the error is the unknown name. */
    method LoadHandlers(schema: AuthHandler, names: seq<string>) returns (error: Option<string>)
      requires Valid() && schema !in all && schema.isSchema && schema.handlers == [] && schema.tree == Handler.Schema(schema.or, [])
      modifies schema
      ensures schema.tree.Schema? && schema.tree.or == schema.or && |schema.tree.handlers| == |schema.handlers|
      ensures forall k | 0 <= k < |schema.handlers| ::
                schema.handlers[k] in all && schema.tree.handlers[k] == schema.handlers[k].tree
      ensures Resolve(old(View()).handlers, names) == if error.None? then Ok(schema.tree.handlers) else Err(error.value)
    {
      ghost var store := View().handlers;
      ghost var trees: seq<Handler> := [];
      var k := 0;
      while k < |names|
        invariant 0 <= k <= |names| && |schema.handlers| == k
        invariant schema.tree == Handler.Schema(schema.or, trees) && |trees| == k
        invariant forall i | 0 <= i < k :: names[i] in handlers && schema.handlers[i] == handlers[names[i]]
                                           && trees[i] == handlers[names[i]].tree
      {
        var name := names[k];
        if name !in handlers {
          ResolveFails(store, names, k);
          return Some(name);
        }
        assert handlers[name] in handlers.Values;
        trees := trees + [handlers[name].tree];
        schema.Append(handlers[name]);
        k := k + 1;
      }
      ResolveSucceeds(store, names, trees);
      return None;
    }

    method InitOne(config: SchemaConfig) returns (error: Option<string>)
      requires Valid()
      modifies this
      ensures Valid() && fresh(all - old(all))
      ensures var result := InitSchema(old(View()), config);
        if result.Ok? then error.None? && View() == result.value else error == Some(result.error) && View() == old(View())
    {
      var schema := new AuthHandler.Schema(config.or);
      error := LoadHandlers(schema, config.handlers);
      if error.Some? { return; }
      WiredSchema(all, schema);
      Enter(config.name, schema, true);
    }

    /** The schemas in the order of the configuration, up to the first that cannot be initialised. */
    method Init(configs: seq<SchemaConfig>) returns (error: Option<string>)
      requires Valid()
      modifies this
      ensures Valid() && fresh(all - old(all))
      ensures var result := InitSchemas(old(View()), configs);
        if result.Ok? then error.None? && View() == result.value else error == Some(result.error)
    {
      var k := 0;
      while k < |configs|
        invariant 0 <= k <= |configs| && Valid() && fresh(all - old(all))
        invariant InitSchemas(old(View()), configs) == InitSchemas(View(), configs[k..])
      {
        error := InitOne(configs[k]);
        if error.Some? { return; }
        assert configs[k..][1..] == configs[k + 1..];
        k := k + 1;
      }
      error := None;
    }
  }

  lemma {:induction false} ResolveFails(store: Store, names: seq<string>, k: nat)
    requires k < |names| && names[k] !in store && forall i | 0 <= i < k :: names[i] in store
    ensures Resolve(store, names) == Err(names[k])
    decreases |names|
  {
    if k < |names| - 1 { ResolveFails(store, names[..|names| - 1], k); }
  }

  lemma {:induction false} ResolveSucceeds(store: Store, names: seq<string>, trees: seq<Handler>)
    requires |names| == |trees| && forall k | 0 <= k < |names| :: names[k] in store && trees[k] == store[names[k]]
    ensures Resolve(store, names) == Ok(trees)
    decreases |names|
  {
    if names != [] {
      var n := |names| - 1;
      ResolveSucceeds(store, names[..n], trees[..n]);
      assert trees == trees[..n] + [trees[n]];
    }
  }
}
