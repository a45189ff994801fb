/** The tree of API resources with cached paths (pkg/api/resource.go).

    A resource caches its own path, the paths from the root and from the nearest service, and the
    tenancy it lives in.  The ghost `Shape` of a forest gives for every resource its chain, the
    resources from its root down to itself. */
module ResourceTree {

  datatype ResourceConfig = ResourceConfig(host: string, hasId: bool, service: bool, id: string, tenancy: bool)

  datatype Cached = Cached(
    pathPrototype: string, actualPath: string,
    fullPathPrototype: string, fullActualPath: string,
    servicePathPrototype: string, serviceActualPath: string,
    inTenancy: bool, tenancyResource: Resource?)

  type Chain = seq<Resource>

  type Shape = map<Resource, Chain>

  // ---------------------------------------------------------------- segments and folds

  function PrototypeSegment(resourceType: string, config: ResourceConfig): (s: string)
    ensures s != ""
  {
    if config.hasId then "/:" + resourceType else "/" + resourceType
  }

  function ActualSegment(resourceType: string, config: ResourceConfig): (s: string)
    ensures s != ""
  {
    if config.hasId && !(config.tenancy && config.id == "") then "/" + config.id
    else PrototypeSegment(resourceType, config)
  }

  ghost function FullPrototype(chain: Chain): string
    reads chain`config
    decreases |chain|
  {
    if chain == [] then ""
    else
      var last := chain[|chain| - 1];
      FullPrototype(chain[..|chain| - 1]) + PrototypeSegment(last.resourceType, last.config)
  }

  ghost function FullActual(chain: Chain): string
    reads chain`config
    decreases |chain|
  {
    if chain == [] then ""
    else
      var last := chain[|chain| - 1];
      FullActual(chain[..|chain| - 1]) + ActualSegment(last.resourceType, last.config)
  }

  ghost predicate HasService(chain: Chain)
    reads chain`config
  {
    exists k :: 0 <= k < |chain| && chain[k].config.service
  }

  ghost predicate HasTenancy(chain: Chain)
    reads chain`config
  {
    exists k :: 0 <= k < |chain| && chain[k].config.tenancy
  }

  ghost predicate NearestService(chain: Chain, k: nat)
    reads chain`config
  {
    k < |chain| && chain[k].config.service && forall j | k < j < |chain| :: !chain[j].config.service
  }

  ghost predicate NearestTenancy(chain: Chain, k: nat)
    reads chain`config
  {
    k < |chain| && chain[k].config.tenancy && forall j | k < j < |chain| :: !chain[j].config.tenancy
  }

  lemma FoldStep(chain: Chain, r: Resource)
    ensures FullPrototype(chain + [r]) == FullPrototype(chain) + PrototypeSegment(r.resourceType, r.config)
    ensures FullActual(chain + [r]) == FullActual(chain) + ActualSegment(r.resourceType, r.config)
  {
    assert (chain + [r])[..|chain|] == chain;
  }

  lemma FoldOne(r: Resource)
    ensures FullPrototype([r]) == PrototypeSegment(r.resourceType, r.config)
    ensures FullActual([r]) == ActualSegment(r.resourceType, r.config)
  {
    FoldStep([], r);
    assert [] + [r] == [r];
  }

  // ---------------------------------------------------------------- what a path says

  /** What a segment consists of: a slash, and the type, marked as a parameter if the resource has an
      identifier; in an actual path the identifier instead, if it is there or the resource is no tenancy. */
  lemma SegmentsMean(resourceType: string, config: ResourceConfig)
    ensures PrototypeSegment(resourceType, config) == ['/'] + (if config.hasId then [':'] else []) + resourceType
    ensures ActualSegment(resourceType, config) ==
              if !config.hasId then ['/'] + resourceType
              else if config.tenancy && config.id == "" then ['/', ':'] + resourceType
              else ['/'] + config.id
  {}

  /** A name that can stand between slashes. */
  predicate Plain(name: string) {
    '/' !in name && (name != "" ==> name[0] != ':')
  }

  function AfterLastSlash(path: string): string {
    if path == "" || path[|path| - 1] == '/' then "" else AfterLastSlash(path[..|path| - 1]) + [path[|path| - 1]]
  }

  lemma {:induction false} AfterLastSlashIs(a: string, v: string)
    requires '/' !in v
    ensures AfterLastSlash(a + "/" + v) == v
    decreases |v|
  {
    if v == "" {
      assert a + "/" + v == a + "/";
    } else {
      var n := |v| - 1;
      assert (a + "/" + v)[..|a + "/" + v| - 1] == a + "/" + v[..n] && v[n] in v && v[..n] + [v[n]] == v;
      AfterLastSlashIs(a, v[..n]);
    }
  }

  /** The part behind the last slash is determined by the path. */
  lemma LastPart(a: string, v: string, b: string, w: string)
    requires a + "/" + v == b + "/" + w && '/' !in v && '/' !in w
    ensures a == b && v == w
  {
    AfterLastSlashIs(a, v);
    AfterLastSlashIs(b, w);
    assert a == (a + "/" + v)[..|a|] && b == (b + "/" + w)[..|b|];
  }

  /** The part of a route that belongs to one resource. */
  function Label(resourceType: string, hasId: bool): string {
    if hasId then ":" + resourceType else resourceType
  }

  lemma SameLabel(v: string, parameter: bool, w: string, other: bool)
    requires Plain(v) && Plain(w) && Label(v, parameter) == Label(w, other)
    ensures v == w && parameter == other
  {
    if parameter { assert Label(v, parameter)[1..] == v; }
    if other { assert Label(w, other)[1..] == w; }
  }

  lemma LabelledSegment(path: string, resourceType: string, config: ResourceConfig)
    ensures path + PrototypeSegment(resourceType, config) == path + "/" + Label(resourceType, config.hasId)
  {
    assert PrototypeSegment(resourceType, config) == "/" + Label(resourceType, config.hasId);
  }

  lemma RouteStep(chain: Chain)
    requires chain != []
    ensures var n := |chain| - 1;
      FullPrototype(chain) == FullPrototype(chain[..n]) + "/" + Label(chain[n].resourceType, chain[n].config.hasId)
  {
    var last := chain[|chain| - 1];
    LabelledSegment(FullPrototype(chain[..|chain| - 1]), last.resourceType, last.config);
  }

  ghost predicate PlainTypes(chain: Chain) {
    forall k | 0 <= k < |chain| :: Plain(chain[k].resourceType)
  }

  ghost predicate SameRoute(a: Chain, b: Chain)
    reads a`config, b`config
  {
    && |a| == |b|
    && forall k | 0 <= k < |a| :: a[k].resourceType == b[k].resourceType && a[k].config.hasId == b[k].config.hasId
  }

  /** The route of a resource tells its place: chains with the same path prototype have the same types in
      the same order, with parameters in the same places. */
  lemma {:induction false} RouteTellsChain(a: Chain, b: Chain)
    requires PlainTypes(a) && PlainTypes(b) && FullPrototype(a) == FullPrototype(b)
    ensures SameRoute(a, b)
    decreases |a|
  {
    if a != [] { RouteStep(a); }
    if b != [] { RouteStep(b); }
    if a != [] && b != [] {
      var r, q := a[|a| - 1], b[|b| - 1];
      LastPart(FullPrototype(a[..|a| - 1]), Label(r.resourceType, r.config.hasId),
               FullPrototype(b[..|b| - 1]), Label(q.resourceType, q.config.hasId));
      SameLabel(r.resourceType, r.config.hasId, q.resourceType, q.config.hasId);
      RouteTellsChain(a[..|a| - 1], b[..|b| - 1]);
      SameRouteStep(a, b);
    }
  }

  lemma SameRouteStep(a: Chain, b: Chain)
    requires a != [] && b != [] && SameRoute(a[..|a| - 1], b[..|b| - 1])
    requires a[|a| - 1].resourceType == b[|b| - 1].resourceType && a[|a| - 1].config.hasId == b[|b| - 1].config.hasId
    ensures SameRoute(a, b)
  {
    forall k | 0 <= k < |a| ensures a[k].resourceType == b[k].resourceType && a[k].config.hasId == b[k].config.hasId {
      if k < |a| - 1 { assert a[..|a| - 1][k] == a[k] && b[..|b| - 1][k] == b[k]; }
    }
  }

  lemma NearestStep(chain: Chain, r: Resource)
    ensures HasService(chain + [r]) <==> r.config.service || HasService(chain)
    ensures HasTenancy(chain + [r]) <==> r.config.tenancy || HasTenancy(chain)
    ensures forall k: nat :: NearestService(chain + [r], k) <==>
              if r.config.service then k == |chain| else NearestService(chain, k)
    ensures forall k: nat :: NearestTenancy(chain + [r], k) <==>
              if r.config.tenancy then k == |chain| else NearestTenancy(chain, k)
    ensures forall k: nat :: k < |chain| ==> (chain + [r])[k] == chain[k]
    ensures (chain + [r])[|chain|] == r
  {
    var longer := chain + [r];
    assert forall k :: 0 <= k < |chain| ==> longer[k] == chain[k];
    assert longer[|chain|] == r;
  }

  // ---------------------------------------------------------------- shapes

  ghost predicate ChainOk(s: Shape, r: Resource)
    requires r in s
  {
    && |s[r]| > 0 && s[r][|s[r]| - 1] == r
    && forall k | 0 <= k < |s[r]| :: s[r][k] in s && s[s[r][k]] == s[r][..k + 1]
  }

  ghost predicate LinksOk(s: Shape, r: Resource)
    requires r in s
    reads r`parent, r`children
  {
    && r.parent == (if |s[r]| < 2 then null else s[r][|s[r]| - 2])
    && (forall c | c in r.children :: c in s && s[c] == s[r] + [c])
    && (forall c | c in s && s[c] == s[r] + [c] :: c in r.children)
  }

  /** The pointers of the resources in `s` form the forest that `s` describes. */
  ghost predicate Forest(s: Shape)
    reads s.Keys`parent, s.Keys`children
  {
    forall r {:trigger ChainOk(s, r)} {:trigger LinksOk(s, r)} | r in s :: ChainOk(s, r) && LinksOk(s, r)
  }

  /** `r` and everything below it. */
  ghost function Below(s: Shape, r: Resource): set<Resource> {
    set n | n in s && r in s[n]
  }

  lemma ChainFacts(s: Shape, r: Resource)
    requires Forest(s) && r in s
    ensures |s[r]| > 0 && s[r][|s[r]| - 1] == r
    ensures forall n | n in s[r] :: n in s
    ensures r.parent == null ==> s[r] == [r]
    ensures r.parent != null ==> r.parent in s && s[r] == s[r.parent] + [r] && r in r.parent.children
    ensures r !in s[r][..|s[r]| - 1]
  {
    assert ChainOk(s, r) && LinksOk(s, r);
    if r.parent != null {
      assert s[r.parent] == s[r][..|s[r]| - 1];
      assert LinksOk(s, r.parent);
    }
    forall k | 0 <= k < |s[r]| - 1 ensures s[r][k] != r {
      assert |s[s[r][k]]| == k + 1;
    }
  }

  /** What is left to climb is the chain of `p`; `below` has been climbed. */
  ghost predicate Climbed(s: Shape, whole: Chain, p: Resource?, below: Chain) {
    if p == null then whole == below else p in s && whole == s[p] + below
  }

  lemma ClimbStart(s: Shape, r: Resource)
    requires Forest(s) && r in s
    ensures Climbed(s, s[r], r.parent, [r]) && (r.parent != null ==> r.parent in s)
  {
    ChainFacts(s, r);
  }

  /** One step up the chain. */
  lemma ClimbFacts(s: Shape, whole: Chain, p: Resource, below: Chain)
    requires Forest(s) && Climbed(s, whole, p, below)
    ensures Climbed(s, whole, p.parent, [p] + below)
    ensures p.parent != null ==> p.parent in s && |s[p.parent]| < |s[p]|
  {
    ChainFacts(s, p);
    if p.parent != null { assert s[p] + below == s[p.parent] + ([p] + below); }
  }

  lemma ChildFacts(s: Shape, r: Resource)
    requires Forest(s) && r in s
    ensures forall c | c in r.children :: c in s && c.parent == r && s[c] == s[r] + [c]
  {
    assert LinksOk(s, r);
    forall c | c in r.children ensures c.parent == r { assert LinksOk(s, c) && ChainOk(s, r); }
  }

  /** Descending and climbing the chain agree. */
  lemma PrefixFacts(s: Shape, n: Resource, r: Resource)
    requires Forest(s) && n in s && r in s[n]
    ensures r in s && |s[r]| <= |s[n]| && s[r] == s[n][..|s[r]|]
    ensures n != r ==> |s[r]| < |s[n]| && s[n][|s[r]|] in r.children
  {
    assert ChainOk(s, n);
    var k :| 0 <= k < |s[n]| && s[n][k] == r;
    assert s[r] == s[n][..k + 1];
    if n != r {
      var c := s[n][k + 1];
      assert s[c] == s[n][..k + 2] == s[r] + [c];
      assert LinksOk(s, r);
    }
  }

  lemma BelowFacts(s: Shape, r: Resource)
    requires Forest(s) && r in s
    ensures r in Below(s, r)
    ensures forall c | c in r.children :: c in s && Below(s, c) <= Below(s, r) && |Below(s, c)| < |Below(s, r)|
    ensures forall n | n in Below(s, r) && n != r :: exists c :: c in r.children && n in Below(s, c)
  {
    ChainFacts(s, r);
    ChildFacts(s, r);
    forall c | c in r.children ensures Below(s, c) <= Below(s, r) && |Below(s, c)| < |Below(s, r)| {
      ChainFacts(s, c);
      assert r !in Below(s, c) by {
        if c in s[r] { PrefixFacts(s, r, c); }
      }
      forall n | n in Below(s, c) ensures n in Below(s, r) {
        PrefixFacts(s, n, c);
        assert s[c][|s[c]| - 2] == r;
      }
      SubsetSize(Below(s, c), Below(s, r), r);
    }
    forall n | n in Below(s, r) && n != r ensures exists c :: c in r.children && n in Below(s, c) {
      PrefixFacts(s, n, r);
      assert n in Below(s, s[n][|s[r]|]);
    }
  }

  /** What is below a resource is below its root, and the root is the same all along the chain. */
  lemma RootAbove(s: Shape, r: Resource)
    requires Forest(s) && r in s
    ensures s[r] != [] && s[r][0] in s && Below(s, r) <= Below(s, s[r][0])
    ensures r.parent != null ==> r.parent in s && s[r.parent] != [] && s[r.parent][0] == s[r][0]
    ensures r.parent == null ==> s[r][0] == r
    ensures forall n | n in s[r] :: n in s && n in Below(s, s[r][0])
  {
    ChainFacts(s, r);
    if r.parent != null { ChainFacts(s, r.parent); }
    forall n | n in Below(s, r) ensures n in Below(s, s[r][0]) {
      PrefixFacts(s, n, r);
      assert s[r][0] == s[n][0];
    }
    forall n | n in s[r] ensures n in Below(s, s[r][0]) {
      ChainFacts(s, n);
      PrefixFacts(s, r, n);
      assert s[n][0] == s[r][0];
    }
  }

  lemma SubsetSize<T>(a: set<T>, b: set<T>, x: T)
    requires a <= b && x in b && x !in a
    ensures |a| < |b|
  {
    assert b == a + (b - a) && x in b - a;
  }

  ghost predicate Covers<T>(done: set<T>, parts: seq<set<T>>) {
    forall part | part in parts :: part <= done
  }

  lemma CoverMore<T>(done: set<T>, parts: seq<set<T>>, i: nat)
    requires i < |parts| && Covers(done, parts[..i])
    ensures Covers(done + parts[i], parts[..i + 1])
  {
    assert parts[..i + 1] == parts[..i] + [parts[i]];
  }

  // ---------------------------------------------------------------- cached values

  /** The cached values of one resource as one rebuilding step computes them from the values `up` of
      its parent.  Values that the step leaves alone are taken from `before`. */
  function Rebuilt(resourceType: string, config: ResourceConfig, servicePart: bool, before: Cached, hasParent: bool, up: Cached): Cached {
    var proto := PrototypeSegment(resourceType, config);
    var actual := ActualSegment(resourceType, config);
    var inTenancy := config.tenancy || (hasParent && up.inTenancy);
    Cached(
      proto, actual,
      if hasParent then up.fullPathPrototype + proto else proto,
      if hasParent then up.fullActualPath + actual else actual,
      if config.service then proto
      else if hasParent && servicePart then up.servicePathPrototype + proto
      else before.servicePathPrototype,
      if config.service then actual
      else if hasParent && servicePart then up.serviceActualPath + actual
      else before.serviceActualPath,
      inTenancy,
      if hasParent && inTenancy && !config.tenancy then up.tenancyResource else before.tenancyResource)
  }

  ghost function RebuiltIn(s: Shape, r: Resource): Cached
    requires r in s
    reads r, r.parent, s[r]`config
  {
    Rebuilt(r.resourceType, r.config, HasService(s[r]), r.cached, r.parent != null,
            if r.parent == null then r.cached else r.parent.cached)
  }

  /** The cached values of `r` agree with those of its parent. */
  ghost predicate Fresh(s: Shape, r: Resource)
    requires r in s
    reads r, r.parent, s[r]`config
  {
    r.cached == RebuiltIn(s, r)
  }

  /** What no operation, rebuilding or not, ever breaks. */
  ghost predicate CleanValues(r: Resource, chain: Chain, c: Cached)
    reads r`config, chain`config
  {
    && (!HasService(chain) ==> c.servicePathPrototype == "" && c.serviceActualPath == "")
    && (r.config.tenancy ==> c.tenancyResource == r)
    && (!HasTenancy(chain) ==> !c.inTenancy && c.tenancyResource == null)
  }

  ghost predicate Clean(s: Shape, r: Resource)
    requires r in s
    reads r, s[r]`config
  {
    CleanValues(r, s[r], r.cached)
  }

  lemma AllChainFacts(s: Shape)
    requires Forest(s)
    ensures forall r | r in s :: r.parent != null ==> r.parent in s
    ensures forall r, n | r in s && n in s[r] :: n in s
  {
    forall r | r in s ensures (r.parent != null ==> r.parent in s) && forall n | n in s[r] :: n in s {
      ChainFacts(s, r);
    }
  }

  ghost predicate AllClean(s: Shape)
    requires Forest(s)
    reads s.Keys
  {
    AllChainFacts(s);
    forall r {:trigger Clean(s, r)} | r in s :: Clean(s, r)
  }

  ghost function FreshOnes(s: Shape): set<Resource>
    requires Forest(s)
    reads s.Keys
  {
    AllChainFacts(s);
    set r | r in s && Fresh(s, r)
  }

  ghost predicate Settled(s: Shape)
    requires Forest(s)
    reads s.Keys
  {
    AllClean(s) && FreshOnes(s) == s.Keys
  }

  // ---------------------------------------------------------------- what the cached values mean

  ghost predicate FullMeaning(chain: Chain, c: Cached)
    reads chain`config
  {
    && c.fullPathPrototype == FullPrototype(chain) && c.fullActualPath == FullActual(chain)
    && (chain != [] ==>
          var last := chain[|chain| - 1];
          && c.pathPrototype == PrototypeSegment(last.resourceType, last.config)
          && c.actualPath == ActualSegment(last.resourceType, last.config))
  }

  /** Service paths start at the nearest service. */
  ghost predicate ServiceMeaning(chain: Chain, c: Cached)
    reads chain`config
  {
    && (forall k: nat | NearestService(chain, k) ::
          && c.servicePathPrototype == FullPrototype(chain[k..])
          && c.serviceActualPath == FullActual(chain[k..]))
    && (!HasService(chain) ==> c.servicePathPrototype == "" && c.serviceActualPath == "")
  }

  ghost predicate TenancyMeaning(chain: Chain, c: Cached)
    reads chain`config
  {
    && c.inTenancy == HasTenancy(chain)
    && (forall k: nat | NearestTenancy(chain, k) :: c.tenancyResource == chain[k])
    && (!HasTenancy(chain) ==> c.tenancyResource == null)
  }

  ghost predicate Meaning(chain: Chain, c: Cached)
    reads chain`config
  {
    FullMeaning(chain, c) && ServiceMeaning(chain, c) && TenancyMeaning(chain, c)
  }

  lemma ServiceStep(chain: Chain, r: Resource, up: Cached, c: Cached)
    requires ServiceMeaning(chain, up)
    requires !HasService(chain + [r]) ==> c.servicePathPrototype == "" && c.serviceActualPath == ""
    requires HasService(chain + [r]) ==>
      var start := if r.config.service then ("", "") else (up.servicePathPrototype, up.serviceActualPath);
      && c.servicePathPrototype == start.0 + PrototypeSegment(r.resourceType, r.config)
      && c.serviceActualPath == start.1 + ActualSegment(r.resourceType, r.config)
    ensures ServiceMeaning(chain + [r], c)
  {
    NearestStep(chain, r);
    forall k: nat | NearestService(chain + [r], k)
      ensures c.servicePathPrototype == FullPrototype((chain + [r])[k..])
      ensures c.serviceActualPath == FullActual((chain + [r])[k..])
    {
      if r.config.service {
        FoldOne(r);
        assert (chain + [r])[k..] == [r];
      } else {
        FoldStep(chain[k..], r);
        assert (chain + [r])[k..] == chain[k..] + [r];
      }
    }
  }

  /** A rebuilding step turns the meaning of a parent's values into that of its child's. */
  lemma MeaningStep(chain: Chain, r: Resource, up: Cached, before: Cached)
    requires Meaning(chain, up) && CleanValues(r, chain + [r], before)
    ensures Meaning(chain + [r], Rebuilt(r.resourceType, r.config, HasService(chain + [r]), before, true, up))
  {
    FoldStep(chain, r);
    NearestStep(chain, r);
    ServiceStep(chain, r, up, Rebuilt(r.resourceType, r.config, HasService(chain + [r]), before, true, up));
  }

  lemma MeaningRoot(r: Resource, before: Cached)
    requires CleanValues(r, [r], before)
    ensures Meaning([r], Rebuilt(r.resourceType, r.config, HasService([r]), before, false, before))
  {
    FoldOne(r);
    NearestStep([], r);
    assert [] + [r] == [r] && [r][0..] == [r];
  }

  /** Agreement with the parent all along the chain gives the cached values their meaning. */
  lemma {:induction false} FreshMeans(s: Shape, r: Resource)
    requires Forest(s) && r in s && AllClean(s)
    requires forall n | n in s[r] :: n in FreshOnes(s)
    ensures Meaning(s[r], r.cached)
    decreases |s[r]|
  {
    ChainFacts(s, r);
    assert Clean(s, r) && r in s[r] && Fresh(s, r);
    if r.parent == null {
      MeaningRoot(r, r.cached);
    } else {
      FreshMeans(s, r.parent);
      MeaningStep(s[r.parent], r, r.parent.cached, r.cached);
    }
  }

  /** In a settled forest every cached value means what it should. */
  lemma SettledMeans(s: Shape)
    requires Forest(s) && Settled(s)
    ensures forall r | r in s :: Meaning(s[r], r.cached)
  {
    forall r | r in s ensures Meaning(s[r], r.cached) {
      ChainFacts(s, r);
      FreshMeans(s, r);
    }
  }

  /** A rebuilding step keeps the values of a resource clean when its parent's are. */
  lemma CleanStep(s: Shape, r: Resource)
    requires Forest(s) && r in s && AllClean(s)
    ensures r.parent != null ==> r.parent in s
    ensures CleanValues(r, s[r], RebuiltIn(s, r))
  {
    ChainFacts(s, r);
    assert Clean(s, r);
    if r.parent != null {
      NearestStep(s[r.parent], r);
      assert Clean(s, r.parent);
    } else {
      NearestStep([], r);
      assert [] + [r] == [r];
    }
  }

  class Resource {
    const resourceType: string
    var config: ResourceConfig
    var cached: Cached
    var parent: Resource?
    var children: seq<Resource>

    constructor (resourceType: string, config: ResourceConfig)
      ensures this.resourceType == resourceType && this.config == config
      ensures Alone(this)
    {
      this.resourceType := resourceType;
      this.config := config;
      children, parent := [], null;
      cached := Cached("", "", "", "", "", "", config.tenancy, if config.tenancy then this else null);
      new;
      SoloFacts(this);
      RebuildPaths(Solo(this));
    }

    function IsServicePart(ghost s: Shape): (r: bool)
      requires Forest(s) && this in s
      reads s.Keys
      ensures s[this] <= s[this] && (forall n | n in s[this] :: n in s)
      ensures r == HasService(s[this])
      decreases |s[this]|
    {
      ChainFacts(s, this);
      if config.service then
        assert s[this][|s[this]| - 1].config.service;
        true
      else if parent != null then
        NearestStep(s[parent], this);
        parent.IsServicePart(s)
      else
        assert s[this] == [this];
        false
    }

    /** Cleanness depends on the flags, which never change, and on the resource's own values. */
    twostate lemma CleanElsewhere(s: Shape)
      requires old(Forest(s)) && Forest(s) && this in s && old(AllClean(s))
      requires forall n | n in s :: n.config.service == old(n.config.service) && n.config.tenancy == old(n.config.tenancy)
      requires forall n | n in s && n != this :: n.cached == old(n.cached)
      requires cached == old(cached) || Clean(s, this)
      ensures AllClean(s)
    {
      forall n | n in s ensures Clean(s, n) {
        ChainFacts(s, n);
        assert old(Clean(s, n));
        assert HasService(s[n]) == old(HasService(s[n]));
        assert HasTenancy(s[n]) == old(HasTenancy(s[n]));
      }
    }

    /** Changing this resource leaves everything that is not below it as fresh as it was. */
    twostate lemma FreshOutside(s: Shape)
      requires old(Forest(s)) && Forest(s) && this in s
      requires forall n | n in s && n != this :: n.config == old(n.config)
      requires forall n | n in s && n !in Below(s, this) :: n.cached == old(n.cached)
      ensures FreshOnes(s) >= old(FreshOnes(s)) - Below(s, this)
    {
      forall n | n in old(FreshOnes(s)) - Below(s, this) ensures n in FreshOnes(s) {
        ChainFacts(s, n);
        assert n.parent == old(n.parent) by { assert LinksOk(s, n) && old(LinksOk(s, n)); }
        assert n.parent != null ==> n.parent !in Below(s, this);
        assert forall m | m in s[n] :: m != this;
        assert HasService(s[n]) == old(HasService(s[n]));
        assert old(Fresh(s, n));
      }
    }

    /** The part of a rebuilding step that concerns the resource itself. */
    method RebuildOwnPaths(ghost s: Shape)
      requires Forest(s) && this in s && AllClean(s)
      modifies this`cached
      ensures AllClean(s)
      ensures FreshOnes(s) >= old(FreshOnes(s)) - Below(s, this) + {this}
    {
      ChainFacts(s, this);
      CleanStep(s, this);
      var prototype, actual := "/" + resourceType, "/" + resourceType;
      if config.hasId {
        prototype := "/:" + resourceType;
        if config.tenancy && config.id == "" {
          actual := prototype;
        } else {
          actual := "/" + config.id;
        }
      }
      var c := cached.(pathPrototype := prototype, actualPath := actual,
                       fullPathPrototype := prototype, fullActualPath := actual);
      if config.service {
        c := c.(servicePathPrototype := prototype, serviceActualPath := actual);
      }
      c := c.(inTenancy := config.tenancy || (parent != null && parent.cached.inTenancy));
      if parent != null {
        c := c.(fullPathPrototype := parent.cached.fullPathPrototype + prototype,
                fullActualPath := parent.cached.fullActualPath + actual);
        var part := IsServicePart(s);
        if part && !config.service {
          c := c.(servicePathPrototype := parent.cached.servicePathPrototype + prototype,
                  serviceActualPath := parent.cached.serviceActualPath + actual);
        }
        if c.inTenancy && !config.tenancy {
          c := c.(tenancyResource := parent.cached.tenancyResource);
        }
      }
      assert c == RebuiltIn(s, this);
      cached := c;
      FreshAndClean(s);
    }

    /** Storing the rebuilt values is harmless. */
    twostate lemma FreshAndClean(s: Shape)
      requires old(Forest(s)) && Forest(s) && this in s && old(AllClean(s))
      requires forall n | n in s :: n.config == old(n.config)
      requires forall n | n in s && n != this :: n.cached == old(n.cached)
      requires cached == old(RebuiltIn(s, this)) && parent == old(parent)
      requires old(CleanValues(this, s[this], RebuiltIn(s, this)))
      ensures AllClean(s)
      ensures FreshOnes(s) >= old(FreshOnes(s)) - Below(s, this) + {this}
    {
      ChainFacts(s, this);
      assert HasService(s[this]) == old(HasService(s[this])) && HasTenancy(s[this]) == old(HasTenancy(s[this]));
      assert Clean(s, this);
      CleanElsewhere(s);
      FreshOutside(s);
      OwnFresh(s);
    }

    /** Rebuilding once more would change nothing. */
    twostate lemma OwnFresh(s: Shape)
      requires old(Forest(s)) && Forest(s) && this in s
      requires config == old(config) && parent == old(parent)
      requires parent != null ==> parent != this && parent.cached == old(parent.cached)
      requires HasService(s[this]) == old(HasService(s[this]))
      requires cached == old(RebuiltIn(s, this))
      ensures this in FreshOnes(s)
    {
      assert Fresh(s, this);
    }

    method RebuildChildren(ghost s: Shape)
      requires Forest(s) && this in s && AllClean(s) && this in FreshOnes(s)
      modifies Below(s, this)`cached
      ensures AllClean(s)
      ensures FreshOnes(s) >= old(FreshOnes(s)) + Below(s, this)
      decreases |Below(s, this)|, 0
    {
      BelowFacts(s, this);
      ghost var kids := children;
      ghost var parts := seq(|kids|, j requires 0 <= j < |kids| => Below(s, kids[j]));
      ghost var done := {this};
      var i := 0;
      while i < |children|
        invariant 0 <= i <= |children|
        invariant AllClean(s)
        invariant FreshOnes(s) >= old(FreshOnes(s)) + done
        invariant Covers(done, parts[..i])
        invariant this in done
      {
        CoverMore(done, parts, i);
        children[i].RebuildPaths(s);
        done := done + parts[i];
        i := i + 1;
      }
      forall n | n in Below(s, this) ensures n in done {
        if n != this {
          var c :| c in kids && n in Below(s, c);
          var j :| 0 <= j < |kids| && kids[j] == c;
          assert parts[..i][j] <= done;
        }
      }
    }

    /** Rebuilds the resource and everything below it.  Nothing that was fresh becomes stale. */
    method RebuildPaths(ghost s: Shape)
      requires Forest(s) && this in s && AllClean(s)
      modifies Below(s, this)`cached
      ensures AllClean(s)
      ensures FreshOnes(s) >= old(FreshOnes(s)) + Below(s, this)
      decreases |Below(s, this)|, 1
    {
      BelowFacts(s, this);
      RebuildOwnPaths(s);
      RebuildChildren(s);
    }

    method SetHasId(ghost s: Shape, val: bool)
      requires Forest(s) && this in s && AllClean(s)
      modifies this`config, Below(s, this)`cached
      ensures config == old(config).(hasId := val)
      ensures AllClean(s)
      ensures FreshOnes(s) >= old(FreshOnes(s)) + Below(s, this)
    {
      config := config.(hasId := val);
      CleanElsewhere(s);
      FreshOutside(s);
      RebuildPaths(s);
    }

    /** A non-empty identifier rebuilds at once, whatever `rebuild` says. */
    method SetId(ghost s: Shape, val: string, rebuild: bool)
      requires Forest(s) && this in s && AllClean(s)
      modifies this`config, Below(s, this)`cached
      ensures config == old(config).(id := val, hasId := old(config).hasId || val != "")
      ensures AllClean(s)
      ensures FreshOnes(s) >= old(FreshOnes(s)) - Below(s, this)
      ensures rebuild || val != "" ==> FreshOnes(s) >= old(FreshOnes(s)) + Below(s, this)
    {
      config := config.(id := val);
      CleanElsewhere(s);
      FreshOutside(s);
      if val != "" { SetHasId(s, true); }
      if rebuild { RebuildPaths(s); }
    }

    method FillOwnId(ghost s: Shape, ids: map<string, string>)
      requires Forest(s) && this in s && AllClean(s)
      modifies this`config, Below(s, this)`cached
      ensures AllClean(s)
      ensures FreshOnes(s) >= old(FreshOnes(s)) - Below(s, this)
      ensures config == Filled(resourceType, old(config), ids)
    {
      if config.hasId && resourceType in ids {
        SetId(s, ids[resourceType], false);
      }
    }

    method ResetOwnId(ghost s: Shape)
      requires Forest(s) && this in s && AllClean(s)
      modifies this`config, Below(s, this)`cached
      ensures AllClean(s)
      ensures FreshOnes(s) >= old(FreshOnes(s)) - Below(s, this)
      ensures config == Emptied(old(config))
    {
      if config.hasId { SetId(s, "", false); }
    }

    /** Climbs to the root assigning identifiers, and rebuilds from there. */
    method FillActualPaths(ghost s: Shape, ids: map<string, string>)
      requires Forest(s) && this in s && AllClean(s)
      requires s[this] != [] && s[this][0] in s
      modifies s[this]`config, Below(s, s[this][0])`cached
      ensures AllClean(s)
      ensures FreshOnes(s) >= Below(s, s[this][0])
      ensures FreshOnes(s) >= old(FreshOnes(s)) - Below(s, s[this][0])
      ensures forall n | n in s[this] :: n.config == Filled(n.resourceType, old(n.config), ids)
      decreases |s[this]|, 1
    {
      ChainFacts(s, this);
      RootAbove(s, this);
      ghost var before := FreshOnes(s);
      FillOwnId(s, ids);
      assert FreshOnes(s) >= before - Below(s, s[this][0]);
      FillAbove(s, ids);
    }

    /** The rest of the climb, or the rebuilding at the root. */
    method FillAbove(ghost s: Shape, ids: map<string, string>)
      requires Forest(s) && this in s && AllClean(s)
      requires s[this] != [] && s[this][0] in s
      modifies s[this]`config, Below(s, s[this][0])`cached
      ensures AllClean(s)
      ensures FreshOnes(s) >= Below(s, s[this][0])
      ensures FreshOnes(s) >= old(FreshOnes(s)) - Below(s, s[this][0])
      ensures config == old(config)
      ensures forall n | n in s[this] && n != this :: n.config == Filled(n.resourceType, old(n.config), ids)
      decreases |s[this]|, 0
    {
      ChainFacts(s, this);
      RootAbove(s, this);
      if parent != null {
        assert s[this][..|s[this]| - 1] == s[parent] && this !in s[parent];
        parent.FillActualPaths(s, ids);
      } else {
        RebuildPaths(s);
      }
    }

    /** With every resource of the chain covered, the cached path is the one the recursive builder
        gives. */
    method FilledPath(ghost s: Shape, ids: map<string, string>) returns (path: string)
      requires Forest(s) && this in s && AllClean(s)
      requires s[this] != [] && s[this][0] in s
      requires forall n | n in s[this] :: Covered(n.resourceType, n.config, ids)
      modifies s[this]`config, Below(s, s[this][0])`cached
      ensures path == cached.fullActualPath == BuildActualPath(s, ids, false)
      ensures cached.serviceActualPath == BuildActualPath(s, ids, true) <==> OneService(s[this])
    {
      FillActualPaths(s, ids);
      path := cached.fullActualPath;
      RootAbove(s, this);
      forall n | n in s[this] ensures ActualSegment(n.resourceType, n.config) == BuiltSegment(n.resourceType, n.config, ids) {
        CoveredExactly(n.resourceType, old(n.config), ids);
      }
      FastPathIsRecursive(s, this, ids);
    }

    method ResetIds(ghost s: Shape)
      requires Forest(s) && this in s && AllClean(s)
      requires s[this] != [] && s[this][0] in s
      modifies s[this]`config, Below(s, s[this][0])`cached
      ensures AllClean(s)
      ensures FreshOnes(s) >= Below(s, s[this][0])
      ensures FreshOnes(s) >= old(FreshOnes(s)) - Below(s, s[this][0])
      ensures forall n | n in s[this] ::
                if old(n.config.hasId) then n.config == old(n.config).(id := "") else n.config == old(n.config)
      decreases |s[this]|
    {
      ChainFacts(s, this);
      RootAbove(s, this);
      ghost var before := FreshOnes(s);
      ResetOwnId(s);
      assert FreshOnes(s) >= before - Below(s, s[this][0]);
      if parent != null {
        assert s[this][..|s[this]| - 1] == s[parent] && this !in s[parent];
        parent.ResetIds(s);
      } else {
        RebuildPaths(s);
      }
      forall n | n in s[this]
        ensures if old(n.config.hasId) then n.config == old(n.config).(id := "") else n.config == old(n.config) {
        if n != this { assert parent != null && n in s[parent]; }
      }
    }

    /** The path built by climbing, without the cached values. */
    function BuildActualPath(ghost s: Shape, ids: map<string, string>, service: bool): (path: string)
      requires Forest(s) && this in s
      reads s.Keys
      decreases |s[this]|
    {
      ChainFacts(s, this);
      if service && !IsServicePart(s) then ""
      else
        var path :=
          if config.hasId then (if resourceType in ids then "/" + ids[resourceType] else "/")
          else "/" + resourceType;
        if parent != null then
          var parentPath := parent.BuildActualPath(s, ids, service);
          if parentPath != "" then parentPath + path else path
        else path
    }

    /** `SetParent` on the child is part of this method: between the two assignments the pointers do
        not form a forest. */
    method Attach(ghost s: Shape, child: Resource) returns (ghost t: Shape)
      requires Forest(s) && this in s && child in s && AllClean(s)
      requires child.parent == null && child !in s[this]
      modifies this`children, child`parent
      ensures children == old(children) + [child] && child.parent == this
      ensures t == Grafted(s, this, child)
      ensures Forest(t) && AllClean(t) && Below(t, child) == Below(s, child)
      ensures FreshOnes(t) >= old(FreshOnes(s)) - Below(s, child)
    {
      t := Grafted(s, this, child);
      ChainFacts(s, child);
      AllChainFacts(s);
      children := children + [child];
      child.parent := this;
      child.GraftedForest(s);
      child.GraftedClean(s);
      child.GraftedFresh(s);
    }

    method AddChild(ghost s: Shape, child: Resource, rebuild: bool) returns (ghost t: Shape)
      requires Forest(s) && this in s && child in s && AllClean(s)
      requires child.parent == null && child !in s[this]
      modifies this`children, child`parent, Below(s, child)`cached
      ensures children == old(children) + [child] && child.parent == this
      ensures t == Grafted(s, this, child)
      ensures Forest(t) && AllClean(t)
      ensures FreshOnes(t) >= old(FreshOnes(s)) - Below(s, child)
      ensures rebuild ==> FreshOnes(t) >= old(FreshOnes(s)) + Below(s, child)
    {
      t := Attach(s, child);
      if rebuild { child.RebuildPaths(t); }
    }

    /** A childless copy without a parent. */
    method Clone() returns (r: Resource)
      ensures fresh(r) && r.resourceType == resourceType && r.config == config
      ensures Alone(r)
    {
      r := new Resource(resourceType, config);
      if config.hasId { r.SetSoloId(config.id); }
    }

    method SetSoloId(val: string)
      requires Alone(this)
      modifies this`config, this`cached
      ensures Alone(this)
      ensures config == old(config).(id := val, hasId := old(config).hasId || val != "")
    {
      assert Below(Solo(this), this) == {this};
      SetId(Solo(this), val, true);
    }

    /** Copies the resource and the chain above it.  There is no modifies clause: the original tree
        does not change. */
    method CloneChain(ghost s: Shape) returns (r: Resource, ghost t: Shape)
      requires Forest(s) && this in s
      ensures r in t && fresh(t.Keys)
      ensures Forest(t) && Settled(t)
      ensures Copies(t[r], s[this]) && t.Keys == set n | n in t[r]
    {
      var top;
      r, top, t := CopyChain(s);
      CopiedIsWhole(t, r, top, s[this]);
      top.RebuildWhole(t);
    }

    /** Rebuilding from the only root settles everything. */
    method RebuildWhole(ghost t: Shape)
      requires Forest(t) && this in t && AllClean(t) && Below(t, this) == t.Keys
      modifies t.Keys`cached
      ensures Settled(t)
    {
      RebuildPaths(t);
    }

    method CopyChain(ghost s: Shape) returns (r: Resource, top: Resource, ghost t: Shape)
      requires Forest(s) && this in s
      ensures fresh(t.Keys) && CopiedBelow(t, r, top, s[this])
    {
      ClimbStart(s, this);
      r := CloneAlone();
      top, t := r, Solo(r);
      var p := parent;
      ghost var made := {r};
      ghost var below: Chain := [this];
      while p != null
        invariant Climbed(s, s[this], p, below)
        invariant fresh(made) && t.Keys <= made
        invariant CopiedBelow(t, r, top, below)
        decreases if p == null then 0 else |s[p]|
      {
        ClimbFacts(s, s[this], p, below);
        var next := p.parent;
        top, t := p.CloneAbove(t, r, top, below, made);
        made, below := made + {top}, [p] + below;
        p := next;
      }
    }

    method CloneAlone() returns (r: Resource)
      ensures fresh(r) && CopiedBelow(Solo(r), r, r, [this])
    {
      r := Clone();
      SoloCopied(r, this);
    }

    /** One step of the climb: a copy of this resource above the copies made so far. */
    method CloneAbove(ghost t: Shape, ghost r: Resource, top: Resource, ghost chain: Chain, ghost made: set<Resource>)
      returns (pc: Resource, ghost u: Shape)
      requires CopiedBelow(t, r, top, chain) && t.Keys <= made && this !in made
      modifies made`parent, made`children, made`cached
      ensures fresh(pc) && u.Keys <= made + {pc}
      ensures CopiedBelow(u, r, pc, [this] + chain)
    {
      CopiedIsWhole(t, r, top, chain);
      pc := Clone();
      JoinForests(t, pc);
      u := pc.AddChild(t[pc := [pc]], top, false);
      assert Copies(t[r], chain);
      CopiedAbove(t, u, r, top, pc, chain, this);
    }

    method SetSettledId(ghost t: Shape, id: string)
      requires Forest(t) && Settled(t) && this in t
      modifies this`config, Below(t, this)`cached
      ensures Settled(t)
      ensures config == old(config).(id := id, hasId := old(config).hasId || id != "")
    {
      ghost var all := FreshOnes(t);
      SetId(t, id, true);
      assert FreshOnes(t) >= all;
    }

    method Rename(ghost t: Shape, id: string, ghost original: Chain)
      requires Forest(t) && Settled(t) && this in t && Copies(t[this], original) && this !in original
      modifies this`config, Below(t, this)`cached
      ensures Settled(t) && NamedLike(t[this], original, id)
    {
      ChainFacts(t, this);
      ghost var n := |original| - 1;
      ghost var copy, above := t[this][..n], original[..n];
      assert Copies(copy, above) && this !in copy && this !in above;
      SetSettledId(t, id);
      assert Copies(copy, above);
    }

    /** A copy of the chain whose last resource has the identifier `resourceId`. */
    method NamedCopy(ghost s: Shape, resourceId: string) returns (named: Resource, ghost t: Shape)
      requires Forest(s) && this in s
      ensures named in t && fresh(t.Keys) && Forest(t) && Settled(t)
      ensures NamedLike(t[named], s[this], resourceId)
    {
      ChainFacts(s, this);
      named, t := CloneChain(s);
      named.Rename(t, resourceId, s[this]);
    }

    /** A resource below a renamed copy of this one; `named` is the copied chain.  There is no modifies
        clause: the original tree does not change. */
    method NamedSubresource(ghost s: Shape, resourceId: string, subResourceName: string, subResourceId: string)
      returns (sub: Resource, ghost named: Chain, ghost u: Shape)
      requires Forest(s) && this in s
      ensures sub in u && Forest(u) && Settled(u) && u[sub] == named + [sub]
      ensures sub.resourceType == subResourceName && sub.config.id == subResourceId
      ensures (sub.config.hasId <==> subResourceId != "") && !sub.config.service && !sub.config.tenancy
      ensures NamedLike(named, s[this], resourceId)
    {
      ghost var t;
      var namedResource;
      namedResource, t := NamedCopy(s, resourceId);
      named := t[namedResource];
      sub, u := namedResource.NewChild(t, subResourceName, subResourceId);
    }

    static method NewNamed(resourceName: string, resourceId: string) returns (sub: Resource)
      ensures fresh(sub) && Alone(sub) && sub.resourceType == resourceName && sub.config == Named(resourceId)
    {
      sub := new Resource(resourceName, ResourceConfig("", false, false, "", false));
      sub.SetSoloId(resourceId);
    }

    static method NewBeside(ghost s: Shape, resourceName: string, resourceId: string) returns (sub: Resource)
      requires Forest(s) && Settled(s)
      ensures fresh(sub) && Forest(s[sub := [sub]]) && Settled(s[sub := [sub]]) && sub.parent == null
      ensures sub.resourceType == resourceName && sub.config == Named(resourceId)
    {
      sub := NewNamed(resourceName, resourceId);
      JoinForests(s, sub);
    }

    method NewChild(ghost s: Shape, resourceName: string, resourceId: string) returns (sub: Resource, ghost t: Shape)
      requires Forest(s) && this in s && Settled(s)
      modifies this`children
      ensures fresh(sub) && t == s[sub := s[this] + [sub]]
      ensures sub.resourceType == resourceName && sub.config == Named(resourceId)
      ensures Forest(t) && Settled(t)
    {
      sub := NewBeside(s, resourceName, resourceId);
      GraftNew(s, this, sub);
      t := AddChild(s[sub := [sub]], sub, true);
    }

    /** The pointers form the new forest after this resource, a root, got a parent. */
    twostate lemma GraftedForest(s: Shape)
      requires old(Forest(s)) && this in s && old(parent) == null
      requires parent != null && parent in s && this !in s[parent]
      requires var r := parent; r.children == old(r.children) + [this]
      requires forall n | n in s && n != parent :: n.children == old(n.children)
      requires forall n | n in s && n != this :: n.parent == old(n.parent)
      ensures Forest(Grafted(s, parent, this))
    {
      var t := Grafted(s, parent, this);
      assert old(LinksOk(s, this)) && ChainOk(s, this);
      assert s[this] == [this];
      assert forall n {:trigger ChainOk(s, n)} | n in s :: ChainOk(s, n);
      GraftedChains(s, parent, this);
      forall n | n in t ensures LinksOk(t, n) {
        assert old(LinksOk(s, n));
        GraftedLinks(s, parent, this, n, old(n.children), old(n.parent));
      }
    }

    /** Longer chains cannot make a resource unclean. */
    twostate lemma GraftedClean(s: Shape)
      requires old(Forest(s)) && this in s && parent != null && parent in s
      requires forall n, m | n in s && m in s[n] :: m in s
      requires Forest(Grafted(s, parent, this))
      requires old(AllClean(s))
      requires forall n | n in s :: n.config == old(n.config) && n.cached == old(n.cached)
      ensures AllClean(Grafted(s, parent, this))
    {
      var t := Grafted(s, parent, this);
      forall n | n in t ensures Clean(t, n) {
        assert old(Clean(s, n));
        LongerChain(s[parent], s[n]);
        assert HasService(s[n]) == old(HasService(s[n]));
        assert HasTenancy(s[n]) == old(HasTenancy(s[n]));
      }
    }

    /** Hanging this resource elsewhere leaves the values above and beside it alone. */
    twostate lemma GraftedFresh(s: Shape)
      requires old(Forest(s)) && this in s && parent != null && parent in s
      requires forall n, m | n in s && m in s[n] :: m in s
      requires Forest(Grafted(s, parent, this))
      requires forall n | n in s && n != this :: n.parent == old(n.parent)
      requires forall n | n in s :: n.config == old(n.config) && n.cached == old(n.cached)
      requires this in s[this]
      requires forall n | n in s && old(n.parent) != null :: old(n.parent) in s
      ensures FreshOnes(Grafted(s, parent, this)) >= old(FreshOnes(s)) - Below(s, this)
    {
      var t := Grafted(s, parent, this);
      forall n | n in old(FreshOnes(s)) - Below(s, this) ensures n in FreshOnes(t) {
        assert old(Fresh(s, n)) && t[n] == s[n] && n != this;
        assert HasService(s[n]) == old(HasService(s[n]));
        assert RebuiltIn(t, n) == old(RebuiltIn(s, n));
      }
    }
  }

  /** A copy of a chain whose last resource got the identifier `id`. */
  ghost predicate NamedLike(a: Chain, b: Chain, id: string)
    reads a`config, b`config
  {
    && |a| == |b| && a != [] && Copies(a[..|a| - 1], b[..|b| - 1])
    && RenamedLike(a[|a| - 1], b[|b| - 1], id)
  }

  ghost predicate RenamedLike(x: Resource, y: Resource, id: string)
    reads x`config, y`config
  {
    x.resourceType == y.resourceType && x.config == y.config.(id := id, hasId := y.config.hasId || id != "")
  }

  /** The configuration of a resource made for one identifier. */
  function Named(id: string): ResourceConfig {
    ResourceConfig("", id != "", false, id, false)
  }

  /** The same types and configurations in the same order. */
  ghost predicate Copies(a: Chain, b: Chain)
    reads a`config, b`config
    decreases |a|
  {
    && |a| == |b|
    && (a == [] ||
        var x, y := a[|a| - 1], b[|b| - 1];
        x.resourceType == y.resourceType && x.config == y.config && Copies(a[..|a| - 1], b[..|b| - 1]))
  }

  /** Copied chains have the same full paths. */
  lemma {:induction false} CopiesMean(a: Chain, b: Chain)
    requires Copies(a, b)
    ensures FullPrototype(a) == FullPrototype(b) && FullActual(a) == FullActual(b)
    decreases |a|
  {
    if a != [] { CopiesMean(a[..|a| - 1], b[..|b| - 1]); }
  }

  lemma {:induction false} CopiesMore(a: Chain, b: Chain, x: Resource, y: Resource)
    requires Copies(a, b) && x.resourceType == y.resourceType && x.config == y.config
    ensures Copies([x] + a, [y] + b)
    decreases |a|
  {
    if a != [] {
      CopiesMore(a[..|a| - 1], b[..|b| - 1], x, y);
      assert ([x] + a)[..|a|] == [x] + a[..|a| - 1];
      assert ([y] + b)[..|b|] == [y] + b[..|b| - 1];
    }
  }

  /** `r` is the copy at the lower end, `top` the one at the upper end, and nothing else is in `t`. */
  ghost predicate CopiedBelow(t: Shape, r: Resource, top: Resource, chain: Chain)
    reads t.Keys, (if r in t then t[r] else []), chain
  {
    && r in t && top in t && Forest(t) && AllClean(t)
    && t[r] != [] && t[r][0] == top && t[top] == [top] && top.parent == null
    && Copies(t[r], chain)
    && t.Keys == set n | n in t[r]
  }

  /** A copy has been hung above the copies made so far. */
  lemma CopiedAbove(t: Shape, u: Shape, r: Resource, top: Resource, pc: Resource, chain: Chain, x: Resource)
    requires r in t && top in t && pc !in t && t[r] != [] && t[r][0] == top && t[top] == [top]
    requires t.Keys == (set n | n in t[r]) && (forall n | n in t :: top in t[n])
    requires u == Grafted(t[pc := [pc]], pc, top) && Forest(u) && AllClean(u) && pc.parent == null
    requires Copies(t[r], chain) && pc.resourceType == x.resourceType && pc.config == x.config
    ensures CopiedBelow(u, r, pc, [x] + chain) && u.Keys == t.Keys + {pc}
  {
    CopiesMore(t[r], chain, pc, x);
    assert u[r] == [pc] + t[r] && u[pc] == [pc];
  }

  lemma CopiedIsWhole(t: Shape, r: Resource, top: Resource, chain: Chain)
    requires CopiedBelow(t, r, top, chain)
    ensures Below(t, top) == t.Keys
  {
    forall n | n in t ensures top in t[n] {
      PrefixFacts(t, r, n);
      ChainFacts(t, n);
      assert t[n][0] == top;
    }
  }

  ghost function Solo(r: Resource): Shape {
    map[r := [r]]
  }

  /** A resource without parent and children, a settled forest of its own. */
  ghost predicate Alone(r: Resource)
    reads r
  {
    && r.parent == null && r.children == []
    && Forest(Solo(r)) && Settled(Solo(r))
  }

  lemma SoloFacts(r: Resource)
    requires r.parent == null && r.children == []
    ensures Forest(Solo(r)) && Below(Solo(r), r) == {r}
    ensures r.cached == Cached("", "", "", "", "", "", r.config.tenancy, if r.config.tenancy then r else null) ==> AllClean(Solo(r))
  {
    assert ChainOk(Solo(r), r) && LinksOk(Solo(r), r);
    NearestStep([], r);
    assert [] + [r] == [r];
  }

  lemma SoloCopied(r: Resource, sample: Resource)
    requires Alone(r) && r.resourceType == sample.resourceType && r.config == sample.config
    ensures CopiedBelow(Solo(r), r, r, [sample])
  {}

  lemma GraftNew(s: Shape, r: Resource, sub: Resource)
    requires Forest(s) && r in s && sub !in s
    ensures sub !in s[r]
    ensures Grafted(s[sub := [sub]], r, sub) == s[sub := s[r] + [sub]]
    ensures Below(s[sub := [sub]], sub) == {sub}
  {
    forall n | n in s ensures sub !in s[n] { ChainFacts(s, n); }
  }

  /** Two forests side by side, the second a single resource. */
  lemma JoinForests(s: Shape, r: Resource)
    requires Forest(s) && AllClean(s) && r !in s
    requires Alone(r)
    ensures Forest(s[r := [r]]) && AllClean(s[r := [r]])
    ensures FreshOnes(s[r := [r]]) >= FreshOnes(s) + {r}
    ensures Settled(s) ==> Settled(s[r := [r]])
  {
    var one, t := Solo(r), s[r := [r]];
    assert ChainOk(one, r) && LinksOk(one, r) && Clean(one, r) && r in FreshOnes(one);
    forall n | n in t ensures ChainOk(t, n) && LinksOk(t, n) {
      if n != r {
        assert ChainOk(s, n) && LinksOk(s, n);
      } else {
        forall c | c in t && t[c] == t[r] + [c] ensures false {
          ChainFacts(s, c);
        }
      }
    }
    forall n | n in t ensures Clean(t, n) { assert n != r ==> Clean(s, n); }
    forall n | n in FreshOnes(s) + {r} ensures n in FreshOnes(t) { assert n != r ==> Fresh(s, n); }
  }

  /** The configuration of a resource after `FillActualPaths` has visited it. */
  function Filled(resourceType: string, config: ResourceConfig, ids: map<string, string>): ResourceConfig {
    if config.hasId && resourceType in ids then config.(id := ids[resourceType]) else config
  }

  /** The configuration after `ResetIds`. */
  function Emptied(config: ResourceConfig): ResourceConfig {
    if config.hasId then config.(id := "") else config
  }

  function BuiltSegment(resourceType: string, config: ResourceConfig, ids: map<string, string>): string {
    if !config.hasId then "/" + resourceType else if resourceType in ids then "/" + ids[resourceType] else "/"
  }

  /** Every resource with an identifier is named in the map, a tenancy by a non-empty one; a resource
      that is not named has an empty identifier and is not a tenancy. */
  predicate Covered(resourceType: string, config: ResourceConfig, ids: map<string, string>) {
    config.hasId ==>
      if resourceType in ids then config.tenancy ==> ids[resourceType] != ""
      else config.id == "" && !config.tenancy
  }

  /** `Covered` is exactly the condition under which a filled resource has the segment that the
      recursive builder gives it. */
  lemma CoveredExactly(resourceType: string, config: ResourceConfig, ids: map<string, string>)
    ensures Covered(resourceType, config, ids) <==>
              ActualSegment(resourceType, Filled(resourceType, config, ids))
              == BuiltSegment(resourceType, Filled(resourceType, config, ids), ids)
  {
    var f := Filled(resourceType, config, ids);
    assert |"/:" + resourceType| == 2 + |resourceType|;
    if config.hasId && f.tenancy && f.id == "" {
      assert ActualSegment(resourceType, f) != "/" by { assert |ActualSegment(resourceType, f)| >= 2; }
    } else if config.hasId && resourceType !in ids {
      assert |"/" + f.id| == 1 + |f.id|;
    }
  }

  ghost function FullBuilt(chain: Chain, ids: map<string, string>): string
    reads chain`config
    decreases |chain|
  {
    if chain == [] then ""
    else
      var last := chain[|chain| - 1];
      FullBuilt(chain[..|chain| - 1], ids) + BuiltSegment(last.resourceType, last.config, ids)
  }

  ghost predicate SegmentsAgree(chain: Chain, ids: map<string, string>)
    reads chain`config
  {
    forall n | n in chain :: ActualSegment(n.resourceType, n.config) == BuiltSegment(n.resourceType, n.config, ids)
  }

  lemma {:induction false} SameFold(chain: Chain, ids: map<string, string>)
    requires SegmentsAgree(chain, ids)
    ensures FullActual(chain) == FullBuilt(chain, ids)
    decreases |chain|
  {
    if chain != [] {
      SameFold(chain[..|chain| - 1], ids);
    }
  }

  ghost predicate FirstService(chain: Chain, k: nat)
    reads chain`config
  {
    k < |chain| && chain[k].config.service && forall j | 0 <= j < k :: !chain[j].config.service
  }

  lemma BuiltStep(chain: Chain, r: Resource, ids: map<string, string>)
    ensures FullBuilt(chain + [r], ids) == FullBuilt(chain, ids) + BuiltSegment(r.resourceType, r.config, ids)
    ensures FullBuilt(chain + [r], ids) != ""
  {
    assert (chain + [r])[..|chain|] == chain;
  }

  /** Without the service flag the builder folds the whole chain. */
  lemma {:induction false} BuildFolds(s: Shape, r: Resource, ids: map<string, string>)
    requires Forest(s) && r in s
    ensures r.BuildActualPath(s, ids, false) == FullBuilt(s[r], ids) != ""
    decreases |s[r]|
  {
    ChainFacts(s, r);
    if r.parent == null {
      BuiltStep([], r, ids);
      assert [] + [r] == [r];
    } else {
      BuildFolds(s, r.parent, ids);
      BuiltStep(s[r.parent], r, ids);
    }
  }

  lemma BuildStep(s: Shape, r: Resource, ids: map<string, string>)
    requires Forest(s) && r in s
    ensures var up := if r.parent == null || r.parent !in s then "" else r.parent.BuildActualPath(s, ids, true);
            r.BuildActualPath(s, ids, true) ==
              if HasService(s[r]) then up + BuiltSegment(r.resourceType, r.config, ids) else ""
  {
    ChainFacts(s, r);
  }

  /** With the service flag it folds the part of the chain from the first service on. */
  lemma {:induction false} BuildServiceFolds(s: Shape, r: Resource, ids: map<string, string>, up: Chain, down: Chain)
    requires Forest(s) && r in s && s[r] == up + down
    requires !HasService(up) && down != [] && down[0].config.service
    ensures r.BuildActualPath(s, ids, true) == FullBuilt(down, ids)
    decreases |s[r]|
  {
    ChainFacts(s, r);
    BuildStep(s, r, ids);
    assert s[r][|up|].config.service;
    var n := |down| - 1;
    BuiltStep(down[..n], r, ids);
    assert down == down[..n] + [r];
    if n == 0 {
      if r.parent != null {
        assert s[r.parent] == up;
        BuildStep(s, r.parent, ids);
      }
    } else {
      assert s[r.parent] == up + down[..n];
      BuildServiceFolds(s, r.parent, ids, up, down[..n]);
    }
  }

  lemma {:induction false} LongerFold(chain: Chain, k: nat)
    requires k <= |chain|
    ensures |FullActual(chain)| >= |FullActual(chain[k..])| + k
    decreases |chain|
  {
    if k < |chain| {
      var shorter := chain[..|chain| - 1];
      LongerFold(shorter, k);
      assert chain[k..][..|chain[k..]| - 1] == shorter[k..];
    } else {
      LengthFold(chain);
    }
  }

  lemma {:induction false} LengthFold(chain: Chain)
    ensures |FullActual(chain)| >= |chain|
    decreases |chain|
  {
    if chain != [] { LengthFold(chain[..|chain| - 1]); }
  }

  ghost predicate OneService(chain: Chain)
    reads chain`config
  {
    forall j, k | 0 <= j < k < |chain| :: !(chain[j].config.service && chain[k].config.service)
  }

  /** When the segments agree, the cached full path is the recursive one, and the cached service
      path is the recursive one exactly when there is at most one service on the chain: with two
      the recursive path starts at the topmost and the cached one at the nearest. */
  lemma FastPathIsRecursive(s: Shape, r: Resource, ids: map<string, string>)
    requires Forest(s) && r in s && AllClean(s)
    requires forall n | n in s[r] :: n in FreshOnes(s)
    requires SegmentsAgree(s[r], ids)
    ensures r.cached.fullActualPath == r.BuildActualPath(s, ids, false)
    ensures r.cached.serviceActualPath == r.BuildActualPath(s, ids, true) <==> OneService(s[r])
  {
    FreshMeans(s, r);
    BuildFolds(s, r, ids);
    SameFold(s[r], ids);
    BuildStep(s, r, ids);
    if HasService(s[r]) {
      var first, last := FindServices(s[r]);
      BuiltFromFirst(s, r, ids, first);
      TailsDiffer(s[r], first, last);
    }
  }

  lemma BuiltFromFirst(s: Shape, r: Resource, ids: map<string, string>, first: nat)
    requires Forest(s) && r in s && FirstService(s[r], first) && SegmentsAgree(s[r], ids)
    ensures r.BuildActualPath(s, ids, true) == FullActual(s[r][first..])
  {
    var up, down := s[r][..first], s[r][first..];
    assert s[r] == up + down;
    BuildServiceFolds(s, r, ids, up, down);
    SameFold(down, ids);
  }

  lemma TailsDiffer(chain: Chain, first: nat, last: nat)
    requires first <= last <= |chain|
    ensures FullActual(chain[first..]) == FullActual(chain[last..]) <==> first == last
  {
    if first < last { LongerTail(chain[first..], last - first, chain[last..]); }
  }

  lemma LongerTail(chain: Chain, k: nat, tail: Chain)
    requires 0 < k <= |chain| && |tail| == |chain| - k && forall m | 0 <= m < |tail| :: tail[m] == chain[k + m]
    ensures |FullActual(tail)| < |FullActual(chain)|
  {
    assert tail == chain[k..];
    LongerFold(chain, k);
  }

  lemma FindServices(chain: Chain) returns (first: nat, last: nat)
    requires HasService(chain)
    ensures FirstService(chain, first) && NearestService(chain, last) && first <= last
    ensures OneService(chain) <==> first == last
  {
    var k :| 0 <= k < |chain| && chain[k].config.service;
    first, last := k, k;
    while exists j :: 0 <= j < first && chain[j].config.service
      invariant first <= k < |chain| && chain[first].config.service
      decreases first
    {
      var j :| 0 <= j < first && chain[j].config.service;
      first := j;
    }
    while exists j :: last < j < |chain| && chain[j].config.service
      invariant first <= last < |chain| && chain[last].config.service
      decreases |chain| - last
    {
      var j :| last < j < |chain| && chain[j].config.service;
      last := j;
    }
  }

  /** The shape after `child`, a root, has been hung below `r`. */
  ghost function Grafted(s: Shape, r: Resource, child: Resource): Shape
    requires r in s
  {
    map n | n in s :: if child in s[n] then s[r] + s[n] else s[n]
  }

  lemma LongerChain(a: Chain, b: Chain)
    ensures HasService(b) ==> HasService(a + b)
    ensures HasTenancy(b) ==> HasTenancy(a + b)
  {
    forall k | 0 <= k < |b| ensures (a + b)[|a| + k] == b[k] {}
  }

  lemma GraftedChains(s: Shape, r: Resource, child: Resource)
    requires r in s && child in s && s[child] == [child] && child !in s[r]
    requires forall n {:trigger ChainOk(s, n)} | n in s :: ChainOk(s, n)
    ensures forall n {:trigger ChainOk(Grafted(s, r, child), n)} | n in s :: ChainOk(Grafted(s, r, child), n)
  {
    var t := Grafted(s, r, child);
    forall n | n in t ensures ChainOk(t, n) {
      assert ChainOk(s, n);
      forall k | 0 <= k < |t[n]| ensures t[n][k] in t && t[t[n][k]] == t[n][..k + 1] {
        GraftedChainAt(s, r, child, n, k);
      }
    }
  }

  lemma GraftedChainAt(s: Shape, r: Resource, child: Resource, n: Resource, k: nat)
    requires r in s && child in s && s[child] == [child] && child !in s[r]
    requires n in s && ChainOk(s, n) && ChainOk(s, r)
    requires k < |Grafted(s, r, child)[n]|
    ensures var t := Grafted(s, r, child); t[n][k] in t && t[t[n][k]] == t[n][..k + 1]
  {
    var t := Grafted(s, r, child);
    if child !in s[n] {
      var m := s[n][k];
      assert s[m] == s[n][..k + 1];
      assert child !in s[n][..k + 1];
    } else if k < |s[r]| {
      var m := s[r][k];
      assert s[m] == s[r][..k + 1];
      assert child !in s[r][..k + 1];
      assert t[n][..k + 1] == s[r][..k + 1];
    } else {
      RootFirst(s, n, child);
      var m := s[n][k - |s[r]|];
      assert s[m] == s[n][..k - |s[r]| + 1];
      assert s[m][0] == child;
      assert t[n][..k + 1] == s[r] + s[m];
    }
  }

  /** A root can only be the first resource of a chain. */
  lemma RootFirst(s: Shape, n: Resource, root: Resource)
    requires n in s && ChainOk(s, n) && root in s && s[root] == [root] && root in s[n]
    ensures s[n][0] == root
  {
    var k :| 0 <= k < |s[n]| && s[n][k] == root;
    assert |s[n][..k + 1]| == 1;
  }

  lemma GraftedPrevious(s: Shape, r: Resource, child: Resource, n: Resource)
    requires r in s && child in s && s[child] == [child] && child !in s[r]
    requires n in s && ChainOk(s, n) && ChainOk(s, r)
    ensures var t := Grafted(s, r, child)[n];
            && |t| > 0
            && (if n == child then |t| >= 2 && t[|t| - 2] == r
                else if |s[n]| < 2 then t == s[n]
                else |t| >= 2 && t[|t| - 2] == s[n][|s[n]| - 2])
  {
    if n != child && child in s[n] { RootFirst(s, n, child); }
  }

  lemma GraftedLinks(s: Shape, r: Resource, child: Resource, n: Resource, children: seq<Resource>, parent: Resource?)
    requires r in s && child in s && s[child] == [child] && child !in s[r] && n in s
    requires forall m {:trigger ChainOk(s, m)} | m in s :: ChainOk(s, m)
    requires parent == (if |s[n]| < 2 then null else s[n][|s[n]| - 2])
    requires forall c | c in children :: c in s && s[c] == s[n] + [c]
    requires forall c | c in s && s[c] == s[n] + [c] :: c in children
    requires n.parent == (if n == child then r else parent)
    requires n.children == (if n == r then children + [child] else children)
    ensures LinksOk(Grafted(s, r, child), n)
  {
    assert ChainOk(s, n) && ChainOk(s, r);
    GraftedPrevious(s, r, child, n);
    GraftedChildren(s, r, child, n);
  }

  lemma GraftedChildren(s: Shape, r: Resource, child: Resource, n: Resource)
    requires r in s && child in s && s[child] == [child] && child !in s[r] && n in s
    requires forall m {:trigger ChainOk(s, m)} | m in s :: ChainOk(s, m)
    ensures var t := Grafted(s, r, child);
      forall c | c in s :: t[c] == t[n] + [c] <==> if c == child then n == r else s[c] == s[n] + [c]
  {
    forall c | c in s
      ensures var t := Grafted(s, r, child); t[c] == t[n] + [c] <==> if c == child then n == r else s[c] == s[n] + [c]
    {
      assert ChainOk(s, c) && ChainOk(s, n) && ChainOk(s, r);
      GraftedChild(s, r, child, n, c);
    }
  }

  /** Who hangs below whom. */
  lemma GraftedChild(s: Shape, r: Resource, child: Resource, n: Resource, c: Resource)
    requires r in s && child in s && s[child] == [child] && child !in s[r]
    requires n in s && c in s && ChainOk(s, n) && ChainOk(s, c) && ChainOk(s, r)
    ensures Grafted(s, r, child)[c] == Grafted(s, r, child)[n] + [c] <==>
              if c == child then n == r else s[c] == s[n] + [c]
  {
    var t := Grafted(s, r, child);
    if c == child {
      assert t[c] == s[r] + [child];
      if t[c] == t[n] + [c] {
        assert t[n] == t[c][..|t[c]| - 1] == s[r];
        assert s[n][|s[n]| - 1] == n;
      }
    } else {
      GraftedOther(s[r], s[n], s[c], child, c);
    }
  }

  lemma GraftedOther(base: Chain, a: Chain, b: Chain, child: Resource, c: Resource)
    requires child !in base && c != child
    ensures var up := if child in a then base + a else a;
            var down := if child in b then base + b else b;
            down == up + [c] <==> b == a + [c]
  {
    var up := if child in a then base + a else a;
    var down := if child in b then base + b else b;
    if down == up + [c] {
      assert child in a <==> child in up;
      assert child in b <==> child in down;
      assert child in up + [c] <==> child in up;
      if child in b {
        assert b == down[|base|..] && a == up[|base|..];
      }
    }
    if b == a + [c] {
      assert child in b <==> child in a;
      assert (base + a) + [c] == base + (a + [c]);
    }
  }
}
