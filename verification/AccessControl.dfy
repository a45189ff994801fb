/** The search for an access rule (pkg/access_control/access_control.go).

    Rules are looked up for the paths of a resource, the most specific path first; for each path
    with the tags of that path and then of the paths above it, the empty tag after each; for each
    tag with the roles of the subject.  The triple nested loop is compared with the position of the
    first rule in that order. */
module AccessControl {
  import opened Prelude

  type Mask = bv32

  predicate Grants(mask: Mask, access: Mask) {
    mask & access != 0
  }

  /** What the lookup of a rule answers: nothing, an error, or the access a rule grants. */
  datatype Answer = Miss | Failed(error: string) | Found(rule: Mask)

  /** path, tag, role */
  type Lookup = (string, string, string) -> Answer

  datatype Search = Search(paths: seq<string>, tags: seq<seq<string>>, roles: seq<string>)

  ghost predicate Complete(s: Search) {
    |s.tags| == |s.paths|
  }

  datatype Position = Position(path: nat, level: nat, tag: nat, role: nat)

  /** The tag after the last one of a level is the empty one. */
  ghost predicate Valid(s: Search, p: Position)
    requires Complete(s)
  {
    p.level <= p.path < |s.paths| && p.tag <= |s.tags[p.level]| && p.role < |s.roles|
  }

  ghost predicate Before(p: Position, q: Position) {
    || p.path > q.path
    || (p.path == q.path && (|| p.level > q.level
                             || (p.level == q.level && (|| p.tag < q.tag
                                                        || (p.tag == q.tag && p.role < q.role)))))
  }

  function TagAt(s: Search, level: nat, tag: nat): string
    requires Complete(s) && level < |s.tags| && tag <= |s.tags[level]|
  {
    (s.tags[level] + [""])[tag]
  }

  function Ask(find: Lookup, s: Search, p: Position): Answer
    requires Complete(s) && Valid(s, p)
  {
    find(s.paths[p.path], TagAt(s, p.level, p.tag), s.roles[p.role])
  }

  /** A position asks for its path, its role and its own tag, or the empty tag after the last one. */
  lemma AskMeans(find: Lookup, s: Search, p: Position)
    requires Complete(s) && Valid(s, p)
    ensures var tags := s.tags[p.level];
      Ask(find, s, p) == find(s.paths[p.path], if p.tag == |tags| then "" else tags[p.tag], s.roles[p.role])
  {}

  ghost predicate AllValid(s: Search, ps: seq<Position>)
    requires Complete(s)
  {
    forall k | 0 <= k < |ps| :: Valid(s, ps[k])
  }

  function FirstHit(find: Lookup, s: Search, ps: seq<Position>): Answer
    requires Complete(s) && AllValid(s, ps)
  {
    if ps == [] then Miss
    else if Ask(find, s, ps[0]) != Miss then Ask(find, s, ps[0])
    else FirstHit(find, s, ps[1..])
  }

  // ---------------------------------------------------------------- the order of the loops

  function Roles(s: Search, i: nat, j: nat, t: nat, r: nat): (ps: seq<Position>)
    requires Complete(s) && j <= i < |s.paths| && t <= |s.tags[j]| && r <= |s.roles|
    ensures AllValid(s, ps)
    decreases |s.roles| - r
  {
    if r == |s.roles| then [] else [Position(i, j, t, r)] + Roles(s, i, j, t, r + 1)
  }

  function Tags(s: Search, i: nat, j: nat, t: nat, end: nat): (ps: seq<Position>)
    requires Complete(s) && j <= i < |s.paths| && t <= end <= |s.tags[j]| + 1
    ensures AllValid(s, ps)
    decreases end - t
  {
    if t == end then [] else Roles(s, i, j, t, 0) + Tags(s, i, j, t + 1, end)
  }

  /** The levels from `j` up to the root, with the empty tag everywhere or only on the first level. */
  function Levels(s: Search, i: nat, j: int, slim: bool): (ps: seq<Position>)
    requires Complete(s) && -1 <= j <= i < |s.paths|
    ensures AllValid(s, ps)
    decreases j + 1
  {
    if j < 0 then []
    else Tags(s, i, j, 0, if slim && j < i then |s.tags[j]| else |s.tags[j]| + 1) + Levels(s, i, j - 1, slim)
  }

  function Paths(s: Search, i: int, slim: bool): (ps: seq<Position>)
    requires Complete(s) && -1 <= i < |s.paths|
    ensures AllValid(s, ps)
    decreases i + 1
  {
    if i < 0 then [] else Levels(s, i, i, slim) + Paths(s, i - 1, slim)
  }

  function Probes(s: Search): (ps: seq<Position>)
    requires Complete(s)
    ensures AllValid(s, ps)
  {
    Paths(s, |s.paths| - 1, false)
  }

  lemma {:induction false} FirstHitConcat(find: Lookup, s: Search, a: seq<Position>, b: seq<Position>)
    requires Complete(s) && AllValid(s, a) && AllValid(s, b)
    ensures AllValid(s, a + b)
    ensures FirstHit(find, s, a + b) == if FirstHit(find, s, a) == Miss then FirstHit(find, s, b) else FirstHit(find, s, a)
  {
    if a == [] {
      assert a + b == b;
    } else {
      assert (a + b)[1..] == a[1..] + b;
      FirstHitConcat(find, s, a[1..], b);
    }
  }

  // ---------------------------------------------------------------- the first rule in the order

  ghost predicate Sorted(ps: seq<Position>) {
    forall k, m | 0 <= k < m < |ps| :: Before(ps[k], ps[m])
  }

  ghost predicate AllBefore(a: seq<Position>, b: seq<Position>) {
    forall k, m | 0 <= k < |a| && 0 <= m < |b| :: Before(a[k], b[m])
  }

  lemma SortedConcat(a: seq<Position>, b: seq<Position>)
    requires Sorted(a) && Sorted(b) && AllBefore(a, b)
    ensures Sorted(a + b)
  {}

  lemma {:induction false} RolesAre(s: Search, i: nat, j: nat, t: nat, r: nat)
    requires Complete(s) && j <= i < |s.paths| && t <= |s.tags[j]| && r <= |s.roles|
    ensures Sorted(Roles(s, i, j, t, r))
    ensures forall p :: p in Roles(s, i, j, t, r) <==> p.path == i && p.level == j && p.tag == t && r <= p.role < |s.roles|
    decreases |s.roles| - r
  {
    if r < |s.roles| {
      RolesAre(s, i, j, t, r + 1);
      SortedConcat([Position(i, j, t, r)], Roles(s, i, j, t, r + 1));
    }
  }

  lemma {:induction false} TagsAre(s: Search, i: nat, j: nat, t: nat, end: nat)
    requires Complete(s) && j <= i < |s.paths| && t <= end <= |s.tags[j]| + 1
    ensures Sorted(Tags(s, i, j, t, end))
    ensures forall p :: p in Tags(s, i, j, t, end) <==> p.path == i && p.level == j && t <= p.tag < end && p.role < |s.roles|
    decreases end - t
  {
    if t < end {
      RolesAre(s, i, j, t, 0);
      TagsAre(s, i, j, t + 1, end);
      InOrder(Roles(s, i, j, t, 0), Tags(s, i, j, t + 1, end));
      SortedConcat(Roles(s, i, j, t, 0), Tags(s, i, j, t + 1, end));
    }
  }

  /** Order between members gives order between indices. */
  lemma InOrder(a: seq<Position>, b: seq<Position>)
    requires forall p, q | p in a && q in b :: Before(p, q)
    ensures AllBefore(a, b)
  {}

  lemma {:induction false} LevelsAre(s: Search, i: nat, j: int)
    requires Complete(s) && -1 <= j <= i < |s.paths|
    ensures Sorted(Levels(s, i, j, false))
    ensures forall p :: p in Levels(s, i, j, false) <==> p.path == i && p.level <= j && Valid(s, p)
    decreases j + 1
  {
    if j >= 0 {
      TagsAre(s, i, j, 0, |s.tags[j]| + 1);
      LevelsAre(s, i, j - 1);
      InOrder(Tags(s, i, j, 0, |s.tags[j]| + 1), Levels(s, i, j - 1, false));
      SortedConcat(Tags(s, i, j, 0, |s.tags[j]| + 1), Levels(s, i, j - 1, false));
    }
  }

  lemma {:induction false} PathsAre(s: Search, i: int)
    requires Complete(s) && -1 <= i < |s.paths|
    ensures Sorted(Paths(s, i, false))
    ensures forall p :: p in Paths(s, i, false) <==> p.path <= i && Valid(s, p)
    decreases i + 1
  {
    if i >= 0 {
      LevelsAre(s, i, i);
      PathsAre(s, i - 1);
      InOrder(Levels(s, i, i, false), Paths(s, i - 1, false));
      SortedConcat(Levels(s, i, i, false), Paths(s, i - 1, false));
    }
  }

  /** A valid position that answers, and nothing before it does. */
  ghost predicate Decides(find: Lookup, s: Search, p: Position)
    requires Complete(s)
  {
    Valid(s, p) && Ask(find, s, p) != Miss && forall q | Valid(s, q) && Before(q, p) :: Ask(find, s, q) == Miss
  }

  lemma {:induction false} FirstHitIndex(find: Lookup, s: Search, ps: seq<Position>) returns (k: nat)
    requires Complete(s) && AllValid(s, ps)
    ensures k <= |ps| && forall m | 0 <= m < k :: Ask(find, s, ps[m]) == Miss
    ensures if k == |ps| then FirstHit(find, s, ps) == Miss
            else Ask(find, s, ps[k]) != Miss && FirstHit(find, s, ps) == Ask(find, s, ps[k])
    decreases |ps|
  {
    if ps == [] || Ask(find, s, ps[0]) != Miss {
      k := 0;
    } else {
      k := FirstHitIndex(find, s, ps[1..]);
      forall m | 0 <= m < k + 1 ensures Ask(find, s, ps[m]) == Miss {
        if m > 0 { assert ps[m] == ps[1..][m - 1]; }
      }
      k := k + 1;
    }
  }

  lemma EarlierIndex(ps: seq<Position>, m: nat, k: nat)
    requires Sorted(ps) && m < |ps| && k < |ps| && Before(ps[m], ps[k])
    ensures m < k
  {}

  /** What the first hit of the probes says about the positions. */
  lemma FirstHitDecides(find: Lookup, s: Search) returns (p: Position)
    requires Complete(s)
    ensures var answer := FirstHit(find, s, Probes(s));
      if answer == Miss then forall q | Valid(s, q) :: Ask(find, s, q) == Miss
      else Decides(find, s, p) && Ask(find, s, p) == answer
  {
    var ps := Probes(s);
    PathsAre(s, |s.paths| - 1);
    var k := FirstHitIndex(find, s, ps);
    p := if k == |ps| then Position(0, 0, 0, 0) else ps[k];
    forall q | Valid(s, q) && (k == |ps| || Before(q, ps[k])) ensures Ask(find, s, q) == Miss {
      assert q in ps;
      var m :| 0 <= m < |ps| && ps[m] == q;
      if k < |ps| { EarlierIndex(ps, m, k); }
    }
  }

  /** The search yields the answer of the first position in lexicographic order that answers at all,
      and misses exactly when no position answers. */
  lemma SearchIsLexicographic(find: Lookup, s: Search, answer: Answer)
    requires Complete(s)
    ensures FirstHit(find, s, Probes(s)) == answer <==>
      if answer == Miss then forall p | Valid(s, p) :: Ask(find, s, p) == Miss
      else exists p :: Decides(find, s, p) && Ask(find, s, p) == answer
  {
    var first := FirstHitDecides(find, s);
    if FirstHit(find, s, Probes(s)) != Miss {
      if p :| Decides(find, s, p) && Ask(find, s, p) == answer { OneDecides(find, s, p, first); }
    }
  }

  lemma OneDecides(find: Lookup, s: Search, p: Position, q: Position)
    requires Complete(s) && Decides(find, s, p) && Decides(find, s, q)
    ensures p == q
  {
    assert p == q || Before(p, q) || Before(q, p);
  }

  /** Rules after the deciding one do not matter: another rule set that gives the same answers up to
      the deciding position decides the same. */
  lemma LaterRulesDoNotMatter(find: Lookup, other: Lookup, s: Search, p: Position)
    requires Complete(s) && Decides(find, s, p)
    requires forall q | Valid(s, q) && (q == p || Before(q, p)) :: Ask(other, s, q) == Ask(find, s, q)
    ensures FirstHit(other, s, Probes(s)) == FirstHit(find, s, Probes(s)) == Ask(find, s, p)
  {
    assert Decides(other, s, p);
    SearchIsLexicographic(find, s, Ask(find, s, p));
    SearchIsLexicographic(other, s, Ask(find, s, p));
  }

  // ---------------------------------------------------------------- the empty tag

  lemma {:induction false} TagsSplit(s: Search, i: nat, j: nat, t: nat)
    requires Complete(s) && j <= i < |s.paths| && t <= |s.tags[j]|
    ensures Tags(s, i, j, t, |s.tags[j]| + 1) == Tags(s, i, j, t, |s.tags[j]|) + Roles(s, i, j, |s.tags[j]|, 0)
    decreases |s.tags[j]| - t
  {
    if t == |s.tags[j]| {
      assert Tags(s, i, j, t, t + 1) == Roles(s, i, j, t, 0) + Tags(s, i, j, t + 1, t + 1);
    } else {
      TagsSplit(s, i, j, t + 1);
    }
  }

  /** The empty tag asks the same questions on every level. */
  lemma {:induction false} EmptyTagRepeats(find: Lookup, s: Search, i: nat, j: nat, r: nat)
    requires Complete(s) && j <= i < |s.paths| && r <= |s.roles|
    ensures FirstHit(find, s, Roles(s, i, j, |s.tags[j]|, r)) == FirstHit(find, s, Roles(s, i, i, |s.tags[i]|, r))
    decreases |s.roles| - r
  {
    if r < |s.roles| {
      EmptyTagRepeats(find, s, i, j, r + 1);
      var here, there := Roles(s, i, j, |s.tags[j]|, r), Roles(s, i, i, |s.tags[i]|, r);
      assert here[1..] == Roles(s, i, j, |s.tags[j]|, r + 1) && there[1..] == Roles(s, i, i, |s.tags[i]|, r + 1);
    }
  }

  lemma {:induction false} SlimLevels(find: Lookup, s: Search, i: nat, j: int)
    requires Complete(s) && -1 <= j < i < |s.paths|
    requires FirstHit(find, s, Roles(s, i, i, |s.tags[i]|, 0)) == Miss
    ensures FirstHit(find, s, Levels(s, i, j, true)) == FirstHit(find, s, Levels(s, i, j, false))
    decreases j + 1
  {
    if j >= 0 {
      var n := |s.tags[j]|;
      SlimLevels(find, s, i, j - 1);
      TagsSplit(s, i, j, 0);
      EmptyTagRepeats(find, s, i, j, 0);
      FirstHitConcat(find, s, Tags(s, i, j, 0, n), Roles(s, i, j, n, 0));
      FirstHitConcat(find, s, Tags(s, i, j, 0, n), Levels(s, i, j - 1, true));
      FirstHitConcat(find, s, Tags(s, i, j, 0, n + 1), Levels(s, i, j - 1, false));
    }
  }

  lemma SlimPath(find: Lookup, s: Search, i: nat)
    requires Complete(s) && i < |s.paths|
    ensures FirstHit(find, s, Levels(s, i, i, true)) == FirstHit(find, s, Levels(s, i, i, false))
  {
    var n := |s.tags[i]|;
    var tags := Tags(s, i, i, 0, n + 1);
    TagsSplit(s, i, i, 0);
    FirstHitConcat(find, s, Tags(s, i, i, 0, n), Roles(s, i, i, n, 0));
    FirstHitConcat(find, s, tags, Levels(s, i, i - 1, true));
    FirstHitConcat(find, s, tags, Levels(s, i, i - 1, false));
    if FirstHit(find, s, Roles(s, i, i, n, 0)) == Miss { SlimLevels(find, s, i, i - 1); }
  }

  /** Asking with the empty tag once for each path is enough. */
  lemma {:induction false} EmptyTagOnce(find: Lookup, s: Search, i: int)
    requires Complete(s) && -1 <= i < |s.paths|
    ensures FirstHit(find, s, Paths(s, i, true)) == FirstHit(find, s, Paths(s, i, false))
    decreases i + 1
  {
    if i >= 0 {
      EmptyTagOnce(find, s, i - 1);
      SlimPath(find, s, i);
      FirstHitConcat(find, s, Levels(s, i, i, true), Paths(s, i - 1, true));
      FirstHitConcat(find, s, Levels(s, i, i, false), Paths(s, i - 1, false));
    }
  }

  // ---------------------------------------------------------------- the decision

  datatype Resource = Resource(paths: seq<string>, owned: bool, ownerAccess: Mask)

  type TagLookup = string -> Result<seq<string>, string>

  /** The tags of all paths, or the error of the last path that has one. */
  function CollectTags(tagsOf: TagLookup, paths: seq<string>): (tags: Result<seq<seq<string>>, string>)
    ensures tags.Ok? ==> |tags.value| == |paths|
    decreases |paths|
  {
    if paths == [] then Ok([])
    else
      var last := tagsOf(paths[|paths| - 1]);
      if last.Err? then Err(last.error)
      else
        var before := CollectTags(tagsOf, paths[..|paths| - 1]);
        if before.Err? then before else Ok(before.value + [last.value])
  }

  /** What an answer of the search means for the subject. */
  function Judge(answer: Answer, byDefault: Mask, access: Mask): Result<bool, string> {
    match answer
    case Miss => Ok(Grants(byDefault, access))
    case Failed(e) => Err(e)
    case Found(rule) => Ok(Grants(rule, access))
  }

  function Decision(find: Lookup, tagsOf: TagLookup, byDefault: Mask, resource: Resource, roles: seq<string>, access: Mask)
    : Result<bool, string>
  {
    if resource.owned && Grants(resource.ownerAccess, access) then Ok(true)
    else
      var tags := CollectTags(tagsOf, resource.paths);
      if tags.Err? then Err(tags.error)
      else
        var s := Search(resource.paths, tags.value, roles);
        Judge(FirstHit(find, s, Probes(s)), byDefault, access)
  }

  lemma {:induction false} CollectFails(tagsOf: TagLookup, paths: seq<string>, i: nat)
    requires i < |paths| && tagsOf(paths[i]).Err? && forall k | i < k < |paths| :: tagsOf(paths[k]).Ok?
    ensures CollectTags(tagsOf, paths) == Err(tagsOf(paths[i]).error)
    decreases |paths|
  {
    if i < |paths| - 1 { CollectFails(tagsOf, paths[..|paths| - 1], i); }
  }

  lemma {:induction false} CollectSucceeds(tagsOf: TagLookup, paths: seq<string>, tags: seq<seq<string>>)
    requires |tags| == |paths| && forall k | 0 <= k < |paths| :: tagsOf(paths[k]) == Ok(tags[k])
    ensures CollectTags(tagsOf, paths) == Ok(tags)
    decreases |paths|
  {
    if paths != [] {
      var n := |paths| - 1;
      CollectSucceeds(tagsOf, paths[..n], tags[..n]);
      assert tags == tags[..n] + [tags[n]];
    }
  }

  /** The last path whose tags cannot be read. */
  ghost predicate LastFailing(tagsOf: TagLookup, paths: seq<string>, k: nat) {
    k < |paths| && tagsOf(paths[k]).Err? && forall m | k < m < |paths| :: tagsOf(paths[m]).Ok?
  }

  ghost predicate TagsAreRead(tagsOf: TagLookup, paths: seq<string>, tags: seq<seq<string>>) {
    |tags| == |paths| && forall k | 0 <= k < |paths| :: tagsOf(paths[k]) == Ok(tags[k])
  }

  ghost predicate ByOwner(resource: Resource, access: Mask) {
    resource.owned && resource.ownerAccess & access != 0
  }

  /** An owner is admitted with any of the rights asked for. */
  lemma OwnerIsAdmitted(find: Lookup, tagsOf: TagLookup, byDefault: Mask, resource: Resource, roles: seq<string>, access: Mask)
    requires ByOwner(resource, access)
    ensures Decision(find, tagsOf, byDefault, resource, roles, access) == Ok(true)
  {}

  /** Everybody else gets the error of the last path whose tags cannot be read. */
  lemma FailureDecides(find: Lookup, tagsOf: TagLookup, byDefault: Mask, resource: Resource, roles: seq<string>, access: Mask,
                       k: nat)
    requires !ByOwner(resource, access) && LastFailing(tagsOf, resource.paths, k)
    ensures Decision(find, tagsOf, byDefault, resource, roles, access) == Err(tagsOf(resource.paths[k]).error)
  {
    CollectFails(tagsOf, resource.paths, k);
  }

  lemma Judged(find: Lookup, tagsOf: TagLookup, byDefault: Mask, resource: Resource, roles: seq<string>, access: Mask,
               tags: seq<seq<string>>)
    requires !ByOwner(resource, access) && TagsAreRead(tagsOf, resource.paths, tags)
    ensures var s := Search(resource.paths, tags, roles);
      Decision(find, tagsOf, byDefault, resource, roles, access) == Judge(FirstHit(find, s, Probes(s)), byDefault, access)
  {
    CollectSucceeds(tagsOf, resource.paths, tags);
  }

  lemma FoundByDecider(find: Lookup, s: Search, p: Position)
    requires Complete(s) && Decides(find, s, p)
    ensures FirstHit(find, s, Probes(s)) == Ask(find, s, p)
  {
    SearchIsLexicographic(find, s, Ask(find, s, p));
  }

  /** With all tags read, the first position that answers decides: its rule grants one of the rights asked
      for or none, or its lookup failed. */
  lemma RuleDecides(find: Lookup, tagsOf: TagLookup, byDefault: Mask, resource: Resource, roles: seq<string>, access: Mask,
                    tags: seq<seq<string>>, p: Position)
    requires !ByOwner(resource, access) && TagsAreRead(tagsOf, resource.paths, tags)
    requires Decides(find, Search(resource.paths, tags, roles), p)
    ensures var answer := Ask(find, Search(resource.paths, tags, roles), p);
      Decision(find, tagsOf, byDefault, resource, roles, access) ==
        if answer.Found? then Ok(answer.rule & access != 0) else Err(answer.error)
  {
    Judged(find, tagsOf, byDefault, resource, roles, access, tags);
    FoundByDecider(find, Search(resource.paths, tags, roles), p);
  }

  /** Where no position answers, the default access decides. */
  lemma DefaultDecides(find: Lookup, tagsOf: TagLookup, byDefault: Mask, resource: Resource, roles: seq<string>, access: Mask,
                       tags: seq<seq<string>>)
    requires !ByOwner(resource, access) && TagsAreRead(tagsOf, resource.paths, tags)
    requires var s := Search(resource.paths, tags, roles); forall p | Valid(s, p) :: Ask(find, s, p) == Miss
    ensures Decision(find, tagsOf, byDefault, resource, roles, access) == Ok(byDefault & access != 0)
  {
    Judged(find, tagsOf, byDefault, resource, roles, access, tags);
    SearchIsLexicographic(find, Search(resource.paths, tags, roles), Miss);
  }

  /** The tags of all paths are read, or one path is the last that fails. */
  lemma TagsAreReadOrFail(tagsOf: TagLookup, paths: seq<string>)
    ensures (exists k :: LastFailing(tagsOf, paths, k)) || exists tags :: TagsAreRead(tagsOf, paths, tags)
  {
    if k :| 0 <= k < |paths| && tagsOf(paths[k]).Err? {
      LastFailingExists(tagsOf, paths, k);
    } else {
      var tags := seq(|paths|, k requires 0 <= k < |paths| => tagsOf(paths[k]).value);
      assert TagsAreRead(tagsOf, paths, tags);
    }
  }

  lemma LastFailingExists(tagsOf: TagLookup, paths: seq<string>, k: nat)
    requires k < |paths| && tagsOf(paths[k]).Err?
    ensures exists m :: LastFailing(tagsOf, paths, m)
    decreases |paths| - k
  {
    if m :| k < m < |paths| && tagsOf(paths[m]).Err? {
      LastFailingExists(tagsOf, paths, m);
    } else {
      assert LastFailing(tagsOf, paths, k);
    }
  }

  class Controller {
    const find: Lookup
    const tagsOf: TagLookup
    var defaultAccess: Mask

    constructor (find: Lookup, tagsOf: TagLookup, defaultAccess: Mask)
      ensures this.find == find && this.tagsOf == tagsOf && this.defaultAccess == defaultAccess
    {
      this.find, this.tagsOf, this.defaultAccess := find, tagsOf, defaultAccess;
    }

    method CheckAccess(resource: Resource, roles: seq<string>, access: Mask) returns (result: Result<bool, string>)
      ensures result == Decision(find, tagsOf, defaultAccess, resource, roles, access)
    {
      if resource.owned {
        if Grants(resource.ownerAccess, access) { return Ok(true); }
      }
      var collected := ResourceTags(resource.paths);
      if collected.Err? { return Err(collected.error); }
      var s := Search(resource.paths, collected.value, roles);
      var answer := LookForRule(s);
      match answer
      case Miss => return Ok(Grants(defaultAccess, access));
      case Failed(e) => return Err(e);
      case Found(rule) => return Ok(Grants(rule, access));
    }

    method ResourceTags(paths: seq<string>) returns (tags: Result<seq<seq<string>>, string>)
      ensures tags == CollectTags(tagsOf, paths)
    {
      var i := |paths|;
      var collected: map<nat, seq<string>> := map[];
      while i > 0
        invariant 0 <= i <= |paths|
        invariant forall k | i <= k < |paths| :: k in collected && tagsOf(paths[k]) == Ok(collected[k])
        invariant forall k | k in collected :: i <= k < |paths|
      {
        i := i - 1;
        var here := tagsOf(paths[i]);
        if here.Err? {
          CollectFails(tagsOf, paths, i);
          return Err(here.error);
        }
        collected := collected[i := here.value];
      }
      var all := seq(|paths|, k requires 0 <= k < |paths| && k in collected => collected[k]);
      CollectSucceeds(tagsOf, paths, all);
      return Ok(all);
    }

    /** The two inner loops: the tags of one level, the empty tag last, and the roles. */
    method LookAtLevel(s: Search, i: nat, j: nat) returns (answer: Answer)
      requires Complete(s) && j <= i < |s.paths|
      ensures answer == FirstHit(find, s, Tags(s, i, j, 0, |s.tags[j]| + 1))
    {
      answer := Miss;
      var tags := s.tags[j] + [""];
      var t := 0;
      while t < |tags| && answer == Miss
        invariant 0 <= t <= |tags|
        invariant Leads(find, s, Tags(s, i, j, 0, |tags|), answer, Tags(s, i, j, t, |tags|))
      {
        var r := 0;
        while r < |s.roles| && answer == Miss
          invariant 0 <= r <= |s.roles|
          invariant Leads(find, s, Roles(s, i, j, t, 0), answer, Roles(s, i, j, t, r))
        {
          answer := find(s.paths[i], tags[t], s.roles[r]);
          RoleAsked(find, s, i, j, t, r);
          r := r + 1;
        }
        TagAsked(find, s, i, j, t, |tags|);
        t := t + 1;
      }
    }

    /** The levels of one path. */
    method LookAtPath(s: Search, i: nat) returns (answer: Answer)
      requires Complete(s) && i < |s.paths|
      ensures answer == FirstHit(find, s, Levels(s, i, i, false))
    {
      answer := Miss;
      var j := i + 1;
      while j > 0 && answer == Miss
        invariant 0 <= j <= i + 1
        invariant Leads(find, s, Levels(s, i, i, false), answer, Levels(s, i, j - 1, false))
      {
        j := j - 1;
        answer := LookAtLevel(s, i, j);
        LevelAsked(find, s, i, j);
      }
    }

    method LookForRule(s: Search) returns (answer: Answer)
      requires Complete(s)
      ensures answer == FirstHit(find, s, Probes(s))
    {
      answer := Miss;
      ghost var probes := Probes(s);
      var i := |s.paths|;
      while i > 0 && answer == Miss
        invariant 0 <= i <= |s.paths|
        invariant Leads(find, s, probes, answer, Paths(s, i - 1, false))
      {
        i := i - 1;
        answer := LookAtPath(s, i);
        PathAsked(find, s, i);
      }
    }
  }

  /** The search over `ps` has come to `answer`, or is left with `rest`. */
  ghost predicate Leads(find: Lookup, s: Search, ps: seq<Position>, answer: Answer, rest: seq<Position>)
    requires Complete(s) && AllValid(s, ps) && AllValid(s, rest)
  {
    FirstHit(find, s, ps) == if answer == Miss then FirstHit(find, s, rest) else answer
  }

  lemma RoleAsked(find: Lookup, s: Search, i: nat, j: nat, t: nat, r: nat)
    requires Complete(s) && j <= i < |s.paths| && t <= |s.tags[j]| && r < |s.roles|
    ensures Leads(find, s, Roles(s, i, j, t, r), find(s.paths[i], TagAt(s, j, t), s.roles[r]), Roles(s, i, j, t, r + 1))
  {
    assert Roles(s, i, j, t, r)[1..] == Roles(s, i, j, t, r + 1);
  }

  lemma TagAsked(find: Lookup, s: Search, i: nat, j: nat, t: nat, end: nat)
    requires Complete(s) && j <= i < |s.paths| && t < end <= |s.tags[j]| + 1
    ensures Leads(find, s, Tags(s, i, j, t, end), FirstHit(find, s, Roles(s, i, j, t, 0)), Tags(s, i, j, t + 1, end))
  {
    FirstHitConcat(find, s, Roles(s, i, j, t, 0), Tags(s, i, j, t + 1, end));
  }

  lemma LevelAsked(find: Lookup, s: Search, i: nat, j: nat)
    requires Complete(s) && j <= i < |s.paths|
    ensures Leads(find, s, Levels(s, i, j, false), FirstHit(find, s, Tags(s, i, j, 0, |s.tags[j]| + 1)), Levels(s, i, j - 1, false))
  {
    FirstHitConcat(find, s, Tags(s, i, j, 0, |s.tags[j]| + 1), Levels(s, i, j - 1, false));
  }

  lemma PathAsked(find: Lookup, s: Search, i: nat)
    requires Complete(s) && i < |s.paths|
    ensures Leads(find, s, Paths(s, i, false), FirstHit(find, s, Levels(s, i, i, false)), Paths(s, i - 1, false))
  {
    FirstHitConcat(find, s, Levels(s, i, i, false), Paths(s, i - 1, false));
  }
}
