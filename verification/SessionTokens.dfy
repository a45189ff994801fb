/** Sessions and the tokens issued for them (pkg/auth/auth_methods/auth_token, pkg/auth/auth_session).

    A request reads the clock several times.  The readings of one request are part of its
    environment, so that the effect of time passing inside a request stays visible. */
module SessionTokens {
  import opened Prelude

  /** Times to live are durations on the clock. */
  datatype Config = Config(
    accessTtl: nat, refreshTtl: nat, autoAccess: bool, autoRefresh: bool, refreshPath: string, logoutPath: string)

  datatype Session = Session(id: string, userId: string, login: string, valid: bool, expiration: int)

  /** What a session looks like that was not found: the lookup does not tell it from a stored one. */
  const NO_SESSION := Session("", "", "", false, 0)

  type Sessions = map<string, Session>

  datatype User = User(id: string, login: string, blocked: bool)

  datatype Token = Token(userId: string, sessionId: string, tenancy: string, exp: int)

  /** What a client shows under the name of a token. */
  datatype Shown = Missing(error: bool) | Undecodable | Decoded(token: Token)

  /** The name under which a token is shown or put into a response. */
  datatype Kind = Access | Refresh

  /** The authentication context of one request.  `access` and `refresh` are the tokens in the response;
      `issued` are all that were put there, also those that were replaced. */
  datatype Context = Context(
    path: string, tenancy: Option<string>, user: Option<User>, sessionId: string, issued: set<Token>,
    access: Option<Token>, refresh: Option<Token>)

  datatype Code = NoCode | TokenExpired | InvalidToken | SessionExpired | UnknownUser | InternalError

  /** `Accepted` is the success branch.  Some refusals only set a code and return no error. */
  datatype Outcome = Accepted | Refused(found: bool, error: bool, code: Code)

  datatype Stamp = Stamp(at: int, ok: bool)

  /** One renewal: the session expiration is computed and stored, then a refresh token is put out. */
  datatype Renewal = Renewal(sessionAt: int, stored: bool, token: Stamp)

  /** `users` is what looking up a login answers. */
  datatype CheckEnv = CheckEnv(
    checkedAt: int, findOk: bool, now: int, users: string -> Result<Option<User>, ()>, clientOk: bool,
    access: Stamp, refresh: Renewal, invalidateOk: bool)

  datatype NewEnv = NewEnv(
    createdAt: int, newId: string, createOk: bool, findOk: bool, clientOk: bool,
    first: Renewal, access: Stamp, second: Renewal)

  // ---------------------------------------------------------------- the session store

  function FindSession(sessions: Sessions, id: string): Session {
    if id in sessions then sessions[id] else NO_SESSION
  }

  function SetExpiration(sessions: Sessions, id: string, expiration: int): Sessions {
    if id in sessions then sessions[id := sessions[id].(expiration := expiration)] else sessions
  }

  function Invalidate(sessions: Sessions, concerns: Session -> bool): Sessions {
    map id | id in sessions :: if concerns(sessions[id]) then sessions[id].(valid := false) else sessions[id]
  }

  function InvalidateOne(sessions: Sessions, userId: string, id: string): Sessions {
    Invalidate(sessions, (s: Session) => s.id == id && s.userId == userId)
  }

  function InvalidateOfUser(sessions: Sessions, userId: string): Sessions {
    Invalidate(sessions, (s: Session) => s.userId == userId)
  }

  function InvalidateAll(sessions: Sessions): Sessions {
    Invalidate(sessions, (s: Session) => true)
  }

  // ---------------------------------------------------------------- issuing

  function TokenFor(ctx: Context, exp: int): Token
    requires ctx.user.Some?
  {
    Token(ctx.user.value.id, ctx.sessionId, if ctx.tenancy.Some? then ctx.tenancy.value else "", exp)
  }

  function GenToken(ctx: Context, kind: Kind, ttl: nat, stamp: Stamp): (Context, bool)
    requires ctx.user.Some?
  {
    if !stamp.ok then (ctx, false)
    else
      var token := TokenFor(ctx, stamp.at + ttl);
      var issued := ctx.issued + {token};
      (if kind == Access then ctx.(issued := issued, access := Some(token)) else ctx.(issued := issued, refresh := Some(token)),
       true)
  }

  /** `id` is the identifier of the session object at hand, which need not be the one in the context. */
  function GenRefreshToken(cfg: Config, sessions: Sessions, ctx: Context, id: string, renewal: Renewal): (Sessions, Context, bool)
    requires ctx.user.Some?
  {
    if !renewal.stored then (sessions, ctx, false)
    else
      var (issued, ok) := GenToken(ctx, Refresh, cfg.refreshTtl, renewal.token);
      (SetExpiration(sessions, id, renewal.sessionAt + cfg.refreshTtl), issued, ok)
  }

  // ---------------------------------------------------------------- checking a token

  predicate TenancyMatches(ctx: Context, token: Token) {
    ctx.tenancy.Some? || token.tenancy != "" ==> ctx.tenancy.Some? && token.tenancy == ctx.tenancy.value
  }

  /** The part of the check that only reads. */
  function Admit(cfg: Config, sessions: Sessions, ctx: Context, shown: Shown, env: CheckEnv): Result<(Session, User), Outcome> {
    if shown.Missing? then Err(Refused(false, shown.error, NoCode))
    else if shown.Undecodable? then Err(Refused(true, true, InvalidToken))
    else if env.checkedAt > shown.token.exp then
      Err(Refused(true, false, if ctx.path == cfg.refreshPath then SessionExpired else TokenExpired))
    else if !TenancyMatches(ctx, shown.token) then Err(Refused(true, true, SessionExpired))
    else if !env.findOk then Err(Refused(true, true, SessionExpired))
    else
      var session := FindSession(sessions, shown.token.sessionId);
      if !session.valid then Err(Refused(true, true, SessionExpired))
      else if env.now > session.expiration then Err(Refused(true, true, SessionExpired))
      else
        var user := env.users(session.login);
        if user.Err? then Err(Refused(true, true, InternalError))
        else if user.value.None? then Err(Refused(true, false, UnknownUser))
        else if user.value.value.blocked then Err(Refused(true, true, SessionExpired))
        else Ok((session, user.value.value))
  }

  const INTERNAL := Refused(true, true, InternalError)

  predicate MustRenew(cfg: Config, ctx: Context, session: Session, now: int) {
    cfg.autoRefresh && (ctx.path == cfg.refreshPath || now + cfg.accessTtl > session.expiration)
  }

  /** What follows once user and session are known. */
  function Serve(cfg: Config, sessions: Sessions, ctx: Context, session: Session, env: CheckEnv): (Sessions, Context, Outcome)
    requires ctx.user.Some?
  {
    if ctx.path == cfg.logoutPath then
      var out := ctx.(user := None);
      if env.invalidateOk then (InvalidateOne(sessions, session.userId, session.id), out, Accepted)
      else (sessions, out, INTERNAL)
    else
      var (given, ok) := if ctx.path == cfg.refreshPath || cfg.autoAccess
                         then GenToken(ctx, Access, cfg.accessTtl, env.access) else (ctx, true);
      if !ok then (sessions, given, INTERNAL)
      else if MustRenew(cfg, ctx, session, env.now) then
        var (renewed, out, done) := GenRefreshToken(cfg, sessions, given, session.id, env.refresh);
        (renewed, out, if done then Accepted else INTERNAL)
      else (sessions, given, Accepted)
  }

  function CheckToken(cfg: Config, sessions: Sessions, ctx: Context, access: Shown, refresh: Shown, env: CheckEnv)
    : (Sessions, Context, Outcome)
  {
    var admitted := Admit(cfg, sessions, ctx, if ctx.path == cfg.refreshPath then refresh else access, env);
    if admitted.Err? then (sessions, ctx, admitted.error)
    else
      var (session, user) := admitted.value;
      var known := ctx.(user := Some(user), sessionId := session.id);
      if env.clientOk then Serve(cfg, sessions, known, session, env) else (sessions, known, INTERNAL)
  }

  // ---------------------------------------------------------------- new tokens after another method

  /** The session of the context, or a new one.  The identifier is the primary key, so that no
      session is ever replaced. */
  function OpenSession(cfg: Config, sessions: Sessions, ctx: Context, env: NewEnv): Result<(Sessions, Context, string), Outcome>
    requires ctx.user.Some?
  {
    if ctx.sessionId == "" then
      if env.createOk && env.newId !in sessions then
        var user := ctx.user.value;
        var session := Session(env.newId, user.id, user.login, true, env.createdAt + cfg.refreshTtl);
        Ok((sessions[env.newId := session], ctx.(sessionId := env.newId), env.newId))
      else Err(INTERNAL)
    else if env.findOk then Ok((sessions, ctx, FindSession(sessions, ctx.sessionId).id))
    else Err(Refused(true, true, SessionExpired))
  }

  /** Refresh token, access token, refresh token again. */
  function Issue(cfg: Config, sessions: Sessions, ctx: Context, id: string, env: NewEnv): (Sessions, Context, bool)
    requires ctx.user.Some?
  {
    var (s1, c1, renewed) := GenRefreshToken(cfg, sessions, ctx, id, env.first);
    if !renewed then (s1, c1, false)
    else
      var (c2, given) := GenToken(c1, Access, cfg.accessTtl, env.access);
      if !given then (s1, c2, false) else GenRefreshToken(cfg, s1, c2, id, env.second)
  }

  function NewToken(cfg: Config, sessions: Sessions, ctx: Context, env: NewEnv): (Sessions, Context, Outcome) {
    if ctx.user.None? then (sessions, ctx, Refused(false, false, NoCode))
    else
      var session := OpenSession(cfg, sessions, ctx, env);
      if session.Err? then (sessions, ctx, session.error)
      else
        var (s0, c0, id) := session.value;
        if !env.clientOk then (s0, c0, INTERNAL)
        else
          var (after, out, ok) := Issue(cfg, s0, c0, id, env);
          (after, out, if ok then Accepted else INTERNAL)
  }

  // ---------------------------------------------------------------- runs

  datatype Request =
    | Check(ctx: Context, access: Shown, refresh: Shown, check: CheckEnv)
    | New(ctx: Context, creation: NewEnv)
    | DropSession(userId: string, id: string, ok: bool)
    | DropUser(userId: string, ok: bool)
    | DropAll(ok: bool)

  /** `emitted` are all tokens ever put into a response, also into the response of a refused request. */
  datatype State = State(sessions: Sessions, emitted: set<Token>)

  const EMPTY := State(map[], {})

  /** A context starts without tokens. */
  predicate Initial(r: Request) {
    r.Check? || r.New? ==> r.ctx.issued == {} && r.ctx.access == None && r.ctx.refresh == None
  }

  function Handle(cfg: Config, s: State, r: Request): (State, Outcome) {
    match r
    case Check(ctx, access, refresh, env) =>
      var (sessions, out, outcome) := CheckToken(cfg, s.sessions, ctx, access, refresh, env);
      (State(sessions, s.emitted + out.issued), outcome)
    case New(ctx, env) =>
      var (sessions, out, outcome) := NewToken(cfg, s.sessions, ctx, env);
      (State(sessions, s.emitted + out.issued), outcome)
    case DropSession(userId, id, ok) =>
      (if ok then s.(sessions := InvalidateOne(s.sessions, userId, id)) else s, Accepted)
    case DropUser(userId, ok) =>
      (if ok then s.(sessions := InvalidateOfUser(s.sessions, userId)) else s, Accepted)
    case DropAll(ok) =>
      (if ok then s.(sessions := InvalidateAll(s.sessions)) else s, Accepted)
  }

  function Continue(cfg: Config, s: State, requests: seq<Request>): State
    decreases |requests|
  {
    if requests == [] then s else Continue(cfg, Handle(cfg, s, requests[0]).0, requests[1..])
  }

  ghost predicate RenewedWithin(n: Renewal, from: int, to: int) {
    from <= n.sessionAt <= n.token.at <= to
  }

  /** The clock readings of a request lie in order between `from` and `to`. */
  ghost predicate Timed(r: Request, from: int, to: int) {
    from <= to &&
    match r
    case Check(_, _, _, e) => from <= e.checkedAt <= e.now <= e.access.at && RenewedWithin(e.refresh, e.access.at, to)
    case New(_, e) =>
      && from <= e.createdAt && RenewedWithin(e.first, e.createdAt, e.access.at) && RenewedWithin(e.second, e.access.at, to)
    case DropSession(_, _, _) => true
    case DropUser(_, _) => true
    case DropAll(_) => true
  }

  /** Requests in the order of their times, none of them lasting longer than `spread`. */
  ghost predicate Timely(requests: seq<Request>, times: seq<(int, int)>, clock: int, spread: nat) {
    && |times| == |requests|
    && (requests != [] ==>
          && clock <= times[0].0 && times[0].1 - times[0].0 <= spread && Timed(requests[0], times[0].0, times[0].1)
          && Initial(requests[0]) && Timely(requests[1..], times[1..], times[0].1, spread))
  }

  /** A check that is served puts out an access token. */
  predicate PutsAccess(cfg: Config, ctx: Context, env: CheckEnv) {
    ctx.path != cfg.logoutPath && (ctx.path == cfg.refreshPath || cfg.autoAccess) && env.access.ok
  }

  /** No check that puts out an access token would fail to store a new expiration of its session. */
  ghost predicate StoringWorks(cfg: Config, requests: seq<Request>) {
    forall r | r in requests :: r.Check? && PutsAccess(cfg, r.ctx, r.check) ==> r.check.refresh.stored
  }

  // ---------------------------------------------------------------- sessions dominate their tokens

  ghost predicate Keyed(sessions: Sessions) {
    forall id | id in sessions :: sessions[id].id == id
  }

  ghost predicate Dominated(sessions: Sessions, token: Token, spread: nat) {
    token.sessionId in sessions ==> token.exp <= sessions[token.sessionId].expiration + spread
  }

  ghost predicate AllDominated(sessions: Sessions, tokens: set<Token>, spread: nat) {
    forall t | t in tokens :: Dominated(sessions, t, spread)
  }

  /** Nothing expires later than a session renewed now would. */
  ghost predicate Bounded(cfg: Config, s: State, clock: int) {
    && (forall id | id in s.sessions :: s.sessions[id].expiration <= clock + cfg.refreshTtl)
    && (forall t | t in s.emitted :: t.exp <= clock + cfg.refreshTtl)
  }

  /** Sessions only grow: none is lost, no expiration decreases, none becomes valid again. */
  ghost predicate Grown(a: Sessions, b: Sessions) {
    forall id | id in a :: id in b && a[id].expiration <= b[id].expiration && (b[id].valid ==> a[id].valid)
      && b[id].id == a[id].id && b[id].userId == a[id].userId && b[id].login == a[id].login
  }

  /** What is kept while the clock proceeds to `clock`. */
  ghost predicate Kept(cfg: Config, s: State, clock: int, spread: nat) {
    Keyed(s.sessions) && Bounded(cfg, s, clock) && AllDominated(s.sessions, s.emitted, spread)
  }

  /** Storing a later expiration. */
  lemma ExpirationKeeps(cfg: Config, s: State, id: string, clock: int, at: int, to: int, spread: nat)
    requires Kept(cfg, s, clock, spread) && clock <= at <= to
    ensures var sessions := SetExpiration(s.sessions, id, at + cfg.refreshTtl);
      Kept(cfg, s.(sessions := sessions), to, spread) && Grown(s.sessions, sessions)
  {
    var sessions := SetExpiration(s.sessions, id, at + cfg.refreshTtl);
    forall t | t in s.emitted ensures Dominated(sessions, t, spread) {
      assert Dominated(s.sessions, t, spread);
    }
  }

  /** A token that expires no later than its session is renewed. */
  lemma TokenKeeps(cfg: Config, sessions: Sessions, emitted: set<Token>, token: Token, clock: int, spread: nat)
    requires Kept(cfg, State(sessions, emitted), clock, spread)
    requires token.exp <= clock + cfg.refreshTtl && Dominated(sessions, token, spread)
    ensures Kept(cfg, State(sessions, emitted + {token}), clock, spread)
  {}

  lemma RenewKeeps(cfg: Config, sessions: Sessions, base: set<Token>, ctx: Context, id: string, n: Renewal,
                   clock: int, to: int, spread: nat)
    requires ctx.user.Some? && RenewedWithin(n, clock, to) && to - clock <= spread
    requires Kept(cfg, State(sessions, base + ctx.issued), clock, spread)
    requires ctx.sessionId in sessions ==> id == ctx.sessionId
    ensures var (after, out, ok) := GenRefreshToken(cfg, sessions, ctx, id, n);
      && Kept(cfg, State(after, base + out.issued), to, spread) && Grown(sessions, after)
      && out.user == ctx.user && out.sessionId == ctx.sessionId
      && (ok && ctx.sessionId in after ==> after[ctx.sessionId].expiration == n.sessionAt + cfg.refreshTtl)
  {
    var s := State(sessions, base + ctx.issued);
    ExpirationKeeps(cfg, s, id, clock, n.sessionAt, to, spread);
    ClockKeeps(cfg, s, clock, to, spread);
    RefreshIssues(cfg, sessions, ctx, id, n);
    if n.stored && n.token.ok {
      var token := TokenFor(ctx, n.token.at + cfg.refreshTtl);
      TokenKeeps(cfg, SetExpiration(sessions, id, n.sessionAt + cfg.refreshTtl), base + ctx.issued, token, to, spread);
      assert base + (ctx.issued + {token}) == base + ctx.issued + {token};
    }
  }

  lemma ClockKeeps(cfg: Config, s: State, clock: int, to: int, spread: nat)
    requires Kept(cfg, s, clock, spread) && clock <= to
    ensures Kept(cfg, s, to, spread)
  {}

  lemma InvalidateKeeps(cfg: Config, s: State, concerns: Session -> bool, clock: int, to: int, spread: nat)
    requires Kept(cfg, s, clock, spread) && clock <= to
    ensures Kept(cfg, s.(sessions := Invalidate(s.sessions, concerns)), to, spread)
    ensures Grown(s.sessions, Invalidate(s.sessions, concerns))
  {
    forall t | t in s.emitted ensures Dominated(Invalidate(s.sessions, concerns), t, spread) {
      assert Dominated(s.sessions, t, spread);
    }
  }

  /** The clock of a request: it began at `from`, not before `clock`, and ended at `to`. */
  ghost predicate Lasting(clock: int, from: int, to: int, spread: nat) {
    clock <= from <= to <= from + spread
  }

  lemma ServeKeeps(cfg: Config, sessions: Sessions, base: set<Token>, ctx: Context, session: Session, env: CheckEnv,
                   clock: int, to: int, spread: nat)
    requires ctx.user.Some? && ctx.issued == {} && ctx.sessionId == session.id
    requires session.id in sessions && sessions[session.id] == session
    requires cfg.autoRefresh && cfg.accessTtl <= cfg.refreshTtl && (PutsAccess(cfg, ctx, env) ==> env.refresh.stored)
    requires clock <= env.now <= env.access.at && RenewedWithin(env.refresh, env.access.at, to) && to - clock <= spread
    requires Kept(cfg, State(sessions, base), clock, spread)
    ensures var (after, out, outcome) := Serve(cfg, sessions, ctx, session, env);
      Kept(cfg, State(after, base + out.issued), to, spread) && Grown(sessions, after)
  {
    var s := State(sessions, base);
    ClockKeeps(cfg, s, clock, to, spread);
    assert base + {} == base;
    if ctx.path == cfg.logoutPath {
      InvalidateKeeps(cfg, s, (s: Session) => s.id == session.id && s.userId == session.userId, clock, to, spread);
    } else if (ctx.path == cfg.refreshPath || cfg.autoAccess) && env.access.ok {
      var token := TokenFor(ctx, env.access.at + cfg.accessTtl);
      if MustRenew(cfg, ctx, session, env.now) {
        var (after, out, ok) := GenRefreshToken(cfg, sessions, ctx, session.id, env.refresh);
        RenewKeeps(cfg, sessions, base, ctx, session.id, env.refresh, clock, to, spread);
        TokenKeeps(cfg, after, base + out.issued, token, to, spread);
        assert base + ({token} + out.issued) == base + out.issued + {token};
      } else {
        TokenKeeps(cfg, sessions, base, token, to, spread);
      }
    } else if ctx.path != cfg.refreshPath && !cfg.autoAccess && MustRenew(cfg, ctx, session, env.now) {
      RenewKeeps(cfg, sessions, base, ctx, session.id, env.refresh, clock, to, spread);
    }
  }

  lemma CheckKeeps(cfg: Config, s: State, r: Request, clock: int, from: int, to: int, spread: nat)
    requires r.Check? && Initial(r) && Timed(r, from, to) && Lasting(clock, from, to, spread)
    requires cfg.autoRefresh && cfg.accessTtl <= cfg.refreshTtl && (PutsAccess(cfg, r.ctx, r.check) ==> r.check.refresh.stored)
    requires Kept(cfg, s, clock, spread)
    ensures Kept(cfg, Handle(cfg, s, r).0, to, spread) && Grown(s.sessions, Handle(cfg, s, r).0.sessions)
  {
    var shown := if r.ctx.path == cfg.refreshPath then r.refresh else r.access;
    var admitted := Admit(cfg, s.sessions, r.ctx, shown, r.check);
    ClockKeeps(cfg, s, clock, to, spread);
    assert s.emitted + {} == s.emitted;
    if admitted.Ok? && r.check.clientOk {
      var (session, user) := admitted.value;
      ClockKeeps(cfg, s, clock, from, spread);
      ServeKeeps(cfg, s.sessions, s.emitted, r.ctx.(user := Some(user), sessionId := session.id), session, r.check,
                 from, to, spread);
    }
  }

  lemma OpenSessionKeeps(cfg: Config, s: State, ctx: Context, env: NewEnv, clock: int, spread: nat)
    requires ctx.user.Some? && clock <= env.createdAt && Kept(cfg, s, clock, spread)
    ensures var session := OpenSession(cfg, s.sessions, ctx, env); session.Ok? ==>
      var (sessions, out, id) := session.value;
      && Kept(cfg, s.(sessions := sessions), env.createdAt, spread) && Grown(s.sessions, sessions)
      && out.user == ctx.user && out.issued == ctx.issued && (out.sessionId in sessions ==> id == out.sessionId)
  {
    ClockKeeps(cfg, s, clock, env.createdAt, spread);
    var session := OpenSession(cfg, s.sessions, ctx, env);
    if session.Ok? {
      forall t | t in s.emitted ensures Dominated(session.value.0, t, spread) {
        assert Dominated(s.sessions, t, spread);
      }
    }
  }

  lemma NewKeeps(cfg: Config, s: State, r: Request, clock: int, from: int, to: int, spread: nat)
    requires r.New? && Initial(r) && Timed(r, from, to) && Lasting(clock, from, to, spread)
    requires cfg.accessTtl <= cfg.refreshTtl && Kept(cfg, s, clock, spread)
    ensures Kept(cfg, Handle(cfg, s, r).0, to, spread) && Grown(s.sessions, Handle(cfg, s, r).0.sessions)
  {
    var env := r.creation;
    assert s.emitted + {} == s.emitted;
    ClockKeeps(cfg, s, clock, to, spread);
    if r.ctx.user.Some? {
      ClockKeeps(cfg, s, clock, from, spread);
      OpenSessionKeeps(cfg, s, r.ctx, env, from, spread);
      var session := OpenSession(cfg, s.sessions, r.ctx, env);
      if session.Ok? {
        var (s0, c0, id) := session.value;
        ClockKeeps(cfg, State(s0, s.emitted), env.createdAt, to, spread);
        if env.clientOk {
          IssueKeeps(cfg, s0, s.emitted, c0, id, env, to, spread);
        }
      }
    }
  }

  lemma IssueKeeps(cfg: Config, sessions: Sessions, base: set<Token>, ctx: Context, id: string, env: NewEnv, to: int, spread: nat)
    requires ctx.user.Some? && ctx.issued == {}
    requires RenewedWithin(env.first, env.createdAt, env.access.at) && RenewedWithin(env.second, env.access.at, to)
    requires to - env.createdAt <= spread && cfg.accessTtl <= cfg.refreshTtl
    requires Kept(cfg, State(sessions, base), env.createdAt, spread)
    requires ctx.sessionId in sessions ==> id == ctx.sessionId
    ensures var (after, out, ok) := Issue(cfg, sessions, ctx, id, env);
      Kept(cfg, State(after, base + out.issued), to, spread) && Grown(sessions, after)
  {
    assert base + {} == base;
    RenewKeeps(cfg, sessions, base, ctx, id, env.first, env.createdAt, env.access.at, spread);
    var (s1, c1, renewed) := GenRefreshToken(cfg, sessions, ctx, id, env.first);
    ClockKeeps(cfg, State(s1, base + c1.issued), env.access.at, to, spread);
    if renewed && env.access.ok {
      var token := TokenFor(c1, env.access.at + cfg.accessTtl);
      TokenKeeps(cfg, s1, base + c1.issued, token, env.access.at, spread);
      var c2 := GenToken(c1, Access, cfg.accessTtl, env.access).0;
      assert base + (c1.issued + {token}) == base + c1.issued + {token};
      RenewKeeps(cfg, s1, base, c2, id, env.second, env.access.at, to, spread);
    }
  }

  lemma StepKeeps(cfg: Config, s: State, r: Request, clock: int, from: int, to: int, spread: nat)
    requires Initial(r) && Timed(r, from, to) && Lasting(clock, from, to, spread)
    requires cfg.autoRefresh && cfg.accessTtl <= cfg.refreshTtl
    requires r.Check? && PutsAccess(cfg, r.ctx, r.check) ==> r.check.refresh.stored
    requires Kept(cfg, s, clock, spread)
    ensures Kept(cfg, Handle(cfg, s, r).0, to, spread) && Grown(s.sessions, Handle(cfg, s, r).0.sessions)
  {
    ClockKeeps(cfg, s, clock, to, spread);
    match r
    case Check(_, _, _, _) => CheckKeeps(cfg, s, r, clock, from, to, spread);
    case New(_, _) => NewKeeps(cfg, s, r, clock, from, to, spread);
    case DropSession(userId, id, _) =>
      InvalidateKeeps(cfg, s, (s: Session) => s.id == id && s.userId == userId, clock, to, spread);
    case DropUser(userId, _) => InvalidateKeeps(cfg, s, (s: Session) => s.userId == userId, clock, to, spread);
    case DropAll(_) => InvalidateKeeps(cfg, s, (s: Session) => true, clock, to, spread);
  }

  lemma {:induction false} RunKeeps(cfg: Config, s: State, requests: seq<Request>, times: seq<(int, int)>, clock: int, spread: nat)
    requires cfg.autoRefresh && cfg.accessTtl <= cfg.refreshTtl
    requires Timely(requests, times, clock, spread) && StoringWorks(cfg, requests)
    requires Kept(cfg, s, clock, spread)
    ensures var t := Continue(cfg, s, requests);
      Grown(s.sessions, t.sessions) && AllDominated(t.sessions, t.emitted, spread)
    decreases |requests|
  {
    if requests != [] {
      var t := Handle(cfg, s, requests[0]).0;
      StepKeeps(cfg, s, requests[0], clock, times[0].0, times[0].1, spread);
      RunKeeps(cfg, t, requests[1..], times[1..], times[0].1, spread);
      var u := Continue(cfg, t, requests[1..]);
      forall id | id in s.sessions ensures id in u.sessions { assert id in t.sessions; }
    }
  }

  /** Over every run, with renewal switched on and access tokens living no longer than refresh tokens:
      every token ever put out for a session expires no later than the session does, up to the time
      that passes inside one request, and later requests only move the session's expiration ahead. */
  lemma SessionsDominateTokens(cfg: Config, before: seq<Request>, after: seq<Request>,
                               times: seq<(int, int)>, later: seq<(int, int)>, clock: int, mid: int, spread: nat)
    requires cfg.autoRefresh && cfg.accessTtl <= cfg.refreshTtl
    requires Timely(before, times, clock, spread) && StoringWorks(cfg, before)
    requires Timely(after, later, mid, spread) && StoringWorks(cfg, after)
    requires if times == [] then clock <= mid else times[|times| - 1].1 <= mid
    ensures var s := Continue(cfg, EMPTY, before); var t := Continue(cfg, s, after);
      && (forall id | id in s.sessions :: id in t.sessions && s.sessions[id].expiration <= t.sessions[id].expiration)
      && (forall token | token in t.emitted && token.sessionId in t.sessions ::
            token.exp <= t.sessions[token.sessionId].expiration + spread)
  {
    var s := Continue(cfg, EMPTY, before);
    RunReaches(cfg, EMPTY, before, times, clock, mid, spread);
    RunKeeps(cfg, s, after, later, mid, spread);
    var t := Continue(cfg, s, after);
    forall token | token in t.emitted && token.sessionId in t.sessions
      ensures token.exp <= t.sessions[token.sessionId].expiration + spread {
      assert Dominated(t.sessions, token, spread);
    }
  }

  lemma {:induction false} RunReaches(cfg: Config, s: State, requests: seq<Request>, times: seq<(int, int)>,
                                      clock: int, end: int, spread: nat)
    requires cfg.autoRefresh && cfg.accessTtl <= cfg.refreshTtl
    requires Timely(requests, times, clock, spread) && StoringWorks(cfg, requests)
    requires if times == [] then clock <= end else times[|times| - 1].1 <= end
    requires Kept(cfg, s, clock, spread)
    ensures Kept(cfg, Continue(cfg, s, requests), end, spread)
    decreases |requests|
  {
    if requests == [] {
      ClockKeeps(cfg, s, clock, end, spread);
    } else {
      StepKeeps(cfg, s, requests[0], clock, times[0].0, times[0].1, spread);
      assert times[1..] != [] ==> times[1..][|times| - 2] == times[|times| - 1];
      RunReaches(cfg, Handle(cfg, s, requests[0]).0, requests[1..], times[1..], times[0].1, end, spread);
    }
  }

  /** The time inside a request is not a matter of the proof: for every spread there is a request
      whose refresh token outlives the session by just that much. */
  lemma SpreadIsReached(cfg: Config, user: User, spread: nat)
    ensures exists r, times, token ::
      && Timely([r], times, 0, spread)
      && var s := Continue(cfg, EMPTY, [r]);
         token in s.emitted && token.sessionId in s.sessions
         && token.exp == s.sessions[token.sessionId].expiration + spread
  {
    var renewal := Renewal(0, true, Stamp(0, true));
    var env := NewEnv(0, "s", true, true, true, renewal, Stamp(0, true), renewal.(token := Stamp(spread, true)));
    var ctx := Context("", None, Some(user), "", {}, None, None);
    var r := New(ctx, env);
    var times := [(0, spread)];
    assert Timely([r][1..], times[1..], spread, spread);
    assert Timely([r], times, 0, spread);
    var s := Handle(cfg, EMPTY, r).0;
    assert Continue(cfg, EMPTY, [r]) == s by { assert [r][1..] == []; assert Continue(cfg, s, []) == s; }
    assert TokenFor(ctx.(sessionId := "s"), spread + cfg.refreshTtl) in s.emitted;
  }

  ghost predicate Outlives(sessions: Sessions, token: Token) {
    token.sessionId in sessions && token.exp > sessions[token.sessionId].expiration
  }

  ghost predicate OneReading(e: CheckEnv, now: int) {
    e.checkedAt == now && e.now == now && e.access.at == now && e.refresh.sessionAt == now && e.refresh.token.at == now
  }

  /** Exactly when the check of a token puts out one that outlives its session: an access token that
      lives past the session, whose renewal is switched off or fails in the store. */
  lemma OutlivesExactly(cfg: Config, s: State, r: Request, now: int)
    requires r.Check? && Initial(r) && OneReading(r.check, now) && Keyed(s.sessions) && cfg.accessTtl <= cfg.refreshTtl
    ensures var e := r.check; var ctx := r.ctx;
      var admitted := Admit(cfg, s.sessions, ctx, if ctx.path == cfg.refreshPath then r.refresh else r.access, e);
      var (sessions, out, outcome) := CheckToken(cfg, s.sessions, ctx, r.access, r.refresh, e);
      (exists token | token in out.issued :: Outlives(sessions, token)) <==>
        && admitted.Ok? && e.clientOk && ctx.path != cfg.logoutPath
        && (ctx.path == cfg.refreshPath || cfg.autoAccess) && e.access.ok
        && now + cfg.accessTtl > admitted.value.0.expiration && !(cfg.autoRefresh && e.refresh.stored)
  {
    var e := r.check;
    var ctx := r.ctx;
    var admitted := Admit(cfg, s.sessions, ctx, if ctx.path == cfg.refreshPath then r.refresh else r.access, e);
    if admitted.Ok? && e.clientOk && ctx.path != cfg.logoutPath {
      var (session, user) := admitted.value;
      var known := ctx.(user := Some(user), sessionId := session.id);
      var token := TokenFor(known, now + cfg.accessTtl);
      var (sessions, out, outcome) := CheckToken(cfg, s.sessions, ctx, r.access, r.refresh, e);
      assert session.id in s.sessions && s.sessions[session.id] == session;
      if (ctx.path == cfg.refreshPath || cfg.autoAccess) && e.access.ok {
        assert token in out.issued;
        assert Outlives(sessions, token) <==> now + cfg.accessTtl > sessions[session.id].expiration;
      }
    }
  }

  /** The user of this login is found and not blocked. */
  predicate Welcome(e: CheckEnv, login: string) {
    e.users(login).Ok? && e.users(login).value.Some? && !e.users(login).value.value.blocked
  }

  /** A token the server put out is as good as it says: before its own expiration the session of a
      token is never found expired, so that only invalidation, tenancy, user and failures refuse it. */
  lemma TokenExpiryDecides(cfg: Config, requests: seq<Request>, times: seq<(int, int)>, token: Token, r: Request, now: int)
    requires cfg.autoRefresh && cfg.accessTtl <= cfg.refreshTtl
    requires Timely(requests, times, 0, 0) && StoringWorks(cfg, requests)
    requires var s := Continue(cfg, EMPTY, requests);
      token in s.emitted && token.sessionId in s.sessions && s.sessions[token.sessionId].valid
    requires r.Check? && OneReading(r.check, now) && TenancyMatches(r.ctx, token) && r.check.findOk
    ensures var s := Continue(cfg, EMPTY, requests);
      Admit(cfg, s.sessions, r.ctx, Decoded(token), r.check).Ok? <==>
        now <= token.exp && Welcome(r.check, s.sessions[token.sessionId].login)
  {
    RunKeeps(cfg, EMPTY, requests, times, 0, 0);
    var s := Continue(cfg, EMPTY, requests);
    assert Dominated(s.sessions, token, 0);
  }

  // ---------------------------------------------------------------- invalidation

  /** The sessions an accepted logout or an administrator's request makes invalid. */
  predicate Covers(cfg: Config, s: State, r: Request, id: string) {
    id in s.sessions &&
    match r
    case Check(ctx, access, refresh, env) =>
      && ctx.path == cfg.logoutPath && Handle(cfg, s, r).1 == Accepted
      && id == (if ctx.path == cfg.refreshPath then refresh else access).token.sessionId
    case New(_, _) => false
    case DropSession(userId, it, ok) => ok && it == id && s.sessions[id].userId == userId
    case DropUser(userId, ok) => ok && s.sessions[id].userId == userId
    case DropAll(ok) => ok
  }

  /** Exactly the covered sessions become invalid; nothing else about any session changes and no
      token is put out. */
  lemma InvalidationIsExact(cfg: Config, s: State, r: Request)
    requires Keyed(s.sessions) && Initial(r)
    requires !r.New?
    requires r.Check? ==> r.ctx.path == cfg.logoutPath
    ensures var t := Handle(cfg, s, r).0;
      && t.emitted == s.emitted && t.sessions.Keys == s.sessions.Keys
      && forall id | id in s.sessions ::
           t.sessions[id] == if Covers(cfg, s, r, id) then s.sessions[id].(valid := false) else s.sessions[id]
  {
  }

  predicate OfSameUser(a: Session, b: Session) {
    a.userId == b.userId && a.login == b.login
  }

  /** No session is lost, valid again or somebody else's. */
  ghost predicate NoneRevived(a: Sessions, b: Sessions) {
    Keyed(b) && forall id | id in a :: id in b && (b[id].valid ==> a[id].valid) && OfSameUser(a[id], b[id])
  }

  lemma RenewalRevivesNone(cfg: Config, sessions: Sessions, ctx: Context, id: string, n: Renewal)
    requires ctx.user.Some? && Keyed(sessions)
    ensures NoneRevived(sessions, GenRefreshToken(cfg, sessions, ctx, id, n).0)
  {}

  lemma ServeRevivesNone(cfg: Config, sessions: Sessions, ctx: Context, session: Session, env: CheckEnv)
    requires ctx.user.Some? && Keyed(sessions)
    ensures NoneRevived(sessions, Serve(cfg, sessions, ctx, session, env).0)
  {
    var (given, ok) := if ctx.path == cfg.refreshPath || cfg.autoAccess
                       then GenToken(ctx, Access, cfg.accessTtl, env.access) else (ctx, true);
    RenewalRevivesNone(cfg, sessions, given, session.id, env.refresh);
  }

  lemma CheckRevivesNone(cfg: Config, sessions: Sessions, ctx: Context, access: Shown, refresh: Shown, env: CheckEnv)
    requires Keyed(sessions)
    ensures NoneRevived(sessions, CheckToken(cfg, sessions, ctx, access, refresh, env).0)
  {
    var admitted := Admit(cfg, sessions, ctx, if ctx.path == cfg.refreshPath then refresh else access, env);
    if admitted.Ok? {
      var (session, user) := admitted.value;
      var known := ctx.(user := Some(user), sessionId := session.id);
      ServeRevivesNone(cfg, sessions, known, session, env);
    }
  }

  lemma NewRevivesNone(cfg: Config, sessions: Sessions, ctx: Context, env: NewEnv)
    requires Keyed(sessions)
    ensures NoneRevived(sessions, NewToken(cfg, sessions, ctx, env).0)
  {
    if ctx.user.Some? {
      var session := OpenSession(cfg, sessions, ctx, env);
      if session.Ok? {
        var (s0, c0, id) := session.value;
        assert NoneRevived(sessions, s0);
        RenewalRevivesNone(cfg, s0, c0, id, env.first);
        var (s1, c1, _) := GenRefreshToken(cfg, s0, c0, id, env.first);
        var c2 := GenToken(c1, Access, cfg.accessTtl, env.access).0;
        RenewalRevivesNone(cfg, s1, c2, id, env.second);
      }
    }
  }

  lemma NeverRevived(cfg: Config, s: State, r: Request)
    requires Keyed(s.sessions)
    ensures NoneRevived(s.sessions, Handle(cfg, s, r).0.sessions)
  {
    if r.Check? { CheckRevivesNone(cfg, s.sessions, r.ctx, r.access, r.refresh, r.check); }
    if r.New? { NewRevivesNone(cfg, s.sessions, r.ctx, r.creation); }
  }

  lemma {:induction false} StaysInvalid(cfg: Config, s: State, requests: seq<Request>, id: string)
    requires Keyed(s.sessions) && id in s.sessions && !s.sessions[id].valid
    ensures var t := Continue(cfg, s, requests); id in t.sessions && !t.sessions[id].valid
    decreases |requests|
  {
    if requests != [] {
      NeverRevived(cfg, s, requests[0]);
      StaysInvalid(cfg, Handle(cfg, s, requests[0]).0, requests[1..], id);
    }
  }

  lemma {:induction false} RunRevivesNone(cfg: Config, s: State, requests: seq<Request>)
    requires Keyed(s.sessions)
    ensures NoneRevived(s.sessions, Continue(cfg, s, requests).sessions)
    ensures s.emitted <= Continue(cfg, s, requests).emitted
    decreases |requests|
  {
    if requests != [] {
      NeverRevived(cfg, s, requests[0]);
      RunRevivesNone(cfg, Handle(cfg, s, requests[0]).0, requests[1..]);
    }
  }

  lemma CheckOfInvalid(cfg: Config, s: State, r: Request, id: string)
    requires Initial(r) && id in s.sessions && !s.sessions[id].valid
    requires r.Check? && var shown := if r.ctx.path == cfg.refreshPath then r.refresh else r.access;
             shown.Decoded? && shown.token.sessionId == id
    ensures Handle(cfg, s, r) == (s, Handle(cfg, s, r).1) && Handle(cfg, s, r).1 != Accepted
  {
    assert s.emitted + {} == s.emitted;
  }

  /** Once a session is invalidated, by logout, for its user or for everybody, no request that shows
      one of its tokens is ever accepted again, whatever happens in between, nor has any effect. */
  lemma InvalidationIsFinal(cfg: Config, before: seq<Request>, drop: Request, after: seq<Request>, r: Request, id: string)
    requires Initial(drop) && Initial(r) && Covers(cfg, Continue(cfg, EMPTY, before), drop, id)
    requires r.Check? && var shown := if r.ctx.path == cfg.refreshPath then r.refresh else r.access;
             shown.Decoded? && shown.token.sessionId == id
    ensures var s := Continue(cfg, Handle(cfg, Continue(cfg, EMPTY, before), drop).0, after);
            Handle(cfg, s, r) == (s, Handle(cfg, s, r).1) && Handle(cfg, s, r).1 != Accepted
  {
    var s := Continue(cfg, EMPTY, before);
    RunRevivesNone(cfg, EMPTY, before);
    InvalidationIsExact(cfg, s, drop);
    NeverRevived(cfg, s, drop);
    StaysInvalid(cfg, Handle(cfg, s, drop).0, after, id);
    RunRevivesNone(cfg, Handle(cfg, s, drop).0, after);
    CheckOfInvalid(cfg, Continue(cfg, Handle(cfg, s, drop).0, after), r, id);
  }

  // ---------------------------------------------------------------- what a token says

  /** The token is one of this user, session and tenancy. */
  predicate Names(token: Token, user: User, sessionId: string, tenancy: Option<string>) {
    && token.userId == user.id && token.sessionId == sessionId
    && match tenancy
       case Some(id) => token.tenancy == id
       case None => token.tenancy == ""
  }

  /** Which tokens follow another authentication method: each names the user, the session and the tenancy
      of its request, and an accepted request answers with both kinds, the refresh token last. */
  lemma NewIssues(cfg: Config, sessions: Sessions, ctx: Context, env: NewEnv)
    requires ctx.issued == {} && ctx.access == None && ctx.refresh == None
    ensures var (after, out, outcome) := NewToken(cfg, sessions, ctx, env);
      && (forall token | token in out.issued :: ctx.user.Some? && Names(token, ctx.user.value, out.sessionId, ctx.tenancy))
      && (outcome == Accepted ==>
            && out.user == ctx.user
            && out.access.Some? && out.access.value in out.issued && out.access.value.exp == env.access.at + cfg.accessTtl
            && out.refresh.Some? && out.refresh.value in out.issued
            && out.refresh.value.exp == env.second.token.at + cfg.refreshTtl)
  {
    if ctx.user.Some? {
      var session := OpenSession(cfg, sessions, ctx, env);
      if session.Ok? && env.clientOk { IssueIssues(cfg, session.value.0, session.value.1, session.value.2, env); }
    }
  }

  /** Putting out a refresh token changes nothing else in the context. */
  lemma RefreshIssues(cfg: Config, sessions: Sessions, ctx: Context, id: string, n: Renewal)
    requires ctx.user.Some?
    ensures var (after, out, ok) := GenRefreshToken(cfg, sessions, ctx, id, n);
      var token := TokenFor(ctx, n.token.at + cfg.refreshTtl);
      out == if ok then ctx.(issued := ctx.issued + {token}, refresh := Some(token)) else ctx
  {}

  lemma IssueIssues(cfg: Config, sessions: Sessions, ctx: Context, id: string, env: NewEnv)
    requires ctx.user.Some? && ctx.issued == {}
    ensures var (after, out, ok) := Issue(cfg, sessions, ctx, id, env);
      && (out.user, out.sessionId, out.tenancy) == (ctx.user, ctx.sessionId, ctx.tenancy)
      && (forall token | token in out.issued :: Names(token, ctx.user.value, ctx.sessionId, ctx.tenancy))
      && (ok ==>
            && out.access == Some(TokenFor(ctx, env.access.at + cfg.accessTtl)) && out.access.value in out.issued
            && out.refresh == Some(TokenFor(ctx, env.second.token.at + cfg.refreshTtl)) && out.refresh.value in out.issued)
  {
    var (s1, c1, renewed) := GenRefreshToken(cfg, sessions, ctx, id, env.first);
    RefreshIssues(cfg, sessions, ctx, id, env.first);
    if renewed {
      var (c2, given) := GenToken(c1, Access, cfg.accessTtl, env.access);
      if given { RefreshIssues(cfg, s1, c2, id, env.second); }
    }
  }

  /** When they are put out, and in which session: that of the context, or a new one of the user. */
  lemma NewAcceptedExactly(cfg: Config, sessions: Sessions, ctx: Context, env: NewEnv)
    ensures var (after, out, outcome) := NewToken(cfg, sessions, ctx, env);
      && (outcome == Accepted <==>
            && ctx.user.Some? && (if ctx.sessionId == "" then env.createOk && env.newId !in sessions else env.findOk)
            && env.clientOk && env.first.stored && env.first.token.ok && env.access.ok && env.second.stored && env.second.token.ok)
      && (outcome == Accepted && ctx.sessionId != "" ==>
            && out.sessionId == ctx.sessionId && after.Keys == sessions.Keys
            && (Keyed(sessions) && ctx.sessionId in sessions ==>
                  after[ctx.sessionId] == sessions[ctx.sessionId].(expiration := env.second.sessionAt + cfg.refreshTtl)))
      && (outcome == Accepted && ctx.sessionId == "" ==>
            && out.sessionId == env.newId && after.Keys == sessions.Keys + {env.newId}
            && after[env.newId] == Session(env.newId, ctx.user.value.id, ctx.user.value.login, true,
                                           env.second.sessionAt + cfg.refreshTtl))
  {}

  /** When a shown token is admitted, for which session and which user. */
  lemma AdmittedExactly(cfg: Config, sessions: Sessions, ctx: Context, shown: Shown, env: CheckEnv)
    ensures var admitted := Admit(cfg, sessions, ctx, shown, env);
      && (admitted.Ok? <==>
            && shown.Decoded? && env.checkedAt <= shown.token.exp
            && shown.token.tenancy == (if ctx.tenancy.Some? then ctx.tenancy.value else "")
            && env.findOk && shown.token.sessionId in sessions
            && var session := sessions[shown.token.sessionId];
               session.valid && env.now <= session.expiration && Welcome(env, session.login))
      && (admitted.Ok? ==>
            admitted.value == (sessions[shown.token.sessionId], env.users(sessions[shown.token.sessionId].login).value.value))
  {}

  /** How a token is refused, by cause; whatever else is wrong reads as an expired session. */
  lemma RefusedExactly(cfg: Config, sessions: Sessions, ctx: Context, shown: Shown, env: CheckEnv)
    requires Admit(cfg, sessions, ctx, shown, env).Err?
    ensures var refusal := Admit(cfg, sessions, ctx, shown, env).error;
      var inTime := shown.Decoded? && env.checkedAt <= shown.token.exp;
      var known := inTime && TenancyMatches(ctx, shown.token) && env.findOk && shown.token.sessionId in sessions
        && sessions[shown.token.sessionId].valid && env.now <= sessions[shown.token.sessionId].expiration;
      && refusal.Refused? && (refusal.found <==> !shown.Missing?)
      && (refusal.code == NoCode <==> shown.Missing?)
      && (refusal.code == InvalidToken <==> shown.Undecodable?)
      && (refusal.code == TokenExpired <==> shown.Decoded? && !inTime && ctx.path != cfg.refreshPath)
      && (refusal.code == InternalError <==> known && env.users(sessions[shown.token.sessionId].login).Err?)
      && (refusal.code == UnknownUser <==> known && env.users(sessions[shown.token.sessionId].login) == Ok(None))
      && (!refusal.error <==> shown == Missing(false) || (shown.Decoded? && !inTime) || refusal.code == UnknownUser)
  {}

  /** What an accepted check does: on the logout path it ends the session and puts nothing out; elsewhere
      it puts out an access token where access is prolonged, and a refresh token, with a new expiration of
      the session, where the session is renewed.  All of them name the user, the session and the tenancy. */
  lemma CheckIssues(cfg: Config, sessions: Sessions, ctx: Context, access: Shown, refresh: Shown, env: CheckEnv)
    requires Keyed(sessions) && ctx.issued == {} && ctx.access == None && ctx.refresh == None
    ensures var (after, out, outcome) := CheckToken(cfg, sessions, ctx, access, refresh, env);
      var shown := if ctx.path == cfg.refreshPath then refresh else access;
      var admitted := Admit(cfg, sessions, ctx, shown, env);
      && (forall token | token in out.issued ::
            admitted.Ok? && Names(token, admitted.value.1, shown.token.sessionId, ctx.tenancy))
      && (outcome == Accepted ==> admitted.Ok? && out.sessionId == shown.token.sessionId)
      && (outcome == Accepted && ctx.path == cfg.logoutPath ==>
            out.user == None && out.issued == {} && !after[out.sessionId].valid)
      && (outcome == Accepted && ctx.path != cfg.logoutPath ==>
            var session := sessions[out.sessionId];
            var prolonged := ctx.path == cfg.refreshPath || cfg.autoAccess;
            var renewed := cfg.autoRefresh && (ctx.path == cfg.refreshPath || session.expiration < env.now + cfg.accessTtl);
            && out.user == Some(admitted.value.1)
            && (out.access.Some? <==> prolonged)
            && (prolonged ==> out.access.value in out.issued && out.access.value.exp == env.access.at + cfg.accessTtl)
            && (out.refresh.Some? <==> renewed)
            && (renewed ==> out.refresh.value in out.issued && out.refresh.value.exp == env.refresh.token.at + cfg.refreshTtl)
            && after == if renewed then sessions[out.sessionId := session.(expiration := env.refresh.sessionAt + cfg.refreshTtl)]
                        else sessions)
  {}

  /** When a check is accepted, and how it fails after its token was admitted. */
  lemma CheckAcceptedExactly(cfg: Config, sessions: Sessions, ctx: Context, access: Shown, refresh: Shown, env: CheckEnv)
    ensures var outcome := CheckToken(cfg, sessions, ctx, access, refresh, env).2;
      var admitted := Admit(cfg, sessions, ctx, if ctx.path == cfg.refreshPath then refresh else access, env);
      && (admitted.Err? ==> outcome == admitted.error)
      && (admitted.Ok? ==>
            var prolonged := ctx.path == cfg.refreshPath || cfg.autoAccess;
            var renewed := cfg.autoRefresh
              && (ctx.path == cfg.refreshPath || admitted.value.0.expiration < env.now + cfg.accessTtl);
            outcome ==
              if env.clientOk && (if ctx.path == cfg.logoutPath then env.invalidateOk
                                  else (prolonged ==> env.access.ok) && (renewed ==> env.refresh.stored && env.refresh.token.ok))
              then Accepted else Refused(true, true, InternalError))
  {}

  /** How new tokens are refused: nobody is logged in, the session cannot be looked up, or something
      fails inside. */
  lemma NewRefusedExactly(cfg: Config, sessions: Sessions, ctx: Context, env: NewEnv)
    requires NewToken(cfg, sessions, ctx, env).2 != Accepted
    ensures NewToken(cfg, sessions, ctx, env).2 ==
              if ctx.user.None? then Refused(false, false, NoCode)
              else if ctx.sessionId != "" && !env.findOk then Refused(true, true, SessionExpired)
              else Refused(true, true, InternalError)
  {}

  lemma {:induction false} ContinueConcat(cfg: Config, s: State, a: seq<Request>, b: seq<Request>)
    ensures Continue(cfg, s, a + b) == Continue(cfg, Continue(cfg, s, a), b)
    decreases |a|
  {
    if a == [] {
      assert a + b == b;
    } else {
      assert (a + b)[1..] == a[1..] + b;
      ContinueConcat(cfg, Handle(cfg, s, a[0]).0, a[1..], b);
    }
  }

  /** The context with which a request is answered. */
  function Answered(cfg: Config, s: State, r: Request): Context
    requires r.Check? || r.New?
  {
    if r.New? then NewToken(cfg, s.sessions, r.ctx, r.creation).1
    else CheckToken(cfg, s.sessions, r.ctx, r.access, r.refresh, r.check).1
  }

  /** The loop is closed: a token that was put out for a request is admitted by every later check in the
      same tenancy, whatever happens in between, exactly as long as it has not expired and its user is
      found and not blocked, if nobody has ended its session.  The user is looked up by the login the
      session was opened with. */
  lemma IssuedTokenReturns(cfg: Config, before: seq<Request>, r: Request, after: seq<Request>, times: seq<(int, int)>,
                           token: Token, later: Request, now: int)
    requires cfg.autoRefresh && cfg.accessTtl <= cfg.refreshTtl
    requires Timely(before + [r] + after, times, 0, 0) && StoringWorks(cfg, before + [r] + after)
    requires (r.Check? || r.New?) && Initial(r) && token in Answered(cfg, Continue(cfg, EMPTY, before), r).issued
    requires var s := Continue(cfg, EMPTY, before + [r] + after);
      token.sessionId in s.sessions && s.sessions[token.sessionId].valid
    requires later.Check? && OneReading(later.check, now) && later.ctx.tenancy == r.ctx.tenancy && later.check.findOk
    ensures var s := Continue(cfg, EMPTY, before + [r] + after); var login := s.sessions[token.sessionId].login;
      && (Admit(cfg, s.sessions, later.ctx, Decoded(token), later.check).Ok? <==> now <= token.exp && Welcome(later.check, login))
      && (r.New? && r.ctx.sessionId == "" ==> r.ctx.user.Some? && login == r.ctx.user.value.login)
  {
    var b := Continue(cfg, EMPTY, before);
    var m := Handle(cfg, b, r).0;
    RunRevivesNone(cfg, EMPTY, before);
    NeverRevived(cfg, b, r);
    RunRevivesNone(cfg, m, after);
    assert before + [r] + after == before + ([r] + after) && ([r] + after)[1..] == after;
    ContinueConcat(cfg, EMPTY, before, [r] + after);
    var s := Continue(cfg, EMPTY, before + [r] + after);
    assert s == Continue(cfg, m, after) && token in m.emitted && token in s.emitted;
    if r.New? { NewOpens(cfg, b.sessions, r.ctx, r.creation, token); }
    else { CheckIssues(cfg, b.sessions, r.ctx, r.access, r.refresh, r.check); }
    TokenExpiryDecides(cfg, before + [r] + after, times, token, later, now);
  }

  lemma NewOpens(cfg: Config, sessions: Sessions, ctx: Context, env: NewEnv, token: Token)
    requires ctx.issued == {} && ctx.access == None && ctx.refresh == None && token in NewToken(cfg, sessions, ctx, env).1.issued
    ensures var (after, out, outcome) := NewToken(cfg, sessions, ctx, env);
      && ctx.user.Some? && Names(token, ctx.user.value, out.sessionId, ctx.tenancy)
      && (ctx.sessionId == "" ==> token.sessionId in after && after[token.sessionId].login == ctx.user.value.login)
  {
    NewIssues(cfg, sessions, ctx, env);
  }

  // ---------------------------------------------------------------- the handlers

  class SessionController {
    var sessions: Sessions

    constructor ()
      ensures sessions == map[]
    {
      sessions := map[];
    }

    method CreateSession(user: User, expiration: int, newId: string, ok: bool) returns (session: Option<Session>)
      modifies this
      ensures session.Some? <==> ok && newId !in old(sessions)
      ensures session.Some? ==> session.value == Session(newId, user.id, user.login, true, expiration)
      ensures sessions == if session.Some? then old(sessions)[newId := session.value] else old(sessions)
    {
      if !ok || newId in sessions { return None; }
      session := Some(Session(newId, user.id, user.login, true, expiration));
      sessions := sessions[newId := session.value];
    }

    /** That nothing was found goes unnoticed. */
    method Find(id: string, ok: bool) returns (session: Option<Session>)
      ensures session == if ok then Some(FindSession(sessions, id)) else None
    {
      if !ok { return None; }
      session := Some(NO_SESSION);
      if id in sessions { session := Some(sessions[id]); }
    }

    method UpdateSessionExpiration(session: Session, ok: bool)
      modifies this
      ensures sessions == if ok then SetExpiration(old(sessions), session.id, session.expiration) else old(sessions)
    {
      if ok && session.id in sessions {
        sessions := sessions[session.id := sessions[session.id].(expiration := session.expiration)];
      }
    }

    method InvalidateSession(userId: string, id: string, ok: bool)
      modifies this
      ensures sessions == if ok then InvalidateOne(old(sessions), userId, id) else old(sessions)
    {
      if ok {
        sessions := map x | x in sessions ::
          if sessions[x].id == id && sessions[x].userId == userId then sessions[x].(valid := false) else sessions[x];
      }
    }

    method InvalidateUserSessions(userId: string, ok: bool)
      modifies this
      ensures sessions == if ok then InvalidateOfUser(old(sessions), userId) else old(sessions)
    {
      if ok {
        sessions := map x | x in sessions ::
          if sessions[x].userId == userId then sessions[x].(valid := false) else sessions[x];
      }
    }

    method InvalidateAllSessions(ok: bool)
      modifies this
      ensures sessions == if ok then InvalidateAll(old(sessions)) else old(sessions)
    {
      if ok {
        sessions := map x | x in sessions :: sessions[x].(valid := false);
      }
    }
  }

  class AuthContext {
    const path: string
    const tenancy: Option<string>
    var user: Option<User>
    var sessionId: string
    ghost var issued: set<Token>
    var access: Option<Token>
    var refresh: Option<Token>

    ghost function Value(): Context
      reads this
    {
      Context(path, tenancy, user, sessionId, issued, access, refresh)
    }

    constructor (path: string, tenancy: Option<string>, user: Option<User>, sessionId: string)
      ensures Value() == Context(path, tenancy, user, sessionId, {}, None, None)
    {
      this.path, this.tenancy, this.user, this.sessionId := path, tenancy, user, sessionId;
      issued, access, refresh := {}, None, None;
    }
  }

  class AuthTokenHandler {
    const cfg: Config
    const users: SessionController

    constructor (cfg: Config, users: SessionController)
      ensures this.cfg == cfg && this.users == users
    {
      this.cfg, this.users := cfg, users;
    }

    method PutToken(ctx: AuthContext, kind: Kind, ttl: nat, stamp: Stamp) returns (ok: bool)
      requires ctx.user.Some?
      modifies ctx`issued, ctx`access, ctx`refresh
      ensures (ctx.Value(), ok) == GenToken(old(ctx.Value()), kind, ttl, stamp)
    {
      var tenancy := "";
      if ctx.tenancy.Some? { tenancy := ctx.tenancy.value; }
      var token := Token(ctx.user.value.id, ctx.sessionId, tenancy, stamp.at + ttl);
      if !stamp.ok { return false; }
      ctx.issued := ctx.issued + {token};
      if kind == Access { ctx.access := Some(token); } else { ctx.refresh := Some(token); }
      return true;
    }

    method PutRefreshToken(ctx: AuthContext, session: Session, renewal: Renewal) returns (ok: bool)
      requires ctx.user.Some?
      modifies ctx`issued, ctx`access, ctx`refresh, users
      ensures (users.sessions, ctx.Value(), ok) == GenRefreshToken(cfg, old(users.sessions), old(ctx.Value()), session.id, renewal)
    {
      users.UpdateSessionExpiration(session.(expiration := renewal.sessionAt + cfg.refreshTtl), renewal.stored);
      if !renewal.stored { return false; }
      ok := PutToken(ctx, Refresh, cfg.refreshTtl, renewal.token);
    }

    /** The second half of the check: new tokens, or the end of the session. */
    method Follow(ctx: AuthContext, session: Session, env: CheckEnv) returns (outcome: Outcome)
      requires ctx.user.Some?
      modifies ctx, users
      ensures (users.sessions, ctx.Value(), outcome) == Serve(cfg, old(users.sessions), old(ctx.Value()), session, env)
    {
      if ctx.path != cfg.logoutPath {
        if ctx.path == cfg.refreshPath || cfg.autoAccess {
          var given := PutToken(ctx, Access, cfg.accessTtl, env.access);
          if !given { return INTERNAL; }
        }
        if cfg.autoRefresh && (ctx.path == cfg.refreshPath || env.now + cfg.accessTtl > session.expiration) {
          var renewed := PutRefreshToken(ctx, session, env.refresh);
          if !renewed { return INTERNAL; }
        }
      } else {
        ctx.user := None;
        users.InvalidateSession(session.userId, session.id, env.invalidateOk);
        if !env.invalidateOk { return INTERNAL; }
      }
      return Accepted;
    }

    method Check(ctx: AuthContext, access: Shown, refresh: Shown, env: CheckEnv) returns (outcome: Outcome)
      modifies ctx, users
      ensures (users.sessions, ctx.Value(), outcome) == CheckToken(cfg, old(users.sessions), old(ctx.Value()), access, refresh, env)
    {
      var refreshing := ctx.path == cfg.refreshPath;
      var shown := if refreshing then refresh else access;
      if shown.Missing? { return Refused(false, shown.error, NoCode); }
      if shown.Undecodable? { return Refused(true, true, InvalidToken); }
      var prev := shown.token;
      if env.checkedAt > prev.exp { return Refused(true, false, if refreshing then SessionExpired else TokenExpired); }
      if ctx.tenancy.Some? || prev.tenancy != "" {
        if ctx.tenancy.None? || prev.tenancy != ctx.tenancy.value { return Refused(true, true, SessionExpired); }
      }
      var found := users.Find(prev.sessionId, env.findOk);
      if found.None? { return Refused(true, true, SessionExpired); }
      var session := found.value;
      if !session.valid { return Refused(true, true, SessionExpired); }
      if env.now > session.expiration { return Refused(true, true, SessionExpired); }
      var loaded := env.users(session.login);
      if loaded.Err? { return INTERNAL; }
      if loaded.value.None? { return Refused(true, false, UnknownUser); }
      var user := loaded.value.value;
      if user.blocked { return Refused(true, true, SessionExpired); }
      ctx.user := Some(user);
      ctx.sessionId := session.id;
      if !env.clientOk { return INTERNAL; }
      outcome := Follow(ctx, session, env);
    }

    /** The handler that follows another authentication method. */
    method New(ctx: AuthContext, env: NewEnv) returns (outcome: Outcome)
      modifies ctx, users
      ensures (users.sessions, ctx.Value(), outcome) == NewToken(cfg, old(users.sessions), old(ctx.Value()), env)
    {
      if ctx.user.None? { return Refused(false, false, NoCode); }
      var session: Session;
      if ctx.sessionId == "" {
        var created := users.CreateSession(ctx.user.value, env.createdAt + cfg.refreshTtl, env.newId, env.createOk);
        if created.None? { return INTERNAL; }
        session := created.value;
        ctx.sessionId := session.id;
      } else {
        var found := users.Find(ctx.sessionId, env.findOk);
        if found.None? { return Refused(true, true, SessionExpired); }
        session := found.value;
      }
      if !env.clientOk { return INTERNAL; }
      var renewed := PutRefreshToken(ctx, session, env.first);
      if !renewed { return INTERNAL; }
      var given := PutToken(ctx, Access, cfg.accessTtl, env.access);
      if !given { return INTERNAL; }
      renewed := PutRefreshToken(ctx, session, env.second);
      if !renewed { return INTERNAL; }
      return Accepted;
    }
  }
}
