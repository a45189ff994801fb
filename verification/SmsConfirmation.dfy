/** Confirmation of requests with SMS codes (pkg/auth/auth_methods/auth_sms/auth_sms.go).

    A request without a code makes the server send one and remember it in the cache under a fresh
    token; a wrong guess moves it to another fresh token with an increased try count.  The SMS
    identifier stays the same along the way and therefore names the lineage of a code.  The log
    records what an observer of the server could see. */
module SmsConfirmation {
  import opened Prelude

  /** The resolution of the clock. */
  const TICKS_PER_SECOND: nat := 1_000_000_000

  /** `mac` is the keyed checksum of a request; nothing is assumed about it. */
  datatype Config = Config(tokenTtl: nat, smsDelay: nat, maxTries: nat, mac: string -> string)

  ghost predicate ValidConfig(cfg: Config) {
    cfg.tokenTtl > 0 && cfg.smsDelay > 0 && cfg.maxTries > 1
  }

  function Ticks(seconds: nat): nat {
    seconds * TICKS_PER_SECOND
  }

  datatype CacheToken = CacheToken(tries: nat, code: string, checksum: string, smsId: nat)

  /** The token a client holds. */
  datatype SmsToken = SmsToken(id: nat, exp: int)

  datatype TokenParameter = Missing | Undecodable | Decoded(token: SmsToken)

  /** `phone` is absent for a user type without a phone number. */
  datatype User = User(id: string, phone: Option<string>)

  /** What the environment does to the request, and the one clock reading it makes.  Whether removing
      an entry from the cache succeeds, the server never learns. */
  datatype Environment = Environment(
    now: int, cacheReadable: bool, contentOk: bool, newCode: string, smsAccepted: bool,
    tokenStored: bool, tokenEncrypted: bool, delayStored: bool, tokenRemoved: bool, delayRemoved: bool)

  datatype Request = Request(
    user: Option<User>, verb: string, path: string, content: string,
    code: string, token: TokenParameter, env: Environment)

  datatype Outcome =
    | Confirmed
    | Unauthorized | TokenRequired | InvalidToken | TokenExpired | CacheFailure | TooManyTries
    | ContentMismatch | InvalidCode | TokenNotSaved
    | WaitDelay | InvalidContent | NoPhoneUser | InvalidPhone | SendFailed | ConfirmationRequired

  datatype Response = Response(sectionFound: bool, outcome: Outcome, delay: Option<int>, token: Option<SmsToken>)

  datatype CacheEntry<T> = CacheEntry(value: T, expires: int)

  /** A code was sent; `saved` tells whether the delay of the user was stored.  A guess was compared
      with the code of a lineage. */
  datatype Event =
    | Sent(smsId: nat, userId: string, phone: string, code: string, checksum: string, at: int, saved: bool)
    | Guess(smsId: nat, userId: string, guess: string, checksum: string, right: bool)

  datatype State = State(
    tokens: map<nat, CacheEntry<CacheToken>>, delays: map<string, CacheEntry<int>>,
    nextToken: nat, nextSms: nat, log: seq<Event>)

  const EMPTY: State := State(map[], map[], 0, 0, [])

  predicate Live<T>(e: CacheEntry<T>, now: int) {
    now < e.expires
  }

  function Checksum(cfg: Config, r: Request, userId: string): string {
    cfg.mac(userId + r.verb + r.path + r.content)
  }

  /** `setToken`: the cache first, the response second. */
  function SetToken(cfg: Config, s: State, id: nat, token: CacheToken, env: Environment): (State, Option<SmsToken>) {
    if !env.tokenStored then (s, None)
    else
      var stored := s.(tokens := s.tokens[id := CacheEntry(token, env.now + Ticks(cfg.tokenTtl))]);
      (stored, if env.tokenEncrypted then Some(SmsToken(id, env.now + Ticks(cfg.tokenTtl))) else None)
  }

  function Handle(cfg: Config, s: State, r: Request): (State, Response) {
    if r.user.None? then (s, Response(true, Unauthorized, None, None))
    else if r.code != "" then CheckCode(cfg, s, r, r.user.value.id)
    else SendCode(cfg, s, r, r.user.value)
  }

  function CheckCode(cfg: Config, s: State, r: Request, userId: string): (State, Response) {
    if r.token.Missing? then (s, Response(false, TokenRequired, None, None))
    else if r.token.Undecodable? then (s, Response(true, InvalidToken, None, None))
    else
      var token := r.token.token;
      if r.env.now > token.exp then (s, Response(true, TokenExpired, None, None))
      else if !r.env.cacheReadable then (s, Response(true, CacheFailure, None, None))
      else if token.id !in s.tokens || !Live(s.tokens[token.id], r.env.now) then (s, Response(true, TokenExpired, None, None))
      else
        var cached := s.tokens[token.id].value;
        if cached.tries >= cfg.maxTries then
          (s.(tokens := Without(s.tokens, token.id, r.env.tokenRemoved)), Response(true, TooManyTries, None, None))
        else if Checksum(cfg, r, userId) != cached.checksum then (s, Response(false, ContentMismatch, None, None))
        else Compare(cfg, s, r, userId, token.id)
  }

  /** The request gets as far as comparing its code with a cached one. */
  predicate Compares(cfg: Config, s: State, r: Request) {
    && r.user.Some? && r.code != "" && r.token.Decoded? && r.env.now <= r.token.token.exp && r.env.cacheReadable
    && r.token.token.id in s.tokens
    && var e := s.tokens[r.token.token.id];
       && Live(e, r.env.now) && e.value.tries < cfg.maxTries
       && Checksum(cfg, r, r.user.value.id) == e.value.checksum
  }

  /** The cache without this entry, unless its removal failed. */
  function Without<K, T>(entries: map<K, CacheEntry<T>>, key: K, removed: bool): map<K, CacheEntry<T>> {
    if removed then entries - {key} else entries
  }

  /** The code is compared; the entry is to be removed in any case. */
  function Compare(cfg: Config, s: State, r: Request, userId: string, id: nat): (State, Response)
    requires id in s.tokens
  {
    var cached := s.tokens[id].value;
    var guess := Guess(cached.smsId, userId, r.code, Checksum(cfg, r, userId), r.code == cached.code);
    var logged := s.(tokens := Without(s.tokens, id, r.env.tokenRemoved), log := s.log + [guess]);
    if r.code != cached.code then
      var (next, out) := SetToken(cfg, logged.(nextToken := s.nextToken + 1), s.nextToken,
                                  cached.(tries := cached.tries + 1), r.env);
      (next, Response(true, if out.Some? then InvalidCode else TokenNotSaved, None, out))
    else
      (logged.(delays := Without(s.delays, userId, r.env.delayRemoved)), Response(true, Confirmed, None, None))
  }

  /** Seconds still to wait, as reported to the client. */
  function RemainingDelay(cfg: Config, createdAt: int, now: int): int {
    var passed := (now - createdAt) / TICKS_PER_SECOND;
    if passed > cfg.smsDelay then 0 else cfg.smsDelay - passed
  }

  function SendCode(cfg: Config, s: State, r: Request, user: User): (State, Response) {
    if !r.env.cacheReadable then (s, Response(true, CacheFailure, None, None))
    else if user.id in s.delays && Live(s.delays[user.id], r.env.now) then
      (s, Response(true, WaitDelay, Some(RemainingDelay(cfg, s.delays[user.id].value, r.env.now)), None))
    else if !r.env.contentOk then (s, Response(true, InvalidContent, None, None))
    else if user.phone.None? then (s, Response(true, NoPhoneUser, None, None))
    else if user.phone.value == "" then (s, Response(true, InvalidPhone, None, None))
    else if !r.env.smsAccepted then
      (s.(nextToken := s.nextToken + 1, nextSms := s.nextSms + 1), Response(true, SendFailed, None, None))
    else Issue(cfg, s, r, user)
  }

  /** A code has been sent; the token and the delay are saved. */
  function Issue(cfg: Config, s: State, r: Request, user: User): (State, Response)
    requires user.phone.Some?
  {
    var cached := CacheToken(1, r.env.newCode, Checksum(cfg, r, user.id), s.nextSms);
    var saved := r.env.tokenStored && r.env.tokenEncrypted && r.env.delayStored;
    var sent := s.(nextToken := s.nextToken + 1, nextSms := s.nextSms + 1,
                   log := s.log + [Sent(s.nextSms, user.id, user.phone.value, cached.code, cached.checksum, r.env.now, saved)]);
    var (stored, out) := SetToken(cfg, sent, s.nextToken, cached, r.env);
    if out.None? then (stored, Response(true, TokenNotSaved, None, None))
    else
      var delayed := if r.env.delayStored
                     then stored.(delays := s.delays[user.id := CacheEntry(r.env.now, r.env.now + Ticks(cfg.smsDelay))])
                     else stored;
      (delayed, Response(true, ConfirmationRequired, Some(cfg.smsDelay), out))
  }

  // ---------------------------------------------------------------- lineages

  /** The guesses that were compared with the code `smsId`. */
  function Guesses(log: seq<Event>, smsId: nat): (gs: seq<Event>)
    ensures forall g | g in gs :: g.Guess? && g.smsId == smsId
    decreases |log|
  {
    if log == [] then []
    else
      var e := log[|log| - 1];
      var before := Guesses(log[..|log| - 1], smsId);
      if e.Guess? && e.smsId == smsId then before + [e] else before
  }

  lemma GuessesStep(log: seq<Event>, e: Event)
    ensures forall id :: Guesses(log + [e], id) ==
              if e.Guess? && e.smsId == id then Guesses(log, id) + [e] else Guesses(log, id)
  {
    assert (log + [e])[..|log|] == log;
  }

  ghost predicate AllWrong(gs: seq<Event>) {
    forall g | g in gs :: g.Guess? && !g.right
  }

  /** How the guesses of a lineage can look: wrong ones, and possibly a right one at the end that
      repeats the code and the checksum of the sending. */
  ghost predicate GuessesOk(cfg: Config, log: seq<Event>, smsId: nat) {
    var gs := Guesses(log, smsId);
    && |gs| <= cfg.maxTries - 1
    && (gs != [] ==> AllWrong(gs[..|gs| - 1]))
    && (gs != [] && gs[|gs| - 1].right ==>
          SentAs(log, smsId, gs[|gs| - 1].guess, gs[|gs| - 1].checksum))
  }

  ghost predicate SentAs(log: seq<Event>, smsId: nat, code: string, checksum: string) {
    exists k :: 0 <= k < |log| && log[k].Sent? && log[k].smsId == smsId && log[k].code == code && log[k].checksum == checksum
  }

  /** A cached code was guessed wrong `tries - 1` times since it was sent. */
  ghost predicate TokenOk(log: seq<Event>, t: CacheToken) {
    && t.tries == 1 + |Guesses(log, t.smsId)|
    && AllWrong(Guesses(log, t.smsId))
    && SentAs(log, t.smsId, t.code, t.checksum)
  }

  ghost predicate EntriesOk(log: seq<Event>, tokens: map<nat, CacheEntry<CacheToken>>, next: nat) {
    && (forall id {:trigger TokenOk(log, tokens[id].value)} | id in tokens :: TokenOk(log, tokens[id].value))
    && (forall id | id in tokens :: id < next)
    && (forall a, b | a in tokens && b in tokens && a != b :: tokens[a].value.smsId != tokens[b].value.smsId)
  }

  ghost predicate LogOk(log: seq<Event>, next: nat) {
    && (forall k | 0 <= k < |log| :: log[k].smsId < next)
    && (forall i, j | 0 <= i < j < |log| && log[i].Sent? && log[j].Sent? :: log[i].smsId != log[j].smsId)
  }

  ghost predicate AllGuessesOk(cfg: Config, log: seq<Event>) {
    forall smsId: nat :: GuessesOk(cfg, log, smsId)
  }

  ghost predicate LineageInv(cfg: Config, s: State) {
    EntriesOk(s.log, s.tokens, s.nextToken) && AllGuessesOk(cfg, s.log) && LogOk(s.log, s.nextSms)
  }

  lemma LongerLog(log: seq<Event>, e: Event)
    ensures forall id, code, checksum :: SentAs(log, id, code, checksum) ==> SentAs(log + [e], id, code, checksum)
  {
    forall id, code, checksum | SentAs(log, id, code, checksum) ensures SentAs(log + [e], id, code, checksum) {
      var k :| 0 <= k < |log| && log[k].Sent? && log[k].smsId == id && log[k].code == code && log[k].checksum == checksum;
      assert (log + [e])[k] == log[k];
    }
  }

  lemma {:induction false} NoGuessesBeyond(log: seq<Event>, smsId: nat)
    requires forall k | 0 <= k < |log| :: log[k].smsId < smsId
    ensures Guesses(log, smsId) == []
    decreases |log|
  {
    if log != [] { NoGuessesBeyond(log[..|log| - 1], smsId); }
  }

  /** A guess compared with the code of `t` does not disturb other codes. */
  lemma OtherToken(log: seq<Event>, e: Event, t: CacheToken)
    requires TokenOk(log, t) && (e.Guess? ==> e.smsId != t.smsId)
    ensures TokenOk(log + [e], t)
  {
    GuessesStep(log, e);
    LongerLog(log, e);
  }

  lemma GuessKeeps(cfg: Config, log: seq<Event>, t: CacheToken, g: Event)
    requires AllGuessesOk(cfg, log) && TokenOk(log, t) && t.tries < cfg.maxTries
    requires g.Guess? && g.smsId == t.smsId && g.checksum == t.checksum && g.right == (g.guess == t.code)
    ensures AllGuessesOk(cfg, log + [g])
    ensures !g.right ==> TokenOk(log + [g], t.(tries := t.tries + 1))
  {
    GuessesStep(log, g);
    LongerLog(log, g);
    forall smsId: nat ensures GuessesOk(cfg, log + [g], smsId) {
      assert GuessesOk(cfg, log, smsId);
      var gs := Guesses(log, smsId);
      assert (gs + [g])[..|gs|] == gs;
    }
  }

  lemma SendingKeeps(cfg: Config, log: seq<Event>, t: CacheToken, e: Event)
    requires AllGuessesOk(cfg, log) && LogOk(log, t.smsId)
    requires e.Sent? && e.smsId == t.smsId && e.code == t.code && e.checksum == t.checksum && t.tries == 1
    ensures AllGuessesOk(cfg, log + [e]) && TokenOk(log + [e], t)
  {
    GuessesStep(log, e);
    LongerLog(log, e);
    NoGuessesBeyond(log, t.smsId);
    assert (log + [e])[|log|] == e;
    forall smsId: nat ensures GuessesOk(cfg, log + [e], smsId) {
      assert GuessesOk(cfg, log, smsId);
    }
  }

  lemma EntriesSurvive(log: seq<Event>, e: Event, tokens: map<nat, CacheEntry<CacheToken>>, next: nat)
    requires EntriesOk(log, tokens, next)
    requires e.Guess? ==> forall id | id in tokens :: tokens[id].value.smsId != e.smsId
    ensures EntriesOk(log + [e], tokens, next)
  {
    forall id | id in tokens ensures TokenOk(log + [e], tokens[id].value) {
      assert TokenOk(log, tokens[id].value);
      OtherToken(log, e, tokens[id].value);
    }
  }

  lemma FewerEntries(log: seq<Event>, tokens: map<nat, CacheEntry<CacheToken>>, next: nat, id: nat)
    requires EntriesOk(log, tokens, next)
    ensures EntriesOk(log, tokens - {id}, next) && EntriesOk(log, tokens, next + 1)
  {
    var fewer := tokens - {id};
    forall x | x in fewer ensures TokenOk(log, fewer[x].value) { assert TokenOk(log, tokens[x].value); }
  }

  lemma OneMoreEntry(log: seq<Event>, tokens: map<nat, CacheEntry<CacheToken>>, next: nat, e: CacheEntry<CacheToken>)
    requires EntriesOk(log, tokens, next) && TokenOk(log, e.value)
    requires forall id | id in tokens :: tokens[id].value.smsId != e.value.smsId
    ensures EntriesOk(log, tokens[next := e], next + 1)
  {
    var more := tokens[next := e];
    forall x | x in more ensures TokenOk(log, more[x].value) {
      if x != next { assert TokenOk(log, tokens[x].value); }
    }
  }

  /** The cached code is taken out; its guess may put it back under the next token. */
  lemma GuessedEntries(cfg: Config, log: seq<Event>, tokens: map<nat, CacheEntry<CacheToken>>, next: nat, id: nat, g: Event)
    requires EntriesOk(log, tokens, next) && AllGuessesOk(cfg, log)
    requires id in tokens && tokens[id].value.tries < cfg.maxTries
    requires g.Guess? && g.smsId == tokens[id].value.smsId && g.checksum == tokens[id].value.checksum
    requires g.right == (g.guess == tokens[id].value.code)
    ensures AllGuessesOk(cfg, log + [g]) && EntriesOk(log + [g], tokens - {id}, next)
    ensures !g.right ==> TokenOk(log + [g], tokens[id].value.(tries := tokens[id].value.tries + 1))
  {
    assert TokenOk(log, tokens[id].value);
    GuessKeeps(cfg, log, tokens[id].value, g);
    FewerEntries(log, tokens, next, id);
    EntriesSurvive(log, g, tokens - {id}, next);
  }

  lemma CompareKeepsLineages(cfg: Config, s: State, r: Request, userId: string, id: nat)
    requires LineageInv(cfg, s) && id in s.tokens && s.tokens[id].value.tries < cfg.maxTries && r.env.tokenRemoved
    requires Checksum(cfg, r, userId) == s.tokens[id].value.checksum
    ensures LineageInv(cfg, Compare(cfg, s, r, userId, id).0)
  {
    var t := Compare(cfg, s, r, userId, id).0;
    var cached := s.tokens[id].value;
    var g := Guess(cached.smsId, userId, r.code, cached.checksum, r.code == cached.code);
    var rest := s.tokens - {id};
    GuessedEntries(cfg, s.log, s.tokens, s.nextToken, id, g);
    assert cached.smsId < s.nextSms by {
      assert TokenOk(s.log, cached);
      SentBefore(s, cached);
    }
    GuessExtendsLog(s.log, s.nextSms, g);
    if g.right {
    } else {
      FewerEntries(s.log + [g], rest, s.nextToken, id);
      if r.env.tokenStored {
        OneMoreEntry(s.log + [g], rest, s.nextToken, t.tokens[s.nextToken]);
      }
    }
  }

  lemma GuessExtendsLog(log: seq<Event>, next: nat, g: Event)
    requires LogOk(log, next) && g.Guess? && g.smsId < next
    ensures LogOk(log + [g], next)
  {}

  /** Removing an entry that has no tries left may fail. */
  lemma CheckKeepsLineages(cfg: Config, s: State, r: Request)
    requires LineageInv(cfg, s) && r.user.Some? && r.code != "" && (Compares(cfg, s, r) ==> r.env.tokenRemoved)
    ensures LineageInv(cfg, CheckCode(cfg, s, r, r.user.value.id).0)
  {
    var userId := r.user.value.id;
    var t := CheckCode(cfg, s, r, userId).0;
    if |t.log| > |s.log| {
      CompareKeepsLineages(cfg, s, r, userId, r.token.token.id);
    } else if t != s {
      FewerEntries(s.log, s.tokens, s.nextToken, r.token.token.id);
    }
  }

  /** A new code is sent; its token may be stored under `next`. */
  lemma SentEntries(cfg: Config, s: State, e: Event, t: CacheToken)
    requires LineageInv(cfg, s) && t.smsId == s.nextSms && t.tries == 1
    requires e.Sent? && e.smsId == t.smsId && e.code == t.code && e.checksum == t.checksum
    ensures AllGuessesOk(cfg, s.log + [e]) && EntriesOk(s.log + [e], s.tokens, s.nextToken) && TokenOk(s.log + [e], t)
    ensures forall x | x in s.tokens :: s.tokens[x].value.smsId < s.nextSms
  {
    SendingKeeps(cfg, s.log, t, e);
    EntriesSurvive(s.log, e, s.tokens, s.nextToken);
    forall x | x in s.tokens ensures s.tokens[x].value.smsId < s.nextSms {
      assert TokenOk(s.log, s.tokens[x].value);
      SentBefore(s, s.tokens[x].value);
    }
  }

  lemma SendingExtendsLog(log: seq<Event>, next: nat, e: Event)
    requires LogOk(log, next) && e.Sent? && e.smsId == next
    ensures LogOk(log + [e], next + 1)
  {}

  lemma IssueKeepsLineages(cfg: Config, s: State, r: Request, user: User)
    requires LineageInv(cfg, s) && user.phone.Some?
    ensures LineageInv(cfg, Issue(cfg, s, r, user).0)
  {
    var t := Issue(cfg, s, r, user).0;
    var cached := CacheToken(1, r.env.newCode, Checksum(cfg, r, user.id), s.nextSms);
    var saved := r.env.tokenStored && r.env.tokenEncrypted && r.env.delayStored;
    var e := Sent(s.nextSms, user.id, user.phone.value, cached.code, cached.checksum, r.env.now, saved);
    SentEntries(cfg, s, e, cached);
    SendingExtendsLog(s.log, s.nextSms, e);
    FewerEntries(s.log + [e], s.tokens, s.nextToken, s.nextToken);
    if r.env.tokenStored {
      OneMoreEntry(s.log + [e], s.tokens, s.nextToken, t.tokens[s.nextToken]);
    }
  }

  lemma SendKeepsLineages(cfg: Config, s: State, r: Request, user: User)
    requires LineageInv(cfg, s)
    ensures LineageInv(cfg, SendCode(cfg, s, r, user).0)
  {
    var t := SendCode(cfg, s, r, user).0;
    if |t.log| > |s.log| {
      IssueKeepsLineages(cfg, s, r, user);
    } else if t != s {
      FewerEntries(s.log, s.tokens, s.nextToken, s.nextToken);
    }
  }

  lemma SentBefore(s: State, t: CacheToken)
    requires TokenOk(s.log, t) && LogOk(s.log, s.nextSms)
    ensures t.smsId < s.nextSms
  {
    var k :| 0 <= k < |s.log| && s.log[k].Sent? && s.log[k].smsId == t.smsId;
  }

  // ---------------------------------------------------------------- spacing

  /** No right guess of `userId` from index `from` on. */
  ghost predicate NoConfirmation(log: seq<Event>, userId: string, from: nat) {
    forall m | from <= m < |log| :: !(log[m].Guess? && log[m].right && log[m].userId == userId)
  }

  ghost predicate Spaced(cfg: Config, log: seq<Event>) {
    forall i, j | 0 <= i < j < |log| && log[i].Sent? && log[i].saved && log[j].Sent? && log[i].userId == log[j].userId
      && NoConfirmation(log[..j], log[i].userId, i) ::
      log[j].at - log[i].at >= Ticks(cfg.smsDelay)
  }

  /** A saved sending that was not confirmed still blocks the user, or its delay is over by `clock`. */
  ghost predicate Blocks(cfg: Config, s: State, clock: int, k: nat)
    requires k < |s.log| && s.log[k].Sent?
  {
    var e := s.log[k];
    || clock >= e.at + Ticks(cfg.smsDelay)
    || (e.userId in s.delays && s.delays[e.userId].expires >= e.at + Ticks(cfg.smsDelay))
  }

  ghost predicate SpacingInv(cfg: Config, s: State, clock: int) {
    && Spaced(cfg, s.log)
    && (forall u | u in s.delays :: s.delays[u].value <= clock)
    && (forall k | 0 <= k < |s.log| && s.log[k].Sent? :: s.log[k].at <= clock)
    && (forall k | 0 <= k < |s.log| && s.log[k].Sent? && s.log[k].saved && NoConfirmation(s.log, s.log[k].userId, k) ::
          Blocks(cfg, s, clock, k))
  }

  lemma CheckKeepsSpacing(cfg: Config, s: State, r: Request, userId: string, clock: int)
    requires SpacingInv(cfg, s, clock) && clock <= r.env.now
    ensures SpacingInv(cfg, CheckCode(cfg, s, r, userId).0, r.env.now)
  {
    var (t, resp) := CheckCode(cfg, s, r, userId);
    SameSendings(cfg, s, t, clock, r.env.now);
  }

  /** Steps that send nothing, and unblock only users who have confirmed. */
  lemma SameSendings(cfg: Config, s: State, t: State, clock: int, now: int)
    requires SpacingInv(cfg, s, clock) && clock <= now
    requires |s.log| <= |t.log| <= |s.log| + 1 && t.log[..|s.log|] == s.log
    requires |t.log| > |s.log| ==> t.log[|s.log|].Guess?
    requires forall u | u in t.delays :: u in s.delays && t.delays[u] == s.delays[u]
    requires forall u | u in s.delays && u !in t.delays ::
      |t.log| > |s.log| && t.log[|s.log|].right && t.log[|s.log|].userId == u
    ensures SpacingInv(cfg, t, now)
  {
    assert forall k | 0 <= k < |s.log| :: t.log[k] == s.log[k];
    forall i, j | 0 <= i < j < |t.log| && t.log[i].Sent? && t.log[i].saved && t.log[j].Sent? && t.log[i].userId == t.log[j].userId
        && NoConfirmation(t.log[..j], t.log[i].userId, i)
      ensures t.log[j].at - t.log[i].at >= Ticks(cfg.smsDelay)
    {
      assert t.log[..j] == s.log[..j];
    }
    forall k | 0 <= k < |t.log| && t.log[k].Sent? && t.log[k].saved && NoConfirmation(t.log, t.log[k].userId, k)
      ensures Blocks(cfg, t, now, k)
    {
      assert NoConfirmation(s.log, s.log[k].userId, k);
      assert Blocks(cfg, s, clock, k);
    }
  }

  /** A sending to a user who is not blocked keeps all sendings apart. */
  lemma SendingIsSpaced(cfg: Config, s: State, e: Event, clock: int, now: int)
    requires SpacingInv(cfg, s, clock) && clock <= now && e.Sent? && e.at == now
    requires e.userId !in s.delays || s.delays[e.userId].expires <= now
    ensures Spaced(cfg, s.log + [e])
  {
    var log := s.log + [e];
    forall i, j | 0 <= i < j < |log| && log[i].Sent? && log[i].saved && log[j].Sent? && log[i].userId == log[j].userId
        && NoConfirmation(log[..j], log[i].userId, i)
      ensures log[j].at - log[i].at >= Ticks(cfg.smsDelay)
    {
      assert log[..j] == s.log[..j] && log[i] == s.log[i];
      if j == |s.log| {
        assert s.log[..j] == s.log;
        assert Blocks(cfg, s, clock, i);
      }
    }
  }

  /** What still blocks after a sending; only a saved one adds a delay. */
  lemma SendingBlocks(cfg: Config, s: State, t: State, e: Event, clock: int, now: int)
    requires SpacingInv(cfg, s, clock) && clock <= now && e.Sent? && e.at == now && t.log == s.log + [e]
    requires e.userId !in s.delays || s.delays[e.userId].expires <= now
    requires || t.delays == s.delays[e.userId := CacheEntry(now, now + Ticks(cfg.smsDelay))]
             || (!e.saved && t.delays == s.delays)
    ensures forall k | 0 <= k < |t.log| && t.log[k].Sent? && t.log[k].saved && NoConfirmation(t.log, t.log[k].userId, k) ::
              Blocks(cfg, t, now, k)
  {
    forall k | 0 <= k < |t.log| && t.log[k].Sent? && t.log[k].saved && NoConfirmation(t.log, t.log[k].userId, k)
      ensures Blocks(cfg, t, now, k)
    {
      if k < |s.log| {
        assert t.log[k] == s.log[k];
        assert NoConfirmation(s.log, s.log[k].userId, k) by {
          forall m | k <= m < |s.log| ensures !(s.log[m].Guess? && s.log[m].right && s.log[m].userId == s.log[k].userId) {
            assert t.log[m] == s.log[m];
          }
        }
        assert Blocks(cfg, s, clock, k);
      }
    }
  }

  lemma SendKeepsSpacing(cfg: Config, s: State, r: Request, user: User, clock: int)
    requires SpacingInv(cfg, s, clock) && clock <= r.env.now
    ensures SpacingInv(cfg, SendCode(cfg, s, r, user).0, r.env.now)
  {
    var (t, resp) := SendCode(cfg, s, r, user);
    if |t.log| == |s.log| {
      SameSendings(cfg, s, t, clock, r.env.now);
    } else {
      var e := t.log[|s.log|];
      assert t.log == s.log + [e];
      SendingIsSpaced(cfg, s, e, clock, r.env.now);
      SendingBlocks(cfg, s, t, e, clock, r.env.now);
    }
  }

  // ---------------------------------------------------------------- whole runs

  function Run(cfg: Config, requests: seq<Request>): State
    decreases |requests|
  {
    if requests == [] then EMPTY
    else Handle(cfg, Run(cfg, requests[..|requests| - 1]), requests[|requests| - 1]).0
  }

  /** The clock does not go backwards. */
  ghost predicate Ordered(requests: seq<Request>) {
    forall i, j | 0 <= i < j < |requests| :: requests[i].env.now <= requests[j].env.now
  }

  /** Whenever a code is compared, its entry is removed. */
  ghost predicate RemovalsWork(cfg: Config, requests: seq<Request>) {
    forall k | 0 <= k < |requests| :: Compares(cfg, Run(cfg, requests[..k]), requests[k]) ==> requests[k].env.tokenRemoved
  }

  lemma RemovalsWorkBefore(cfg: Config, requests: seq<Request>, n: nat)
    requires RemovalsWork(cfg, requests) && n <= |requests|
    ensures RemovalsWork(cfg, requests[..n])
  {
    forall k | 0 <= k < n ensures requests[..n][..k] == requests[..k] {}
  }

  lemma {:induction false} RunKeepsLineages(cfg: Config, requests: seq<Request>)
    requires ValidConfig(cfg) && RemovalsWork(cfg, requests)
    ensures LineageInv(cfg, Run(cfg, requests))
    decreases |requests|
  {
    if requests == [] {
      assert AllGuessesOk(cfg, EMPTY.log) && EntriesOk(EMPTY.log, EMPTY.tokens, 0);
    } else {
      var n := |requests| - 1;
      var r := requests[n];
      var s := Run(cfg, requests[..n]);
      RemovalsWorkBefore(cfg, requests, n);
      RunKeepsLineages(cfg, requests[..n]);
      if r.user.Some? {
        if r.code != "" { CheckKeepsLineages(cfg, s, r); }
        else { SendKeepsLineages(cfg, s, r, r.user.value); }
      }
    }
  }

  lemma {:induction false} RunKeepsSpacing(cfg: Config, requests: seq<Request>, clock: int)
    requires Ordered(requests)
    requires requests != [] ==> clock == requests[|requests| - 1].env.now
    ensures SpacingInv(cfg, Run(cfg, requests), clock)
    decreases |requests|
  {
    if requests != [] {
      var n := |requests| - 1;
      var r := requests[n];
      var s := Run(cfg, requests[..n]);
      var before := if n == 0 then clock else requests[n - 1].env.now;
      RunKeepsSpacing(cfg, requests[..n], before);
      if r.user.Some? {
        if r.code != "" { CheckKeepsSpacing(cfg, s, r, r.user.value.id, before); }
        else { SendKeepsSpacing(cfg, s, r, r.user.value, before); }
      } else {
        SameSendings(cfg, s, s, before, clock);
      }
    }
  }

  lemma GuessesMean(cfg: Config, log: seq<Event>, smsId: nat)
    requires GuessesOk(cfg, log, smsId)
    ensures var gs := Guesses(log, smsId);
      && |gs| <= cfg.maxTries - 1 && (forall i | 0 <= i < |gs| - 1 :: !gs[i].right)
      && (forall g | g in gs && g.right :: SentAs(log, smsId, g.guess, g.checksum))
  {
    var gs := Guesses(log, smsId);
    forall i | 0 <= i < |gs| - 1 ensures !gs[i].right { assert gs[..|gs| - 1][i] == gs[i]; }
    forall g | g in gs && g.right ensures SentAs(log, smsId, g.guess, g.checksum) {
      assert g == gs[|gs| - 1];
    }
  }

  /** At most one cache entry carries the code, the try count of that entry is one plus the wrong guesses
      so far, at most `maxTries - 1` guesses were ever compared with it, at most one of them is right, and
      a right one repeats the code and the request checksum recorded at sending. */
  ghost predicate Lineage(cfg: Config, s: State, smsId: nat) {
    var gs := Guesses(s.log, smsId);
    && (forall a, b | a in s.tokens && b in s.tokens
          && s.tokens[a].value.smsId == smsId && s.tokens[b].value.smsId == smsId :: a == b)
    && (forall a | a in s.tokens && s.tokens[a].value.smsId == smsId ::
          s.tokens[a].value.tries == 1 + |gs| && AllWrong(gs))
    && |gs| <= cfg.maxTries - 1
    && (forall i | 0 <= i < |gs| - 1 :: !gs[i].right)
    && (forall g | g in gs && g.right :: SentAs(s.log, smsId, g.guess, g.checksum))
  }

  lemma LineageMeans(cfg: Config, s: State, smsId: nat)
    requires LineageInv(cfg, s)
    ensures Lineage(cfg, s, smsId)
  {
    assert GuessesOk(cfg, s.log, smsId);
    GuessesMean(cfg, s.log, smsId);
    forall a | a in s.tokens && s.tokens[a].value.smsId == smsId
      ensures s.tokens[a].value.tries == 1 + |Guesses(s.log, smsId)| && AllWrong(Guesses(s.log, smsId)) {
      assert TokenOk(s.log, s.tokens[a].value);
    }
  }

  ghost predicate TokensBelow(s: State) {
    forall id | id in s.tokens :: id < s.nextToken
  }

  lemma HandleKeepsBelow(cfg: Config, s: State, r: Request)
    requires TokensBelow(s)
    ensures TokensBelow(Handle(cfg, s, r).0)
  {}

  lemma {:induction false} RunKeepsBelow(cfg: Config, requests: seq<Request>)
    ensures TokensBelow(Run(cfg, requests))
    decreases |requests|
  {
    if requests != [] {
      var n := |requests| - 1;
      RunKeepsBelow(cfg, requests[..n]);
      HandleKeepsBelow(cfg, Run(cfg, requests[..n]), requests[n]);
    }
  }

  /** A compared entry that is not removed keeps a try count that no longer counts its guesses. */
  lemma FailedRemovalBreaks(cfg: Config, s: State, r: Request)
    requires Compares(cfg, s, r) && !r.env.tokenRemoved && TokensBelow(s)
    ensures var smsId := s.tokens[r.token.token.id].value.smsId;
      !(Lineage(cfg, s, smsId) && Lineage(cfg, Handle(cfg, s, r).0, smsId))
  {
    var id := r.token.token.id;
    var cached := s.tokens[id].value;
    var t := Handle(cfg, s, r).0;
    GuessesStep(s.log, Guess(cached.smsId, r.user.value.id, r.code, cached.checksum, r.code == cached.code));
    assert id in t.tokens && t.tokens[id] == s.tokens[id];
    assert |Guesses(t.log, cached.smsId)| == |Guesses(s.log, cached.smsId)| + 1;
  }

  /** The lineage of every code that was ever sent is kept throughout a run if and only if the entry is
      removed whenever a code is compared. */
  lemma CodeLineage(cfg: Config, requests: seq<Request>)
    requires ValidConfig(cfg)
    ensures RemovalsWork(cfg, requests) <==>
              forall k, smsId: nat | 0 <= k <= |requests| :: Lineage(cfg, Run(cfg, requests[..k]), smsId)
  {
    if RemovalsWork(cfg, requests) {
      forall k, smsId: nat | 0 <= k <= |requests| ensures Lineage(cfg, Run(cfg, requests[..k]), smsId) {
        RemovalsWorkBefore(cfg, requests, k);
        RunKeepsLineages(cfg, requests[..k]);
        LineageMeans(cfg, Run(cfg, requests[..k]), smsId);
      }
    } else {
      var k :| 0 <= k < |requests| && Compares(cfg, Run(cfg, requests[..k]), requests[k]) && !requests[k].env.tokenRemoved;
      var s := Run(cfg, requests[..k]);
      RunKeepsBelow(cfg, requests[..k]);
      FailedRemovalBreaks(cfg, s, requests[k]);
      assert requests[..k + 1][..k] == requests[..k];
      assert Run(cfg, requests[..k + 1]) == Handle(cfg, s, requests[k]).0;
      var smsId := s.tokens[requests[k].token.token.id].value.smsId;
      assert !(Lineage(cfg, Run(cfg, requests[..k]), smsId) && Lineage(cfg, Run(cfg, requests[..k + 1]), smsId));
    }
  }

  /** A request is confirmed exactly by comparing its code with a live entry of the same checksum that
      has tries left, in every state; what it confirms is gone from the cache exactly if its removal
      succeeds. */
  lemma ConfirmedMeans(cfg: Config, s: State, r: Request)
    ensures var (t, resp) := Handle(cfg, s, r);
      resp.outcome == Confirmed <==> Compares(cfg, s, r) && r.code == s.tokens[r.token.token.id].value.code
    ensures var (t, resp) := Handle(cfg, s, r);
      resp.outcome == Confirmed ==> (r.token.token.id !in t.tokens <==> r.env.tokenRemoved)
  {}

  /** After a run that kept the lineages, a confirmed code had tries left, and no entry carries it any
      more exactly if this removal succeeds too. */
  lemma ConfirmedOnce(cfg: Config, requests: seq<Request>, r: Request)
    requires ValidConfig(cfg) && RemovalsWork(cfg, requests)
    requires Handle(cfg, Run(cfg, requests), r).1.outcome == Confirmed
    ensures var s := Run(cfg, requests); var t := Handle(cfg, s, r).0; var smsId := s.tokens[r.token.token.id].value.smsId;
      && |Guesses(s.log, smsId)| < cfg.maxTries - 1
      && ((forall a | a in t.tokens :: t.tokens[a].value.smsId != smsId) <==> r.env.tokenRemoved)
  {
    var s := Run(cfg, requests);
    ConfirmedMeans(cfg, s, r);
    RunKeepsLineages(cfg, requests);
    assert TokenOk(s.log, s.tokens[r.token.token.id].value);
  }

  /** A confirmed request that is repeated is confirmed again exactly if the removal failed. */
  lemma FailedRemovalConfirmsAgain(cfg: Config, s: State, r: Request)
    requires Handle(cfg, s, r).1.outcome == Confirmed
    ensures Handle(cfg, Handle(cfg, s, r).0, r).1.outcome == Confirmed <==> !r.env.tokenRemoved
  {
    ConfirmedMeans(cfg, s, r);
    ConfirmedMeans(cfg, Handle(cfg, s, r).0, r);
  }

  /** A wrong guess whose new token is stored leaves two entries for the code, the old one with its old
      try count, exactly if the removal failed. */
  lemma FailedRemovalForks(cfg: Config, s: State, r: Request)
    requires Handle(cfg, s, r).1.outcome == InvalidCode && s.nextToken !in s.tokens
    ensures var t := Handle(cfg, s, r).0; var shown := r.token.token.id;
      && shown in s.tokens && s.nextToken in t.tokens
      && t.tokens[s.nextToken].value == s.tokens[shown].value.(tries := s.tokens[shown].value.tries + 1)
      && (shown in t.tokens <==> !r.env.tokenRemoved) && (shown in t.tokens ==> t.tokens[shown] == s.tokens[shown])
  {}

  // ---------------------------------------------------------------- which answer is given when

  /** The entry of the shown token can be read and is not over. */
  ghost predicate EntryRead(s: State, r: Request) {
    && r.token.Decoded? && r.env.now <= r.token.token.exp && r.env.cacheReadable
    && r.token.token.id in s.tokens && r.env.now < s.tokens[r.token.token.id].expires
  }

  /** How a request with a code is answered, by cause, and what it leaves behind.  Only a missing token and
      another content read as if there were no section. */
  lemma AnsweredWithCode(cfg: Config, s: State, r: Request)
    requires r.user.Some? && r.code != ""
    ensures var (t, resp) := Handle(cfg, s, r); var shown := r.token.Decoded? && r.env.now <= r.token.token.exp;
      && (resp.outcome == TokenRequired <==> r.token.Missing?)
      && (resp.outcome == InvalidToken <==> r.token.Undecodable?)
      && (resp.outcome == CacheFailure <==> shown && !r.env.cacheReadable)
      && (resp.outcome == TokenExpired <==>
            r.token.Decoded? && (!shown || r.env.cacheReadable) && !EntryRead(s, r))
      && (resp.outcome == TooManyTries <==> EntryRead(s, r) && s.tokens[r.token.token.id].value.tries >= cfg.maxTries)
      && (resp.outcome == ContentMismatch <==>
            && EntryRead(s, r) && s.tokens[r.token.token.id].value.tries < cfg.maxTries
            && s.tokens[r.token.token.id].value.checksum != cfg.mac(r.user.value.id + r.verb + r.path + r.content))
      && (resp.sectionFound <==> resp.outcome != TokenRequired && resp.outcome != ContentMismatch)
      && resp.delay == None
  {}

  lemma EffectWithCode(cfg: Config, s: State, r: Request)
    requires r.user.Some? && r.code != ""
    ensures var (t, resp) := Handle(cfg, s, r);
      && (!Compares(cfg, s, r) ==>
            t == if resp.outcome == TooManyTries && r.env.tokenRemoved then s.(tokens := s.tokens - {r.token.token.id}) else s)
      && (resp.outcome == Confirmed ==>
            t.delays == if r.env.delayRemoved then s.delays - {r.user.value.id} else s.delays)
      && (resp.outcome != Confirmed ==> t.delays == s.delays)
  {}

  ghost predicate MustWait(s: State, r: Request, userId: string) {
    r.env.cacheReadable && userId in s.delays && r.env.now < s.delays[userId].expires
  }

  /** How a request without a code is answered, by cause.  A user who has to wait is told the seconds that
      are left of the delay, and one who got a code the whole delay. */
  lemma AnsweredWithoutCode(cfg: Config, s: State, r: Request)
    requires r.user.Some? && r.code == ""
    ensures var (t, resp) := Handle(cfg, s, r); var user := r.user.value;
      var free := r.env.cacheReadable && !MustWait(s, r, user.id);
      && resp.sectionFound
      && (resp.outcome == CacheFailure <==> !r.env.cacheReadable)
      && (resp.outcome == WaitDelay <==> MustWait(s, r, user.id))
      && (resp.outcome == InvalidContent <==> free && !r.env.contentOk)
      && (resp.outcome == NoPhoneUser <==> free && r.env.contentOk && user.phone == None)
      && (resp.outcome == InvalidPhone <==> free && r.env.contentOk && user.phone == Some(""))
      && (resp.outcome == SendFailed <==>
            free && r.env.contentOk && user.phone.Some? && user.phone != Some("") && !r.env.smsAccepted)
      && (resp.outcome == ConfirmationRequired ==> resp.delay == Some(cfg.smsDelay))
      && (resp.outcome == WaitDelay ==>
            && resp.delay.Some?
            && var since := r.env.now - s.delays[user.id].value;
               if since >= cfg.smsDelay * 1_000_000_000 then resp.delay.value == 0
               else 0 <= resp.delay.value * 1_000_000_000 - (cfg.smsDelay * 1_000_000_000 - since) < 1_000_000_000)
      && (resp.outcome != ConfirmationRequired && resp.outcome != WaitDelay ==> resp.delay == None)
  {
    var user := r.user.value;
    if MustWait(s, r, user.id) { SecondsLeft(cfg.smsDelay, r.env.now - s.delays[user.id].value); }
  }

  lemma SecondsLeft(delay: nat, since: int)
    ensures var passed := since / 1_000_000_000; var left := if passed > delay then 0 else delay - passed;
      if since >= delay * 1_000_000_000 then left == 0
      else 0 <= left * 1_000_000_000 - (delay * 1_000_000_000 - since) < 1_000_000_000
  {}

  /** Nothing is touched unless a code is sent, and then only the token and the delay of the user. */
  lemma EffectWithoutCode(cfg: Config, s: State, r: Request)
    requires r.user.Some? && r.code == ""
    ensures var (t, resp) := Handle(cfg, s, r);
      && (t.log == s.log ==> t.tokens == s.tokens && t.delays == s.delays)
      && (resp.outcome == ConfirmationRequired ==>
            && t.tokens == s.tokens[resp.token.value.id := t.tokens[resp.token.value.id]]
            && t.delays == if r.env.delayStored
                 then s.delays[r.user.value.id := CacheEntry(r.env.now, r.env.now + cfg.smsDelay * 1_000_000_000)]
                 else s.delays)
  {}

  lemma UnknownUserIsRefused(cfg: Config, s: State, r: Request)
    ensures Handle(cfg, s, r).1.outcome == Unauthorized <==> r.user.None?
    ensures r.user.None? ==> Handle(cfg, s, r) == (s, Response(true, Unauthorized, None, None))
  {}

  // ---------------------------------------------------------------- what the client gets back

  /** The stretch of requests that follows a state. */
  function Continue(cfg: Config, s: State, requests: seq<Request>): State
    decreases |requests|
  {
    if requests == [] then s else Continue(cfg, Handle(cfg, s, requests[0]).0, requests[1..])
  }

  predicate Shows(r: Request, id: nat) {
    r.token.Decoded? && r.token.token.id == id
  }

  /** An entry stays as it is while nobody shows its token. */
  lemma {:induction false} EntryWaits(cfg: Config, s: State, requests: seq<Request>, id: nat)
    requires TokensBelow(s) && id in s.tokens && forall r | r in requests :: !Shows(r, id)
    ensures var t := Continue(cfg, s, requests); id in t.tokens && t.tokens[id] == s.tokens[id]
    decreases |requests|
  {
    if requests != [] {
      assert requests[0] in requests && forall r | r in requests[1..] :: r in requests;
      HandleKeepsBelow(cfg, s, requests[0]);
      EntryWaits(cfg, Handle(cfg, s, requests[0]).0, requests[1..], id);
    }
  }

  predicate SameContent(q: Request, r: Request) {
    && q.user.Some? && r.user.Some? && q.user.value.id == r.user.value.id
    && q.verb == r.verb && q.path == r.path && q.content == r.content
  }

  /** The code a client has to know, and the tries used up, after it was given a token. */
  function Expected(s: State, r: Request): (string, nat) {
    if r.code == "" then (r.env.newCode, 1)
    else if r.token.Decoded? && r.token.token.id in s.tokens then
      var shown := s.tokens[r.token.token.id].value; (shown.code, shown.tries + 1)
    else ("", 0)
  }

  /** The token in a response works: whatever others do in the meantime, the same request with this token
      and the right code is confirmed until the token expires, unless the tries are used up; a wrong code is
      answered with another token. */
  lemma ReturnedTokenWorks(cfg: Config, s: State, r: Request, between: seq<Request>, again: Request)
    requires TokensBelow(s) && Handle(cfg, s, r).1.token.Some?
    requires var token := Handle(cfg, s, r).1.token.value;
      && (forall b | b in between :: !Shows(b, token.id))
      && SameContent(r, again) && again.code != "" && again.token == Decoded(token)
      && again.env.cacheReadable && again.env.now < token.exp
    ensures Handle(cfg, s, r).1.token.value.exp == r.env.now + cfg.tokenTtl * 1_000_000_000
    ensures var (code, tries) := Expected(s, r);
      var outcome := Handle(cfg, Continue(cfg, Handle(cfg, s, r).0, between), again).1.outcome;
      if tries >= cfg.maxTries then outcome == TooManyTries
      else if again.code == code then outcome == Confirmed
      else outcome == if again.env.tokenStored && again.env.tokenEncrypted then InvalidCode else TokenNotSaved
  {
    var (t, resp) := Handle(cfg, s, r);
    var id := resp.token.value.id;
    HandleKeepsBelow(cfg, s, r);
    assert id in t.tokens && t.tokens[id].expires == resp.token.value.exp;
    EntryWaits(cfg, t, between, id);
  }

  /** A token is given exactly when a code was sent or compared in vain, and could be saved. */
  lemma TokenIsGiven(cfg: Config, s: State, r: Request)
    ensures var (t, resp) := Handle(cfg, s, r);
      && (resp.token.Some? <==> resp.outcome == ConfirmationRequired || resp.outcome == InvalidCode)
      && (resp.token.Some? ==> |t.log| == |s.log| + 1 && r.env.tokenStored && r.env.tokenEncrypted)
      && (|t.log| > |s.log| && resp.token.None? ==> resp.outcome == Confirmed || resp.outcome == TokenNotSaved)
  {}

  /** When a code is sent, and where to. */
  lemma SentExactly(cfg: Config, s: State, r: Request)
    ensures var t := Handle(cfg, s, r).0;
      (exists e :: t.log == s.log + [e] && e.Sent?) <==>
        && r.user.Some? && r.code == "" && r.env.cacheReadable && r.env.contentOk && r.env.smsAccepted
        && r.user.value.phone.Some? && r.user.value.phone.value != ""
        && !(r.user.value.id in s.delays && r.env.now < s.delays[r.user.value.id].expires)
    ensures var t := Handle(cfg, s, r).0;
      forall e | t.log == s.log + [e] && e.Sent? ::
        e.userId == r.user.value.id && e.phone == r.user.value.phone.value && e.code == r.env.newCode && e.at == r.env.now
  {
    var t := Handle(cfg, s, r).0;
    if |t.log| > |s.log| { assert t.log == s.log + [t.log[|s.log|]]; }
    forall e | t.log == s.log + [e] ensures t.log[|s.log|] == e {}
  }

  /** The request for which a code was sent, and the checksum it was remembered with. */
  ghost predicate SentFor(cfg: Config, q: Request, code: string, checksum: string) {
    && q.user.Some? && q.code == "" && q.env.smsAccepted && q.env.newCode == code
    && checksum == cfg.mac(q.user.value.id + q.verb + q.path + q.content)
  }

  ghost predicate WasSent(cfg: Config, requests: seq<Request>, code: string, checksum: string) {
    exists k :: 0 <= k < |requests| && SentFor(cfg, requests[k], code, checksum)
  }

  lemma {:induction false} EntriesWereSent(cfg: Config, requests: seq<Request>, id: nat)
    requires id in Run(cfg, requests).tokens
    ensures var e := Run(cfg, requests).tokens[id].value; WasSent(cfg, requests, e.code, e.checksum)
    decreases |requests|
  {
    if requests != [] {
      var n := |requests| - 1;
      var before, r := Run(cfg, requests[..n]), requests[n];
      var e := Run(cfg, requests).tokens[id].value;
      if id in before.tokens && before.tokens[id].value.code == e.code && before.tokens[id].value.checksum == e.checksum {
        EntriesWereSent(cfg, requests[..n], id);
        SentBeforeToo(cfg, requests, n, e.code, e.checksum);
      } else if r.code == "" {
        assert SentFor(cfg, requests[n], e.code, e.checksum);
      } else {
        EntriesWereSent(cfg, requests[..n], r.token.token.id);
        SentBeforeToo(cfg, requests, n, e.code, e.checksum);
      }
    }
  }

  lemma SentBeforeToo(cfg: Config, requests: seq<Request>, n: nat, code: string, checksum: string)
    requires n <= |requests| && WasSent(cfg, requests[..n], code, checksum)
    ensures WasSent(cfg, requests, code, checksum)
  {
    var k :| 0 <= k < n && SentFor(cfg, requests[..n][k], code, checksum);
    assert requests[..n][k] == requests[k];
  }

  /** Only what was sent is confirmed, in every run: a confirmed request repeats the code sent for an
      earlier one, and with a checksum without collisions it is the same user asking for the same, up to
      where one part ends and the next begins. */
  lemma ConfirmedWasSent(cfg: Config, requests: seq<Request>, r: Request)
    requires Handle(cfg, Run(cfg, requests), r).1.outcome == Confirmed
    ensures WasSent(cfg, requests, r.code, cfg.mac(r.user.value.id + r.verb + r.path + r.content))
    ensures (forall a, b | cfg.mac(a) == cfg.mac(b) :: a == b) ==>
      exists k :: 0 <= k < |requests| && requests[k].user.Some? && requests[k].code == "" && requests[k].env.newCode == r.code
        && requests[k].user.value.id + requests[k].verb + requests[k].path + requests[k].content
           == r.user.value.id + r.verb + r.path + r.content
  {
    ConfirmedMeans(cfg, Run(cfg, requests), r);
    EntriesWereSent(cfg, requests, r.token.token.id);
    var checksum := cfg.mac(r.user.value.id + r.verb + r.path + r.content);
    var k :| 0 <= k < |requests| && SentFor(cfg, requests[k], r.code, checksum);
  }

  /** Two codes sent to the same user, the first with its delay saved, are at least the configured
      delay apart unless the user confirmed a code in between. */
  lemma SmsSpacing(cfg: Config, requests: seq<Request>, i: nat, j: nat)
    requires Ordered(requests)
    requires var log := Run(cfg, requests).log;
      && i < j < |log| && log[i].Sent? && log[j].Sent? && log[i].saved && log[i].userId == log[j].userId
      && NoConfirmation(log[..j], log[i].userId, i)
    ensures var log := Run(cfg, requests).log; log[j].at - log[i].at >= Ticks(cfg.smsDelay)
  {
    RunKeepsSpacing(cfg, requests, if requests == [] then 0 else requests[|requests| - 1].env.now);
  }

  /** Saving the delay is needed: after a sending that did not save it, because the token could not
      be stored or encrypted or the delay could not be stored, the same request is served again at
      once. */
  lemma UnsavedSendingsAreNotSpaced(cfg: Config, s: State, r: Request)
    requires r.user.Some? && r.code == ""
    requires var t := Handle(cfg, s, r).0; |t.log| > |s.log| && !t.log[|s.log|].saved
    ensures var t := Handle(cfg, s, r).0; var u := Handle(cfg, t, r).0;
      |u.log| == |t.log| + 1 && u.log[|t.log|].Sent? && u.log[|t.log|].userId == t.log[|s.log|].userId
      && u.log[|t.log|].at == t.log[|s.log|].at
  {}

  /** The delay reported to a client lies between zero and the configured delay. */
  lemma ReportedDelay(cfg: Config, requests: seq<Request>, r: Request)
    requires Ordered(requests + [r])
    ensures var resp := Handle(cfg, Run(cfg, requests), r).1;
            resp.delay.Some? ==> 0 <= resp.delay.value <= cfg.smsDelay
  {
    var clock := if requests == [] then r.env.now else requests[|requests| - 1].env.now;
    assert (requests + [r])[|requests|] == r;
    assert forall k | 0 <= k < |requests| :: (requests + [r])[k] == requests[k];
    RunKeepsSpacing(cfg, requests, clock);
  }

  // ---------------------------------------------------------------- the handler

  class AuthSms {
    const cfg: Config
    var tokens: map<nat, CacheEntry<CacheToken>>
    var delays: map<string, CacheEntry<int>>
    var nextToken: nat
    var nextSms: nat
    ghost var log: seq<Event>

    ghost function Now(): State
      reads this
    {
      State(tokens, delays, nextToken, nextSms, log)
    }

    constructor (cfg: Config)
      ensures this.cfg == cfg && Now() == EMPTY
    {
      this.cfg := cfg;
      tokens, delays, nextToken, nextSms, log := map[], map[], 0, 0, [];
    }

    method SetSmsToken(id: nat, cacheToken: CacheToken, env: Environment) returns (out: Option<SmsToken>)
      modifies this
      ensures (Now(), out) == SetToken(cfg, old(Now()), id, cacheToken, env)
    {
      if !env.tokenStored { return None; }
      tokens := tokens[id := CacheEntry(cacheToken, env.now + Ticks(cfg.tokenTtl))];
      if !env.tokenEncrypted { return None; }
      return Some(SmsToken(id, env.now + Ticks(cfg.tokenTtl)));
    }

    /** The error of a failed removal is ignored. */
    method UnsetToken(id: nat, removed: bool)
      modifies this`tokens
      ensures tokens == Without(old(tokens), id, removed)
    {
      if removed { tokens := tokens - {id}; }
    }

    method HandleRequest(r: Request) returns (resp: Response)
      modifies this
      ensures (Now(), resp) == Handle(cfg, old(Now()), r)
    {
      if r.user.None? { return Response(true, Unauthorized, None, None); }
      if r.code != "" {
        resp := HandleCode(r, r.user.value.id);
      } else {
        resp := HandleNoCode(r, r.user.value);
      }
    }

    method HandleCode(r: Request, userId: string) returns (resp: Response)
      modifies this
      ensures (Now(), resp) == CheckCode(cfg, old(Now()), r, userId)
    {
      if r.token.Missing? { return Response(false, TokenRequired, None, None); }
      if r.token.Undecodable? { return Response(true, InvalidToken, None, None); }
      var token := r.token.token;
      if r.env.now > token.exp { return Response(true, TokenExpired, None, None); }
      if !r.env.cacheReadable { return Response(true, CacheFailure, None, None); }
      if token.id !in tokens || !Live(tokens[token.id], r.env.now) { return Response(true, TokenExpired, None, None); }
      var cacheToken := tokens[token.id].value;
      if cacheToken.tries >= cfg.maxTries {
        UnsetToken(token.id, r.env.tokenRemoved);
        return Response(true, TooManyTries, None, None);
      }
      var checksum := Checksum(cfg, r, userId);
      if checksum != cacheToken.checksum { return Response(false, ContentMismatch, None, None); }
      UnsetToken(token.id, r.env.tokenRemoved);
      log := log + [Guess(cacheToken.smsId, userId, r.code, checksum, r.code == cacheToken.code)];
      if r.code != cacheToken.code {
        var id := nextToken;
        nextToken := nextToken + 1;
        var out := SetSmsToken(id, cacheToken.(tries := cacheToken.tries + 1), r.env);
        return Response(true, if out.Some? then InvalidCode else TokenNotSaved, None, out);
      }
      if r.env.delayRemoved { delays := delays - {userId}; }
      return Response(true, Confirmed, None, None);
    }

    method HandleNoCode(r: Request, user: User) returns (resp: Response)
      modifies this
      ensures (Now(), resp) == SendCode(cfg, old(Now()), r, user)
    {
      if !r.env.cacheReadable { return Response(true, CacheFailure, None, None); }
      if user.id in delays && Live(delays[user.id], r.env.now) {
        return Response(true, WaitDelay, Some(RemainingDelay(cfg, delays[user.id].value, r.env.now)), None);
      }
      if !r.env.contentOk { return Response(true, InvalidContent, None, None); }
      if user.phone.None? { return Response(true, NoPhoneUser, None, None); }
      if user.phone.value == "" { return Response(true, InvalidPhone, None, None); }
      var id, smsId := nextToken, nextSms;
      nextToken, nextSms := nextToken + 1, nextSms + 1;
      var cacheToken := CacheToken(1, r.env.newCode, Checksum(cfg, r, user.id), smsId);
      if !r.env.smsAccepted { return Response(true, SendFailed, None, None); }
      log := log + [Sent(smsId, user.id, user.phone.value, cacheToken.code, cacheToken.checksum, r.env.now,
                         r.env.tokenStored && r.env.tokenEncrypted && r.env.delayStored)];
      var out := SetSmsToken(id, cacheToken, r.env);
      if out.None? { return Response(true, TokenNotSaved, None, None); }
      if r.env.delayStored {
        delays := delays[user.id := CacheEntry(r.env.now, r.env.now + Ticks(cfg.smsDelay))];
      }
      return Response(true, ConfirmationRequired, Some(cfg.smsDelay), out);
    }
  }
}
