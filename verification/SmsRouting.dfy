/** The choice of an SMS provider by the number of the recipient (pkg/sms/sms_manager.go). */
module SmsRouting {
  import opened Prelude

  datatype Destination = Destination(prefix: string, provider: string)

  predicate Matches(d: Destination, recipient: string) {
    d.prefix <= recipient
  }

  /** The first destination in the list that matches. */
  function FirstMatch(ds: seq<Destination>, recipient: string): Option<Destination> {
    if ds == [] then None else if Matches(ds[0], recipient) then Some(ds[0]) else FirstMatch(ds[1..], recipient)
  }

  /** The destinations with prefixes of length `n`, in their order. */
  function OfLength(ds: seq<Destination>, n: nat): seq<Destination> {
    if ds == [] then []
    else
      var before := OfLength(ds[..|ds| - 1], n);
      if |ds[|ds| - 1].prefix| == n then before + [ds[|ds| - 1]] else before
  }

  ghost predicate Descending(ds: seq<Destination>) {
    forall i, j | 0 <= i < j < |ds| :: |ds[i].prefix| >= |ds[j].prefix|
  }

  /** What a stable sort by descending length promises: longer prefixes come first, and those of the
      same length are exactly the configured ones in the configured order. */
  ghost predicate StablySorted(configured: seq<Destination>, sorted: seq<Destination>) {
    Descending(sorted) && forall n: nat :: OfLength(sorted, n) == OfLength(configured, n)
  }

  ghost predicate Begins(recipient: string, prefix: string) {
    |prefix| <= |recipient| && forall k | 0 <= k < |prefix| :: recipient[k] == prefix[k]
  }

  /** The configured destination a recipient should get: a matching one with the longest prefix, the
      earliest if there are several. */
  ghost predicate IsBest(configured: seq<Destination>, recipient: string, i: nat) {
    && i < |configured| && Begins(recipient, configured[i].prefix)
    && forall j | 0 <= j < |configured| && Begins(recipient, configured[j].prefix) ::
         |configured[j].prefix| <= |configured[i].prefix| && (|configured[j].prefix| == |configured[i].prefix| ==> i <= j)
  }

  lemma MatchesMeans(d: Destination, recipient: string)
    ensures Matches(d, recipient) <==> Begins(recipient, d.prefix)
  {
    if Begins(recipient, d.prefix) { assert d.prefix == recipient[..|d.prefix|]; }
  }

  // ---------------------------------------------------------------- lists of one length

  lemma OfLengthConcat(a: seq<Destination>, b: seq<Destination>, n: nat)
    ensures OfLength(a + b, n) == OfLength(a, n) + OfLength(b, n)
    decreases |b|
  {
    if b == [] {
      assert a + b == a;
    } else {
      var k := |b| - 1;
      assert (a + b)[..|a + b| - 1] == a + b[..k];
      OfLengthConcat(a, b[..k], n);
    }
  }

  lemma {:induction false} FirstMatchIndex(ds: seq<Destination>, recipient: string) returns (k: nat)
    ensures k <= |ds| && forall m | 0 <= m < k :: !Matches(ds[m], recipient)
    ensures if k == |ds| then FirstMatch(ds, recipient) == None
            else Matches(ds[k], recipient) && FirstMatch(ds, recipient) == Some(ds[k])
    decreases |ds|
  {
    if ds == [] || Matches(ds[0], recipient) {
      k := 0;
    } else {
      k := FirstMatchIndex(ds[1..], recipient);
      forall m | 0 <= m < k + 1 ensures !Matches(ds[m], recipient) {
        if m > 0 { assert ds[m] == ds[1..][m - 1]; }
      }
      k := k + 1;
    }
  }

  /** Each list of one length begins with what comes before position `k` and then `ds[k]`. */
  lemma OfLengthAt(ds: seq<Destination>, k: nat)
    requires k < |ds|
    ensures var n := |ds[k].prefix|; OfLength(ds[..k], n) + [ds[k]] <= OfLength(ds, n)
  {
    var n := |ds[k].prefix|;
    assert ds == ds[..k + 1] + ds[k + 1..] && ds[..k + 1][..k] == ds[..k];
    OfLengthConcat(ds[..k + 1], ds[k + 1..], n);
  }

  lemma {:induction false} OfLengthOrigin(ds: seq<Destination>, n: nat, m: nat) returns (k: nat)
    requires m < |OfLength(ds, n)|
    ensures k < |ds| && ds[k] == OfLength(ds, n)[m] && |ds[k].prefix| == n && |OfLength(ds[..k], n)| == m
    decreases |ds|
  {
    var last := |ds| - 1;
    if m < |OfLength(ds[..last], n)| {
      k := OfLengthOrigin(ds[..last], n, m);
      assert ds[..last][..k] == ds[..k];
    } else {
      k := last;
    }
  }

  lemma ShorterIsLess(ds: seq<Destination>, j: nat, i: nat)
    requires j < i < |ds| && |ds[j].prefix| == |ds[i].prefix|
    ensures var n := |ds[i].prefix|;
      |OfLength(ds[..j], n)| < |OfLength(ds[..i], n)| <= |OfLength(ds, n)|
      && OfLength(ds, n)[|OfLength(ds[..j], n)|] == ds[j]
  {
    OfLengthAt(ds[..i], j);
    assert ds[..i][..j] == ds[..j];
    OfLengthAt(ds, j);
    OfLengthAt(ds, i);
  }

  // ---------------------------------------------------------------- the choice

  /** With any stable sort by descending length, the first match is the best destination for every
      recipient, and nothing matches exactly when no configured prefix does. */
  lemma LongestPrefixWins(configured: seq<Destination>, sorted: seq<Destination>, recipient: string)
    requires StablySorted(configured, sorted)
    ensures var choice := FirstMatch(sorted, recipient);
      && (choice.None? <==> forall i | 0 <= i < |configured| :: !Begins(recipient, configured[i].prefix))
      && (forall i: nat | IsBest(configured, recipient, i) :: choice == Some(configured[i]))
      && (choice.Some? ==> exists i: nat :: IsBest(configured, recipient, i) && choice == Some(configured[i]))
  {
    forall d ensures Matches(d, recipient) <==> Begins(recipient, d.prefix) { MatchesMeans(d, recipient); }
    var k := FirstMatchIndex(sorted, recipient);
    if k == |sorted| {
      forall i | 0 <= i < |configured| ensures !Matches(configured[i], recipient) {
        var m := Counterpart(configured, sorted, i);
      }
    } else {
      var i := Counterpart(sorted, configured, k);
      forall j | 0 <= j < |configured| && Begins(recipient, configured[j].prefix)
        ensures |configured[j].prefix| <= |configured[i].prefix| && (|configured[j].prefix| == |configured[i].prefix| ==> i <= j)
      {
        var m := Counterpart(configured, sorted, j);
        assert k <= m;
        if j < i && |configured[j].prefix| == |configured[i].prefix| {
          ShorterIsLess(configured, j, i);
          if k < m { ShorterIsLess(sorted, k, m); }
        }
      }
      assert IsBest(configured, recipient, i);
      forall other: nat | IsBest(configured, recipient, other) ensures other == i {
        assert Matches(configured[other], recipient) && Matches(configured[i], recipient);
      }
    }
  }

  function Route(byDefault: string, destinations: seq<Destination>, recipient: string): string {
    var choice := FirstMatch(destinations, recipient);
    if choice.Some? then choice.value.provider else byDefault
  }

  /** The provider is that of the best destination, or the default one if no prefix fits. */
  lemma RouteIsBest(byDefault: string, configured: seq<Destination>, sorted: seq<Destination>, recipient: string)
    requires StablySorted(configured, sorted)
    ensures forall i: nat | IsBest(configured, recipient, i) :: Route(byDefault, sorted, recipient) == configured[i].provider
    ensures (forall i | 0 <= i < |configured| :: !Begins(recipient, configured[i].prefix)) ==>
              Route(byDefault, sorted, recipient) == byDefault
    ensures (exists i: nat :: IsBest(configured, recipient, i)) ||
              forall i | 0 <= i < |configured| :: !Begins(recipient, configured[i].prefix)
  {
    LongestPrefixWins(configured, sorted, recipient);
  }

  /** The same destination in the other list: it stands at the same place among those of its length. */
  lemma Counterpart(from: seq<Destination>, to: seq<Destination>, i: nat) returns (k: nat)
    requires i < |from| && forall n: nat :: OfLength(from, n) == OfLength(to, n)
    ensures k < |to| && to[k] == from[i]
    ensures var n := |from[i].prefix|; |OfLength(to[..k], n)| == |OfLength(from[..i], n)|
  {
    var n := |from[i].prefix|;
    OfLengthAt(from, i);
    assert OfLength(from, n) == OfLength(to, n);
    k := OfLengthOrigin(to, n, |OfLength(from[..i], n)|);
  }

  // ---------------------------------------------------------------- sorting

  /** Where a destination of length `n` belongs: behind all that are at least as long. */
  function Place(ds: seq<Destination>, n: nat): (k: nat)
    ensures k <= |ds|
    ensures forall m | 0 <= m < k :: |ds[m].prefix| >= n
    ensures k < |ds| ==> |ds[k].prefix| < n
  {
    if ds == [] || |ds[0].prefix| < n then 0
    else
      var rest := Place(ds[1..], n);
      assert forall m | 1 <= m <= rest :: ds[m] == ds[1..][m - 1];
      1 + rest
  }

  /** Parts of a descending list; what stands behind something shorter than `n` is shorter as well. */
  lemma PartsDescend(ds: seq<Destination>, k: nat, n: nat)
    requires Descending(ds) && k <= |ds| && (k < |ds| ==> |ds[k].prefix| < n)
    ensures Descending(ds[..k]) && Descending(ds[k..])
    ensures forall m | 0 <= m < |ds| - k :: |ds[k..][m].prefix| < n
  {
    forall i, j | 0 <= i < j < |ds| - k ensures |ds[k..][i].prefix| >= |ds[k..][j].prefix| {
      assert |ds[k + i].prefix| >= |ds[k + j].prefix|;
    }
    forall m | 0 <= m < |ds| - k ensures |ds[k..][m].prefix| < n {
      if m > 0 { assert |ds[k].prefix| >= |ds[k + m].prefix|; }
    }
  }

  lemma InsertDescends(sorted: seq<Destination>, d: Destination, k: nat)
    requires Descending(sorted) && k == Place(sorted, |d.prefix|)
    ensures Descending(sorted[..k] + [d] + sorted[k..])
    ensures forall m | 0 <= m < |sorted| - k :: |sorted[k..][m].prefix| < |d.prefix|
  {
    PartsDescend(sorted, k, |d.prefix|);
    var a, b := sorted[..k], sorted[k..];
    forall m | 0 <= m < |a| ensures |a[m].prefix| >= |d.prefix| { assert a[m] == sorted[m]; }
    AppendDescends(a, d);
    DescendingConcat(a + [d], b);
  }

  lemma AppendDescends(a: seq<Destination>, d: Destination)
    requires Descending(a) && forall m | 0 <= m < |a| :: |a[m].prefix| >= |d.prefix|
    ensures Descending(a + [d])
    ensures forall m | 0 <= m < |a + [d]| :: |(a + [d])[m].prefix| >= |d.prefix|
  {}

  lemma DescendingConcat(a: seq<Destination>, b: seq<Destination>)
    requires Descending(a) && Descending(b)
    requires forall i, j | 0 <= i < |a| && 0 <= j < |b| :: |a[i].prefix| >= |b[j].prefix|
    ensures Descending(a + b)
  {}

  lemma InsertInOrder(configured: seq<Destination>, a: seq<Destination>, d: Destination, b: seq<Destination>, n: nat)
    requires OfLength(a + b, n) == OfLength(configured, n)
    requires forall m | 0 <= m < |b| :: |b[m].prefix| != |d.prefix|
    ensures OfLength(a + [d] + b, n) == OfLength(configured + [d], n)
  {
    OfLengthConcat(a, b, n);
    OfLengthConcat(a + [d], b, n);
    OfLengthConcat(a, [d], n);
    OfLengthConcat(configured, [d], n);
    if n == |d.prefix| {
      NoneOfLength(b, n);
    } else {
      assert OfLength([d], n) == [];
    }
  }

  lemma InsertKeeps(configured: seq<Destination>, sorted: seq<Destination>, d: Destination, k: nat)
    requires StablySorted(configured, sorted) && k == Place(sorted, |d.prefix|)
    ensures StablySorted(configured + [d], sorted[..k] + [d] + sorted[k..])
  {
    InsertDescends(sorted, d, k);
    assert sorted == sorted[..k] + sorted[k..];
    forall n: nat ensures OfLength(sorted[..k] + [d] + sorted[k..], n) == OfLength(configured + [d], n) {
      assert OfLength(sorted, n) == OfLength(configured, n);
      InsertInOrder(configured, sorted[..k], d, sorted[k..], n);
    }
  }

  lemma {:induction false} NoneOfLength(ds: seq<Destination>, n: nat)
    requires forall k | 0 <= k < |ds| :: |ds[k].prefix| != n
    ensures OfLength(ds, n) == []
    decreases |ds|
  {
    if ds != [] { NoneOfLength(ds[..|ds| - 1], n); }
  }

  // ---------------------------------------------------------------- the manager

  datatype Status = Sending | Sent | Failed

  datatype Sms = Sms(phone: string, provider: string, status: Status)

  datatype InitError = UnknownDefault | UnknownProvider(prefix: string)

  /** What happens to one message outside: encryption, the database, the provider. */
  datatype Environment = Environment(id: nat, encrypted: bool, created: bool, accepted: bool, updated: bool)

  datatype Handover = Handover(id: nat, provider: string, phone: string)

  class SmsManager {
    var defaultProvider: string
    var destinations: seq<Destination>
    var messages: map<nat, Sms>
    /** What was handed to which provider for which number. */
    ghost var handed: seq<Handover>

    constructor ()
      ensures destinations == [] && messages == map[] && handed == []
    {
      defaultProvider, destinations, messages, handed := "", [], map[], [];
    }

    /** Fails for the default provider first, then for the first destination with an unknown one. */
    method Init(byDefault: string, configured: seq<Destination>, providers: set<string>) returns (error: Option<InitError>)
      modifies this
      ensures error == (
        if byDefault !in providers then Some(UnknownDefault)
        else if k :| 0 <= k < |configured| && configured[k].provider !in providers
                     && forall m | 0 <= m < k :: configured[m].provider in providers
        then Some(UnknownProvider(configured[k].prefix)) else None)
      ensures error.None? ==> defaultProvider == byDefault && StablySorted(configured, destinations)
      ensures messages == old(messages) && handed == old(handed)
    {
      if byDefault !in providers { return Some(UnknownDefault); }
      defaultProvider := byDefault;
      destinations := [];
      var k := 0;
      while k < |configured|
        invariant 0 <= k <= |configured| && destinations == configured[..k]
        invariant forall m | 0 <= m < k :: configured[m].provider in providers
        invariant messages == old(messages) && handed == old(handed) && defaultProvider == byDefault
      {
        if configured[k].provider !in providers { return Some(UnknownProvider(configured[k].prefix)); }
        destinations := destinations + [configured[k]];
        k := k + 1;
      }
      assert configured[..k] == configured;
      SortDestinations();
      return None;
    }

    /** A stable sort by descending length of the prefix. */
    method SortDestinations()
      modifies this`destinations
      ensures StablySorted(old(destinations), destinations)
    {
      var ds, sorted := destinations, [];
      var k := 0;
      while k < |ds|
        invariant 0 <= k <= |ds| && StablySorted(ds[..k], sorted)
      {
        var place := 0;
        while place < |sorted| && |sorted[place].prefix| >= |ds[k].prefix|
          invariant 0 <= place <= |sorted|
          invariant forall m | 0 <= m < place :: |sorted[m].prefix| >= |ds[k].prefix|
        {
          place := place + 1;
        }
        assert place == Place(sorted, |ds[k].prefix|);
        InsertKeeps(ds[..k], sorted, ds[k], place);
        assert ds[..k + 1] == ds[..k] + [ds[k]];
        sorted := sorted[..place] + [ds[k]] + sorted[place..];
        k := k + 1;
      }
      assert ds[..k] == ds;
      destinations := sorted;
    }

    method ProviderFor(recipient: string) returns (provider: string)
      ensures provider == Route(defaultProvider, destinations, recipient)
    {
      provider := defaultProvider;
      var k := 0;
      while k < |destinations|
        invariant 0 <= k <= |destinations|
        invariant FirstMatch(destinations, recipient) == FirstMatch(destinations[k..], recipient)
      {
        if destinations[k].prefix <= recipient {
          return destinations[k].provider;
        }
        assert destinations[k..][1..] == destinations[k + 1..];
        k := k + 1;
      }
    }

    /** A message is handed over only with its record stored under the chosen provider; the record
        tells the outcome unless its update failed. */
    method Send(recipient: string, env: Environment) returns (sent: bool)
      requires env.id !in messages
      modifies this`messages, this`handed
      ensures var provider := Route(defaultProvider, destinations, recipient);
        if env.encrypted && env.created then
          && sent == env.accepted && handed == old(handed) + [Handover(env.id, provider, recipient)]
          && messages == old(messages)[env.id := Sms(recipient, provider,
               if env.updated then (if env.accepted then Sent else Failed) else Sending)]
        else !sent && handed == old(handed) && messages == old(messages)
    {
      var provider := ProviderFor(recipient);
      var sms := Sms(recipient, provider, Sending);
      if !env.encrypted { return false; }
      if !env.created { return false; }
      messages := messages[env.id := sms];
      handed := handed + [Handover(env.id, provider, recipient)];
      sms := sms.(status := if env.accepted then Sent else Failed);
      if env.updated { messages := messages[env.id := sms]; }
      return env.accepted;
    }
  }
}
