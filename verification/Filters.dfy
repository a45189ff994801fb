/** Filters as query strings and back (pkg/db/filter.go, pkg/db/db_gorm/filter_parser.go).

    A filter is written with the JSON names of columns and with values as text; the parser looks up
    the columns, converts the texts and validates them.  Absent and empty maps are not told apart. */
module Filters {
  import opened Prelude

  // ---------------------------------------------------------------- decimal numbers

  const MIN_INT64: int := -0x8000_0000_0000_0000
  const MAX_INT64: int := 0x7FFF_FFFF_FFFF_FFFF

  function Digit(d: nat): char
    requires d < 10
  {
    "0123456789"[d]
  }

  function PrintNat(n: nat): (s: string)
    ensures s != ""
  {
    if n < 10 then [Digit(n)] else PrintNat(n / 10) + [Digit(n % 10)]
  }

  function PrintInt(i: int): string {
    if i < 0 then "-" + PrintNat(-i) else PrintNat(i)
  }

  function ParseNat(s: string): Option<nat> {
    if s == "" then Some(0)
    else
      var last := s[|s| - 1];
      var before := ParseNat(s[..|s| - 1]);
      if before.Some? && '0' <= last <= '9' then Some(10 * before.value + (last as int - '0' as int)) else None
  }

  /** Decimal digits with an optional sign, within 64 bits; the empty text is zero. */
  function StrToInt64(s: string): Option<int> {
    if s == "" then Some(0)
    else
      var digits := if s[0] == '-' || s[0] == '+' then s[1..] else s;
      var n := ParseNat(digits);
      if digits == "" || n.None? then None
      else
        var i: int := if s[0] == '-' then -(n.value as int) else n.value;
        if MIN_INT64 <= i <= MAX_INT64 then Some(i) else None
  }

  lemma {:induction false} ParseInvertsPrintNat(n: nat)
    ensures ParseNat(PrintNat(n)) == Some(n) && '0' <= PrintNat(n)[0] <= '9'
    decreases n
  {
    if n < 10 {
      assert [Digit(n)][..0] == "";
    } else {
      ParseInvertsPrintNat(n / 10);
      var s := PrintNat(n);
      assert s[..|s| - 1] == PrintNat(n / 10);
    }
  }

  lemma SignIsRead(digits: string, n: int)
    requires n >= 0 && digits != "" && '0' <= digits[0] <= '9' && ParseNat(digits) == Some(n)
    ensures n <= MAX_INT64 ==> StrToInt64(digits) == Some(n)
    ensures -n >= MIN_INT64 ==> StrToInt64("-" + digits) == Some(-n)
  {
    var signed := "-" + digits;
    assert signed[0] == '-' && signed[1..] == digits;
  }

  /** Printing and parsing a 64-bit integer gives it back. */
  lemma ParseInvertsPrint(i: int)
    requires MIN_INT64 <= i <= MAX_INT64
    ensures StrToInt64(PrintInt(i)) == Some(i)
  {
    var n := if i < 0 then -i else i;
    ParseInvertsPrintNat(n);
    SignIsRead(PrintNat(n), n);
  }

  // ---------------------------------------------------------------- filters and queries

  /** `Nil` stands for the absent end of an interval, and for values that were never set. */
  datatype Value = Nil | Text(text: string) | Number(number: int)

  datatype Config = Config(sortField: string, sortDirection: string, offset: int, limit: int, count: bool)

  datatype Interval = Interval(from: Value, to: Value, fromOpen: bool, toOpen: bool)

  datatype Between = Between(fromField: string, toField: string, value: Value, fromOpen: bool, toOpen: bool)

  datatype OrFields = OrFields(value: Value, fields: seq<string>)

  datatype Filter = Filter(
    config: Config, fields: map<string, Value>, fieldsIn: map<string, seq<Value>>, fieldsNotIn: map<string, seq<Value>>,
    intervals: map<string, Interval>, betweens: seq<Between>, orFields: seq<OrFields>)

  datatype QueryInterval = QueryInterval(from: Option<string>, to: Option<string>, fromOpen: bool, toOpen: bool)

  datatype QueryBetween = QueryBetween(fromField: string, toField: string, value: string, fromOpen: bool, toOpen: bool)

  datatype QueryOrFields = QueryOrFields(value: string, fields: seq<string>)

  datatype Query = Query(
    config: Config, fields: map<string, string>, fieldsIn: map<string, seq<string>>, fieldsNotIn: map<string, seq<string>>,
    intervals: map<string, QueryInterval>, betweens: seq<QueryBetween>, orFields: seq<QueryOrFields>)

  function Show(v: Value): string {
    match v
    case Nil => "<nil>"
    case Text(s) => s
    case Number(i) => PrintInt(i)
  }

  function ShowAll(vs: seq<Value>): (texts: seq<string>)
    ensures |texts| == |vs| && forall k | 0 <= k < |vs| :: texts[k] == Show(vs[k])
  {
    seq(|vs|, k requires 0 <= k < |vs| => Show(vs[k]))
  }

  function ShowEnd(v: Value): Option<string> {
    if v.Nil? then None else Some(Show(v))
  }

  function ShowInterval(i: Interval): QueryInterval {
    QueryInterval(ShowEnd(i.from), ShowEnd(i.to), i.fromOpen, i.toOpen)
  }

  function ShowBetween(b: Between): QueryBetween {
    QueryBetween(b.fromField, b.toField, Show(b.value), b.fromOpen, b.toOpen)
  }

  function ShowOr(o: OrFields): QueryOrFields {
    QueryOrFields(Show(o.value), o.fields)
  }

  function ShowFields(fields: map<string, Value>): map<string, string> {
    map k | k in fields :: Show(fields[k])
  }

  function ShowLists(lists: map<string, seq<Value>>): map<string, seq<string>> {
    map k | k in lists :: ShowAll(lists[k])
  }

  function ShowIntervals(intervals: map<string, Interval>): map<string, QueryInterval> {
    map k | k in intervals :: ShowInterval(intervals[k])
  }

  function ShowBetweens(betweens: seq<Between>): seq<QueryBetween> {
    seq(|betweens|, k requires 0 <= k < |betweens| => ShowBetween(betweens[k]))
  }

  function ShowOrs(orFields: seq<OrFields>): seq<QueryOrFields> {
    seq(|orFields|, k requires 0 <= k < |orFields| => ShowOr(orFields[k]))
  }

  function QueryOf(f: Filter): Query {
    Query(f.config, ShowFields(f.fields), ShowLists(f.fieldsIn), ShowLists(f.fieldsNotIn), ShowIntervals(f.intervals),
          ShowBetweens(f.betweens), ShowOrs(f.orFields))
  }

  // ---------------------------------------------------------------- parsing one entry

  datatype Kind = Characters | Integer | Unsupported

  datatype Column = Column(dbName: string, kind: Kind, indexed: bool)

  /** The columns by JSON name, and the validator's verdict on a value for such a name. */
  datatype Model = Model(columns: map<string, Column>, accepts: (string, Value) -> bool)

  datatype Error = InvalidName | NotIndexed | InvalidValue | Rejected

  function Convert(kind: Kind, text: string): Option<Value> {
    match kind
    case Characters => Some(Text(text))
    case Integer => (var i := StrToInt64(text); if i.Some? then Some(Number(i.value)) else None)
    case Unsupported => None
  }

  function ParseName(m: Model, name: string): Result<string, Error> {
    if name !in m.columns then Err(InvalidName)
    else if !m.columns[name].indexed then Err(NotIndexed)
    else Ok(m.columns[name].dbName)
  }

  function ParseValue(m: Model, name: string, text: string): Result<(string, Value), Error> {
    var dbName := ParseName(m, name);
    if dbName.Err? then Err(dbName.error)
    else
      var v := Convert(m.columns[name].kind, text);
      if v.None? then Err(InvalidValue)
      else if !m.accepts(name, v.value) then Err(Rejected)
      else Ok((dbName.value, v.value))
  }

  /** Which texts are numbers and which: digits with or without a sign, and the empty text. */
  lemma IntegerTexts(digits: string)
    ensures StrToInt64("") == Some(0) && StrToInt64("+") == None && StrToInt64("-") == None
    ensures digits != "" && digits[0] != '+' && digits[0] != '-' ==>
      var n := ParseNat(digits);
      && (n.None? ==> StrToInt64(digits) == None && StrToInt64("+" + digits) == None && StrToInt64("-" + digits) == None)
      && (n.Some? ==>
            && StrToInt64(digits) == StrToInt64("+" + digits) == (if n.value <= MAX_INT64 then Some(n.value) else None)
            && StrToInt64("-" + digits) == (if MIN_INT64 <= -(n.value as int) then Some(-(n.value as int)) else None))
  {
    assert ("+" + digits)[1..] == digits && ("-" + digits)[1..] == digits;
  }

  /** A digit more is ten times the number and the digit; nothing else than digits counts. */
  lemma DigitsAreDecimal(s: string, c: char)
    ensures ParseNat(s + [c]) ==
              if ParseNat(s).Some? && c in "0123456789" then Some(10 * ParseNat(s).value + (c as int - 48)) else None
  {
    assert (s + [c])[..|s|] == s;
  }

  /** The printed form is the usual one: a minus for the negative numbers and no leading zeros. */
  lemma {:induction false} PrintIsCanonical(n: nat)
    ensures |PrintNat(n)| > 1 ==> PrintNat(n)[0] != '0'
    ensures n > 0 ==> PrintInt(-(n as int)) == "-" + PrintNat(n)
    ensures PrintInt(n) == PrintNat(n)
    ensures n > 0 ==> PrintNat(n)[0] != '0'
    decreases n
  {
    if n >= 10 { PrintIsCanonical(n / 10); }
  }

  /** Why a value is refused. */
  lemma ValueRefused(m: Model, name: string, text: string)
    ensures var parsed := ParseValue(m, name, text);
      && (parsed == Err(InvalidName) <==> name !in m.columns)
      && (parsed == Err(NotIndexed) <==> name in m.columns && !m.columns[name].indexed)
      && (name in m.columns && m.columns[name].indexed ==>
            var v := Convert(m.columns[name].kind, text);
            && (parsed == Err(InvalidValue) <==> v == None)
            && (parsed == Err(Rejected) <==> v.Some? && !m.accepts(name, v.value)))
  {}

  /** A value of the type of its column that the validator accepts. */
  ghost predicate Fits(m: Model, name: string, v: Value) {
    && name in m.columns && m.columns[name].indexed && m.accepts(name, v)
    && match v
       case Nil => false
       case Text(_) => m.columns[name].kind == Characters
       case Number(i) => m.columns[name].kind == Integer && MIN_INT64 <= i <= MAX_INT64
  }

  function DbName(m: Model, name: string): string {
    if name in m.columns then m.columns[name].dbName else name
  }

  /** A value comes back under the database name of its column exactly when it fits the column. */
  lemma ValueReturnsExactly(m: Model, name: string, v: Value)
    ensures ParseValue(m, name, Show(v)) == Ok((DbName(m, name), v)) <==> Fits(m, name, v)
  {
    if v.Number? && MIN_INT64 <= v.number <= MAX_INT64 { ParseInvertsPrint(v.number); }
  }

  // ---------------------------------------------------------------- parsing all entries

  datatype Entry<+V> = Fails | Dropped | Put(name: string, value: V)

  function FieldEntry(m: Model, name: string, text: string): Entry<Value> {
    var parsed := ParseValue(m, name, text);
    if parsed.Err? then Fails else Put(parsed.value.0, parsed.value.1)
  }

  function ParseAll(m: Model, name: string, texts: seq<string>): Option<seq<Value>>
    decreases |texts|
  {
    if texts == [] then Some([])
    else
      var before := ParseAll(m, name, texts[..|texts| - 1]);
      var last := ParseValue(m, name, texts[|texts| - 1]);
      if before.None? || last.Err? then None else Some(before.value + [last.value.1])
  }

  /** An empty list is kept under its JSON name, and its name is not even looked up. */
  function ListEntry(m: Model, name: string, texts: seq<string>): Entry<seq<Value>> {
    var values := ParseAll(m, name, texts);
    if values.None? then Fails
    else Put(if texts == [] then name else DbName(m, name), values.value)
  }

  /** An interval without ends is dropped. */
  function IntervalEntry(m: Model, name: string, i: QueryInterval): Entry<Interval> {
    var from := if i.from.Some? then ParseValue(m, name, i.from.value) else Ok(("", Nil));
    var to := if i.to.Some? then ParseValue(m, name, i.to.value) else Ok(("", Nil));
    if from.Err? || to.Err? then Fails
    else
      var field := if from.value.0 == "" then to.value.0 else from.value.0;
      if field == "" then Dropped else Put(field, Interval(from.value.1, to.value.1, i.fromOpen, i.toOpen))
  }

  function ParseBetween(m: Model, b: QueryBetween): Option<Between> {
    var from := ParseValue(m, b.fromField, b.value);
    var to := ParseValue(m, b.toField, b.value);
    if from.Err? || to.Err? then None
    else Some(Between(from.value.0, to.value.0, from.value.1, b.fromOpen, b.toOpen))
  }

  /** The value is the one converted for the last name; without names there is none. */
  function ParseOr(m: Model, value: string, names: seq<string>): Option<OrFields>
    decreases |names|
  {
    if names == [] then Some(OrFields(Nil, []))
    else
      var before := ParseOr(m, value, names[..|names| - 1]);
      var last := ParseValue(m, names[|names| - 1], value);
      if before.None? || last.Err? then None else Some(OrFields(last.value.1, before.value.fields + [last.value.0]))
  }

  /** `g` holds what the entries of `done` put there; of entries with one name, some entry wins. */
  ghost predicate Gathered<V>(entries: map<string, Entry<V>>, done: set<string>, g: map<string, V>)
    requires done <= entries.Keys
  {
    && (forall k | k in done :: !entries[k].Fails? && (entries[k].Put? ==> entries[k].name in g))
    && (forall d | d in g :: exists k :: k in done && entries[k] == Put(d, g[d]))
  }

  function FieldEntries(m: Model, q: map<string, string>): map<string, Entry<Value>> {
    map k | k in q :: FieldEntry(m, k, q[k])
  }

  function ListEntries(m: Model, q: map<string, seq<string>>): map<string, Entry<seq<Value>>> {
    map k | k in q :: ListEntry(m, k, q[k])
  }

  function IntervalEntries(m: Model, q: map<string, QueryInterval>): map<string, Entry<Interval>> {
    map k | k in q :: IntervalEntry(m, k, q[k])
  }

  ghost predicate NoneFails<V>(entries: map<string, Entry<V>>) {
    forall k | k in entries :: !entries[k].Fails?
  }

  /** Everything in the query can be parsed. */
  ghost predicate Parses(m: Model, q: Query) {
    && (q.config.sortField != "" ==> ParseName(m, q.config.sortField).Ok?)
    && NoneFails(FieldEntries(m, q.fields)) && NoneFails(ListEntries(m, q.fieldsIn)) && NoneFails(ListEntries(m, q.fieldsNotIn))
    && NoneFails(IntervalEntries(m, q.intervals))
    && AllBetweens(m, q.betweens) && AllOrs(m, q.orFields)
  }

  ghost predicate AllBetweens(m: Model, betweens: seq<QueryBetween>) {
    forall k | 0 <= k < |betweens| :: ParseBetween(m, betweens[k]).Some?
  }

  ghost predicate AllOrs(m: Model, orFields: seq<QueryOrFields>) {
    forall k | 0 <= k < |orFields| :: ParseOr(m, orFields[k].value, orFields[k].fields).Some?
  }

  ghost predicate ParsedBetweens(m: Model, betweens: seq<QueryBetween>, g: seq<Between>) {
    |g| == |betweens| && forall k | 0 <= k < |g| :: ParseBetween(m, betweens[k]) == Some(g[k])
  }

  ghost predicate ParsedOrs(m: Model, orFields: seq<QueryOrFields>, g: seq<OrFields>) {
    |g| == |orFields| && forall k | 0 <= k < |g| :: ParseOr(m, orFields[k].value, orFields[k].fields) == Some(g[k])
  }

  /** What a parsed filter looks like. */
  ghost predicate Parsed(m: Model, q: Query, g: Filter)
    requires Parses(m, q)
  {
    && g.config == q.config.(sortField := if q.config.sortField == "" then "" else ParseName(m, q.config.sortField).value)
    && Gathered(FieldEntries(m, q.fields), q.fields.Keys, g.fields)
    && Gathered(ListEntries(m, q.fieldsIn), q.fieldsIn.Keys, g.fieldsIn)
    && Gathered(ListEntries(m, q.fieldsNotIn), q.fieldsNotIn.Keys, g.fieldsNotIn)
    && Gathered(IntervalEntries(m, q.intervals), q.intervals.Keys, g.intervals)
    && ParsedBetweens(m, q.betweens, g.betweens) && ParsedOrs(m, q.orFields, g.orFields)
  }

  lemma GatherPut<V>(entries: map<string, Entry<V>>, done: set<string>, g: map<string, V>, key: string, name: string, value: V)
    requires done <= entries.Keys && key in entries && Gathered(entries, done, g) && entries[key] == Put(name, value)
    ensures Gathered(entries, done + {key}, g[name := value])
  {
    var h := g[name := value];
    forall d | d in h ensures exists k :: k in done + {key} && entries[k] == Put(d, h[d]) {
      if d == name {
        assert entries[key] == Put(d, value);
      } else {
        var k :| k in done && entries[k] == Put(d, g[d]);
      }
    }
  }

  // ---------------------------------------------------------------- round trip

  /** Entries of one kind about the same column agree, since only one of them can be kept. */
  ghost predicate Agree<V>(m: Model, a: map<string, V>) {
    forall j, k | j in a && k in a && DbName(m, j) == DbName(m, k) :: a[j] == a[k]
  }

  /** Database names carry the name of their table: none is empty or a JSON name. */
  ghost predicate NamesApart(m: Model) {
    forall k | k in m.columns :: m.columns[k].dbName != "" && m.columns[k].dbName !in m.columns
  }

  /** A text that the parser takes for this name: the column is known and indexed, the text can be
      converted, and the validator accepts the value. */
  ghost predicate Readable(m: Model, name: string, text: string) {
    && name in m.columns && m.columns[name].indexed
    && Convert(m.columns[name].kind, text).Some?
    && m.accepts(name, Convert(m.columns[name].kind, text).value)
  }

  ghost predicate FieldsFit(m: Model, fields: map<string, Value>) {
    forall k | k in fields :: Fits(m, k, fields[k])
  }

  /** An empty list only survives under a name that is not a column. */
  ghost predicate ListFits(m: Model, name: string, values: seq<Value>) {
    if values == [] then name !in m.columns else forall i | 0 <= i < |values| :: Fits(m, name, values[i])
  }

  ghost predicate ListsFit(m: Model, lists: map<string, seq<Value>>) {
    forall k | k in lists :: ListFits(m, k, lists[k])
  }

  ghost predicate IntervalFits(m: Model, name: string, i: Interval) {
    !(i.from.Nil? && i.to.Nil?) && (i.from.Nil? || Fits(m, name, i.from)) && (i.to.Nil? || Fits(m, name, i.to))
  }

  ghost predicate IntervalsFit(m: Model, intervals: map<string, Interval>) {
    forall k | k in intervals :: IntervalFits(m, k, intervals[k])
  }

  /** The value is converted for both columns, and the conversion for the first one is kept. */
  ghost predicate BetweenFits(m: Model, b: Between) {
    Fits(m, b.fromField, b.value) && Readable(m, b.toField, Show(b.value))
  }

  /** The value is converted for all columns, and the conversion for the last one is kept. */
  ghost predicate OrFits(m: Model, o: OrFields) {
    if o.fields == [] then o.value.Nil?
    else Fits(m, o.fields[|o.fields| - 1], o.value) && forall i | 0 <= i < |o.fields| :: Readable(m, o.fields[i], Show(o.value))
  }

  ghost predicate BetweensFit(m: Model, betweens: seq<Between>) {
    forall k | 0 <= k < |betweens| :: BetweenFits(m, betweens[k])
  }

  ghost predicate OrsFit(m: Model, orFields: seq<OrFields>) {
    forall k | 0 <= k < |orFields| :: OrFits(m, orFields[k])
  }

  ghost predicate Suitable(m: Model, f: Filter) {
    && (f.config.sortField != "" ==> ParseName(m, f.config.sortField).Ok?)
    && FieldsFit(m, f.fields) && ListsFit(m, f.fieldsIn) && ListsFit(m, f.fieldsNotIn) && IntervalsFit(m, f.intervals)
    && Agree(m, f.fields) && Agree(m, f.fieldsIn) && Agree(m, f.fieldsNotIn) && Agree(m, f.intervals)
    && BetweensFit(m, f.betweens) && OrsFit(m, f.orFields)
  }

  /** The same map with every JSON name replaced by the database name. */
  ghost predicate Renamed<V>(m: Model, a: map<string, V>, b: map<string, V>) {
    OnlyDbNames(m, a, b) && forall k {:trigger DbName(m, k)} | k in a :: DbName(m, k) in b && b[DbName(m, k)] == a[k]
  }

  ghost predicate OnlyDbNames<V>(m: Model, a: map<string, V>, b: map<string, V>) {
    forall d | d in b :: exists k :: k in a && DbName(m, k) == d
  }

  function RenamedNames(m: Model, names: seq<string>): (renamed: seq<string>)
    ensures |renamed| == |names|
  {
    seq(|names|, k requires 0 <= k < |names| => DbName(m, names[k]))
  }

  function RenamedBetween(m: Model, b: Between): Between {
    b.(fromField := DbName(m, b.fromField), toField := DbName(m, b.toField))
  }

  function RenamedOr(m: Model, o: OrFields): OrFields {
    o.(fields := RenamedNames(m, o.fields))
  }

  ghost predicate RenamedBetweens(m: Model, a: seq<Between>, b: seq<Between>) {
    |b| == |a| && forall k | 0 <= k < |a| :: b[k] == RenamedBetween(m, a[k])
  }

  ghost predicate RenamedOrs(m: Model, a: seq<OrFields>, b: seq<OrFields>) {
    |b| == |a| && forall k | 0 <= k < |a| :: b[k] == RenamedOr(m, a[k])
  }

  ghost predicate RenamedFilter(m: Model, f: Filter, g: Filter) {
    && g.config == f.config.(sortField := if f.config.sortField == "" then "" else DbName(m, f.config.sortField))
    && Renamed(m, f.fields, g.fields) && Renamed(m, f.fieldsIn, g.fieldsIn) && Renamed(m, f.fieldsNotIn, g.fieldsNotIn)
    && Renamed(m, f.intervals, g.intervals)
    && RenamedBetweens(m, f.betweens, g.betweens) && RenamedOrs(m, f.orFields, g.orFields)
  }

  /** Every entry puts the original value under the database name. */
  ghost predicate Returned<V>(m: Model, a: map<string, V>, entries: map<string, Entry<V>>)
    requires entries.Keys == a.Keys
  {
    forall k | k in a :: entries[k] == Put(DbName(m, k), a[k])
  }

  /** An entry under another than its database name has a name that no entry is to have. */
  ghost predicate NamesKept<V>(m: Model, a: map<string, V>, entries: map<string, Entry<V>>)
    requires entries.Keys == a.Keys
  {
    forall k, j | k in a && j in a && entries[k].Put? && entries[k].name != DbName(m, k) :: DbName(m, j) != entries[k].name
  }

  /** A value that is dropped is not put by another entry. */
  ghost predicate DropsKept<V>(a: map<string, V>, entries: map<string, Entry<V>>)
    requires entries.Keys == a.Keys
  {
    forall k, j | k in a && j in a && entries[k].Dropped? && entries[j].Put? :: entries[j].value != a[k]
  }

  /** Whatever entry wins where several have one name, the renamed map comes out. */
  ghost predicate AlwaysRenamed<V(!new)>(m: Model, a: map<string, V>, entries: map<string, Entry<V>>) {
    forall g | Gathered(entries, entries.Keys, g) :: Renamed(m, a, g)
  }

  lemma ReturnedIsRenamed<V>(m: Model, a: map<string, V>, entries: map<string, Entry<V>>, g: map<string, V>)
    requires entries.Keys == a.Keys && Returned(m, a, entries) && Agree(m, a) && Gathered(entries, entries.Keys, g)
    ensures Renamed(m, a, g)
  {
    forall k | k in a ensures DbName(m, k) in g && g[DbName(m, k)] == a[k] {
      assert entries[k].Put? && entries[k].name == DbName(m, k);
      var other :| other in entries && entries[other] == Put(DbName(m, k), g[DbName(m, k)]);
      assert entries[other] == Put(DbName(m, other), a[other]);
    }
    forall d | d in g ensures exists k :: k in a && DbName(m, k) == d {
      var k :| k in entries && entries[k] == Put(d, g[d]);
      assert entries[k] == Put(DbName(m, k), a[k]);
    }
  }

  /** Some map can be gathered. */
  lemma {:induction false} SomeGathered<V>(entries: map<string, Entry<V>>, done: set<string>) returns (g: map<string, V>)
    requires NoneFails(entries) && done <= entries.Keys
    ensures Gathered(entries, done, g)
    decreases done
  {
    g := map[];
    if done != {} {
      var k :| k in done;
      g := SomeGathered(entries, done - {k});
      if entries[k].Put? {
        GatherPut(entries, done - {k}, g, k, entries[k].name, entries[k].value);
        g := g[entries[k].name := entries[k].value];
      }
      assert done == done - {k} + {k};
    }
  }

  lemma DroppedIsMissed<V>(m: Model, a: map<string, V>, entries: map<string, Entry<V>>, g: map<string, V>, k: string)
    requires entries.Keys == a.Keys && DropsKept(a, entries) && Gathered(entries, entries.Keys, g)
    requires k in a && DbName(m, k) in g && g[DbName(m, k)] == a[k]
    ensures !entries[k].Dropped?
  {
    var j :| j in entries && entries[j] == Put(DbName(m, k), a[k]);
  }

  lemma NameIsRight<V>(m: Model, a: map<string, V>, entries: map<string, Entry<V>>, g: map<string, V>, k: string)
    requires entries.Keys == a.Keys && NamesKept(m, a, entries) && Gathered(entries, entries.Keys, g) && k in a && entries[k].Put?
    requires OnlyDbNames(m, a, g)
    ensures entries[k].name == DbName(m, k)
  {
    var j :| j in a && DbName(m, j) == entries[k].name;
  }

  /** What every outcome has at the database name of `k`. */
  lemma OutcomeAt<V(!new)>(m: Model, a: map<string, V>, entries: map<string, Entry<V>>, g: map<string, V>, k: string)
    requires AlwaysRenamed(m, a, entries) && Gathered(entries, entries.Keys, g) && k in a
    ensures OnlyDbNames(m, a, g) && DbName(m, k) in g && g[DbName(m, k)] == a[k]
  {
    assert Renamed(m, a, g);
  }

  lemma PutWins<V>(entries: map<string, Entry<V>>, g: map<string, V>, k: string)
    requires Gathered(entries, entries.Keys, g) && k in entries && entries[k].Put?
    ensures Gathered(entries, entries.Keys, g[entries[k].name := entries[k].value])
  {
    GatherPut(entries, entries.Keys, g, k, entries[k].name, entries[k].value);
    assert entries.Keys + {k} == entries.Keys;
  }

  /** If every outcome is the renamed map, then entry `k` puts the original value. */
  lemma RenamedReturns<V(!new)>(m: Model, a: map<string, V>, entries: map<string, Entry<V>>, k: string)
    requires entries.Keys == a.Keys && NoneFails(entries) && NamesKept(m, a, entries) && DropsKept(a, entries)
    requires AlwaysRenamed(m, a, entries) && k in a
    ensures entries[k] == Put(DbName(m, k), a[k])
  {
    var g := SomeGathered(entries, entries.Keys);
    OutcomeAt(m, a, entries, g, k);
    DroppedIsMissed(m, a, entries, g, k);
    assert entries[k].Put? by { assert !entries[k].Fails?; }
    NameIsRight(m, a, entries, g, k);
    PutWins(entries, g, k);
    OutcomeAt(m, a, entries, g[entries[k].name := entries[k].value], k);
  }

  /** Exactly when each entry puts the original value and entries of one column agree, every outcome is
      the renamed map. */
  lemma RenamedExactly<V(!new)>(m: Model, a: map<string, V>, entries: map<string, Entry<V>>)
    requires entries.Keys == a.Keys && NoneFails(entries) && NamesKept(m, a, entries) && DropsKept(a, entries)
    ensures AlwaysRenamed(m, a, entries) <==> Returned(m, a, entries) && Agree(m, a)
  {
    if Returned(m, a, entries) && Agree(m, a) {
      forall g | Gathered(entries, entries.Keys, g) ensures Renamed(m, a, g) { ReturnedIsRenamed(m, a, entries, g); }
    }
    if AlwaysRenamed(m, a, entries) {
      forall k | k in a ensures entries[k] == Put(DbName(m, k), a[k]) { RenamedReturns(m, a, entries, k); }
      var g := SomeGathered(entries, entries.Keys);
      assert Renamed(m, a, g);
      forall j, k | j in a && k in a && DbName(m, j) == DbName(m, k) ensures a[j] == a[k] {
        assert g[DbName(m, j)] == a[j] && g[DbName(m, k)] == a[k];
      }
    }
  }

  /** A list comes back exactly when it is not empty and all its values fit, or when it is empty and
      its name is the same in JSON and in the database. */
  lemma ListReturnsExactly(m: Model, name: string, values: seq<Value>)
    ensures ListEntry(m, name, ShowAll(values)) == Put(DbName(m, name), values) <==>
      if values == [] then DbName(m, name) == name else forall i | 0 <= i < |values| :: Fits(m, name, values[i])
  {
    AllReturnExactly(m, name, values);
  }

  lemma {:induction false} AllReturnExactly(m: Model, name: string, values: seq<Value>)
    ensures ParseAll(m, name, ShowAll(values)) == Some(values) <==> forall i | 0 <= i < |values| :: Fits(m, name, values[i])
    decreases |values|
  {
    if values != [] {
      var n := |values| - 1;
      AllReturnExactly(m, name, values[..n]);
      assert ShowAll(values)[..n] == ShowAll(values[..n]);
      ValueReturnsExactly(m, name, values[n]);
      assert values == values[..n] + [values[n]];
      var before := ParseAll(m, name, ShowAll(values)[..n]);
      var last := ParseValue(m, name, Show(values[n]));
      if ParseAll(m, name, ShowAll(values)) == Some(values) {
        assert before.value == values[..n] && last.value.1 == values[n];
        assert last.value.0 == DbName(m, name);
      }
    }
  }

  /** An interval comes back exactly when it has an end and its ends fit. */
  lemma IntervalReturnsExactly(m: Model, name: string, i: Interval)
    requires name in m.columns ==> m.columns[name].dbName != ""
    ensures IntervalEntry(m, name, ShowInterval(i)) == Put(DbName(m, name), i) <==> IntervalFits(m, name, i)
  {
    ValueReturnsExactly(m, name, i.from);
    ValueReturnsExactly(m, name, i.to);
  }

  /** An interval is dropped without an error if it has no ends, and fails if an end cannot be read. */
  lemma IntervalDropped(m: Model, name: string, i: QueryInterval)
    ensures i.from.None? && i.to.None? ==> IntervalEntry(m, name, i) == Dropped
    ensures IntervalEntry(m, name, i) == Fails <==>
      || (i.from.Some? && ParseValue(m, name, i.from.value).Err?)
      || (i.to.Some? && ParseValue(m, name, i.to.value).Err?)
  {}

  lemma BetweenReturnsExactly(m: Model, b: Between)
    ensures ParseBetween(m, ShowBetween(b)) == Some(RenamedBetween(m, b)) <==> BetweenFits(m, b)
  {
    ValueReturnsExactly(m, b.fromField, b.value);
  }

  /** Alternatives are parsed exactly when their value can be converted for each name. */
  lemma {:induction false} ParseOrMeans(m: Model, text: string, names: seq<string>)
    ensures ParseOr(m, text, names).Some? <==> forall i | 0 <= i < |names| :: Readable(m, names[i], text)
    ensures ParseOr(m, text, names).Some? ==>
      var o := ParseOr(m, text, names).value;
      && o.fields == RenamedNames(m, names)
      && if names == [] then o.value == Nil else o.value == ParseValue(m, names[|names| - 1], text).value.1
    decreases |names|
  {
    if names == [] {
      assert RenamedNames(m, names) == [];
    } else {
      var n := |names| - 1;
      ParseOrMeans(m, text, names[..n]);
      if ParseOr(m, text, names[..n]).Some? && ParseValue(m, names[n], text).Ok? {
        assert RenamedNames(m, names) == RenamedNames(m, names[..n]) + [DbName(m, names[n])];
        forall i | 0 <= i < |names| ensures Readable(m, names[i], text) {
          if i < n { assert names[..n][i] == names[i]; }
        }
      }
    }
  }

  lemma OrReturnsExactly(m: Model, o: OrFields)
    ensures ParseOr(m, Show(o.value), o.fields) == Some(RenamedOr(m, o)) <==> OrFits(m, o)
  {
    ParseOrMeans(m, Show(o.value), o.fields);
    if o.fields != [] { ValueReturnsExactly(m, o.fields[|o.fields| - 1], o.value); }
  }

  lemma FieldsAreReturned(m: Model, a: map<string, Value>)
    ensures var entries := FieldEntries(m, ShowFields(a)); Returned(m, a, entries) <==> FieldsFit(m, a)
  {
    forall k | k in a ensures FieldEntry(m, k, Show(a[k])) == Put(DbName(m, k), a[k]) <==> Fits(m, k, a[k]) {
      ValueReturnsExactly(m, k, a[k]);
    }
  }

  lemma FieldsAreNamed(m: Model, a: map<string, Value>)
    ensures var entries := FieldEntries(m, ShowFields(a)); NamesKept(m, a, entries) && DropsKept(a, entries)
  {}

  lemma FieldsReturnExactly(m: Model, a: map<string, Value>)
    ensures var entries := FieldEntries(m, ShowFields(a));
      && (FieldsFit(m, a) ==> NoneFails(entries))
      && (NoneFails(entries) ==> (AlwaysRenamed(m, a, entries) <==> FieldsFit(m, a) && Agree(m, a)))
  {
    var entries := FieldEntries(m, ShowFields(a));
    FieldsAreReturned(m, a);
    FieldsAreNamed(m, a);
    assert Returned(m, a, entries) ==> NoneFails(entries);
    if NoneFails(entries) { RenamedExactly(m, a, entries); }
  }

  lemma ListsAreReturned(m: Model, a: map<string, seq<Value>>)
    requires NamesApart(m)
    ensures var entries := ListEntries(m, ShowLists(a)); Returned(m, a, entries) <==> ListsFit(m, a)
  {
    forall k | k in a ensures ListEntry(m, k, ShowAll(a[k])) == Put(DbName(m, k), a[k]) <==> ListFits(m, k, a[k]) {
      ListReturnsExactly(m, k, a[k]);
    }
  }

  lemma ListsAreNamed(m: Model, a: map<string, seq<Value>>)
    requires NamesApart(m)
    ensures var entries := ListEntries(m, ShowLists(a)); NamesKept(m, a, entries) && DropsKept(a, entries)
  {}

  lemma ListsReturnExactly(m: Model, a: map<string, seq<Value>>)
    requires NamesApart(m)
    ensures var entries := ListEntries(m, ShowLists(a));
      && (ListsFit(m, a) ==> NoneFails(entries))
      && (NoneFails(entries) ==> (AlwaysRenamed(m, a, entries) <==> ListsFit(m, a) && Agree(m, a)))
  {
    var entries := ListEntries(m, ShowLists(a));
    ListsAreReturned(m, a);
    ListsAreNamed(m, a);
    assert Returned(m, a, entries) ==> NoneFails(entries);
    if NoneFails(entries) { RenamedExactly(m, a, entries); }
  }

  lemma IntervalsAreReturned(m: Model, a: map<string, Interval>)
    requires NamesApart(m)
    ensures var entries := IntervalEntries(m, ShowIntervals(a)); Returned(m, a, entries) <==> IntervalsFit(m, a)
  {
    forall k | k in a ensures IntervalEntry(m, k, ShowInterval(a[k])) == Put(DbName(m, k), a[k]) <==> IntervalFits(m, k, a[k]) {
      IntervalReturnsExactly(m, k, a[k]);
    }
  }

  /** Only an interval without ends is dropped, and none without ends is put. */
  lemma IntervalIsNamed(m: Model, name: string, i: Interval)
    requires name in m.columns ==> m.columns[name].dbName != ""
    ensures var e := IntervalEntry(m, name, ShowInterval(i));
      && (e.Put? ==> e.name == DbName(m, name) && !(e.value.from.Nil? && e.value.to.Nil?))
      && (e.Dropped? ==> i.from.Nil? && i.to.Nil?)
  {}

  lemma IntervalsAreNamed(m: Model, a: map<string, Interval>)
    requires NamesApart(m)
    ensures var entries := IntervalEntries(m, ShowIntervals(a)); NamesKept(m, a, entries) && DropsKept(a, entries)
  {
    forall k | k in a { IntervalIsNamed(m, k, a[k]); }
  }

  lemma IntervalsReturnExactly(m: Model, a: map<string, Interval>)
    requires NamesApart(m)
    ensures var entries := IntervalEntries(m, ShowIntervals(a));
      && (IntervalsFit(m, a) ==> NoneFails(entries))
      && (NoneFails(entries) ==> (AlwaysRenamed(m, a, entries) <==> IntervalsFit(m, a) && Agree(m, a)))
  {
    var entries := IntervalEntries(m, ShowIntervals(a));
    IntervalsAreReturned(m, a);
    IntervalsAreNamed(m, a);
    assert Returned(m, a, entries) ==> NoneFails(entries);
    if NoneFails(entries) { RenamedExactly(m, a, entries); }
  }

  lemma BetweensReturnExactly(m: Model, a: seq<Between>, g: seq<Between>)
    ensures BetweensFit(m, a) ==> AllBetweens(m, ShowBetweens(a))
    ensures ParsedBetweens(m, ShowBetweens(a), g) ==> (RenamedBetweens(m, a, g) <==> BetweensFit(m, a))
  {
    forall k | 0 <= k < |a| ensures ParseBetween(m, ShowBetweens(a)[k]) == Some(RenamedBetween(m, a[k])) <==> BetweenFits(m, a[k]) {
      BetweenReturnsExactly(m, a[k]);
    }
  }

  lemma OrsReturnExactly(m: Model, a: seq<OrFields>, g: seq<OrFields>)
    ensures OrsFit(m, a) ==> AllOrs(m, ShowOrs(a))
    ensures ParsedOrs(m, ShowOrs(a), g) ==> (RenamedOrs(m, a, g) <==> OrsFit(m, a))
  {
    forall k | 0 <= k < |a|
      ensures ParseOr(m, ShowOrs(a)[k].value, ShowOrs(a)[k].fields) == Some(RenamedOr(m, a[k])) <==> OrFits(m, a[k]) {
      OrReturnsExactly(m, a[k]);
    }
  }

  lemma SuitableParses(m: Model, f: Filter)
    requires NamesApart(m) && Suitable(m, f)
    ensures Parses(m, QueryOf(f))
  {
    FieldsReturnExactly(m, f.fields);
    ListsReturnExactly(m, f.fieldsIn);
    ListsReturnExactly(m, f.fieldsNotIn);
    IntervalsReturnExactly(m, f.intervals);
    BetweensReturnExactly(m, f.betweens, f.betweens);
    OrsReturnExactly(m, f.orFields, f.orFields);
  }

  /** Everything that parsing the query of `f` can yield is `f` with renamed columns. */
  ghost predicate AlwaysReturns(m: Model, f: Filter)
    requires Parses(m, QueryOf(f))
  {
    forall g :: Parsed(m, QueryOf(f), g) ==> RenamedFilter(m, f, g)
  }

  lemma SomeParsed(m: Model, q: Query) returns (g: Filter)
    requires Parses(m, q)
    ensures Parsed(m, q, g)
  {
    var fields := SomeGathered(FieldEntries(m, q.fields), q.fields.Keys);
    var fieldsIn := SomeGathered(ListEntries(m, q.fieldsIn), q.fieldsIn.Keys);
    var fieldsNotIn := SomeGathered(ListEntries(m, q.fieldsNotIn), q.fieldsNotIn.Keys);
    var intervals := SomeGathered(IntervalEntries(m, q.intervals), q.intervals.Keys);
    var betweens := seq(|q.betweens|, k requires 0 <= k < |q.betweens| && AllBetweens(m, q.betweens) =>
      ParseBetween(m, q.betweens[k]).value);
    var orFields := seq(|q.orFields|, k requires 0 <= k < |q.orFields| && AllOrs(m, q.orFields) =>
      ParseOr(m, q.orFields[k].value, q.orFields[k].fields).value);
    var config := q.config.(sortField := if q.config.sortField == "" then "" else ParseName(m, q.config.sortField).value);
    g := Filter(config, fields, fieldsIn, fieldsNotIn, intervals, betweens, orFields);
  }

  /** The maps of a filter always come back exactly when their entries fit and agree. */
  ghost predicate MapsAlwaysReturn(m: Model, f: Filter) {
    && AlwaysRenamed(m, f.fields, FieldEntries(m, ShowFields(f.fields)))
    && AlwaysRenamed(m, f.fieldsIn, ListEntries(m, ShowLists(f.fieldsIn)))
    && AlwaysRenamed(m, f.fieldsNotIn, ListEntries(m, ShowLists(f.fieldsNotIn)))
    && AlwaysRenamed(m, f.intervals, IntervalEntries(m, ShowIntervals(f.intervals)))
  }

  lemma MapsReturnExactly(m: Model, f: Filter)
    requires NamesApart(m) && Parses(m, QueryOf(f))
    ensures MapsAlwaysReturn(m, f) <==>
      && FieldsFit(m, f.fields) && ListsFit(m, f.fieldsIn) && ListsFit(m, f.fieldsNotIn) && IntervalsFit(m, f.intervals)
      && Agree(m, f.fields) && Agree(m, f.fieldsIn) && Agree(m, f.fieldsNotIn) && Agree(m, f.intervals)
  {
    FieldsReturnExactly(m, f.fields);
    ListsReturnExactly(m, f.fieldsIn);
    ListsReturnExactly(m, f.fieldsNotIn);
    IntervalsReturnExactly(m, f.intervals);
  }

  /** Any part of an outcome can be exchanged for another outcome of that part. */
  lemma WithParts(m: Model, q: Query, h: Filter, fields: map<string, Value>, fieldsIn: map<string, seq<Value>>,
                  fieldsNotIn: map<string, seq<Value>>, intervals: map<string, Interval>)
    requires Parses(m, q) && Parsed(m, q, h)
    requires Gathered(FieldEntries(m, q.fields), q.fields.Keys, fields)
    requires Gathered(ListEntries(m, q.fieldsIn), q.fieldsIn.Keys, fieldsIn)
    requires Gathered(ListEntries(m, q.fieldsNotIn), q.fieldsNotIn.Keys, fieldsNotIn)
    requires Gathered(IntervalEntries(m, q.intervals), q.intervals.Keys, intervals)
    ensures Parsed(m, q, h.(fields := fields, fieldsIn := fieldsIn, fieldsNotIn := fieldsNotIn, intervals := intervals))
  {}

  lemma FieldsExchange(m: Model, f: Filter, h: Filter)
    requires Parses(m, QueryOf(f)) && Parsed(m, QueryOf(f), h) && AlwaysReturns(m, f)
    ensures AlwaysRenamed(m, f.fields, FieldEntries(m, QueryOf(f).fields))
  {
    var entries := FieldEntries(m, QueryOf(f).fields);
    forall g | Gathered(entries, entries.Keys, g) ensures Renamed(m, f.fields, g) {
      WithParts(m, QueryOf(f), h, g, h.fieldsIn, h.fieldsNotIn, h.intervals);
      assert RenamedFilter(m, f, h.(fields := g));
    }
  }

  lemma FieldsInExchange(m: Model, f: Filter, h: Filter)
    requires Parses(m, QueryOf(f)) && Parsed(m, QueryOf(f), h) && AlwaysReturns(m, f)
    ensures AlwaysRenamed(m, f.fieldsIn, ListEntries(m, QueryOf(f).fieldsIn))
  {
    var entries := ListEntries(m, QueryOf(f).fieldsIn);
    forall g | Gathered(entries, entries.Keys, g) ensures Renamed(m, f.fieldsIn, g) {
      WithParts(m, QueryOf(f), h, h.fields, g, h.fieldsNotIn, h.intervals);
      assert RenamedFilter(m, f, h.(fieldsIn := g));
    }
  }

  lemma FieldsNotInExchange(m: Model, f: Filter, h: Filter)
    requires Parses(m, QueryOf(f)) && Parsed(m, QueryOf(f), h) && AlwaysReturns(m, f)
    ensures AlwaysRenamed(m, f.fieldsNotIn, ListEntries(m, QueryOf(f).fieldsNotIn))
  {
    var entries := ListEntries(m, QueryOf(f).fieldsNotIn);
    forall g | Gathered(entries, entries.Keys, g) ensures Renamed(m, f.fieldsNotIn, g) {
      WithParts(m, QueryOf(f), h, h.fields, h.fieldsIn, g, h.intervals);
      assert RenamedFilter(m, f, h.(fieldsNotIn := g));
    }
  }

  lemma IntervalsExchange(m: Model, f: Filter, h: Filter)
    requires Parses(m, QueryOf(f)) && Parsed(m, QueryOf(f), h) && AlwaysReturns(m, f)
    ensures AlwaysRenamed(m, f.intervals, IntervalEntries(m, QueryOf(f).intervals))
  {
    var entries := IntervalEntries(m, QueryOf(f).intervals);
    forall g | Gathered(entries, entries.Keys, g) ensures Renamed(m, f.intervals, g) {
      WithParts(m, QueryOf(f), h, h.fields, h.fieldsIn, h.fieldsNotIn, g);
      assert RenamedFilter(m, f, h.(intervals := g));
    }
  }

  lemma PartsReturn(m: Model, f: Filter, h: Filter)
    requires Parses(m, QueryOf(f)) && Parsed(m, QueryOf(f), h) && AlwaysReturns(m, f)
    ensures MapsAlwaysReturn(m, f) && RenamedBetweens(m, f.betweens, h.betweens) && RenamedOrs(m, f.orFields, h.orFields)
  {
    assert RenamedFilter(m, f, h);
    FieldsExchange(m, f, h);
    FieldsInExchange(m, f, h);
    FieldsNotInExchange(m, f, h);
    IntervalsExchange(m, f, h);
  }

  lemma PartsSuffice(m: Model, f: Filter, g: Filter)
    requires Parses(m, QueryOf(f)) && Parsed(m, QueryOf(f), g) && MapsAlwaysReturn(m, f)
    ensures Renamed(m, f.fields, g.fields) && Renamed(m, f.fieldsIn, g.fieldsIn) && Renamed(m, f.fieldsNotIn, g.fieldsNotIn)
    ensures Renamed(m, f.intervals, g.intervals)
  {
    var q := QueryOf(f);
    assert FieldEntries(m, q.fields).Keys == q.fields.Keys && IntervalEntries(m, q.intervals).Keys == q.intervals.Keys;
    assert ListEntries(m, q.fieldsIn).Keys == q.fieldsIn.Keys && ListEntries(m, q.fieldsNotIn).Keys == q.fieldsNotIn.Keys;
  }

  lemma SuitableReturns(m: Model, f: Filter, g: Filter)
    requires NamesApart(m) && Parses(m, QueryOf(f)) && Parsed(m, QueryOf(f), g) && Suitable(m, f)
    ensures RenamedFilter(m, f, g)
  {
    MapsReturnExactly(m, f);
    PartsSuffice(m, f, g);
    BetweensReturnExactly(m, f.betweens, g.betweens);
    OrsReturnExactly(m, f.orFields, g.orFields);
  }

  lemma ReturnedIsSuitable(m: Model, f: Filter)
    requires NamesApart(m) && Parses(m, QueryOf(f)) && AlwaysReturns(m, f)
    ensures Suitable(m, f)
  {
    var h := SomeParsed(m, QueryOf(f));
    PartsReturn(m, f, h);
    MapsReturnExactly(m, f);
    BetweensReturnExactly(m, f.betweens, h.betweens);
    OrsReturnExactly(m, f.orFields, h.orFields);
  }

  /** A filter that was written as a query and parsed again is itself with every JSON name replaced by
      the database name, whatever the order of its entries, exactly when it is suitable. */
  lemma RoundTripExactly(m: Model, f: Filter)
    requires NamesApart(m) && Parses(m, QueryOf(f))
    ensures AlwaysReturns(m, f) <==> Suitable(m, f)
  {
    if AlwaysReturns(m, f) {
      ReturnedIsSuitable(m, f);
    } else if Suitable(m, f) {
      var g :| Parsed(m, QueryOf(f), g) && !RenamedFilter(m, f, g);
      SuitableReturns(m, f, g);
    }
  }

  // ---------------------------------------------------------------- writing a query

  method FieldsToQuery(fields: map<string, Value>) returns (q: map<string, string>)
    ensures q == ShowFields(fields)
  {
    q := map[];
    var left := fields.Keys;
    while left != {}
      invariant left <= fields.Keys && q.Keys == fields.Keys - left
      invariant forall k | k in q :: q[k] == Show(fields[k])
      decreases |left|
    {
      var key :| key in left;
      q := q[key := Show(fields[key])];
      left := left - {key};
    }
  }

  method ListsToQuery(lists: map<string, seq<Value>>) returns (q: map<string, seq<string>>)
    ensures q == ShowLists(lists)
  {
    q := map[];
    var left := lists.Keys;
    while left != {}
      invariant left <= lists.Keys && q.Keys == lists.Keys - left
      invariant forall k | k in q :: q[k] == ShowAll(lists[k])
      decreases |left|
    {
      var key :| key in left;
      var values, texts := lists[key], [];
      for i := 0 to |values|
        invariant |texts| == i && forall k | 0 <= k < i :: texts[k] == Show(values[k])
      {
        texts := texts + [Show(values[i])];
      }
      assert texts == ShowAll(values);
      q := q[key := texts];
      left := left - {key};
    }
  }

  method IntervalsToQuery(intervals: map<string, Interval>) returns (q: map<string, QueryInterval>)
    ensures q == ShowIntervals(intervals)
  {
    q := map[];
    var left := intervals.Keys;
    while left != {}
      invariant left <= intervals.Keys && q.Keys == intervals.Keys - left
      invariant forall k | k in q :: q[k] == ShowInterval(intervals[k])
      decreases |left|
    {
      var key :| key in left;
      var interval := intervals[key];
      var from, to: Option<string> := None, None;
      if !interval.from.Nil? { from := Some(Show(interval.from)); }
      if !interval.to.Nil? { to := Some(Show(interval.to)); }
      q := q[key := QueryInterval(from, to, interval.fromOpen, interval.toOpen)];
      left := left - {key};
    }
  }

  method ToQuery(f: Filter) returns (q: Query)
    ensures q == QueryOf(f)
  {
    var fields := FieldsToQuery(f.fields);
    var fieldsIn := ListsToQuery(f.fieldsIn);
    var fieldsNotIn := ListsToQuery(f.fieldsNotIn);
    var intervals := IntervalsToQuery(f.intervals);
    var betweens: seq<QueryBetween> := [];
    for i := 0 to |f.betweens|
      invariant |betweens| == i && forall k | 0 <= k < i :: betweens[k] == ShowBetween(f.betweens[k])
    {
      var b := f.betweens[i];
      betweens := betweens + [QueryBetween(b.fromField, b.toField, Show(b.value), b.fromOpen, b.toOpen)];
    }
    var orFields: seq<QueryOrFields> := [];
    for i := 0 to |f.orFields|
      invariant |orFields| == i && forall k | 0 <= k < i :: orFields[k] == ShowOr(f.orFields[k])
    {
      orFields := orFields + [QueryOrFields(Show(f.orFields[i].value), f.orFields[i].fields)];
    }
    assert betweens == ShowBetweens(f.betweens) && orFields == ShowOrs(f.orFields);
    q := Query(f.config, fields, fieldsIn, fieldsNotIn, intervals, betweens, orFields);
  }

  // ---------------------------------------------------------------- parsing a query

  class FilterParser {
    const m: Model

    constructor (m: Model)
      ensures this.m == m
    {
      this.m := m;
    }

    method ParseFields(q: map<string, string>) returns (r: Result<map<string, Value>, Error>)
      ensures r.Ok? <==> NoneFails(FieldEntries(m, q))
      ensures r.Ok? ==> Gathered(FieldEntries(m, q), q.Keys, r.value)
    {
      ghost var entries := FieldEntries(m, q);
      var g: map<string, Value> := map[];
      var left := q.Keys;
      while left != {}
        invariant left <= q.Keys && Gathered(entries, q.Keys - left, g)
        decreases |left|
      {
        var key :| key in left;
        var parsed := ParseValue(m, key, q[key]);
        if parsed.Err? {
          assert entries[key].Fails?;
          return Err(parsed.error);
        }
        GatherPut(entries, q.Keys - left, g, key, parsed.value.0, parsed.value.1);
        g := g[parsed.value.0 := parsed.value.1];
        assert q.Keys - (left - {key}) == q.Keys - left + {key};
        left := left - {key};
      }
      assert q.Keys - {} == q.Keys;
      return Ok(g);
    }

    /** The list that is kept under `field`, which stays the JSON name while nothing was parsed. */
    method ParseList(key: string, texts: seq<string>) returns (r: Result<(string, seq<Value>), Error>)
      ensures ListEntry(m, key, texts) == if r.Err? then Fails else Put(r.value.0, r.value.1)
    {
      var values: seq<Value> := [];
      var field := key;
      for i := 0 to |texts|
        invariant ParseAll(m, key, texts[..i]) == Some(values)
        invariant field == if i == 0 then key else DbName(m, key)
      {
        assert texts[..i + 1][..i] == texts[..i];
        var parsed := ParseValue(m, key, texts[i]);
        if parsed.Err? {
          ParseAllFails(m, key, texts, i);
          return Err(parsed.error);
        }
        field := parsed.value.0;
        values := values + [parsed.value.1];
      }
      assert texts[..|texts|] == texts;
      return Ok((field, values));
    }

    method ParseLists(q: map<string, seq<string>>) returns (r: Result<map<string, seq<Value>>, Error>)
      ensures r.Ok? <==> NoneFails(ListEntries(m, q))
      ensures r.Ok? ==> Gathered(ListEntries(m, q), q.Keys, r.value)
    {
      ghost var entries := ListEntries(m, q);
      var g: map<string, seq<Value>> := map[];
      var left := q.Keys;
      while left != {}
        invariant left <= q.Keys && Gathered(entries, q.Keys - left, g)
        decreases |left|
      {
        var key :| key in left;
        var parsed := ParseList(key, q[key]);
        if parsed.Err? {
          assert entries[key].Fails?;
          return Err(parsed.error);
        }
        GatherPut(entries, q.Keys - left, g, key, parsed.value.0, parsed.value.1);
        g := g[parsed.value.0 := parsed.value.1];
        assert q.Keys - (left - {key}) == q.Keys - left + {key};
        left := left - {key};
      }
      assert q.Keys - {} == q.Keys;
      return Ok(g);
    }

    method ParseInterval(key: string, interval: QueryInterval) returns (r: Result<Option<(string, Interval)>, Error>)
      ensures IntervalEntry(m, key, interval) ==
              if r.Err? then Fails else if r.value.None? then Dropped else Put(r.value.value.0, r.value.value.1)
    {
      var from, to := Nil, Nil;
      var field := "";
      if interval.from.Some? {
        var parsed := ParseValue(m, key, interval.from.value);
        if parsed.Err? { return Err(parsed.error); }
        field, from := parsed.value.0, parsed.value.1;
      }
      if interval.to.Some? {
        var parsed := ParseValue(m, key, interval.to.value);
        if parsed.Err? { return Err(parsed.error); }
        to := parsed.value.1;
        if field == "" { field := parsed.value.0; }
      }
      if field == "" { return Ok(None); }
      return Ok(Some((field, Interval(from, to, interval.fromOpen, interval.toOpen))));
    }

    method ParseIntervals(q: map<string, QueryInterval>) returns (r: Result<map<string, Interval>, Error>)
      ensures r.Ok? <==> NoneFails(IntervalEntries(m, q))
      ensures r.Ok? ==> Gathered(IntervalEntries(m, q), q.Keys, r.value)
    {
      ghost var entries := IntervalEntries(m, q);
      var g: map<string, Interval> := map[];
      var left := q.Keys;
      while left != {}
        invariant left <= q.Keys && Gathered(entries, q.Keys - left, g)
        decreases |left|
      {
        var key :| key in left;
        var parsed := ParseInterval(key, q[key]);
        if parsed.Err? {
          assert entries[key].Fails?;
          return Err(parsed.error);
        }
        if parsed.value.Some? {
          var (field, interval) := parsed.value.value;
          GatherPut(entries, q.Keys - left, g, key, field, interval);
          g := g[field := interval];
        }
        assert q.Keys - (left - {key}) == q.Keys - left + {key};
        left := left - {key};
      }
      assert q.Keys - {} == q.Keys;
      return Ok(g);
    }

    method ParseBetweens(q: seq<QueryBetween>) returns (r: Result<seq<Between>, Error>)
      ensures r.Ok? <==> AllBetweens(m, q)
      ensures r.Ok? ==> ParsedBetweens(m, q, r.value)
    {
      var g: seq<Between> := [];
      for i := 0 to |q|
        invariant |g| == i && forall k | 0 <= k < i :: ParseBetween(m, q[k]) == Some(g[k])
      {
        var from := ParseValue(m, q[i].fromField, q[i].value);
        if from.Err? { assert ParseBetween(m, q[i]).None?; return Err(from.error); }
        var to := ParseValue(m, q[i].toField, q[i].value);
        if to.Err? { assert ParseBetween(m, q[i]).None?; return Err(to.error); }
        g := g + [Between(from.value.0, to.value.0, from.value.1, q[i].fromOpen, q[i].toOpen)];
      }
      return Ok(g);
    }

    method ParseOrFields(q: QueryOrFields) returns (r: Result<OrFields, Error>)
      ensures ParseOr(m, q.value, q.fields) == if r.Ok? then Some(r.value) else None
    {
      var value := Nil;
      var fields: seq<string> := [];
      for j := 0 to |q.fields|
        invariant ParseOr(m, q.value, q.fields[..j]) == Some(OrFields(value, fields))
      {
        assert q.fields[..j + 1][..j] == q.fields[..j];
        var parsed := ParseValue(m, q.fields[j], q.value);
        if parsed.Err? {
          ParseOrFails(m, q.value, q.fields, j);
          return Err(parsed.error);
        }
        fields := fields + [parsed.value.0];
        value := parsed.value.1;
      }
      assert q.fields[..|q.fields|] == q.fields;
      return Ok(OrFields(value, fields));
    }

    method ParseOrs(q: seq<QueryOrFields>) returns (r: Result<seq<OrFields>, Error>)
      ensures r.Ok? <==> AllOrs(m, q)
      ensures r.Ok? ==> ParsedOrs(m, q, r.value)
    {
      var g: seq<OrFields> := [];
      for i := 0 to |q|
        invariant |g| == i && forall k | 0 <= k < i :: ParseOr(m, q[k].value, q[k].fields) == Some(g[k])
      {
        var parsed := ParseOrFields(q[i]);
        if parsed.Err? { return Err(parsed.error); }
        g := g + [parsed.value];
      }
      return Ok(g);
    }

    method Parse(q: Query) returns (r: Result<Filter, Error>)
      ensures r.Ok? <==> Parses(m, q)
      ensures r.Ok? ==> Parsed(m, q, r.value)
    {
      var config := q.config;
      if q.config.sortField != "" {
        var field := ParseName(m, q.config.sortField);
        if field.Err? { return Err(field.error); }
        config := config.(sortField := field.value);
      }
      var fields := ParseFields(q.fields);
      if fields.Err? { return Err(fields.error); }
      var fieldsIn := ParseLists(q.fieldsIn);
      if fieldsIn.Err? { return Err(fieldsIn.error); }
      var fieldsNotIn := ParseLists(q.fieldsNotIn);
      if fieldsNotIn.Err? { return Err(fieldsNotIn.error); }
      var intervals := ParseIntervals(q.intervals);
      if intervals.Err? { return Err(intervals.error); }
      var betweens := ParseBetweens(q.betweens);
      if betweens.Err? { return Err(betweens.error); }
      var orFields := ParseOrs(q.orFields);
      if orFields.Err? { return Err(orFields.error); }
      return Ok(Filter(config, fields.value, fieldsIn.value, fieldsNotIn.value, intervals.value, betweens.value, orFields.value));
    }

    /** A suitable filter sent as a query arrives on the other side with renamed columns. */
    method Transmit(f: Filter) returns (r: Result<Filter, Error>)
      requires NamesApart(m)
      ensures Suitable(m, f) ==> r.Ok? && RenamedFilter(m, f, r.value)
      ensures r.Ok? <==> Parses(m, QueryOf(f))
    {
      var q := ToQuery(f);
      r := Parse(q);
      if Suitable(m, f) {
        SuitableParses(m, f);
        RoundTripExactly(m, f);
      }
    }
  }

  lemma {:induction false} ParseAllFails(m: Model, name: string, texts: seq<string>, k: nat)
    requires k < |texts| && ParseValue(m, name, texts[k]).Err?
    ensures ParseAll(m, name, texts) == None
    decreases |texts|
  {
    if k < |texts| - 1 { ParseAllFails(m, name, texts[..|texts| - 1], k); }
  }

  lemma {:induction false} ParseOrFails(m: Model, value: string, names: seq<string>, k: nat)
    requires k < |names| && ParseValue(m, names[k], value).Err?
    ensures ParseOr(m, value, names) == None
    decreases |names|
  {
    if k < |names| - 1 { ParseOrFails(m, value, names[..|names| - 1], k); }
  }
}
