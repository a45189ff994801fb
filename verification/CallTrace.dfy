/** Call tracing and the capture of the first error
    (pkg/op_context/default_op_context/default_op_context.go).

    Every traced method pushes a call context on entry and pops it on exit.  The stack at the first
    exit with an error is kept by reference, so that messages set later by the callers still reach
    the log, while the reported error stays the one of the deepest frame. */
module CallTrace {
  import opened Prelude

  /** What a traced method does, in order.  `Clear` is `ClearError`, which forgets the captured stack
      and the generic error. */
  datatype Action =
    | SetError(error: Option<string>)
    | SetMessage(message: string)
    | SetGeneric(generic: Option<string>, override: bool)
    | Clear
    | Call(callee: Frame)

  datatype Frame = Frame(name: string, body: seq<Action>)

  // ---------------------------------------------------------------- what the actions mean

  /** The error of a frame after these of its actions. */
  function ErrorAfter(body: seq<Action>): Option<string> {
    if body == [] then None
    else
      var last := body[|body| - 1];
      if last.SetError? then last.error else ErrorAfter(body[..|body| - 1])
  }

  function MessageAfter(body: seq<Action>): string {
    if body == [] then ""
    else
      var last := body[|body| - 1];
      if last.SetMessage? then last.message else MessageAfter(body[..|body| - 1])
  }

  /** What is captured after a piece of a run: what was captured before it, nothing, or the stack at
      the exit of the last frame of a chain of frames of this piece. */
  datatype Capture = Held | Nothing | Chain(frames: seq<Frame>)

  function Start(held: bool): Capture {
    if held then Held else Nothing
  }

  /** The capture of a later piece on top of that of an earlier one. */
  function Then(before: Capture, later: Capture): Capture {
    if later.Held? then before else later
  }

  /** The capture after a call of `f`; `held` tells whether something is captured before. */
  function CaptureOf(f: Frame, held: bool): Capture {
    AtExit(f, CaptureIn(f.body, held))
  }

  /** The capture at the exit of `f`, given that of its body. */
  function AtExit(f: Frame, inner: Capture): Capture {
    match inner
    case Held => Held
    case Chain(frames) => Chain([f] + frames)
    case Nothing => if ErrorAfter(f.body).Some? then Chain([f]) else Nothing
  }

  function CaptureIn(body: seq<Action>, held: bool): Capture
    decreases body, 1
  {
    if body == [] then Start(held)
    else
      var before := CaptureIn(body[..|body| - 1], held);
      Then(before, CaptureAt(body[|body| - 1], !before.Nothing?))
  }

  function CaptureAt(a: Action, held: bool): Capture {
    if a.Clear? then Nothing else if a.Call? then CaptureOf(a.callee, held) else Start(held)
  }

  // ---------------------------------------------------------------- the order of events

  /** A frame exits, with the chain leading to it; or the errors are cleared. */
  datatype Event = Exit(chain: seq<Frame>) | Cleared

  /** Everything that happens under `f`, in order. */
  function Events(f: Frame): seq<Event> {
    Below(f, EventsIn(f.body)) + [Exit([f])]
  }

  function EventsIn(body: seq<Action>): seq<Event>
    decreases body, 1
  {
    if body == [] then [] else EventsIn(body[..|body| - 1]) + EventsAt(body[|body| - 1])
  }

  function EventsAt(a: Action): seq<Event> {
    if a.Clear? then [Cleared] else if a.Call? then Events(a.callee) else []
  }

  function OneBelow(f: Frame, e: Event): Event {
    if e.Exit? then Exit([f] + e.chain) else Cleared
  }

  function Below(f: Frame, events: seq<Event>): (below: seq<Event>)
    ensures |below| == |events| && forall k | 0 <= k < |events| :: below[k] == OneBelow(f, events[k])
  {
    seq(|events|, k requires 0 <= k < |events| => OneBelow(f, events[k]))
  }

  /** The frame at the end of the chain exits with an error. */
  ghost predicate Errs(e: Event) {
    e.Exit? && e.chain != [] && ErrorAfter(e.chain[|e.chain| - 1].body).Some?
  }

  /** `k` is the first event from `from` on that errs. */
  ghost predicate FirstFrom(events: seq<Event>, from: nat, k: nat) {
    from <= k < |events| && Errs(events[k]) && forall m | from <= m < k :: !Errs(events[m])
  }

  /** The events since the last clearing begin at `from`. */
  ghost predicate SinceClear(events: seq<Event>, from: nat) {
    && from <= |events|
    && (from > 0 ==> events[from - 1].Cleared?)
    && (forall m | from <= m < |events| :: !events[m].Cleared?)
  }

  /** What `capture` is if the errors were last cleared before `from`: without a clearing what was held
      stays held; otherwise it is the chain of the first exit with an error, if there is one. */
  ghost predicate CaptureFrom(capture: Capture, events: seq<Event>, held: bool, from: nat) {
    if held && from == 0 then capture == Held
    else
      match capture
      case Held => false
      case Nothing => forall m | from <= m < |events| :: !Errs(events[m])
      case Chain(frames) => exists k: nat :: FirstFrom(events, from, k) && events[k].chain == frames
  }

  ghost predicate IsCapture(capture: Capture, events: seq<Event>, held: bool) {
    exists from: nat :: SinceClear(events, from) && CaptureFrom(capture, events, held, from)
  }

  /** One more event. */
  function Fold(capture: Capture, e: Event): Capture {
    match e
    case Cleared => Nothing
    case Exit(chain) =>
      if capture.Nothing? && chain != [] && ErrorAfter(chain[|chain| - 1].body).Some? then Chain(chain) else capture
  }

  function FoldAll(capture: Capture, events: seq<Event>): Capture {
    if events == [] then capture else Fold(FoldAll(capture, events[..|events| - 1]), events[|events| - 1])
  }

  lemma {:induction false} FoldConcat(capture: Capture, a: seq<Event>, b: seq<Event>)
    ensures FoldAll(capture, a + b) == FoldAll(FoldAll(capture, a), b)
    decreases |b|
  {
    if b == [] {
      assert a + b == a;
    } else {
      assert (a + b)[..|a + b| - 1] == a + b[..|b| - 1];
      FoldConcat(capture, a, b[..|b| - 1]);
    }
  }

  /** Whether something is captured before is all that matters to what follows. */
  lemma {:induction false} FoldThen(capture: Capture, events: seq<Event>)
    ensures FoldAll(capture, events) == Then(capture, FoldAll(Start(!capture.Nothing?), events))
    decreases |events|
  {
    if events != [] { FoldThen(capture, events[..|events| - 1]); }
  }

  function Lift(f: Frame, capture: Capture): Capture {
    if capture.Chain? then Chain([f] + capture.frames) else capture
  }

  lemma FoldLifts(f: Frame, capture: Capture, e: Event)
    requires e.Exit? ==> e.chain != []
    ensures Fold(Lift(f, capture), OneBelow(f, e)) == Lift(f, Fold(capture, e))
  {
    if e.Exit? { assert ([f] + e.chain)[|e.chain|] == e.chain[|e.chain| - 1]; }
  }

  lemma {:induction false} FoldBelow(f: Frame, held: bool, events: seq<Event>)
    requires forall k | 0 <= k < |events| && events[k].Exit? :: events[k].chain != []
    ensures FoldAll(Start(held), Below(f, events)) == Lift(f, FoldAll(Start(held), events))
    decreases |events|
  {
    if events != [] {
      var n := |events| - 1;
      FoldBelow(f, held, events[..n]);
      assert Below(f, events)[..n] == Below(f, events[..n]);
      FoldLifts(f, FoldAll(Start(held), events[..n]), events[n]);
    }
  }

  /** The recursive meaning of a call tree is the fold over its events. */
  lemma {:induction false} CaptureFolds(f: Frame, held: bool)
    ensures CaptureOf(f, held) == FoldAll(Start(held), Events(f))
    ensures forall k | 0 <= k < |Events(f)| && Events(f)[k].Exit? :: Events(f)[k].chain != []
    decreases f
  {
    CaptureInFolds(f.body, held);
    FoldBelow(f, held, EventsIn(f.body));
    var below := Below(f, EventsIn(f.body));
    assert (below + [Exit([f])])[..|below|] == below;
  }

  lemma {:induction false} CaptureInFolds(body: seq<Action>, held: bool)
    ensures CaptureIn(body, held) == FoldAll(Start(held), EventsIn(body))
    ensures forall k | 0 <= k < |EventsIn(body)| && EventsIn(body)[k].Exit? :: EventsIn(body)[k].chain != []
    decreases body, 1
  {
    if body != [] {
      var before, last := body[..|body| - 1], body[|body| - 1];
      var capture := CaptureIn(before, held);
      CaptureInFolds(before, held);
      CaptureAtFolds(last, !capture.Nothing?);
      FoldConcat(Start(held), EventsIn(before), EventsAt(last));
      FoldThen(capture, EventsAt(last));
    }
  }

  lemma {:induction false} CaptureAtFolds(a: Action, held: bool)
    ensures CaptureAt(a, held) == FoldAll(Start(held), EventsAt(a))
    ensures forall k | 0 <= k < |EventsAt(a)| && EventsAt(a)[k].Exit? :: EventsAt(a)[k].chain != []
    decreases a
  {
    if a.Call? { CaptureFolds(a.callee, held); }
    if a.Clear? { assert [Cleared][..0] == []; }
  }

  lemma {:induction false} FoldIsCapture(events: seq<Event>, held: bool)
    ensures IsCapture(FoldAll(Start(held), events), events, held)
    decreases |events|
  {
    if events == [] {
      assert SinceClear(events, 0);
    } else {
      var n := |events| - 1;
      var shorter := events[..n];
      FoldIsCapture(shorter, held);
      if events[n].Cleared? {
        assert SinceClear(events, n + 1);
      } else {
        var from: nat :| SinceClear(shorter, from) && CaptureFrom(FoldAll(Start(held), shorter), shorter, held, from);
        assert SinceClear(events, from);
        FoldExtends(events, held, from);
      }
    }
  }

  /** An exit after the events before it. */
  lemma FoldExtends(events: seq<Event>, held: bool, from: nat)
    requires events != [] && events[|events| - 1].Exit? && from < |events|
    requires var shorter := events[..|events| - 1]; CaptureFrom(FoldAll(Start(held), shorter), shorter, held, from)
    ensures CaptureFrom(FoldAll(Start(held), events), events, held, from)
  {
    var n := |events| - 1;
    var shorter := events[..n];
    var before := FoldAll(Start(held), shorter);
    if before.Chain? {
      var k: nat :| FirstFrom(shorter, from, k) && shorter[k].chain == before.frames;
      assert FirstFrom(events, from, k);
    } else if before.Nothing? && Errs(events[n]) {
      assert forall m | from <= m < n :: events[m] == shorter[m];
      assert FirstFrom(events, from, n);
    }
  }

  /** After any call tree the captured stack is that of the first frame, in the order of exits since the
      last clearing anywhere in the tree, that exits with an error; without a clearing what was
      captured before stays captured. */
  lemma CaptureIsFirstSinceClear(f: Frame, held: bool)
    ensures IsCapture(CaptureOf(f, held), Events(f), held)
  {
    CaptureFolds(f, held);
    FoldIsCapture(Events(f), held);
  }

  ghost predicate Clears(f: Frame) {
    exists k :: 0 <= k < |Events(f)| && Events(f)[k].Cleared?
  }

  /** Where nothing is cleared, the first error of all stays. */
  lemma FirstErrorStays(f: Frame)
    requires !Clears(f)
    ensures IsCapture(CaptureOf(f, true), Events(f), true) && CaptureOf(f, true) == Held
    ensures CaptureFrom(CaptureOf(f, false), Events(f), false, 0)
  {
    CaptureIsFirstSinceClear(f, true);
    CaptureIsFirstSinceClear(f, false);
  }

  /** A customer is looked up by identifier, not found, and then found by login. */
  const FIND_CUSTOMER := Frame("FindCustomer", [
    Call(Frame("Find", [SetError(Some("not found"))])), Clear, Call(Frame("FindByLogin", []))])

  /** The captured error of the first lookup is forgotten; without the clearing it would stay. */
  lemma FindCustomerIsForgiven()
    ensures CaptureOf(FIND_CUSTOMER, false) == Nothing
    ensures CaptureOf(FIND_CUSTOMER.(body := FIND_CUSTOMER.body[1 := SetMessage("")]), false)
            == Chain([FIND_CUSTOMER.(body := FIND_CUSTOMER.body[1 := SetMessage("")]), FIND_CUSTOMER.body[0].callee])
  {
    var find := FIND_CUSTOMER.body[0].callee;
    assert find.body[..0] == [] && ErrorAfter(find.body) == Some("not found");
    assert CaptureIn(find.body, false) == Nothing && CaptureOf(find, false) == Chain([find]);
    ForgivenBody(FIND_CUSTOMER.body);
    ForgivenBody(FIND_CUSTOMER.body[1 := SetMessage("")]);
  }

  lemma ForgivenBody(body: seq<Action>)
    requires |body| == 3 && body[0].Call? && CaptureOf(body[0].callee, false) == Chain([body[0].callee])
    requires body[1] == Clear || body[1] == SetMessage("")
    requires body[2] == Call(Frame("FindByLogin", []))
    ensures CaptureIn(body, false) == if body[1] == Clear then Nothing else Chain([body[0].callee])
    ensures ErrorAfter(body) == None
  {
    var two, one := body[..2], body[..1];
    assert two[..1] == one && one[..0] == [];
    assert CaptureIn(one, false) == Chain([body[0].callee]);
    assert one[..|one| - 1] == [] && two[..|two| - 1] == one && body[..|body| - 1] == two;
    assert ErrorAfter(one) == ErrorAfter([]) && ErrorAfter(two) == ErrorAfter(one);
    assert CaptureIn(two, false) == if body[1] == Clear then Nothing else CaptureIn(one, false);
    assert CaptureIn(body, false) == Then(CaptureIn(two, false), CaptureAt(body[2], !CaptureIn(two, false).Nothing?));
    forall held ensures CaptureAt(body[2], held) == Start(held) { assert CaptureIn([], held) == Start(held); }
  }

  // ---------------------------------------------------------------- generic errors

  function SetGenericError(now: Option<string>, error: Option<string>, override: bool): Option<string> {
    if now.None? || error.None? || override then error else now
  }

  /** The generic error after a frame that began with `now`. */
  function GenericAfter(f: Frame, now: Option<string>): Option<string> {
    GenericIn(f.body, now)
  }

  function GenericIn(body: seq<Action>, now: Option<string>): Option<string>
    decreases body, 1
  {
    if body == [] then now else GenericBy(body[|body| - 1], GenericIn(body[..|body| - 1], now))
  }

  function GenericBy(a: Action, now: Option<string>): Option<string> {
    match a
    case SetError(_) => now
    case SetMessage(_) => now
    case SetGeneric(generic, override) => SetGenericError(now, generic, override)
    case Clear => None
    case Call(callee) => GenericAfter(callee, now)
  }

  /** One change of the generic error; a clearing sets it to none. */
  datatype Setting = Setting(generic: Option<string>, override: bool)

  function SettingsIn(body: seq<Action>): seq<Setting>
    decreases body, 1
  {
    if body == [] then [] else SettingsIn(body[..|body| - 1]) + SettingsAt(body[|body| - 1])
  }

  function SettingsAt(a: Action): seq<Setting> {
    match a
    case SetError(_) => []
    case SetMessage(_) => []
    case SetGeneric(generic, override) => [Setting(generic, override)]
    case Clear => [Setting(None, false)]
    case Call(callee) => SettingsIn(callee.body)
  }

  /** A setting that replaces whatever is there. */
  predicate Forces(s: Setting) {
    s.generic.None? || s.override
  }

  /** The generic error if the settings since the last forcing one begin at `from`: what was forced, or
      was there at first, if that is an error; otherwise the first error set since. */
  ghost predicate GenericFrom(result: Option<string>, settings: seq<Setting>, now: Option<string>, from: nat) {
    && from <= |settings| && (from > 0 ==> Forces(settings[from - 1]))
    && (forall m | from <= m < |settings| :: !Forces(settings[m]))
    && var base := if from == 0 then now else settings[from - 1].generic;
       result == if base.Some? then base else if from < |settings| then settings[from].generic else None
  }

  ghost predicate IsGeneric(result: Option<string>, settings: seq<Setting>, now: Option<string>) {
    exists from: nat :: GenericFrom(result, settings, now, from)
  }

  function Settle(settings: seq<Setting>, now: Option<string>): Option<string> {
    if settings == [] then now
    else
      var last := settings[|settings| - 1];
      SetGenericError(Settle(settings[..|settings| - 1], now), last.generic, last.override)
  }

  lemma {:induction false} SettleConcat(a: seq<Setting>, b: seq<Setting>, now: Option<string>)
    ensures Settle(a + b, now) == Settle(b, Settle(a, now))
    decreases |b|
  {
    if b == [] {
      assert a + b == a;
    } else {
      assert (a + b)[..|a + b| - 1] == a + b[..|b| - 1];
      SettleConcat(a, b[..|b| - 1], now);
    }
  }

  lemma {:induction false} GenericSettles(body: seq<Action>, now: Option<string>)
    ensures GenericIn(body, now) == Settle(SettingsIn(body), now)
    decreases body, 1
  {
    if body != [] {
      var before, last := body[..|body| - 1], body[|body| - 1];
      GenericSettles(before, now);
      GenericSettlesAt(last, GenericIn(before, now));
      SettleConcat(SettingsIn(before), SettingsAt(last), now);
    }
  }

  lemma {:induction false} GenericSettlesAt(a: Action, now: Option<string>)
    ensures GenericBy(a, now) == Settle(SettingsAt(a), now)
    decreases a
  {
    match a
    case Call(callee) => GenericSettles(callee.body, now);
    case Clear => assert [Setting(None, false)][..0] == [];
    case SetGeneric(generic, override) => assert [Setting(generic, override)][..0] == [];
    case SetError(_) =>
    case SetMessage(_) =>
  }

  lemma {:induction false} SettleIsGeneric(settings: seq<Setting>, now: Option<string>)
    ensures IsGeneric(Settle(settings, now), settings, now)
    decreases |settings|
  {
    if settings != [] {
      var n := |settings| - 1;
      var shorter := settings[..n];
      SettleIsGeneric(shorter, now);
      if !Forces(settings[n]) {
        var from: nat :| GenericFrom(Settle(shorter, now), shorter, now, from);
        assert from > 0 ==> settings[from - 1] == shorter[from - 1];
        assert from < n ==> settings[from] == shorter[from];
        assert GenericFrom(Settle(settings, now), settings, now, from);
      } else {
        assert GenericFrom(Settle(settings, now), settings, now, n + 1);
      }
    } else {
      assert GenericFrom(now, settings, now, 0);
    }
  }

  /** The first generic error stays: after any call tree it is the first one since it was last cleared
      or overridden, wherever in the tree that was. */
  lemma FirstGenericStays(f: Frame, now: Option<string>)
    ensures IsGeneric(GenericAfter(f, now), SettingsIn(f.body), now)
  {
    GenericSettles(f.body, now);
    SettleIsGeneric(SettingsIn(f.body), now);
  }

  // ---------------------------------------------------------------- reports

  datatype Report = Success | Failure(message: string, error: Option<string>, path: string)

  function Names(chain: seq<Frame>): (names: seq<string>)
    ensures |names| == |chain|
  {
    seq(|chain|, k requires 0 <= k < |chain| => chain[k].name)
  }

  function Messages(chain: seq<Frame>): (messages: seq<string>)
    ensures |messages| == |chain|
  {
    seq(|chain|, k requires 0 <= k < |chain| => MessageAfter(chain[k].body))
  }

  /** The error of the deepest frame that has one. */
  function Deepest(errors: seq<Option<string>>): Option<string> {
    if errors == [] then None
    else
      var last := errors[|errors| - 1];
      if last.Some? then last else Deepest(errors[..|errors| - 1])
  }

  function Join(names: seq<string>): string {
    if names == [] then ""
    else
      var before := Join(names[..|names| - 1]);
      (if before != "" then before + ":" else before) + names[|names| - 1]
  }

  /** The messages of the frames that have one, outermost first, each with the name of its method. */
  function Gather(names: seq<string>, messages: seq<string>): string
    requires |names| == |messages|
  {
    if names == [] then ""
    else
      var n := |names| - 1;
      var before := Gather(names[..n], messages[..n]);
      if messages[n] == "" then before
      else (if before != "" then before + ":" else before) + names[n] + "(" + messages[n] + ")"
  }

  /** The parts of a path between its colons. */
  function Split(path: string): (parts: seq<string>)
    ensures parts != []
  {
    if path == "" then [""]
    else
      var before := Split(path[..|path| - 1]);
      var last := path[|path| - 1];
      if last == ':' then before + [""] else before[..|before| - 1] + [before[|before| - 1] + [last]]
  }

  /** The last part grows by this name. */
  function Grown(parts: seq<string>, name: string): seq<string>
    requires parts != []
  {
    parts[..|parts| - 1] + [parts[|parts| - 1] + name]
  }

  lemma GrownTwice(parts: seq<string>, name: string, c: char)
    requires parts != []
    ensures Grown(Grown(parts, name), [c]) == Grown(parts, name + [c])
  {
    var last := parts[|parts| - 1];
    assert last + name + [c] == last + (name + [c]);
  }

  lemma SplitStep(path: string, c: char)
    ensures Split(path + [c]) == if c == ':' then Split(path) + [""] else Grown(Split(path), [c])
  {
    assert (path + [c])[..|path|] == path;
  }

  lemma {:induction false} SplitName(path: string, name: string)
    requires ':' !in name
    ensures Split(path + name) == Grown(Split(path), name)
    decreases |name|
  {
    if name == "" {
      assert path + name == path && Split(path)[|Split(path)| - 1] + name == Split(path)[|Split(path)| - 1];
    } else {
      var n := |name| - 1;
      assert name[n] in name && name[..n] + [name[n]] == name;
      assert path + name[..n] + [name[n]] == path + name;
      SplitName(path, name[..n]);
      SplitStep(path + name[..n], name[n]);
      GrownTwice(Split(path), name[..n], name[n]);
    }
  }

  ghost predicate Plain(names: seq<string>) {
    forall n | n in names :: n != "" && ':' !in n
  }

  /** The path tells the names of the stack: it can be taken apart again. */
  lemma {:induction false} PathTellsNames(names: seq<string>)
    requires Plain(names) && names != []
    ensures Split(Join(names)) == names && Join(names) != ""
    decreases |names|
  {
    var n := |names| - 1;
    assert names == names[..n] + [names[n]] && names[n] in names;
    if n == 0 {
      assert Join(names[..n]) == "" && Join(names) == names[0] && "" + names[0] == names[0];
      SplitName("", names[0]);
    } else {
      assert forall x | x in names[..n] :: x in names;
      PathTellsNames(names[..n]);
      SplitLast(Join(names[..n]), names[n]);
    }
  }

  lemma SplitLast(path: string, name: string)
    requires ':' !in name
    ensures Split(path + ":" + name) == Split(path) + [name]
  {
    SplitStep(path, ':');
    SplitName(path + ":", name);
    assert "" + name == name;
    assert (Split(path) + [""])[..|Split(path)|] == Split(path);
  }

  /** The entries of the frames that have a message. */
  function Entries(names: seq<string>, messages: seq<string>): seq<string>
    requires |names| == |messages|
  {
    if names == [] then []
    else
      var n := |names| - 1;
      Entries(names[..n], messages[..n]) + (if messages[n] != "" then [names[n] + "(" + messages[n] + ")"] else [])
  }

  /** The message of a report is the path of these entries. */
  lemma {:induction false} GatherJoinsEntries(names: seq<string>, messages: seq<string>)
    requires |names| == |messages|
    ensures Gather(names, messages) == Join(Entries(names, messages))
    decreases |names|
  {
    if names != [] {
      var n := |names| - 1;
      GatherJoinsEntries(names[..n], messages[..n]);
      if messages[n] != "" {
        var before, entry := Entries(names[..n], messages[..n]), names[n] + "(" + messages[n] + ")";
        assert (before + [entry])[..|before|] == before && Entries(names, messages) == before + [entry];
        var joined := if Join(before) != "" then Join(before) + ":" else Join(before);
        assert Join(before + [entry]) == joined + entry;
        assert joined + names[n] + "(" + messages[n] + ")" == joined + entry;
      } else {
        assert Entries(names, messages) == Entries(names[..n], messages[..n]);
      }
    }
  }

  lemma CapturedErrs(f: Frame, held: bool)
    ensures CaptureOf(f, held).Chain? ==>
      var frames := CaptureOf(f, held).frames; frames != [] && ErrorAfter(frames[|frames| - 1].body).Some?
  {
    CaptureIsFirstSinceClear(f, held);
  }

  /** The report on an operation: the error its deepest captured frame had at exit, and the messages
      that all frames on the captured chain have in the end. */
  ghost function Reported(f: Frame): Report {
    CapturedErrs(f, false);
    match CaptureOf(f, false)
    case Held => Success
    case Nothing => Success
    case Chain(frames) =>
      Failure(Gather(Names(frames), Messages(frames)), ErrorAfter(frames[|frames| - 1].body), Join(Names(frames)))
  }

  // ---------------------------------------------------------------- the context

  class CallContext {
    const name: string
    var error: Option<string>
    var message: string

    constructor (name: string)
      ensures this.name == name && error == None && message == ""
    {
      this.name, error, message := name, None, "";
    }
  }

  /** The call contexts of completed frames. */
  ghost predicate Completed(contexts: seq<CallContext>, chain: seq<Frame>)
    reads contexts
  {
    |contexts| == |chain| && forall k | 0 <= k < |chain| ::
      && contexts[k].name == chain[k].name && contexts[k].error == ErrorAfter(chain[k].body)
      && contexts[k].message == MessageAfter(chain[k].body)
  }

  function NamesOf(contexts: seq<CallContext>): (names: seq<string>)
    ensures |names| == |contexts| && forall k | 0 <= k < |contexts| :: names[k] == contexts[k].name
  {
    seq(|contexts|, k requires 0 <= k < |contexts| => contexts[k].name)
  }

  ghost function MessagesOf(contexts: seq<CallContext>): (messages: seq<string>)
    reads contexts
    ensures |messages| == |contexts| && forall k | 0 <= k < |contexts| :: messages[k] == contexts[k].message
  {
    seq(|contexts|, k requires 0 <= k < |contexts| reads contexts => contexts[k].message)
  }

  ghost function ErrorsOf(contexts: seq<CallContext>): (errors: seq<Option<string>>)
    reads contexts
    ensures |errors| == |contexts| && forall k | 0 <= k < |contexts| :: errors[k] == contexts[k].error
  {
    seq(|contexts|, k requires 0 <= k < |contexts| reads contexts => contexts[k].error)
  }

  /** The caller of completed frames completes as well. */
  lemma CompletedBelow(base: seq<CallContext>, c: CallContext, contexts: seq<CallContext>, f: Frame, chain: seq<Frame>)
    requires base + [c] <= contexts && Completed(contexts[|base| + 1..], chain) && Completed([c], [f])
    ensures base <= contexts && Completed(contexts[|base|..], [f] + chain)
  {
    var rest := contexts[|base| + 1..];
    assert contexts[|base|] == (base + [c])[|base|] == c;
    assert contexts[|base|..] == [c] + rest;
    assert [c][0] == c && [f][0] == f;
  }

  method StackPath(stack: seq<CallContext>) returns (path: string)
    ensures path == Join(NamesOf(stack))
  {
    ghost var names := NamesOf(stack);
    path := "";
    var k := 0;
    while k < |stack|
      invariant 0 <= k <= |stack| && path == Join(names[..k])
    {
      assert names[..k + 1][..k] == names[..k];
      if path != "" { path := path + ":"; }
      path := path + stack[k].name;
      k := k + 1;
    }
    assert names[..k] == names;
  }

  class Context {
    var stack: seq<CallContext>
    var errorStack: Option<seq<CallContext>>
    var genericError: Option<string>

    constructor ()
      ensures stack == [] && errorStack == None && genericError == None
    {
      stack, errorStack, genericError := [], None, None;
    }

    method TraceInMethod(name: string) returns (c: CallContext)
      modifies this`stack
      ensures fresh(c) && c.name == name && c.error == None && c.message == ""
      ensures stack == old(stack) + [c]
    {
      c := new CallContext(name);
      stack := stack + [c];
    }

    method TraceOutMethod()
      modifies this`stack, this`errorStack
      ensures stack == if old(stack) == [] then [] else old(stack)[..|old(stack)| - 1]
      ensures errorStack == if old(stack) != [] && old(errorStack) == None && old(stack)[|old(stack)| - 1].error.Some?
                            then Some(old(stack)) else old(errorStack)
    {
      if |stack| == 0 { return; }
      if stack[|stack| - 1].error.Some? && errorStack == None { errorStack := Some(stack); }
      stack := stack[..|stack| - 1];
    }

    method PutGenericError(error: Option<string>, override: bool)
      modifies this`genericError
      ensures genericError == SetGenericError(old(genericError), error, override)
    {
      if genericError.None? || error.None? || override { genericError := error; }
    }

    /** What the context holds after a piece of a run that began with the stack `base`. */
    ghost predicate Captured(base: seq<CallContext>, capture: Capture)
      reads this, if errorStack.Some? then set c | c in errorStack.value else {}
    {
      match capture
      case Held => errorStack.Some?
      case Nothing => errorStack == None
      case Chain(frames) =>
        errorStack.Some? && base <= errorStack.value && Completed(errorStack.value[|base|..], frames)
    }

    /** Forgets the captured stack and the generic error. */
    method ClearError()
      modifies this`errorStack, this`genericError
      ensures errorStack == None && genericError == None
    {
      errorStack, genericError := None, None;
    }

    /** A traced method and everything it calls: the stack is restored and the capture is the one the
        call tree means; the frames on it carry what they carried at their own exits. */
    method Exec(f: Frame)
      modifies this
      ensures stack == old(stack)
      ensures genericError == GenericAfter(f, old(genericError))
      ensures var capture := CaptureOf(f, old(errorStack).Some?);
        && Captured(stack, capture)
        && (capture.Held? ==> errorStack == old(errorStack))
        && (capture.Chain? ==> fresh(errorStack.value[|stack|..]))
      decreases f, 1
    {
      ghost var held := errorStack.Some?;
      var c := TraceInMethod(f.name);
      RunBody(c, f);
      Leave(c, f, CaptureIn(f.body, held));
    }

    /** The exit of the frame on top of the stack, which is complete. */
    method Leave(c: CallContext, f: Frame, ghost inner: Capture)
      requires stack != [] && stack[|stack| - 1] == c && Completed([c], [f]) && Captured(stack, inner)
      modifies this`stack, this`errorStack
      ensures stack == old(stack)[..|old(stack)| - 1] && Captured(stack, AtExit(f, inner))
      ensures !inner.Nothing? ==> errorStack == old(errorStack)
      ensures AtExit(f, inner).Chain? ==> errorStack.value[|stack|] == c
    {
      ghost var base := stack[..|stack| - 1];
      assert stack == base + [c] && [c][0].error == ErrorAfter([f][0].body);
      if inner.Chain? {
        CompletedBelow(base, c, errorStack.value, f, inner.frames);
      } else if c.error.Some? {
        CompletedBelow(base, c, stack, f, []);
      }
      TraceOutMethod();
    }

    /** The actions of the frame on top of the stack. */
    method RunBody(c: CallContext, f: Frame)
      requires stack != [] && stack[|stack| - 1] == c && c.error == None && c.message == ""
      modifies this, c
      ensures stack == old(stack)
      ensures c.error == ErrorAfter(f.body) && c.message == MessageAfter(f.body)
      ensures genericError == GenericIn(f.body, old(genericError))
      ensures var capture := CaptureIn(f.body, old(errorStack).Some?);
        && Captured(stack, capture)
        && (capture.Held? ==> errorStack == old(errorStack))
        && (capture.Chain? ==> fresh(errorStack.value[|stack|..]))
      decreases f, 0
    {
      ghost var held := errorStack.Some?;
      var k := 0;
      while k < |f.body|
        invariant 0 <= k <= |f.body| && stack == old(stack)
        invariant c.error == ErrorAfter(f.body[..k]) && c.message == MessageAfter(f.body[..k])
        invariant genericError == GenericIn(f.body[..k], old(genericError))
        invariant Captured(stack, CaptureIn(f.body[..k], held))
        invariant CaptureIn(f.body[..k], held).Held? ==> errorStack == old(errorStack)
        invariant CaptureIn(f.body[..k], held).Chain? ==> fresh(errorStack.value[|stack|..])
        decreases |f.body| - k
      {
        assert f.body[..k + 1][..k] == f.body[..k];
        Do(c, f.body[k]);
        k := k + 1;
      }
      assert f.body[..k] == f.body;
    }

    /** One action of the frame on top of the stack. */
    method Do(c: CallContext, a: Action)
      requires stack != [] && stack[|stack| - 1] == c
      modifies this, c
      ensures stack == old(stack)
      ensures c.error == (if a.SetError? then a.error else old(c.error))
      ensures c.message == (if a.SetMessage? then a.message else old(c.message))
      ensures genericError == GenericBy(a, old(genericError))
      ensures var capture := CaptureAt(a, old(errorStack).Some?);
        && Captured(stack, capture)
        && (capture.Held? ==> errorStack == old(errorStack))
        && (capture.Chain? ==> fresh(errorStack.value[|stack|..]))
      decreases a
    {
      match a
      case SetError(error) => c.error := error;
      case SetMessage(message) => c.message := message;
      case SetGeneric(generic, override) => PutGenericError(generic, override);
      case Clear => ClearError();
      case Call(callee) => Exec(callee);
    }

    method DumpLog() returns (report: Report)
      modifies this
      ensures errorStack == None && genericError == None
      ensures stack == if old(errorStack).Some? then [] else old(stack)
      ensures old(errorStack).None? ==> report == Success
      ensures old(errorStack).Some? ==>
        var es := old(errorStack).value;
        report.Failure? && report.path == Join(NamesOf(es)) && report.message == Gather(NamesOf(es), old(MessagesOf(es)))
        && report.error == Deepest(old(ErrorsOf(es)))
    {
      report := Success;
      if errorStack.Some? {
        var es := errorStack.value;
        ghost var names, messages, errors := NamesOf(es), MessagesOf(es), ErrorsOf(es);
        var msg := "";
        var err: Option<string> := None;
        var k := 0;
        while k < |es|
          invariant 0 <= k <= |es| && msg == Gather(names[..k], messages[..k]) && err == Deepest(errors[..k])
        {
          assert names[..k + 1][..k] == names[..k] && messages[..k + 1][..k] == messages[..k] && errors[..k + 1][..k] == errors[..k];
          if es[k].message != "" {
            if msg != "" { msg := msg + ":"; }
            msg := msg + es[k].name + "(" + es[k].message + ")";
          }
          if es[k].error.Some? { err := es[k].error; }
          k := k + 1;
        }
        assert names[..k] == names && messages[..k] == messages && errors[..k] == errors;
        var path := StackPath(es);
        report := Failure(msg, err, path);
        stack := [];
      }
      ClearError();
    }

    /** An operation from a clean context to its log entry. */
    method Operate(f: Frame) returns (report: Report)
      requires stack == [] && errorStack == None
      modifies this
      ensures report == Reported(f)
      ensures stack == [] && errorStack == None && genericError == None
    {
      Exec(f);
      CapturedErrs(f, false);
      if errorStack.Some? {
        var es := errorStack.value;
        ghost var frames := CaptureOf(f, false).frames;
        assert es[0..] == es && ErrorsOf(es)[|frames| - 1] == ErrorAfter(frames[|frames| - 1].body);
        assert NamesOf(es) == Names(frames) && MessagesOf(es) == Messages(frames);
      }
      report := DumpLog();
    }
  }
}
