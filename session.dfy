/**
 * The state record of a play session (`createGameState` in lib/dsl/runtime.js and
 * lib/narrative-engine.js), what the runtime reports through its callbacks, and the pure helpers
 * both `NarrativeRuntime` classes use: the chapter table, `findResponse`, `interpolate` and the
 * metric names.
 */
module Session {
  import opened Wrappers
  import opened Text
  import opened Ast
  import opened Values

  /** Which of the two runtimes: lib/dsl/runtime.js (`Dsl`) or lib/narrative-engine.js (`Engine`). */
  datatype Flavour = Dsl | Engine

  // ---------------------------------------------------------------------------------------------
  // Callbacks and errors
  // ---------------------------------------------------------------------------------------------

  /** The objects passed to `onOutput`. A field of the node that is absent is `None`. */
  datatype Output =
    | Dialogue(speaker: Option<string>, text: Option<string>)
    | TextOut(text: Option<string>)
    | PauseOut
    | GlitchOut
    | SfxOut(name: Option<string>)
    | CorrectionOut

  /** One callback invocation, in the order the runtime makes them. */
  datatype Event =
    | Out(output: Output)
    | MetricChanged(name: Option<string>, value: Option<Num>)
    | AwaitingInput(prompt: Node)
    | ChapterCompleted(chapter: Ref)

  /** What the runtime throws. `TypeError` is reading a field of `undefined` or iterating it. */
  datatype Error =
    | ChapterNotFound(key: string)
    | TransitionTargetNotFound(key: string)
    | NotAwaitingInput
    | TypeError
      /** The execution ran out of the step budget the model gives it. */
    | OutOfFuel

  /** A prompt node: what `currentPrompt` holds. */
  type PromptNode = n: Node | n.Prompt? witness Prompt(None, [], [], [], [], None, None, [], 0)

  /** The evaluator's answer `{classification, path, extractedValue}`. */
  datatype EvalResult = EvalResult(classification: string, path: Option<string>, extractedValue: Option<string>)

  // ---------------------------------------------------------------------------------------------
  // The state record
  // ---------------------------------------------------------------------------------------------

  /**
   * The fields of the state record the runtime reads and writes, plus the callback log. The two
   * metrics `signalCoherence` and `correctionPressure` live in `metrics` under those keys, next to
   * any other metric a node names. Timestamps are not modelled.
   */
  datatype Session = Session(
    chapter: Ref,
    index: nat,
    awaiting: bool,
    prompt: Option<PromptNode>,
    metrics: map<string, Num>,
    variables: Vars,
    completed: seq<Ref>,
    results: map<string, string>,
    events: seq<Event>)

  /** `createGameState(chapterId)` with no callbacks made yet. */
  function CreateGameState(chapterId: Ref): (s: Session)
    ensures s.chapter == chapterId && s.index == 0 && !s.awaiting && s.prompt.None?
    ensures s.metrics == map["signalCoherence" := Real(0.5), "correctionPressure" := Real(0.0)]
    ensures s.variables == [] && s.completed == [] && s.results == map[] && s.events == []
  {
    Session(chapterId, 0, false, None,
            map["signalCoherence" := Real(0.5), "correctionPressure" := Real(0.0)], [], [], map[], [])
  }

  /** `awaitingInput` is set exactly when there is a `currentPrompt`. */
  predicate AwaitingConsistent(s: Session) {
    s.awaiting <==> s.prompt.Some?
  }

  predicate NoDuplicates<T(==)>(xs: seq<T>) {
    forall i, j :: 0 <= i < j < |xs| ==> xs[i] != xs[j]
  }

  /** Every metric is NaN or in [0, 1]. */
  predicate MetricsInRange(s: Session) {
    forall k :: k in s.metrics ==> InUnitRange(s.metrics[k])
  }

  // ---------------------------------------------------------------------------------------------
  // The chapter table `this.chapters`
  // ---------------------------------------------------------------------------------------------

  /** The key a chapter is filed under: `String(chapter.id)`. */
  function ChapterKey(ch: Chapter): string {
    Key(RefOf(ch.id))
  }

  /** The table the constructor fills: each chapter under its key, a later chapter replacing an earlier one. */
  function Table(chs: seq<Chapter>): map<string, Chapter> {
    if chs == [] then map[]
    else Table(chs[..|chs| - 1])[ChapterKey(chs[|chs| - 1]) := chs[|chs| - 1]]
  }

  /** `this.chapters[key]`. */
  function Lookup(chs: seq<Chapter>, key: string): Option<Chapter> {
    var t := Table(chs);
    if key in t then Some(t[key]) else None
  }

  /** Index of the last chapter filed under `key`, or -1. */
  function LastWithKey(chs: seq<Chapter>, key: string): (k: int)
    ensures -1 <= k < |chs|
    ensures k >= 0 ==> ChapterKey(chs[k]) == key
    ensures forall j :: k < j < |chs| ==> ChapterKey(chs[j]) != key
  {
    if chs == [] then -1
    else if ChapterKey(chs[|chs| - 1]) == key then |chs| - 1
    else LastWithKey(chs[..|chs| - 1], key)
  }

  /** The table holds, under each key, the LAST chapter with that key, and nothing else. */
  lemma {:induction false} LookupLast(chs: seq<Chapter>, key: string)
    ensures var k := LastWithKey(chs, key);
      Lookup(chs, key) == if k >= 0 then Some(chs[k]) else None
  {
    if chs != [] {
      var init := chs[..|chs| - 1];
      LookupLast(init, key);
      if ChapterKey(chs[|chs| - 1]) != key {
        var k := LastWithKey(init, key);
        assert k >= 0 ==> init[k] == chs[k];
      }
    }
  }

  // ---------------------------------------------------------------------------------------------
  // findResponse
  // ---------------------------------------------------------------------------------------------

  /** `r.match`: only a response node has one. */
  function MatchOf(n: Node): Option<string> {
    if n.Response? then n.matchClass else None
  }

  /** `r.path`: only a response node has one. */
  function PathField(n: Node): Option<string> {
    if n.Response? then n.path else None
  }

  /**
   * The predicate `find` is given: `r.match === classification` and either `r.path === path`
   * (`path` given) or `!r.path` (`path` is `None`).
   */
  predicate Fits(r: Node, classification: string, path: Option<string>) {
    MatchOf(r) == Some(classification)
      && (if path.Some? then PathField(r) == path else !Present(PathField(r)))
  }

  /** Index of the first response that fits, or -1: `Array.prototype.find`. */
  function FirstFit(rs: seq<Node>, classification: string, path: Option<string>): (k: int)
    ensures -1 <= k < |rs|
    ensures k >= 0 ==> Fits(rs[k], classification, path)
    ensures forall i :: 0 <= i < |rs| && (k == -1 || i < k) ==> !Fits(rs[i], classification, path)
  {
    if rs == [] then -1
    else if Fits(rs[0], classification, path) then 0
    else
      var k := FirstFit(rs[1..], classification, path);
      if k == -1 then -1 else k + 1
  }

  /** `findResponse(prompt, classification, path)`: an exact path match first, then a pathless one. */
  function FindResponse(rs: seq<Node>, classification: string, path: Option<string>): Option<Node> {
    var exact := if Present(path) then FirstFit(rs, classification, path) else -1;
    if exact >= 0 then Some(rs[exact])
    else
      var pathless := FirstFit(rs, classification, None);
      if pathless >= 0 then Some(rs[pathless]) else None
  }

  /**
   * The response found is a response block of the prompt with that classification; it has the
   * requested path whenever one was requested and some response has it; the first pathless
   * response is taken otherwise; and nothing is found exactly when neither kind exists.
   */
  lemma FindResponseSpec(rs: seq<Node>, c: string, path: Option<string>)
    ensures var r := FindResponse(rs, c, path);
      && (r.Some? ==> r.value in rs && r.value.Response? && r.value.matchClass == Some(c))
      && (Present(path) && (exists i :: 0 <= i < |rs| && Fits(rs[i], c, path)) ==>
            r.Some? && PathField(r.value) == path)
      && (r.Some? && PathField(r.value) != path ==> !Present(PathField(r.value)))
      && (r.None? <==>
            (!Present(path) || forall i :: 0 <= i < |rs| ==> !Fits(rs[i], c, path))
            && forall i :: 0 <= i < |rs| ==> !Fits(rs[i], c, None))
  {
    var r := FindResponse(rs, c, path);
    if Present(path) && (exists i :: 0 <= i < |rs| && Fits(rs[i], c, path)) {
      assert FirstFit(rs, c, path) >= 0;
    }
    if r.Some? {
      var k := if Present(path) && FirstFit(rs, c, path) >= 0 then FirstFit(rs, c, path) else FirstFit(rs, c, None);
      assert r.value == rs[k];
    }
  }

  // ---------------------------------------------------------------------------------------------
  // interpolate
  // ---------------------------------------------------------------------------------------------

  /**
   * `text.replace(/\{(\w+)\}/g, ...)`, read as the scan of what is left of the text: a `{name}`
   * whose variable is defined becomes its value, any other text is copied.
   */
  function Substitute(t: string, vars: Vars): string
    decreases |t|
  {
    if t == [] then ""
    else if t[0] == '{' && WordEnd(t, 1) > 1 && WordEnd(t, 1) < |t| && t[WordEnd(t, 1)] == '}' then
      var j := WordEnd(t, 1);
      var replaced := match Get(vars, t[1..j]) case Some(v) => v case None => t[..j + 1];
      replaced + Substitute(t[j + 1..], vars)
    else [t[0]] + Substitute(t[1..], vars)
  }

  /** `interpolate(text, variables)`: `undefined` stays `undefined`. */
  function Interpolate(text: Option<string>, vars: Vars): Option<string> {
    match text
    case None => None
    case Some(t) => Some(Substitute(t, vars))
  }

  /** `/\{(\w+)\}/` matches `t[i..j + 1]`: a brace, a non-empty run of word characters, a brace. */
  predicate PlaceholderAt(t: string, i: nat, j: nat) {
    && i + 1 < j < |t| && t[i] == '{' && t[j] == '}'
    && forall k :: i < k < j ==> IsWordChar(t[k])
  }

  /** What the replacement callback returns for the placeholder `t[..j + 1]`: the value, or the match. */
  function Replacement(t: string, vars: Vars, j: nat): (r: string)
    requires PlaceholderAt(t, 0, j)
    ensures Get(vars, t[1..j]).Some? ==> r == Get(vars, t[1..j]).value
    ensures Get(vars, t[1..j]).None? ==> r == t[..j + 1]
  {
    match Get(vars, t[1..j]) case Some(v) => v case None => t[..j + 1]
  }

  /** The scan's test on the first character holds exactly when a placeholder starts there. */
  lemma OpensPlaceholder(t: string)
    requires t != []
    ensures var j := WordEnd(t, 1);
      t[0] == '{' && j > 1 && j < |t| && t[j] == '}' <==> PlaceholderAt(t, 0, j)
  {
    var j := WordEnd(t, 1);
    forall k | 0 < k < j ensures IsWordChar(t[k]) {
      assert t[k] == t[1..j][k - 1];
    }
  }

  /** At a placeholder the scan emits its replacement and resumes after the closing brace. */
  lemma SubstitutePlaceholder(t: string, vars: Vars, j: nat)
    requires PlaceholderAt(t, 0, j)
    ensures Substitute(t, vars) == Replacement(t, vars, j) + Substitute(t[j + 1..], vars)
  {
    WordEndOf(t, 1, j);
  }

  /** Where no placeholder starts, the scan copies the first character and moves on. */
  lemma SubstituteCopies(t: string, vars: Vars)
    requires t != [] && forall j :: !PlaceholderAt(t, 0, j)
    ensures Substitute(t, vars) == [t[0]] + Substitute(t[1..], vars)
  {
    OpensPlaceholder(t);
    assert !PlaceholderAt(t, 0, WordEnd(t, 1));
  }

  /** A placeholder in the text after its first `d` characters is one of the whole text. */
  lemma PlaceholderShift(t: string, d: nat, i: nat, j: nat)
    requires d <= |t| && PlaceholderAt(t[d..], i, j)
    ensures PlaceholderAt(t, i + d, j + d)
  {
    forall k | i + d < k < j + d ensures IsWordChar(t[k]) {
      assert t[d..][k - d] == t[k];
    }
  }

  /** Dropping the first character of a text without placeholders leaves one without placeholders. */
  lemma NoPlaceholdersTail(t: string)
    requires t != [] && forall i, j :: !PlaceholderAt(t, i, j)
    ensures forall i, j :: !PlaceholderAt(t[1..], i, j)
  {
    forall i, j ensures !PlaceholderAt(t[1..], i, j) {
      if PlaceholderAt(t[1..], i, j) {
        PlaceholderShift(t, 1, i, j);
      }
    }
  }

  /** A text without placeholders is copied whatever the variables. */
  lemma {:induction false} SubstituteNoPlaceholders(t: string, vars: Vars)
    requires forall i, j :: !PlaceholderAt(t, i, j)
    ensures Substitute(t, vars) == t
    decreases |t|
  {
    if t != [] {
      SubstituteCopies(t, vars);
      NoPlaceholdersTail(t);
      SubstituteNoPlaceholders(t[1..], vars);
      assert t == [t[0]] + t[1..];
    }
  }

  /**
   * `interpolate` on a text that starts with `{w}`, `w` a word: the value of `w` when it is
   * defined, else `{w}` itself, followed by the interpolation of the rest.
   */
  lemma InterpolatePlaceholderThen(w: string, rest: string, vars: Vars)
    requires w != [] && AllWordChars(w)
    ensures var head := if Get(vars, w).Some? then Get(vars, w).value else "{" + w + "}";
      Interpolate(Some("{" + w + "}" + rest), vars) == Some(head + Substitute(rest, vars))
  {
    var t := "{" + w + "}" + rest;
    var j := |w| + 1;
    forall k | 0 < k < j ensures IsWordChar(t[k]) {
      assert t[k] == w[k - 1];
    }
    assert PlaceholderAt(t, 0, j);
    assert t[1..j] == w;
    assert t[..j + 1] == "{" + w + "}";
    assert t[j + 1..] == rest;
    SubstitutePlaceholder(t, vars, j);
  }

  /** `interpolate` copies a first character that does not open a brace, then interpolates the rest. */
  lemma InterpolateCopiesThen(c: char, rest: string, vars: Vars)
    requires c != '{'
    ensures Interpolate(Some([c] + rest), vars) == Some([c] + Substitute(rest, vars))
  {
    var t := [c] + rest;
    SubstituteCopies(t, vars);
    assert t[1..] == rest;
  }

  /** With no variables, the scan copies the text, placeholders included. */
  lemma {:induction false} SubstituteNoVariables(t: string)
    ensures Substitute(t, []) == t
    decreases |t|
  {
    if t != [] {
      if j: nat :| PlaceholderAt(t, 0, j) {
        var none: Vars := [];
        SubstitutePlaceholder(t, none, j);
        assert Get(none, t[1..j]).None?;
        SubstituteNoVariables(t[j + 1..]);
        assert t == t[..j + 1] + t[j + 1..];
      } else {
        SubstituteCopies(t, []);
        SubstituteNoVariables(t[1..]);
        assert t == [t[0]] + t[1..];
      }
    }
  }

  /** With no variables captured, `interpolate` returns its argument. */
  lemma InterpolateNoVariables(text: Option<string>)
    ensures Interpolate(text, []) == text
  {
    if text.Some? {
      SubstituteNoVariables(text.value);
    }
  }

  /** A lone placeholder of a defined variable becomes the variable's value. */
  lemma InterpolatePlaceholder(name: string, vars: Vars)
    requires name != [] && AllWordChars(name) && Get(vars, name).Some?
    ensures Interpolate(Some("{" + name + "}"), vars) == Get(vars, name)
  {
    InterpolatePlaceholderThen(name, "", vars);
    assert "{" + name + "}" + "" == "{" + name + "}";
    var v := Get(vars, name).value;
    assert v + "" == v;
  }

  /** The word run starting at `i` ends at `j` when `t[i..j]` is all word characters and `t[j]` is not. */
  lemma {:induction false} WordEndOf(t: string, i: nat, j: nat)
    requires i <= j < |t|
    requires forall k :: i <= k < j ==> IsWordChar(t[k])
    requires !IsWordChar(t[j])
    ensures WordEnd(t, i) == j
    decreases j - i
  {
    if i < j {
      WordEndOf(t, i + 1, j);
    }
  }

  // ---------------------------------------------------------------------------------------------
  // Metrics and chapter completion
  // ---------------------------------------------------------------------------------------------

  /** `normalizeMetricName`: the two dashed names become state keys, any other name is kept. */
  function NormalizeMetricName(name: Option<string>): (r: Option<string>)
    ensures name == Some("signal-coherence") ==> r == Some("signalCoherence")
    ensures name == Some("correction-pressure") ==> r == Some("correctionPressure")
    ensures name != Some("signal-coherence") && name != Some("correction-pressure") ==> r == name
  {
    if name == Some("signal-coherence") then Some("signalCoherence")
    else if name == Some("correction-pressure") then Some("correctionPressure")
    else name
  }

  /** `state[name]` for a metric name that may be `undefined`. */
  function MetricKey(name: Option<string>): string {
    Key(RefOf(name))
  }

  function MetricValue(s: Session, key: string): Option<Num> {
    if key in s.metrics then Some(s.metrics[key]) else None
  }

  /** The callback log after `onOutput(o)`. */
  function Emit(s: Session, o: Output): (t: Session)
    ensures t == s.(events := s.events + [Out(o)])
  {
    s.(events := s.events + [Out(o)])
  }

  /**
   * `completeChapter`: the current chapter is recorded once, and `onChapterComplete` fires on
   * every call.
   */
  function CompleteChapter(s: Session): (t: Session)
    ensures t.events == s.events + [ChapterCompleted(s.chapter)]
    ensures s.chapter in t.completed && |t.completed| <= |s.completed| + 1
    ensures s.chapter in s.completed ==> t.completed == s.completed
    ensures s.chapter !in s.completed ==> t.completed == s.completed + [s.chapter]
    ensures t == s.(completed := t.completed, events := t.events)
  {
    var completed := if s.chapter in s.completed then s.completed else s.completed + [s.chapter];
    s.(completed := completed, events := s.events + [ChapterCompleted(s.chapter)])
  }

  /** Completing a chapter never records it twice. */
  lemma CompleteChapterNoDuplicates(s: Session)
    ensures NoDuplicates(s.completed) ==> NoDuplicates(CompleteChapter(s).completed)
    ensures s.completed <= CompleteChapter(s).completed
  {
    var c := CompleteChapter(s).completed;
    if NoDuplicates(s.completed) && s.chapter !in s.completed {
      forall i, j | 0 <= i < j < |c| ensures c[i] != c[j] {
        if j == |s.completed| {
          assert c[i] == s.completed[i];
        }
      }
    }
  }

  /** The metric table after `applyMetric` has written `state[key]`, if it writes it. */
  function MetricsAfter(f: Flavour, metrics: map<string, Num>, key: string, absolute: Option<string>,
                        delta: Option<string>): (m: map<string, Num>)
    ensures forall k :: k != key ==> (k in m <==> k in metrics) && (k in m ==> m[k] == metrics[k])
  {
    if Present(delta) then
      metrics[key := Clamp(Add(if key in metrics then Some(metrics[key]) else None, ParseFloat(delta.value)))]
    else if f == Dsl && absolute.Some? then metrics[key := ParseFloat(absolute.value)]
    else metrics
  }

  /**
   * `applyMetric` on a node's `metric`, `value` and `delta` fields: a truthy delta moves the metric
   * by the parsed amount and clamps it to [0, 1]; otherwise, in lib/dsl/runtime.js only, a `value`
   * replaces the metric unclamped. The metric callback fires in every case, and the correction
   * output follows when the pressure has reached 1.
   */
  function ApplyMetric(f: Flavour, s: Session, metric: Option<string>, absolute: Option<string>,
                       delta: Option<string>): (t: Session)
    ensures t == s.(metrics := t.metrics, events := t.events)
    ensures forall k :: k != MetricKey(NormalizeMetricName(metric)) ==> MetricValue(t, k) == MetricValue(s, k)
  {
    var name := NormalizeMetricName(metric);
    var key := MetricKey(name);
    var u := s.(metrics := MetricsAfter(f, s.metrics, key, absolute, delta));
    var t := u.(events := u.events + [MetricChanged(name, MetricValue(u, key))]);
    if name == Some("correctionPressure") && AtLeastOne(MetricValue(t, "correctionPressure"))
    then Emit(t, CorrectionOut) else t
  }

  /** The metric table `applyMetric` leaves behind is the one `MetricsAfter` describes. */
  lemma ApplyMetricTable(f: Flavour, s: Session, metric: Option<string>, absolute: Option<string>,
                         delta: Option<string>)
    ensures ApplyMetric(f, s, metric, absolute, delta).metrics
         == MetricsAfter(f, s.metrics, MetricKey(NormalizeMetricName(metric)), absolute, delta)
  {
  }

  /** A delta leaves the metric at clamp(old + delta), which lies in [0, 1] unless it is NaN. */
  lemma ApplyMetricDelta(f: Flavour, s: Session, metric: Option<string>, absolute: Option<string>, delta: string)
    requires delta != ""
    ensures var key := MetricKey(NormalizeMetricName(metric));
      var t := ApplyMetric(f, s, metric, absolute, Some(delta));
      && MetricValue(t, key) == Some(Clamp(Add(MetricValue(s, key), ParseFloat(delta))))
      && InUnitRange(MetricValue(t, key).value)
  {
  }

  /**
   * The metric callback reports the name and the new value on every call; the correction output
   * follows it exactly when the pressure metric is now at least 1.
   */
  lemma ApplyMetricEvents(f: Flavour, s: Session, metric: Option<string>, absolute: Option<string>,
                          delta: Option<string>)
    ensures var name := NormalizeMetricName(metric);
      var t := ApplyMetric(f, s, metric, absolute, delta);
      var reported := s.events + [MetricChanged(name, MetricValue(t, MetricKey(name)))];
      && (t.events == reported + [Out(CorrectionOut)]
          <==> name == Some("correctionPressure") && AtLeastOne(MetricValue(t, "correctionPressure")))
      && (t.events == reported
          <==> !(name == Some("correctionPressure") && AtLeastOne(MetricValue(t, "correctionPressure"))))
  {
    var name := NormalizeMetricName(metric);
    var t := ApplyMetric(f, s, metric, absolute, delta);
    var reported := s.events + [MetricChanged(name, MetricValue(t, MetricKey(name)))];
    if name == Some("correctionPressure") && AtLeastOne(MetricValue(t, "correctionPressure")) {
      assert t.events == reported + [Out(CorrectionOut)];
      assert |t.events| != |reported|;
    } else {
      assert t.events == reported;
      assert |t.events| != |reported + [Out(CorrectionOut)]|;
    }
  }

  /** lib/dsl/runtime.js only: a `value` without a delta is stored as parsed, even outside [0, 1]. */
  lemma ApplyMetricAbsolute(s: Session, metric: Option<string>, value: string, delta: Option<string>)
    requires !Present(delta)
    ensures MetricValue(ApplyMetric(Dsl, s, metric, Some(value), delta), MetricKey(NormalizeMetricName(metric)))
         == Some(ParseFloat(value))
    ensures MetricValue(ApplyMetric(Engine, s, metric, Some(value), delta), MetricKey(NormalizeMetricName(metric)))
         == MetricValue(s, MetricKey(NormalizeMetricName(metric)))
  {
    var key := MetricKey(NormalizeMetricName(metric));
    ApplyMetricTable(Dsl, s, metric, Some(value), delta);
    assert MetricsAfter(Dsl, s.metrics, key, Some(value), delta) == s.metrics[key := ParseFloat(value)];
    ApplyMetricTable(Engine, s, metric, Some(value), delta);
    assert MetricsAfter(Engine, s.metrics, key, Some(value), delta) == s.metrics;
  }

  /** In lib/narrative-engine.js every metric stays NaN or within [0, 1]. */
  lemma ApplyMetricEngineInRange(s: Session, metric: Option<string>, absolute: Option<string>, delta: Option<string>)
    requires MetricsInRange(s)
    ensures MetricsInRange(ApplyMetric(Engine, s, metric, absolute, delta))
  {
  }
}
