/**
 * The `NarrativeRuntime` class of lib/dsl/runtime.js (`flavour == Dsl`) and of
 * lib/narrative-engine.js (`flavour == Engine`), over a mutable state record `GameState`.
 * Callbacks append to the runtime's `events`; the evaluator's answer is passed in. Every method
 * is proved to do to the state what the matching function of `Exec` says.
 */
module Runtime {
  import opened Wrappers
  import opened Ast
  import opened Values
  import opened Session
  import State = Session
  import opened Exec

  /** The state record `createGameState` returns; the runtime mutates it in place. */
  class GameState {
    var chapter: Ref
    var index: nat
    var awaiting: bool
    var prompt: Option<PromptNode>
    var metrics: map<string, Num>
    var variables: Vars
    var completed: seq<Ref>
    var results: map<string, string>

    /** `createGameState(chapterId)`. */
    constructor (chapterId: Ref)
      ensures chapter == chapterId && index == 0 && !awaiting && prompt.None?
      ensures metrics == CreateGameState(chapterId).metrics
      ensures variables == [] && completed == [] && results == map[]
    {
      chapter := chapterId;
      index := 0;
      awaiting := false;
      prompt := None;
      metrics := map["signalCoherence" := Real(0.5), "correctionPressure" := Real(0.0)];
      variables := [];
      completed := [];
      results := map[];
    }
  }

  class NarrativeRuntime {
    const flavour: Flavour
    /** `this.ast.chapters`. */
    const chapters: seq<Chapter>
    /** `this.chapters`: the lookup the constructor builds. */
    const table: map<string, Chapter>
    /** Every callback made so far, in order. */
    var events: seq<Event>

    ghost predicate Valid()
      reads this
    {
      table == Table(chapters)
    }

    /** The session as the `Exec` functions see it: the state record plus the callback log. */
    function Snap(state: GameState): Session
      reads this, state
    {
      Session(state.chapter, state.index, state.awaiting, state.prompt, state.metrics, state.variables,
              state.completed, state.results, events)
    }

    /** `new NarrativeRuntime(ast, options)`: each chapter is filed under its id, the last one winning. */
    constructor (flavour: Flavour, chapters: seq<Chapter>)
      ensures Valid() && this.flavour == flavour && this.chapters == chapters && events == []
    {
      var t: map<string, Chapter> := map[];
      for i := 0 to |chapters|
        invariant t == Table(chapters[..i])
      {
        assert chapters[..i + 1][..i] == chapters[..i];
        t := t[ChapterKey(chapters[i]) := chapters[i]];
      }
      assert chapters[..|chapters|] == chapters;
      this.flavour := flavour;
      this.chapters := chapters;
      table := t;
      events := [];
    }

    /** `this.chapters[key]`. */
    function ChapterAt(key: string): (r: Option<Chapter>)
      requires Valid()
      reads this
      ensures r == Lookup(chapters, key)
    {
      if key in table then Some(table[key]) else None
    }

    /** `onOutput(output)`. */
    method Output(state: GameState, o: Output)
      modifies this
      ensures Snap(state) == Emit(old(Snap(state)), o)
    {
      events := events + [Out(o)];
    }

    /** `completeChapter(state)`. */
    method CompleteChapter(state: GameState)
      modifies this, state
      ensures Snap(state) == State.CompleteChapter(old(Snap(state)))
    {
      if state.chapter !in state.completed {
        state.completed := state.completed + [state.chapter];
      }
      events := events + [ChapterCompleted(state.chapter)];
    }

    /** `applyMetric(node, state)` on the node's `metric`, `value` and `delta`. */
    method ApplyMetric(state: GameState, metric: Option<string>, absolute: Option<string>, delta: Option<string>)
      modifies this, state
      ensures Snap(state) == State.ApplyMetric(flavour, old(Snap(state)), metric, absolute, delta)
    {
      var name := NormalizeMetricName(metric);
      var key := MetricKey(name);
      SetMetric(state, key, absolute, delta);
      var value := if key in state.metrics then Some(state.metrics[key]) else None;
      events := events + [MetricChanged(name, value)];
      var pressure := if "correctionPressure" in state.metrics then Some(state.metrics["correctionPressure"]) else None;
      if name == Some("correctionPressure") && AtLeastOne(pressure) {
        events := events + [Out(CorrectionOut)];
      }
    }

    /** The assignment to `state[metricName]` that `applyMetric` makes, if any. */
    method SetMetric(state: GameState, key: string, absolute: Option<string>, delta: Option<string>)
      modifies state
      ensures Snap(state) == old(Snap(state)).(metrics := MetricsAfter(flavour, old(state.metrics), key, absolute, delta))
    {
      if Present(delta) {
        var current := if key in state.metrics then Some(state.metrics[key]) else None;
        state.metrics := state.metrics[key := Clamp(Add(current, ParseFloat(delta.value)))];
      } else if flavour == Dsl && absolute.Some? {
        state.metrics := state.metrics[key := ParseFloat(absolute.value)];
      }
    }

    /** The node types that have no children: output, interpolation and metrics. */
    method ExecuteLeaf(n: Node, state: GameState)
      modifies this, state
      ensures Snap(state) == Effect(flavour, old(Snap(state)), n)
    {
      match TypeOf(n)
      case SpeakerLineType => Output(state, Dialogue(SpeakerOf(n), Interpolate(TextOf(n), state.variables)));
      case TextType => Output(state, TextOut(Interpolate(ValueOf(n), state.variables)));
      case PauseType => Output(state, PauseOut);
      case GlitchType => Output(state, GlitchOut);
      case MetricType => ApplyMetric(state, MetricOf(n), ValueOf(n), DeltaOf(n));
      case SfxType => Output(state, SfxOut(NameOf(n)));
      case _ =>
    }

    /** `executeNode(node, state)`: `Go` is `true`, `Stop` is `false`. */
    method ExecuteNode(n: Node, state: GameState, fuel: nat) returns (signal: Signal)
      requires Valid()
      modifies this, state
      ensures Outcome(Snap(state), signal) == RunNode(flavour, chapters, old(Snap(state)), n, fuel)
      decreases fuel, 2, n
    {
      match n
      case Beat(_, children, _) =>
        signal := ExecuteNodes(children, state, fuel);
        if !signal.Thrown? { signal := Go; }
      case Checkpoint(_, children, _) =>
        signal := ExecuteNodes(children, state, fuel);
        if !signal.Thrown? {
          CompleteChapter(state);
          signal := Go;
        }
      case Prompt(_, _, _, _, _, _, _, _, _) =>
        signal := ExecutePrompt(n, state, fuel);
      case Transition(to, _) =>
        signal := ExecuteTransition(RefOf(to), state, fuel);
      case Block(kind, _, children, _) =>
        signal := ExecuteBlock(n, state, fuel);
      case _ =>
        ExecuteLeaf(n, state);
        signal := Go;
    }

    /** `executePrompt(prompt, state)`: the question runs, then the runtime waits for input. */
    method ExecutePrompt(n: PromptNode, state: GameState, fuel: nat) returns (signal: Signal)
      requires Valid()
      modifies this, state
      ensures Outcome(Snap(state), signal) == RunNode(flavour, chapters, old(Snap(state)), n, fuel)
      decreases fuel, 2, n, 0
    {
      signal := ExecuteNodes(n.question, state, fuel);
      if !signal.Thrown? {
        state.awaiting := true;
        state.prompt := Some(n);
        events := events + [AwaitingInput(n)];
        signal := Stop;
      }
    }

    /**
     * A generic block of lib/narrative-engine.js: `executeNode` switches on its `type`, so a block
     * named after a node type runs as that node would.
     */
    method ExecuteBlock(n: Node, state: GameState, fuel: nat) returns (signal: Signal)
      requires Valid() && n.Block?
      modifies this, state
      ensures Outcome(Snap(state), signal) == RunNode(flavour, chapters, old(Snap(state)), n, fuel)
      decreases fuel, 2, n, 0
    {
      var children := n.children;
      match NodeTypeOf(n.kind)
      case BeatType =>
        signal := ExecuteNodes(children, state, fuel);
        if !signal.Thrown? { signal := Go; }
      case CheckpointType =>
        signal := ExecuteNodes(children, state, fuel);
        if !signal.Thrown? {
          CompleteChapter(state);
          signal := Go;
        }
      case PromptType =>
        signal := Thrown(TypeError);
      case TransitionType =>
        signal := ExecuteTransition(Undefined, state, fuel);
      case _ =>
        ExecuteLeaf(n, state);
        signal := Go;
    }

    /** `executeNodes(nodes, state)`: each node's result is ignored; an exception ends the loop. */
    method ExecuteNodes(ns: seq<Node>, state: GameState, fuel: nat) returns (signal: Signal)
      requires Valid()
      modifies this, state
      ensures Outcome(Snap(state), signal) == RunNodes(flavour, chapters, old(Snap(state)), ns, fuel)
      decreases fuel, 2, ns
    {
      for i := 0 to |ns|
        invariant RunNodes(flavour, chapters, old(Snap(state)), ns, fuel)
               == RunNodes(flavour, chapters, Snap(state), ns[i..], fuel)
      {
        assert ns[i..][0] == ns[i] && ns[i..][1..] == ns[i + 1..];
        var sig := ExecuteNode(ns[i], state, fuel);
        if sig.Thrown? {
          return sig;
        }
      }
      signal := Go;
    }

    /** `executeTransition` (lib/dsl/runtime.js) and `case TRANSITION` (lib/narrative-engine.js). */
    method ExecuteTransition(to: Ref, state: GameState, fuel: nat) returns (signal: Signal)
      requires Valid()
      modifies this, state
      ensures Outcome(Snap(state), signal) == TransitionTo(flavour, chapters, old(Snap(state)), to, fuel)
      decreases fuel, 1, 0
    {
      var target := ChapterAt(Key(to));
      if target.None? && flavour == Dsl {
        return Thrown(TransitionTargetNotFound(Key(to)));
      }
      state.chapter := to;
      state.index := 0;
      if target.None? {
        return Stop;
      }
      signal := ExecuteFromIndex(target.value.children, state, fuel);
      if !signal.Thrown? {
        signal := Stop;
      }
    }

    /** `executeFromIndex(chapter, state)`: the loop over `state.currentNodeIndex`. */
    method ExecuteFromIndex(nodes: seq<Node>, state: GameState, fuel: nat) returns (signal: Signal)
      requires Valid()
      modifies this, state
      ensures Outcome(Snap(state), signal) == FromIndex(flavour, chapters, old(Snap(state)), nodes, fuel)
      decreases fuel, 0, 0
    {
      var budget: nat := fuel;
      while state.index < |nodes|
        invariant budget <= fuel
        invariant FromIndex(flavour, chapters, old(Snap(state)), nodes, fuel)
               == FromIndex(flavour, chapters, Snap(state), nodes, budget)
        decreases budget
      {
        if budget == 0 {
          return Thrown(OutOfFuel);
        }
        var sig := ExecuteStep(nodes, state, budget);
        if sig.Thrown? {
          return sig;
        }
        if sig.Stop? {
          return Go;
        }
        budget := budget - 1;
      }
      if !HasCheckpoint(nodes) {
        CompleteChapter(state);
      }
      signal := Go;
    }

    /**
     * One turn of the `executeFromIndex` loop: the node at the current index runs, and the index
     * moves on unless the node paused the chapter or threw.
     */
    method ExecuteStep(nodes: seq<Node>, state: GameState, budget: nat) returns (signal: Signal)
      requires Valid() && state.index < |nodes| && budget > 0
      modifies this, state
      ensures signal.Go? ==>
        FromIndex(flavour, chapters, old(Snap(state)), nodes, budget) == FromIndex(flavour, chapters, Snap(state), nodes, budget - 1)
      ensures signal.Stop? ==> FromIndex(flavour, chapters, old(Snap(state)), nodes, budget) == Outcome(Snap(state), Go)
      ensures signal.Thrown? ==> FromIndex(flavour, chapters, old(Snap(state)), nodes, budget) == Outcome(Snap(state), signal)
      decreases budget, 0, 0, 0
    {
      FromIndexStep(flavour, chapters, Snap(state), nodes, budget);
      signal := ExecuteNode(nodes[state.index], state, budget - 1);
      if signal.Go? {
        state.index := state.index + 1;
      }
    }

    /** `run(state)`. */
    method Run(state: GameState, fuel: nat) returns (signal: Signal)
      requires Valid()
      modifies this, state
      ensures Outcome(Snap(state), signal) == Exec.Run(flavour, chapters, old(Snap(state)), fuel)
    {
      if !Truthy(state.chapter) {
        state.chapter := FirstChapter(chapters);
        state.index := 0;
      }
      var chapter := ChapterAt(Key(state.chapter));
      if chapter.None? {
        return Thrown(ChapterNotFound(Key(state.chapter)));
      }
      signal := ExecuteFromIndex(chapter.value.children, state, fuel);
    }

    /** `processInput(state, input)` where the evaluator answered `result`. */
    method ProcessInput(state: GameState, input: string, result: EvalResult, fuel: nat) returns (signal: Signal)
      requires Valid()
      modifies this, state
      ensures Outcome(Snap(state), signal) == Exec.ProcessInput(flavour, chapters, old(Snap(state)), input, result, fuel)
    {
      if !state.awaiting || state.prompt.None? {
        return Thrown(NotAwaitingInput);
      }
      var chapter := ChapterAt(Key(state.chapter));
      var response := FindResponse(state.prompt.value.responses, result.classification, result.path);
      Answer(state, input, result);
      if response.Some? {
        signal := ExecuteNodes(ResponseBody(response), state, fuel);
        if signal.Thrown? {
          return;
        }
      }
      state.index := state.index + 1;
      if chapter.None? {
        return Thrown(TypeError);
      }
      signal := ExecuteFromIndex(chapter.value.children, state, fuel);
    }

    /** The part of `processInput` before the response runs. */
    method Answer(state: GameState, input: string, result: EvalResult)
      requires state.prompt.Some?
      modifies state
      ensures Snap(state) == Answered(flavour, old(Snap(state)), input, result)
    {
      var prompt := state.prompt.value;
      state.results := state.results[Key(RefOf(prompt.id)) := result.classification];
      if Present(prompt.capture) {
        state.variables := Put(state.variables, prompt.capture.value, Captured(flavour, input, result));
      }
      state.awaiting := false;
      state.prompt := None;
    }

    /** `resetToChapter(state, chapterId)`, which only lib/dsl/runtime.js has. */
    method ResetToChapter(state: GameState, chapterId: Ref) returns (signal: Signal)
      requires Valid() && flavour == Dsl
      modifies state
      ensures Outcome(Snap(state), signal) == Exec.ResetToChapter(chapters, old(Snap(state)), chapterId)
    {
      if ChapterAt(Key(chapterId)).None? {
        return Thrown(ChapterNotFound(Key(chapterId)));
      }
      state.chapter := chapterId;
      state.index := 0;
      state.awaiting := false;
      state.prompt := None;
      state.metrics := state.metrics["correctionPressure" := Real(0.0)];
      signal := Go;
    }
  }
}
