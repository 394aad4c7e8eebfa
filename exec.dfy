/**
 * What the runtimes do to a session, as functions of the state record: the node interpreter
 * (`executeNode`/`runNode`, `executeNodes`/`runNodes`, `executeTransition`, `executeFromIndex`/
 * `runFromIndex`) and the entry points `run`, `processInput`, `resetToChapter` and
 * `getLastCheckpoint`. `Dsl` is lib/dsl/runtime.js and `Engine` is lib/narrative-engine.js.
 *
 * A transition restarts another chapter, so execution need not end; every loop iteration and
 * every transition spends one unit of `fuel`, and running out is the error `OutOfFuel`.
 */
module Exec {
  import opened Wrappers
  import opened Ast
  import opened Values
  import opened Session

  /** How a call returns: `true` (continue), `false` (pause), or by throwing. */
  datatype Signal = Go | Stop | Thrown(error: Error)

  datatype Outcome = Outcome(s: Session, signal: Signal)

  /** The `NodeType` values the runtimes switch on; any other `type` string is `OtherType`. */
  datatype NodeType =
    | BeatType | PromptType | ResponseType | CheckpointType | TextType | SpeakerLineType | PauseType
    | GlitchType | MetricType | TransitionType | SfxType | InlineTagType | OtherType(name: string)

  /** The node type a `type` string denotes. */
  function NodeTypeOf(name: string): NodeType {
    if name == "beat" then BeatType
    else if name == "prompt" then PromptType
    else if name == "response" then ResponseType
    else if name == "checkpoint" then CheckpointType
    else if name == "text" then TextType
    else if name == "speaker_line" then SpeakerLineType
    else if name == "pause" then PauseType
    else if name == "glitch" then GlitchType
    else if name == "metric" then MetricType
    else if name == "transition" then TransitionType
    else if name == "sfx" then SfxType
    else if name == "inline_tag" then InlineTagType
    else OtherType(name)
  }

  /** `node.type`: a generic block of lib/narrative-engine.js has its block name as type. */
  function TypeOf(n: Node): NodeType {
    match n
    case Beat(_, _, _) => BeatType
    case Prompt(_, _, _, _, _, _, _, _, _) => PromptType
    case Response(_, _, _, _, _) => ResponseType
    case Checkpoint(_, _, _) => CheckpointType
    case TextNode(_, _) => TextType
    case SpeakerLine(_, _, _) => SpeakerLineType
    case Pause(_) => PauseType
    case Glitch(_) => GlitchType
    case Metric(_, _, _, _) => MetricType
    case Transition(_, _) => TransitionType
    case Sfx(_, _) => SfxType
    case InlineTagNode(_, _, _) => InlineTagType
    case Block(kind, _, _, _) => NodeTypeOf(kind)
  }

  // Property reads on a node; a property the node does not have is `undefined`.

  function SpeakerOf(n: Node): Option<string> {
    if n.SpeakerLine? then Some(n.speaker) else None
  }

  function TextOf(n: Node): Option<string> {
    if n.SpeakerLine? then Some(n.text) else None
  }

  /** `node.value`: a text node's text, or a metric node's absolute value. */
  function ValueOf(n: Node): Option<string> {
    if n.TextNode? then Some(n.value) else if n.Metric? then n.absolute else None
  }

  function MetricOf(n: Node): Option<string> {
    if n.Metric? then n.metric else None
  }

  function DeltaOf(n: Node): Option<string> {
    if n.Metric? then n.delta else None
  }

  function NameOf(n: Node): Option<string> {
    if n.Sfx? then n.name else None
  }

  /** `nodes.some(n => n.type === NodeType.CHECKPOINT)`. */
  predicate HasCheckpoint(nodes: seq<Node>) {
    exists i :: 0 <= i < |nodes| && TypeOf(nodes[i]) == CheckpointType
  }

  /**
   * The state a run may leave behind: captured variables and prompt results are untouched, the
   * callback log and the completed list only grow, and the completed list stays duplicate-free,
   * `awaitingInput` stays in step with `currentPrompt`, and in lib/narrative-engine.js every metric
   * stays in [0, 1].
   */
  predicate Keeps(f: Flavour, s: Session, t: Session) {
    && t.variables == s.variables && t.results == s.results
    && s.events <= t.events && s.completed <= t.completed
    && (NoDuplicates(s.completed) ==> NoDuplicates(t.completed))
    && (AwaitingConsistent(s) ==> AwaitingConsistent(t))
    && (f == Engine && MetricsInRange(s) ==> MetricsInRange(t))
  }

  /** Executing nodes only throws on a missing field, an unknown transition target (lib/dsl/runtime.js only) or fuel. */
  predicate ExecError(f: Flavour, signal: Signal) {
    signal.Thrown? ==>
      signal.error.TypeError? || signal.error.OutOfFuel? || (f == Dsl && signal.error.TransitionTargetNotFound?)
  }

  lemma KeepsTrans(f: Flavour, s: Session, t: Session, u: Session)
    requires Keeps(f, s, t) && Keeps(f, t, u)
    ensures Keeps(f, s, u)
  {
  }

  // ---------------------------------------------------------------------------------------------
  // Nodes without children
  // ---------------------------------------------------------------------------------------------

  /**
   * The node types that run without recursion: speaker lines and text are interpolated and
   * output, pause, glitch and sfx are output, a metric is applied; any other type does nothing.
   */
  function Effect(f: Flavour, s: Session, n: Node): (t: Session)
    ensures t == s.(metrics := t.metrics, events := t.events)
    ensures Keeps(f, s, t)
  {
    match TypeOf(n)
    case SpeakerLineType => Emit(s, Dialogue(SpeakerOf(n), Interpolate(TextOf(n), s.variables)))
    case TextType => Emit(s, TextOut(Interpolate(ValueOf(n), s.variables)))
    case PauseType => Emit(s, PauseOut)
    case GlitchType => Emit(s, GlitchOut)
    case MetricType =>
      var t := ApplyMetric(f, s, MetricOf(n), ValueOf(n), DeltaOf(n));
      if f == Engine && MetricsInRange(s) then
        ApplyMetricEngineInRange(s, MetricOf(n), ValueOf(n), DeltaOf(n));
        t
      else t
    case SfxType => Emit(s, SfxOut(NameOf(n)))
    case _ => s
  }

  // ---------------------------------------------------------------------------------------------
  // The interpreter
  // ---------------------------------------------------------------------------------------------

  /** A beat: its children run and execution continues. */
  function Continue(o: Outcome): Outcome {
    if o.signal.Thrown? then o else Outcome(o.s, Go)
  }

  /** A checkpoint: its children run, then the chapter is completed. */
  function Checkpointed(o: Outcome): Outcome {
    if o.signal.Thrown? then o else Outcome(CompleteChapter(o.s), Go)
  }

  /** A prompt: its question runs, then the session waits for input on it and pauses. */
  function Ask(o: Outcome, p: PromptNode): Outcome {
    if o.signal.Thrown? then o
    else Outcome(o.s.(awaiting := true, prompt := Some(p), events := o.s.events + [AwaitingInput(p)]), Stop)
  }

  /** `executeNode(node, state)`. */
  function RunNode(f: Flavour, chs: seq<Chapter>, s: Session, n: Node, fuel: nat): Outcome
    decreases fuel, 2, n
  {
    match n
    case Beat(_, children, _) => Continue(RunNodes(f, chs, s, children, fuel))
    case Checkpoint(_, children, _) => Checkpointed(RunNodes(f, chs, s, children, fuel))
    case Prompt(_, question, _, _, _, _, _, _, _) => Ask(RunNodes(f, chs, s, question, fuel), n)
    case Transition(to, _) => TransitionTo(f, chs, s, RefOf(to), fuel)
    case Block(kind, _, children, _) =>
      (match NodeTypeOf(kind)
       case BeatType => Continue(RunNodes(f, chs, s, children, fuel))
       case CheckpointType => Checkpointed(RunNodes(f, chs, s, children, fuel))
       case PromptType => Outcome(s, Thrown(TypeError))
       case TransitionType => TransitionTo(f, chs, s, Undefined, fuel)
       case _ => Outcome(Effect(f, s, n), Go))
    case _ => Outcome(Effect(f, s, n), Go)
  }

  /** `executeNodes(nodes, state)`: every node runs in turn, whatever it returns. */
  function RunNodes(f: Flavour, chs: seq<Chapter>, s: Session, ns: seq<Node>, fuel: nat): Outcome
    decreases fuel, 2, ns
  {
    if ns == [] then Outcome(s, Go)
    else
      var o := RunNode(f, chs, s, ns[0], fuel);
      if o.signal.Thrown? then o else RunNodes(f, chs, o.s, ns[1..], fuel)
  }

  /**
   * `executeTransition` (lib/dsl/runtime.js): an unknown target throws and changes nothing;
   * `case TRANSITION` (lib/narrative-engine.js): the chapter and index are set first and an unknown
   * target is not run. Either way a transition pauses the loop that ran it.
   */
  function TransitionTo(f: Flavour, chs: seq<Chapter>, s: Session, to: Ref, fuel: nat): Outcome
    decreases fuel, 1, 0
  {
    var target := Lookup(chs, Key(to));
    var moved := s.(chapter := to, index := 0);
    if target.None? then
      if f == Dsl then Outcome(s, Thrown(TransitionTargetNotFound(Key(to)))) else Outcome(moved, Stop)
    else
      var o := FromIndex(f, chs, moved, target.value.children, fuel);
      if o.signal.Thrown? then o else Outcome(o.s, Stop)
  }

  /**
   * `executeFromIndex(chapter, state)`: the chapter's nodes run from `currentNodeIndex` until one
   * pauses; at the end a chapter without a top-level checkpoint is completed.
   */
  function FromIndex(f: Flavour, chs: seq<Chapter>, s: Session, nodes: seq<Node>, fuel: nat): Outcome
    decreases fuel, 0, 0
  {
    if s.index >= |nodes| then Outcome(if HasCheckpoint(nodes) then s else CompleteChapter(s), Go)
    else if fuel == 0 then Outcome(s, Thrown(OutOfFuel))
    else
      var o := RunNode(f, chs, s, nodes[s.index], fuel - 1);
      match o.signal
      case Thrown(_) => o
      case Stop => Outcome(o.s, Go)
      case Go => FromIndex(f, chs, o.s.(index := o.s.index + 1), nodes, fuel - 1)
  }

  // ---------------------------------------------------------------------------------------------
  // What execution preserves
  // ---------------------------------------------------------------------------------------------

  /** Completing the chapter keeps everything `Keeps` asks for. */
  lemma CompleteKeeps(f: Flavour, s: Session)
    ensures Keeps(f, s, CompleteChapter(s))
  {
    CompleteChapterNoDuplicates(s);
  }

  /** What a beat, checkpoint or prompt adds after its children have run. */
  lemma WrapKeeps(f: Flavour, s: Session, o: Outcome, p: PromptNode)
    requires Keeps(f, s, o.s) && ExecError(f, o.signal)
    ensures Keeps(f, s, Continue(o).s) && ExecError(f, Continue(o).signal) && Continue(o).signal != Stop
    ensures Keeps(f, s, Checkpointed(o).s) && ExecError(f, Checkpointed(o).signal) && Checkpointed(o).signal != Stop
    ensures Keeps(f, s, Ask(o, p).s) && ExecError(f, Ask(o, p).signal)
  {
    if !o.signal.Thrown? {
      CompleteKeeps(f, o.s);
      KeepsTrans(f, s, o.s, CompleteChapter(o.s));
    }
  }

  /** A beat or checkpoint, typed or generic: its children run and it never pauses. */
  lemma ContainerKeeps(f: Flavour, chs: seq<Chapter>, s: Session, n: Node, fuel: nat)
    requires n.Beat? || n.Checkpoint? || (n.Block? && NodeTypeOf(n.kind) in {BeatType, CheckpointType})
    requires var o := RunNodes(f, chs, s, n.children, fuel); Keeps(f, s, o.s) && ExecError(f, o.signal)
    ensures var o := RunNode(f, chs, s, n, fuel); Keeps(f, s, o.s) && ExecError(f, o.signal) && o.signal != Stop
  {
    WrapKeeps(f, s, RunNodes(f, chs, s, n.children, fuel), Prompt(None, [], [], [], [], None, None, [], 0));
  }

  /** A prompt: its question runs and it waits. */
  lemma PromptKeeps(f: Flavour, chs: seq<Chapter>, s: Session, n: PromptNode, fuel: nat)
    requires var o := RunNodes(f, chs, s, n.question, fuel); Keeps(f, s, o.s) && ExecError(f, o.signal)
    ensures var o := RunNode(f, chs, s, n, fuel); Keeps(f, s, o.s) && ExecError(f, o.signal)
  {
    WrapKeeps(f, s, RunNodes(f, chs, s, n.question, fuel), n);
  }

  /** Any other node: a transition, or a node without children. */
  lemma LeafKeeps(f: Flavour, chs: seq<Chapter>, s: Session, n: Node, fuel: nat)
    requires !(n.Beat? || n.Checkpoint? || n.Prompt?)
    requires !(n.Block? && NodeTypeOf(n.kind) in {BeatType, CheckpointType})
    requires TypeOf(n) == TransitionType ==>
      var to := if n.Transition? then RefOf(n.to) else Undefined;
      var o := TransitionTo(f, chs, s, to, fuel);
      Keeps(f, s, o.s) && ExecError(f, o.signal)
    ensures var o := RunNode(f, chs, s, n, fuel);
      Keeps(f, s, o.s) && ExecError(f, o.signal) && (o.signal.Stop? ==> TypeOf(n) == TransitionType)
  {
  }

  lemma {:induction false} RunNodeKeeps(f: Flavour, chs: seq<Chapter>, s: Session, n: Node, fuel: nat)
    ensures var o := RunNode(f, chs, s, n, fuel);
      Keeps(f, s, o.s) && ExecError(f, o.signal) && (o.signal.Stop? ==> TypeOf(n) in {PromptType, TransitionType})
    decreases fuel, 2, n
  {
    if n.Beat? || n.Checkpoint? || (n.Block? && NodeTypeOf(n.kind) in {BeatType, CheckpointType}) {
      RunNodesKeeps(f, chs, s, n.children, fuel);
      ContainerKeeps(f, chs, s, n, fuel);
    } else if n.Prompt? {
      RunNodesKeeps(f, chs, s, n.question, fuel);
      PromptKeeps(f, chs, s, n, fuel);
    } else {
      if n.Transition? {
        TransitionKeeps(f, chs, s, RefOf(n.to), fuel);
      } else if n.Block? && NodeTypeOf(n.kind) == TransitionType {
        TransitionKeeps(f, chs, s, Undefined, fuel);
      }
      LeafKeeps(f, chs, s, n, fuel);
    }
  }

  lemma {:induction false} RunNodesKeeps(f: Flavour, chs: seq<Chapter>, s: Session, ns: seq<Node>, fuel: nat)
    ensures var o := RunNodes(f, chs, s, ns, fuel);
      Keeps(f, s, o.s) && ExecError(f, o.signal) && !o.signal.Stop?
    decreases fuel, 2, ns
  {
    if ns != [] {
      RunNodeKeeps(f, chs, s, ns[0], fuel);
      var o := RunNode(f, chs, s, ns[0], fuel);
      if !o.signal.Thrown? {
        RunNodesKeeps(f, chs, o.s, ns[1..], fuel);
      }
    }
  }

  lemma {:induction false} TransitionKeeps(f: Flavour, chs: seq<Chapter>, s: Session, to: Ref, fuel: nat)
    ensures var o := TransitionTo(f, chs, s, to, fuel);
      Keeps(f, s, o.s) && ExecError(f, o.signal) && !o.signal.Go?
    decreases fuel, 1, 0
  {
    var target := Lookup(chs, Key(to));
    if target.Some? {
      FromIndexKeeps(f, chs, s.(chapter := to, index := 0), target.value.children, fuel);
    }
  }

  // ---------------------------------------------------------------------------------------------
  // Fuel
  // ---------------------------------------------------------------------------------------------

  /** The run did not stop for want of fuel. */
  predicate Fueled(o: Outcome) {
    o.signal != Thrown(OutOfFuel)
  }

  /** A node that ran to an end with some fuel gives the same outcome with any larger amount. */
  lemma {:induction false} RunNodeFuel(f: Flavour, chs: seq<Chapter>, s: Session, n: Node, fuel: nat, more: nat)
    requires fuel <= more && Fueled(RunNode(f, chs, s, n, fuel))
    ensures RunNode(f, chs, s, n, more) == RunNode(f, chs, s, n, fuel)
    decreases fuel, 2, n
  {
    if n.Beat? || n.Checkpoint? || (n.Block? && NodeTypeOf(n.kind) in {BeatType, CheckpointType}) {
      RunNodesFuel(f, chs, s, n.children, fuel, more);
    } else if n.Prompt? {
      RunNodesFuel(f, chs, s, n.question, fuel, more);
    } else if n.Transition? {
      TransitionFuel(f, chs, s, RefOf(n.to), fuel, more);
    } else if n.Block? && NodeTypeOf(n.kind) == TransitionType {
      TransitionFuel(f, chs, s, Undefined, fuel, more);
    }
  }

  lemma {:induction false} RunNodesFuel(f: Flavour, chs: seq<Chapter>, s: Session, ns: seq<Node>, fuel: nat, more: nat)
    requires fuel <= more && Fueled(RunNodes(f, chs, s, ns, fuel))
    ensures RunNodes(f, chs, s, ns, more) == RunNodes(f, chs, s, ns, fuel)
    decreases fuel, 2, ns
  {
    if ns != [] {
      var o := RunNode(f, chs, s, ns[0], fuel);
      RunNodeFuel(f, chs, s, ns[0], fuel, more);
      if !o.signal.Thrown? {
        RunNodesFuel(f, chs, o.s, ns[1..], fuel, more);
      }
    }
  }

  lemma {:induction false} TransitionFuel(f: Flavour, chs: seq<Chapter>, s: Session, to: Ref, fuel: nat, more: nat)
    requires fuel <= more && Fueled(TransitionTo(f, chs, s, to, fuel))
    ensures TransitionTo(f, chs, s, to, more) == TransitionTo(f, chs, s, to, fuel)
    decreases fuel, 1, 0
  {
    var target := Lookup(chs, Key(to));
    if target.Some? {
      FromIndexFuel(f, chs, s.(chapter := to, index := 0), target.value.children, fuel, more);
    }
  }

  /** Fuel is only a bound: a chapter run that did not run out of it is the same with more. */
  lemma {:induction false} FromIndexFuel(f: Flavour, chs: seq<Chapter>, s: Session, nodes: seq<Node>, fuel: nat, more: nat)
    requires fuel <= more && Fueled(FromIndex(f, chs, s, nodes, fuel))
    ensures FromIndex(f, chs, s, nodes, more) == FromIndex(f, chs, s, nodes, fuel)
    decreases fuel, 0, 0
  {
    if s.index < |nodes| {
      var o := RunNode(f, chs, s, nodes[s.index], fuel - 1);
      RunNodeFuel(f, chs, s, nodes[s.index], fuel - 1, more - 1);
      if o.signal.Go? {
        FromIndexFuel(f, chs, o.s.(index := o.s.index + 1), nodes, fuel - 1, more - 1);
      }
    }
  }

  /** One iteration of the chapter loop. */
  lemma FromIndexStep(f: Flavour, chs: seq<Chapter>, s: Session, nodes: seq<Node>, fuel: nat)
    requires s.index < |nodes| && fuel > 0
    ensures var o := RunNode(f, chs, s, nodes[s.index], fuel - 1);
      FromIndex(f, chs, s, nodes, fuel) ==
        if o.signal.Go? then FromIndex(f, chs, o.s.(index := o.s.index + 1), nodes, fuel - 1)
        else if o.signal.Stop? then Outcome(o.s, Go)
        else o
  {
  }

  lemma {:induction false} FromIndexKeeps(f: Flavour, chs: seq<Chapter>, s: Session, nodes: seq<Node>, fuel: nat)
    ensures var o := FromIndex(f, chs, s, nodes, fuel);
      Keeps(f, s, o.s) && ExecError(f, o.signal) && !o.signal.Stop?
    decreases fuel, 0, 0
  {
    if s.index >= |nodes| {
      CompleteKeeps(f, s);
    } else if fuel > 0 {
      FromIndexStep(f, chs, s, nodes, fuel);
      RunNodeKeeps(f, chs, s, nodes[s.index], fuel - 1);
      var o := RunNode(f, chs, s, nodes[s.index], fuel - 1);
      if o.signal.Go? {
        var next := o.s.(index := o.s.index + 1);
        FromIndexKeeps(f, chs, next, nodes, fuel - 1);
        KeepsTrans(f, s, o.s, next);
        KeepsTrans(f, s, next, FromIndex(f, chs, next, nodes, fuel - 1).s);
      }
    }
  }

  // ---------------------------------------------------------------------------------------------
  // Pausing and completion
  // ---------------------------------------------------------------------------------------------

  /**
   * A prompt whose question runs without throwing leaves the session waiting for input on that
   * prompt, reports it, and pauses.
   */
  lemma RunPromptWaits(f: Flavour, chs: seq<Chapter>, s: Session, p: PromptNode, fuel: nat)
    ensures var o := RunNode(f, chs, s, p, fuel);
      o.signal.Thrown? ||
      (o.signal == Stop && o.s.awaiting && o.s.prompt == Some(p)
       && o.s.events[|o.s.events| - 1] == AwaitingInput(p))
  {
  }

  /**
   * At the end of a chapter's nodes the loop returns normally, and it completes the chapter
   * (recording it, reporting it) exactly when no top-level node is a checkpoint.
   */
  lemma FromIndexAtEnd(f: Flavour, chs: seq<Chapter>, s: Session, nodes: seq<Node>, fuel: nat)
    requires s.index >= |nodes|
    ensures var o := FromIndex(f, chs, s, nodes, fuel);
      && o.signal == Go
      && (o.s == s <==> HasCheckpoint(nodes))
      && (!HasCheckpoint(nodes) ==> o.s.events == s.events + [ChapterCompleted(s.chapter)] && s.chapter in o.s.completed)
  {
    if !HasCheckpoint(nodes) {
      assert |FromIndex(f, chs, s, nodes, fuel).s.events| != |s.events|;
    }
  }

  /**
   * The loop only stops early at a node that pauses: when the node at the index runs without
   * pausing or throwing, the loop goes on at the next index with the fuel left.
   */
  lemma FromIndexContinues(f: Flavour, chs: seq<Chapter>, s: Session, nodes: seq<Node>, fuel: nat)
    requires s.index < |nodes| && fuel > 0
    requires TypeOf(nodes[s.index]) !in {PromptType, TransitionType}
    ensures var o := RunNode(f, chs, s, nodes[s.index], fuel - 1);
      o.signal.Thrown? ||
      FromIndex(f, chs, s, nodes, fuel) == FromIndex(f, chs, o.s.(index := o.s.index + 1), nodes, fuel - 1)
  {
    FromIndexStep(f, chs, s, nodes, fuel);
    RunNodeKeeps(f, chs, s, nodes[s.index], fuel - 1);
  }

  /**
   * Nested nodes never pause the chapter loop: a beat, checkpoint or response body containing a
   * prompt or a transition still returns `true`.
   */
  lemma NestedNeverPauses(f: Flavour, chs: seq<Chapter>, s: Session, n: Node, fuel: nat)
    requires n.Beat? || n.Checkpoint? || (n.Block? && NodeTypeOf(n.kind) in {BeatType, CheckpointType})
    ensures RunNode(f, chs, s, n, fuel).signal != Stop
  {
    RunNodesKeeps(f, chs, s, n.children, fuel);
  }

  // ---------------------------------------------------------------------------------------------
  // Transitions
  // ---------------------------------------------------------------------------------------------

  /**
   * lib/dsl/runtime.js: a transition to an unknown chapter throws and leaves the state as it was;
   * to a known one it moves to the target's first node and pauses the loop that ran it.
   */
  lemma DslTransition(chs: seq<Chapter>, s: Session, to: Ref, fuel: nat)
    ensures var o := TransitionTo(Dsl, chs, s, to, fuel);
      && (Lookup(chs, Key(to)).None? ==> o == Outcome(s, Thrown(TransitionTargetNotFound(Key(to)))))
      && (Lookup(chs, Key(to)).Some? ==>
            var r := FromIndex(Dsl, chs, s.(chapter := to, index := 0), Lookup(chs, Key(to)).value.children, fuel);
            o == if r.signal.Thrown? then r else Outcome(r.s, Stop))
  {
    var target := Lookup(chs, Key(to));
    if target.Some? {
      FromIndexKeeps(Dsl, chs, s.(chapter := to, index := 0), target.value.children, fuel);
    }
  }

  /**
   * lib/narrative-engine.js: a transition never throws over its target; it always sets the
   * chapter and index, and an unknown target is simply not run.
   */
  lemma EngineTransition(chs: seq<Chapter>, s: Session, to: Ref, fuel: nat)
    ensures var o := TransitionTo(Engine, chs, s, to, fuel);
      && !(o.signal.Thrown? && o.signal.error.TransitionTargetNotFound?)
      && (Lookup(chs, Key(to)).None? ==> o == Outcome(s.(chapter := to, index := 0), Stop))
  {
    TransitionKeeps(Engine, chs, s, to, fuel);
  }

  // ---------------------------------------------------------------------------------------------
  // Entry points
  // ---------------------------------------------------------------------------------------------

  /** `this.ast.chapters[0]?.id`. */
  function FirstChapter(chs: seq<Chapter>): Ref {
    if chs == [] then Undefined else RefOf(chs[0].id)
  }

  /** What `run` does before it looks the chapter up: an unset chapter becomes the first one, at index 0. */
  function RunStart(chs: seq<Chapter>, s: Session): (t: Session)
    ensures Truthy(s.chapter) ==> t == s
    ensures !Truthy(s.chapter) ==> t == s.(chapter := FirstChapter(chs), index := 0)
  {
    if Truthy(s.chapter) then s else s.(chapter := FirstChapter(chs), index := 0)
  }

  /** `run(state)`. */
  function Run(f: Flavour, chs: seq<Chapter>, s: Session, fuel: nat): Outcome {
    var t := RunStart(chs, s);
    match Lookup(chs, Key(t.chapter))
    case None => Outcome(t, Thrown(ChapterNotFound(Key(t.chapter))))
    case Some(ch) => FromIndex(f, chs, t, ch.children, fuel)
  }

  /** `run` throws "Chapter not found" exactly when the chapter it starts from is not in the script. */
  lemma RunChapterNotFound(f: Flavour, chs: seq<Chapter>, s: Session, fuel: nat)
    ensures var o := Run(f, chs, s, fuel);
      (o.signal.Thrown? && o.signal.error.ChapterNotFound?) <==> Lookup(chs, Key(RunStart(chs, s).chapter)).None?
    ensures Keeps(f, s, Run(f, chs, s, fuel).s)
  {
    var t := RunStart(chs, s);
    if Lookup(chs, Key(t.chapter)).Some? {
      FromIndexKeeps(f, chs, t, Lookup(chs, Key(t.chapter)).value.children, fuel);
    }
  }

  /** The value stored for a `capture`: the raw input, or in lib/narrative-engine.js a truthy extracted value. */
  function Captured(f: Flavour, input: string, r: EvalResult): string {
    if f == Engine && Present(r.extractedValue) then r.extractedValue.value else input
  }

  /**
   * The state `processInput` reaches before the response runs: the classification is recorded
   * under the prompt's id, the capture variable is assigned, and the wait is over.
   */
  function Answered(f: Flavour, s: Session, input: string, r: EvalResult): Session
    requires s.prompt.Some?
  {
    var p := s.prompt.value;
    var vars := if Present(p.capture) then Put(s.variables, p.capture.value, Captured(f, input, r)) else s.variables;
    s.(results := s.results[Key(RefOf(p.id)) := r.classification], variables := vars,
       awaiting := false, prompt := None)
  }

  /**
   * Before the response runs, `promptResults[prompt.id]` holds the classification, the capture
   * variable holds the captured value and no other variable changes, `awaitingInput` is false and
   * `currentPrompt` is null; position, metrics, completed chapters and callbacks are untouched.
   */
  lemma AnsweredSpec(f: Flavour, s: Session, input: string, r: EvalResult)
    requires s.prompt.Some?
    ensures var t := Answered(f, s, input, r);
      && t.chapter == s.chapter && t.index == s.index && !t.awaiting && t.prompt.None?
      && t.metrics == s.metrics && t.completed == s.completed && t.events == s.events
      && t.results == s.results[Key(RefOf(s.prompt.value.id)) := r.classification]
      && (Present(s.prompt.value.capture) ==>
            Get(t.variables, s.prompt.value.capture.value) == Some(Captured(f, input, r))
            && forall k :: k != s.prompt.value.capture.value ==> Get(t.variables, k) == Get(s.variables, k))
      && (!Present(s.prompt.value.capture) ==> t.variables == s.variables)
  {
  }

  /** The children of the response found, if any. */
  function ResponseBody(response: Option<Node>): seq<Node> {
    if response.Some? && response.value.Response? then response.value.children else []
  }

  /** `processInput(state, input)` with the evaluator's answer `r` to the input. */
  function ProcessInput(f: Flavour, chs: seq<Chapter>, s: Session, input: string, r: EvalResult, fuel: nat): Outcome {
    if !s.awaiting || s.prompt.None? then Outcome(s, Thrown(NotAwaitingInput))
    else
      var chapter := Lookup(chs, Key(s.chapter));
      var t := Answered(f, s, input, r);
      var response := FindResponse(s.prompt.value.responses, r.classification, r.path);
      var o := RunNodes(f, chs, t, ResponseBody(response), fuel);
      if o.signal.Thrown? then o
      else
        var u := o.s.(index := o.s.index + 1);
        match chapter
        case None => Outcome(u, Thrown(TypeError))
        case Some(ch) => FromIndex(f, chs, u, ch.children, fuel)
  }

  /**
   * `processInput` throws "Not awaiting input" exactly when no prompt is pending, and then changes
   * nothing; otherwise the recorded classification and the captured variable survive the rest of
   * the run, whatever the response and the chapter do.
   */
  lemma ProcessInputSpec(f: Flavour, chs: seq<Chapter>, s: Session, input: string, r: EvalResult, fuel: nat)
    ensures var o := ProcessInput(f, chs, s, input, r, fuel);
      && ((o.signal.Thrown? && o.signal.error.NotAwaitingInput?) <==> !s.awaiting || s.prompt.None?)
      && (!s.awaiting || s.prompt.None? ==> o.s == s)
      && (s.awaiting && s.prompt.Some? ==>
            && o.s.results == s.results[Key(RefOf(s.prompt.value.id)) := r.classification]
            && (Present(s.prompt.value.capture) ==>
                  Get(o.s.variables, s.prompt.value.capture.value) == Some(Captured(f, input, r)))
            && s.events <= o.s.events)
  {
    if s.awaiting && s.prompt.Some? {
      AnsweredSpec(f, s, input, r);
      var t := Answered(f, s, input, r);
      var response := FindResponse(s.prompt.value.responses, r.classification, r.path);
      RunNodesKeeps(f, chs, t, ResponseBody(response), fuel);
      var o := RunNodes(f, chs, t, ResponseBody(response), fuel);
      if !o.signal.Thrown? {
        var u := o.s.(index := o.s.index + 1);
        var chapter := Lookup(chs, Key(s.chapter));
        if chapter.Some? {
          FromIndexKeeps(f, chs, u, chapter.value.children, fuel);
        }
      }
    }
  }

  /** No response content runs when neither an exact nor a pathless response matches. */
  lemma ProcessInputNoResponse(f: Flavour, chs: seq<Chapter>, s: Session, input: string, r: EvalResult, fuel: nat)
    requires s.awaiting && s.prompt.Some?
    requires FindResponse(s.prompt.value.responses, r.classification, r.path).None?
    ensures var t := Answered(f, s, input, r).(index := s.index + 1);
      var o := ProcessInput(f, chs, s, input, r, fuel);
      match Lookup(chs, Key(s.chapter))
      case None => o == Outcome(t, Thrown(TypeError))
      case Some(ch) => o == FromIndex(f, chs, t, ch.children, fuel)
  {
    var t0 := Answered(f, s, input, r);
    assert ResponseBody(None) == [];
    assert RunNodes(f, chs, t0, [], fuel) == Outcome(t0, Go);
  }

  /** A node with no transition in it: no `transition` node and no block of that type, at any depth. */
  predicate NoTransition(n: Node) {
    match n
    case Transition(_, _) => false
    case Block(kind, _, children, _) => NodeTypeOf(kind) != TransitionType && forall c :: c in children ==> NoTransition(c)
    case Beat(_, children, _) => forall c :: c in children ==> NoTransition(c)
    case Checkpoint(_, children, _) => forall c :: c in children ==> NoTransition(c)
    case Prompt(_, question, _, _, _, _, _, _, _) => forall c :: c in question ==> NoTransition(c)
    case _ => true
  }

  /** Running a node without transitions leaves the chapter and the node index where they were. */
  lemma {:induction false} RunNodeKeepsPlace(f: Flavour, chs: seq<Chapter>, s: Session, n: Node, fuel: nat)
    requires NoTransition(n)
    ensures var o := RunNode(f, chs, s, n, fuel);
      o.s.chapter == s.chapter && o.s.index == s.index
    decreases n
  {
    match n
    case Beat(_, children, _) => RunNodesKeepsPlace(f, chs, s, children, fuel);
    case Checkpoint(_, children, _) => RunNodesKeepsPlace(f, chs, s, children, fuel);
    case Prompt(_, question, _, _, _, _, _, _, _) => RunNodesKeepsPlace(f, chs, s, question, fuel);
    case Block(_, _, children, _) => RunNodesKeepsPlace(f, chs, s, children, fuel);
    case _ =>
  }

  lemma {:induction false} RunNodesKeepsPlace(f: Flavour, chs: seq<Chapter>, s: Session, ns: seq<Node>, fuel: nat)
    requires forall c :: c in ns ==> NoTransition(c)
    ensures var o := RunNodes(f, chs, s, ns, fuel);
      o.s.chapter == s.chapter && o.s.index == s.index
    decreases ns
  {
    if ns != [] {
      assert ns[0] in ns;
      RunNodeKeepsPlace(f, chs, s, ns[0], fuel);
      var o := RunNode(f, chs, s, ns[0], fuel);
      if !o.signal.Thrown? {
        assert forall c :: c in ns[1..] ==> c in ns;
        RunNodesKeepsPlace(f, chs, o.s, ns[1..], fuel);
      }
    }
  }

  /**
   * When a response is found its content runs on the answered session; an error there ends the
   * call, otherwise the chapter resumes after the node where the session had stopped. With no
   * transition in the response that is the prompt's own chapter, at the index after the prompt.
   */
  lemma ProcessInputResponds(f: Flavour, chs: seq<Chapter>, s: Session, input: string, r: EvalResult, fuel: nat)
    requires s.awaiting && s.prompt.Some?
    requires FindResponse(s.prompt.value.responses, r.classification, r.path).Some?
    ensures var body := ResponseBody(FindResponse(s.prompt.value.responses, r.classification, r.path));
      var o := RunNodes(f, chs, Answered(f, s, input, r), body, fuel);
      var p := ProcessInput(f, chs, s, input, r, fuel);
      && (o.signal.Thrown? ==> p == o)
      && (!o.signal.Thrown? ==>
            match Lookup(chs, Key(s.chapter))
            case None => p == Outcome(o.s.(index := o.s.index + 1), Thrown(TypeError))
            case Some(ch) => p == FromIndex(f, chs, o.s.(index := o.s.index + 1), ch.children, fuel))
      && ((forall c :: c in body ==> NoTransition(c)) ==>
            o.s.chapter == s.chapter && o.s.index == s.index)
  {
    var body := ResponseBody(FindResponse(s.prompt.value.responses, r.classification, r.path));
    AnsweredSpec(f, s, input, r);
    if forall c :: c in body ==> NoTransition(c) {
      RunNodesKeepsPlace(f, chs, Answered(f, s, input, r), body, fuel);
    }
  }

  /** `resetToChapter(state, chapterId)` (lib/dsl/runtime.js). */
  function ResetToChapter(chs: seq<Chapter>, s: Session, chapterId: Ref): (o: Outcome)
    ensures Lookup(chs, Key(chapterId)).None? ==> o == Outcome(s, Thrown(ChapterNotFound(Key(chapterId))))
    ensures Lookup(chs, Key(chapterId)).Some? ==>
      o.signal == Go
      && o.s == s.(chapter := chapterId, index := 0, awaiting := false, prompt := None,
                   metrics := s.metrics["correctionPressure" := Real(0.0)])
  {
    if Lookup(chs, Key(chapterId)).None? then Outcome(s, Thrown(ChapterNotFound(Key(chapterId))))
    else
      Outcome(s.(chapter := chapterId, index := 0, awaiting := false, prompt := None,
                 metrics := s.metrics["correctionPressure" := Real(0.0)]), Go)
  }

  /** After a reset the session is not waiting, the pressure is 0, and metrics in range stay in range. */
  lemma ResetKeepsInvariants(chs: seq<Chapter>, s: Session, chapterId: Ref)
    requires MetricsInRange(s)
    ensures var o := ResetToChapter(chs, s, chapterId);
      AwaitingConsistent(o.s) == (AwaitingConsistent(s) || o.signal == Go)
      && MetricsInRange(o.s)
      && (o.signal == Go ==> MetricValue(o.s, "correctionPressure") == Some(Real(0.0)))
  {
  }

  /** `getLastCheckpoint(state)`. */
  function LastCheckpoint(chs: seq<Chapter>, s: Session): Ref {
    if s.completed == [] then
      (if chs != [] && Present(chs[0].id) then Id(chs[0].id.value) else Null)
    else s.completed[|s.completed| - 1]
  }

  /**
   * The restart point is a completed chapter whenever one exists, and then the one completed
   * last; otherwise the first chapter's id, or `null` when that id is not a non-empty string.
   */
  lemma LastCheckpointSpec(chs: seq<Chapter>, s: Session)
    ensures var r := LastCheckpoint(chs, s);
      && (s.completed != [] <==> r in s.completed && r == s.completed[|s.completed| - 1])
      && (s.completed == [] && chs != [] && Present(chs[0].id) ==> r == Id(chs[0].id.value))
      && (s.completed == [] && !(chs != [] && Present(chs[0].id)) ==> r == Null)
    ensures s.chapter !in s.completed ==> LastCheckpoint(chs, CompleteChapter(s)) == s.chapter
  {
  }
}
