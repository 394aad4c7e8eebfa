/**
 * The abstract syntax tree both parsers build (`NodeType` in lib/dsl/parser.js and the object
 * shapes of lib/narrative-engine.js). An absent JavaScript property (`undefined`) or `null`
 * is `None`.
 */
module Ast {
  import opened Wrappers
  import opened Lexer

  /** One `@ideal` / `@near` / `@fail` entry: `{path: attrs.path || null, criteria: value}`. */
  datatype Criterion = Criterion(path: Option<string>, criteria: string)

  datatype Node =
    | Beat(id: Option<string>, children: seq<Node>, line: nat)
    | Prompt(id: Option<string>, question: seq<Node>, ideals: seq<Criterion>, nears: seq<Criterion>,
             fails: seq<Criterion>, capture: Option<string>, context: Option<string>,
             responses: seq<Node>, line: nat)
      /** `matchClass` is the `match` attribute; `id` is only set by the engine copy. */
    | Response(id: Option<string>, matchClass: Option<string>, path: Option<string>, children: seq<Node>, line: nat)
    | Checkpoint(id: Option<string>, children: seq<Node>, line: nat)
    | TextNode(value: string, line: nat)
    | SpeakerLine(speaker: string, text: string, line: nat)
    | Pause(line: nat)
    | Glitch(line: nat)
      /** `absolute` is the `value` attribute, which only parser.js's `<metric>` tag reads. */
    | Metric(metric: Option<string>, absolute: Option<string>, delta: Option<string>, line: nat)
    | Transition(to: Option<string>, line: nat)
    | Sfx(name: Option<string>, line: nat)
      /** An unrecognised inline tag, passed through with its attributes (`type: 'inline_tag'`). */
    | InlineTagNode(tagName: string, tagAttrs: Attrs, line: nat)
      /** The engine copy's node for a block name it does not know: `type` is the block name. */
    | Block(kind: string, id: Option<string>, children: seq<Node>, line: nat)

  datatype Chapter = Chapter(id: Option<string>, title: Option<string>, objective: Option<string>,
                             test: Option<string>, children: seq<Node>, line: nat)

  /** Nodes that carry a `children` list (a prompt does not). */
  predicate HasChildren(n: Node) {
    n.Beat? || n.Response? || n.Checkpoint? || n.Block?
  }

  /** `attrs.path || null`: a missing or empty path is no path. */
  function PathOf(attrs: Attrs): (p: Option<string>)
    ensures p.Some? <==> "path" in attrs && attrs["path"] != ""
    ensures p.Some? ==> p.value == attrs["path"]
  {
    if "path" in attrs && attrs["path"] != "" then Some(attrs["path"]) else None
  }

  /** A property read `attrs.key`. */
  function Attr(attrs: Attrs, key: string): (v: Option<string>)
    ensures v.Some? <==> key in attrs
    ensures v.Some? ==> v.value == attrs[key]
  {
    if key in attrs then Some(attrs[key]) else None
  }
}
