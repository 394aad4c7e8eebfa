/**
 * The recursive-descent grammar shared by `parse` in lib/dsl/parser.js and `parseDSL` in
 * lib/narrative-engine.js, written as functions over the not-yet-consumed token suffix.
 * The two copies differ only where `Dialect` says so. Every block body is one loop that stops at
 * BLOCK_END or EOF (`BodyItems`); what a block keeps of the items of its body is a fold over them.
 */
module Grammar {
  import opened Wrappers
  import opened Lexer
  import opened Ast
  import opened Seqs

  /** `Strict` is lib/dsl/parser.js, `Lenient` is lib/narrative-engine.js. */
  datatype Dialect = Strict | Lenient

  /** `ParseError`: the only error `parse` raises from a reachable state. */
  datatype ParseError = UnknownBlockType(name: string, line: nat)

  /** What `parseNode` returns: a node, a directive record, or `null`. */
  datatype Item =
    | NodeItem(node: Node)
    | DirectiveItem(name: string, attrs: Attrs, value: string)
    | NoItem

  /** `current()`: the token at the cursor, EOF past the end. */
  function Head(ts: seq<Token>): Token {
    if ts == [] then Eof else ts[0]
  }

  /** The tokens that end a block body loop. */
  predicate Closer(t: Token) {
    t.BlockEnd? || t.Eof?
  }

  predicate IsSuffix(rest: seq<Token>, ts: seq<Token>) {
    |rest| <= |ts| && rest == ts[|ts| - |rest|..]
  }

  lemma SuffixTrans(a: seq<Token>, b: seq<Token>, c: seq<Token>)
    requires IsSuffix(a, b) && IsSuffix(b, c)
    ensures IsSuffix(a, c)
  {
    assert c[|c| - |b|..][|b| - |a|..] == c[|c| - |a|..];
  }

  /** A block's closer is consumed from a suffix of the tokens after its opening token. */
  lemma BodySuffix(ts: seq<Token>, rest: seq<Token>)
    requires ts != [] && IsSuffix(rest, SkipNewlines(ts[1..]))
    ensures IsSuffix(CloseBlock(rest), ts) && |CloseBlock(rest)| < |ts|
  {
    SuffixTrans(rest, SkipNewlines(ts[1..]), ts[1..]);
    SuffixTrans(CloseBlock(rest), rest, ts[1..]);
    SuffixTrans(CloseBlock(rest), ts[1..], ts);
  }

  /** `skipNewlines()`. */
  function SkipNewlines(ts: seq<Token>): (r: seq<Token>)
    ensures IsSuffix(r, ts) && !Head(r).Newline?
    ensures Head(ts).Newline? ==> |r| < |ts|
    ensures !Head(ts).Newline? ==> r == ts
  {
    if Head(ts).Newline? then SkipNewlines(ts[1..]) else ts
  }

  /** `if (current().type === BLOCK_END) advance()`. */
  function CloseBlock(ts: seq<Token>): (r: seq<Token>)
    ensures IsSuffix(r, ts)
  {
    if Head(ts).BlockEnd? then ts[1..] else ts
  }

  /** Inline tag names that map to typed nodes; the engine copy has no `metric` tag. */
  function KnownTags(d: Dialect): set<string> {
    var common := {"pause", "glitch", "correction-pressure", "signal-coherence", "transition", "sfx"};
    if d == Strict then common + {"metric"} else common
  }

  /** `parseInlineTag`. */
  function TagNode(d: Dialect, name: string, attrs: Attrs, line: nat): (n: Node)
    ensures n.line == line
    ensures n.InlineTagNode? <==> name !in KnownTags(d)
    ensures n.InlineTagNode? ==> n == InlineTagNode(name, attrs, line)
    ensures n.Metric? ==> n.delta == Attr(attrs, "delta")
    ensures n.Metric? && name != "metric" ==> n.metric == Some(name) && n.absolute.None?
  {
    if name == "pause" then Pause(line)
    else if name == "glitch" then Glitch(line)
    else if name == "correction-pressure" || name == "signal-coherence" then
      Metric(Some(name), None, Attr(attrs, "delta"), line)
    else if name == "metric" && d == Strict then
      Metric(Attr(attrs, "name"), Attr(attrs, "value"), Attr(attrs, "delta"), line)
    else if name == "transition" then Transition(Attr(attrs, "to"), line)
    else if name == "sfx" then Sfx(Attr(attrs, "name"), line)
    else InlineTagNode(name, attrs, line)
  }

  /** Block names parser.js accepts; any other name makes it throw. */
  const StrictBlocks: set<string> := {"beat", "prompt", "response", "checkpoint"}

  /** `parseNode`: skips newlines, then dispatches on the token type. */
  function ParseNode(d: Dialect, ts: seq<Token>): (r: Result<(Item, seq<Token>), ParseError>)
    ensures r.Ok? ==> IsSuffix(r.value.1, ts)
    ensures r.Ok? && !Closer(Head(ts)) ==> |r.value.1| < |ts|
    decreases |ts|, 2
  {
    var ts1 := SkipNewlines(ts);
    match Head(ts1)
    case BlockStart(_, _, _) =>
      var r := ParseBlock(d, ts1);
      assert r.Ok? ==> IsSuffix(r.value.1, ts) by {
        if r.Ok? {
          SuffixTrans(r.value.1, ts1, ts);
        }
      }
      r
    case Directive(name, attrs, value, _) => Ok((DirectiveItem(name, attrs, value), ts1[1..]))
    case Speaker(speaker, text, line) => Ok((NodeItem(SpeakerLine(speaker, text, line)), ts1[1..]))
    case InlineTag(name, attrs, line) => Ok((NodeItem(TagNode(d, name, attrs, line)), ts1[1..]))
    case Text(value, line) => Ok((NodeItem(TextNode(value, line)), ts1[1..]))
    case _ => Ok((NoItem, ts1))
  }

  /** `parseBlock`: parser.js rejects a name it does not know before reading the body. */
  function ParseBlock(d: Dialect, ts: seq<Token>): (r: Result<(Item, seq<Token>), ParseError>)
    requires Head(ts).BlockStart?
    ensures r.Ok? ==> IsSuffix(r.value.1, ts) && |r.value.1| < |ts|
    decreases |ts|, 1
  {
    var tok := ts[0];
    if d == Strict && tok.name !in StrictBlocks then
      Err(UnknownBlockType(tok.name, tok.line))
    else
      var r := BlockBody(d, tok, ts[1..]);
      assert r.Ok? ==> IsSuffix(r.value.1, ts) && |r.value.1| < |ts| by {
        if r.Ok? {
          SuffixTrans(r.value.1, ts[1..], ts);
        }
      }
      r
  }

  /**
   * The block parsers (`parseBeat`, `parsePrompt`, `parseResponse`, `parseCheckpoint`), entered
   * just after the opening token `tok`: skip newlines, run the body loop, consume the closer.
   */
  function BlockBody(d: Dialect, tok: Token, ts: seq<Token>): (r: Result<(Item, seq<Token>), ParseError>)
    requires tok.BlockStart?
    ensures r.Ok? ==> IsSuffix(r.value.1, ts)
    decreases |ts|, 4
  {
    match BodyItems(d, SkipNewlines(ts))
    case Err(e) => Err(e)
    case Ok((items, rest)) =>
      SuffixTrans(rest, SkipNewlines(ts), ts);
      SuffixTrans(CloseBlock(rest), rest, ts);
      Ok((BlockItem(d, tok, items), CloseBlock(rest)))
  }

  /**
   * The body loop every block shares: parse nodes until BLOCK_END or EOF, skipping newlines after
   * each. The closer itself is not consumed.
   */
  function BodyItems(d: Dialect, ts: seq<Token>): (r: Result<(seq<Item>, seq<Token>), ParseError>)
    ensures r.Ok? ==> IsSuffix(r.value.1, ts) && Closer(Head(r.value.1))
    decreases |ts|, 3
  {
    if Closer(Head(ts)) then Ok(([], ts))
    else
      match ParseNode(d, ts)
      case Err(e) => Err(e)
      case Ok((item, rest)) =>
        match BodyItems(d, SkipNewlines(rest))
        case Err(e) => Err(e)
        case Ok((items, rest')) =>
          SuffixTrans(rest', SkipNewlines(rest), rest);
          SuffixTrans(rest', rest, ts);
          Ok(([item] + items, rest'))
  }

  /** The node a block becomes once its body items are known. */
  function BlockItem(d: Dialect, tok: Token, items: seq<Item>): Item
    requires tok.BlockStart?
  {
    var id := Attr(tok.attrs, "id");
    if tok.name == "prompt" then
      NodeItem(Distribute(items, EmptyPrompt(id, tok.line)))
    else if tok.name == "beat" then
      NodeItem(Beat(id, Children(items), tok.line))
    else if tok.name == "response" then
      NodeItem(Response(if d == Lenient then id else None, Attr(tok.attrs, "match"),
                        PathOf(tok.attrs), Children(items), tok.line))
    else if tok.name == "checkpoint" then
      NodeItem(Checkpoint(if d == Lenient then id else None, Children(items), tok.line))
    else if tok.name == "directive" then
      // The engine gives such a block the type 'directive' and no name: every parent drops it.
      NoItem
    else
      NodeItem(Block(tok.name, id, Children(items), tok.line))
  }

  // ---------------------------------------------------------------------------------------------
  // What each block keeps of its body
  // ---------------------------------------------------------------------------------------------

  /** Beat, response, checkpoint (and generic) bodies keep their nodes and drop directives. */
  function Children(items: seq<Item>): (ns: seq<Node>)
    ensures |ns| <= |items|
  {
    if items == [] then []
    else (if items[0].NodeItem? then [items[0].node] else []) + Children(items[1..])
  }

  function EmptyPrompt(id: Option<string>, line: nat): Node {
    Prompt(id, [], [], [], [], None, None, [], line)
  }

  /** `handlePromptDirective`: unknown directive names are dropped. */
  function HandlePromptDirective(p: Node, name: string, attrs: Attrs, value: string): (q: Node)
    requires p.Prompt?
    ensures q.Prompt?
  {
    var c := Criterion(PathOf(attrs), value);
    if name == "ideal" then p.(ideals := p.ideals + [c])
    else if name == "near" then p.(nears := p.nears + [c])
    else if name == "fail" then p.(fails := p.fails + [c])
    else if name == "capture" then p.(capture := Some(value))
    else if name == "context" then p.(context := Some(value))
    else p
  }

  /** One iteration of the prompt body loop. */
  function PromptStep(p: Node, item: Item): (q: Node)
    requires p.Prompt?
    ensures q.Prompt?
  {
    match item
    case NodeItem(n) =>
      if n.Response? then p.(responses := p.responses + [n]) else p.(question := p.question + [n])
    case DirectiveItem(name, attrs, value) => HandlePromptDirective(p, name, attrs, value)
    case NoItem => p
  }

  /** The prompt body loop, from the prompt built so far. */
  function Distribute(items: seq<Item>, p: Node): (q: Node)
    requires p.Prompt?
    ensures q.Prompt? && q.id == p.id && q.line == p.line
  {
    if items == [] then p else Distribute(items[1..], PromptStep(p, items[0]))
  }

  /** One iteration of the chapter body loop. */
  function ChapterStep(ch: Chapter, item: Item): Chapter {
    match item
    case NodeItem(n) => ch.(children := ch.children + [n])
    case DirectiveItem(name, _, value) =>
      if name == "objective" then ch.(objective := Some(value))
      else if name == "test" then ch.(test := Some(value))
      else ch
    case NoItem => ch
  }

  function ChapterFold(items: seq<Item>, ch: Chapter): (r: Chapter)
    ensures r.id == ch.id && r.title == ch.title && r.line == ch.line
  {
    if items == [] then ch else ChapterFold(items[1..], ChapterStep(ch, items[0]))
  }

  // ---------------------------------------------------------------------------------------------
  // The same buckets, defined independently as filters of the body items
  // ---------------------------------------------------------------------------------------------

  /** The criteria of the directives named `kind`, in order. */
  function Criteria(items: seq<Item>, kind: string): seq<Criterion> {
    if items == [] then []
    else
      (if items[0].DirectiveItem? && items[0].name == kind
       then [Criterion(PathOf(items[0].attrs), items[0].value)] else [])
      + Criteria(items[1..], kind)
  }

  /** The value of the last directive named `kind`, if any. */
  function LastValue(items: seq<Item>, kind: string): Option<string> {
    if items == [] then None
    else
      var later := LastValue(items[1..], kind);
      if later.Some? then later
      else if items[0].DirectiveItem? && items[0].name == kind then Some(items[0].value)
      else None
  }

  /** Nodes of the body that are response blocks. */
  function Responses(items: seq<Item>): seq<Node> {
    if items == [] then []
    else (if items[0].NodeItem? && items[0].node.Response? then [items[0].node] else []) + Responses(items[1..])
  }

  /** Nodes of the body that are not response blocks. */
  function Question(items: seq<Item>): seq<Node> {
    if items == [] then []
    else (if items[0].NodeItem? && !items[0].node.Response? then [items[0].node] else []) + Question(items[1..])
  }

  /** A field that a later assignment may replace. */
  function Override(before: Option<string>, after: Option<string>): Option<string> {
    if after.Some? then after else before
  }

  /** The list a criteria directive named `kind` appends to. */
  function Bucket(p: Node, kind: string): seq<Criterion>
    requires p.Prompt?
  {
    if kind == "ideal" then p.ideals else if kind == "near" then p.nears
    else if kind == "fail" then p.fails else []
  }

  function Setting(p: Node, kind: string): Option<string>
    requires p.Prompt?
  {
    if kind == "capture" then p.capture else if kind == "context" then p.context else None
  }

  lemma {:induction false} DistributeCriteria(items: seq<Item>, p: Node, kind: string)
    requires p.Prompt? && kind in {"ideal", "near", "fail"}
    ensures Bucket(Distribute(items, p), kind) == Bucket(p, kind) + Criteria(items, kind)
  {
    if items != [] {
      var q := PromptStep(p, items[0]);
      DistributeCriteria(items[1..], q, kind);
      var here := if items[0].DirectiveItem? && items[0].name == kind
                  then [Criterion(PathOf(items[0].attrs), items[0].value)] else [];
      StepCriteria(p, items[0], kind);
      assert Criteria(items, kind) == here + Criteria(items[1..], kind);
      AppendAssoc(Bucket(p, kind), here, Criteria(items[1..], kind));
    }
  }

  /** One loop iteration appends to the list of `kind` exactly the criterion the item contributes. */
  lemma StepCriteria(p: Node, item: Item, kind: string)
    requires p.Prompt? && kind in {"ideal", "near", "fail"}
    ensures Bucket(PromptStep(p, item), kind)
         == Bucket(p, kind) + if item.DirectiveItem? && item.name == kind
                              then [Criterion(PathOf(item.attrs), item.value)] else []
  {
  }

  lemma {:induction false} DistributeSettings(items: seq<Item>, p: Node, kind: string)
    requires p.Prompt? && kind in {"capture", "context"}
    ensures Setting(Distribute(items, p), kind) == Override(Setting(p, kind), LastValue(items, kind))
  {
    if items != [] {
      DistributeSettings(items[1..], PromptStep(p, items[0]), kind);
    }
  }

  lemma {:induction false} DistributeNodes(items: seq<Item>, p: Node)
    requires p.Prompt?
    ensures Distribute(items, p).question == p.question + Question(items)
    ensures Distribute(items, p).responses == p.responses + Responses(items)
  {
    if items != [] {
      var q := PromptStep(p, items[0]);
      DistributeNodes(items[1..], q);
      var item := items[0];
      var asked := if item.NodeItem? && !item.node.Response? then [item.node] else [];
      var answered := if item.NodeItem? && item.node.Response? then [item.node] else [];
      StepNodes(p, item);
      assert Question(items) == asked + Question(items[1..]);
      assert Responses(items) == answered + Responses(items[1..]);
      AppendAssoc(p.question, asked, Question(items[1..]));
      AppendAssoc(p.responses, answered, Responses(items[1..]));
    }
  }

  /** One loop iteration appends a response node to `responses` and any other node to `question`. */
  lemma StepNodes(p: Node, item: Item)
    requires p.Prompt?
    ensures PromptStep(p, item).question
         == p.question + if item.NodeItem? && !item.node.Response? then [item.node] else []
    ensures PromptStep(p, item).responses
         == p.responses + if item.NodeItem? && item.node.Response? then [item.node] else []
  {
  }

  /**
   * The prompt body loop puts every response block in `responses`, every other node in `question`,
   * `@ideal`/`@near`/`@fail` in their own lists in order, keeps the last `@capture` and `@context`,
   * and drops every other directive.
   */
  lemma DistributeBuckets(items: seq<Item>, id: Option<string>, line: nat)
    ensures Distribute(items, EmptyPrompt(id, line))
         == Prompt(id, Question(items), Criteria(items, "ideal"), Criteria(items, "near"),
                   Criteria(items, "fail"), LastValue(items, "capture"), LastValue(items, "context"),
                   Responses(items), line)
  {
    var p := EmptyPrompt(id, line);
    DistributeCriteria(items, p, "ideal");
    DistributeCriteria(items, p, "near");
    DistributeCriteria(items, p, "fail");
    DistributeSettings(items, p, "capture");
    DistributeSettings(items, p, "context");
    DistributeNodes(items, p);
  }

  /** Every node of a prompt body lands in exactly one of `question` and `responses`. */
  lemma {:induction false} QuestionResponsesPartition(items: seq<Item>)
    ensures |Question(items)| + |Responses(items)| == |Children(items)|
    ensures forall n :: n in Responses(items) ==> n.Response?
    ensures forall n :: n in Question(items) ==> !n.Response?
  {
    if items != [] {
      QuestionResponsesPartition(items[1..]);
    }
  }

  lemma {:induction false} ChapterFoldParts(items: seq<Item>, ch: Chapter)
    ensures ChapterFold(items, ch).children == ch.children + Children(items)
    ensures ChapterFold(items, ch).objective == Override(ch.objective, LastValue(items, "objective"))
    ensures ChapterFold(items, ch).test == Override(ch.test, LastValue(items, "test"))
  {
    if items != [] {
      var c := ChapterStep(ch, items[0]);
      ChapterFoldParts(items[1..], c);
      assert ch.children + Children(items) == c.children + Children(items[1..]);
    }
  }

  /**
   * The chapter body loop keeps every node as a child, takes `objective` and `test` from the last
   * such directive, and drops every other directive.
   */
  lemma ChapterBuckets(items: seq<Item>, id: Option<string>, title: Option<string>, line: nat)
    ensures ChapterFold(items, Chapter(id, title, None, None, [], line))
         == Chapter(id, title, LastValue(items, "objective"), LastValue(items, "test"), Children(items), line)
  {
    ChapterFoldParts(items, Chapter(id, title, None, None, [], line));
  }

  /** `parseChapter`, entered on a `:::chapter` token (the only way the top level calls it). */
  function ParseChapter(d: Dialect, ts: seq<Token>): (r: Result<(Chapter, seq<Token>), ParseError>)
    requires Head(ts).BlockStart? && Head(ts).name == "chapter"
    ensures r.Ok? ==> IsSuffix(r.value.1, ts) && |r.value.1| < |ts|
  {
    var tok := ts[0];
    match BodyItems(d, SkipNewlines(ts[1..]))
    case Err(e) => Err(e)
    case Ok((items, rest)) =>
      BodySuffix(ts, rest);
      var ch := Chapter(Attr(tok.attrs, "id"), Attr(tok.attrs, "title"), None, None, [], tok.line);
      Ok((ChapterFold(items, ch), CloseBlock(rest)))
  }

  predicate IsChapterStart(t: Token) {
    t.BlockStart? && t.name == "chapter"
  }

  /** The top-level loop: chapters are parsed, every other token is skipped. */
  function TopLoop(d: Dialect, ts: seq<Token>, acc: seq<Chapter>): Result<seq<Chapter>, ParseError>
    decreases |ts|
  {
    if Head(ts).Eof? then Ok(acc)
    else if IsChapterStart(Head(ts)) then
      match ParseChapter(d, ts)
      case Err(e) => Err(e)
      case Ok((ch, rest)) => TopLoop(d, SkipNewlines(rest), acc + [ch])
    else TopLoop(d, SkipNewlines(ts[1..]), acc)
  }

  /** `parse(tokens)`: the chapters of the AST. */
  function Parse(d: Dialect, tokens: seq<Token>): Result<seq<Chapter>, ParseError> {
    TopLoop(d, SkipNewlines(tokens), [])
  }

  /** `parseDSL(source)`. */
  function ParseDSL(d: Dialect, source: string): Result<seq<Chapter>, ParseError> {
    Parse(d, Tokens(source))
  }

  // ---------------------------------------------------------------------------------------------
  // Facts the cursor-driven parsers need: a body loop seen one iteration at a time
  // ---------------------------------------------------------------------------------------------

  /** A method result paired with the tokens left after it, as the grammar functions return it. */
  function Paired<T>(r: Result<T, ParseError>, rest: seq<Token>): Result<(T, seq<Token>), ParseError> {
    match r
    case Ok(v) => Ok((v, rest))
    case Err(e) => Err(e)
  }

  /** Puts `pre` in front of the items of a body-loop result. */
  function Prepend(pre: seq<Item>, r: Result<(seq<Item>, seq<Token>), ParseError>): Result<(seq<Item>, seq<Token>), ParseError> {
    match r
    case Ok((items, rest)) => Ok((pre + items, rest))
    case Err(e) => Err(e)
  }

  lemma PrependNothing(r: Result<(seq<Item>, seq<Token>), ParseError>)
    ensures Prepend([], r) == r
  {
    if r.Ok? {
      assert [] + r.value.0 == r.value.0;
    }
  }

  lemma PrependStep(pre: seq<Item>, item: Item, r: Result<(seq<Item>, seq<Token>), ParseError>)
    ensures Prepend(pre, Prepend([item], r)) == Prepend(pre + [item], r)
  {
    if r.Ok? {
      assert pre + ([item] + r.value.0) == pre + [item] + r.value.0;
    }
  }

  /** One body-loop iteration, seen from the items collected before it. */
  lemma BodyStep(d: Dialect, ts: seq<Token>, item: Item, rest: seq<Token>, pre: seq<Item>)
    requires !Closer(Head(ts)) && ParseNode(d, ts) == Ok((item, rest))
    ensures Prepend(pre, BodyItems(d, ts)) == Prepend(pre + [item], BodyItems(d, SkipNewlines(rest)))
  {
    PrependStep(pre, item, BodyItems(d, SkipNewlines(rest)));
  }

  /** `parseNode` skips newlines, then dispatches on the token it stops at. */
  lemma ParseNodeCases(d: Dialect, ts: seq<Token>)
    ensures var t := Head(SkipNewlines(ts)); var r := ParseNode(d, ts);
      && (t.BlockStart? ==> r == ParseBlock(d, SkipNewlines(ts)))
      && (t.Directive? ==> r == Ok((DirectiveItem(t.name, t.attrs, t.value), SkipNewlines(ts)[1..])))
      && (t.Speaker? ==> r == Ok((NodeItem(SpeakerLine(t.speaker, t.text, t.line)), SkipNewlines(ts)[1..])))
      && (t.InlineTag? ==> r == Ok((NodeItem(TagNode(d, t.name, t.attrs, t.line)), SkipNewlines(ts)[1..])))
      && (t.Text? ==> r == Ok((NodeItem(TextNode(t.value, t.line)), SkipNewlines(ts)[1..])))
      && (t.BlockEnd? || t.Eof? ==> r == Ok((NoItem, SkipNewlines(ts))))
  {
  }

  /** A body loop that stopped on a closer `rest` after collecting `items`. */
  lemma BlockBodyDone(d: Dialect, tok: Token, ts: seq<Token>, items: seq<Item>, rest: seq<Token>)
    requires tok.BlockStart? && Closer(Head(rest))
    requires BodyItems(d, SkipNewlines(ts)) == Prepend(items, BodyItems(d, rest))
    ensures BlockBody(d, tok, ts) == Ok((BlockItem(d, tok, items), CloseBlock(rest)))
  {
    assert BodyItems(d, rest) == Ok(([], rest));
    assert items + [] == items;
  }

  /** A body loop whose next node failed. */
  lemma BlockBodyFails(d: Dialect, tok: Token, ts: seq<Token>, items: seq<Item>, rest: seq<Token>)
    requires tok.BlockStart? && !Closer(Head(rest)) && ParseNode(d, rest).Err?
    requires BodyItems(d, SkipNewlines(ts)) == Prepend(items, BodyItems(d, rest))
    ensures BlockBody(d, tok, ts) == Err(ParseNode(d, rest).error)
  {
  }

  /** A chapter body loop that stopped on a closer `rest` after collecting `items`. */
  lemma ChapterDone(d: Dialect, ts: seq<Token>, items: seq<Item>, rest: seq<Token>)
    requires IsChapterStart(Head(ts)) && Closer(Head(rest))
    requires BodyItems(d, SkipNewlines(ts[1..])) == Prepend(items, BodyItems(d, rest))
    ensures ParseChapter(d, ts) ==
      Ok((ChapterFold(items, Chapter(Attr(ts[0].attrs, "id"), Attr(ts[0].attrs, "title"), None, None, [], ts[0].line)),
          CloseBlock(rest)))
  {
    assert BodyItems(d, rest) == Ok(([], rest));
    assert items + [] == items;
  }

  /** A chapter body loop whose next node failed. */
  lemma ChapterFails(d: Dialect, ts: seq<Token>, items: seq<Item>, rest: seq<Token>)
    requires IsChapterStart(Head(ts)) && !Closer(Head(rest)) && ParseNode(d, rest).Err?
    requires BodyItems(d, SkipNewlines(ts[1..])) == Prepend(items, BodyItems(d, rest))
    ensures ParseChapter(d, ts) == Err(ParseNode(d, rest).error)
  {
  }

  lemma ChildrenSnoc(items: seq<Item>, item: Item)
    ensures Children(items + [item]) == Children(items) + (if item.NodeItem? then [item.node] else [])
  {
    if items != [] {
      assert (items + [item])[1..] == items[1..] + [item];
      ChildrenSnoc(items[1..], item);
    } else {
      assert Children([item]) == (if item.NodeItem? then [item.node] else []) + Children([]);
    }
  }

  lemma {:induction false} DistributeSnoc(items: seq<Item>, item: Item, p: Node)
    requires p.Prompt?
    ensures Distribute(items + [item], p) == PromptStep(Distribute(items, p), item)
  {
    if items != [] {
      assert (items + [item])[1..] == items[1..] + [item];
      DistributeSnoc(items[1..], item, PromptStep(p, items[0]));
    }
  }

  lemma {:induction false} ChapterFoldSnoc(items: seq<Item>, item: Item, ch: Chapter)
    ensures ChapterFold(items + [item], ch) == ChapterStep(ChapterFold(items, ch), item)
  {
    if items != [] {
      assert (items + [item])[1..] == items[1..] + [item];
      ChapterFoldSnoc(items[1..], item, ChapterStep(ch, items[0]));
    }
  }
}
