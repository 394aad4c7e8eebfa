/**
 * `parse` of lib/dsl/parser.js as the cursor-driven code it is: a `pos` field advanced by
 * `advance()`, while loops that push into the node under construction. Every method is proved to
 * compute what the `Grammar` functions (dialect `Strict`) say about the tokens it started from.
 */
module Parser {
  import opened Wrappers
  import opened Lexer
  import opened Ast
  import opened Grammar

  /** `parseBlock` on a known name is its body parser entered past the opening token. */
  lemma ParseBlockUnfold(ts: seq<Token>)
    requires Head(ts).BlockStart?
    ensures Grammar.ParseBlock(Strict, ts) ==
      if ts[0].name in StrictBlocks then BlockBody(Strict, ts[0], ts[1..])
      else Err(UnknownBlockType(ts[0].name, ts[0].line))
  {
  }

  class Parser {
    const tokens: seq<Token>
    var pos: nat

    constructor (tokens: seq<Token>)
      ensures this.tokens == tokens && pos == 0
    {
      this.tokens := tokens;
      pos := 0;
    }

    predicate Valid()
      reads this
    {
      pos <= |tokens|
    }

    /** The tokens not yet consumed. */
    function Rest(): seq<Token>
      reads this
      requires Valid()
    {
      tokens[pos..]
    }

    /** `current()`. */
    method Current() returns (t: Token)
      requires Valid()
      ensures t == Head(Rest())
    {
      t := if pos < |tokens| then tokens[pos] else Eof;
    }

    /** `advance()`: returns the current token and moves past it. */
    method Advance() returns (t: Token)
      requires Valid() && pos < |tokens|
      modifies this
      ensures Valid() && pos == old(pos) + 1
      ensures t == old(Head(Rest())) && Rest() == old(Rest())[1..]
    {
      t := tokens[pos];
      pos := pos + 1;
    }

    /** `skipNewlines()`. */
    method SkipNewlines()
      requires Valid()
      modifies this
      ensures Valid() && old(pos) <= pos
      ensures Rest() == Grammar.SkipNewlines(old(Rest()))
    {
      while pos < |tokens| && tokens[pos].Newline?
        invariant old(pos) <= pos <= |tokens|
        invariant Grammar.SkipNewlines(Rest()) == Grammar.SkipNewlines(old(Rest()))
        decreases |tokens| - pos
      {
        pos := pos + 1;
      }
    }

    /** `parseNode()`. */
    method ParseNode() returns (r: Result<Item, ParseError>)
      requires Valid()
      modifies this
      ensures Valid() && old(pos) <= pos
      ensures Grammar.ParseNode(Strict, old(Rest())) == Paired(r, Rest())
      decreases |tokens| - pos, 2
    {
      ParseNodeCases(Strict, Rest());
      SkipNewlines();
      var token := Current();
      match token
      case BlockStart(_, _, _) =>
        r := ParseBlock();
      case Directive(_, _, _, _) =>
        var item := ParseDirective();
        r := Ok(item);
      case Speaker(_, _, _) =>
        var node := ParseSpeakerLine();
        r := Ok(NodeItem(node));
      case InlineTag(_, _, _) =>
        var node := ParseInlineTag();
        r := Ok(NodeItem(node));
      case Text(value, line) =>
        var _ := Advance();
        r := Ok(NodeItem(TextNode(value, line)));
      case _ =>
        r := Ok(NoItem);
    }

    /** `parseBlock()`: dispatches on the block name; an unknown name is an error. */
    method ParseBlock() returns (r: Result<Item, ParseError>)
      requires Valid() && Head(Rest()).BlockStart?
      modifies this
      ensures Valid() && old(pos) <= pos
      ensures Grammar.ParseBlock(Strict, old(Rest())) == Paired(r, Rest())
      decreases |tokens| - pos, 1
    {
      ghost var ts := Rest();
      ParseBlockUnfold(ts);
      var token := Advance();
      ghost var body := Rest();
      if token.name == "beat" || token.name == "response" || token.name == "checkpoint" {
        r := ParseContentBlock(token);
        assert BlockBody(Strict, token, body) == Paired(r, Rest());
      } else if token.name == "prompt" {
        r := ParsePrompt(token);
        assert BlockBody(Strict, token, body) == Paired(r, Rest());
      } else {
        r := Err(UnknownBlockType(token.name, token.line));
      }
    }

    /**
     * `parseBeat`, `parseResponse` and `parseCheckpoint`: one loop each in the source, identical
     * but for the node they build, which keeps its non-directive children.
     */
    method ParseContentBlock(token: Token) returns (r: Result<Item, ParseError>)
      requires Valid() && token.BlockStart? && token.name in {"beat", "response", "checkpoint"}
      modifies this
      ensures Valid() && old(pos) <= pos
      ensures BlockBody(Strict, token, old(Rest())) == Paired(r, Rest())
      decreases |tokens| - pos, 4
    {
      ghost var start := Rest();
      SkipNewlines();
      ghost var items: seq<Item> := [];
      PrependNothing(BodyItems(Strict, Rest()));
      var children: seq<Node> := [];
      var current := Current();
      while !Closer(current)
        invariant Valid() && old(pos) <= pos
        invariant current == Head(Rest())
        invariant children == Children(items)
        invariant BodyItems(Strict, Grammar.SkipNewlines(start)) == Prepend(items, BodyItems(Strict, Rest()))
        decreases |tokens| - pos
      {
        ghost var before := Rest();
        var node := ParseNode();
        if node.Err? {
          BlockBodyFails(Strict, token, start, items, before);
          r := Err(node.error);
          return;
        }
        BodyStep(Strict, before, node.value, Rest(), items);
        ChildrenSnoc(items, node.value);
        if node.value.NodeItem? {
          children := children + [node.value.node];
        }
        items := items + [node.value];
        SkipNewlines();
        current := Current();
      }
      r := FinishContentBlock(token, children, start, items);
    }

    /** The end of `parseContentBlock`: the node its type calls for, then the closing `:::` if present. */
    method FinishContentBlock(token: Token, children: seq<Node>, ghost start: seq<Token>, ghost items: seq<Item>)
      returns (r: Result<Item, ParseError>)
      requires Valid() && token.BlockStart? && token.name in {"beat", "response", "checkpoint"}
      requires Closer(Head(Rest())) && children == Children(items)
      requires BodyItems(Strict, Grammar.SkipNewlines(start)) == Prepend(items, BodyItems(Strict, Rest()))
      modifies this
      ensures Valid() && old(pos) <= pos
      ensures BlockBody(Strict, token, start) == Paired(r, Rest())
    {
      ghost var closer := Rest();
      BlockBodyDone(Strict, token, start, items, closer);
      var id := Attr(token.attrs, "id");
      var node: Node;
      if token.name == "beat" {
        node := Beat(id, children, token.line);
      } else if token.name == "response" {
        node := Response(None, Attr(token.attrs, "match"), PathOf(token.attrs), children, token.line);
      } else {
        node := Checkpoint(None, children, token.line);
      }
      assert NodeItem(node) == BlockItem(Strict, token, items);
      var current := Current();
      if current.BlockEnd? {
        var _ := Advance();
      }
      assert Rest() == CloseBlock(closer);
      r := Ok(NodeItem(node));
    }

    /** `parsePrompt`: distributes the body into question, criteria, settings and responses. */
    method ParsePrompt(token: Token) returns (r: Result<Item, ParseError>)
      requires Valid() && token.BlockStart? && token.name == "prompt"
      modifies this
      ensures Valid() && old(pos) <= pos
      ensures BlockBody(Strict, token, old(Rest())) == Paired(r, Rest())
      decreases |tokens| - pos, 4
    {
      ghost var start := Rest();
      var prompt := EmptyPrompt(Attr(token.attrs, "id"), token.line);
      ghost var initial := prompt;
      SkipNewlines();
      ghost var items: seq<Item> := [];
      PrependNothing(BodyItems(Strict, Rest()));
      var current := Current();
      while !Closer(current)
        invariant Valid() && old(pos) <= pos
        invariant current == Head(Rest())
        invariant prompt == Distribute(items, initial)
        invariant BodyItems(Strict, Grammar.SkipNewlines(start)) == Prepend(items, BodyItems(Strict, Rest()))
        decreases |tokens| - pos
      {
        ghost var before := Rest();
        var node := ParseNode();
        if node.Err? {
          BlockBodyFails(Strict, token, start, items, before);
          r := Err(node.error);
          return;
        }
        BodyStep(Strict, before, node.value, Rest(), items);
        DistributeSnoc(items, node.value, initial);
        // A directive sets a criterion or a setting, a response is collected, anything else is
        // part of the question.
        prompt := PromptStep(prompt, node.value);
        items := items + [node.value];
        SkipNewlines();
        current := Current();
      }
      BlockBodyDone(Strict, token, start, items, Rest());
      if current.BlockEnd? {
        var _ := Advance();
      }
      r := Ok(NodeItem(prompt));
    }

    /** `parseDirective()`: the directive becomes a record the enclosing block interprets. */
    method ParseDirective() returns (item: Item)
      requires Valid() && Head(Rest()).Directive?
      modifies this
      ensures Valid() && pos == old(pos) + 1
      ensures var t := old(Head(Rest())); item == DirectiveItem(t.name, t.attrs, t.value)
    {
      var token := Advance();
      item := DirectiveItem(token.name, token.attrs, token.value);
    }

    /** `parseSpeakerLine()`. */
    method ParseSpeakerLine() returns (node: Node)
      requires Valid() && Head(Rest()).Speaker?
      modifies this
      ensures Valid() && pos == old(pos) + 1
      ensures var t := old(Head(Rest())); node == SpeakerLine(t.speaker, t.text, t.line)
    {
      var token := Advance();
      node := SpeakerLine(token.speaker, token.text, token.line);
    }

    /** `parseInlineTag()`. */
    method ParseInlineTag() returns (node: Node)
      requires Valid() && Head(Rest()).InlineTag?
      modifies this
      ensures Valid() && pos == old(pos) + 1
      ensures var t := old(Head(Rest())); node == TagNode(Strict, t.name, t.attrs, t.line)
    {
      var token := Advance();
      match token.name
      case "pause" => node := Pause(token.line);
      case "glitch" => node := Glitch(token.line);
      case "correction-pressure" =>
        node := Metric(Some(token.name), None, Attr(token.attrs, "delta"), token.line);
      case "signal-coherence" =>
        node := Metric(Some(token.name), None, Attr(token.attrs, "delta"), token.line);
      case "metric" =>
        node := Metric(Attr(token.attrs, "name"), Attr(token.attrs, "value"), Attr(token.attrs, "delta"), token.line);
      case "transition" => node := Transition(Attr(token.attrs, "to"), token.line);
      case "sfx" => node := Sfx(Attr(token.attrs, "name"), token.line);
      case _ => node := InlineTagNode(token.name, token.attrs, token.line);
    }

    /** `parseChapter()`: `@objective` and `@test` become fields, other nodes children. */
    method ParseChapter() returns (r: Result<Chapter, ParseError>)
      requires Valid() && IsChapterStart(Head(Rest()))
      modifies this
      ensures Valid() && old(pos) < pos
      ensures Grammar.ParseChapter(Strict, old(Rest())) == Paired(r, Rest())
    {
      ghost var start := Rest();
      var token := Advance();
      var chapter := Chapter(Attr(token.attrs, "id"), Attr(token.attrs, "title"), None, None, [], token.line);
      ghost var initial := chapter;
      SkipNewlines();
      ghost var items: seq<Item> := [];
      PrependNothing(BodyItems(Strict, Rest()));
      var current := Current();
      while !Closer(current)
        invariant Valid() && old(pos) < pos
        invariant current == Head(Rest())
        invariant chapter == ChapterFold(items, initial)
        invariant BodyItems(Strict, Grammar.SkipNewlines(start[1..])) == Prepend(items, BodyItems(Strict, Rest()))
        decreases |tokens| - pos
      {
        ghost var before := Rest();
        var node := ParseNode();
        if node.Err? {
          ChapterFails(Strict, start, items, before);
          r := Err(node.error);
          return;
        }
        BodyStep(Strict, before, node.value, Rest(), items);
        ChapterFoldSnoc(items, node.value, initial);
        // `@objective` and `@test` set the chapter's fields; nodes become its children.
        chapter := ChapterStep(chapter, node.value);
        items := items + [node.value];
        SkipNewlines();
        current := Current();
      }
      ChapterDone(Strict, start, items, Rest());
      if current.BlockEnd? {
        var _ := Advance();
      }
      r := Ok(chapter);
    }

    /** The top level of `parse`: chapters are parsed, anything else is skipped. */
    method ParseAll() returns (r: Result<seq<Chapter>, ParseError>)
      requires Valid() && pos == 0
      modifies this
      ensures r == Grammar.Parse(Strict, tokens)
    {
      var chapters: seq<Chapter> := [];
      SkipNewlines();
      var current := Current();
      while !current.Eof?
        invariant Valid() && current == Head(Rest())
        invariant Grammar.Parse(Strict, tokens) == TopLoop(Strict, Rest(), chapters)
        decreases |tokens| - pos
      {
        if IsChapterStart(current) {
          var chapter := ParseChapter();
          if chapter.Err? {
            return Err(chapter.error);
          }
          chapters := chapters + [chapter.value];
        } else {
          var _ := Advance();
        }
        SkipNewlines();
        current := Current();
      }
      r := Ok(chapters);
    }
  }

  /** `parse(tokens)`. */
  method Parse(tokens: seq<Token>) returns (r: Result<seq<Chapter>, ParseError>)
    ensures r == Grammar.Parse(Strict, tokens)
  {
    var parser := new Parser(tokens);
    r := parser.ParseAll();
  }

  /** `parseDSL(source)`: tokenize, then parse. */
  method ParseDSL(source: string) returns (r: Result<seq<Chapter>, ParseError>)
    ensures r == Grammar.ParseDSL(Strict, source)
  {
    var tokens := Tokenize(source);
    r := Parse(tokens);
  }
}
