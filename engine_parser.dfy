/**
 * The tokenizer and parser of lib/narrative-engine.js, the copy the deployed API uses. The
 * tokenizer collects all tag matches first (`matchAll`) where lib/dsl/parser.js runs an `exec`
 * loop; the parser has one block parser for every block name and never throws. Both are proved to
 * compute what `Lexer.Tokens` and the `Grammar` functions (dialect `Lenient`) say.
 */
module EngineParser {
  import opened Wrappers
  import opened Text
  import opened Seqs
  import opened Lexer
  import opened Ast
  import opened Grammar

  // ---------------------------------------------------------------------------------------------
  // Tokenizer
  // ---------------------------------------------------------------------------------------------

  /** `[...line.matchAll(tagPattern)]` from index `from`: each match starts where the last ended. */
  function TagMatches(s: string, from: nat): (ms: seq<TagMatch>)
    requires from <= |s|
    ensures forall k :: 0 <= k < |ms| ==> from <= ms[k].start < ms[k].end <= |s|
    decreases |s| - from
  {
    match FindTag(s, from)
    case None => []
    case Some(m) => [m] + TagMatches(s, m.end)
  }

  /** The first match is the one `exec` would find; the rest follow from where it ends. */
  lemma TagMatchesUnfold(s: string, from: nat)
    requires from <= |s|
    ensures var ms := TagMatches(s, from);
      && (ms == [] <==> FindTag(s, from).None?)
      && (ms != [] ==> ms[0] == FindTag(s, from).value && ms[1..] == TagMatches(s, ms[0].end))
  {
  }

  /** Consecutive matches do not overlap and come in order. */
  lemma {:induction false} TagMatchesOrdered(s: string, from: nat)
    requires from <= |s|
    ensures var ms := TagMatches(s, from);
      forall k :: 0 <= k < |ms| - 1 ==> ms[k].end <= ms[k + 1].start
    decreases |s| - from
  {
    match FindTag(s, from)
    case None =>
    case Some(m) =>
      TagMatchesOrdered(s, m.end);
      var ms := TagMatches(s, from);
      assert ms[1..] == TagMatches(s, m.end);
      forall k | 0 <= k < |ms| - 1
        ensures ms[k].end <= ms[k + 1].start
      {
        if k > 0 {
          assert ms[k] == ms[1..][k - 1] && ms[k + 1] == ms[1..][k];
        }
      }
  }

  /** The inline part of `tokenize`: a `for` loop over the collected tag matches. */
  method TokenizeTags(trimmed: string, lineNum: nat, tokens: seq<Token>) returns (out: seq<Token>)
    ensures out == tokens + TagTokens(trimmed, 0, lineNum)
  {
    var tagMatches := TagMatches(trimmed, 0);
    out := tokens;
    var lastIndex: nat := 0;
    for i := 0 to |tagMatches|
      invariant lastIndex <= |trimmed|
      invariant tagMatches[i..] == TagMatches(trimmed, lastIndex)
      invariant out + TagTokens(trimmed, lastIndex, lineNum) == tokens + TagTokens(trimmed, 0, lineNum)
    {
      var tag := tagMatches[i];
      TagMatchesUnfold(trimmed, lastIndex);
      assert tagMatches[i..][0] == tag && tagMatches[i..][1..] == tagMatches[i + 1..];
      TagTokensStep(trimmed, lastIndex, lineNum, tag);
      ghost var before := out;
      ghost var pre := if tag.start > lastIndex then TextToken(Trim(trimmed[lastIndex..tag.start]), lineNum) else [];
      ghost var rest := TagTokens(trimmed, tag.end, lineNum);
      AppendAssoc4(before, pre, [InlineTag(tag.name, AttrsOf(tag.attrText), lineNum)], rest);
      if tag.start > lastIndex {
        var text := Trim(trimmed[lastIndex..tag.start]);
        if text != "" {
          out := out + [Text(text, lineNum)];
        }
      }
      assert out == before + pre;
      var attrs := ParseAttrs(tag.attrText);
      out := out + [InlineTag(tag.name, attrs, lineNum)];
      lastIndex := tag.end;
    }
    TagMatchesUnfold(trimmed, lastIndex);
    if lastIndex < |trimmed| {
      var text := Trim(trimmed[lastIndex..]);
      if text != "" {
        out := out + [Text(text, lineNum)];
      }
    }
  }

  /** One iteration of the engine's `tokenize`: the same patterns, then the `matchAll` tag scan. */
  method TokenizeLineInto(line: string, lineNum: nat, tokens: seq<Token>) returns (out: seq<Token>)
    ensures out == tokens + LineTokens(line, lineNum)
  {
    var kind := ClassifyLine(Trim(line));
    match kind
    case Blank =>
      out := tokens + [Newline(lineNum)];
    case StartLine(name, attrText) =>
      var attrs := ParseAttrs(attrText);
      out := tokens + [BlockStart(name, attrs, lineNum)];
    case EndLine =>
      out := tokens + [BlockEnd(lineNum)];
    case DirectiveLine(name, attrText, value) =>
      var attrs := ParseAttrs(attrText);
      out := tokens + [Directive(name, attrs, value, lineNum)];
    case SpeakerTextLine(speaker, text) =>
      out := tokens + [Speaker(Lower(speaker), text, lineNum)];
    case Plain(text) =>
      out := TokenizeTags(text, lineNum, tokens);
  }

  /** `tokenize` of the engine copy: the same line patterns in the same order. */
  method Tokenize(source: string) returns (tokens: seq<Token>)
    ensures tokens == Tokens(source)
  {
    tokens := [];
    var lines := Split(source, '\n');
    for lineNum := 0 to |lines|
      invariant tokens == LinesTokens(lines, lineNum)
    {
      tokens := TokenizeLineInto(lines[lineNum], lineNum + 1, tokens);
    }
    tokens := tokens + [Eof];
  }

  // ---------------------------------------------------------------------------------------------
  // Parser
  // ---------------------------------------------------------------------------------------------

  /** A `:::name` block of the engine: the name decides what the body becomes, never whether it parses. */
  lemma ParseBlockUnfold(ts: seq<Token>)
    requires Head(ts).BlockStart?
    ensures Grammar.ParseBlock(Lenient, ts) == BlockBody(Lenient, ts[0], ts[1..])
  {
  }

  /** The closure-based parser of `parseDSL`, with `pos` as its one mutable variable. */
  class Parser {
    const tokens: seq<Token>
    var pos: nat

    constructor (tokens: seq<Token>)
      ensures this.tokens == tokens && pos == 0
    {
      this.tokens := tokens;
      pos := 0;
    }

    predicate Valid()
      reads this
    {
      pos <= |tokens|
    }

    function Rest(): seq<Token>
      reads this
      requires Valid()
    {
      tokens[pos..]
    }

    method Current() returns (t: Token)
      requires Valid()
      ensures t == Head(Rest())
    {
      t := if pos < |tokens| then tokens[pos] else Eof;
    }

    method Advance() returns (t: Token)
      requires Valid() && pos < |tokens|
      modifies this
      ensures Valid() && pos == old(pos) + 1
      ensures t == old(Head(Rest())) && Rest() == old(Rest())[1..]
    {
      t := tokens[pos];
      pos := pos + 1;
    }

    method SkipNewlines()
      requires Valid()
      modifies this
      ensures Valid() && old(pos) <= pos
      ensures Rest() == Grammar.SkipNewlines(old(Rest()))
    {
      while pos < |tokens| && tokens[pos].Newline?
        invariant old(pos) <= pos <= |tokens|
        invariant Grammar.SkipNewlines(Rest()) == Grammar.SkipNewlines(old(Rest()))
        decreases |tokens| - pos
      {
        pos := pos + 1;
      }
    }

    /** `parseNode()`: `null` (here `NoItem`) on a closer. */
    method ParseNode() returns (item: Item)
      requires Valid()
      modifies this
      ensures Valid() && old(pos) <= pos
      ensures Grammar.ParseNode(Lenient, old(Rest())) == Ok((item, Rest()))
      decreases |tokens| - pos, 2
    {
      ParseNodeCases(Lenient, Rest());
      SkipNewlines();
      var token := Current();
      match token
      case BlockStart(_, _, _) =>
        item := ParseBlock();
      case Directive(name, attrs, value, _) =>
        var _ := Advance();
        item := DirectiveItem(name, attrs, value);
      case Speaker(speaker, text, line) =>
        var _ := Advance();
        item := NodeItem(SpeakerLine(speaker, text, line));
      case InlineTag(_, _, _) =>
        var node := ParseInlineTag();
        item := NodeItem(node);
      case Text(value, line) =>
        var _ := Advance();
        item := NodeItem(TextNode(value, line));
      case _ =>
        item := NoItem;
    }

    /**
     * `parseBlock()`: the block takes the name as its type; a prompt distributes its body, any
     * other block keeps its non-directive nodes as children.
     */
    method ParseBlock() returns (item: Item)
      requires Valid() && Head(Rest()).BlockStart?
      modifies this
      ensures Valid() && old(pos) < pos
      ensures Grammar.ParseBlock(Lenient, old(Rest())) == Ok((item, Rest()))
      decreases |tokens| - pos, 1
    {
      ParseBlockUnfold(Rest());
      var token := Advance();
      ghost var start := Rest();
      var id := Attr(token.attrs, "id");
      var isPrompt := token.name == "prompt";
      var prompt := EmptyPrompt(id, token.line);
      ghost var initial := prompt;
      var children: seq<Node> := [];
      SkipNewlines();
      ghost var items: seq<Item> := [];
      PrependNothing(BodyItems(Lenient, Rest()));
      var current := Current();
      while !Closer(current)
        invariant Valid() && old(pos) < pos
        invariant current == Head(Rest())
        invariant isPrompt ==> prompt == Distribute(items, initial)
        invariant !isPrompt ==> children == Children(items)
        invariant BodyItems(Lenient, Grammar.SkipNewlines(start)) == Prepend(items, BodyItems(Lenient, Rest()))
        decreases |tokens| - pos
      {
        ghost var before := Rest();
        var node := ParseNode();
        BodyStep(Lenient, before, node, Rest(), items);
        if isPrompt {
          DistributeSnoc(items, node, initial);
          prompt := PromptStep(prompt, node);
        } else {
          ChildrenSnoc(items, node);
          if node.NodeItem? {
            children := children + [node.node];
          }
        }
        items := items + [node];
        SkipNewlines();
        current := Current();
      }
      ghost var closer := Rest();
      BlockBodyDone(Lenient, token, start, items, closer);
      if isPrompt {
        item := NodeItem(prompt);
      } else if token.name == "response" {
        item := NodeItem(Response(id, Attr(token.attrs, "match"), PathOf(token.attrs), children, token.line));
      } else if token.name == "beat" {
        item := NodeItem(Beat(id, children, token.line));
      } else if token.name == "checkpoint" {
        item := NodeItem(Checkpoint(id, children, token.line));
      } else if token.name == "directive" {
        item := NoItem;
      } else {
        item := NodeItem(Block(token.name, id, children, token.line));
      }
      assert item == BlockItem(Lenient, token, items);
      if current.BlockEnd? {
        var _ := Advance();
      }
      assert Rest() == CloseBlock(closer);
    }

    /** `parseInlineTag()`: no `metric` tag in this copy. */
    method ParseInlineTag() returns (node: Node)
      requires Valid() && Head(Rest()).InlineTag?
      modifies this
      ensures Valid() && pos == old(pos) + 1
      ensures var t := old(Head(Rest())); node == TagNode(Lenient, t.name, t.attrs, t.line)
    {
      var token := Advance();
      match token.name
      case "pause" => node := Pause(token.line);
      case "glitch" => node := Glitch(token.line);
      case "correction-pressure" =>
        node := Metric(Some(token.name), None, Attr(token.attrs, "delta"), token.line);
      case "signal-coherence" =>
        node := Metric(Some(token.name), None, Attr(token.attrs, "delta"), token.line);
      case "transition" => node := Transition(Attr(token.attrs, "to"), token.line);
      case "sfx" => node := Sfx(Attr(token.attrs, "name"), token.line);
      case _ => node := InlineTagNode(token.name, token.attrs, token.line);
    }

    /** `parseChapter()`. */
    method ParseChapter() returns (chapter: Chapter)
      requires Valid() && IsChapterStart(Head(Rest()))
      modifies this
      ensures Valid() && old(pos) < pos
      ensures Grammar.ParseChapter(Lenient, old(Rest())) == Ok((chapter, Rest()))
    {
      ghost var start := Rest();
      var token := Advance();
      chapter := Chapter(Attr(token.attrs, "id"), Attr(token.attrs, "title"), None, None, [], token.line);
      ghost var initial := chapter;
      SkipNewlines();
      ghost var items: seq<Item> := [];
      PrependNothing(BodyItems(Lenient, Rest()));
      var current := Current();
      while !Closer(current)
        invariant Valid() && old(pos) < pos
        invariant current == Head(Rest())
        invariant chapter == ChapterFold(items, initial)
        invariant BodyItems(Lenient, Grammar.SkipNewlines(start[1..])) == Prepend(items, BodyItems(Lenient, Rest()))
        decreases |tokens| - pos
      {
        ghost var before := Rest();
        var node := ParseNode();
        BodyStep(Lenient, before, node, Rest(), items);
        ChapterFoldSnoc(items, node, initial);
        chapter := ChapterStep(chapter, node);
        items := items + [node];
        SkipNewlines();
        current := Current();
      }
      ChapterDone(Lenient, start, items, Rest());
      if current.BlockEnd? {
        var _ := Advance();
      }
    }

    /** The top-level loop of `parseDSL`. */
    method ParseAll() returns (chapters: seq<Chapter>)
      requires Valid() && pos == 0
      modifies this
      ensures Grammar.Parse(Lenient, tokens) == Ok(chapters)
    {
      chapters := [];
      SkipNewlines();
      var current := Current();
      while !current.Eof?
        invariant Valid() && current == Head(Rest())
        invariant Grammar.Parse(Lenient, tokens) == TopLoop(Lenient, Rest(), chapters)
        decreases |tokens| - pos
      {
        if IsChapterStart(current) {
          var chapter := ParseChapter();
          chapters := chapters + [chapter];
        } else {
          var _ := Advance();
        }
        SkipNewlines();
        current := Current();
      }
    }
  }

  /** `parseDSL(source)` of the engine copy: it never fails. */
  method ParseDSL(source: string) returns (chapters: seq<Chapter>)
    ensures Grammar.ParseDSL(Lenient, source) == Ok(chapters)
  {
    var tokens := Tokenize(source);
    var parser := new Parser(tokens);
    chapters := parser.ParseAll();
  }
}
