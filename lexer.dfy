/**
 * The line-oriented lexer of lib/dsl/parser.js (`tokenize`, `tokenizeLine`, `parseAttrs`).
 * Every regular expression of the source is written out as a deterministic scanner that returns
 * the same (leftmost, greedy) match the JavaScript engine finds.
 */
module Lexer {
  import opened Wrappers
  import opened Text
  import opened Seqs

  /** An attribute map such as `{id: "x", path: "y"}`. */
  type Attrs = map<string, string>

  datatype Token =
    | BlockStart(name: string, attrs: Attrs, line: nat)
    | BlockEnd(line: nat)
    | Directive(name: string, attrs: Attrs, value: string, line: nat)
    | InlineTag(name: string, attrs: Attrs, line: nat)
    | Text(value: string, line: nat)
    | Speaker(speaker: string, text: string, line: nat)
    | Newline(line: nat)
    | Eof

  // ---------------------------------------------------------------------------------------------
  // Attribute strings: /(\w+)=["']([^"']*)["']/g
  // ---------------------------------------------------------------------------------------------

  datatype AttrMatch = AttrMatch(key: string, value: string, start: nat, end: nat)

  predicate IsQuote(c: char) { c == '"' || c == '\'' }

  /** First quote character at or after `i`, or -1. */
  function QuoteIndex(s: string, i: nat): (r: int)
    requires i <= |s|
    ensures r == -1 || (i <= r < |s| && IsQuote(s[r]))
    ensures forall k :: i <= k < (if r == -1 then |s| else r) ==> !IsQuote(s[k])
    decreases |s| - i
  {
    if i == |s| then -1 else if IsQuote(s[i]) then i else QuoteIndex(s, i + 1)
  }

  /** The attribute pattern tried at index `i`. */
  function AttrAt(s: string, i: nat): (r: Option<AttrMatch>)
    requires i <= |s|
    ensures r.Some? ==> r.value.start == i && i < r.value.end <= |s|
  {
    if i < |s| && IsWordChar(s[i]) then
      var j := WordEnd(s, i);
      if j + 1 < |s| && s[j] == '=' && IsQuote(s[j + 1]) then
        var k := QuoteIndex(s, j + 2);
        if k != -1 then Some(AttrMatch(s[i..j], s[j + 2..k], i, k + 1)) else None
      else None
    else None
  }

  /** `pattern.exec(s)` with `lastIndex == from`: the leftmost match at or after `from`. */
  function FindAttr(s: string, from: nat): (r: Option<AttrMatch>)
    requires from <= |s|
    ensures r.Some? ==> from <= r.value.start < r.value.end <= |s|
    decreases |s| - from
  {
    if AttrAt(s, from).Some? then AttrAt(s, from)
    else if from == |s| then None
    else FindAttr(s, from + 1)
  }

  /** The match found is the leftmost one: the pattern matches at no earlier index. */
  lemma {:induction false} FindAttrLeftmost(s: string, from: nat)
    requires from <= |s|
    ensures var r := FindAttr(s, from);
      && (r.Some? ==> AttrAt(s, r.value.start) == r)
      && forall i :: from <= i <= |s| && (r.None? || i < r.value.start) ==> AttrAt(s, i).None?
    decreases |s| - from
  {
    if AttrAt(s, from).None? && from < |s| {
      FindAttrLeftmost(s, from + 1);
    }
  }

  /** All matches of the global attribute pattern, left to right. */
  function AttrMatches(s: string, from: nat): (ms: seq<AttrMatch>)
    requires from <= |s|
    decreases |s| - from
  {
    match FindAttr(s, from)
    case None => []
    case Some(m) => [m] + AttrMatches(s, m.end)
  }

  /** Assigns the matches in order, so that a later match of a key overwrites an earlier one. */
  function Assign(acc: Attrs, ms: seq<AttrMatch>): Attrs
    decreases |ms|
  {
    if ms == [] then acc else Assign(acc[ms[0].key := ms[0].value], ms[1..])
  }

  /** What `parseAttrs(s)` returns. */
  function AttrsOf(s: string): Attrs {
    Assign(map[], AttrMatches(s, 0))
  }

  function Get(attrs: Attrs, key: string): Option<string> {
    if key in attrs then Some(attrs[key]) else None
  }

  /** Index of the last match with key `k`, or -1. */
  function LastWith(ms: seq<AttrMatch>, k: string): (r: int)
    ensures r == -1 || (0 <= r < |ms| && ms[r].key == k)
    ensures forall j :: r < j < |ms| && 0 <= j ==> ms[j].key != k
  {
    if ms == [] then -1
    else
      var r := LastWith(ms[1..], k);
      if r != -1 then r + 1 else if ms[0].key == k then 0 else -1
  }

  /** A repeated key keeps the value of its last occurrence; absent keys keep what `acc` had. */
  lemma {:induction false} AssignLastWins(acc: Attrs, ms: seq<AttrMatch>, k: string)
    ensures Get(Assign(acc, ms), k)
         == if LastWith(ms, k) == -1 then Get(acc, k) else Some(ms[LastWith(ms, k)].value)
    decreases |ms|
  {
    if ms != [] {
      AssignLastWins(acc[ms[0].key := ms[0].value], ms[1..], k);
    }
  }

  /** `parseAttrs`: the key set is exactly the matched keys, and each key maps to its last value. */
  lemma AttrsOfLastWins(s: string, k: string)
    ensures var ms := AttrMatches(s, 0);
      Get(AttrsOf(s), k) == if LastWith(ms, k) == -1 then None else Some(ms[LastWith(ms, k)].value)
  {
    AssignLastWins(map[], AttrMatches(s, 0), k);
  }

  /** An empty attribute string (also what a missing `{...}` becomes) yields the empty map. */
  lemma AttrsOfEmpty()
    ensures AttrsOf("") == map[]
  {
    assert AttrAt("", 0).None?;
  }

  /** `parseAttrs`: the loop over `pattern.exec`. */
  method ParseAttrs(attrString: string) returns (attrs: Attrs)
    ensures attrs == AttrsOf(attrString)
  {
    attrs := map[];
    if attrString == "" {
      AttrsOfEmpty();
      return;
    }
    var lastIndex := 0;
    while true
      invariant lastIndex <= |attrString|
      invariant Assign(attrs, AttrMatches(attrString, lastIndex)) == AttrsOf(attrString)
      decreases |attrString| - lastIndex
    {
      var m := FindAttr(attrString, lastIndex);
      if m.None? {
        return;
      }
      attrs := attrs[m.value.key := m.value.value];
      lastIndex := m.value.end;
    }
  }

  // ---------------------------------------------------------------------------------------------
  // Whole-line patterns, tried on the trimmed line
  // ---------------------------------------------------------------------------------------------

  /** /^:::(\w+)(?:\{([^}]*)\})?$/ giving the name and the attribute text ('' when absent). */
  function MatchBlockStart(t: string): Option<(string, string)> {
    if |t| > 3 && t[0] == ':' && t[1] == ':' && t[2] == ':' && IsWordChar(t[3]) then
      var j := WordEnd(t, 3);
      if j == |t| then Some((t[3..j], ""))
      else if t[j] == '{' && j + 1 < |t| && IndexOf(t, '}', j + 1) == |t| - 1 then
        Some((t[3..j], t[j + 1..|t| - 1]))
      else None
    else None
  }

  /** The text matched by `\s*(.*)$`: what follows the leading white space, if it holds no line break. */
  function RestOfLine(s: string): Option<string> {
    var v := TrimStart(s);
    if NoLineTerminator(v) then Some(v) else None
  }

  /**
   * The part of /^@(\w+)(?:\{([^}]*)\})?:/ before the value: name, attribute text and the index of
   * the ':'.
   */
  function DirectiveHead(t: string): Option<(string, string, nat)> {
    if |t| > 1 && t[0] == '@' && IsWordChar(t[1]) then
      var j := WordEnd(t, 1);
      if j < |t| && t[j] == '{' then
        var c := IndexOf(t, '}', j + 1);
        if c != -1 && c + 1 < |t| && t[c + 1] == ':' then Some((t[1..j], t[j + 1..c], c + 1)) else None
      else if j < |t| && t[j] == ':' then Some((t[1..j], "", j))
      else None
    else None
  }

  /** /^@(\w+)(?:\{([^}]*)\})?:\s*(.*)$/ giving name, attribute text and value. */
  function MatchDirective(t: string): Option<(string, string, string)> {
    match DirectiveHead(t)
    case None => None
    case Some((name, attrText, k)) =>
      if k < |t| then
        match RestOfLine(t[k + 1..])
        case Some(v) => Some((name, attrText, v))
        case None => None
      else None
  }

  /** /^\*\*(\w+):\*\*\s*(.*)$/ giving speaker and text. */
  function MatchSpeaker(t: string): Option<(string, string)> {
    if |t| > 2 && t[0] == '*' && t[1] == '*' && IsWordChar(t[2]) then
      var j := WordEnd(t, 2);
      if j + 3 <= |t| && t[j] == ':' && t[j + 1] == '*' && t[j + 2] == '*' then
        match RestOfLine(t[j + 3..])
        case Some(v) => Some((t[2..j], v))
        case None => None
      else None
    else None
  }

  // ---------------------------------------------------------------------------------------------
  // Inline tags: /<(\w+[-\w]*)(?:\s+([^/>]*))?\s*\/?>/g
  // ---------------------------------------------------------------------------------------------

  datatype TagMatch = TagMatch(name: string, attrText: string, start: nat, end: nat)

  predicate IsTagNameChar(c: char) { IsWordChar(c) || c == '-' }

  function TagNameEnd(s: string, i: nat): (j: nat)
    requires i <= |s|
    ensures i <= j <= |s| && (j < |s| ==> !IsTagNameChar(s[j]))
    decreases |s| - i
  {
    if i < |s| && IsTagNameChar(s[i]) then TagNameEnd(s, i + 1) else i
  }

  function SpaceEnd(s: string, i: nat): (j: nat)
    requires i <= |s|
    ensures i <= j <= |s| && (j < |s| ==> !IsSpace(s[j]))
    ensures forall k :: i <= k < j ==> IsSpace(s[k])
    decreases |s| - i
  {
    if i < |s| && IsSpace(s[i]) then SpaceEnd(s, i + 1) else i
  }

  /** First '/' or '>' at or after `i`, or -1. */
  function CloserIndex(s: string, i: nat): (r: int)
    requires i <= |s|
    ensures r == -1 || (i <= r < |s| && (s[r] == '/' || s[r] == '>'))
    ensures forall k :: i <= k < (if r == -1 then |s| else r) ==> s[k] != '/' && s[k] != '>'
    decreases |s| - i
  {
    if i == |s| then -1 else if s[i] == '/' || s[i] == '>' then i else CloserIndex(s, i + 1)
  }

  /** The end of `\/?>` at `q`, or -1 when it does not match there. */
  function CloseAt(s: string, q: nat): (e: int)
    requires q <= |s|
    ensures e == -1 || q < e <= |s|
  {
    if q < |s| && s[q] == '>' then q + 1
    else if q + 1 < |s| && s[q] == '/' && s[q + 1] == '>' then q + 2
    else -1
  }

  /** The tag pattern tried at index `i`. */
  function TagAt(s: string, i: nat): (r: Option<TagMatch>)
    requires i <= |s|
    ensures r.Some? ==> r.value.start == i && i < r.value.end <= |s|
  {
    if i + 1 < |s| && s[i] == '<' && IsWordChar(s[i + 1]) then
      var p := TagNameEnd(s, i + 1);
      var name := s[i + 1..p];
      if p < |s| && IsSpace(s[p]) then
        var q := CloserIndex(s, p);
        if q == -1 then None
        else
          var w := SpaceEnd(s, p);
          assert w <= q;
          var e := CloseAt(s, q);
          if e == -1 then None else Some(TagMatch(name, s[w..q], i, e))
      else
        var e := CloseAt(s, p);
        if e == -1 then None else Some(TagMatch(name, "", i, e))
    else None
  }

  /** `tagPattern.exec(line)` with `lastIndex == from`. */
  function FindTag(s: string, from: nat): (r: Option<TagMatch>)
    requires from <= |s|
    ensures r.Some? ==> from <= r.value.start < r.value.end <= |s|
    decreases |s| - from
  {
    if TagAt(s, from).Some? then TagAt(s, from)
    else if from == |s| then None
    else FindTag(s, from + 1)
  }

  /** The tag found is the leftmost one: the pattern matches at no earlier index. */
  lemma {:induction false} FindTagLeftmost(s: string, from: nat)
    requires from <= |s|
    ensures var r := FindTag(s, from);
      && (r.Some? ==> TagAt(s, r.value.start) == r)
      && forall i :: from <= i <= |s| && (r.None? || i < r.value.start) ==> TagAt(s, i).None?
    decreases |s| - from
  {
    if TagAt(s, from).None? && from < |s| {
      FindTagLeftmost(s, from + 1);
    }
  }

  /** A TEXT token for a trimmed slice, or nothing when the slice is blank. */
  function TextToken(text: string, line: nat): seq<Token> {
    if text == "" then [] else [Text(text, line)]
  }

  /** What `tokenizeLine(line, lineNum, tokens)` pushes, starting at `lastIndex == from`. */
  function TagTokens(s: string, from: nat, line: nat): seq<Token>
    requires from <= |s|
    decreases |s| - from
  {
    match FindTag(s, from)
    case None =>
      if from < |s| then TextToken(Trim(s[from..]), line) else []
    case Some(m) =>
      (if m.start > from then TextToken(Trim(s[from..m.start]), line) else [])
      + [InlineTag(m.name, AttrsOf(m.attrText), line)]
      + TagTokens(s, m.end, line)
  }

  /** One step of the `exec` loop: the text before the next tag, the tag, then the rest. */
  lemma TagTokensStep(s: string, from: nat, line: nat, m: TagMatch)
    requires from <= |s| && FindTag(s, from) == Some(m)
    ensures TagTokens(s, from, line)
         == (if m.start > from then TextToken(Trim(s[from..m.start]), line) else [])
            + [InlineTag(m.name, AttrsOf(m.attrText), line)] + TagTokens(s, m.end, line)
  {
  }

  /** `tokenizeLine`: the `exec` loop that appends text and tag tokens in encounter order. */
  method TokenizeLine(line: string, lineNum: nat, tokens: seq<Token>) returns (out: seq<Token>)
    ensures out == tokens + TagTokens(line, 0, lineNum)
  {
    out := tokens;
    var lastIndex := 0;
    while true
      invariant lastIndex <= |line|
      invariant out + TagTokens(line, lastIndex, lineNum) == tokens + TagTokens(line, 0, lineNum)
      decreases |line| - lastIndex
    {
      var m := FindTag(line, lastIndex);
      if m.None? {
        break;
      }
      var tag := m.value;
      TagTokensStep(line, lastIndex, lineNum, tag);
      ghost var before := out;
      ghost var pre := if tag.start > lastIndex then TextToken(Trim(line[lastIndex..tag.start]), lineNum) else [];
      ghost var rest := TagTokens(line, tag.end, lineNum);
      AppendAssoc4(before, pre, [InlineTag(tag.name, AttrsOf(tag.attrText), lineNum)], rest);
      if tag.start > lastIndex {
        var text := Trim(line[lastIndex..tag.start]);
        if text != "" {
          out := out + [Text(text, lineNum)];
        }
      }
      assert out == before + pre;
      var attrs := ParseAttrs(tag.attrText);
      out := out + [InlineTag(tag.name, attrs, lineNum)];
      lastIndex := tag.end;
    }
    if lastIndex < |line| {
      var text := Trim(line[lastIndex..]);
      if text != "" {
        out := out + [Text(text, lineNum)];
      }
    }
  }

  // ---------------------------------------------------------------------------------------------
  // Lines and whole sources
  // ---------------------------------------------------------------------------------------------

  /** Which of the line patterns a trimmed line matches, tried in the order `tokenize` tries them. */
  datatype LineKind =
    | Blank
    | StartLine(name: string, attrText: string)
    | EndLine
    | DirectiveLine(name: string, attrText: string, value: string)
    | SpeakerTextLine(speaker: string, text: string)
    | Plain(text: string)

  function Classify(t: string): (k: LineKind)
    ensures k.Blank? <==> t == ""
    ensures k.Plain? ==> k.text == t
  {
    if t == "" then Blank
    else match MatchBlockStart(t)
      case Some((name, attrText)) => StartLine(name, attrText)
      case None =>
        if t == ":::" then EndLine
        else match MatchDirective(t)
          case Some((name, attrText, value)) => DirectiveLine(name, attrText, value)
          case None =>
            match MatchSpeaker(t)
            case Some((speaker, text)) => SpeakerTextLine(speaker, text)
            case None => Plain(t)
  }

  function KindTokens(k: LineKind, lineNum: nat): seq<Token> {
    match k
    case Blank => [Newline(lineNum)]
    case StartLine(name, attrText) => [BlockStart(name, AttrsOf(attrText), lineNum)]
    case EndLine => [BlockEnd(lineNum)]
    case DirectiveLine(name, attrText, value) => [Directive(name, AttrsOf(attrText), value, lineNum)]
    case SpeakerTextLine(speaker, text) => [Speaker(Lower(speaker), text, lineNum)]
    case Plain(t) => TagTokens(t, 0, lineNum)
  }

  /** The tokens one physical line contributes (`lineNum` is 1-based). */
  function LineTokens(line: string, lineNum: nat): seq<Token> {
    KindTokens(Classify(Trim(line)), lineNum)
  }

  /** The line patterns of `tokenize`, tried in order on the trimmed line; the first that matches wins. */
  method ClassifyLine(trimmed: string) returns (kind: LineKind)
    ensures kind == Classify(trimmed)
  {
    if trimmed == "" {
      return Blank;
    }
    var blockStart := MatchBlockStart(trimmed);
    if blockStart.Some? {
      return StartLine(blockStart.value.0, blockStart.value.1);
    }
    if trimmed == ":::" {
      return EndLine;
    }
    var directive := MatchDirective(trimmed);
    if directive.Some? {
      return DirectiveLine(directive.value.0, directive.value.1, directive.value.2);
    }
    var speaker := MatchSpeaker(trimmed);
    if speaker.Some? {
      return SpeakerTextLine(speaker.value.0, speaker.value.1);
    }
    return Plain(trimmed);
  }

  /** The tokens of the first `k` lines, in order; line `k` of the source has index `k - 1`. */
  function LinesTokens(lines: seq<string>, k: nat): (ts: seq<Token>)
    requires k <= |lines|
    ensures |ts| >= k && Numbered(ts, k)
  {
    if k == 0 then [] else
    var prev, last := LinesTokens(lines, k - 1), LineTokens(lines[k - 1], k);
    LineNumbered(lines[k - 1], k);
    NumberedSnoc(prev, last, k);
    prev + last
  }

  /** What `tokenize(source)` returns: the lines' tokens in order, then EOF. */
  function Tokens(source: string): seq<Token> {
    var lines := Split(source, '\n');
    LinesTokens(lines, |lines|) + [Eof]
  }

  /** One iteration of `tokenize`: the tokens of line `lineNum`, by the pattern its trimmed text matches. */
  method TokenizeLineInto(line: string, lineNum: nat, tokens: seq<Token>) returns (out: seq<Token>)
    ensures out == tokens + LineTokens(line, lineNum)
  {
    var kind := ClassifyLine(Trim(line));
    match kind
    case Blank =>
      out := tokens + [Newline(lineNum)];
    case StartLine(name, attrText) =>
      var attrs := ParseAttrs(attrText);
      out := tokens + [BlockStart(name, attrs, lineNum)];
    case EndLine =>
      out := tokens + [BlockEnd(lineNum)];
    case DirectiveLine(name, attrText, value) =>
      var attrs := ParseAttrs(attrText);
      out := tokens + [Directive(name, attrs, value, lineNum)];
    case SpeakerTextLine(speaker, text) =>
      out := tokens + [Speaker(Lower(speaker), text, lineNum)];
    case Plain(text) =>
      out := TokenizeLine(text, lineNum, tokens);
  }

  /** `tokenize`: classifies each line in the fixed order and pushes its tokens. */
  method Tokenize(source: string) returns (tokens: seq<Token>)
    ensures tokens == Tokens(source)
  {
    tokens := [];
    var lines := Split(source, '\n');
    for lineNum := 0 to |lines|
      invariant tokens == LinesTokens(lines, lineNum)
    {
      tokens := TokenizeLineInto(lines[lineNum], lineNum + 1, tokens);
    }
    tokens := tokens + [Eof];
  }

  // ---------------------------------------------------------------------------------------------
  // Properties of the token stream
  // ---------------------------------------------------------------------------------------------

  /** A string as `trim` leaves it: non-empty, no white space at either end. */
  predicate Trimmed(v: string) {
    v != [] && !IsSpace(v[0]) && !IsSpace(v[|v| - 1])
  }

  /** A token that line `n` can produce: it carries `n`, and TEXT carries a trimmed, non-empty value. */
  predicate FromLine(t: Token, n: nat) {
    !t.Eof? && t.line == n && (t.Text? ==> Trimmed(t.value))
  }

  lemma TextTokenFromLine(text: string, n: nat)
    requires text == "" || Trimmed(text)
    ensures forall t :: t in TextToken(text, n) ==> FromLine(t, n) && t.Text?
  {
  }

  lemma TrimOfTrimmed(v: string)
    requires Trimmed(v)
    ensures Trim(v) == v
  {
    assert TrimStart(v) == v;
    assert TrimEnd(v) == v;
  }

  /** The tag scanner emits only TEXT and INLINE_TAG tokens of the line it is given. */
  lemma {:induction false} TagTokensFromLine(s: string, from: nat, n: nat)
    requires from <= |s|
    ensures forall t :: t in TagTokens(s, from, n) ==> FromLine(t, n) && (t.Text? || t.InlineTag?)
    decreases |s| - from
  {
    match FindTag(s, from)
    case None =>
      if from < |s| {
        TextTokenFromLine(Trim(s[from..]), n);
      }
    case Some(m) =>
      if m.start > from {
        TextTokenFromLine(Trim(s[from..m.start]), n);
      }
      TagTokensFromLine(s, m.end, n);
  }

  /** A trimmed, non-empty line always yields at least one token from the tag scanner. */
  lemma TagTokensNonEmpty(t: string, n: nat)
    requires Trimmed(t)
    ensures TagTokens(t, 0, n) != []
  {
    if FindTag(t, 0).None? {
      TrimOfTrimmed(t);
    }
  }

  /**
   * The tokens of one line: at least one, all from line `n`; a NEWLINE token alone exactly when the
   * line is blank, and no NEWLINE token otherwise.
   */
  predicate LineShape(ts: seq<Token>, blank: bool, n: nat) {
    && ts != []
    && (blank <==> ts == [Newline(n)])
    && (forall t :: t in ts ==> FromLine(t, n))
    && (!blank ==> forall t :: t in ts ==> !t.Newline?)
  }

  lemma PlainShape(t: string, n: nat)
    requires Trimmed(t)
    ensures LineShape(TagTokens(t, 0, n), false, n)
  {
    var ts := TagTokens(t, 0, n);
    TagTokensFromLine(t, 0, n);
    TagTokensNonEmpty(t, n);
    assert ts[0] in ts && !ts[0].Newline?;
    assert ts != [Newline(n)];
  }

  lemma PatternShape(k: LineKind, n: nat)
    requires !k.Plain?
    ensures LineShape(KindTokens(k, n), k.Blank?, n)
  {
  }

  /** The tokens of a classified line: the pattern tokens, or the tag scanner's tokens of a trimmed text. */
  lemma KindShape(k: LineKind, n: nat)
    requires k.Plain? ==> Trimmed(k.text)
    ensures LineShape(KindTokens(k, n), k.Blank?, n)
  {
    if k.Plain? {
      PlainShape(k.text, n);
    } else {
      PatternShape(k, n);
    }
  }

  /** Each line yields at least one token carrying its number; NEWLINE exactly for blank lines. */
  lemma LineTokensShape(line: string, n: nat)
    ensures LineShape(LineTokens(line, n), Trim(line) == "", n)
  {
    var t := Trim(line);
    var k := Classify(t);
    assert k.Plain? ==> Trimmed(t);
    KindShape(k, n);
  }

  /** Tokens numbered `1..k`, none of them EOF, in non-decreasing line order. */
  predicate OnLine(ts: seq<Token>, k: nat) {
    forall t :: t in ts ==> !t.Eof? && t.line == k
  }

  predicate Numbered(ts: seq<Token>, k: nat) {
    && (forall i :: 0 <= i < |ts| ==> !ts[i].Eof? && 1 <= ts[i].line <= k)
    && (forall i, j :: 0 <= i <= j < |ts| ==> ts[i].line <= ts[j].line)
  }

  /** Appending the tokens of line `k` to tokens numbered `1..k - 1` keeps them numbered. */
  lemma NumberedSnoc(prev: seq<Token>, last: seq<Token>, k: nat)
    requires k >= 1 && Numbered(prev, k - 1)
    requires OnLine(last, k)
    ensures Numbered(prev + last, k)
  {
    var ts := prev + last;
    forall i | |prev| <= i < |ts|
      ensures ts[i] in last
    {
      assert ts[i] == last[i - |prev|];
    }
  }

  /** What `tokenize` promises of its output, for a source of `k` lines. */
  predicate TokenStream(ts: seq<Token>, k: nat) {
    && |ts| >= k + 1
    && ts[|ts| - 1] == Eof
    && (forall i :: 0 <= i < |ts| - 1 ==> !ts[i].Eof? && 1 <= ts[i].line <= k)
    && (forall i, j :: 0 <= i <= j < |ts| - 1 ==> ts[i].line <= ts[j].line)
  }

  lemma NumberedEof(body: seq<Token>, k: nat)
    requires |body| >= k && Numbered(body, k)
    ensures TokenStream(body + [Eof], k)
  {
    var ts := body + [Eof];
    assert forall i :: 0 <= i < |ts| - 1 ==> ts[i] == body[i];
  }

  /**
   * `tokenize` ends with the single EOF token; every other token carries a line number of the
   * source, and the line numbers never decrease.
   */
  lemma TokensShape(source: string)
    ensures TokenStream(Tokens(source), |Split(source, '\n')|)
  {
    var lines := Split(source, '\n');
    NumberedEof(LinesTokens(lines, |lines|), |lines|);
  }

  lemma LineNumbered(line: string, n: nat)
    ensures LineTokens(line, n) != [] && OnLine(LineTokens(line, n), n)
  {
    LineTokensShape(line, n);
  }
}
