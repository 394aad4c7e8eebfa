/**
 * The string logic of the input evaluator: the prompt the classifier model is sent
 * (`buildEvaluationPrompt`), the reading of its reply (`parseEvaluationResult` in
 * lib/dsl/evaluator.js and the reply parser inside `createEvaluator` of lib/narrative-engine.js),
 * and the marker-driven mock evaluator. The model call itself is not part of this model: its
 * reply text is a parameter.
 */
module Evaluator {
  import opened Wrappers
  import opened Text
  import opened Ast
  import opened Values
  import opened Session
  import opened Seqs

  // ---------------------------------------------------------------------------------------------
  // The prompt sent to the classifier
  // ---------------------------------------------------------------------------------------------

  predicate IsEntityLine(n: Node) {
    n.SpeakerLine? && n.speaker == "entity"
  }

  /** `question.filter(n => n.type === 'speaker_line' && n.speaker === 'entity').map(n => n.text)`. */
  function EntityLines(ns: seq<Node>): (ls: seq<string>)
    ensures |ls| <= |ns|
    ensures forall i :: 0 <= i < |ns| && IsEntityLine(ns[i]) ==> ns[i].text in ls
    ensures forall t :: t in ls ==> exists i :: 0 <= i < |ns| && IsEntityLine(ns[i]) && ns[i].text == t
  {
    if ns == [] then []
    else
      var rest := EntityLines(ns[1..]);
      assert forall i :: 1 <= i < |ns| ==> ns[i] == ns[1..][i - 1];
      (if IsEntityLine(ns[0]) then [ns[0].text] else []) + rest
  }

  /** The question as the classifier sees it: the entity's lines joined by spaces. */
  function QuestionText(ns: seq<Node>): string {
    Join(EntityLines(ns), " ")
  }

  /** The joined question is empty only for no entity line, or a single empty one. */
  lemma QuestionTextEmpty(ns: seq<Node>)
    ensures QuestionText(ns) == "" <==> EntityLines(ns) == [] || EntityLines(ns) == [""]
  {
    var ls := EntityLines(ns);
    if |ls| >= 2 {
      assert |Join(ls, " ")| >= 1;
    }
  }

  /** One criterion line: `IDEAL:path - c` for an ideal with a path, else `TAG - c`. */
  function CriterionLine(tag: string, c: Criterion): string {
    if tag == "IDEAL" && Present(c.path) then "IDEAL:" + c.path.value + " - " + c.criteria + "\n"
    else tag + " - " + c.criteria + "\n"
  }

  /** The lines of one `for` loop over `prompt.ideals`, `prompt.nears` or `prompt.fails`. */
  function CriteriaLines(tag: string, cs: seq<Criterion>): string
    decreases |cs|
  {
    if cs == [] then "" else CriteriaLines(tag, cs[..|cs| - 1]) + CriterionLine(tag, cs[|cs| - 1])
  }

  function VariableLine(e: (string, string)): string {
    "- " + e.0 + ": " + e.1 + "\n"
  }

  /** The lines of the loop over `Object.entries(state.variables)`. */
  function VariableLines(vars: Vars): string
    decreases |vars|
  {
    if vars == [] then "" else VariableLines(vars[..|vars| - 1]) + VariableLine(vars[|vars| - 1])
  }

  function ContextPart(p: PromptNode): string {
    if Present(p.context) then "Context: " + p.context.value + "\n\n" else ""
  }

  function QuestionPart(p: PromptNode): string {
    var q := QuestionText(p.question);
    if q != "" then "The Entity asked: \"" + q + "\"\n\n" else ""
  }

  /** Everything up to the criteria. */
  function PromptHead(p: PromptNode): string {
    ContextPart(p) + QuestionPart(p) + "Classification criteria:\n\n"
  }

  function VariablesHeader(vars: Vars): string {
    if |vars| > 0 then "\nPrevious information gathered:\n" else ""
  }

  /** `buildEvaluationPrompt(input, prompt, state)` with `state.variables == vars`. */
  function EvaluationPrompt(input: string, p: PromptNode, vars: Vars): string {
    PromptHead(p) + CriteriaLines("IDEAL", p.ideals) + CriteriaLines("NEAR", p.nears) + CriteriaLines("FAIL", p.fails)
      + VariablesHeader(vars) + VariableLines(vars) + ("\nPlayer's response: \"" + input + "\"\n")
      + "\nClassification:"
  }

  /** `buildEvaluationPrompt`: the string is built by appending, one loop per list. */
  method BuildEvaluationPrompt(input: string, p: PromptNode, vars: Vars) returns (evalPrompt: string)
    ensures evalPrompt == EvaluationPrompt(input, p, vars)
  {
    evalPrompt := BuildHead(p);
    evalPrompt := AppendCriteria(evalPrompt, "IDEAL", p.ideals);
    evalPrompt := AppendCriteria(evalPrompt, "NEAR", p.nears);
    evalPrompt := AppendCriteria(evalPrompt, "FAIL", p.fails);
    evalPrompt := AppendVariables(evalPrompt, vars);
    evalPrompt := evalPrompt + ("\nPlayer's response: \"" + input + "\"\n");
    evalPrompt := evalPrompt + "\nClassification:";
  }

  /** The context line, the question line and the criteria heading. */
  method BuildHead(p: PromptNode) returns (evalPrompt: string)
    ensures evalPrompt == PromptHead(p)
  {
    evalPrompt := "";
    if Present(p.context) {
      evalPrompt := evalPrompt + ("Context: " + p.context.value + "\n\n");
    }
    assert evalPrompt == ContextPart(p);
    ghost var context := evalPrompt;
    var questionText := QuestionText(p.question);
    if questionText != "" {
      evalPrompt := evalPrompt + ("The Entity asked: \"" + questionText + "\"\n\n");
    }
    assert evalPrompt == context + QuestionPart(p);
    evalPrompt := evalPrompt + "Classification criteria:\n\n";
  }

  /** The variables heading, when there are variables, and one line per variable. */
  method AppendVariables(start: string, vars: Vars) returns (out: string)
    ensures out == start + VariablesHeader(vars) + VariableLines(vars)
  {
    out := start;
    if |vars| > 0 {
      out := out + "\nPrevious information gathered:\n";
    }
    ghost var before := out;
    assert before == start + VariablesHeader(vars);
    for i := 0 to |vars|
      invariant out == before + VariableLines(vars[..i])
    {
      ghost var prev := out;
      out := out + ("- " + vars[i].0 + ": " + vars[i].1 + "\n");
      assert out == prev + VariableLine(vars[i]);
      assert vars[..i + 1][..i] == vars[..i];
      assert VariableLines(vars[..i + 1]) == VariableLines(vars[..i]) + VariableLine(vars[i]);
      AppendAssoc(before, VariableLines(vars[..i]), VariableLine(vars[i]));
    }
    assert vars[..|vars|] == vars;
  }

  /** One `for (const c of cs) evalPrompt += ...` loop. */
  method AppendCriteria(start: string, tag: string, cs: seq<Criterion>) returns (out: string)
    ensures out == start + CriteriaLines(tag, cs)
  {
    out := start;
    for i := 0 to |cs|
      invariant out == start + CriteriaLines(tag, cs[..i])
    {
      var c := cs[i];
      ghost var prev := out;
      if tag == "IDEAL" && Present(c.path) {
        out := out + ("IDEAL:" + c.path.value + " - " + c.criteria + "\n");
      } else {
        out := out + (tag + " - " + c.criteria + "\n");
      }
      assert out == prev + CriterionLine(tag, c);
      assert cs[..i + 1][..i] == cs[..i];
      assert CriteriaLines(tag, cs[..i + 1]) == CriteriaLines(tag, cs[..i]) + CriterionLine(tag, c);
      AppendAssoc(start, CriteriaLines(tag, cs[..i]), CriterionLine(tag, c));
    }
    assert cs[..|cs|] == cs;
  }

  /** The prompt opens with a context line exactly when the prompt declares a context. */
  lemma EvaluationPromptContext(input: string, p: PromptNode, vars: Vars)
    ensures StartsWith(EvaluationPrompt(input, p, vars), "Context: ") <==> Present(p.context)
  {
    var head := PromptHead(p);
    var rest := CriteriaLines("IDEAL", p.ideals) + CriteriaLines("NEAR", p.nears) + CriteriaLines("FAIL", p.fails)
      + VariablesHeader(vars) + VariableLines(vars) + ("\nPlayer's response: \"" + input + "\"\n")
      + "\nClassification:";
    AppendAssoc8(head, CriteriaLines("IDEAL", p.ideals), CriteriaLines("NEAR", p.nears), CriteriaLines("FAIL", p.fails),
      VariablesHeader(vars), VariableLines(vars), "\nPlayer's response: \"" + input + "\"\n", "\nClassification:");
    var r := head + rest;
    assert r == EvaluationPrompt(input, p, vars);
    var first := ContextPart(p) + QuestionPart(p);
    assert head == first + "Classification criteria:\n\n";
    if Present(p.context) {
      var c := "Context: " + p.context.value + "\n\n";
      PrefixOfAppend(c, QuestionPart(p), 9);
      PrefixOfAppend(first, "Classification criteria:\n\n", 9);
      PrefixOfAppend(head, rest, 9);
      assert c[..9] == "Context: ";
    } else if QuestionPart(p) != "" {
      assert first == QuestionPart(p);
      assert first[0] == 'T';
      assert r[0] == 'T';
    } else {
      assert first == "";
      assert head[1] == 'l';
      assert r[1] == 'l';
    }
  }

  /** The prompt always ends by asking for the classification. */
  lemma EvaluationPromptEnd(input: string, p: PromptNode, vars: Vars)
    ensures var r := EvaluationPrompt(input, p, vars);
      |r| >= 16 && r[|r| - 16..] == "\nClassification:"
  {
  }

  lemma ContainsIn(s: string, t: string, a: string, b: string)
    requires Contains(s, t)
    ensures Contains(a + s + b, t)
  {
    var k :| OccursAt(s, t, k);
    assert (a + s + b)[|a| + k..|a| + k + |t|] == s[k..k + |t|];
    assert OccursAt(a + s + b, t, |a| + k);
  }

  /** `t` occurs at the end of `s + t`. */
  lemma ContainsLast(s: string, t: string)
    ensures Contains(s + t, t)
  {
    assert (s + t)[|s|..|s| + |t|] == t;
    assert OccursAt(s + t, t, |s|);
  }

  /** An occurrence in `s` stays an occurrence in `s + b`. */
  lemma ContainsBefore(s: string, t: string, b: string)
    requires Contains(s, t)
    ensures Contains(s + b, t)
  {
    var k :| OccursAt(s, t, k);
    assert (s + b)[k..k + |t|] == s[k..k + |t|];
    assert OccursAt(s + b, t, k);
  }

  /** Every criterion of a list has its line in the loop's output. */
  lemma {:induction false} CriteriaLinesContain(tag: string, cs: seq<Criterion>, i: nat)
    requires i < |cs|
    ensures Contains(CriteriaLines(tag, cs), CriterionLine(tag, cs[i]))
    decreases |cs|
  {
    var init := cs[..|cs| - 1];
    var last := CriterionLine(tag, cs[|cs| - 1]);
    assert CriteriaLines(tag, cs) == CriteriaLines(tag, init) + last;
    if i == |cs| - 1 {
      ContainsLast(CriteriaLines(tag, init), last);
    } else {
      assert cs[i] == init[i];
      CriteriaLinesContain(tag, init, i);
      ContainsBefore(CriteriaLines(tag, init), CriterionLine(tag, cs[i]), last);
    }
  }

  /**
   * The prompt lists the criteria as one block, ideals first, then nears, then fails, each list in
   * declaration order, and every criterion has its line in it.
   */
  lemma EvaluationPromptCriteria(input: string, p: PromptNode, vars: Vars)
    ensures var r := EvaluationPrompt(input, p, vars);
      && Contains(r, "Classification criteria:\n\n" + CriteriaLines("IDEAL", p.ideals)
                     + CriteriaLines("NEAR", p.nears) + CriteriaLines("FAIL", p.fails))
      && (forall i :: 0 <= i < |p.ideals| ==> Contains(r, CriterionLine("IDEAL", p.ideals[i])))
      && (forall i :: 0 <= i < |p.nears| ==> Contains(r, CriterionLine("NEAR", p.nears[i])))
      && (forall i :: 0 <= i < |p.fails| ==> Contains(r, CriterionLine("FAIL", p.fails[i])))
  {
    var r := EvaluationPrompt(input, p, vars);
    var a := ContextPart(p) + QuestionPart(p);
    var h := "Classification criteria:\n\n";
    var ideals := CriteriaLines("IDEAL", p.ideals);
    var nears := CriteriaLines("NEAR", p.nears);
    var fails := CriteriaLines("FAIL", p.fails);
    var v := VariablesHeader(vars);
    var w := VariableLines(vars);
    var x := "\nPlayer's response: \"" + input + "\"\n";
    var c := "\nClassification:";
    assert PromptHead(p) == a + h;
    assert r == a + h + ideals + nears + fails + v + w + x + c;
    Regroup(a, h, ideals, nears, fails, v, w, x, c);
    ContainsIn(h + ideals + nears + fails, h + ideals + nears + fails, a, v + w + x + c) by {
      assert OccursAt(h + ideals + nears + fails, h + ideals + nears + fails, 0);
    }
    forall i | 0 <= i < |p.ideals| ensures Contains(r, CriterionLine("IDEAL", p.ideals[i])) {
      CriteriaLinesContain("IDEAL", p.ideals, i);
      ContainsIn(ideals, CriterionLine("IDEAL", p.ideals[i]), a + h, nears + fails + (v + w + x + c));
    }
    forall i | 0 <= i < |p.nears| ensures Contains(r, CriterionLine("NEAR", p.nears[i])) {
      CriteriaLinesContain("NEAR", p.nears, i);
      ContainsIn(nears, CriterionLine("NEAR", p.nears[i]), a + h + ideals, fails + (v + w + x + c));
    }
    forall i | 0 <= i < |p.fails| ensures Contains(r, CriterionLine("FAIL", p.fails[i])) {
      CriteriaLinesContain("FAIL", p.fails, i);
      ContainsIn(fails, CriterionLine("FAIL", p.fails[i]), a + h + ideals + nears, v + w + x + c);
    }
  }

  // ---------------------------------------------------------------------------------------------
  // Reading the classifier's reply
  // ---------------------------------------------------------------------------------------------

  predicate IsClassification(c: string) {
    c == "ideal" || c == "near" || c == "fail"
  }

  /** `i.path?.toLowerCase() === path`. */
  predicate NamesPath(c: Criterion, path: string) {
    c.path.Some? && Lower(c.path.value) == path
  }

  /** `ideals.find(i => i.path?.toLowerCase() === path)` as an index, or -1. */
  function FindIdeal(ideals: seq<Criterion>, path: string): (k: int)
    ensures -1 <= k < |ideals|
    ensures k >= 0 ==> NamesPath(ideals[k], path)
    ensures forall i :: 0 <= i < |ideals| && (k < 0 || i < k) ==> !NamesPath(ideals[i], path)
  {
    if ideals == [] then -1
    else if NamesPath(ideals[0], path) then 0
    else
      var k := FindIdeal(ideals[1..], path);
      if k < 0 then -1 else k + 1
  }

  /**
   * The classification read from upper-cased, trimmed reply text. An `IDEAL:x` reply names the
   * first declared ideal path equal to `x` ignoring case; lib/narrative-engine.js also drops an
   * empty path (`matching?.path || null`).
   */
  function Classify(f: Flavour, cleaned: string, ideals: seq<Criterion>, extracted: Option<string>): (r: EvalResult)
    ensures IsClassification(r.classification) && r.extractedValue == extracted
    ensures r.path.Some? ==> r.classification == "ideal" && exists i :: 0 <= i < |ideals| && ideals[i].path == r.path
  {
    if StartsWith(cleaned, "IDEAL:") then
      var k := FindIdeal(ideals, Lower(Trim(cleaned[6..])));
      var path := if k < 0 || (f == Engine && ideals[k].path.value == "") then None else ideals[k].path;
      EvalResult("ideal", path, extracted)
    else if StartsWith(cleaned, "IDEAL") then EvalResult("ideal", None, extracted)
    else if StartsWith(cleaned, "FAIL") then EvalResult("fail", None, extracted)
    else EvalResult("near", None, extracted)
  }

  /** `parseEvaluationResult(result, prompt)` of lib/dsl/evaluator.js. */
  function ParseEvaluationResult(result: string, ideals: seq<Criterion>): (r: EvalResult)
    ensures IsClassification(r.classification) && r.extractedValue.None?
    ensures r.path.Some? ==> r.classification == "ideal" && exists i :: 0 <= i < |ideals| && ideals[i].path == r.path
  {
    Classify(Dsl, Upper(Trim(result)), ideals, None)
  }

  lemma IdealColonIsIdeal(s: string)
    requires StartsWith(s, "IDEAL:")
    ensures StartsWith(s, "IDEAL")
  {
    assert s[..5] == s[..6][..5];
  }

  /**
   * The reply's prefix decides the class: `IDEAL` (with or without a path) gives ideal, `FAIL`
   * gives fail, and anything else, the empty reply included, gives near.
   */
  lemma ClassifyPrefixes(f: Flavour, cleaned: string, ideals: seq<Criterion>, extracted: Option<string>)
    ensures var r := Classify(f, cleaned, ideals, extracted);
      && (r.classification == "ideal" <==> StartsWith(cleaned, "IDEAL"))
      && (r.classification == "fail" <==> StartsWith(cleaned, "FAIL"))
      && (r.classification == "near" <==> !StartsWith(cleaned, "IDEAL") && !StartsWith(cleaned, "FAIL"))
  {
    if StartsWith(cleaned, "IDEAL:") {
      IdealColonIsIdeal(cleaned);
    }
    if StartsWith(cleaned, "IDEAL") {
      assert cleaned[0] == 'I';
    }
    if StartsWith(cleaned, "FAIL") {
      assert cleaned[0] == 'F';
    }
  }

  /**
   * A path is returned exactly when the reply reads `IDEAL:x` and some declared ideal path equals
   * `x` ignoring case (and, in lib/narrative-engine.js, is not empty); it is the first such path,
   * in its declared spelling.
   */
  lemma ClassifyPath(f: Flavour, cleaned: string, ideals: seq<Criterion>, extracted: Option<string>)
    ensures var r := Classify(f, cleaned, ideals, extracted);
      && (r.path.Some? ==>
            && StartsWith(cleaned, "IDEAL:")
            && var k := FindIdeal(ideals, Lower(Trim(cleaned[6..])));
               k >= 0 && r.path == ideals[k].path && Lower(r.path.value) == Lower(Trim(cleaned[6..])))
      && (StartsWith(cleaned, "IDEAL:") && FindIdeal(ideals, Lower(Trim(cleaned[6..]))) >= 0 ==>
            var k := FindIdeal(ideals, Lower(Trim(cleaned[6..])));
            r.path.Some? || (f == Engine && ideals[k].path == Some("")))
  {
  }

  /** The class read from a reply depends on the reply alone. */
  lemma ClassifySameClass(f: Flavour, g: Flavour, cleaned: string, ideals: seq<Criterion>, e1: Option<string>, e2: Option<string>)
    ensures Classify(f, cleaned, ideals, e1).classification == Classify(g, cleaned, ideals, e2).classification
  {
  }

  /** Replies that differ only in letter case are read alike: `ideal:Deep` is `IDEAL:DEEP`. */
  lemma ParseEvaluationResultIgnoresCase(a: string, b: string, ideals: seq<Criterion>)
    requires Upper(a) == Upper(b)
    ensures ParseEvaluationResult(a, ideals) == ParseEvaluationResult(b, ideals)
  {
    TrimUpper(a);
    TrimUpper(b);
    UpperUpper(Trim(a));
    UpperUpper(Trim(b));
    assert Upper(Trim(a)) == Upper(Trim(b));
  }

  // ---------------------------------------------------------------------------------------------
  // The reply parser of lib/narrative-engine.js
  // ---------------------------------------------------------------------------------------------

  /** `prompt.capture === 'player_name' || prompt.capture === 'player_age'`. */
  predicate NeedsExtraction(capture: Option<string>) {
    capture == Some("player_name") || capture == Some("player_age")
  }

  /** `v.charAt(0).toUpperCase() + v.slice(1).toLowerCase()`. */
  function Capitalise(v: string): (r: string)
    requires v != ""
    ensures |r| == |v| && r[0] == UpperChar(v[0])
    ensures forall i :: 1 <= i < |r| ==> r[i] == LowerChar(v[i])
  {
    [UpperChar(v[0])] + Lower(v[1..])
  }

  /** The value after the `|`: `parts[1]?.trim() || null`, capitalised for `player_name`. */
  function Extracted(parts: seq<string>, capture: Option<string>): (e: Option<string>)
    ensures e.Some? ==> e.value != ""
  {
    var v := if |parts| > 1 then Trim(parts[1]) else "";
    if v == "" then None
    else if capture == Some("player_name") then Some(Capitalise(v))
    else Some(v)
  }

  /**
   * The reply handling of `createEvaluator` (lib/narrative-engine.js): `text` is the model's
   * reply (`data.content[0]?.text || ''`), `capture` the prompt's capture variable.
   */
  function ParseReply(text: string, capture: Option<string>, ideals: seq<Criterion>): (r: EvalResult)
    ensures IsClassification(r.classification)
    ensures r.extractedValue.Some? ==> NeedsExtraction(capture) && r.extractedValue.value != ""
  {
    var raw := Trim(text);
    if NeedsExtraction(capture) && '|' in raw then
      var parts := Split(raw, '|');
      Classify(Engine, Upper(Trim(parts[0])), ideals, Extracted(parts, capture))
    else
      Classify(Engine, Upper(raw), ideals, None)
  }

  /** No ideal declares the empty path (the parsers store `attrs.path || null`). */
  predicate NoEmptyPath(ideals: seq<Criterion>) {
    forall i :: 0 <= i < |ideals| ==> ideals[i].path != Some("")
  }

  /**
   * Without extraction the two copies agree: the reply parser of lib/narrative-engine.js gives the
   * class `parseEvaluationResult` gives, the same path when no ideal path is empty, and no value.
   */
  lemma ParseReplyAgrees(text: string, capture: Option<string>, ideals: seq<Criterion>)
    requires !NeedsExtraction(capture) || '|' !in Trim(text)
    ensures var r := ParseReply(text, capture, ideals);
      && r.extractedValue.None?
      && r.classification == ParseEvaluationResult(text, ideals).classification
      && (NoEmptyPath(ideals) ==> r == ParseEvaluationResult(text, ideals))
  {
    var cleaned := Upper(Trim(text));
    assert ParseReply(text, capture, ideals) == Classify(Engine, cleaned, ideals, None);
    assert ParseEvaluationResult(text, ideals) == Classify(Dsl, cleaned, ideals, None);
    ClassifySameClass(Engine, Dsl, cleaned, ideals, None, None);
    if NoEmptyPath(ideals) {
      ClassifyFlavours(cleaned, ideals, None);
    }
  }

  /** When no ideal declares the empty path, the two copies of the classifier agree. */
  lemma ClassifyFlavours(cleaned: string, ideals: seq<Criterion>, extracted: Option<string>)
    requires NoEmptyPath(ideals)
    ensures Classify(Engine, cleaned, ideals, extracted) == Classify(Dsl, cleaned, ideals, extracted)
  {
  }

  /** A reply containing `|` splits in at least two parts. */
  lemma SplitAtBar(raw: string)
    requires '|' in raw
    ensures |Split(raw, '|')| >= 2
    ensures Split(raw, '|')[0] == raw[..IndexOf(raw, '|', 0)]
  {
    var j := IndexOf(raw, '|', 0);
    assert j != -1 by {
      var m :| 0 <= m < |raw| && raw[m] == '|';
    }
  }

  /** A capitalised name starts upper-case, continues lower-case, and gains no `|`. */
  lemma CapitaliseShape(v: string)
    requires v != ""
    ensures var w := Capitalise(v);
      && !('a' <= w[0] <= 'z')
      && (forall i :: 1 <= i < |w| ==> !('A' <= w[i] <= 'Z'))
      && ('|' !in v ==> '|' !in w)
  {
    var w := Capitalise(v);
    if '|' !in v {
      forall i | 0 <= i < |w| ensures w[i] != '|' {
        assert v[i] != '|';
      }
    }
  }

  /**
   * The value after the `|` is the trimmed second part, absent when that is empty; it holds no
   * `|`; for `player_name` it starts upper-case and continues lower-case.
   */
  lemma ExtractedSpec(parts: seq<string>, capture: Option<string>)
    requires |parts| >= 2 && '|' !in parts[1]
    ensures var e := Extracted(parts, capture);
      && (e.None? <==> Trim(parts[1]) == "")
      && (e.Some? ==> '|' !in e.value)
      && (capture != Some("player_name") ==> e.None? || e.value == Trim(parts[1]))
      && (capture == Some("player_name") && e.Some? ==>
            && !('a' <= e.value[0] <= 'z')
            && forall i :: 1 <= i < |e.value| ==> !('A' <= e.value[i] <= 'Z'))
  {
    var v := Trim(parts[1]);
    TrimWithin(parts[1]);
    assert '|' !in v;
    if v != "" && capture == Some("player_name") {
      CapitaliseShape(v);
      assert Extracted(parts, capture) == Some(Capitalise(v));
    }
  }

  /**
   * With extraction and a `|` in the reply, the class is read from the text before the first `|`
   * exactly as `parseEvaluationResult` reads it, and the value comes from the text after it.
   */
  lemma ParseReplyExtracts(text: string, capture: Option<string>, ideals: seq<Criterion>)
    requires NeedsExtraction(capture) && '|' in Trim(text)
    ensures var parts := Split(Trim(text), '|');
      var r := ParseReply(text, capture, ideals);
      && |parts| >= 2
      && r.classification == ParseEvaluationResult(parts[0], ideals).classification
      && r.extractedValue == Extracted(parts, capture)
  {
    var raw := Trim(text);
    var parts := Split(raw, '|');
    SplitAtBar(raw);
    assert ParseReply(text, capture, ideals) == Classify(Engine, Upper(Trim(parts[0])), ideals, Extracted(parts, capture));
    ClassifySameClass(Engine, Dsl, Upper(Trim(parts[0])), ideals, Extracted(parts, capture), None);
  }

  // ---------------------------------------------------------------------------------------------
  // The mock evaluator
  // ---------------------------------------------------------------------------------------------

  /** After `[ideal:` at `j`: a non-empty run of word characters and then `]`. */
  predicate TagCloses(s: string, j: nat)
    requires j <= |s|
  {
    var e := WordEnd(s, j);
    j < e < |s| && s[e] == ']'
  }

  /** `/\[ideal:(\w+)\]/` matched at `k`. */
  predicate IdealTagAt(s: string, k: int) {
    OccursAt(s, "[ideal:", k) && TagCloses(s, k + 7)
  }

  /** No match of `/\[ideal:(\w+)\]/` starts at an index from `i` up to but not including `k`. */
  predicate NoIdealTagBetween(s: string, i: int, k: int) {
    forall j :: i <= j < k ==> !IdealTagAt(s, j)
  }

  /** The group of the leftmost match of `/\[ideal:(\w+)\]/` at or after `i`. */
  function IdealTagPath(s: string, i: nat): (p: Option<string>)
    requires i <= |s|
    ensures p.Some? ==> exists k ::
      && i <= k && IdealTagAt(s, k) && p.value == s[k + 7..WordEnd(s, k + 7)]
      && NoIdealTagBetween(s, i, k)
    ensures p.None? ==> forall k :: i <= k ==> !IdealTagAt(s, k)
    decreases |s| - i
  {
    if i == |s| then None
    else if IdealTagAt(s, i) then Some(s[i + 7..WordEnd(s, i + 7)])
    else IdealTagPath(s, i + 1)
  }

  /** An occurrence of `t` at `k` followed by a run up to `e` and the character at `e`. */
  lemma SliceAround(s: string, t: string, k: nat, e: nat)
    requires OccursAt(s, t, k) && k + |t| <= e < |s|
    ensures s[k..e + 1] == t + s[k + |t|..e] + [s[e]]
  {
    assert s[k..e + 1] == s[k..k + |t|] + s[k + |t|..e] + [s[e]];
  }

  /** The path a mock evaluation reports is a non-empty word written as `[ideal:path]` in the input. */
  lemma IdealTagPathShape(s: string)
    ensures var p := IdealTagPath(s, 0);
      p.Some? ==> p.value != "" && AllWordChars(p.value) && Contains(s, "[ideal:" + p.value + "]")
  {
    var p := IdealTagPath(s, 0);
    if p.Some? {
      var k :| 0 <= k && IdealTagAt(s, k) && p.value == s[k + 7..WordEnd(s, k + 7)];
      var e := WordEnd(s, k + 7);
      var tag := "[ideal:";
      SliceAround(s, tag, k, e);
      assert [s[e]] == "]";
      assert OccursAt(s, tag + p.value + "]", k);
    }
  }

  /** `createMockEvaluator(defaultClassification)` applied to `input`. */
  function MockEvaluate(input: string, defaultClassification: string): (r: EvalResult)
    ensures r.extractedValue.None?
    ensures r.path.Some? ==> r.classification == "ideal"
  {
    var lower := Lower(input);
    if Contains(lower, "[ideal]") then EvalResult("ideal", IdealTagPath(lower, 0), None)
    else if Contains(lower, "[near]") then EvalResult("near", None, None)
    else if Contains(lower, "[fail]") then EvalResult("fail", None, None)
    else EvalResult(defaultClassification, None, None)
  }

  /**
   * The markers are read ignoring case, `[ideal]` before `[near]` before `[fail]`, and the default
   * applies when none is present; a path is reported only beside `[ideal]`, and then it is a
   * non-empty word tagged `[ideal:path]` in the lower-cased input.
   */
  lemma MockEvaluateSpec(input: string, defaultClassification: string)
    ensures var lower := Lower(input);
      var r := MockEvaluate(input, defaultClassification);
      && (Contains(lower, "[ideal]") ==> r.classification == "ideal")
      && (!Contains(lower, "[ideal]") && Contains(lower, "[near]") ==> r == EvalResult("near", None, None))
      && (!Contains(lower, "[ideal]") && !Contains(lower, "[near]") && Contains(lower, "[fail]") ==>
            r == EvalResult("fail", None, None))
      && (!Contains(lower, "[ideal]") && !Contains(lower, "[near]") && !Contains(lower, "[fail]") ==>
            r == EvalResult(defaultClassification, None, None))
      && (r.path.Some? ==>
            && Contains(lower, "[ideal]") && r.path.value != "" && AllWordChars(r.path.value)
            && Contains(lower, "[ideal:" + r.path.value + "]"))
  {
    IdealTagPathShape(Lower(input));
  }
}
