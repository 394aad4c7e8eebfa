/**
 * The placeholder evaluator of lib/dsl/runtime.js (`defaultEvaluator` and `matchesCriteria`): a
 * criterion matches when one of its keywords, a word of four or more characters, occurs in the
 * lower-cased input. Fails are tried first, then ideals, then nears; nothing matching gives near.
 */
module DefaultEvaluator {
  import opened Wrappers
  import opened Text
  import opened Ast
  import opened Session

  // ---------------------------------------------------------------------------------------------
  // Keywords: `criteria.toLowerCase().match(/\b\w{4,}\b/g) || []`
  // ---------------------------------------------------------------------------------------------

  /** `s[a..b]` is a whole word: word characters with no word character on either side. */
  predicate MaximalRun(s: string, a: int, b: int) {
    && 0 <= a < b <= |s|
    && AllWordChars(s[a..b])
    && (a == 0 || !IsWordChar(s[a - 1]))
    && (b == |s| || !IsWordChar(s[b]))
  }

  /** A position where no word continues across: the scan may resume there. */
  predicate AtBoundary(s: string, i: nat) {
    i == 0 || i >= |s| || !IsWordChar(s[i - 1]) || !IsWordChar(s[i])
  }

  /** The matches of `/\b\w{4,}\b/g` at or after `i`, left to right. */
  function Keywords(s: string, i: nat): (kws: seq<string>)
    requires i <= |s|
    ensures forall w :: w in kws ==> |w| >= 4
    decreases |s| - i
  {
    if i == |s| then []
    else if !IsWordChar(s[i]) then Keywords(s, i + 1)
    else
      var e := WordEnd(s, i);
      (if e - i >= 4 then [s[i..e]] else []) + Keywords(s, e)
  }

  /** Every keyword is a whole word of the text, found at or after `i`. */
  lemma {:induction false} KeywordsAreWords(s: string, i: nat)
    requires i <= |s|
    requires AtBoundary(s, i)
    ensures forall w :: w in Keywords(s, i) ==> exists a, b :: i <= a && MaximalRun(s, a, b) && s[a..b] == w
    decreases |s| - i
  {
    if i == |s| {
    } else if !IsWordChar(s[i]) {
      KeywordsAreWords(s, i + 1);
    } else {
      var e := WordEnd(s, i);
      KeywordsAreWords(s, e);
      forall w | w in Keywords(s, i)
        ensures exists a, b :: i <= a && MaximalRun(s, a, b) && s[a..b] == w
      {
        if w in Keywords(s, e) {
          var a, b :| e <= a && MaximalRun(s, a, b) && s[a..b] == w;
          assert i <= a;
        } else {
          assert e - i >= 4 && w == s[i..e];
          assert MaximalRun(s, i, e);
        }
      }
    }
  }

  /** Every whole word of four or more characters at or after `i` is a keyword. */
  lemma {:induction false} WordsAreKeywords(s: string, i: nat)
    requires i <= |s|
    requires AtBoundary(s, i)
    ensures forall a, b :: i <= a && MaximalRun(s, a, b) && b - a >= 4 ==> s[a..b] in Keywords(s, i)
    decreases |s| - i
  {
    if i == |s| {
    } else if !IsWordChar(s[i]) {
      WordsAreKeywords(s, i + 1);
      forall a, b | i <= a && MaximalRun(s, a, b) && b - a >= 4 ensures s[a..b] in Keywords(s, i) {
        assert s[a] == s[a..b][0];
        assert a != i;
      }
    } else {
      var e := WordEnd(s, i);
      WordsAreKeywords(s, e);
      forall a, b | i <= a && MaximalRun(s, a, b) && b - a >= 4 ensures s[a..b] in Keywords(s, i) {
        if a < e {
          // A word cannot start inside the run that begins at `i`, nor end anywhere but at `e`.
          assert a == i;
          assert b == e;
        } else {
          assert s[a..b] in Keywords(s, e);
        }
      }
    }
  }

  /** `matchesCriteria(input, criteria)`: some keyword of the criteria occurs in the input. */
  predicate MatchesCriteria(input: string, criteria: string) {
    KeywordOccurs(input, Keywords(Lower(criteria), 0))
  }

  predicate KeywordOccurs(input: string, kws: seq<string>) {
    exists kw :: kw in kws && Contains(input, kw)
  }

  /** Some whole word of `s` of four or more characters occurs in the input. */
  ghost predicate WordOccurs(input: string, s: string) {
    exists a, b :: MaximalRun(s, a, b) && b - a >= 4 && Contains(input, s[a..b])
  }

  /** Looking for the keywords of `s` is looking for its long words. */
  lemma KeywordOccursSpec(input: string, s: string)
    ensures KeywordOccurs(input, Keywords(s, 0)) <==> WordOccurs(input, s)
  {
    KeywordsAreWords(s, 0);
    WordsAreKeywords(s, 0);
    if KeywordOccurs(input, Keywords(s, 0)) {
      var kw :| kw in Keywords(s, 0) && Contains(input, kw);
      var a, b :| 0 <= a && MaximalRun(s, a, b) && s[a..b] == kw;
      assert MaximalRun(s, a, b) && b - a >= 4 && Contains(input, s[a..b]);
    }
    if WordOccurs(input, s) {
      var a, b :| MaximalRun(s, a, b) && b - a >= 4 && Contains(input, s[a..b]);
      assert s[a..b] in Keywords(s, 0);
    }
  }

  /**
   * A criterion matches exactly when a whole word of four or more characters of the lower-cased
   * criteria occurs in the input.
   */
  lemma MatchesCriteriaSpec(input: string, criteria: string)
    ensures MatchesCriteria(input, criteria) <==> WordOccurs(input, Lower(criteria))
  {
    KeywordOccursSpec(input, Lower(criteria));
  }

  // ---------------------------------------------------------------------------------------------
  // The evaluator
  // ---------------------------------------------------------------------------------------------

  /** The index of the first criterion at or after `i` that matches the input. */
  function FirstMatch(input: string, cs: seq<Criterion>, i: nat): (r: Option<nat>)
    requires i <= |cs|
    ensures r.Some? ==> i <= r.value < |cs| && MatchesCriteria(input, cs[r.value].criteria)
    ensures r.Some? ==> forall j :: i <= j < r.value ==> !MatchesCriteria(input, cs[j].criteria)
    ensures r.None? ==> forall j :: i <= j < |cs| ==> !MatchesCriteria(input, cs[j].criteria)
    decreases |cs| - i
  {
    if i == |cs| then None
    else if MatchesCriteria(input, cs[i].criteria) then Some(i)
    else FirstMatch(input, cs, i + 1)
  }

  /** The answer for the first matching criterion of `cs`, classified as `tag`. */
  function Verdict(input: string, cs: seq<Criterion>, tag: string): Option<EvalResult> {
    match FirstMatch(input, cs, 0)
    case None => None
    case Some(k) => Some(EvalResult(tag, cs[k].path, None))
  }

  /** `defaultEvaluator(input, prompt, state)`: fails first, then ideals, then nears, else near. */
  function DefaultEvaluation(input: string, p: PromptNode): EvalResult {
    var lower := Lower(input);
    match Verdict(lower, p.fails, "fail")
    case Some(r) => r
    case None =>
      match Verdict(lower, p.ideals, "ideal")
      case Some(r) => r
      case None =>
        match Verdict(lower, p.nears, "near")
        case Some(r) => r
        case None => EvalResult("near", None, None)
  }

  /** One `for (const c of cs) if (matchesCriteria(lowerInput, c.criteria)) return ...` loop. */
  method ScanCriteria(lowerInput: string, cs: seq<Criterion>, tag: string) returns (r: Option<EvalResult>)
    ensures r == Verdict(lowerInput, cs, tag)
  {
    for i := 0 to |cs|
      invariant FirstMatch(lowerInput, cs, 0) == FirstMatch(lowerInput, cs, i)
    {
      if MatchesCriteria(lowerInput, cs[i].criteria) {
        return Some(EvalResult(tag, cs[i].path, None));
      }
    }
    return None;
  }

  /** `defaultEvaluator`, loop by loop with early returns. */
  method Evaluate(input: string, p: PromptNode) returns (r: EvalResult)
    ensures r == DefaultEvaluation(input, p)
  {
    var lowerInput := Lower(input);
    var found := ScanCriteria(lowerInput, p.fails, "fail");
    if found.Some? {
      return found.value;
    }
    found := ScanCriteria(lowerInput, p.ideals, "ideal");
    if found.Some? {
      return found.value;
    }
    found := ScanCriteria(lowerInput, p.nears, "near");
    if found.Some? {
      return found.value;
    }
    return EvalResult("near", None, None);
  }

  /** Some criterion of `cs` matches the input. */
  predicate AnyMatches(input: string, cs: seq<Criterion>) {
    exists j :: 0 <= j < |cs| && MatchesCriteria(input, cs[j].criteria)
  }

  /**
   * The placeholder's answer: fail when some fail criterion matches; otherwise ideal when some
   * ideal matches; otherwise near. A matched answer carries the path of the first matching
   * criterion of its list; nothing matching gives near without a path. No value is extracted.
   */
  lemma DefaultEvaluationSpec(input: string, p: PromptNode)
    ensures var lower := Lower(input);
      var r := DefaultEvaluation(input, p);
      && r.extractedValue.None?
      && (r.classification == "fail" <==> AnyMatches(lower, p.fails))
      && (r.classification == "ideal" <==> !AnyMatches(lower, p.fails) && AnyMatches(lower, p.ideals))
      && (r.classification == "near" <==> !AnyMatches(lower, p.fails) && !AnyMatches(lower, p.ideals))
      && (AnyMatches(lower, p.fails) ==> r.path == p.fails[FirstMatch(lower, p.fails, 0).value].path)
      && (!AnyMatches(lower, p.fails) && AnyMatches(lower, p.ideals) ==>
            r.path == p.ideals[FirstMatch(lower, p.ideals, 0).value].path)
      && (!AnyMatches(lower, p.fails) && !AnyMatches(lower, p.ideals) && AnyMatches(lower, p.nears) ==>
            r.path == p.nears[FirstMatch(lower, p.nears, 0).value].path)
      && (!AnyMatches(lower, p.fails) && !AnyMatches(lower, p.ideals) && !AnyMatches(lower, p.nears) ==>
            r == EvalResult("near", None, None))
  {
    var lower := Lower(input);
    AnyMatchesFirst(lower, p.fails);
    AnyMatchesFirst(lower, p.ideals);
    AnyMatchesFirst(lower, p.nears);
  }

  /** Some criterion matches exactly when there is a first one. */
  lemma AnyMatchesFirst(input: string, cs: seq<Criterion>)
    ensures AnyMatches(input, cs) <==> FirstMatch(input, cs, 0).Some?
  {
    if FirstMatch(input, cs, 0).None? {
      assert forall j :: 0 <= j < |cs| ==> !MatchesCriteria(input, cs[j].criteria);
    }
  }
}
