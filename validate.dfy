/**
 * `validateAST` of lib/dsl/parser.js: duplicate or missing chapter ids, and prompts without an
 * `@ideal` criterion or without a response block. The findings are listed chapter by chapter, in the
 * order the checks run.
 */
module Validate {
  import opened Wrappers
  import opened Ast
  import opened Seqs

  datatype Issue =
    | DuplicateChapterId(chapterId: Option<string>)
    | MissingChapterId
    | NoIdeals(promptId: Option<string>)
    | NoResponses(promptId: Option<string>)

  /** An entry of the returned list: `{ line, message }`. */
  datatype Finding = Finding(line: nat, issue: Issue)

  /** How a template literal shows an id that may be `undefined`. */
  function Show(id: Option<string>): string {
    match id
    case Some(s) => s
    case None => "undefined"
  }

  /** The message text of each issue. */
  function Message(issue: Issue): string {
    match issue
    case DuplicateChapterId(id) => "Duplicate chapter ID: " + Show(id)
    case MissingChapterId => "Chapter missing id attribute"
    case NoIdeals(id) => "Prompt \"" + Show(id) + "\" has no @ideal criteria"
    case NoResponses(id) => "Prompt \"" + Show(id) + "\" has no response blocks"
  }

  /** `!chapter.id`: no id, or the empty one. */
  predicate MissingId(id: Option<string>) {
    id.None? || id.value == ""
  }

  /** A node passes its own checks: only prompts have any. */
  predicate Complete(n: Node) {
    n.Prompt? ==> n.ideals != [] && n.responses != []
  }

  // ---------------------------------------------------------------------------------------------
  // Specification
  // ---------------------------------------------------------------------------------------------

  /** The findings about one node, not counting its children. */
  function Own(n: Node): (fs: seq<Finding>)
    ensures fs == [] <==> Complete(n)
  {
    if n.Prompt? then
      (if n.ideals == [] then [Finding(n.line, NoIdeals(n.id))] else [])
      + (if n.responses == [] then [Finding(n.line, NoResponses(n.id))] else [])
    else []
  }

  /**
   * `validateChildren`: each node's own findings, then those of its `children`. Prompts keep their
   * nodes in `question` and `responses`, not `children`, so nothing inside a prompt is visited.
   */
  function NodeFindings(ns: seq<Node>): seq<Finding>
    decreases ns
  {
    if ns == [] then []
    else Own(ns[0]) + Below(ns[0]) + NodeFindings(ns[1..])
  }

  /** The findings inside one node. */
  function Below(n: Node): seq<Finding>
    decreases n
  {
    if HasChildren(n) then NodeFindings(n.children) else []
  }

  /** The nodes `validateChildren` visits, in order. */
  function Visited(ns: seq<Node>): seq<Node>
    decreases ns
  {
    if ns == [] then []
    else [ns[0]] + (if HasChildren(ns[0]) then Visited(ns[0].children) else []) + Visited(ns[1..])
  }

  /** Every node visited in `ns` is complete. */
  predicate TreeComplete(ns: seq<Node>) {
    forall n :: n in Visited(ns) ==> Complete(n)
  }

  /** The findings about one chapter, given the ids of the chapters before it. */
  function ChapterFindings(ch: Chapter, seen: set<Option<string>>): seq<Finding> {
    (if ch.id in seen then [Finding(ch.line, DuplicateChapterId(ch.id))] else [])
    + (if MissingId(ch.id) then [Finding(ch.line, MissingChapterId)] else [])
    + NodeFindings(ch.children)
  }

  /** The findings about `chs`, given the ids of the chapters before them. */
  function Findings(chs: seq<Chapter>, seen: set<Option<string>>): seq<Finding>
  {
    if chs == [] then []
    else ChapterFindings(chs[0], seen) + Findings(chs[1..], seen + {chs[0].id})
  }

  // ---------------------------------------------------------------------------------------------
  // What an empty list of findings means
  // ---------------------------------------------------------------------------------------------

  /** No two chapters share an id (two missing ids count as shared). */
  predicate DistinctIds(chs: seq<Chapter>) {
    forall i, j :: 0 <= i < j < |chs| ==> chs[i].id != chs[j].id
  }

  /** No chapter reuses an id already `seen`. */
  predicate FreshIds(chs: seq<Chapter>, seen: set<Option<string>>) {
    forall i :: 0 <= i < |chs| ==> chs[i].id !in seen
  }

  /** Every chapter has an id and complete prompts. */
  predicate WellFormed(chs: seq<Chapter>) {
    forall i :: 0 <= i < |chs| ==> !MissingId(chs[i].id) && TreeComplete(chs[i].children)
  }

  /** A tree reports nothing exactly when every node it visits is complete. */
  lemma {:induction false} NodeFindingsEmpty(ns: seq<Node>)
    ensures NodeFindings(ns) == [] <==> TreeComplete(ns)
    decreases ns
  {
    if ns != [] {
      NodeFindingsEmpty(ns[1..]);
      if HasChildren(ns[0]) {
        NodeFindingsEmpty(ns[0].children);
      }
    }
  }

  lemma IdsCons(chs: seq<Chapter>, seen: set<Option<string>>)
    requires chs != []
    ensures (DistinctIds(chs) && FreshIds(chs, seen)) <==>
      (chs[0].id !in seen && DistinctIds(chs[1..]) && FreshIds(chs[1..], seen + {chs[0].id}))
  {
    if chs[0].id !in seen && DistinctIds(chs[1..]) && FreshIds(chs[1..], seen + {chs[0].id}) {
      forall i, j | 0 <= i < j < |chs|
        ensures chs[i].id != chs[j].id
      {
        if i > 0 {
          assert chs[1..][i - 1] == chs[i];
        }
        assert chs[1..][j - 1] == chs[j];
      }
    }
    if DistinctIds(chs) && FreshIds(chs, seen) {
      forall i | 0 <= i < |chs[1..]|
        ensures chs[1..][i].id !in seen + {chs[0].id}
      {
        assert chs[1..][i] == chs[i + 1];
      }
    }
  }

  lemma WellFormedCons(chs: seq<Chapter>)
    requires chs != []
    ensures WellFormed(chs) <==>
      (!MissingId(chs[0].id) && TreeComplete(chs[0].children) && WellFormed(chs[1..]))
  {
    if !MissingId(chs[0].id) && TreeComplete(chs[0].children) && WellFormed(chs[1..]) {
      forall i | 0 < i < |chs|
        ensures !MissingId(chs[i].id) && TreeComplete(chs[i].children)
      {
        assert chs[1..][i - 1] == chs[i];
      }
    }
  }

  /**
   * A list of chapters reports nothing exactly when their ids are present and distinct (also from
   * the ids already `seen`) and every node visited in them is complete.
   */
  lemma {:induction false} FindingsEmpty(chs: seq<Chapter>, seen: set<Option<string>>)
    ensures Findings(chs, seen) == [] <==> DistinctIds(chs) && FreshIds(chs, seen) && WellFormed(chs)
  {
    if chs != [] {
      FindingsEmpty(chs[1..], seen + {chs[0].id});
      NodeFindingsEmpty(chs[0].children);
      IdsCons(chs, seen);
      WellFormedCons(chs);
    }
  }

  /** `validateAST` reports nothing exactly when ids are present and distinct and prompts complete. */
  lemma ValidExactly(chs: seq<Chapter>)
    ensures Findings(chs, {}) == [] <==> DistinctIds(chs) && WellFormed(chs)
  {
    FindingsEmpty(chs, {});
  }

  // ---------------------------------------------------------------------------------------------
  // The code as written: an accumulator threaded through loops
  // ---------------------------------------------------------------------------------------------

  /** `validateChildren(children, errors)`: pushes onto `errors`. */
  method ValidateChildren(children: seq<Node>, errors: seq<Finding>) returns (out: seq<Finding>)
    ensures out == errors + NodeFindings(children)
    decreases children
  {
    out := errors;
    for i := 0 to |children|
      invariant out + NodeFindings(children[i..]) == errors + NodeFindings(children)
    {
      var child := children[i];
      assert children[i..][1..] == children[i + 1..];
      ghost var mid := out;
      if child.Prompt? {
        if child.ideals == [] {
          out := out + [Finding(child.line, NoIdeals(child.id))];
        }
        if child.responses == [] {
          out := out + [Finding(child.line, NoResponses(child.id))];
        }
      }
      assert out == mid + Own(child);
      if HasChildren(child) {
        out := ValidateChildren(child.children, out);
      }
      assert out == mid + Own(child) + Below(child);
      AppendAssoc4(mid, Own(child), Below(child), NodeFindings(children[i + 1..]));
    }
  }

  /** `validateAST(ast)`. */
  method ValidateAST(chapters: seq<Chapter>) returns (errors: seq<Finding>)
    ensures errors == Findings(chapters, {})
  {
    errors := [];
    var chapterIds: set<Option<string>> := {};
    for i := 0 to |chapters|
      invariant errors + Findings(chapters[i..], chapterIds) == Findings(chapters, {})
    {
      var chapter := chapters[i];
      assert chapters[i..][1..] == chapters[i + 1..];
      ghost var before := errors;
      ghost var seen := chapterIds;
      if chapter.id in chapterIds {
        errors := errors + [Finding(chapter.line, DuplicateChapterId(chapter.id))];
      }
      chapterIds := chapterIds + {chapter.id};
      if chapter.id.None? || chapter.id.value == "" {
        errors := errors + [Finding(chapter.line, MissingChapterId)];
      }
      ghost var dup := if chapter.id in seen then [Finding(chapter.line, DuplicateChapterId(chapter.id))] else [];
      ghost var missing := if MissingId(chapter.id) then [Finding(chapter.line, MissingChapterId)] else [];
      assert errors == before + dup + missing;
      errors := ValidateChildren(chapter.children, errors);
      AppendAssoc4(before, dup, missing, NodeFindings(chapter.children));
      AppendAssoc(before, ChapterFindings(chapter, seen), Findings(chapters[i + 1..], chapterIds));
    }
  }
}
