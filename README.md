# drift.observer narrative DSL: a verified model

drift.observer tells an interactive story in a terminal. Chapters are written in a small markdown-like
DSL: `:::chapter{id="..."}` blocks hold beats, prompts, responses and checkpoints, `@directive: value`
lines, `**Speaker:** text` lines and inline tags such as `<pause/>` or
`<signal-coherence delta="+0.1"/>`. This project models the toolchain's core in Dafny and proves what
it promises:

- the line-based tokenizer and attribute parser;
- the recursive-descent parser, with its `pos` cursor;
- the AST validator;
- the resumable runtime, which walks a chapter, pauses at prompts and moves between chapters on
  transitions;
- the string logic of the answer evaluator;
- the act/flag trigger machine of the chat narrative.

The toolchain exists twice in the repository. `lib/dsl/*.js` is the CommonJS copy. `lib/narrative-engine.js`
is the deployed ESM copy. Where the two copies differ, the model keeps both behaviours side by side:
a `Dialect` (`Strict` / `Lenient`) selects the parser and a `Flavour` (`Dsl` / `Engine`) the runtime.

Modules:

- `Wrappers`: `Option` (JavaScript `null`/`undefined`) and `Result` (`Err` is a thrown exception).
- `Text`: the regular-expression character classes `\w` and `\s`, `trim`, ASCII case mapping, `includes`, `split` and `join`.
- `Values`: JavaScript values the runtime stores:
  - chapter references (`null`, `undefined` or a string), and string coercion;
  - numbers with NaN, and `parseFloat`;
  - `Math.max(0, Math.min(1, x))`;
  - the insertion-ordered `variables` object.
- `Lexer`: the token datatype, `parseAttrs`, the line classifiers, the inline-tag scanner and `tokenize`. Each comes as a specification function and as the imperative method that pushes tokens.
- `Ast`: the node and chapter datatypes.
- `Grammar`: the recursive-descent grammar as functions over the token list, for both dialects, with the bucket-distribution lemmas.
- `Parser`: `parse` of `lib/dsl/parser.js` as a class whose `pos` field is the cursor. Every method is proved equal to the grammar function.
- `EngineParser`: `tokenize` and `parseDSL` of `lib/narrative-engine.js`, with the `matchAll` tag loop and the lenient parser class.
- `Validate`: `validateAST`, as an accumulating method proved against a findings function.
- `Session`: the runtime's state record as a value, together with:
  - `createGameState`, `findResponse`, `interpolate`, `normalizeMetricName`, `completeChapter` and `applyMetric`;
  - the chapter table.
- `Exec`: the execution semantics of both runtimes as functions (`executeNode`, `executeNodes`, `executeFromIndex`, transitions, `run`, `processInput`, `resetToChapter`, `getLastCheckpoint`), and the invariants they keep.
- `Runtime`: the `GameState` record and the `NarrativeRuntime` class. Their methods mutate the record in place and are proved against `Exec`.
- `Evaluator`: `buildEvaluationPrompt`, `parseEvaluationResult`, `createMockEvaluator`, and the reply parsing of the engine's evaluator.
- `DefaultEvaluator`: the keyword-matching placeholder evaluator `defaultEvaluator` / `matchesCriteria` of `lib/dsl/runtime.js`.
- `Narrative`: `detectTriggers`, `applyTriggers`, `getSystemPrompt`, `createInitialState` and the act exit conditions of `lib/narrative.js`.
- `Seqs`: associativity and slicing facts used by the proofs.

Where the code and its documentation disagree, the model follows the code:

- A prompt or transition nested inside a beat, response or checkpoint does not stop the chapter loop. `executeNodes` ignores the result of `executeNode`.
- An absolute `value` on a `<metric>` tag is stored without clamping. Only deltas are clamped.
- `lib/dsl/runtime.js` stores the raw input in the capture variable. Only the engine copy uses the evaluator's `extractedValue`.
- `validateChildren` does not look inside prompts. A prompt keeps its nodes in `question` and `responses`, not in `children`.
- The placeholder evaluator of `lib/dsl/runtime.js` matches keywords, but the engine copy's `defaultEvaluator` always answers near.

Callbacks (`onOutput`, `onMetricChange`, `onAwaitInput`, `onChapterComplete`) are modelled as
appends to an event log, in the order the runtime makes them. The evaluator is a parameter: the
runtime is given the evaluator's answer `{classification, path, extractedValue}` to the input.

## Model

| member | source | states |
|---|---|---|
| Ast.PathOf | lib/dsl/parser.js:339 | `attrs.path \|\| null`: a missing or empty path is no path; a non-empty path is kept |
| Ast.Attr | lib/dsl/parser.js:442 | reading an attribute yields exactly the value the attribute map holds, if any |
| Lexer.QuoteIndex | lib/dsl/parser.js:147 | the first quote character at or after the index, or -1 when none follows |
| Lexer.AttrAt | lib/dsl/parser.js:147 | a match of `(\w+)=["']([^"']*)["']` tried at one index starts there and ends within the string |
| Lexer.FindAttr | lib/dsl/parser.js:149 | `exec` finds a match that lies at or after `lastIndex` |
| Lexer.FindAttrLeftmost | lib/dsl/parser.js:147-149 | the match `exec` returns is the leftmost one; none exists when it returns nothing |
| Lexer.LastWith | lib/dsl/parser.js:149-151 | index of the last attribute match with a given key, with no later match of that key |
| Lexer.AssignLastWins | lib/dsl/parser.js:149-151 | assigning matches in order leaves each key with its last matched value, other keys untouched |
| Lexer.AttrsOfLastWins | lib/dsl/parser.js:143-153 | `parseAttrs`: the keys are exactly the matched keys, and a repeated key keeps its last value |
| Lexer.AttrsOfEmpty | lib/dsl/parser.js:145 | an empty attribute string yields the empty map |
| Lexer.ParseAttrs | lib/dsl/parser.js:143-153 | the `exec` loop computes exactly the attribute map of the specification |
| Lexer.AttrsOf | lib/dsl/parser.js:143-153 | reference definition of `parseAttrs`; its content is stated by `Lexer.AttrsOfLastWins` and `Lexer.AttrsOfEmpty`, and the method `Lexer.ParseAttrs` is proved equal to it |
| Lexer.TagNameEnd | lib/dsl/parser.js:106 | the tag-name run `[-\w]*` ends at the first character outside it |
| Lexer.SpaceEnd | lib/dsl/parser.js:106 | the `\s*` run ends at the first non-space character, and everything before is space |
| Lexer.CloserIndex | lib/dsl/parser.js:106 | the first `/` or `>` at or after the index, or -1, with none before it |
| Lexer.CloseAt | lib/dsl/parser.js:106 | `\/?>` matched at an index ends after it and within the string, or fails |
| Lexer.TagAt | lib/dsl/parser.js:106 | the tag pattern tried at one index starts there and ends within the string |
| Lexer.FindTag | lib/dsl/parser.js:110 | `tagPattern.exec` finds a match at or after `lastIndex` |
| Lexer.FindTagLeftmost | lib/dsl/parser.js:106-110 | the tag `exec` returns is the leftmost one; when none is found the pattern matches nowhere further on |
| Lexer.TagTokensStep | lib/dsl/parser.js:110-128 | one `exec` step: the trimmed text before the tag if non-empty, the tag token, then the rest from the tag's end |
| Lexer.TokenizeLine | lib/dsl/parser.js:104-137 | the `exec` loop appends exactly the text and tag tokens of the line, in encounter order |
| Lexer.TagTokens | lib/dsl/parser.js:104-137 | reference definition of `tokenizeLine`; its content is stated by `Lexer.TagTokensStep`, `Lexer.TagTokensFromLine` and `Lexer.TagTokensNonEmpty`, and the method `Lexer.TokenizeLine` is proved equal to it |
| Lexer.Classify | lib/dsl/parser.js:45-94 | a trimmed line is blank exactly when empty; a line no pattern matches is passed on whole to the tag scanner |
| Lexer.ClassifyLine | lib/dsl/parser.js:45-94 | the patterns are tried in the fixed order block start, block end, directive, speaker, else inline text |
| Lexer.MatchBlockStart | lib/dsl/parser.js:51 | reference definition of `/^:::(\w+)(?:\{([^}]*)\})?$/` giving the block name and the attribute text; it is the first pattern `Lexer.Classify` tries, as `Lexer.ClassifyLine` states |
| Lexer.MatchDirective | lib/dsl/parser.js:69 | reference definition of `/^@(\w+)(?:\{([^}]*)\})?:\s*(.*)$/` giving name, attribute text and value; tried after the block patterns, as `Lexer.ClassifyLine` states |
| Lexer.MatchSpeaker | lib/dsl/parser.js:82 | reference definition of `/^\*\*(\w+):\*\*\s*(.*)$/` giving speaker and text; tried after directives, as `Lexer.ClassifyLine` states |
| Lexer.LinesTokens | lib/dsl/parser.js:40-95 | the first `k` lines yield at least `k` tokens, numbered `1..k` in non-decreasing order |
| Lexer.TokenizeLineInto | lib/dsl/parser.js:41-94 | one loop iteration appends exactly the tokens its line's pattern calls for |
| Lexer.Tokenize | lib/dsl/parser.js:36-99 | `tokenize` computes exactly the specified token list |
| Lexer.Tokens | lib/dsl/parser.js:36-99 | reference definition of `tokenize`; its content is stated by `Lexer.TokensShape`, `Lexer.LineNumbered` and `Lexer.LinesTokens`, and the method `Lexer.Tokenize` is proved equal to it |
| Lexer.TextTokenFromLine | lib/dsl/parser.js:113-115 | a TEXT token carries its line number and a trimmed, non-empty value |
| Lexer.TagTokensFromLine | lib/dsl/parser.js:104-137 | the tag scanner emits only TEXT and INLINE_TAG tokens of its own line, every TEXT value trimmed and non-empty |
| Lexer.TagTokensNonEmpty | lib/dsl/parser.js:104-137 | a non-blank trimmed line always yields at least one token |
| Lexer.PlainShape | lib/dsl/parser.js:94 | the tokens of an inline-text line hold no NEWLINE and carry its number |
| Lexer.PatternShape | lib/dsl/parser.js:45-91 | a pattern line yields its one token; a NEWLINE exactly for a blank line |
| Lexer.KindShape | lib/dsl/parser.js:45-94 | every classified line yields at least one token carrying its number, and NEWLINE alone exactly when blank |
| Lexer.LineTokensShape | lib/dsl/parser.js:41-94 | each source line yields one NEWLINE if blank or whitespace-only, otherwise tokens without NEWLINE, all with line = index + 1 |
| Lexer.TokensShape | lib/dsl/parser.js:36-99 | `tokenize` ends with exactly one EOF, and every other token carries a source line number, never decreasing |
| Lexer.LineNumbered | lib/dsl/parser.js:40-95 | every line contributes at least one token, all on that line |
| Grammar.BodySuffix | lib/dsl/parser.js:297 | consuming a block's closer leaves a strictly shorter suffix of the tokens after its opener |
| Grammar.SkipNewlines | lib/dsl/parser.js:195-199 | `skipNewlines` leaves a suffix whose head is not NEWLINE, consuming something exactly when it starts on a NEWLINE |
| Grammar.CloseBlock | lib/dsl/parser.js:297 | consuming an optional closer leaves a suffix; the reference definition of the closer step, whose use is stated by `Grammar.BlockBodyDone` and `Grammar.ChapterDone` |
| Grammar.TagNode | lib/dsl/parser.js:429-474 | the tag names pause, glitch, correction-pressure, signal-coherence, metric, transition and sfx map to typed nodes, any other name to an opaque inline tag; the line is kept and a metric's delta is the `delta` attribute |
| Grammar.ParseNode | lib/dsl/parser.js:241-260 | `parseNode` leaves a suffix, and consumes a token unless it stops on a closer |
| Grammar.ParseBlock | lib/dsl/parser.js:262-277 | a block that parses consumes at least its opening token; the reference definition of `parseBlock`, whose dispatch is stated by `Parser.ParseBlockUnfold` and `EngineParser.ParseBlockUnfold` |
| Grammar.BlockBody | lib/dsl/parser.js:279-299 | a block body leaves a suffix of the tokens after the opener; the reference definition of the body loop, whose results are stated by `Grammar.BlockBodyDone`, `Grammar.BlockBodyFails` and `Grammar.BodyStep` |
| Grammar.BodyItems | lib/dsl/parser.js:289-295 | the body loop stops only at BLOCK_END or EOF |
| Grammar.Children | lib/dsl/parser.js:291 | a beat, response or checkpoint keeps at most its body's items, dropping directives |
| Grammar.HandlePromptDirective | lib/dsl/parser.js:335-362 | a directive inside a prompt leaves a prompt; the reference definition of the directive switch, whose effect is stated by `Grammar.StepCriteria` and `Grammar.DistributeSettings` |
| Grammar.PromptStep | lib/dsl/parser.js:319-327 | one prompt-body iteration leaves a prompt; the reference definition of one iteration, whose effect is stated by `Grammar.StepCriteria` and `Grammar.StepNodes` |
| Grammar.Distribute | lib/dsl/parser.js:317-329 | the prompt body loop keeps the prompt's id and line; the reference definition of the loop, whose content is stated by `Grammar.DistributeBuckets` |
| Grammar.ChapterFold | lib/dsl/parser.js:220-232 | the chapter body loop keeps the chapter's id, title and line; the reference definition of the loop, whose content is stated by `Grammar.ChapterFoldParts` and `Grammar.ChapterBuckets` |
| Grammar.DistributeCriteria | lib/dsl/parser.js:337-354 | `@ideal`/`@near`/`@fail` append `{path or null, criteria}` to their own list, in order |
| Grammar.StepCriteria | lib/dsl/parser.js:336-354 | one iteration appends to a criteria list exactly the criterion its directive contributes |
| Grammar.DistributeSettings | lib/dsl/parser.js:355-360 | `@capture` and `@context` take the value of the last such directive, else keep the old value |
| Grammar.DistributeNodes | lib/dsl/parser.js:322-326 | response blocks go to `responses` and every other node to `question`, in order |
| Grammar.StepNodes | lib/dsl/parser.js:322-326 | one iteration appends a response node to `responses`, and any other node to `question` |
| Grammar.DistributeBuckets | lib/dsl/parser.js:301-333 | a parsed prompt holds exactly its questions, responses, three criteria lists and last capture/context; unknown directives are dropped |
| Grammar.QuestionResponsesPartition | lib/dsl/parser.js:322-326 | every node of a prompt body lands in exactly one of `question` and `responses` |
| Grammar.ChapterFoldParts | lib/dsl/parser.js:220-232 | a chapter's children are its non-directive nodes; `objective` and `test` come from the last such directive |
| Grammar.ChapterBuckets | lib/dsl/parser.js:201-239 | `@objective` and `@test` become fields and never children; other directives are dropped |
| Grammar.ParseChapter | lib/dsl/parser.js:201-239 | a parsed chapter consumes at least its opening token; the reference definition of `parseChapter`, whose results are stated by `Grammar.ChapterDone` and `Grammar.ChapterFails` |
| Grammar.BodyStep | lib/dsl/parser.js:289-295 | one body-loop iteration: parse a node, skip newlines, continue |
| Grammar.ParseNodeCases | lib/dsl/parser.js:241-260 | `parseNode` skips newlines and dispatches on the token: blocks, directives, speakers, tags and text become items, and anything else gives `null` without consuming |
| Grammar.BlockBodyDone | lib/dsl/parser.js:289-298 | a body loop ending on a closer builds its node and consumes the closer if present |
| Grammar.BlockBodyFails | lib/dsl/parser.js:289-295 | an error in a nested node propagates out of the enclosing block |
| Grammar.ChapterDone | lib/dsl/parser.js:220-238 | a chapter loop ending on a closer builds the chapter and consumes the closer if present |
| Grammar.ChapterFails | lib/dsl/parser.js:220-232 | an error in a chapter's node propagates out of `parseChapter` |
| Grammar.ChildrenSnoc | lib/dsl/parser.js:291-292 | one more item adds its node to the children, or nothing for a directive |
| Grammar.TopLoop | lib/dsl/parser.js:476-490 | reference definition of the top-level loop of `parse`; the method `Parser.Parser.ParseAll` is proved equal to it, and `EngineParser.Parser.ParseAll` to its lenient form |
| Grammar.Parse | lib/dsl/parser.js:176-491 | reference definition of `parse(tokens)`; `Parser.Parse` is proved equal to it |
| Grammar.ParseDSL | lib/dsl/parser.js:507-510 | reference definition of `parseDSL`: `parse` after `tokenize`; `Parser.ParseDSL` and `EngineParser.ParseDSL` are proved equal to it |
| Grammar.DistributeSnoc | lib/dsl/parser.js:317-329 | the prompt loop over one more item is one more step |
| Grammar.ChapterFoldSnoc | lib/dsl/parser.js:220-232 | the chapter loop over one more item is one more step |
| Parser.ParseBlockUnfold | lib/dsl/parser.js:262-277 | a known block name enters its body parser past the opening token, and an unknown name is a ParseError on that token's line |
| Parser.Parser.constructor | lib/dsl/parser.js:176-177 | the cursor starts at 0 over the given tokens |
| Parser.Parser.Current | lib/dsl/parser.js:179-181 | `current()` is the token at the cursor, EOF past the end |
| Parser.Parser.Advance | lib/dsl/parser.js:183-185 | `advance()` returns the current token and moves the cursor by one |
| Parser.Parser.SkipNewlines | lib/dsl/parser.js:195-199 | the cursor moves exactly past the leading NEWLINE tokens |
| Parser.Parser.ParseNode | lib/dsl/parser.js:241-260 | `parseNode` returns the grammar's item or error and leaves the cursor where the grammar stops |
| Parser.Parser.ParseBlock | lib/dsl/parser.js:262-277 | `parseBlock` agrees with the grammar, including the ParseError for an unknown block name |
| Parser.Parser.ParseContentBlock | lib/dsl/parser.js:279-299 | `parseBeat`/`parseResponse`/`parseCheckpoint` agree with the grammar's block body |
| Parser.Parser.FinishContentBlock | lib/dsl/parser.js:297-298 | building the node and consuming the closer completes the grammar's block body |
| Parser.Parser.ParsePrompt | lib/dsl/parser.js:301-333 | `parsePrompt` agrees with the grammar's prompt distribution |
| Parser.Parser.ParseDirective | lib/dsl/parser.js:408-417 | a directive token becomes a directive record with its name, attributes and value |
| Parser.Parser.ParseSpeakerLine | lib/dsl/parser.js:419-427 | a speaker token becomes a speaker line with its speaker, text and line |
| Parser.Parser.ParseInlineTag | lib/dsl/parser.js:429-474 | an inline-tag token becomes the node the tag mapping assigns |
| Parser.Parser.ParseChapter | lib/dsl/parser.js:201-239 | `parseChapter` agrees with the grammar and consumes at least the opening token |
| Parser.Parser.ParseAll | lib/dsl/parser.js:476-490 | the top-level loop parses chapters and skips every other token, as the grammar says |
| Parser.Parse | lib/dsl/parser.js:176-491 | `parse(tokens)` computes the grammar's chapters or its ParseError |
| Parser.ParseDSL | lib/dsl/parser.js:507-510 | `parseDSL` is `parse` after `tokenize` |
| EngineParser.TagMatches | lib/narrative-engine.js:53-57 | every collected tag match lies within the line, at or after the start |
| EngineParser.TagMatchesUnfold | lib/narrative-engine.js:53-57 | `matchAll` yields the match `exec` would find, then continues from where it ends |
| EngineParser.TagMatchesOrdered | lib/narrative-engine.js:53-57 | consecutive matches do not overlap and come in left-to-right order |
| EngineParser.TokenizeTags | lib/narrative-engine.js:112-132 | the `for` loop over the collected matches emits the same tokens as the `exec` loop of lib/dsl/parser.js |
| EngineParser.TokenizeLineInto | lib/narrative-engine.js:64-132 | one line of the engine's tokenizer yields the same tokens as in lib/dsl/parser.js |
| EngineParser.Tokenize | lib/narrative-engine.js:59-137 | the engine's `tokenize` computes the same token list as lib/dsl/parser.js |
| EngineParser.ParseBlockUnfold | lib/narrative-engine.js:194-241 | an engine block of any name parses its body; the name decides only what the body becomes |
| EngineParser.Parser.constructor | lib/narrative-engine.js:139-141 | the cursor starts at 0 over the given tokens |
| EngineParser.Parser.Current | lib/narrative-engine.js:143 | `current()` is the token at the cursor, EOF past the end |
| EngineParser.Parser.Advance | lib/narrative-engine.js:144 | `advance()` returns the current token and moves the cursor by one |
| EngineParser.Parser.SkipNewlines | lib/narrative-engine.js:145 | the cursor moves exactly past the leading NEWLINE tokens |
| EngineParser.Parser.ParseNode | lib/narrative-engine.js:176-192 | `parseNode` never fails and agrees with the lenient grammar |
| EngineParser.Parser.ParseBlock | lib/narrative-engine.js:194-241 | an unknown block name becomes a generic node of that type holding its non-directive children; a prompt distributes its body as in lib/dsl/parser.js |
| EngineParser.Parser.ParseInlineTag | lib/narrative-engine.js:248-263 | the same tag mapping without `metric`: a `<metric>` tag is an opaque inline tag |
| EngineParser.Parser.ParseChapter | lib/narrative-engine.js:147-174 | `parseChapter` agrees with the lenient grammar and consumes the opening token |
| EngineParser.Parser.ParseAll | lib/narrative-engine.js:265-276 | the top-level loop agrees with the lenient grammar, which never fails |
| EngineParser.ParseDSL | lib/narrative-engine.js:139-277 | the engine's `parseDSL` never throws and returns the lenient grammar's chapters |
| Validate.Own | lib/dsl/parser.js:540-547 | a node has findings of its own exactly when it is a prompt with no ideals or no responses |
| Validate.NodeFindingsEmpty | lib/dsl/parser.js:538-553 | `validateChildren` reports nothing exactly when every node it visits (through `children`) is complete |
| Validate.IdsCons | lib/dsl/parser.js:519-524 | chapter ids are distinct and unseen exactly when the first is unseen and the rest are distinct and unseen after adding it |
| Validate.WellFormedCons | lib/dsl/parser.js:526-532 | a chapter list is well formed exactly when its first chapter and the rest are |
| Validate.FindingsEmpty | lib/dsl/parser.js:519-533 | no findings exactly when ids are present, distinct and unseen, and every visited prompt is complete |
| Validate.ValidExactly | lib/dsl/parser.js:515-536 | `validateAST` reports nothing exactly when every chapter id is present and distinct and every visited prompt has an ideal and a response |
| Validate.ValidateChildren | lib/dsl/parser.js:538-553 | the loop appends exactly the findings of the nodes in visiting order |
| Validate.ValidateAST | lib/dsl/parser.js:515-536 | `validateAST` returns (never throws) exactly the findings of the specification: duplicate ids, missing ids, then prompt findings |
| Validate.Findings | lib/dsl/parser.js:515-536 | reference definition of `validateAST`'s findings; their content is stated by `Validate.FindingsEmpty` and `Validate.ValidExactly`, and the method `Validate.ValidateAST` is proved equal to it |
| Validate.NodeFindings | lib/dsl/parser.js:538-553 | reference definition of `validateNodes`; its content is stated by `Validate.Own` and `Validate.NodeFindingsEmpty`, and the method `Validate.ValidateChildren` is proved equal to it |
| Values.RefOf | lib/dsl/runtime.js:65 | an absent AST field reads as `undefined`, a present one as its string |
| Values.DigitEnd | lib/dsl/runtime.js:307 | the run of digits ends at the first non-digit |
| Values.Magnitude | lib/dsl/runtime.js:307 | a number literal exists exactly when the text starts with a digit, or a point and a digit |
| Values.ParseFloat | lib/dsl/runtime.js:307 | `parseFloat` yields a number exactly when a literal follows the white space and sign, else NaN |
| Values.MagnitudeDecimal | lib/dsl/runtime.js:307 | digits, a point and digits read as integer part plus fraction |
| Values.ParseFloatMagnitude | lib/dsl/runtime.js:307 | on text without leading white space, `parseFloat` reads the literal after the sign, negated after `-`, and NaN when there is none |
| Values.ParseFloatDecimal | lib/dsl/runtime.js:307 | a delta such as `0.5` reads as the value of its digits |
| Values.ParseFloatSignedDecimal | lib/dsl/runtime.js:307 | a signed delta such as `+2.0` or `-1.0` reads as its value, negated after `-` |
| Values.Add | lib/dsl/runtime.js:308 | `state[name] + delta` is a number exactly when both are numbers, and then it is their sum; `undefined` or NaN gives NaN |
| Values.Clamp | lib/dsl/runtime.js:308 | `Math.max(0, Math.min(1, x))` keeps NaN, gives 0 below 0, 1 above 1, and leaves values in [0, 1] alone |
| Values.Get | lib/dsl/runtime.js:358 | `variables[k]` is defined exactly when an entry with key `k` exists, and then it is that entry's value |
| Values.Put | lib/dsl/runtime.js:99 | after `variables[k] = v`, `k` maps to `v`, no other key changes, and a new key is appended last |
| Values.TailDistinct | lib/dsl/runtime.js:99 | the entries after the first of a key-distinct list are key-distinct and lack the first key |
| Values.ConsDistinct | lib/dsl/runtime.js:99 | adding an entry whose key the list lacks keeps keys distinct |
| Values.PutDistinct | lib/dsl/runtime.js:99 | assignment never creates a second entry for a key |
| Session.CreateGameState | lib/dsl/runtime.js:13-36 | a new state is at the given chapter, index 0, not waiting, with coherence 0.5, pressure 0 and nothing captured, completed or recorded |
| Session.LastWithKey | lib/dsl/runtime.js:47-49 | index of the last chapter filed under a key, with no later chapter under it |
| Session.LookupLast | lib/dsl/runtime.js:44-49 | the chapter table holds, under each key, the last chapter with that key, and nothing else |
| Session.Table | lib/dsl/runtime.js:44-49 | reference definition of the chapter table the constructor fills; its content is stated by `Session.LookupLast` |
| Session.Lookup | lib/dsl/runtime.js:69 | reference definition of `this.chapters[key]`; its content is stated by `Session.LookupLast` |
| Session.FirstFit | lib/dsl/runtime.js:128-137 | `Array.prototype.find`: the first response that fits, with none before it |
| Session.FindResponseSpec | lib/dsl/runtime.js:125-138 | an exact (classification, path) match wins when a path is given and one exists; otherwise the first pathless response of the class; nothing exactly when neither exists |
| Session.FindResponse | lib/dsl/runtime.js:125-138 | reference definition of `findResponse`; its content is stated by `Session.FindResponseSpec` |
| Session.SubstituteNoVariables | lib/dsl/runtime.js:355-360 | with no variables defined, every `{word}` placeholder whose word is not an `Object.prototype` member is left byte for byte |
| Session.InterpolateNoVariables | lib/dsl/runtime.js:355-360 | `interpolate` with no variables returns its argument, `undefined` included |
| Session.InterpolatePlaceholder | lib/dsl/runtime.js:355-360 | a lone `{name}` becomes the variable's value when the variable is defined |
| Session.Replacement | lib/dsl/runtime.js:357-359 | the replacement of `{name}` is the variable's value when defined, else the placeholder itself |
| Session.SubstitutePlaceholder | lib/dsl/runtime.js:355-360 | at a `{word}` placeholder the scan emits its replacement, whatever the variables, and resumes after the closing brace |
| Session.SubstituteCopies | lib/dsl/runtime.js:355-360 | where no placeholder starts the scan copies one character, whatever the variables |
| Session.SubstituteNoPlaceholders | lib/dsl/runtime.js:355-360 | a text without placeholders is returned unchanged whatever the variables |
| Session.InterpolatePlaceholderThen | lib/dsl/runtime.js:355-360 | a text starting with `{w}` becomes the value of `w` when defined, else `{w}` unchanged, followed by the interpolation of the rest |
| Session.InterpolateCopiesThen | lib/dsl/runtime.js:355-360 | a first character other than `{` is copied, followed by the interpolation of the rest |
| Session.OpensPlaceholder | lib/dsl/runtime.js:357 | the scan's test at the head of the text holds exactly when `/\{(\w+)\}/` matches there |
| Session.Substitute | lib/dsl/runtime.js:357-359 | reference definition of the `replace` scan; its content is stated by `Session.SubstitutePlaceholder`, `Session.SubstituteCopies`, `Session.SubstituteNoPlaceholders` and `Session.SubstituteNoVariables` |
| Session.Interpolate | lib/dsl/runtime.js:355-360 | reference definition of `interpolate`; its content is stated by `Session.InterpolatePlaceholderThen`, `Session.InterpolateCopiesThen`, `Session.InterpolateNoVariables` and `Session.InterpolatePlaceholder` |
| Session.NormalizeMetricName | lib/dsl/runtime.js:324-330 | the two dashed names map to the state keys; every other name that is not an `Object.prototype` member is kept |
| Session.Emit | lib/dsl/runtime.js:193 | `onOutput` appends exactly its output to the callback log |
| Session.CompleteChapter | lib/dsl/runtime.js:335-340 | the current chapter is appended to `completedChapters` unless already there, and then the list is unchanged; the callback fires on every call, and nothing else changes |
| Session.CompleteChapterNoDuplicates | lib/dsl/runtime.js:335-340 | `completedChapters` stays duplicate-free and only grows |
| Session.MetricsAfter | lib/dsl/runtime.js:306-311 | `applyMetric` changes no metric but the named one |
| Session.ApplyMetric | lib/dsl/runtime.js:303-319 | `applyMetric` changes only metrics and the callback log, and no metric other than the named one |
| Session.ApplyMetricTable | lib/dsl/runtime.js:303-311 | the metric table after `applyMetric` is the one the metric-update rule describes |
| Session.ApplyMetricDelta | lib/dsl/runtime.js:306-308 | a delta leaves the metric at clamp(old + delta), within [0, 1] unless NaN |
| Session.ApplyMetricEvents | lib/dsl/runtime.js:313-318 | the metric callback reports the name and new value on every call; a correction output follows exactly when pressure is at least 1 |
| Session.ApplyMetricAbsolute | lib/dsl/runtime.js:309-311 | lib/dsl/runtime.js stores an absolute value as parsed, unclamped; the engine copy leaves the metric alone |
| Session.ApplyMetricEngineInRange | lib/narrative-engine.js:416-426 | in the engine copy every metric stays NaN or within [0, 1] |
| Exec.KeepsTrans | lib/dsl/runtime.js:143-164 | the run invariant composes over consecutive steps |
| Exec.Effect | lib/dsl/runtime.js:184-210 | a leaf node changes only metrics and the callback log, and keeps the run invariant |
| Exec.CompleteKeeps | lib/dsl/runtime.js:335-340 | completing a chapter keeps the run invariant |
| Exec.WrapKeeps | lib/dsl/runtime.js:220-259 | a beat, checkpoint or prompt adds only what keeps the run invariant after its children |
| Exec.ContainerKeeps | lib/dsl/runtime.js:172-182 | a beat or checkpoint keeps the run invariant, throws only the allowed errors, and never pauses |
| Exec.PromptKeeps | lib/dsl/runtime.js:236-248 | a prompt keeps the run invariant and throws only the allowed errors |
| Exec.LeafKeeps | lib/dsl/runtime.js:184-213 | any other node keeps the run invariant and throws only the allowed errors |
| Exec.RunNode | lib/dsl/runtime.js:170-215 | reference definition of `executeNode`; its content is stated by `Exec.RunNodeKeeps`, `Exec.RunPromptWaits`, `Exec.NestedNeverPauses`, `Exec.DslTransition`/`Exec.EngineTransition` and `Exec.RunNodeKeepsPlace`, and the method `Runtime.NarrativeRuntime.ExecuteNode` is proved equal to it |
| Exec.RunNodes | lib/dsl/runtime.js:227-231 | reference definition of `executeNodes`; its content is stated by `Exec.RunNodesKeeps` and `Exec.RunNodesKeepsPlace`, and the method `Runtime.NarrativeRuntime.ExecuteNodes` is proved equal to it |
| Exec.TransitionTo | lib/dsl/runtime.js:287-298 | reference definition of `executeTransition`; its content is stated by `Exec.DslTransition`, `Exec.EngineTransition` and `Exec.TransitionKeeps`, and the method `Runtime.NarrativeRuntime.ExecuteTransition` is proved equal to it |
| Exec.FromIndex | lib/dsl/runtime.js:143-164 | reference definition of `executeFromIndex`; its content is stated by `Exec.FromIndexStep`, `Exec.FromIndexAtEnd`, `Exec.FromIndexContinues`, `Exec.FromIndexKeeps` and `Exec.FromIndexFuel`, and the method `Runtime.NarrativeRuntime.ExecuteFromIndex` is proved equal to it |
| Exec.RunNodeKeeps | lib/dsl/runtime.js:170-215 | `executeNode` never touches captured variables or prompt results, only grows the log and the duplicate-free completed list, and keeps metrics in range for the engine |
| Exec.RunNodesKeeps | lib/dsl/runtime.js:227-231 | `executeNodes` keeps the run invariant and never pauses |
| Exec.TransitionKeeps | lib/dsl/runtime.js:287-298 | a transition keeps the run invariant |
| Exec.FromIndexStep | lib/dsl/runtime.js:146-156 | one iteration of the chapter loop |
| Exec.FromIndexKeeps | lib/dsl/runtime.js:143-164 | `executeFromIndex` keeps the run invariant |
| Exec.RunNodeFuel | lib/dsl/runtime.js:170-215 | a node run that did not run out of fuel has the same outcome with more fuel |
| Exec.RunNodesFuel | lib/dsl/runtime.js:227-231 | a node-list run that did not run out of fuel has the same outcome with more fuel |
| Exec.TransitionFuel | lib/dsl/runtime.js:287-298 | a transition that did not run out of fuel has the same outcome with more fuel |
| Exec.FromIndexFuel | lib/dsl/runtime.js:143-164 | fuel is only a bound: a chapter run that did not run out of it has the same outcome with any larger amount |
| Exec.RunPromptWaits | lib/dsl/runtime.js:236-248 | a prompt whose question runs leaves the session waiting on that prompt, reports it, and pauses |
| Exec.FromIndexAtEnd | lib/dsl/runtime.js:159-163 | at the end of the chapter the loop completes it exactly when no top-level node is a checkpoint |
| Exec.FromIndexContinues | lib/dsl/runtime.js:146-156 | the loop stops early only at a node that pauses; otherwise it goes on at the next index |
| Exec.NestedNeverPauses | lib/dsl/runtime.js:227-231 | a beat, checkpoint or response body containing a prompt or transition still does not pause the chapter loop |
| Exec.DslTransition | lib/dsl/runtime.js:287-298 | a transition to an unknown chapter throws and changes nothing; to a known one it sets the chapter, resets the index and runs the target |
| Exec.EngineTransition | lib/narrative-engine.js:398-403 | the engine's transition never throws over its target, always sets chapter and index 0, and runs the target only if it exists |
| Exec.RunStart | lib/dsl/runtime.js:63-67 | `run` sets an unset chapter to the first chapter's id with index 0, and otherwise leaves the state alone |
| Exec.RunChapterNotFound | lib/dsl/runtime.js:62-78 | `run` throws "Chapter not found" exactly when its starting chapter is unknown; every run keeps the run invariant |
| Exec.Run | lib/dsl/runtime.js:62-78 | reference definition of `run`; its content is stated by `Exec.RunStart` and `Exec.RunChapterNotFound`, and the method `Runtime.NarrativeRuntime.Run` is proved equal to it |
| Exec.AnsweredSpec | lib/dsl/runtime.js:92-107 | before the response runs: the classification is recorded under the prompt id, the capture holds the captured value and no other variable changes, and the wait is over |
| Exec.Captured | lib/dsl/runtime.js:98-100 | reference definition of the value stored for a capture: the raw input here; in lib/narrative-engine.js `result.extractedValue` when it is truthy, else the input; stated by `Exec.AnsweredSpec` |
| Exec.Answered | lib/dsl/runtime.js:92-107 | reference definition of the state before the response runs; its content is stated by `Exec.AnsweredSpec`, and the method `Runtime.NarrativeRuntime.Answer` is proved equal to it |
| Exec.ProcessInput | lib/dsl/runtime.js:83-120 | reference definition of `processInput`; its content is stated by `Exec.ProcessInputSpec`, `Exec.ProcessInputNoResponse` and `Exec.ProcessInputResponds`, and the method `Runtime.NarrativeRuntime.ProcessInput` is proved equal to it |
| Exec.ProcessInputSpec | lib/dsl/runtime.js:83-120 | "Not awaiting input" is thrown exactly when no prompt is pending, before any change; otherwise the recorded classification and capture survive the rest of the run |
| Exec.ProcessInputNoResponse | lib/dsl/runtime.js:110-116 | no response content runs when no response matches; the index advances past the prompt and the chapter resumes |
| Exec.RunNodeKeepsPlace | lib/dsl/runtime.js:170-215 | a node with no transition inside leaves the chapter and the node index unchanged |
| Exec.RunNodesKeepsPlace | lib/dsl/runtime.js:227-231 | a node list with no transition inside leaves the chapter and the node index unchanged |
| Exec.ProcessInputResponds | lib/dsl/runtime.js:103-116 | when a response is found its content runs; an error ends the call, otherwise the chapter resumes after the stopping node, which is the node after the prompt when the response holds no transition |
| Exec.ResetToChapter | lib/dsl/runtime.js:380-393 | an unknown id throws and changes nothing; otherwise the chapter is set at index 0, not waiting, with pressure 0 and everything else untouched |
| Exec.ResetKeepsInvariants | lib/dsl/runtime.js:380-393 | after a successful reset the session is consistently not waiting, pressure is 0, and metrics in range stay in range |
| Exec.LastCheckpointSpec | lib/dsl/runtime.js:398-403 | the restart point is the last completed chapter; with none completed it is the first chapter's id when that is a non-empty string, else `null`; a freshly completed chapter becomes the restart point |
| Exec.LastCheckpoint | lib/dsl/runtime.js:398-403 | reference definition of `getLastCheckpoint`; its content is stated by `Exec.LastCheckpointSpec` |
| Runtime.GameState.constructor | lib/dsl/runtime.js:13-36 | a new state record matches `createGameState` |
| Runtime.NarrativeRuntime.constructor | lib/dsl/runtime.js:42-57 | the runtime files the chapters by id, with an empty callback log |
| Runtime.NarrativeRuntime.ChapterAt | lib/dsl/runtime.js:69 | `this.chapters[key]` is the last chapter filed under that key |
| Runtime.NarrativeRuntime.Output | lib/dsl/runtime.js:193 | `onOutput` appends the output to the log and changes nothing else |
| Runtime.NarrativeRuntime.CompleteChapter | lib/dsl/runtime.js:335-340 | the in-place update performs `completeChapter` |
| Runtime.NarrativeRuntime.ApplyMetric | lib/dsl/runtime.js:303-319 | the in-place update performs `applyMetric` |
| Runtime.NarrativeRuntime.SetMetric | lib/dsl/runtime.js:306-311 | the metric assignment writes the table the update rule gives |
| Runtime.NarrativeRuntime.ExecuteLeaf | lib/dsl/runtime.js:184-210 | a leaf node's in-place effect is the specified one |
| Runtime.NarrativeRuntime.ExecuteNode | lib/dsl/runtime.js:170-215 | `executeNode` mutates the record and returns as the execution semantics say |
| Runtime.NarrativeRuntime.ExecutePrompt | lib/dsl/runtime.js:236-248 | `executePrompt` mutates the record and pauses as specified |
| Runtime.NarrativeRuntime.ExecuteBlock | lib/narrative-engine.js:368-409 | a generic engine block runs by its type name as specified |
| Runtime.NarrativeRuntime.ExecuteNodes | lib/dsl/runtime.js:227-231 | `executeNodes` runs every node in turn and ignores their results |
| Runtime.NarrativeRuntime.ExecuteTransition | lib/dsl/runtime.js:287-298 | `executeTransition` mutates the record as specified |
| Runtime.NarrativeRuntime.ExecuteFromIndex | lib/dsl/runtime.js:143-164 | the while loop over `currentNodeIndex` performs the specified chapter run |
| Runtime.NarrativeRuntime.ExecuteStep | lib/dsl/runtime.js:147-155 | one loop turn either continues at the next index or ends the run as specified |
| Runtime.NarrativeRuntime.Run | lib/dsl/runtime.js:62-78 | `run` mutates the record as specified |
| Runtime.NarrativeRuntime.ProcessInput | lib/dsl/runtime.js:83-120 | `processInput` mutates the record as specified |
| Runtime.NarrativeRuntime.Answer | lib/dsl/runtime.js:92-107 | the part before the response records, captures and clears the wait as specified |
| Runtime.NarrativeRuntime.ResetToChapter | lib/dsl/runtime.js:380-393 | `resetToChapter` mutates the record as specified |
| DefaultEvaluator.Keywords | lib/dsl/runtime.js:444 | every keyword `/\b\w{4,}\b/g` finds has at least four characters |
| DefaultEvaluator.KeywordsAreWords | lib/dsl/runtime.js:444 | every keyword is a whole word of the criteria |
| DefaultEvaluator.WordsAreKeywords | lib/dsl/runtime.js:444 | every whole word of four or more characters is a keyword |
| DefaultEvaluator.KeywordOccursSpec | lib/dsl/runtime.js:445 | some keyword occurs in the input exactly when some long whole word does |
| DefaultEvaluator.MatchesCriteriaSpec | lib/dsl/runtime.js:442-446 | a criterion matches exactly when a whole word of four or more characters of the lower-cased criteria occurs in the input |
| DefaultEvaluator.MatchesCriteria | lib/dsl/runtime.js:442-446 | reference definition of `matchesCriteria`; its content is stated by `DefaultEvaluator.MatchesCriteriaSpec` and `DefaultEvaluator.KeywordOccursSpec` |
| DefaultEvaluator.FirstMatch | lib/dsl/runtime.js:415-419 | the first matching criterion, with none before it; none when no criterion matches |
| DefaultEvaluator.ScanCriteria | lib/dsl/runtime.js:415-419 | each `for` loop with its early return answers for the first matching criterion |
| DefaultEvaluator.Evaluate | lib/dsl/runtime.js:409-437 | the three loops compute the specified evaluation |
| DefaultEvaluator.DefaultEvaluation | lib/dsl/runtime.js:409-437 | reference definition of the default evaluator; its content is stated by `DefaultEvaluator.DefaultEvaluationSpec` and `DefaultEvaluator.AnyMatchesFirst`, and the method `DefaultEvaluator.Evaluate` is proved equal to it |
| DefaultEvaluator.DefaultEvaluationSpec | lib/dsl/runtime.js:409-437 | fail when some fail criterion matches, else ideal when some ideal does, else near; a match carries the first matching criterion's path; nothing matching gives near without a path |
| DefaultEvaluator.AnyMatchesFirst | lib/dsl/runtime.js:415-419 | some criterion matches exactly when there is a first matching one |
| Evaluator.EntityLines | lib/dsl/evaluator.js:80-82 | the entity's lines are the texts of exactly the `entity` speaker lines of the question |
| Evaluator.QuestionTextEmpty | lib/dsl/evaluator.js:80-87 | the question line is left out exactly when there is no entity line, or a single empty one |
| Evaluator.BuildEvaluationPrompt | lib/dsl/evaluator.js:71-120 | the appending method builds exactly the specified prompt |
| Evaluator.EvaluationPrompt | lib/dsl/evaluator.js:71-120 | reference definition of `buildEvaluationPrompt`; its content is stated by `Evaluator.EvaluationPromptContext`, `Evaluator.EvaluationPromptCriteria`, `Evaluator.EvaluationPromptEnd` and `Evaluator.QuestionTextEmpty`, and the method `Evaluator.BuildEvaluationPrompt` is proved equal to it |
| Evaluator.BuildHead | lib/dsl/evaluator.js:72-90 | the context line, question line and criteria heading are appended as specified |
| Evaluator.AppendVariables | lib/dsl/evaluator.js:109-114 | the variables heading appears only for non-empty variables, then one line per variable |
| Evaluator.AppendCriteria | lib/dsl/evaluator.js:92-106 | each loop appends the lines of its criteria, in declaration order |
| Evaluator.EvaluationPromptContext | lib/dsl/evaluator.js:75-77 | the prompt starts with a Context line exactly when the prompt declares a context |
| Evaluator.EvaluationPromptEnd | lib/dsl/evaluator.js:117 | the prompt always ends by asking for the classification: its last characters are `\nClassification:` |
| Evaluator.CriteriaLinesContain | lib/dsl/evaluator.js:92-106 | every criterion has its line in its loop's output |
| Evaluator.EvaluationPromptCriteria | lib/dsl/evaluator.js:90-106 | after the heading come ideal lines, then near lines, then fail lines, each in declaration order, and every criterion's line is in the prompt |
| Evaluator.FindIdeal | lib/dsl/evaluator.js:132 | the first ideal whose path equals the reply's path ignoring case, with none before it |
| Evaluator.Classify | lib/dsl/evaluator.js:129-150 | the class is ideal, near or fail; a returned path is always the declared path of one of the ideals |
| Evaluator.ParseEvaluationResult | lib/dsl/evaluator.js:125-151 | total: always ideal, near or fail, and a non-null path is always one of the prompt's ideal paths |
| Evaluator.IdealColonIsIdeal | lib/dsl/evaluator.js:129 | an `IDEAL:` reply also starts with `IDEAL` |
| Evaluator.ClassifyPrefixes | lib/dsl/evaluator.js:129-150 | a reply starting with `IDEAL` is ideal, one starting with `FAIL` is fail, anything else (empty included) is near |
| Evaluator.ClassifyPath | lib/dsl/evaluator.js:129-138 | a path is returned exactly when the reply is `IDEAL:x` and a declared ideal path equals `x` ignoring case; it is the first such path, in its declared spelling |
| Evaluator.ClassifySameClass | lib/narrative-engine.js:518-525 | the class depends on the reply text alone, in both copies |
| Evaluator.ParseEvaluationResultIgnoresCase | lib/dsl/evaluator.js:126 | replies that differ only in letter case are read alike |
| Evaluator.Capitalise | lib/narrative-engine.js:514 | the first letter is upper-cased and the rest lower-cased, at the same length |
| Evaluator.Extracted | lib/narrative-engine.js:511-515 | an extracted value is never empty |
| Evaluator.ParseReply | lib/narrative-engine.js:505-525 | the engine's reply parser always yields ideal, near or fail, and extracts a non-empty value only for `player_name`/`player_age` |
| Evaluator.ParseReplyAgrees | lib/narrative-engine.js:505-525 | without extraction, the engine's reply parser gives the class and path `parseEvaluationResult` gives |
| Evaluator.ClassifyFlavours | lib/narrative-engine.js:518-525 | when no ideal declares the empty path, the two classifiers agree |
| Evaluator.SplitAtBar | lib/narrative-engine.js:509 | a reply containing `\|` splits into at least two parts, the first being the text before the first `\|` |
| Evaluator.CapitaliseShape | lib/narrative-engine.js:514 | a capitalised name starts upper-case, continues lower-case, and gains no `\|` |
| Evaluator.ExtractedSpec | lib/narrative-engine.js:510-515 | the value is the trimmed second part, absent when empty, holds no `\|`, and for `player_name` is capitalised |
| Evaluator.ParseReplyExtracts | lib/narrative-engine.js:508-525 | with extraction and a `\|`, the class is read from the text before the first `\|` as `parseEvaluationResult` reads it, and the value from the text after it |
| Evaluator.IdealTagPath | lib/dsl/evaluator.js:163 | the group of a `[ideal:word]` match with no match before it, and none when there is no match |
| Evaluator.IdealTagPathShape | lib/dsl/evaluator.js:163-166 | a reported path is a non-empty word written as `[ideal:path]` in the input |
| Evaluator.MockEvaluate | lib/dsl/evaluator.js:156-179 | the mock extracts nothing, and reports a path only for ideal |
| Evaluator.MockEvaluateSpec | lib/dsl/evaluator.js:156-179 | markers are read ignoring case, `[ideal]` before `[near]` before `[fail]`, else the configured default; a path only from `[ideal:x]` beside `[ideal]` |
| Narrative.InitialState | lib/narrative.js:163-170 | the initial state is act 1 with no flag set |
| Narrative.HasWordFrom | lib/narrative.js:100 | `/\bw\b/` matches exactly when the word occurs with no word character on either side |
| Narrative.DetectTriggers | lib/narrative.js:93-137 | at most six triggers fire on one message |
| Narrative.DetectNameDiscussed | lib/narrative.js:98-109 | NAME_DISCUSSED fires exactly when the flag is unset and the message has a name pattern |
| Narrative.DetectNameReveal | lib/narrative.js:112-118 | the reveal emits SET_FLAG(NAME_REVEALED), ADVANCE_ACT and the nameReveal beat, in that order, exactly when discussed, not yet revealed and the message has the word "leandra" |
| Narrative.DiscussionExcludesReveal | lib/narrative.js:98-118 | the name discussion and the name reveal never fire on the same message |
| Narrative.DetectPhone | lib/narrative.js:121-134 | the phone triggers fire exactly from act 2 on, before authentication, on a phone pattern |
| Narrative.ApplyTriggers | lib/narrative.js:175-191 | the loop over a copy computes the triggers' effect in order; the caller's state is a value and stays unchanged |
| Narrative.ApplyTrigger | lib/narrative.js:179-186 | reference definition of one turn of the `switch`; its content is stated by `Narrative.ApplyTriggerNoEffect` and `Narrative.ApplyAllSnoc` |
| Narrative.ApplyAll | lib/narrative.js:175-191 | reference definition of the trigger loop; its content is stated by `Narrative.ApplyAllAct` and `Narrative.ApplyAllFlags`, and the method `Narrative.ApplyTriggers` is proved equal to it |
| Narrative.ApplyAllAct | lib/narrative.js:183-185 | from an act of at most 3 each ADVANCE_ACT adds one, capped at 3: the act never decreases |
| Narrative.ApplyAllFlags | lib/narrative.js:180-182 | a flag is set afterwards exactly when it was set before or a SET_FLAG names it; other flags keep their entry |
| Narrative.ApplyTriggerNoEffect | lib/narrative.js:178-187 | NARRATIVE_BEAT and INITIATE_AUTH leave the state unchanged |
| Narrative.GetSystemPrompt | lib/narrative.js:142-144 | the Recognition prompt is used exactly in act 2; every other act falls back to the act-1 prompt |
| Narrative.RevealEndsEmergence | lib/narrative.js:18-27 | in act 1 a revealing message takes the state to act 2, meets the Emergence exit condition and selects the Recognition prompt |
| Narrative.ApplyAllSnoc | lib/narrative.js:178-187 | applying one more trigger is one more loop step |
| Text.Trim | lib/dsl/parser.js:42 | `trim` keeps one slice of its argument, drops only white space before and after it, and leaves no white space at either end |
| Text.TrimIsSlice | lib/dsl/parser.js:42 | trimming keeps one slice of the text and drops only white space before and after it |
| Text.TrimUnchanged | lib/dsl/parser.js:42 | a string without white space at either end is its own trim |
| Text.Lower | lib/dsl/parser.js:86 | `toLowerCase` maps each character and keeps the length |
| Text.Upper | lib/dsl/evaluator.js:126 | `toUpperCase` maps each character and keeps the length |
| Text.TrimUpper | lib/dsl/evaluator.js:126 | trimming and upper-casing commute |
| Text.UpperUpper | lib/dsl/evaluator.js:130 | upper-casing twice is upper-casing once |
| Text.Contains | lib/dsl/evaluator.js:162 | `includes` holds exactly when the text occurs at some index |
| Text.Split | lib/dsl/parser.js:38 | `split` yields at least one part and no part holds the separator |
| Text.JoinSplit | lib/dsl/parser.js:38 | joining the parts of a split with the separator restores the text |

## Left out

- Fuel: the runtime can run forever. A transition can re-enter a chapter, and a prompt nested in a beat does not stop the loop. `Exec` therefore counts loop iterations and recursive calls against a `fuel` bound, and throws `OutOfFuel` when it runs out. Runs that need more steps than the bound are not modelled. A run that finishes within the bound gives the same outcome with any larger bound (`Exec.FromIndexFuel`).
- Object keys: the chapter table and `promptResults` are maps keyed by `String(id)`. `Object.prototype` members (such as `constructor`) are not modelled as keys: not in the chapter table, `promptResults`, `variables[varName]` in `interpolate` (lib/dsl/runtime.js:357-358, lib/narrative-engine.js:437), or `map[name] || name` in `normalizeMetricName` (lib/dsl/runtime.js:324-329). In the source, `{constructor}` is replaced by the `Object` function's text, and `normalizeMetricName("constructor")` returns that function. The ordering of integer-like keys in `Object.entries` are not modelled. `variables` is an insertion-ordered list of entries.
- Metric names that collide with other state fields (a `<metric name="currentNodeIndex">`) are modelled as separate metric entries. They do not overwrite those fields.
- Values.ParseFloat: decimal literals only. Exponents, `Infinity`, hexadecimal forms and IEEE rounding are not modelled. Metrics are mathematical reals.
- Case mapping covers ASCII only: `toLowerCase`/`toUpperCase` leave non-ASCII characters alone. `\w` is ASCII as in JavaScript without the `u` flag. `\s` and `trim` use ECMAScript's full WhiteSpace and LineTerminator sets.
- `getCurrentChapterInfo` (lib/dsl/runtime.js:365-375) is a field projection and is not part of this model.
- `createdAt`/`updatedAt` timestamps, `new Date()` and `narrativeHistory` are not modelled.
- The async/await structure is not modelled. Callbacks are appends to an event log, made in source order.
- The evaluator is a parameter: `processInput` receives its answer. `createEvaluator`, its `fetch`, its HTTP error paths and its catch-all are not modelled.
- The engine's own evaluation prompt (lib/narrative-engine.js:456-479) is not modelled. Only its reply parsing is. The prompt is modelled for lib/dsl/evaluator.js.
- The engine's `defaultEvaluator` (lib/narrative-engine.js:441-443) always answers near. No member models it.
- `expect` in lib/dsl/parser.js and the "Expected chapter block" error cannot be reached from the top-level loop, which calls `parseChapter` only on a `:::chapter` token. The model has no state in which they fire.
- `getLastCheckpoint` is modelled as a function of the state (`Exec.LastCheckpoint`), without a method on the class.
- The texts of `PROMPTS` and `NARRATIVE_BEATS` are represented by names only.
- `detectTriggers` takes a `conversationHistory` argument that it never reads, so it is not modelled.
- The engine's `path: undefined` and the parser's `path: null` are both modelled as `None`.
- Narrative.ApplyAllAct: requires the starting act to be at most 3. `Math.min(act + 1, 3)` lowers a larger act to 3, and no reachable state has one.
