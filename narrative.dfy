/**
 * The act and flag bookkeeping of lib/narrative.js: which narrative triggers a player's message
 * raises, how triggers change the game state, the system prompt of each act, and the conditions
 * that end each act.
 */
module Narrative {
  import opened Text

  // ---------------------------------------------------------------------------------------------
  // State, flags and triggers
  // ---------------------------------------------------------------------------------------------

  const NameDiscussed := "nameDiscussed"
  const NameRevealed := "nameRevealed"
  const AskedPhone := "askedPhone"
  const Authenticated := "authenticated"
  const CorrectionSeen := "correctionSeen"

  /** The game state: the current act and the flags object (`{ [flag]: true }`). */
  datatype GameState = GameState(act: int, flags: map<string, bool>)

  /** `state.flags[f]` is truthy. */
  predicate Flag(s: GameState, f: string) {
    f in s.flags && s.flags[f]
  }

  /** The trigger objects `{ type, flag }`, `{ type }` and `{ type, beat }`. */
  datatype Trigger =
    | SetFlag(flag: string)
    | AdvanceAct
    | NarrativeBeat(beat: string)
    | InitiateAuth

  /** `createInitialState()`. */
  function InitialState(): (s: GameState)
    ensures s.act == 1 && s.flags == map[]
    ensures forall f :: !Flag(s, f)
  {
    GameState(1, map[])
  }

  // ---------------------------------------------------------------------------------------------
  // Word patterns: `/\bword\b/.test(lowerMessage)`
  // ---------------------------------------------------------------------------------------------

  /** `w` occurs at `k` with no word character right before or right after it. */
  predicate WordAt(s: string, w: string, k: int) {
    && OccursAt(s, w, k)
    && (k == 0 || !IsWordChar(s[k - 1]))
    && (k + |w| == |s| || !IsWordChar(s[k + |w|]))
  }

  /** Some match of `/\bw\b/` at or after `k`. */
  function HasWordFrom(s: string, w: string, k: nat): (b: bool)
    requires k <= |s|
    ensures b <==> exists j :: k <= j && WordAt(s, w, j)
    decreases |s| - k
  {
    if WordAt(s, w, k) then true
    else if k == |s| then false
    else
      var b := HasWordFrom(s, w, k + 1);
      assert b <== exists j :: k <= j && WordAt(s, w, j) by {
        if exists j :: k <= j && WordAt(s, w, j) {
          var j :| k <= j && WordAt(s, w, j);
          assert j != k;
        }
      }
      b
  }

  /** `/\bw\b/.test(s)`. */
  predicate HasWord(s: string, w: string) {
    HasWordFrom(s, w, 0)
  }

  /** `patterns.some(p => p.test(s))`. */
  predicate AnyWord(s: string, patterns: seq<string>) {
    exists i :: 0 <= i < |patterns| && HasWord(s, patterns[i])
  }

  const NamePatterns: seq<string> := ["name", "call you", "called", "who are you", "identity"]
  const PhonePatterns: seq<string> := ["phone", "number", "text", "sms", "call me", "reach me"]

  // ---------------------------------------------------------------------------------------------
  // detectTriggers
  // ---------------------------------------------------------------------------------------------

  /** The name check: a name pattern in a message when naming has not come up yet. */
  function DiscussionTriggers(lower: string, s: GameState): seq<Trigger> {
    if !Flag(s, NameDiscussed) && AnyWord(lower, NamePatterns) then [SetFlag(NameDiscussed)] else []
  }

  /** The name reveal: `leandra` once naming has come up and before the name is revealed. */
  function RevealTriggers(lower: string, s: GameState): seq<Trigger> {
    if Flag(s, NameDiscussed) && !Flag(s, NameRevealed) && HasWord(lower, "leandra")
    then [SetFlag(NameRevealed), AdvanceAct, NarrativeBeat("nameReveal")]
    else []
  }

  /** The phone offer: a phone pattern from act 2 on, before authentication. */
  function PhoneTriggers(lower: string, s: GameState): seq<Trigger> {
    if s.act >= 2 && !Flag(s, Authenticated) && AnyWord(lower, PhonePatterns)
    then [SetFlag(AskedPhone), InitiateAuth]
    else []
  }

  /** `detectTriggers(message, conversationHistory, currentState)`; the history is not read. */
  function DetectTriggers(message: string, s: GameState): (ts: seq<Trigger>)
    ensures |ts| <= 6
  {
    var lower := Lower(message);
    DiscussionTriggers(lower, s) + RevealTriggers(lower, s) + PhoneTriggers(lower, s)
  }

  /** The name discussion flag is raised exactly when it is unset and a name pattern occurs. */
  lemma DetectNameDiscussed(message: string, s: GameState)
    ensures SetFlag(NameDiscussed) in DetectTriggers(message, s)
        <==> !Flag(s, NameDiscussed) && AnyWord(Lower(message), NamePatterns)
  {
    var lower := Lower(message);
    assert SetFlag(NameDiscussed) !in RevealTriggers(lower, s) + PhoneTriggers(lower, s);
  }

  /** The reveal condition of lib/narrative.js. */
  predicate RevealFires(message: string, s: GameState) {
    Flag(s, NameDiscussed) && !Flag(s, NameRevealed) && HasWord(Lower(message), "leandra")
  }

  /**
   * The name reveal raises the revealed flag, advances the act and plays the `nameReveal` beat,
   * first and in that order, exactly when naming has come up, the name is not yet revealed
   * and the message contains the word `leandra`; otherwise none of the three is raised.
   */
  lemma DetectNameReveal(message: string, s: GameState)
    ensures var ts := DetectTriggers(message, s);
      && (RevealFires(message, s) ==>
            |ts| >= 3 && ts[..3] == [SetFlag(NameRevealed), AdvanceAct, NarrativeBeat("nameReveal")])
      && (SetFlag(NameRevealed) in ts <==> RevealFires(message, s))
      && (AdvanceAct in ts <==> RevealFires(message, s))
      && (NarrativeBeat("nameReveal") in ts <==> RevealFires(message, s))
  {
    var lower := Lower(message);
    var d, r, p := DiscussionTriggers(lower, s), RevealTriggers(lower, s), PhoneTriggers(lower, s);
    var ts := d + r + p;
    assert SetFlag(NameRevealed) !in d && AdvanceAct !in d && NarrativeBeat("nameReveal") !in d;
    assert SetFlag(NameRevealed) !in p && AdvanceAct !in p && NarrativeBeat("nameReveal") !in p;
    if RevealFires(message, s) {
      assert d == [];
      assert ts[..3] == r;
    }
  }

  /** The name discussion and the name reveal never fire on the same message. */
  lemma DiscussionExcludesReveal(message: string, s: GameState)
    ensures var ts := DetectTriggers(message, s);
      !(SetFlag(NameDiscussed) in ts && SetFlag(NameRevealed) in ts)
  {
    DetectNameDiscussed(message, s);
    DetectNameReveal(message, s);
  }

  /**
   * The phone triggers (asked-for-phone flag, then authentication) are raised exactly from act 2
   * on, before authentication, for a message with a phone pattern.
   */
  lemma DetectPhone(message: string, s: GameState)
    ensures var ts := DetectTriggers(message, s);
      var fires := s.act >= 2 && !Flag(s, Authenticated) && AnyWord(Lower(message), PhonePatterns);
      && (SetFlag(AskedPhone) in ts <==> fires)
      && (InitiateAuth in ts <==> fires)
      && (fires ==> ts[|ts| - 2..] == [SetFlag(AskedPhone), InitiateAuth])
  {
    var lower := Lower(message);
    var d, r := DiscussionTriggers(lower, s), RevealTriggers(lower, s);
    assert SetFlag(AskedPhone) !in d + r && InitiateAuth !in d + r;
  }

  // ---------------------------------------------------------------------------------------------
  // applyTriggers
  // ---------------------------------------------------------------------------------------------

  function Min(a: int, b: int): int {
    if a < b then a else b
  }

  /** One iteration of the `switch` in `applyTriggers`. */
  function ApplyTrigger(s: GameState, t: Trigger): GameState {
    match t
    case SetFlag(f) => s.(flags := s.flags[f := true])
    case AdvanceAct => s.(act := Min(s.act + 1, 3))
    case NarrativeBeat(_) => s
    case InitiateAuth => s
  }

  /** The triggers applied in order. */
  function ApplyAll(s: GameState, ts: seq<Trigger>): GameState
    decreases |ts|
  {
    if ts == [] then s else ApplyTrigger(ApplyAll(s, ts[..|ts| - 1]), ts[|ts| - 1])
  }

  /**
   * `applyTriggers(state, triggers)`: the state is a value, so the caller's state and its flags
   * are left as they were; the copy takes the triggers one by one.
   */
  method ApplyTriggers(state: GameState, triggers: seq<Trigger>) returns (newState: GameState)
    ensures newState == ApplyAll(state, triggers)
  {
    newState := state;
    for i := 0 to |triggers|
      invariant newState == ApplyAll(state, triggers[..i])
    {
      assert triggers[..i + 1][..i] == triggers[..i];
      match triggers[i]
      case SetFlag(f) => newState := newState.(flags := newState.flags[f := true]);
      case AdvanceAct => newState := newState.(act := Min(newState.act + 1, 3));
      case NarrativeBeat(_) =>
      case InitiateAuth =>
    }
    assert triggers[..|triggers|] == triggers;
  }

  /** The number of `ADVANCE_ACT` triggers in `ts`. */
  function Advances(ts: seq<Trigger>): nat
    decreases |ts|
  {
    if ts == [] then 0 else Advances(ts[..|ts| - 1]) + (if ts[|ts| - 1] == AdvanceAct then 1 else 0)
  }

  /**
   * From an act of at most 3 each `ADVANCE_ACT` adds one, stopping at 3: the act never goes down
   * and never passes 3.
   */
  lemma {:induction false} ApplyAllAct(s: GameState, ts: seq<Trigger>)
    requires s.act <= 3
    ensures ApplyAll(s, ts).act == Min(s.act + Advances(ts), 3)
    ensures s.act <= ApplyAll(s, ts).act <= 3
    decreases |ts|
  {
    if ts != [] {
      ApplyAllAct(s, ts[..|ts| - 1]);
    }
  }

  /**
   * A flag is set after the triggers exactly when it was set before or a `SET_FLAG` names it; a
   * flag no trigger names keeps its entry.
   */
  lemma {:induction false} ApplyAllFlags(s: GameState, ts: seq<Trigger>)
    ensures forall f :: Flag(ApplyAll(s, ts), f) <==> Flag(s, f) || SetFlag(f) in ts
    ensures forall f :: SetFlag(f) !in ts ==>
      (f in ApplyAll(s, ts).flags <==> f in s.flags) && (f in s.flags ==> ApplyAll(s, ts).flags[f] == s.flags[f])
    decreases |ts|
  {
    if ts != [] {
      var init := ts[..|ts| - 1];
      ApplyAllFlags(s, init);
      assert ts == init + [ts[|ts| - 1]];
      forall f ensures SetFlag(f) in ts <==> SetFlag(f) in init || ts[|ts| - 1] == SetFlag(f) {
      }
    }
  }

  /** A beat or an authentication request changes nothing. */
  lemma ApplyTriggerNoEffect(s: GameState, t: Trigger)
    requires t.NarrativeBeat? || t.InitiateAuth?
    ensures ApplyAll(s, [t]) == s
  {
    assert [t][..0] == [];
  }

  // ---------------------------------------------------------------------------------------------
  // Acts and system prompts
  // ---------------------------------------------------------------------------------------------

  /** The two system prompts of `PROMPTS`. */
  datatype SystemPrompt = EmergencePrompt | RecognitionPrompt

  /** `getSystemPrompt(state)`: `PROMPTS[state.act] || PROMPTS[1]`. */
  function GetSystemPrompt(s: GameState): (p: SystemPrompt)
    ensures p == RecognitionPrompt <==> s.act == 2
  {
    if s.act == 2 then RecognitionPrompt else EmergencePrompt
  }

  /** `ACTS[...].triggers.next(state)` for the act with the given id. */
  predicate ActComplete(act: int, s: GameState) {
    if act == 1 then Flag(s, NameRevealed)
    else if act == 2 then Flag(s, Authenticated)
    else act == 3 && Flag(s, CorrectionSeen)
  }

  /**
   * In act 1, a message that fires the name reveal takes the state to act 2 with the Emergence
   * exit condition met and the Recognition prompt in force.
   */
  lemma RevealEndsEmergence(message: string, s: GameState)
    requires s.act == 1 && RevealFires(message, s)
    ensures var t := ApplyAll(s, DetectTriggers(message, s));
      && t.act == 2 && ActComplete(1, t) && GetSystemPrompt(t) == RecognitionPrompt
  {
    var lower := Lower(message);
    var ts := DetectTriggers(message, s);
    var d := DiscussionTriggers(lower, s);
    var p := PhoneTriggers(lower, s);
    assert d == [] && p == [];
    var none: seq<Trigger> := [];
    var one := none + [SetFlag(NameRevealed)];
    var two := one + [AdvanceAct];
    assert ts == two + [NarrativeBeat("nameReveal")];
    ApplyAllSnoc(s, none, SetFlag(NameRevealed));
    var t1 := ApplyAll(s, one);
    assert Flag(t1, NameRevealed) && t1.act == 1;
    ApplyAllSnoc(s, one, AdvanceAct);
    var t2 := ApplyAll(s, two);
    assert Flag(t2, NameRevealed) && t2.act == 2;
    ApplyAllSnoc(s, two, NarrativeBeat("nameReveal"));
  }

  /** Applying one more trigger. */
  lemma ApplyAllSnoc(s: GameState, ts: seq<Trigger>, t: Trigger)
    ensures ApplyAll(s, ts + [t]) == ApplyTrigger(ApplyAll(s, ts), t)
  {
    assert (ts + [t])[..|ts|] == ts;
  }
}
