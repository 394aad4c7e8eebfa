/**
 * The JavaScript values the runtimes keep in their state record: chapter references that may be
 * `null` or `undefined`, numbers that may be `NaN`, and the `variables` object with its key order.
 */
module Values {
  import opened Wrappers
  import opened Text

  // ---------------------------------------------------------------------------------------------
  // Chapter references and property keys
  // ---------------------------------------------------------------------------------------------

  /** A value stored in `currentChapter` or `completedChapters`: a string, `null` or `undefined`. */
  datatype Ref = Null | Undefined | Id(id: string)

  /** The property key `obj[r]` uses: `String(r)`. */
  function Key(r: Ref): string {
    match r
    case Null => "null"
    case Undefined => "undefined"
    case Id(s) => s
  }

  /** `!!r`: only a non-empty string is truthy. */
  predicate Truthy(r: Ref) {
    r.Id? && r.id != ""
  }

  /** An optional AST field read as a JavaScript value: absent is `undefined`. */
  function RefOf(o: Option<string>): (r: Ref)
    ensures r.Undefined? <==> o.None?
    ensures o.Some? ==> r == Id(o.value)
  {
    match o
    case None => Undefined
    case Some(s) => Id(s)
  }

  /** `!!s` for an optional string. */
  predicate Present(o: Option<string>) {
    o.Some? && o.value != ""
  }

  // ---------------------------------------------------------------------------------------------
  // Numbers: reals and NaN
  // ---------------------------------------------------------------------------------------------

  /** A metric value: a number or `NaN` (`undefined + x` and `parseFloat` of a non-number are NaN). */
  datatype Num = Real(value: real) | NaN

  predicate IsDigit(c: char) { '0' <= c <= '9' }

  function DigitValue(c: char): real
    requires IsDigit(c)
  {
    (c as int - '0' as int) as real
  }

  /** End of the run of decimal digits starting at `i`. */
  function DigitEnd(s: string, i: nat): (j: nat)
    requires i <= |s|
    ensures i <= j <= |s|
    ensures forall k :: i <= k < j ==> IsDigit(s[k])
    ensures j < |s| ==> !IsDigit(s[j])
    decreases |s| - i
  {
    if i < |s| && IsDigit(s[i]) then DigitEnd(s, i + 1) else i
  }

  /** The value of a string of digits read as an integer. */
  function IntegerValue(ds: string): real
    requires forall k :: 0 <= k < |ds| ==> IsDigit(ds[k])
  {
    if ds == [] then 0.0 else IntegerValue(ds[..|ds| - 1]) * 10.0 + DigitValue(ds[|ds| - 1])
  }

  /** The value of the digits after a decimal point. */
  function FractionValue(ds: string): real
    requires forall k :: 0 <= k < |ds| ==> IsDigit(ds[k])
  {
    if ds == [] then 0.0 else (DigitValue(ds[0]) + FractionValue(ds[1..])) / 10.0
  }

  /** Where a decimal literal may begin: a digit, or a point followed by a digit. */
  predicate StartsNumber(u: string) {
    (u != [] && IsDigit(u[0])) || (|u| >= 2 && u[0] == '.' && IsDigit(u[1]))
  }

  /** What follows an optional leading sign. */
  function Unsigned(t: string): string {
    if t != [] && (t[0] == '+' || t[0] == '-') then t[1..] else t
  }

  /** The longest decimal literal at the start of `u`, without a sign: its value, if there is one. */
  function Magnitude(u: string): (r: Option<real>)
    ensures r.Some? <==> StartsNumber(u)
  {
    var i := DigitEnd(u, 0);
    var j := if i < |u| && u[i] == '.' then DigitEnd(u, i + 1) else i;
    var fraction := if j > i then u[i + 1..j] else [];
    assert i == 0 && |u| >= 2 && u[0] == '.' && IsDigit(u[1]) ==> j > 1;
    if i == 0 && fraction == [] then None
    else Some(IntegerValue(u[..i]) + FractionValue(fraction))
  }

  /**
   * `parseFloat(s)`: leading white space, an optional sign, then the longest prefix of the form
   * digits [ '.' digits ] or '.' digits; NaN when there is none.
   */
  function ParseFloat(s: string): (r: Num)
    ensures r.Real? <==> StartsNumber(Unsigned(TrimStart(s)))
  {
    var t := TrimStart(s);
    match Magnitude(Unsigned(t))
    case None => NaN
    case Some(m) => Real(if t != [] && t[0] == '-' then -m else m)
  }

  /** The run of digits starting at `i` ends at the first non-digit. */
  lemma {:induction false} DigitEndAt(s: string, i: nat, k: nat)
    requires i <= k <= |s|
    requires forall m :: i <= m < k ==> IsDigit(s[m])
    requires k == |s| || !IsDigit(s[k])
    ensures DigitEnd(s, i) == k
    decreases k - i
  {
    if i < k {
      DigitEndAt(s, i + 1, k);
    }
  }

  /** Digits, a point at `n` and digits read as the integer part plus the fraction. */
  lemma MagnitudeDecimal(u: string, n: nat)
    requires 0 < n < |u| && u[n] == '.'
    requires forall m :: 0 <= m < n ==> IsDigit(u[m])
    requires forall m :: n < m < |u| ==> IsDigit(u[m])
    ensures Magnitude(u) == Some(IntegerValue(u[..n]) + FractionValue(u[n + 1..]))
  {
    DigitEndAt(u, 0, n);
    DigitEndAt(u, n + 1, |u|);
    assert u[n + 1..|u|] == u[n + 1..];
  }

  /** Where `parseFloat` finds its number: after the white space and the sign. */
  lemma ParseFloatMagnitude(s: string)
    requires s != [] && !IsSpace(s[0])
    ensures ParseFloat(s) == match Magnitude(Unsigned(s))
                             case None => NaN
                             case Some(m) => Real(if s[0] == '-' then -m else m)
  {
    assert TrimStart(s) == s;
  }

  /** A literal made of digits, a point at `n` and digits reads as the value of its digits. */
  lemma ParseFloatDecimal(s: string, n: nat)
    requires 1 <= n < |s| && s[n] == '.'
    requires forall m :: 0 <= m < n ==> IsDigit(s[m])
    requires forall m :: n < m < |s| ==> IsDigit(s[m])
    ensures ParseFloat(s) == Real(IntegerValue(s[..n]) + FractionValue(s[n + 1..]))
  {
    ParseFloatMagnitude(s);
    assert Unsigned(s) == s;
    MagnitudeDecimal(s, n);
  }

  /** Dropping the sign shifts the point and the digits one place left. */
  lemma DropSign(s: string, n: nat)
    requires 2 <= n < |s| && s[n] == '.'
    requires forall m :: 0 < m < n ==> IsDigit(s[m])
    requires forall m :: n < m < |s| ==> IsDigit(s[m])
    ensures var u := s[1..];
      && u[n - 1] == '.'
      && (forall m :: 0 <= m < n - 1 ==> IsDigit(u[m]))
      && (forall m :: n - 1 < m < |u| ==> IsDigit(u[m]))
      && u[..n - 1] == s[1..n] && u[n..] == s[n + 1..]
  {
  }

  /** After a sign, the same literal reads as its value, negated after a minus sign. */
  lemma ParseFloatSignedDecimal(s: string, n: nat)
    requires 2 <= n < |s| && s[n] == '.' && (s[0] == '-' || s[0] == '+')
    requires forall m :: 0 < m < n ==> IsDigit(s[m])
    requires forall m :: n < m < |s| ==> IsDigit(s[m])
    ensures var magnitude := IntegerValue(s[1..n]) + FractionValue(s[n + 1..]);
      ParseFloat(s) == Real(if s[0] == '-' then -magnitude else magnitude)
  {
    DropSign(s, n);
    MagnitudeDecimal(s[1..], n - 1);
    var magnitude := IntegerValue(s[1..n]) + FractionValue(s[n + 1..]);
    assert Magnitude(Unsigned(s)) == Some(magnitude);
    ParseFloatMagnitude(s);
  }

  /** `a + b` where `a` may be `undefined` (a metric the state does not have yet). */
  function Add(a: Option<Num>, b: Num): (r: Num)
    ensures r.Real? <==> a.Some? && a.value.Real? && b.Real?
    ensures r.Real? ==> r.value == a.value.value + b.value
  {
    if a.Some? && a.value.Real? && b.Real? then Real(a.value.value + b.value) else NaN
  }

  /** `Math.max(0, Math.min(1, x))`, which keeps NaN. */
  function Clamp(x: Num): (r: Num)
    ensures r.NaN? <==> x.NaN?
    ensures r.Real? ==> 0.0 <= r.value <= 1.0
    ensures r.Real? && 0.0 <= x.value <= 1.0 ==> r == x
    ensures x.Real? && x.value < 0.0 ==> r == Real(0.0)
    ensures x.Real? && x.value > 1.0 ==> r == Real(1.0)
  {
    match x
    case NaN => NaN
    case Real(v) => Real(if v < 0.0 then 0.0 else if v > 1.0 then 1.0 else v)
  }

  /** `x >= 1.0` for a value that may be `undefined` or NaN. */
  predicate AtLeastOne(x: Option<Num>) {
    x.Some? && x.value.Real? && x.value.value >= 1.0
  }

  /** A metric is NaN or lies in [0, 1]. */
  predicate InUnitRange(x: Num) {
    x.Real? ==> 0.0 <= x.value <= 1.0
  }

  // ---------------------------------------------------------------------------------------------
  // The `variables` object: string keys in insertion order
  // ---------------------------------------------------------------------------------------------

  /** Entries of a plain object with string values, in the order `Object.entries` lists them. */
  type Vars = seq<(string, string)>

  /** `variables[k]`. */
  function Get(vars: Vars, k: string): (v: Option<string>)
    ensures v.Some? ==> (k, v.value) in vars
    ensures v.None? ==> forall e :: e in vars ==> e.0 != k
  {
    if vars == [] then None
    else if vars[0].0 == k then Some(vars[0].1)
    else Get(vars[1..], k)
  }

  predicate DistinctKeys(vars: Vars) {
    forall i, j :: 0 <= i < j < |vars| ==> vars[i].0 != vars[j].0
  }

  /**
   * `variables[k] = v`: an existing key keeps its place and takes the new value, a new key goes
   * last; every other key keeps its value.
   */
  function Put(vars: Vars, k: string, v: string): (r: Vars)
    ensures Get(r, k) == Some(v)
    ensures forall k' :: k' != k ==> Get(r, k') == Get(vars, k')
    ensures Get(vars, k).None? ==> r == vars + [(k, v)]
    ensures Get(vars, k).Some? ==> |r| == |vars|
  {
    if vars == [] then [(k, v)]
    else if vars[0].0 == k then
      assert ([(k, v)] + vars[1..])[1..] == vars[1..];
      [(k, v)] + vars[1..]
    else
      var rest := Put(vars[1..], k, v);
      assert ([vars[0]] + rest)[1..] == rest;
      [vars[0]] + rest
  }

  /** The entries after the first of a list with distinct keys have distinct keys. */
  lemma TailDistinct(vars: Vars)
    requires vars != [] && DistinctKeys(vars)
    ensures DistinctKeys(vars[1..])
    ensures Get(vars[1..], vars[0].0).None?
  {
    var tail := vars[1..];
    forall i, j | 0 <= i < j < |tail| ensures tail[i].0 != tail[j].0 {
      assert tail[i] == vars[i + 1] && tail[j] == vars[j + 1];
    }
    forall e | e in tail ensures e.0 != vars[0].0 {
      var m :| 0 <= m < |tail| && tail[m] == e;
      assert vars[m + 1] == e;
    }
  }

  /** An entry whose key the rest lacks, put before a list with distinct keys. */
  lemma ConsDistinct(e: (string, string), rest: Vars)
    requires DistinctKeys(rest) && Get(rest, e.0).None?
    ensures DistinctKeys([e] + rest)
  {
    var r := [e] + rest;
    forall i, j | 0 <= i < j < |r| ensures r[i].0 != r[j].0 {
      assert r[j] == rest[j - 1];
      if i == 0 {
        assert r[j] in rest;
      } else {
        assert r[i] == rest[i - 1];
      }
    }
  }

  /** Assigning a key never creates a second entry for it. */
  lemma {:induction false} PutDistinct(vars: Vars, k: string, v: string)
    requires DistinctKeys(vars)
    ensures DistinctKeys(Put(vars, k, v))
  {
    if vars == [] {
    } else if vars[0].0 == k {
      TailDistinct(vars);
      ConsDistinct((k, v), vars[1..]);
    } else {
      TailDistinct(vars);
      PutDistinct(vars[1..], k, v);
      ConsDistinct(vars[0], Put(vars[1..], k, v));
    }
  }
}
