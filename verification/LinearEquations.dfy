/** Parsing, solving and checking whole equations, and judging a student's steps. */
module LinearEquations {
  import opened Sequences
  import opened WhiteSpace
  import opened AlgebraParser
  import opened AlgebraTheory

  /** The net coefficient and constant of a parsed equation (its right side is then zero),
      the parser's `None`, or the exception of a malformed number. */
  datatype Equation = Linear(a: real, b: real) | NoEquation | Malformed

  function EqualsAt(s: string): (i: nat)
    ensures i <= |s| && '=' !in s[..i]
    ensures i < |s| ==> s[i] == '='
  {
    if s == "" || s[0] == '=' then 0
    else
      assert s[..1 + EqualsAt(s[1..])] == [s[0]] + s[1..][..EqualsAt(s[1..])];
      1 + EqualsAt(s[1..])
  }

  function NetEquation(l: Side, r: Side): Equation {
    if l == BadNumber || r == BadNumber then Malformed
    else if l == NoParse || r == NoParse then NoEquation
    else Linear(l.coeff - r.coeff, l.constant - r.constant)
  }

  /** Exactly one equals sign with something on both sides, then both sides evaluated. */
  function ParseEquation(s: string, v: char): Equation {
    var t := Trim(s);
    var i := EqualsAt(t);
    if i == |t| || t[..i] == "" || t[i + 1..] == "" || '=' in t[i + 1..] then NoEquation
    else if EvalSide(Trim(t[..i]), v) == BadNumber then Malformed
    else NetEquation(EvalSide(Trim(t[..i]), v), EvalSide(Trim(t[i + 1..]), v))
  }

  function SolveLinear(a: real, b: real, c: real): Option<real> {
    if Abs(a) < TINY then None else Some((c - b) / a)
  }

  /** Whether the value satisfies the equation; `None` is a raised exception. */
  function Satisfied(e: Equation, value: real): Option<bool> {
    match e
    case Malformed => None
    case NoEquation => Some(false)
    case Linear(a, b) => Some(Abs(a * value + b - 0.0) < CLOSE)
  }

  function CheckSubstitution(s: string, v: char, value: real): Option<bool> {
    Satisfied(ParseEquation(s, v), value)
  }

  // ----------------------------------------------------------- white space

  /** Trimming a side does not change what it evaluates to. */
  lemma TrimKeepsValue(s: string, v: char)
    requires ProperVariable(v)
    ensures EvalSide(Trim(s), v) == EvalSide(s, v)
  {
    var w := TrimLeftParts(s);
    var u := TrimRightParts(TrimLeft(s));
    assert s == w + Trim(s) + u;
    SpaceAround(w, Trim(s), u, v);
  }

  lemma {:induction false} EqualsAtFirst(l: string, r: string)
    requires '=' !in l
    ensures EqualsAt(l + "=" + r) == |l|
  {
    var s := l + "=" + r;
    if l != "" {
      assert s[1..] == l[1..] + "=" + r;
      EqualsAtFirst(l[1..], r);
    }
  }

  lemma TrimEquation(l: string, r: string)
    ensures Trim(l + "=" + r) == TrimLeft(l) + "=" + TrimRight(r)
  {
    assert l + "=" + r == l + ("=" + r);
    TrimLeftConcat(l, "=" + r);
    BlankTrims(l);
    BlankTrims(r);
    assert TrimLeft("=" + r) == "=" + r;
    assert TrimLeft(l + "=" + r) == TrimLeft(l) + "=" + r;
    TrimRightConcat(TrimLeft(l) + "=", r);
    assert TrimRight(TrimLeft(l) + "=") == TrimLeft(l) + "=";
  }

  /** What two sides make: nothing if one is blank, an exception if one holds a malformed
      number, nothing if one does not evaluate, and else their differences. */
  function OfSides(blank: bool, l: Side, r: Side): Equation {
    if blank then NoEquation
    else
      match (l, r)
      case (BadNumber, _) => Malformed
      case (_, BadNumber) => Malformed
      case (Value(p, q), Value(p', q')) => Linear(p - p', q - q')
      case _ => NoEquation
  }

  /** What the regular expression and the trimming amount to: for sides without an equals
      sign, `l = r` parses to the net of both sides unless one of them is blank. */
  lemma EquationOfSides(l: string, r: string, v: char)
    requires '=' !in l && '=' !in r && ProperVariable(v)
    ensures ParseEquation(l + "=" + r, v) ==
            if Blank(l) || Blank(r) then NoEquation else NetEquation(EvalSide(l, v), EvalSide(r, v))
  {
    TrimEquation(l, r);
    BlankTrims(l);
    BlankTrims(r);
    var l', r' := TrimLeft(l), TrimRight(r);
    var t := Trim(l + "=" + r);
    EqualsAtFirst(l', r');
    assert t[..|l'|] == l' && t[|l'| + 1..] == r';
    SidesTrimmed(l, r, v);
  }

  /** The same, case by case. */
  lemma {:induction false} EquationByCases(l: string, r: string, v: char)
    requires '=' !in l && '=' !in r && ProperVariable(v)
    ensures ParseEquation(l + "=" + r, v) == OfSides(Blank(l) || Blank(r), EvalSide(l, v), EvalSide(r, v))
  {
    EquationOfSides(l, r, v);
    NetByCases(EvalSide(l, v), EvalSide(r, v));
  }

  lemma NetByCases(l: Side, r: Side)
    ensures NetEquation(l, r) == OfSides(false, l, r)
  {
  }

  lemma SidesTrimmed(l: string, r: string, v: char)
    requires ProperVariable(v)
    ensures EvalSide(Trim(TrimLeft(l)), v) == EvalSide(l, v) && EvalSide(Trim(TrimRight(r)), v) == EvalSide(r, v)
  {
    TrimKeepsValue(TrimLeft(l), v);
    TrimKeepsValue(TrimRight(r), v);
    TrimmedOnce(l, r, v);
  }

  lemma TrimmedOnce(l: string, r: string, v: char)
    requires ProperVariable(v)
    ensures EvalSide(TrimLeft(l), v) == EvalSide(l, v) && EvalSide(TrimRight(r), v) == EvalSide(r, v)
  {
    var w := TrimLeftParts(l);
    assert w + TrimLeft(l) + "" == l by { assert w + TrimLeft(l) + "" == w + TrimLeft(l); }
    SpaceAround(w, TrimLeft(l), "", v);
    var u := TrimRightParts(r);
    assert "" + TrimRight(r) + u == r by { assert "" + TrimRight(r) == TrimRight(r); }
    SpaceAround("", TrimRight(r), u, v);
  }

  /** Text without an equals sign, or with more than one, is no equation. */
  lemma {:induction false} OneEqualsSign(s: string, v: char)
    ensures '=' !in s ==> ParseEquation(s, v) == NoEquation
    ensures forall l, m, r :: s == l + "=" + m + "=" + r ==> ParseEquation(s, v) == NoEquation
  {
    BlankTrims(s);
    BlankTrims(TrimLeft(s));
    forall l, m, r | s == l + "=" + m + "=" + r
      ensures ParseEquation(s, v) == NoEquation
    {
      TwoEqualsSigns(l, m, r, v);
    }
  }

  lemma {:induction false} TwoEqualsSigns(l: string, m: string, r: string, v: char)
    ensures ParseEquation(l + "=" + m + "=" + r, v) == NoEquation
  {
    assert l + "=" + m + "=" + r == l + "=" + (m + "=" + r);
    TrimEquation(l, m + "=" + r);
    var l', r' := TrimLeft(l), TrimRight(r);
    TrimAfterEquals(m, r);
    assert l' + "=" + (m + "=" + r') == l' + "=" + m + "=" + r';
    EqualsTwice(l', m, r');
  }

  lemma {:induction false} TrimAfterEquals(m: string, r: string)
    ensures TrimRight(m + "=" + r) == m + "=" + TrimRight(r)
  {
    TrimRightConcat(m + "=", r);
    EndsInEquals(m);
    BlankTrims(r);
    assert m + "=" + "" == m + "=";
  }

  lemma EndsInEquals(m: string)
    ensures TrimRight(m + "=") == m + "="
  {
  }

  /** The first of two equals signs is followed by the second. */
  lemma {:induction false} EqualsTwice(l: string, m: string, r: string)
    ensures var t := l + "=" + m + "=" + r; var i := EqualsAt(t); i < |t| && '=' in t[i + 1..]
  {
    var t := l + "=" + m + "=" + r;
    var j := |l| + 1 + |m|;
    assert t[|l|] == '=' && t[j] == '=';
    var i := EqualsAt(t);
    assert forall k :: 0 <= k < i ==> t[..i][k] == t[k] && t[..i][k] in t[..i];
    assert t[i + 1..][j - i - 1] == '=';
  }

  // ------------------------------------------------------------- balancing

  lemma NetOfAdded(l: Side, r: Side, t: Side)
    requires NetEquation(l, r).Linear? && t.Value?
    ensures NetEquation(Add(l, t), Add(r, t)) == NetEquation(l, r)
  {
  }

  /** Adding the same signed term to both sides of an equation that parses keeps its normal
      form. */
  lemma AddingToBothSides(l: string, r: string, t: string, v: char)
    requires '=' !in l && '=' !in r && '=' !in t && ProperVariable(v)
    requires ParseEquation(l + "=" + r, v).Linear?
    requires Strip(t) != "" && IsSign(Strip(t)[0]) && EvalSide(t, v).Value?
    ensures ParseEquation(l + t + "=" + (r + t), v) == ParseEquation(l + "=" + r, v)
  {
    EquationOfSides(l, r, v);
    EquationOfSides(l + t, r + t, v);
    SidesAdd(l, t, v);
    SidesAdd(r, t, v);
    BlankConcat(l, t);
    BlankConcat(r, t);
    NetOfAdded(EvalSide(l, v), EvalSide(r, v), EvalSide(t, v));
  }

  lemma RootOf(a: real, b: real, value: real)
    requires a != 0.0
    ensures a * ((0.0 - b) / a) + b == 0.0
    ensures Abs(a * value + b) == Abs(a) * Abs(value - (0.0 - b) / a)
  {
    var x := (0.0 - b) / a;
    assert a * x == 0.0 - b;
    assert a * value + b == a * (value - x);
    AbsTimes(a, value - x);
  }

  /** A computed solution always passes the substitution check, and a value passes exactly
      when it is near enough to the solution. */
  lemma SolutionSatisfies(e: Equation, value: real)
    requires e.Linear? && SolveLinear(e.a, e.b, 0.0).Some?
    ensures var x := SolveLinear(e.a, e.b, 0.0).value;
      Satisfied(e, x) == Some(true) && (Satisfied(e, value) == Some(true) <==> Abs(e.a) * Abs(value - x) < CLOSE)
  {
    RootOf(e.a, e.b, value);
  }

  lemma AbsTimes(p: real, q: real)
    ensures Abs(p * q) == Abs(p) * Abs(q)
  {
    if p < 0.0 && q < 0.0 { assert p * q == (-p) * (-q) >= 0.0; }
    else if p < 0.0 { assert p * q == -((-p) * q) && (-p) * q >= 0.0; }
    else if q < 0.0 { assert p * q == -(p * (-q)) && p * (-q) >= 0.0; }
    else { assert p * q >= 0.0; }
  }

  lemma SatisfiedIff(e: Equation, value: real)
    ensures Satisfied(e, value) == None <==> e == Malformed
    ensures Satisfied(e, value) == Some(true) <==> e.Linear? && -CLOSE < e.a * value + e.b < CLOSE
  {
  }

  /** The check raises on a malformed number, and passes exactly a value that leaves the
      normal form near zero. */
  lemma {:induction false} CheckMeans(s: string, v: char, value: real, e: Equation)
    requires e == ParseEquation(s, v)
    ensures CheckSubstitution(s, v, value) == None <==> e == Malformed
    ensures CheckSubstitution(s, v, value) == Some(true) <==> e.Linear? && -CLOSE < e.a * value + e.b < CLOSE
  {
    SatisfiedIff(e, value);
  }

  // ------------------------------------------------------ a student's steps

  /** `x` is the root of the equation: it parsed, and its coefficient is not practically zero. */
  predicate IsRoot(e: Equation, x: real) {
    e.Linear? && !(-TINY < e.a < TINY) && e.a * x + e.b == 0.0
  }

  ghost predicate Solvable(e: Equation) {
    exists x :: IsRoot(e, x)
  }

  /** A step parsed to `e` can be compared with an equation parsed to `e0`. */
  ghost predicate Comparable(e0: Equation, e: Equation) {
    Solvable(e0) && e.Linear?
  }

  lemma OnlyRoot(a: real, b: real, x: real)
    requires a != 0.0
    ensures a * x + b == 0.0 <==> x == (0.0 - b) / a
  {
    RootOf(a, b, x);
    var d := x - (0.0 - b) / a;
    if d != 0.0 { assert Abs(a) * Abs(d) > 0.0; }
  }

  lemma {:induction false} RootIff(e: Equation, x: real)
    ensures IsRoot(e, x) <==> e.Linear? && SolveLinear(e.a, e.b, 0.0) == Some(x)
  {
    if e.Linear? && !(-TINY < e.a < TINY) { OnlyRoot(e.a, e.b, x); }
  }

  lemma {:induction false} SolvableIff(e: Equation)
    ensures Solvable(e) <==> e.Linear? && SolveLinear(e.a, e.b, 0.0).Some?
  {
    if e.Linear? && SolveLinear(e.a, e.b, 0.0).Some? {
      RootIff(e, SolveLinear(e.a, e.b, 0.0).value);
    }
    if x :| IsRoot(e, x) { RootIff(e, x); }
  }

  /** What is said of a list of parsed steps. Where the equation has a root, a step with a
      root is valid exactly when the two are near, and a step that parses without one is not;
      every other step is valid. The whole is judged when some step could be compared, and
      holds when all steps are valid. */
  ghost predicate StepsJudged(e0: Equation, steps: seq<Equation>, valids: seq<bool>, whole: Option<bool>) {
    && |valids| == |steps|
    && (forall i, x, y :: 0 <= i < |steps| && IsRoot(e0, y) && IsRoot(steps[i], x) ==>
          (valids[i] <==> -CLOSE <= x - y <= CLOSE))
    && (forall i :: 0 <= i < |steps| && Comparable(e0, steps[i]) && !Solvable(steps[i]) ==> !valids[i])
    && (forall i :: 0 <= i < |steps| && !Comparable(e0, steps[i]) ==> valids[i])
    && whole == if exists i :: 0 <= i < |steps| && Comparable(e0, steps[i]) then Some(false !in valids) else None
  }

  function ParseAll(steps: seq<string>, v: char): seq<Equation> {
    seq(|steps|, i requires 0 <= i < |steps| => ParseEquation(steps[i], v))
  }

  datatype Verdict = Ignored | Kept | Broken | Raises

  /** How one step bears on the equation: without an equals sign, without a parse, or without
      a known solution it is ignored. */
  function JudgeStep(step: string, v: char, expected: Option<real>): Verdict {
    if '=' !in step then Ignored else JudgeParsed(ParseEquation(step, v), expected)
  }

  function JudgeParsed(e: Equation, expected: Option<real>): Verdict {
    match e
    case Malformed => Raises
    case NoEquation => Ignored
    case Linear(a, b) =>
      if expected.None? then Ignored
      else
        match SolveLinear(a, b, 0.0)
        case None => Broken
        case Some(x) => if Abs(x - expected.value) > CLOSE then Broken else Kept
  }

  /** The original equation's solution, `None` when there is none to compare with. */
  function Expected(equation: string, v: char): Option<real> {
    if equation == "" then None
    else
      match ParseEquation(equation, v)
      case Linear(a, b) => SolveLinear(a, b, 0.0)
      case _ => None
  }

  function StepVerdicts(equation: string, steps: seq<string>, v: char): seq<Verdict> {
    seq(|steps|, i requires 0 <= i < |steps| => JudgeStep(steps[i], v, Expected(equation, v)))
  }

  predicate AllIgnored(verdicts: seq<Verdict>) {
    forall x :: x in verdicts ==> x == Ignored
  }

  function Validities(verdicts: seq<Verdict>): seq<bool> {
    seq(|verdicts|, i requires 0 <= i < |verdicts| => verdicts[i] != Broken)
  }

  lemma VerdictsSnoc(all: seq<Verdict>, i: nat)
    requires i < |all|
    ensures Validities(all[..i + 1]) == Validities(all[..i]) + [all[i] != Broken]
    ensures AllIgnored(all[..i + 1]) <==> AllIgnored(all[..i]) && all[i] == Ignored
    ensures forall x :: x in all[..i + 1] <==> x in all[..i] || x == all[i]
    ensures all[i] in all
  {
    assert all[..i + 1] == all[..i] + [all[i]];
    assert forall x :: x in all[..i] ==> x in all[..i + 1];
    assert all[i] in all[..i + 1];
  }

  method CompareStep(step: string, v: char, expected: Option<real>) returns (r: Verdict)
    ensures r == JudgeStep(step, v, expected)
  {
    if '=' !in step { return Ignored; }
    var parsed := ParseEquation(step, v);
    if parsed == Malformed { return Raises; }
    if parsed == NoEquation || expected.None? { return Ignored; }
    var x := SolveLinear(parsed.a, parsed.b, 0.0);
    if x.None? { return Broken; }
    r := if Abs(x.value - expected.value) > CLOSE then Broken else Kept;
  }

  method ExpectedSolution(equation: string, v: char) returns (r: Result<Option<real>>)
    ensures r.Raised? <==> equation != "" && ParseEquation(equation, v) == Malformed
    ensures r.Ok? ==> r.value == Expected(equation, v)
  {
    if equation == "" { return Ok(None); }
    var original := ParseEquation(equation, v);
    if original == Malformed { return Raised; }
    r := Ok(if original.Linear? then SolveLinear(original.a, original.b, 0.0) else None);
  }

  lemma {:induction false} EqualsInEquation(s: string, v: char)
    ensures ParseEquation(s, v) != NoEquation ==> '=' in s && s != ""
  {
    OneEqualsSign(s, v);
  }

  /** A text without an equals sign does not parse, so the verdict is that on the parse. */
  lemma {:induction false} JudgedByParse(step: string, v: char, expected: Option<real>)
    ensures JudgeStep(step, v, expected) == JudgeParsed(ParseEquation(step, v), expected)
  {
    EqualsInEquation(step, v);
  }

  /** What a verdict says of the parsed step. */
  ghost predicate VerdictMeans(verdict: Verdict, e: Equation, expected: Option<real>) {
    && (verdict == Raises <==> e == Malformed)
    && (verdict in {Broken, Kept} <==> expected.Some? && e.Linear?)
    && (expected.Some? && e.Linear? && !Solvable(e) ==> verdict == Broken)
    && (forall x :: expected.Some? && IsRoot(e, x) ==> (verdict != Broken <==> -CLOSE <= x - expected.value <= CLOSE))
  }

  lemma {:induction false} JudgeMeans(e: Equation, expected: Option<real>)
    ensures VerdictMeans(JudgeParsed(e, expected), e, expected)
  {
    SolvableIff(e);
    forall x
      ensures IsRoot(e, x) <==> e.Linear? && SolveLinear(e.a, e.b, 0.0) == Some(x)
    {
      RootIff(e, x);
    }
  }

  lemma {:induction false} ExpectedIff(equation: string, v: char)
    ensures forall y :: IsRoot(ParseEquation(equation, v), y) <==> Expected(equation, v) == Some(y)
    ensures Solvable(ParseEquation(equation, v)) <==> Expected(equation, v).Some?
  {
    EqualsInEquation(equation, v);
    SolvableIff(ParseEquation(equation, v));
    forall y
      ensures IsRoot(ParseEquation(equation, v), y) <==> Expected(equation, v) == Some(y)
    {
      RootIff(ParseEquation(equation, v), y);
    }
  }

  lemma {:induction false} VerdictsMean(equation: string, steps: seq<string>, v: char)
    ensures var verdicts, es := StepVerdicts(equation, steps, v), ParseAll(steps, v);
      forall i :: 0 <= i < |steps| ==> VerdictMeans(verdicts[i], es[i], Expected(equation, v))
  {
    forall i | 0 <= i < |steps|
      ensures VerdictMeans(StepVerdicts(equation, steps, v)[i], ParseAll(steps, v)[i], Expected(equation, v))
    {
      JudgedByParse(steps[i], v, Expected(equation, v));
      JudgeMeans(ParseEquation(steps[i], v), Expected(equation, v));
    }
  }

  lemma {:induction false} VerdictsRaise(es: seq<Equation>, verdicts: seq<Verdict>, expected: Option<real>)
    requires |verdicts| == |es| && forall i :: 0 <= i < |es| ==> VerdictMeans(verdicts[i], es[i], expected)
    ensures Raises in verdicts <==> Malformed in es
  {
    assert forall i :: 0 <= i < |es| ==> verdicts[i] in verdicts && es[i] in es;
  }

  lemma {:induction false} VerdictsJudge(e0: Equation, es: seq<Equation>, verdicts: seq<Verdict>,
                                         expected: Option<real>, whole: Option<bool>)
    requires |verdicts| == |es| && forall i :: 0 <= i < |es| ==> VerdictMeans(verdicts[i], es[i], expected)
    requires (forall y :: IsRoot(e0, y) <==> expected == Some(y)) && (Solvable(e0) <==> expected.Some?)
    requires Raises !in verdicts && whole == if AllIgnored(verdicts) then None else Some(Broken !in verdicts)
    ensures StepsJudged(e0, es, Validities(verdicts), whole)
  {
    SomeCompared(verdicts);
    assert forall i :: 0 <= i < |es| ==> (verdicts[i] in {Broken, Kept} <==> Comparable(e0, es[i]));
  }

  lemma {:induction false} SomeCompared(verdicts: seq<Verdict>)
    requires Raises !in verdicts
    ensures !AllIgnored(verdicts) <==> exists i :: 0 <= i < |verdicts| && verdicts[i] in {Broken, Kept}
    ensures Broken in verdicts <==> false in Validities(verdicts)
  {
    assert forall i :: 0 <= i < |verdicts| ==> verdicts[i] in verdicts;
    if Broken in verdicts {
      var i :| 0 <= i < |verdicts| && verdicts[i] == Broken;
      assert Validities(verdicts)[i] == false;
    }
  }

  /** What the verdicts on all steps say of the parsed steps. */
  lemma {:induction false} VerdictsSay(equation: string, steps: seq<string>, v: char)
    ensures var verdicts, es := StepVerdicts(equation, steps, v), ParseAll(steps, v);
      && (Raises in verdicts <==> Malformed in es)
      && (ParseEquation(equation, v) == Malformed ==> equation != "")
      && (Raises !in verdicts ==>
            StepsJudged(ParseEquation(equation, v), es, Validities(verdicts),
                        if AllIgnored(verdicts) then None else Some(Broken !in verdicts)))
  {
    var e0, es := ParseEquation(equation, v), ParseAll(steps, v);
    var verdicts, expected := StepVerdicts(equation, steps, v), Expected(equation, v);
    EqualsInEquation(equation, v);
    VerdictsMean(equation, steps, v);
    ExpectedIff(equation, v);
    VerdictsRaise(es, verdicts, expected);
    if Raises !in verdicts {
      VerdictsJudge(e0, es, verdicts, expected, if AllIgnored(verdicts) then None else Some(Broken !in verdicts));
    }
  }

  /** The loop over the steps: whether each step is valid, and whether equivalence was
      preserved throughout, if any step could be compared at all. */
  method ParseSteps(equation: string, steps: seq<string>, v: char)
      returns (r: Result<(seq<bool>, Option<bool>)>)
    ensures var verdicts := StepVerdicts(equation, steps, v);
      && (r.Raised? <==> (equation != "" && ParseEquation(equation, v) == Malformed) || Raises in verdicts)
      && (r.Ok? ==> r.value.0 == Validities(verdicts))
      && (r.Ok? ==> r.value.1 == if AllIgnored(verdicts) then None else Some(Broken !in verdicts))
    ensures r.Raised? <==> ParseEquation(equation, v) == Malformed || Malformed in ParseAll(steps, v)
    ensures r.Ok? ==> StepsJudged(ParseEquation(equation, v), ParseAll(steps, v), r.value.0, r.value.1)
  {
    var original := ExpectedSolution(equation, v);
    if original.Raised? {
      VerdictsSay(equation, steps, v);
      return Raised;
    }
    var expected := original.value;
    ghost var all := StepVerdicts(equation, steps, v);
    var valids: seq<bool>, allEquiv, anyParsed := [], true, false;
    for i := 0 to |steps|
      invariant valids == Validities(all[..i])
      invariant Raises !in all[..i]
      invariant anyParsed <==> !AllIgnored(all[..i])
      invariant allEquiv <==> Broken !in all[..i]
    {
      var verdict := CompareStep(steps[i], v, expected);
      VerdictsSnoc(all, i);
      if verdict == Raises {
        VerdictsSay(equation, steps, v);
        return Raised;
      }
      if verdict != Ignored { anyParsed := true; }
      if verdict == Broken { allEquiv := false; }
      valids := valids + [verdict != Broken];
    }
    assert all[..|steps|] == all;
    VerdictsSay(equation, steps, v);
    r := Ok((valids, if anyParsed then Some(allEquiv) else None));
  }

  /** Steps obtained by adding the same signed term to both sides are judged alike. */
  lemma BalancingKeepsVerdict(l: string, r: string, t: string, v: char, expected: Option<real>)
    requires '=' !in l && '=' !in r && '=' !in t && ProperVariable(v)
    requires ParseEquation(l + "=" + r, v).Linear?
    requires Strip(t) != "" && IsSign(Strip(t)[0]) && EvalSide(t, v).Value?
    ensures JudgeStep(l + t + "=" + (r + t), v, expected) == JudgeStep(l + "=" + r, v, expected)
  {
    AddingToBothSides(l, r, t, v);
    assert (l + "=" + r)[|l|] == '=';
    assert (l + t + "=" + (r + t))[|l + t|] == '=';
    SameVerdict(l + t + "=" + (r + t), l + "=" + r, v, expected);
  }

  lemma SameVerdict(a: string, b: string, v: char, expected: Option<real>)
    requires '=' in a && '=' in b && ParseEquation(a, v) == ParseEquation(b, v)
    ensures JudgeStep(a, v, expected) == JudgeStep(b, v, expected)
  {
  }

  /** The substitution check made on the equation itself always passes when the equation has a
      solution to compare with. */
  lemma OwnSolutionPasses(equation: string, v: char)
    requires Expected(equation, v).Some?
    ensures CheckSubstitution(equation, v, Expected(equation, v).value) == Some(true)
  {
    SolutionSatisfies(ParseEquation(equation, v), Expected(equation, v).value);
  }
}
