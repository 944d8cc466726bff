/** Generating equations by difficulty tier. The random draws are parameters. */
module ProblemGenerator {
  import opened Sequences
  import opened WhiteSpace
  import opened Decimals
  import opened AlgebraParser
  import opened AlgebraTheory
  import opened LinearEquations

  /** The printed equation and the answer drawn; the answer is shown as "x = n". */
  datatype Problem = Problem(equation: string, answer: int)

  function ExpectedAnswer(p: Problem): string {
    "x = " + IntToString(p.answer)
  }

  function SingleStepIsolation(a: int, answer: int): Problem {
    Problem("x + " + IntToString(a) + " = " + IntToString(answer + a), answer)
  }

  function VariableConsolidation(a: int, answer: int): Problem {
    Problem(IntToString(a) + "x = " + IntToString(a * answer), answer)
  }

  function MultiStepLinear(a: int, b: int, answer: int, plus: bool): Problem {
    if plus then
      Problem(IntToString(a) + "x + " + IntToString(b) + " = " + IntToString(a * answer + b), answer)
    else
      Problem(IntToString(a) + "x - " + IntToString(b) + " = " + IntToString(a * answer - b), answer)
  }

  /** The generator named by the equation type; an unknown name falls back on the first. */
  function Generate(equationType: string, a: int, b: int, answer: int, plus: bool): Problem {
    if equationType == "variable_consolidation" then VariableConsolidation(a, answer)
    else if equationType == "multi_step_linear" then MultiStepLinear(a, b, answer, plus)
    else SingleStepIsolation(a, answer)
  }

  datatype Tier = Tier(low: real, high: real, equationType: string)

  /** The first tier whose half-open range holds the difficulty, or else the last one. */
  ghost predicate IsTierFor(difficulty: real, tiers: seq<Tier>, t: Tier)
    requires tiers != []
  {
    || (exists i :: 0 <= i < |tiers| && t == tiers[i] && tiers[i].low <= difficulty < tiers[i].high
                    && forall j :: 0 <= j < i ==> !(tiers[j].low <= difficulty < tiers[j].high))
    || (t == tiers[|tiers| - 1] && forall u :: u in tiers ==> !(u.low <= difficulty < u.high))
  }

  /** An empty list of tiers raises. */
  method SelectTier(difficulty: real, tiers: seq<Tier>) returns (r: Result<Tier>)
    ensures r.Raised? <==> tiers == []
    ensures r.Ok? ==> IsTierFor(difficulty, tiers, r.value)
  {
    for i := 0 to |tiers|
      invariant forall j :: 0 <= j < i ==> !(tiers[j].low <= difficulty < tiers[j].high)
    {
      if tiers[i].low <= difficulty < tiers[i].high { return Ok(tiers[i]); }
    }
    if tiers == [] { return Raised; }
    r := Ok(tiers[|tiers| - 1]);
  }

  // ------------------------------------------------ reading printed equations

  predicate SolvedBy(e: Equation, x: real) {
    e.Linear? && SolveLinear(e.a, e.b, 0.0) == Some(x) && Satisfied(e, x) == Some(true)
  }

  /** The equation parses, its solution is the stated answer, and the answer passes the
      substitution check. */
  predicate Solves(p: Problem) {
    SolvedBy(ParseEquation(p.equation, 'x'), p.answer as real)
    && CheckSubstitution(p.equation, 'x', p.answer as real) == Some(true)
  }

  function Whole(negative: bool, n: nat, hasVar: bool): SignedTerm {
    SignedTerm(negative, Decimal(n, 0), None, hasVar, false)
  }

  function Lone(negative: bool, hasVar: bool): SignedTerm {
    SignedTerm(negative, Absent, None, hasVar, false)
  }

  /** Text without spaces or an equals sign, and not all white space. */
  predicate PlainText(s: string) {
    Strip(s) == s && '=' !in s && !Blank(s)
  }

  lemma DigitsArePlain(s: string)
    requires AllDigits(s) && s != ""
    ensures PlainText(s)
  {
    FilterAll(s, NotBlank());
    assert IsDigit(s[0]);
  }

  lemma StripPair(a: string, b: string)
    ensures Strip(a + b) == Strip(a) + Strip(b)
  {
    FilterConcat(a, b, NotBlank());
  }

  lemma PlainPair(a: string, b: string)
    requires PlainText(a) && PlainText(b)
    ensures PlainText(a + b)
  {
    StripPair(a, b);
    BlankConcat(a, b);
  }

  lemma StripOne(c: char)
    ensures Strip([c]) == if c == ' ' then "" else [c]
  {
    assert "" + [c] == [c] && Strip("") == "";
    FilterSnoc("", c, NotBlank());
  }

  lemma LetterIsPlain(c: char)
    requires c == '-' || c == '+' || c == 'x'
    ensures PlainText([c])
  {
    StripOne(c);
    assert [c][0] == c;
  }

  lemma StripSpaced(c: char)
    requires c != ' '
    ensures Strip([' ', c, ' ']) == [c]
  {
    StripOne(c);
    StripOne(' ');
    StripPair([' '], [c]);
    StripPair([' ', c], [' ']);
    assert [' '] + [c] == [' ', c] && [' ', c] + [' '] == [' ', c, ' '];
  }

  lemma IntIsPlain(i: int)
    ensures PlainText(IntToString(i))
  {
    var n: nat := if i < 0 then -i else i;
    NumeralRoundTrip(n);
    DigitsArePlain(NatToString(n));
    if i < 0 {
      LetterIsPlain('-');
      PlainPair("-", NatToString(n));
    }
  }

  // ------------------------------------------------------------ term lists

  lemma PrintOne(t: SignedTerm)
    ensures PrintTerms([t], 'x') == PrintTerm(t, 'x')
  {
    assert [t][1..] == [];
    assert PrintTerm(t, 'x') + "" == PrintTerm(t, 'x');
  }

  lemma PrintTwo(t: SignedTerm, u: SignedTerm)
    ensures PrintTerms([t, u], 'x') == PrintTerm(t, 'x') + PrintTerm(u, 'x')
  {
    assert [t, u][1..] == [u];
    PrintOne(u);
  }

  lemma PrintShort(t: SignedTerm)
    requires t.over == None
    ensures PrintTerm(t, 'x') ==
            (if t.negative then "-" else "+") + PrintNumeral(t.numeral) + if t.hasVar then "x" else ""
  {
    var x := if t.hasVar then "x" else "";
    assert x + "" == x && "" + x == x;
  }

  lemma SumsOne(t: SignedTerm)
    requires Sensible(t)
    ensures VariableSum([t]) == (if t.hasVar then TermAmount(t) else 0.0)
    ensures ConstantSum([t]) == (if t.hasVar then 0.0 else TermAmount(t))
  {
    assert [t][1..] == [];
  }

  lemma SumsTwo(t: SignedTerm, u: SignedTerm)
    requires Sensible(t) && Sensible(u) && !t.hasVar && !u.hasVar
    ensures VariableSum([t, u]) == 0.0 && ConstantSum([t, u]) == TermAmount(t) + TermAmount(u)
  {
    assert [t, u][1..] == [u];
    SumsOne(u);
  }

  lemma Amounts(negative: bool, n: nat, hasVar: bool)
    ensures TermAmount(Whole(negative, n, hasVar)) == if negative then -(n as real) else n as real
    ensures TermAmount(Lone(negative, false)) == 0.0 && TermAmount(Lone(false, true)) == 1.0
  {
  }

  // ------------------------------------------------------------- reading

  lemma ReadOneTerm(t: SignedTerm, side: string)
    requires Sensible(t) && Strip(side) == side && WithSign(side) == PrintTerm(t, 'x')
    ensures EvalSide(side, 'x') == if t.hasVar then Value(TermAmount(t), 0.0) else Value(0.0, TermAmount(t))
  {
    PrintOne(t);
    SumsOne(t);
    PrintedSideParses([t], 'x', side);
  }

  lemma ReadX(x: string)
    requires x == ['x']
    ensures EvalSide(x, 'x') == Value(1.0, 0.0)
  {
    LetterIsPlain('x');
    PrintX(x);
    Amounts(false, 0, true);
    ReadOneTerm(Lone(false, true), x);
  }

  lemma PrintX(x: string)
    requires x == ['x']
    ensures PrintTerm(Lone(false, true), 'x') == WithSign(x)
  {
    PrintShort(Lone(false, true));
    assert "+" + "" + "x" == "+" + x;
  }

  lemma PrintWhole(i: int, hasVar: bool, x: string)
    requires x == if hasVar then "x" else ""
    ensures PrintTerm(Whole(i < 0, Size(i), hasVar), 'x') == WithSign(IntToString(i) + x)
  {
    var n := NatToString(Size(i));
    NumeralRoundTrip(Size(i));
    PrintShort(Whole(i < 0, Size(i), hasVar));
    assert IsDigit(n[0]) && (n + x)[0] == n[0];
    assert "+" + n + x == "+" + (n + x);
  }

  function Size(i: int): nat {
    if i < 0 then -i else i
  }

  lemma StripInt(i: int, hasVar: bool, x: string)
    requires x == if hasVar then "x" else ""
    ensures Strip(IntToString(i) + x) == IntToString(i) + x
  {
    IntIsPlain(i);
    if hasVar { LetterIsPlain('x'); }
    StripPair(IntToString(i), x);
  }

  /** A printed integer, with or without the variable behind it. */
  lemma ReadInt(i: int, hasVar: bool, x: string)
    requires x == if hasVar then "x" else ""
    ensures EvalSide(IntToString(i) + x, 'x') == if hasVar then Value(i as real, 0.0) else Value(0.0, i as real)
  {
    StripInt(i, hasVar, x);
    PrintWhole(i, hasVar, x);
    Amounts(i < 0, Size(i), hasVar);
    ReadOneTerm(Whole(i < 0, Size(i), hasVar), IntToString(i) + x);
  }

  /** What an operator and a number add to a side: a subtracted negative number counts as
      itself, because the lone minus in front of it is read as an empty term. */
  function OperandValue(minus: bool, b: int): int {
    if b >= 0 && minus then -b else b
  }

  lemma ReadOneSigned(t: SignedTerm, side: string)
    requires Sensible(t) && !t.hasVar && Strip(side) == PrintTerm(t, 'x')
    ensures EvalSide(side, 'x') == Value(0.0, TermAmount(t))
  {
    PrintOne(t);
    SumsOne(t);
    PrintedSideParses([t], 'x', side);
  }

  lemma ReadTwoSigned(t: SignedTerm, u: SignedTerm, side: string)
    requires Sensible(t) && Sensible(u) && !t.hasVar && !u.hasVar
    requires Strip(side) == PrintTerm(t, 'x') + PrintTerm(u, 'x')
    ensures EvalSide(side, 'x') == Value(0.0, TermAmount(t) + TermAmount(u))
  {
    PrintTwo(t, u);
    SumsTwo(t, u);
    PrintedSideParses([t, u], 'x', side);
  }

  lemma ReadOperand(minus: bool, b: int, side: string)
    requires Strip(side) == (if minus then "-" else "+") + IntToString(b)
    ensures EvalSide(side, 'x') == Value(0.0, OperandValue(minus, b) as real)
  {
    if b >= 0 {
      PrintPlain(minus, b);
      Amounts(minus, b, false);
      ReadOneSigned(Whole(minus, b, false), side);
    } else {
      PrintPlain(true, -b);
      PrintLone(minus);
      Amounts(true, -b, false);
      Amounts(minus, 0, false);
      ReadTwoSigned(Lone(minus, false), Whole(true, -b, false), side);
    }
  }

  lemma PrintPlain(negative: bool, n: nat)
    ensures PrintTerm(Whole(negative, n, false), 'x') == (if negative then "-" else "+") + NatToString(n)
  {
    PrintShort(Whole(negative, n, false));
  }

  lemma PrintLone(negative: bool)
    ensures PrintTerm(Lone(negative, false), 'x') == if negative then "-" else "+"
  {
    PrintShort(Lone(negative, false));
  }

  lemma SpacedBefore(sp: string, s: string)
    requires Blank(sp) && '=' !in sp
    ensures EvalSide(sp + s, 'x') == EvalSide(s, 'x')
    ensures (Blank(sp + s) <==> Blank(s)) && ('=' in sp + s <==> '=' in s)
  {
    assert sp + s + "" == sp + s;
    SpaceAround(sp, s, "", 'x');
    BlankConcat(sp, s);
  }

  lemma SpacedAfter(s: string, sp: string)
    requires Blank(sp) && '=' !in sp
    ensures EvalSide(s + sp, 'x') == EvalSide(s, 'x')
    ensures (Blank(s + sp) <==> Blank(s)) && ('=' in s + sp <==> '=' in s)
  {
    assert "" + s + sp == s + sp;
    SpaceAround("", s, sp, 'x');
    BlankConcat(s, sp);
  }

  lemma ReadNumber(c: int)
    ensures EvalSide(IntToString(c), 'x') == Value(0.0, c as real)
  {
    assert IntToString(c) + "" == IntToString(c);
    ReadInt(c, false, "");
  }

  /** The right side, a space and a number. */
  lemma ReadRight(c: int, sp: string)
    requires sp == [' ']
    ensures EvalSide(sp + IntToString(c), 'x') == Value(0.0, c as real)
    ensures !Blank(sp + IntToString(c)) && '=' !in sp + IntToString(c)
  {
    IntIsPlain(c);
    ReadNumber(c);
    SpacedBefore(sp, IntToString(c));
  }

  /** The left side: a head in x, then an operator and a number, then a space. */
  lemma ReadLeft(head: string, a: real, minus: bool, b: int, op: string)
    requires EvalSide(head, 'x') == Value(a, 0.0) && !Blank(head) && '=' !in head
    requires op == if minus then " - " else " + "
    ensures var l := head + (op + IntToString(b) + " ");
      EvalSide(l, 'x') == Value(a, OperandValue(minus, b) as real) && !Blank(l) && '=' !in l
  {
    var tail := op + IntToString(b) + " ";
    OperandStrips(minus, b, op);
    ReadOperand(minus, b, tail);
    JoinSides(head, tail, a, OperandValue(minus, b) as real);
  }

  lemma OperandStrips(minus: bool, b: int, op: string)
    requires op == if minus then " - " else " + "
    ensures Strip(op + IntToString(b) + " ") == (if minus then "-" else "+") + IntToString(b)
    ensures '=' !in op + IntToString(b) + " "
  {
    IntIsPlain(b);
    StripSpaced(if minus then '-' else '+');
    StripOne(' ');
    StripPair(op, IntToString(b));
    StripPair(op + IntToString(b), " ");
  }

  lemma JoinSides(head: string, tail: string, a: real, b: real)
    requires EvalSide(head, 'x') == Value(a, 0.0) && !Blank(head) && '=' !in head
    requires EvalSide(tail, 'x') == Value(0.0, b) && '=' !in tail && StartsSigned(Strip(tail))
    ensures EvalSide(head + tail, 'x') == Value(a, b) && !Blank(head + tail) && '=' !in head + tail
  {
    SidesAdd(head, tail, 'x');
    BlankConcat(head, tail);
  }

  lemma ReadHead(a: int)
    ensures EvalSide(IntToString(a) + "x", 'x') == Value(a as real, 0.0)
    ensures !Blank(IntToString(a) + "x") && '=' !in IntToString(a) + "x"
  {
    IntIsPlain(a);
    LetterIsPlain('x');
    PlainPair(IntToString(a), "x");
    ReadInt(a, true, "x");
  }

  lemma NetIsRoot(a: int, k: int, c: int, x: int)
    requires a != 0
    ensures (0.0 - (k as real - c as real)) / a as real == x as real <==> a * x + k == c
    ensures Abs(a as real) >= TINY
  {
    var root := (0.0 - (k as real - c as real)) / a as real;
    assert a as real * root == c as real - k as real;
    assert (a * x) as real == a as real * x as real;
    if root == x as real {
      assert (a * x + k) as real == c as real;
    }
    if a * x + k == c {
      assert a as real * x as real == a as real * root;
      assert a as real * (x as real - root) == 0.0;
    }
  }

  lemma NetSolvedIff(a: int, k: int, c: int, x: int)
    ensures SolvedBy(NetEquation(Value(a as real, k as real), Value(0.0, c as real)), x as real)
            <==> a != 0 && a * x + k == c
  {
    if a != 0 {
      NetIsRoot(a, k, c, x);
      SolutionSatisfies(NetEquation(Value(a as real, k as real), Value(0.0, c as real)), x as real);
    }
  }

  /** A head in x, an operator and a number, over a number. */
  lemma TwoStep(head: string, a: int, minus: bool, b: int, op: string, c: int)
    requires EvalSide(head, 'x') == Value(a as real, 0.0) && !Blank(head) && '=' !in head
    requires op == if minus then " - " else " + "
    ensures ParseEquation(head + (op + IntToString(b) + " ") + "=" + (" " + IntToString(c)), 'x') ==
            NetEquation(Value(a as real, OperandValue(minus, b) as real), Value(0.0, c as real))
  {
    ReadLeft(head, a as real, minus, b, op);
    ReadRight(c, " ");
    EquationOfSides(head + (op + IntToString(b) + " "), " " + IntToString(c), 'x');
  }

  // ---------------------------------------------------------- the three tiers

  lemma XIsHead(x: string)
    requires x == ['x']
    ensures EvalSide(x, 'x') == Value(1 as real, 0.0) && !Blank(x) && '=' !in x
  {
    ReadX(x);
    LetterIsPlain('x');
  }

  /** Every tier 1 equation parses and solves to its answer, whatever the draws. */
  lemma Tier1RoundTrip(a: int, answer: int)
    ensures Solves(SingleStepIsolation(a, answer))
  {
    Tier1Parses(a, answer, ['x']);
    NetSolvedIff(1, a, answer + a, answer);
  }

  lemma Tier1Parses(a: int, answer: int, x: string)
    requires x == ['x']
    ensures ParseEquation(SingleStepIsolation(a, answer).equation, 'x') ==
            NetEquation(Value(1 as real, a as real), Value(0.0, (answer + a) as real))
  {
    XIsHead(x);
    TwoStep(x, 1, false, a, " + ", answer + a);
    Tier1Text(IntToString(a), IntToString(answer + a), x);
  }

  lemma Tier1Text(n: string, c: string, x: string)
    requires x == ['x']
    ensures "x + " + n + " = " + c == x + (" + " + n + " ") + "=" + (" " + c)
  {
  }

  lemma Tier2Text(n: string, c: string)
    ensures n + "x = " + c == n + "x" + " " + "=" + (" " + c)
  {
  }

  lemma Tier3Text(n: string, b: string, c: string)
    ensures n + "x + " + b + " = " + c == n + "x" + (" + " + b + " ") + "=" + (" " + c)
    ensures n + "x - " + b + " = " + c == n + "x" + (" - " + b + " ") + "=" + (" " + c)
  {
  }

  /** A head in x, spaced, over a number. */
  lemma HeadEquation(head: string, a: int, c: int)
    requires EvalSide(head, 'x') == Value(a as real, 0.0) && !Blank(head) && '=' !in head
    ensures ParseEquation(head + " " + "=" + (" " + IntToString(c)), 'x') ==
            NetEquation(Value(a as real, 0.0), Value(0.0, c as real))
  {
    ReadRight(c, " ");
    SpacedAfter(head, " ");
    EquationOfSides(head + " ", " " + IntToString(c), 'x');
  }

  /** A tier 2 equation solves to its answer exactly when its coefficient is not zero. */
  lemma Tier2RoundTrip(a: int, answer: int)
    ensures Solves(VariableConsolidation(a, answer)) <==> a != 0
  {
    ReadHead(a);
    Tier2Text(IntToString(a), IntToString(a * answer));
    HeadEquation(IntToString(a) + "x", a, a * answer);
    NetSolvedIff(a, 0, a * answer, answer);
  }

  /** A tier 3 equation solves to its answer exactly when its coefficient is not zero and,
      in the subtracting form, the subtracted number is not negative: "- -b" reads as "-b". */
  lemma Tier3RoundTrip(a: int, b: int, answer: int, plus: bool)
    ensures Solves(MultiStepLinear(a, b, answer, plus)) <==> a != 0 && (plus || b >= 0)
  {
    var c := if plus then a * answer + b else a * answer - b;
    ReadHead(a);
    TwoStep(IntToString(a) + "x", a, !plus, b, if plus then " + " else " - ", c);
    Tier3Text(IntToString(a), IntToString(b), IntToString(c));
    NetSolvedIff(a, OperandValue(!plus, b), c, answer);
  }

  /** The text has two sides, one that reads as `a` times x plus `k` and one that reads as `c`. */
  ghost predicate HasSides(text: string, a: int, k: int, c: int) {
    exists l: string, r: string :: SidesAre(text, l, r, a, k, c)
  }

  predicate SidesAre(text: string, l: string, r: string, a: int, k: int, c: int) {
    && text == l + "=" + r && '=' !in l && '=' !in r
    && EvalSide(l, 'x') == Value(a as real, k as real) && EvalSide(r, 'x') == Value(0.0, c as real)
  }

  lemma Tier1Sides(a: int, answer: int, x: string)
    requires x == ['x']
    ensures HasSides(SingleStepIsolation(a, answer).equation, 1, a, answer + a)
  {
    XIsHead(x);
    SidesOfTwoStep(x, 1, false, a, " + ", answer + a);
    Tier1Text(IntToString(a), IntToString(answer + a), x);
  }

  lemma Tier3Sides(a: int, b: int, answer: int)
    ensures HasSides(MultiStepLinear(a, b, answer, true).equation, a, b, a * answer + b)
    ensures HasSides(MultiStepLinear(a, b, answer, false).equation, a, if b < 0 then b else -b, a * answer - b)
  {
    ReadHead(a);
    SidesOfTwoStep(IntToString(a) + "x", a, false, b, " + ", a * answer + b);
    Tier3Text(IntToString(a), IntToString(b), IntToString(a * answer + b));
    SidesOfTwoStep(IntToString(a) + "x", a, true, b, " - ", a * answer - b);
    Tier3Text(IntToString(a), IntToString(b), IntToString(a * answer - b));
  }

  /** What the printed equation of each type says; another name stands for the first type. */
  lemma PrintedForms(other: string, a: int, b: int, answer: int, plus: bool)
    requires other !in {"variable_consolidation", "multi_step_linear"}
    ensures HasSides(Generate(other, a, b, answer, plus).equation, 1, a, answer + a)
    ensures HasSides(Generate("variable_consolidation", a, b, answer, plus).equation, a, 0, a * answer)
    ensures HasSides(Generate("multi_step_linear", a, b, answer, true).equation, a, b, a * answer + b)
    ensures HasSides(Generate("multi_step_linear", a, b, answer, false).equation, a, if b < 0 then b else -b,
                     a * answer - b)
  {
    Tier1Sides(a, answer, ['x']);
    SidesOfHead(a, a * answer);
    Tier3Sides(a, b, answer);
  }

  lemma SidesOfHead(a: int, c: int)
    ensures HasSides(IntToString(a) + "x = " + IntToString(c), a, 0, c)
  {
    ReadHead(a);
    ReadRight(c, " ");
    SpacedAfter(IntToString(a) + "x", " ");
    Tier2Text(IntToString(a), IntToString(c));
    var text, l, r := IntToString(a) + "x = " + IntToString(c), IntToString(a) + "x" + " ", " " + IntToString(c);
    assert SidesAre(text, l, r, a, 0, c);
  }

  lemma SidesOfTwoStep(head: string, a: int, minus: bool, b: int, op: string, c: int)
    requires EvalSide(head, 'x') == Value(a as real, 0.0) && !Blank(head) && '=' !in head
    requires op == if minus then " - " else " + "
    ensures HasSides(head + (op + IntToString(b) + " ") + "=" + (" " + IntToString(c)), a, OperandValue(minus, b), c)
  {
    ReadLeft(head, a as real, minus, b, op);
    ReadRight(c, " ");
    var l, r := head + (op + IntToString(b) + " "), " " + IntToString(c);
    assert SidesAre(l + "=" + r, l, r, a, OperandValue(minus, b), c);
  }

  lemma GeneratedSolvesIff(equationType: string, a: int, b: int, answer: int, plus: bool)
    ensures Solves(Generate(equationType, a, b, answer, plus)) <==>
            && (equationType in {"variable_consolidation", "multi_step_linear"} ==> a != 0)
            && (equationType == "multi_step_linear" && !plus ==> b >= 0)
  {
    Tier1RoundTrip(a, answer);
    Tier2RoundTrip(a, answer);
    Tier3RoundTrip(a, b, answer, plus);
  }

  /** Picks the tier and prints its kind of equation; positive draws make it solvable. */
  method GenerateProblem(difficulty: real, tiers: seq<Tier>, a: int, b: int, answer: int, plus: bool)
      returns (r: Result<Problem>)
    ensures r.Raised? <==> tiers == []
    ensures r.Ok? ==>
              exists t :: IsTierFor(difficulty, tiers, t) && r.value == Generate(t.equationType, a, b, answer, plus)
    ensures r.Ok? && a >= 1 && b >= 1 ==> Solves(r.value) && r.value.answer == answer
  {
    var tier := SelectTier(difficulty, tiers);
    if tier.Raised? { return Raised; }
    GeneratedSolvesIff(tier.value.equationType, a, b, answer, plus);
    r := Ok(Generate(tier.value.equationType, a, b, answer, plus));
  }

  lemma AnswerText(x: string, n: string)
    requires x == "x"
    ensures "x = " + n == x + " " + "=" + (" " + n)
  {
  }

  lemma AnswerParses(x: string, answer: int)
    requires x == ['x']
    ensures ParseEquation(x + " " + "=" + (" " + IntToString(answer)), 'x') == Linear(1.0, 0.0 - answer as real)
  {
    XIsHead(x);
    HeadEquation(x, 1, answer);
  }

  lemma SameRootIsKept(step: string, x: real)
    requires '=' in step && ParseEquation(step, 'x') == Linear(1.0, 0.0 - x)
    ensures JudgeStep(step, 'x', Some(x)) == Kept
  {
  }

  lemma SolvableExpects(p: Problem)
    requires Solves(p)
    ensures Expected(p.equation, 'x') == Some(p.answer as real)
  {
    EmptyParsesNot();
  }

  /** Handing in the stated answer to a problem that solves is judged equivalent to the
      equation. */
  lemma {:induction false} StatedAnswerIsKept(p: Problem)
    requires Solves(p)
    ensures JudgeStep(ExpectedAnswer(p), 'x', Expected(p.equation, 'x')) == Kept
  {
    AnswerParses(['x'], p.answer);
    AnswerText(['x'], IntToString(p.answer));
    assert ExpectedAnswer(p)[2] == '=';
    SolvableExpects(p);
    SameRootIsKept(ExpectedAnswer(p), p.answer as real);
  }

  lemma EmptyParsesNot()
    ensures ParseEquation("", 'x') == NoEquation
  {
    assert Trim("") == "";
  }
}
