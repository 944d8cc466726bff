/** The character-level parser of linear equations. Floats are exact reals; digits and white
    space are the ASCII ones. */
module AlgebraParser {
  import opened Sequences
  import opened WhiteSpace
  import opened Decimals

  /** A parsed side, the `None` the parser returns, or the exception a malformed number
      raises. */
  datatype Side = Value(coeff: real, constant: real) | NoParse | BadNumber

  predicate IsSign(c: char) {
    c == '+' || c == '-'
  }

  predicate IsNumeric(c: char) {
    IsDigit(c) || c == '.'
  }

  function NotBlank(): char -> bool {
    (c: char) => c != ' '
  }

  function Strip(s: string): string {
    Filter(s, NotBlank())
  }

  function Abs(r: real): real {
    if r < 0.0 then -r else r
  }

  const TINY := 0.000000000001
  const CLOSE := 0.000000001

  // ---------------------------------------------------------------- numbers

  /** A denominator: the parser rejects those that are practically zero. */
  type Divisor = x: real | x != 0.0 witness 1.0

  function Pow10(n: nat): (r: real)
    ensures r >= 1.0
  {
    if n == 0 then 1.0 else 10.0 * Pow10(n - 1)
  }

  /** Position of the first dot, or the length. */
  function DotAt(s: string): (i: nat)
    ensures i <= |s| && forall k :: 0 <= k < i ==> s[k] != '.'
    ensures i < |s| ==> s[i] == '.'
  {
    if s == "" || s[0] == '.' then 0 else 1 + DotAt(s[1..])
  }

  /** Reading a string of digits and dots as a number: at most one dot, at least one digit. */
  function ParseFloat(s: string): Option<real> {
    var i := DotAt(s);
    var whole, frac := s[..i], if i < |s| then s[i + 1..] else "";
    if AllDigits(whole) && AllDigits(frac) && whole + frac != "" then
      Some(DigitsVal(whole) as real + DigitsVal(frac) as real / Pow10(|frac|))
    else None
  }

  // ------------------------------------------------------------- one term

  /** What the scan of one term collects, with the text that follows it. */
  datatype Scan = Term(term: Partial, rest: string) | ScanNoParse | ScanBadNumber

  function LeadingNumber(s: string): (n: string)
    ensures |n| <= |s|
  {
    if s == "" || !IsNumeric(s[0]) then "" else [s[0]] + LeadingNumber(s[1..])
  }

  /** The divisor that follows a slash, with its length. */
  datatype Denominator = Over(value: Divisor, length: nat) | NoDenominator | BadDenominator

  function ReadDenominator(s: string): (d: Denominator)
    ensures d.Over? ==> d.length <= |s|
  {
    var n := LeadingNumber(s);
    if n == "" then NoDenominator
    else
      match ParseFloat(n)
      case None => BadDenominator
      case Some(x) => if Abs(x) < TINY then NoDenominator else Over(x, |n|)
  }

  /** What has been collected of a term. */
  datatype Partial = Partial(num: string, found: bool, denom: Divisor)

  /** The effect of one character, or one fraction, and how much text it used. */
  datatype Reading = Read(next: Partial, used: nat) | Stop(why: Scan)

  function ReadOne(s: string, v: char, p: Partial): (r: Reading)
    requires s != ""
    ensures r.Read? ==> 1 <= r.used <= |s|
    ensures r.Stop? ==> !r.why.Term?
  {
    if s[0] == v then Read(p.(found := true), 1)
    else if IsNumeric(s[0]) then Read(p.(num := p.num + [s[0]]), 1)
    else if s[0] == '/' then
      match ReadDenominator(s[1..])
      case NoDenominator => Stop(ScanNoParse)
      case BadDenominator => Stop(ScanBadNumber)
      case Over(x, n) => Read(p.(denom := x), 1 + n)
    else if IsSpace(s[0]) then Read(p, 1)
    else Stop(ScanNoParse)
  }

  function ScanTerm(s: string, v: char, p: Partial): (r: Scan)
    ensures r.Term? ==> |r.rest| <= |s|
    decreases |s|
  {
    if s == "" || IsSign(s[0]) then Term(p, s)
    else
      match ReadOne(s, v, p)
      case Stop(why) => why
      case Read(next, used) => ScanTerm(s[used..], v, next)
  }

  const NOTHING_READ := Partial("", false, 1.0)

  /** A term without digits counts one with the variable and nothing without it. */
  function Magnitude(num: string, found: bool): Option<real> {
    if num != "" then ParseFloat(num) else Some(if found then 1.0 else 0.0)
  }

  // --------------------------------------------------------------- a side

  function Add(a: Side, b: Side): Side {
    match a
    case Value(p, q) => if b.Value? then Value(p + b.coeff, q + b.constant) else b
    case _ => a
  }

  function TermValue(sign: char, found: bool, m: real): Side {
    var x := if sign == '+' then m else -m;
    if found then Value(x, 0.0) else Value(0.0, x)
  }

  /** The value of the first term of a signed side, with the text after it. */
  function FirstTerm(s: string, v: char): (r: (Side, string))
    requires s != ""
    ensures |r.1| < |s|
  {
    if !IsSign(s[0]) then (NoParse, "")
    else
      match ScanTerm(s[1..], v, NOTHING_READ)
      case ScanNoParse => (NoParse, "")
      case ScanBadNumber => (BadNumber, "")
      case Term(p, rest) =>
        match Magnitude(p.num, p.found)
        case None => (BadNumber, "")
        case Some(m) => (TermValue(s[0], p.found, m / p.denom), rest)
  }

  /** The sum of the terms of a signed side. */
  function EvalTerms(s: string, v: char): Side
    decreases |s|
  {
    if s == "" then Value(0.0, 0.0)
    else
      var (t, rest) := FirstTerm(s, v);
      if t.Value? then Add(t, EvalTerms(rest, v)) else t
  }

  function WithSign(s: string): string {
    if s != "" && !IsSign(s[0]) then "+" + s else s
  }

  function EvalSide(side: string, v: char): Side {
    EvalTerms(WithSign(Strip(side)), v)
  }

  lemma AddZero(a: Side)
    ensures Add(Value(0.0, 0.0), a) == a && Add(a, Value(0.0, 0.0)) == a
  {
  }

  lemma AddAssociative(a: Side, b: Side, c: Side)
    ensures Add(Add(a, b), c) == Add(a, Add(b, c))
  {
  }

  // ------------------------------------------------------------- the loops

  /** Collects the digits and dots from `pos` on. */
  method ReadNumber(s: string, pos0: nat) returns (num: string, pos: nat)
    requires pos0 <= |s|
    ensures num == LeadingNumber(s[pos0..]) && pos == pos0 + |num| <= |s|
  {
    num, pos := "", pos0;
    while pos < |s| && IsNumeric(s[pos])
      invariant pos0 <= pos <= |s| && pos == pos0 + |num|
      invariant num + LeadingNumber(s[pos..]) == LeadingNumber(s[pos0..])
    {
      assert s[pos..][1..] == s[pos + 1..];
      MoveOver(num, [s[pos]], LeadingNumber(s[pos + 1..]));
      num := num + [s[pos]];
      pos := pos + 1;
    }
  }

  method ReadDenominatorAt(s: string, pos: nat) returns (d: Denominator)
    requires pos <= |s|
    ensures d == ReadDenominator(s[pos..])
  {
    var denomStr, next := ReadNumber(s, pos);
    if denomStr == "" { return NoDenominator; }
    var value := ParseFloat(denomStr);
    if value.None? { return BadDenominator; }
    if Abs(value.value) < TINY { return NoDenominator; }
    d := Over(value.value, |denomStr|);
  }

  method ReadOneAt(s: string, v: char, pos: nat, p: Partial) returns (r: Reading)
    requires pos < |s|
    ensures r == ReadOne(s[pos..], v, p)
  {
    var ch := s[pos];
    assert s[pos..][1..] == s[pos + 1..];
    if ch == v {
      r := Read(p.(found := true), 1);
    } else if IsNumeric(ch) {
      r := Read(p.(num := p.num + [ch]), 1);
    } else if ch == '/' {
      var d := ReadDenominatorAt(s, pos + 1);
      match d {
        case NoDenominator => r := Stop(ScanNoParse);
        case BadDenominator => r := Stop(ScanBadNumber);
        case Over(x, n) => r := Read(p.(denom := x), 1 + n);
      }
    } else if IsSpace(ch) {
      r := Read(p, 1);
    } else {
      r := Stop(ScanNoParse);
    }
  }

  lemma ScanOnce(s: string, v: char, p: Partial, step: Reading, rest: string, whole: Scan)
    requires s != "" && !IsSign(s[0]) && step == ReadOne(s, v, p) && ScanTerm(s, v, p) == whole
    requires step.Read? ==> rest == s[step.used..]
    ensures if step.Stop? then step.why == whole else ScanTerm(rest, v, step.next) == whole
  {
  }

  lemma ScanEnds(s: string, v: char, p: Partial)
    requires s == "" || IsSign(s[0])
    ensures ScanTerm(s, v, p) == Term(p, s)
  {
  }

  /** One step of the scan: why it stops, or what it has read and where it goes on. */
  method AdvanceScan(s: string, v: char, pos: nat, p: Partial, ghost whole: Scan)
      returns (why: Option<Scan>, next: Partial, after: nat)
    requires pos < |s| && !IsSign(s[pos]) && ScanTerm(s[pos..], v, p) == whole
    ensures why.Some? ==> !why.value.Term? && why.value == whole
    ensures why.None? ==> pos < after <= |s| && ScanTerm(s[after..], v, next) == whole
  {
    next, after := p, pos;
    var step := ReadOneAt(s, v, pos, p);
    if step.Read? { after := pos + step.used; }
    ScanOnce(s[pos..], v, p, step, s[after..], whole);
    if step.Stop? { return Some(step.why), next, after; }
    why, next := None, step.next;
  }

  method ScanTermLoop(s: string, v: char, pos0: nat) returns (r: Scan, pos: nat)
    requires pos0 <= |s|
    ensures r == ScanTerm(s[pos0..], v, NOTHING_READ)
    ensures r.Term? ==> pos0 <= pos <= |s| && r.rest == s[pos..]
  {
    var p := NOTHING_READ;
    pos := pos0;
    ghost var whole := ScanTerm(s[pos0..], v, NOTHING_READ);
    while pos < |s| && !IsSign(s[pos])
      invariant pos0 <= pos <= |s|
      invariant ScanTerm(s[pos..], v, p) == whole
      decreases |s| - pos
    {
      var why;
      why, p, pos := AdvanceScan(s, v, pos, p, whole);
      if why.Some? { return why.value, pos; }
    }
    ScanEnds(s[pos..], v, p);
    r := Term(p, s[pos..]);
  }

  /** Reads the term that starts at `pos`: its value, and where the next one starts. */
  method ReadTerm(s: string, v: char, pos: nat) returns (t: Side, next: nat)
    requires pos < |s|
    ensures t == FirstTerm(s[pos..], v).0
    ensures t.Value? ==> pos < next <= |s| && FirstTerm(s[pos..], v).1 == s[next..]
  {
    next := pos;
    if !IsSign(s[pos]) { return NoParse, next; }
    assert s[pos..][1..] == s[pos + 1..];
    var scan;
    scan, next := ScanTermLoop(s, v, pos + 1);
    if scan.ScanNoParse? { return NoParse, next; }
    if scan.ScanBadNumber? { return BadNumber, next; }
    var magnitude := Magnitude(scan.term.num, scan.term.found);
    if magnitude.None? { return BadNumber, next; }
    t := TermValue(s[pos], scan.term.found, magnitude.value / scan.term.denom);
  }

  lemma TermThenRest(s: string, v: char, done: Side, whole: Side)
    requires s != "" && done.Value? && Add(done, EvalTerms(s, v)) == whole
    ensures var (t, rest) := FirstTerm(s, v);
      if t.Value? then Add(Add(done, t), EvalTerms(rest, v)) == whole else whole == t
  {
    var (t, rest) := FirstTerm(s, v);
    AddAssociative(done, t, EvalTerms(rest, v));
  }

  /** Adds the term at `pos` to the totals so far, or gives the failure. */
  method AddTerm(s: string, v: char, pos: nat, coeff: real, constant: real, ghost whole: Side) returns (t: Side,
                 next: nat)
    requires pos < |s| && Add(Value(coeff, constant), EvalTerms(s[pos..], v)) == whole
    ensures !t.Value? ==> t == whole
    ensures t.Value? ==> pos < next <= |s| && Add(t, EvalTerms(s[next..], v)) == whole
  {
    t, next := ReadTerm(s, v, pos);
    TermThenRest(s[pos..], v, Value(coeff, constant), whole);
    if t.Value? { t := Value(coeff + t.coeff, constant + t.constant); }
  }

  /** The parser as coded: position by position, accumulating coefficient and constant. */
  method EvalSideLoop(side: string, v: char) returns (r: Side)
    ensures r == EvalSide(side, v)
  {
    var coeff, constant := 0.0, 0.0;
    var s := WithSign(Strip(side));
    var pos := 0;
    ghost var whole := EvalTerms(s, v);
    AddZero(whole);
    assert s[0..] == s;
    while pos < |s|
      invariant pos <= |s|
      invariant Add(Value(coeff, constant), EvalTerms(s[pos..], v)) == whole
      decreases |s| - pos
    {
      var t;
      t, pos := AddTerm(s, v, pos, coeff, constant, whole);
      if !t.Value? { return t; }
      coeff, constant := t.coeff, t.constant;
    }
    r := Value(coeff, constant);
  }
}
