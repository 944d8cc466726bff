/** Laws of the side parser: concatenation, white space, and printing then parsing. */
module AlgebraTheory {
  import opened Sequences
  import opened WhiteSpace
  import opened Decimals
  import opened AlgebraParser

  /** Text that cannot continue a number: nothing, or a sign or white space first. */
  predicate BreaksNumber(s: string) {
    s == "" || IsSign(s[0]) || IsSpace(s[0])
  }

  predicate StartsSigned(s: string) {
    s == "" || IsSign(s[0])
  }

  lemma {:induction false} LeadingNumberConcat(a: string, b: string)
    requires BreaksNumber(b)
    ensures LeadingNumber(a + b) == LeadingNumber(a)
  {
    if a == "" {
      assert a + b == b && LeadingNumber(b) == "";
    } else {
      assert (a + b)[1..] == a[1..] + b;
      LeadingNumberConcat(a[1..], b);
    }
  }

  lemma ReadOneConcat(a: string, b: string, v: char, p: Partial)
    requires a != "" && BreaksNumber(b)
    ensures ReadOne(a + b, v, p) == ReadOne(a, v, p)
  {
    assert (a + b)[1..] == a[1..] + b;
    LeadingNumberConcat(a[1..], b);
  }

  lemma ScanStep(s: string, v: char, p: Partial)
    requires s != "" && !IsSign(s[0])
    ensures ScanTerm(s, v, p) ==
            (var r := ReadOne(s, v, p); if r.Stop? then r.why else ScanTerm(s[r.used..], v, r.next))
  {
  }

  lemma DropFromConcat(a: string, b: string, n: nat)
    requires n <= |a|
    ensures (a + b)[n..] == a[n..] + b
  {
  }

  lemma {:induction false} ScanConcat(a: string, b: string, v: char, p: Partial)
    requires StartsSigned(b)
    ensures ScanTerm(a + b, v, p) ==
            (var r := ScanTerm(a, v, p); if r.Term? then Term(r.term, r.rest + b) else r)
    decreases |a|
  {
    if a == "" {
      assert a + b == b;
    } else if !IsSign(a[0]) {
      ReadOneConcat(a, b, v, p);
      var r := ReadOne(a, v, p);
      if r.Read? {
        DropFromConcat(a, b, r.used);
        ScanConcat(a[r.used..], b, v, r.next);
      }
    }
  }

  /** Evaluating two signed texts in a row adds their results; the first failure wins. */
  lemma {:induction false} EvalConcat(a: string, b: string, v: char)
    requires StartsSigned(b)
    ensures EvalTerms(a + b, v) == Add(EvalTerms(a, v), EvalTerms(b, v))
    decreases |a|
  {
    if a == "" {
      assert a + b == b;
      AddZero(EvalTerms(b, v));
    } else {
      assert (a + b)[1..] == a[1..] + b;
      ScanConcat(a[1..], b, v, NOTHING_READ);
      var (t, rest) := FirstTerm(a, v);
      if t.Value? {
        assert FirstTerm(a + b, v) == (t, rest + b);
        EvalConcat(rest, b, v);
        AddAssociative(t, EvalTerms(rest, v), EvalTerms(b, v));
      }
    }
  }

  /** Parsing two concatenated sides, the second one signed, adds their results. */
  lemma SidesAdd(a: string, b: string, v: char)
    requires StartsSigned(Strip(b))
    ensures EvalSide(a + b, v) == Add(EvalSide(a, v), EvalSide(b, v))
  {
    FilterConcat(a, b, NotBlank());
    var s, t := Strip(a), Strip(b);
    if s == "" {
      assert s + t == t;
      AddZero(EvalTerms(t, v));
    } else {
      assert WithSign(s + t) == WithSign(s) + t;
      EvalConcat(WithSign(s), t, v);
    }
  }

  // ------------------------------------------------------------- white space

  /** Neither the variable nor a number character is white space. */
  predicate ProperVariable(v: char) {
    'a' <= v <= 'z' || 'A' <= v <= 'Z'
  }

  lemma ScanSpace(s: string, v: char, p: Partial)
    requires s != "" && IsSpace(s[0]) && ProperVariable(v)
    ensures ScanTerm(s, v, p) == ScanTerm(s[1..], v, p)
  {
    assert ReadOne(s, v, p) == Read(p, 1);
  }

  lemma {:induction false} ScanBlank(w: string, b: string, v: char, p: Partial)
    requires Blank(w) && ProperVariable(v)
    ensures ScanTerm(w + b, v, p) == ScanTerm(b, v, p)
  {
    if w == "" {
      assert w + b == b;
    } else {
      ScanSpace(w + b, v, p);
      assert (w + b)[1..] == w[1..] + b;
      ScanBlank(w[1..], b, v, p);
    }
  }

  lemma {:induction false} ScanTrailing(a: string, w: string, v: char, p: Partial)
    requires Blank(w) && ProperVariable(v)
    ensures ScanTerm(a + w, v, p) ==
            (var r := ScanTerm(a, v, p); if r.Term? && r.rest != "" then Term(r.term, r.rest + w) else r)
    decreases |a|
  {
    if a == "" {
      ScanBlank(w, "", v, p);
      assert a + w == w && w + "" == w;
    } else if !IsSign(a[0]) {
      ReadOneConcat(a, w, v, p);
      if ReadOne(a, v, p).Read? {
        DropFromConcat(a, w, ReadOne(a, v, p).used);
        ScanTrailing(a[ReadOne(a, v, p).used..], w, v, ReadOne(a, v, p).next);
      }
    }
  }

  lemma {:induction false} EvalTrailing(a: string, w: string, v: char)
    requires Blank(w) && ProperVariable(v) && a != ""
    ensures EvalTerms(a + w, v) == EvalTerms(a, v)
    decreases |a|
  {
    assert (a + w)[1..] == a[1..] + w;
    ScanTrailing(a[1..], w, v, NOTHING_READ);
    var (t, rest) := FirstTerm(a, v);
    if t.Value? && rest != "" {
      assert FirstTerm(a + w, v) == (t, rest + w);
      EvalTrailing(rest, w, v);
    }
  }

  lemma StripBlank(w: string)
    requires Blank(w)
    ensures Blank(Strip(w))
  {
    FilterMembers(w, NotBlank());
    forall i | 0 <= i < |Strip(w)|
      ensures IsSpace(Strip(w)[i])
    {
      assert Strip(w)[i] in w;
    }
  }

  /** A lone sign followed by white space counts nothing. */
  lemma EvalSignedBlank(w: string, v: char)
    requires Blank(w) && ProperVariable(v)
    ensures EvalTerms("+" + w, v) == Value(0.0, 0.0)
  {
    assert ("+" + w)[1..] == w && w + "" == w;
    ScanBlank(w, "", v, NOTHING_READ);
    assert FirstTerm("+" + w, v) == (Value(0.0, 0.0), "");
  }

  lemma EvalBlankThenTerm(w: string, s: string, v: char)
    requires Blank(w) && ProperVariable(v) && s != "" && !IsSign(s[0])
    ensures EvalTerms("+" + (w + s), v) == EvalTerms("+" + s, v)
  {
    assert ("+" + (w + s))[1..] == w + s && ("+" + s)[1..] == s;
    ScanBlank(w, s, v, NOTHING_READ);
  }

  lemma WithSignAppend(s: string, u: string)
    requires s != ""
    ensures WithSign(s + u) == WithSign(s) + u
  {
  }

  lemma SpaceAfter(s: string, u: string, v: char)
    requires Blank(u) && ProperVariable(v)
    ensures EvalTerms(WithSign(s + u), v) == EvalTerms(WithSign(s), v)
  {
    if s != "" {
      WithSignAppend(s, u);
      EvalTrailing(WithSign(s), u, v);
    } else if u != "" {
      assert s + u == u;
      EvalSignedBlank(u, v);
    }
  }

  /** White space around a side makes no difference. */
  lemma SpaceAround(w: string, s: string, u: string, v: char)
    requires Blank(w) && Blank(u) && ProperVariable(v)
    ensures EvalSide(w + s + u, v) == EvalSide(s, v)
  {
    FilterConcat(w + s, u, NotBlank());
    FilterConcat(w, s, NotBlank());
    StripBlank(w);
    StripBlank(u);
    SpaceBefore(Strip(w), Strip(s), v);
    SpaceAfter(Strip(w) + Strip(s), Strip(u), v);
  }

  lemma SignedSplit(w: string, s: string)
    requires w != "" && !IsSign(w[0])
    ensures WithSign(w + s) == "+" + w + s && WithSign(w + s) == "+" + (w + s)
  {
  }

  lemma SpaceBefore(w: string, s: string, v: char)
    requires Blank(w) && ProperVariable(v)
    ensures EvalTerms(WithSign(w + s), v) == EvalTerms(WithSign(s), v)
  {
    if w == "" {
      assert w + s == s;
    } else if s == "" {
      assert w + s == w;
      EvalSignedBlank(w, v);
    } else {
      SignedSplit(w, s);
      if IsSign(s[0]) {
        EvalConcat("+" + w, s, v);
        EvalSignedBlank(w, v);
        AddZero(EvalTerms(s, v));
      } else {
        EvalBlankThenTerm(w, s, v);
      }
    }
  }

  // -------------------------------------------------------- printing a term

  /** A coefficient as written: nothing, or a decimal with `scale` digits after the point. */
  datatype Numeral = Absent | Decimal(mantissa: nat, scale: nat)

  /** A signed term: numeral, variable if any, and an optional whole denominator, written
      before or after the variable. */
  datatype SignedTerm = SignedTerm(negative: bool, numeral: Numeral, over: Option<nat>, hasVar: bool, overFirst: bool)

  function Zeros(n: nat): string {
    seq(n, i => '0')
  }

  /** The digits of `m`, with leading zeros so that more than `scale` are there. */
  function Padded(m: nat, scale: nat): (s: string)
    ensures |s| > scale
  {
    NumeralRoundTrip(m);
    var d := NatToString(m);
    if |d| > scale then d else Zeros(scale + 1 - |d|) + d
  }

  function PrintNumeral(n: Numeral): string {
    match n
    case Absent => ""
    case Decimal(m, scale) =>
      if scale == 0 then NatToString(m)
      else
        var d := Padded(m, scale);
        d[..|d| - scale] + "." + d[|d| - scale..]
  }

  function PrintOver(over: Option<nat>): string {
    if over.None? then "" else "/" + NatToString(over.value)
  }

  /** What follows the numeral of a printed term. */
  function PrintTail(t: SignedTerm, v: char): string {
    var x := if t.hasVar then [v] else "";
    if t.overFirst then PrintOver(t.over) + x else x + PrintOver(t.over)
  }

  function Sign(negative: bool): string {
    if negative then "-" else "+"
  }

  function PrintTerm(t: SignedTerm, v: char): string {
    Sign(t.negative) + PrintNumeral(t.numeral) + PrintTail(t, v)
  }

  function PrintTerms(ts: seq<SignedTerm>, v: char): string {
    if ts == [] then "" else PrintTerm(ts[0], v) + PrintTerms(ts[1..], v)
  }

  predicate Sensible(t: SignedTerm) {
    t.over.Some? ==> t.over.value >= 1
  }

  /** The number a term denotes: a bare variable counts one, a bare sign nothing. */
  function TermAmount(t: SignedTerm): real
    requires Sensible(t)
  {
    var base := Base(t.numeral, t.hasVar);
    var amount := if t.over.None? then base else base / t.over.value as real;
    if t.negative then -amount else amount
  }

  function VariableSum(ts: seq<SignedTerm>): real
    requires forall t :: t in ts ==> Sensible(t)
  {
    if ts == [] then 0.0 else (if ts[0].hasVar then TermAmount(ts[0]) else 0.0) + VariableSum(ts[1..])
  }

  function ConstantSum(ts: seq<SignedTerm>): real
    requires forall t :: t in ts ==> Sensible(t)
  {
    if ts == [] then 0.0 else (if ts[0].hasVar then 0.0 else TermAmount(ts[0])) + ConstantSum(ts[1..])
  }

  // -------------------------------------------------------- reading numerals

  function IntPow10(n: nat): nat {
    if n == 0 then 1 else 10 * IntPow10(n - 1)
  }

  lemma {:induction false} PowersAgree(n: nat)
    ensures IntPow10(n) as real == Pow10(n)
  {
    if n > 0 { PowersAgree(n - 1); }
  }

  lemma DigitsSnoc(s: string, c: char)
    requires AllDigits(s) && IsDigit(c)
    ensures AllDigits(s + [c]) && DigitsVal(s + [c]) == 10 * DigitsVal(s) + DigitVal(c)
  {
    assert (s + [c])[..|s|] == s;
  }

  lemma ShiftDigits(x: nat, p: nat, y: nat, d: nat)
    ensures 10 * (x * p + y) + d == x * (10 * p) + (10 * y + d)
  {
  }

  lemma {:induction false} DigitsConcat(a: string, b: string)
    requires AllDigits(a) && AllDigits(b)
    ensures AllDigits(a + b) && DigitsVal(a + b) == DigitsVal(a) * IntPow10(|b|) + DigitsVal(b)
  {
    if b == "" {
      assert a + b == a;
    } else {
      var front, c := b[..|b| - 1], b[|b| - 1];
      assert a + b == a + front + [c];
      DigitsConcat(a, front);
      DigitsSnoc(a + front, c);
      ShiftDigits(DigitsVal(a), IntPow10(|front|), DigitsVal(front), DigitVal(c));
    }
  }

  lemma {:induction false} ZerosVal(n: nat)
    ensures AllDigits(Zeros(n)) && DigitsVal(Zeros(n)) == 0
  {
    if n > 0 {
      assert Zeros(n)[..n - 1] == Zeros(n - 1);
      ZerosVal(n - 1);
    }
  }

  lemma PaddedVal(m: nat, scale: nat)
    ensures AllDigits(Padded(m, scale)) && DigitsVal(Padded(m, scale)) == m
  {
    NumeralRoundTrip(m);
    var d := NatToString(m);
    if |d| <= scale {
      ZerosVal(scale + 1 - |d|);
      DigitsConcat(Zeros(scale + 1 - |d|), d);
    }
  }

  lemma {:induction false} DotAtEnd(d: string)
    requires AllDigits(d)
    ensures DotAt(d) == |d|
  {
    if d != "" { DotAtEnd(d[1..]); }
  }

  lemma {:induction false} DotAtMiddle(a: string, b: string)
    requires AllDigits(a)
    ensures DotAt(a + "." + b) == |a|
  {
    if a != "" {
      assert (a + "." + b)[1..] == a[1..] + "." + b;
      DotAtMiddle(a[1..], b);
    }
  }

  lemma ParseWhole(d: string)
    requires AllDigits(d) && d != ""
    ensures ParseFloat(d) == Some(DigitsVal(d) as real)
  {
    DotAtEnd(d);
    assert d[..|d|] == d && d + "" == d;
  }

  lemma FractionSplits(a: nat, b: nat, p: nat, q: real)
    requires p as real == q && q >= 1.0
    ensures a as real + b as real / q == (a * p + b) as real / q
  {
    assert (a * p + b) as real == a as real * q + b as real;
    assert (a as real * q + b as real) / q == a as real + b as real / q;
  }

  lemma {:induction false} ParseDotted(a: string, b: string, s: string)
    requires AllDigits(a) && AllDigits(b) && a + b != "" && s == a + "." + b
    ensures ParseFloat(s) == Some(DigitsVal(a) as real + DigitsVal(b) as real / Pow10(|b|))
  {
    DotAtMiddle(a, b);
    DotParts(a, b, s);
  }

  lemma DotParts(a: string, b: string, s: string)
    requires s == a + "." + b
    ensures s[..|a|] == a && s[|a| + 1..] == b && |s| == |a| + 1 + |b|
  {
  }

  lemma {:induction false} ParseScaled(d: string, m: nat, scale: nat, s: string)
    requires AllDigits(d) && DigitsVal(d) == m && scale < |d|
    requires s == d[..|d| - scale] + "." + d[|d| - scale..]
    ensures ParseFloat(s) == Some(m as real / Pow10(scale))
  {
    var a, b := d[..|d| - scale], d[|d| - scale..];
    SplitDigits(d, |d| - scale);
    ParseDotted(a, b, s);
    PowersAgree(scale);
    FractionSplits(DigitsVal(a), DigitsVal(b), IntPow10(scale), Pow10(scale));
  }

  /** Reading a printed decimal gives back its value. */
  lemma ParsePrinted(m: nat, scale: nat)
    ensures ParseFloat(PrintNumeral(Decimal(m, scale))) == Some(m as real / Pow10(scale))
  {
    if scale == 0 {
      NumeralRoundTrip(m);
      ParseWhole(NatToString(m));
    } else {
      PaddedVal(m, scale);
      ParseScaled(Padded(m, scale), m, scale, PrintNumeral(Decimal(m, scale)));
    }
  }

  lemma SplitDigits(d: string, i: nat)
    requires AllDigits(d) && i <= |d|
    ensures AllDigits(d[..i]) && AllDigits(d[i..])
    ensures DigitsVal(d) == DigitsVal(d[..i]) * IntPow10(|d| - i) + DigitsVal(d[i..])
  {
    var a, b := d[..i], d[i..];
    assert a + b == d && |b| == |d| - i;
    assert AllDigits(a) && AllDigits(b);
    DigitsConcat(a, b);
  }

  // ----------------------------------------------------------- reading terms

  predicate AllNumeric(s: string) {
    forall i :: 0 <= i < |s| ==> IsNumeric(s[i])
  }

  lemma {:induction false} ScanNumeric(n: string, b: string, v: char, p: Partial)
    requires AllNumeric(n) && ProperVariable(v)
    ensures ScanTerm(n + b, v, p) == ScanTerm(b, v, p.(num := p.num + n))
  {
    if n == "" {
      assert n + b == b && p.num + n == p.num;
    } else {
      assert (n + b)[1..] == n[1..] + b;
      assert p.num + [n[0]] + n[1..] == p.num + n;
      ScanNumeric(n[1..], b, v, p.(num := p.num + [n[0]]));
    }
  }

  lemma {:induction false} LeadingNumberAll(d: string, b: string)
    requires AllNumeric(d) && (b == "" || !IsNumeric(b[0]))
    ensures LeadingNumber(d + b) == d
  {
    if d == "" {
      assert d + b == b;
    } else {
      assert (d + b)[1..] == d[1..] + b;
      LeadingNumberAll(d[1..], b);
    }
  }

  /** The denominator the scan has after reading `over`. */
  function Divided(p: Partial, over: Option<nat>): Partial
    requires over.Some? ==> over.value >= 1
  {
    if over.None? then p else p.(denom := over.value as real)
  }

  lemma ReadPrintedOver(n: nat, b: string)
    requires n >= 1 && (b == "" || !IsNumeric(b[0]))
    ensures ReadDenominator(NatToString(n) + b) == Over(n as real, |NatToString(n)|)
  {
    var d := NatToString(n);
    NumeralRoundTrip(n);
    ParseWhole(d);
    LeadingNumberAll(d, b);
  }

  lemma ReadSlash(s: string, v: char, p: Partial, x: Divisor, n: nat)
    requires s != "" && s[0] == '/' && ProperVariable(v) && ReadDenominator(s[1..]) == Over(x, n)
    ensures ReadOne(s, v, p) == Read(p.(denom := x), 1 + n)
  {
  }

  lemma AfterSlash(d: string, b: string, s: string)
    requires s == "/" + d + b
    ensures s[1..] == d + b && s[1 + |d|..] == b
  {
  }

  lemma ScanOver(over: Option<nat>, b: string, v: char, p: Partial)
    requires over.Some? ==> over.value >= 1
    requires ProperVariable(v) && (b == "" || !IsNumeric(b[0]))
    ensures ScanTerm(PrintOver(over) + b, v, p) == ScanTerm(b, v, Divided(p, over))
  {
    var s := PrintOver(over) + b;
    if over.None? {
      assert s == b;
    } else {
      var d := NatToString(over.value);
      AfterSlash(d, b, s);
      ReadPrintedOver(over.value, b);
      ReadSlash(s, v, p, over.value as real, |d|);
      ScanStep(s, v, p);
    }
  }

  lemma ScanVar(hasVar: bool, b: string, v: char, p: Partial)
    requires ProperVariable(v)
    ensures ScanTerm((if hasVar then [v] else "") + b, v, p) ==
            ScanTerm(b, v, if hasVar then p.(found := true) else p)
  {
    if hasVar {
      assert ([v] + b)[1..] == b;
    } else {
      assert "" + b == b;
    }
  }

  lemma NumericDecimal(a: string, b: string)
    requires AllDigits(a) && AllDigits(b)
    ensures AllNumeric(a + "." + b)
  {
  }

  lemma NumeralIsNumeric(n: Numeral)
    ensures AllNumeric(PrintNumeral(n))
  {
    if n.Decimal? {
      NumeralRoundTrip(n.mantissa);
      if n.scale > 0 {
        PaddedVal(n.mantissa, n.scale);
        var d := Padded(n.mantissa, n.scale);
        NumericDecimal(d[..|d| - n.scale], d[|d| - n.scale..]);
      }
    }
  }

  lemma ScanTail(t: SignedTerm, v: char, p: Partial)
    requires Sensible(t) && ProperVariable(v) && !p.found
    ensures ScanTerm(PrintTail(t, v), v, p) == Term(Divided(p.(found := t.hasVar), t.over), "")
  {
    var x, o := if t.hasVar then [v] else "", PrintOver(t.over);
    if t.overFirst {
      ScanOver(t.over, x, v, p);
      ScanVar(t.hasVar, "", v, Divided(p, t.over));
      assert x + "" == x;
    } else {
      ScanVar(t.hasVar, o, v, p);
      ScanOver(t.over, "", v, p.(found := t.hasVar));
      assert o + "" == o;
    }
  }

  lemma SignedText(sign: string, n: string, tail: string, s: string)
    requires |sign| == 1 && s == sign + n + tail
    ensures s != "" && s[0] == sign[0] && s[1..] == n + tail
  {
  }

  lemma TermText(t: SignedTerm, v: char)
    ensures var s := PrintTerm(t, v);
      s != "" && s[0] == Sign(t.negative)[0] && s[1..] == PrintNumeral(t.numeral) + PrintTail(t, v)
  {
    SignedText(Sign(t.negative), PrintNumeral(t.numeral), PrintTail(t, v), PrintTerm(t, v));
  }

  lemma ScanPrinted(t: SignedTerm, v: char)
    requires Sensible(t) && ProperVariable(v)
    ensures ScanTerm(PrintNumeral(t.numeral) + PrintTail(t, v), v, NOTHING_READ) ==
            Term(Divided(Partial(PrintNumeral(t.numeral), t.hasVar, 1.0), t.over), "")
  {
    var n := PrintNumeral(t.numeral);
    NumeralIsNumeric(t.numeral);
    ScanNumeric(n, PrintTail(t, v), v, NOTHING_READ);
    assert "" + n == n;
    ScanTail(t, v, Partial(n, false, 1.0));
  }

  /** The value of a numeral beside the variable, or on its own. */
  function Base(n: Numeral, hasVar: bool): real {
    match n
    case Absent => if hasVar then 1.0 else 0.0
    case Decimal(m, scale) => m as real / Pow10(scale)
  }

  lemma MagnitudePrinted(n: Numeral, hasVar: bool)
    ensures Magnitude(PrintNumeral(n), hasVar) == Some(Base(n, hasVar))
  {
    if n.Decimal? {
      ParsePrinted(n.mantissa, n.scale);
      if n.scale == 0 { NumeralRoundTrip(n.mantissa); }
    }
  }

  lemma EvalOneTerm(s: string, v: char, p: Partial, m: real)
    requires s != "" && IsSign(s[0]) && ScanTerm(s[1..], v, NOTHING_READ) == Term(p, "")
    requires Magnitude(p.num, p.found) == Some(m)
    ensures EvalTerms(s, v) == TermValue(s[0], p.found, m / p.denom)
  {
    AddZero(TermValue(s[0], p.found, m / p.denom));
  }

  lemma EvalPrinted(t: SignedTerm, v: char)
    requires Sensible(t) && ProperVariable(v)
    ensures EvalTerms(PrintTerm(t, v), v) ==
            if t.hasVar then Value(TermAmount(t), 0.0) else Value(0.0, TermAmount(t))
  {
    var p := Divided(Partial(PrintNumeral(t.numeral), t.hasVar, 1.0), t.over);
    TermText(t, v);
    ScanPrinted(t, v);
    MagnitudePrinted(t.numeral, t.hasVar);
    EvalOneTerm(PrintTerm(t, v), v, p, Base(t.numeral, t.hasVar));
  }

  lemma {:induction false} EvalPrintedTerms(ts: seq<SignedTerm>, v: char)
    requires (forall t :: t in ts ==> Sensible(t)) && ProperVariable(v)
    ensures EvalTerms(PrintTerms(ts, v), v) == Value(VariableSum(ts), ConstantSum(ts))
    ensures StartsSigned(PrintTerms(ts, v))
  {
    if ts != [] {
      assert ts[0] in ts;
      EvalPrintedTerms(ts[1..], v);
      EvalConcat(PrintTerm(ts[0], v), PrintTerms(ts[1..], v), v);
      EvalPrinted(ts[0], v);
    }
  }

  /** Parsing any spacing of a printed list of signed terms, with or without its leading
      plus, gives exactly the sum of the variable coefficients and the sum of the constants. */
  lemma PrintedSideParses(ts: seq<SignedTerm>, v: char, side: string)
    requires (forall t :: t in ts ==> Sensible(t)) && ProperVariable(v)
    requires Strip(side) == PrintTerms(ts, v) || (Strip(side) != "" && !IsSign(Strip(side)[0])
                                                  && "+" + Strip(side) == PrintTerms(ts, v))
    ensures EvalSide(side, v) == Value(VariableSum(ts), ConstantSum(ts))
  {
    EvalPrintedTerms(ts, v);
  }

  // ------------------------------------------------- what is not accepted

  /** The characters a side may hold: the variable, the digits, the dot, the slash, the signs
      and white space. */
  predicate Known(c: char, v: char) {
    || c == v || '0' <= c <= '9' || c == '.' || c == '/' || c == '+' || c == '-'
    || c == ' ' || 9 <= c as int <= 13 || 28 <= c as int <= 31
  }

  predicate AllKnown(s: string, v: char) {
    forall i :: 0 <= i < |s| ==> Known(s[i], v)
  }

  lemma KnownParts(a: string, b: string, v: char)
    ensures AllKnown(a + b, v) <==> AllKnown(a, v) && AllKnown(b, v)
  {
    assert forall i :: 0 <= i < |a| ==> (a + b)[i] == a[i];
    assert forall i :: 0 <= i < |b| ==> (a + b)[|a| + i] == b[i];
  }

  lemma {:induction false} LeadingNumberIs(s: string, v: char)
    ensures LeadingNumber(s) == s[..|LeadingNumber(s)|] && AllKnown(LeadingNumber(s), v)
  {
    if s != "" && IsNumeric(s[0]) { LeadingNumberIs(s[1..], v); }
  }

  lemma {:induction false} ReadIsKnown(s: string, v: char, p: Partial)
    requires s != "" && ReadOne(s, v, p).Read?
    ensures AllKnown(s[..ReadOne(s, v, p).used], v)
  {
    if s[0] != v && s[0] == '/' {
      SlashUses(s, v, p);
      SlashIsKnown(s, v);
    } else {
      OtherUses(s, v, p);
    }
  }

  lemma OtherUses(s: string, v: char, p: Partial)
    requires s != "" && (s[0] == v || s[0] != '/') && ReadOne(s, v, p).Read?
    ensures ReadOne(s, v, p).used == 1 && Known(s[0], v)
  {
  }

  lemma {:induction false} SlashIsKnown(s: string, v: char)
    requires s != "" && s[0] == '/'
    ensures |LeadingNumber(s[1..])| < |s| && AllKnown(s[..1 + |LeadingNumber(s[1..])|], v)
  {
    var n := LeadingNumber(s[1..]);
    LeadingNumberIs(s[1..], v);
    KnownParts("/", n, v);
    assert s[..1 + |n|] == "/" + s[1..][..|n|];
  }

  lemma SlashUses(s: string, v: char, p: Partial)
    requires s != "" && s[0] == '/' && v != '/' && ReadOne(s, v, p).Read?
    ensures ReadOne(s, v, p).used == 1 + |LeadingNumber(s[1..])|
  {
  }

  lemma {:induction false} ScanIsKnown(s: string, v: char, p: Partial)
    requires ScanTerm(s, v, p).Term?
    ensures AllKnown(s, v) <==> AllKnown(ScanTerm(s, v, p).rest, v)
    decreases |s|
  {
    if s != "" && !IsSign(s[0]) {
      var step := ReadOne(s, v, p);
      ReadIsKnown(s, v, p);
      ScanIsKnown(s[step.used..], v, step.next);
      assert s == s[..step.used] + s[step.used..];
      KnownParts(s[..step.used], s[step.used..], v);
    }
  }

  lemma {:induction false} TermsAreKnown(s: string, v: char)
    requires EvalTerms(s, v).Value?
    ensures AllKnown(s, v)
    decreases |s|
  {
    if s != "" {
      var (t, rest) := FirstTerm(s, v);
      TermsAreKnown(rest, v);
      ScanIsKnown(s[1..], v, NOTHING_READ);
      assert s == [s[0]] + s[1..];
      KnownParts([s[0]], s[1..], v);
    }
  }

  /** A side with any other character in it has no value. */
  lemma ForeignIsRejected(side: string, v: char, c: char)
    requires c in side && !Known(c, v)
    ensures !EvalSide(side, v).Value?
  {
    FilterMembers(side, NotBlank());
    var i :| 0 <= i < |Strip(side)| && Strip(side)[i] == c;
    var s := WithSign(Strip(side));
    assert s[if s == Strip(side) then i else i + 1] == c;
    assert !AllKnown(s, v);
    if EvalSide(side, v).Value? { TermsAreKnown(s, v); }
  }

  /** A slash with no number after it, or with one that is practically zero, leaves the side
      without a value; one with a number that cannot be read raises; otherwise the number is
      the divisor. */
  lemma SlashCases(d: string, b: string, v: char, p: Partial)
    requires v != '/' && AllNumeric(d) && (b == "" || !IsNumeric(b[0]))
    ensures var r := ReadOne("/" + (d + b), v, p);
      && (d == "" ==> r == Stop(ScanNoParse))
      && (d != "" && ParseFloat(d).None? ==> r == Stop(ScanBadNumber))
      && (d != "" && ParseFloat(d).Some? ==>
            var x := ParseFloat(d).value;
            if -TINY < x < TINY then r == Stop(ScanNoParse) else r.Read? && r.used == 1 + |d| && r.next.denom == x)
  {
    LeadingNumberAll(d, b);
    assert ("/" + (d + b))[1..] == d + b;
  }

  /** A text of digits and dots is a number exactly when it has at most one dot and is more
      than the dot. */
  lemma NumberIff(s: string)
    requires AllNumeric(s)
    ensures ParseFloat(s).Some? <==> s != "" && s != "." && !TwoDots(s)
  {
    var i := DotAt(s);
    if i < |s| {
      assert s[i] == '.';
      assert s[..i] + s[i + 1..] == "" <==> |s| == 1;
      var frac := s[i + 1..];
      DigitsOnly(s[..i]);
      DigitsOnly(frac);
      assert TwoDots(s) <==> exists k :: 0 <= k < |frac| && frac[k] == '.' by {
        if k :| 0 <= k < |frac| && frac[k] == '.' { assert s[i + 1 + k] == '.'; }
        if j, k :| 0 <= j < k < |s| && s[j] == s[k] == '.' { assert frac[k - i - 1] == '.'; }
      }
    } else {
      assert s[..i] == s;
      DigitsOnly(s);
    }
  }

  predicate TwoDots(s: string) {
    exists j, k :: 0 <= j < k < |s| && s[j] == s[k] == '.'
  }

  lemma DigitsOnly(s: string)
    requires AllNumeric(s)
    ensures AllDigits(s) <==> !exists k :: 0 <= k < |s| && s[k] == '.'
  {
  }
}
