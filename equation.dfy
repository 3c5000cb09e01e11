/** The linear-equation solver of the local generator's direct-question branch
    (services/aiService.js, lines 29-35): the first case-insensitive match of
    `(\d+)\s*x\s*\+\s*(\d+)\s*=\s*(\d+)` and the solution x = (c - b) / a. */
module LinearEquation {
  import opened JsString
  import opened StudyData

  /** The three digit runs captured by the pattern, as written: `a x + b = c`. */
  datatype Equation = Equation(coefficient: string, constant: string, rhs: string)

  /** A match of the pattern starting at index `start`. */
  datatype Match = Match(start: nat, equation: Equation)

  /** Index `k` of `s` holds a digit. */
  predicate DigitAt(s: string, k: nat) {
    k < |s| && IsDigit(s[k])
  }

  /** Index `k` of `s` holds whitespace. */
  predicate SpaceAt(s: string, k: nat) {
    k < |s| && IsSpace(s[k])
  }

  /** A digit on every index of `[a, b)`. */
  predicate DigitRun(s: string, a: nat, b: nat) {
    a <= b <= |s| && forall k :: a <= k < b ==> DigitAt(s, k)
  }

  /** Whitespace on every index of `[a, b)`. */
  predicate SpaceRun(s: string, a: nat, b: nat) {
    a <= b <= |s| && forall k :: a <= k < b ==> SpaceAt(s, k)
  }

  /** The first index at or after `i` that does not hold a digit. */
  function DigitsEnd(s: string, i: nat): (e: nat)
    requires i <= |s|
    ensures DigitRun(s, i, e) && !DigitAt(s, e)
    decreases |s| - i
  {
    if !DigitAt(s, i) then i else DigitsEnd(s, i + 1)
  }

  /** The first index at or after `i` that does not hold whitespace. */
  function SpacesEnd(s: string, i: nat): (e: nat)
    requires i <= |s|
    ensures SpaceRun(s, i, e) && !SpaceAt(s, e)
    decreases |s| - i
  {
    if !SpaceAt(s, i) then i else SpacesEnd(s, i + 1)
  }

  /** What the pattern expects next once the coefficient has been read. */
  datatype Stage = BeforeX | BeforePlus | BeforeConstant | BeforeRhs

  /** The pattern tried at index `i`. Each `\d+` and `\s*` takes the longest run
      (backing off could only leave a digit or a space where the pattern needs
      something else), and the `i` flag makes `x` match `X` as well. */
  function MatchAt(s: string, i: nat): (r: Option<Equation>)
    requires i <= |s|
    ensures r.Some? ==> var e := r.value;
      e.coefficient != [] && e.constant != [] && e.rhs != []
      && AllDigits(e.coefficient) && AllDigits(e.constant) && AllDigits(e.rhs)
      && StartsWith(s[i..], e.coefficient)
  {
    var e1 := DigitsEnd(s, i);
    var rest := Rest(s, e1, BeforeX);
    if e1 == i || rest.None? then None
    else
      assert s[i..e1] == s[i..][..e1 - i];
      RunDigits(s, i, e1);
      Some(Equation(s[i..e1], rest.value[0], rest.value[1]))
  }

  /** The rest of the pattern from index `j` at stage `stage`, scanned left to
      right: the captures still to come, in order (the constant and the
      right-hand side, or the right-hand side alone once past the `=`). */
  function Rest(s: string, j: nat, stage: Stage): (r: Option<seq<string>>)
    requires j <= |s|
    ensures r.Some? ==> (|r.value| == (if stage == BeforeRhs then 1 else 2)
                         && forall k :: 0 <= k < |r.value| ==> r.value[k] != [] && AllDigits(r.value[k]))
    decreases |s| - j
  {
    match stage
    case BeforeX =>
      var p := SpacesEnd(s, j);
      if p == |s| || (s[p] != 'x' && s[p] != 'X') then None else Rest(s, p + 1, BeforePlus)
    case BeforePlus =>
      var q := SpacesEnd(s, j);
      if q == |s| || s[q] != '+' then None else Rest(s, q + 1, BeforeConstant)
    case BeforeConstant =>
      var b0 := SpacesEnd(s, j);
      var b1 := DigitsEnd(s, b0);
      var t := SpacesEnd(s, b1);
      if b1 == b0 || t == |s| || s[t] != '=' then None
      else
        var rhs := Rest(s, t + 1, BeforeRhs);
        if rhs.None? then None
        else
          RunDigits(s, b0, b1);
          Some([s[b0..b1]] + rhs.value)
    case BeforeRhs =>
      var c0 := SpacesEnd(s, j);
      var c1 := DigitsEnd(s, c0);
      if c1 == c0 then None
      else
        RunDigits(s, c0, c1);
        Some([s[c0..c1]])
  }

  /** The non-empty digit run `d` stands at index `a`. */
  predicate DigitsAt(s: string, a: nat, d: string) {
    d != [] && DigitRun(s, a, a + |d|) && s[a..a + |d|] == d
  }

  /** The text of a run of digits is all digits. */
  lemma RunDigits(s: string, a: nat, b: nat)
    requires DigitRun(s, a, b)
    ensures AllDigits(s[a..b])
  {
    forall j | 0 <= j < b - a ensures IsDigit(s[a..b][j]) {
      assert DigitAt(s, a + j);
    }
  }

  /** Where the pieces of a match at `i` stand, read off the pattern itself:
      the coefficient at `i`, an `x` or `X` at `xAt`, a `+` at `plusAt`, the
      constant at `b0`, a `=` at `eqAt` and the right-hand side at `c0`, with
      nothing but whitespace in between and no digit right after the
      right-hand side (its `\d+` is greedy). */
  predicate Layout(s: string, i: nat, e: Equation, xAt: nat, plusAt: nat, b0: nat, eqAt: nat, c0: nat) {
    DigitsAt(s, i, e.coefficient)
    && SpaceRun(s, i + |e.coefficient|, xAt) && xAt < |s| && (s[xAt] == 'x' || s[xAt] == 'X')
    && PlusLayout(s, xAt + 1, plusAt, b0, eqAt, c0, e.constant, e.rhs)
  }

  /** From `j`: whitespace, the `+` at `plusAt`, then the constant onwards. */
  predicate PlusLayout(s: string, j: nat, plusAt: nat, b0: nat, eqAt: nat, c0: nat, constant: string, rhs: string) {
    SpaceRun(s, j, plusAt) && plusAt < |s| && s[plusAt] == '+'
    && ConstantLayout(s, plusAt + 1, b0, eqAt, c0, constant, rhs)
  }

  /** From `j`: whitespace, the constant at `b0`, whitespace, the `=` at `eqAt`, then the right-hand side. */
  predicate ConstantLayout(s: string, j: nat, b0: nat, eqAt: nat, c0: nat, constant: string, rhs: string) {
    SpaceRun(s, j, b0) && DigitsAt(s, b0, constant)
    && SpaceRun(s, b0 + |constant|, eqAt) && eqAt < |s| && s[eqAt] == '='
    && RhsLayout(s, eqAt + 1, c0, rhs)
  }

  /** From `j`: whitespace, then the right-hand side at `c0`, not followed by a digit. */
  predicate RhsLayout(s: string, j: nat, c0: nat, rhs: string) {
    SpaceRun(s, j, c0) && DigitsAt(s, c0, rhs) && !DigitAt(s, c0 + |rhs|)
  }

  /** The matcher finds exactly the layouts of the pattern. */
  lemma MatchAtIffLayout(s: string, i: nat, e: Equation)
    requires i <= |s|
    ensures MatchAt(s, i) == Some(e) <==>
      exists xAt: nat, plusAt: nat, b0: nat, eqAt: nat, c0: nat :: Layout(s, i, e, xAt, plusAt, b0, eqAt, c0)
  {
    if MatchAt(s, i) == Some(e) {
      MatchAtHasLayout(s, i);
    }
    if exists xAt: nat, plusAt: nat, b0: nat, eqAt: nat, c0: nat :: Layout(s, i, e, xAt, plusAt, b0, eqAt, c0) {
      var xAt: nat, plusAt: nat, b0: nat, eqAt: nat, c0: nat :| Layout(s, i, e, xAt, plusAt, b0, eqAt, c0);
      LayoutMatches(s, i, e, xAt, plusAt, b0, eqAt, c0);
    }
  }

  lemma MatchAtHasLayout(s: string, i: nat)
    requires i <= |s| && MatchAt(s, i).Some?
    ensures exists xAt: nat, plusAt: nat, b0: nat, eqAt: nat, c0: nat :: Layout(s, i, MatchAt(s, i).value, xAt, plusAt, b0, eqAt, c0)
  {
    MatchAtParts(s, i);
    var xAt, plusAt, b0, eqAt, c0 := PartsHaveLayout(s, i, DigitsEnd(s, i), MatchAt(s, i).value);
  }

  /** What a match at `i` is made of: the coefficient scan, the `x` after it, and the rest. */
  lemma MatchAtParts(s: string, i: nat)
    requires i <= |s| && MatchAt(s, i).Some?
    ensures var e1 := DigitsEnd(s, i); var xAt := SpacesEnd(s, e1); var e := MatchAt(s, i).value;
      i < e1 && xAt < |s| && (s[xAt] == 'x' || s[xAt] == 'X') && e.coefficient == s[i..e1]
      && Rest(s, xAt + 1, BeforePlus) == Some([e.constant, e.rhs])
  {
    var e1 := DigitsEnd(s, i);
    assert Rest(s, e1, BeforeX) == Rest(s, SpacesEnd(s, e1) + 1, BeforePlus);
    var r := Rest(s, e1, BeforeX).value;
    assert r == [r[0], r[1]];
  }

  lemma PartsHaveLayout(s: string, i: nat, e1: nat, e: Equation) returns (xAt: nat, plusAt: nat, b0: nat, eqAt: nat, c0: nat)
    requires i < e1 <= |s| && DigitsEnd(s, i) == e1 && e.coefficient == s[i..e1]
    requires var p := SpacesEnd(s, e1);
      p < |s| && (s[p] == 'x' || s[p] == 'X') && Rest(s, p + 1, BeforePlus) == Some([e.constant, e.rhs])
    ensures Layout(s, i, e, xAt, plusAt, b0, eqAt, c0)
  {
    xAt := SpacesEnd(s, e1);
    plusAt, b0, eqAt, c0 := PlusHasLayout(s, xAt + 1);
  }

  lemma PlusHasLayout(s: string, j: nat) returns (plusAt: nat, b0: nat, eqAt: nat, c0: nat)
    requires j <= |s| && Rest(s, j, BeforePlus).Some?
    ensures var r := Rest(s, j, BeforePlus).value; PlusLayout(s, j, plusAt, b0, eqAt, c0, r[0], r[1])
  {
    plusAt := SpacesEnd(s, j);
    assert Rest(s, j, BeforePlus) == Rest(s, plusAt + 1, BeforeConstant);
    b0, eqAt, c0 := ConstantHasLayout(s, plusAt + 1);
  }

  lemma ConstantHasLayout(s: string, j: nat) returns (b0: nat, eqAt: nat, c0: nat)
    requires j <= |s| && Rest(s, j, BeforeConstant).Some?
    ensures var r := Rest(s, j, BeforeConstant).value; ConstantLayout(s, j, b0, eqAt, c0, r[0], r[1])
  {
    b0 := SpacesEnd(s, j);
    eqAt := SpacesEnd(s, DigitsEnd(s, b0));
    c0 := SpacesEnd(s, eqAt + 1);
    assert RhsLayout(s, eqAt + 1, c0, Rest(s, eqAt + 1, BeforeRhs).value[0]);
  }

  lemma LayoutMatches(s: string, i: nat, e: Equation, xAt: nat, plusAt: nat, b0: nat, eqAt: nat, c0: nat)
    requires Layout(s, i, e, xAt, plusAt, b0, eqAt, c0)
    ensures MatchAt(s, i) == Some(e)
  {
    PlusLayoutMatches(s, xAt + 1, plusAt, b0, eqAt, c0, e.constant, e.rhs);
    CoefficientLayoutMatches(s, i, e.coefficient, xAt, e.constant, e.rhs);
  }

  /** The coefficient at `i` and the `x` at `xAt`, followed by the rest of the pattern. */
  lemma CoefficientLayoutMatches(s: string, i: nat, coefficient: string, xAt: nat, constant: string, rhs: string)
    requires DigitsAt(s, i, coefficient) && SpaceRun(s, i + |coefficient|, xAt)
    requires xAt < |s| && (s[xAt] == 'x' || s[xAt] == 'X') && Rest(s, xAt + 1, BeforePlus) == Some([constant, rhs])
    ensures MatchAt(s, i) == Some(Equation(coefficient, constant, rhs))
  {
    var a1 := i + |coefficient|;
    CoefficientEnds(s, i, coefficient, xAt);
    MatchAtStep(s, i, a1, xAt, constant, rhs);
  }

  lemma CoefficientEnds(s: string, i: nat, coefficient: string, xAt: nat)
    requires DigitsAt(s, i, coefficient) && SpaceRun(s, i + |coefficient|, xAt)
    requires xAt < |s| && (s[xAt] == 'x' || s[xAt] == 'X')
    ensures DigitsEnd(s, i) == i + |coefficient| && SpacesEnd(s, i + |coefficient|) == xAt
  {
    DigitsAtEnd(s, i, coefficient, xAt);
    SpacesEndAt(s, i + |coefficient|, xAt);
  }

  /** The matcher's verdict once the scans for the coefficient and the `x` have stopped. */
  lemma MatchAtStep(s: string, i: nat, a1: nat, xAt: nat, constant: string, rhs: string)
    requires i < a1 <= xAt < |s| && DigitsEnd(s, i) == a1 && SpacesEnd(s, a1) == xAt
    requires (s[xAt] == 'x' || s[xAt] == 'X') && Rest(s, xAt + 1, BeforePlus) == Some([constant, rhs])
    ensures MatchAt(s, i) == Some(Equation(s[i..a1], constant, rhs))
  {
    assert Rest(s, a1, BeforeX) == Some([constant, rhs]);
  }

  lemma PlusLayoutMatches(s: string, j: nat, plusAt: nat, b0: nat, eqAt: nat, c0: nat, constant: string, rhs: string)
    requires PlusLayout(s, j, plusAt, b0, eqAt, c0, constant, rhs)
    ensures Rest(s, j, BeforePlus) == Some([constant, rhs])
  {
    SpacesEndAt(s, j, plusAt);
    ConstantLayoutMatches(s, plusAt + 1, b0, eqAt, c0, constant, rhs);
  }

  lemma ConstantLayoutMatches(s: string, j: nat, b0: nat, eqAt: nat, c0: nat, constant: string, rhs: string)
    requires ConstantLayout(s, j, b0, eqAt, c0, constant, rhs)
    ensures Rest(s, j, BeforeConstant) == Some([constant, rhs])
  {
    DigitsAtEnd(s, b0, constant, eqAt);
    SpacesEndAt(s, j, b0);
    SpacesEndAt(s, b0 + |constant|, eqAt);
    RhsLayoutMatches(s, eqAt + 1, c0, rhs);
    assert [constant] + [rhs] == [constant, rhs];
  }

  lemma RhsLayoutMatches(s: string, j: nat, c0: nat, rhs: string)
    requires RhsLayout(s, j, c0, rhs)
    ensures Rest(s, j, BeforeRhs) == Some([rhs])
  {
    DigitsAtEnd(s, c0, rhs, c0 + |rhs|);
    SpacesEndAt(s, j, c0);
  }

  /** The digit run `d` at `a`, followed by whitespace up to `next`, which holds
      no digit, is where `DigitsEnd` stops. */
  lemma DigitsAtEnd(s: string, a: nat, d: string, next: nat)
    requires DigitsAt(s, a, d) && SpaceRun(s, a + |d|, next) && !DigitAt(s, next)
    ensures DigitsEnd(s, a) == a + |d| && DigitAt(s, a) && !SpaceAt(s, a)
  {
    var k := a + |d|;
    assert !DigitAt(s, k) by {
      if k < next { assert SpaceAt(s, k); }
    }
    DigitsEndAt(s, a, k);
  }

  /** A run of digits from `i` ending before a non-digit ends where `DigitsEnd` says. */
  lemma {:induction false} DigitsEndAt(s: string, i: nat, k: nat)
    requires DigitRun(s, i, k) && !DigitAt(s, k)
    ensures DigitsEnd(s, i) == k
    decreases k - i
  {
    if i < k {
      assert DigitAt(s, i);
      DigitsEndAt(s, i + 1, k);
    }
  }

  /** A run of whitespace from `i` ending before a non-space ends where `SpacesEnd` says. */
  lemma {:induction false} SpacesEndAt(s: string, i: nat, k: nat)
    requires SpaceRun(s, i, k) && !SpaceAt(s, k)
    ensures SpacesEnd(s, i) == k
    decreases k - i
  {
    if i < k {
      assert SpaceAt(s, i);
      SpacesEndAt(s, i + 1, k);
    }
  }

  /** The leftmost match at or after index `i`, as `String.prototype.match` finds it. */
  function FindFrom(s: string, i: nat): (m: Option<Match>)
    requires i <= |s|
    ensures m.Some? ==> i <= m.value.start <= |s| && MatchAt(s, m.value.start) == Some(m.value.equation)
                        && forall j :: i <= j < m.value.start ==> MatchAt(s, j).None?
    ensures m.None? ==> forall j :: i <= j <= |s| ==> MatchAt(s, j).None?
    decreases |s| - i
  {
    var here := MatchAt(s, i);
    if here.Some? then Some(Match(i, here.value))
    else if i == |s| then None
    else FindFrom(s, i + 1)
  }

  /** `questionText.match(/(\d+)\s*x\s*\+\s*(\d+)\s*=\s*(\d+)/i)`. */
  function FindEquation(s: string): Option<Match> {
    FindFrom(s, 0)
  }

  /** The first capture is a whole run of digits: the leftmost match never
      starts in the middle of a number, so "12x + 3 = 27" has coefficient 12. */
  lemma CoefficientIsWholeNumber(s: string)
    requires FindEquation(s).Some?
    ensures var m := FindEquation(s).value; m.start == 0 || !IsDigit(s[m.start - 1])
  {
    var m := FindEquation(s).value;
    var i := m.start;
    if i > 0 && IsDigit(s[i - 1]) {
      MatchExtendsLeft(s, i);
    }
  }

  /** A match starting just after a digit also matches one position earlier. */
  lemma MatchExtendsLeft(s: string, i: nat)
    requires 0 < i <= |s| && IsDigit(s[i - 1]) && MatchAt(s, i).Some?
    ensures MatchAt(s, i - 1).Some?
  {
    assert DigitAt(s, i - 1);
    assert DigitsEnd(s, i - 1) == DigitsEnd(s, i);
  }

  /** A rational number `num / den`; `den` is zero when JavaScript would divide by zero. */
  datatype Quotient = Quotient(num: int, den: int)

  function Coefficient(e: Equation): nat
    requires AllDigits(e.coefficient)
  {
    ParseDigits(e.coefficient)
  }

  /** x = (c - b) / a, from the parsed captures. */
  function Solve(e: Equation): (x: Quotient)
    requires AllDigits(e.coefficient) && AllDigits(e.constant) && AllDigits(e.rhs)
    ensures x.den == ParseDigits(e.coefficient)
    ensures x.den != 0 ==>
      ParseDigits(e.coefficient) * x.num + ParseDigits(e.constant) * x.den == ParseDigits(e.rhs) * x.den
  {
    var a, b, c := ParseDigits(e.coefficient), ParseDigits(e.constant), ParseDigits(e.rhs);
    Substitution(a, b, c);
    Quotient(c - b, a)
  }

  lemma Substitution(a: int, b: int, c: int)
    ensures a * (c - b) + b * a == c * a
  {
    calc {
      a * (c - b) + b * a;
      a * c - a * b + b * a;
      c * a;
    }
  }

  /** `${q}`: the decimal text of a quotient with an integral value, and what
      JavaScript prints for a division by zero (`NaN` for 0/0, `Infinity` or
      `-Infinity` otherwise); any other quotient is shown as a fraction. */
  function QuotientText(q: Quotient): (r: string)
    ensures r != []
    ensures q.den != 0 && q.num % q.den == 0 ==> r == IntText(q.num / q.den)
  {
    if q.den == 0 then
      if q.num == 0 then "NaN" else if q.num > 0 then "Infinity" else "-Infinity"
    else if q.num % q.den == 0 then IntText(q.num / q.den)
    else IntText(q.num) + "/" + IntText(q.den)
  }

  /** `q + k`; a division by zero stays `NaN` or an infinity of the same sign. */
  function Plus(q: Quotient, k: int): (r: Quotient)
    ensures r.den == q.den
    ensures q.den == 0 ==> QuotientText(r) == QuotientText(q)
    ensures q.den != 0 ==> r.num * q.den == (q.num + k * q.den) * r.den
  {
    Quotient(q.num + k * q.den, q.den)
  }

  /** `k * q` for a positive `k`. */
  function Times(k: nat, q: Quotient): (r: Quotient)
    requires k > 0
    ensures r.num == k * q.num && r.den == q.den
    ensures q.den == 0 ==> QuotientText(r) == QuotientText(q)
  {
    Quotient(k * q.num, q.den)
  }

  /** Multiplying the solution back by a non-zero coefficient gives `c - b`, the
      number the verification line of the worked solution shows. */
  lemma ProductIsDifference(e: Equation)
    requires AllDigits(e.coefficient) && AllDigits(e.constant) && AllDigits(e.rhs)
    requires ParseDigits(e.coefficient) != 0
    ensures var x := Solve(e);
      QuotientText(Quotient(x.den * x.num, x.den)) == IntText(ParseDigits(e.rhs) - ParseDigits(e.constant))
  {
    var x := Solve(e);
    var a, d := x.den, x.num;
    assert a * d == d * a;
    MultipleDivides(d, a);
  }

  lemma MultipleDivides(d: int, a: int)
    requires a > 0
    ensures (a * d) % a == 0 && (a * d) / a == d
  {
    var p := a * d;
    var q, r := p / a, p % a;
    assert p == a * q + r && 0 <= r < a;
    assert a * (d - q) == r by {
      assert a * (d - q) == a * d - a * q;
    }
    SmallMultipleIsZero(a, d - q, r);
  }

  lemma SmallMultipleIsZero(a: int, k: int, r: int)
    requires a > 0 && 0 <= r < a && a * k == r
    ensures k == 0
  {
    if k > 0 {
      NonNegativeProduct(a, k - 1);
    } else if k < 0 {
      NonNegativeProduct(a, -k - 1);
      assert a * (-k - 1) == -(a * k) - a;
    }
  }

  lemma NonNegativeProduct(a: int, m: int)
    requires a > 0 && m >= 0
    ensures a * m >= 0
  {
  }

  /** The worked example "3x + 5 = 20": coefficient 3, constant 5, right-hand
      side 20. */
  lemma WorkedExampleMatch()
    ensures FindEquation("3x + 5 = 20") == Some(Match(0, Equation("3", "5", "20")))
  {
    var s := "3x + 5 = 20";
    assert s[0..1] == "3" && s[5..6] == "5" && s[9..11] == "20";
    LayoutMatches(s, 0, Equation("3", "5", "20"), 1, 3, 5, 7, 9);
  }

  /** ... and solution 5, rendered as "5". */
  lemma WorkedExampleSolution()
    ensures QuotientText(Solve(Equation("3", "5", "20"))) == "5"
  {
    assert ParseDigits("20") == 20 by {
      assert "20"[..1] == "2";
    }
    assert Solve(Equation("3", "5", "20")) == Quotient(15, 3);
  }
}
