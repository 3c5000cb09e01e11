/** JavaScript string semantics that the study assistant relies on: the whitespace
    class shared by the regular-expression escape `\s` and `String.prototype.trim`,
    `trim`, `substring`, `startsWith`, `split` on a run of a character class, and
    `Array.prototype.filter`. Strings are sequences of characters. */
module JsString {

  function Min(a: int, b: int): int { if a <= b then a else b }

  /** The characters `\s` matches and `trim` removes: ECMAScript's WhiteSpace and
      LineTerminator characters. */
  predicate IsSpace(c: char) {
    c == ' ' || c == '\t' || c == '\n' || c == '\r' || c == '\U{000B}' || c == '\U{000C}'
    || c == '\U{00A0}' || c == '\U{1680}' || ('\U{2000}' <= c <= '\U{200A}')
    || c == '\U{2028}' || c == '\U{2029}' || c == '\U{202F}' || c == '\U{205F}'
    || c == '\U{3000}' || c == '\U{FEFF}'
  }

  predicate AllSpaces(s: string) {
    forall i :: 0 <= i < |s| ==> IsSpace(s[i])
  }

  predicate IsAsciiUpper(c: char) { 'A' <= c <= 'Z' }

  predicate IsDigit(c: char) { '0' <= c <= '9' }

  /** ASCII case folding, which is what the `i` flag of a non-Unicode regular
      expression amounts to for the ASCII patterns used here. */
  function ToLowerAscii(c: char): char {
    if 'A' <= c <= 'Z' then (c as int + 32) as char else c
  }

  predicate StartsWith(s: string, prefix: string) {
    |prefix| <= |s| && s[..|prefix|] == prefix
  }

  /** `s` holds `p` at some position. */
  predicate Contains(s: string, p: string) {
    exists i :: 0 <= i <= |s| - |p| && StartsWith(s[i..], p)
  }

  /** Drops the leading whitespace. */
  function TrimStart(s: string): (r: string)
    ensures |r| <= |s| && r == s[|s| - |r|..]
    ensures r == [] || !IsSpace(r[0])
  {
    if s == [] || !IsSpace(s[0]) then s else TrimStart(s[1..])
  }

  /** What `TrimStart` drops is whitespace. */
  lemma {:induction false} TrimStartDropsSpaces(s: string)
    ensures AllSpaces(s[..|s| - |TrimStart(s)|])
  {
    if s != [] && IsSpace(s[0]) {
      TrimStartDropsSpaces(s[1..]);
      var n := |s| - |TrimStart(s)|;
      assert s[..n] == [s[0]] + s[1..][..n - 1];
    }
  }

  /** Drops the trailing whitespace. */
  function TrimEnd(s: string): (r: string)
    ensures |r| <= |s| && r == s[..|r|]
    ensures r == [] || !IsSpace(r[|r| - 1])
  {
    if s == [] || !IsSpace(s[|s| - 1]) then s else TrimEnd(s[..|s| - 1])
  }

  /** What `TrimEnd` drops is whitespace. */
  lemma {:induction false} TrimEndDropsSpaces(s: string)
    ensures AllSpaces(s[|TrimEnd(s)|..])
  {
    if s != [] && IsSpace(s[|s| - 1]) {
      var t := s[..|s| - 1];
      TrimEndDropsSpaces(t);
      var n := |TrimEnd(s)|;
      assert s[n..] == t[n..] + [s[|s| - 1]];
    }
  }

  /** `s.trim()`: what is left after removing whitespace at both ends. */
  function Trim(s: string): (r: string)
    ensures |r| <= |s|
    ensures r == [] || (!IsSpace(r[0]) && !IsSpace(r[|r| - 1]))
  {
    TrimEnd(TrimStart(s))
  }

  /** Trimming leaves nothing exactly when the text is all whitespace. */
  lemma TrimEmptyIffSpaces(s: string)
    ensures Trim(s) == [] <==> AllSpaces(s)
  {
    var t := TrimStart(s);
    var n := |s| - |t|;
    TrimStartDropsSpaces(s);
    TrimEndDropsSpaces(t);
    if Trim(s) == [] {
      assert t[0..] == t;
      assert s == s[..n] + t;
    } else {
      assert s[n] == t[0] && !IsSpace(t[0]);
    }
  }

  /** The trimmed text is the slice of `s` between its leading and its trailing
      whitespace. */
  lemma {:induction false} TrimIsSlice(s: string)
    ensures var k := |s| - |TrimStart(s)|;
      k + |Trim(s)| <= |s| && Trim(s) == s[k..k + |Trim(s)|]
  {
    if s == [] || !IsSpace(s[0]) {
      TrimEndIsPrefix(s);
    } else {
      TrimIsSlice(s[1..]);
      assert TrimStart(s) == TrimStart(s[1..]);
      SliceOfTail(s, |s| - |TrimStart(s)|, |Trim(s)|);
    }
  }

  /** Leading whitespace in front of text that starts with a non-space is
      exactly what `TrimStart` drops. */
  lemma {:induction false} TrimStartAfterSpaces(d: string, rest: string)
    requires AllSpaces(d) && (rest == [] || !IsSpace(rest[0]))
    ensures TrimStart(d + rest) == rest
    decreases |d|
  {
    if d == [] {
      assert d + rest == rest;
    } else {
      assert (d + rest)[0] == d[0] && (d + rest)[1..] == d[1..] + rest;
      TrimStartAfterSpaces(d[1..], rest);
    }
  }

  /** Dropping `a` characters and then `b` drops `a + b`. */
  lemma DropDrop(s: string, a: nat, b: nat)
    requires a + b <= |s|
    ensures s[a..][b..] == s[a + b..|s|]
  {
  }

  lemma TrimSlice(s: string) returns (k: nat)
    ensures k + |Trim(s)| <= |s| && Trim(s) == s[k..k + |Trim(s)|]
  {
    TrimIsSlice(s);
    k := |s| - |TrimStart(s)|;
  }

  lemma TrimEndIsPrefix(s: string)
    requires s == [] || !IsSpace(s[0])
    ensures TrimStart(s) == s && Trim(s) == s[0..|Trim(s)|]
  {
  }

  lemma SliceOfTail(s: string, k: nat, n: nat)
    requires 0 < k && k + n <= |s|
    ensures s[1..][k - 1..k - 1 + n] == s[k..k + n]
  {
  }

  /** `s.substring(a, b)` for non-negative bounds: both bounds are clamped to the
      length, and swapped if the first exceeds the second. */
  function Substring(s: string, a: nat, b: nat): (r: string)
    ensures |r| <= |s|
    ensures a <= b ==> |r| <= b - a && r == s[Min(a, |s|)..Min(b, |s|)]
    ensures a <= b <= |s| ==> r == s[a..b]
    ensures b < a ==> r == s[Min(b, |s|)..Min(a, |s|)]
  {
    var x, y := Min(a, |s|), Min(b, |s|);
    if x <= y then s[x..y] else s[y..x]
  }

  /** `s.substring(0, n)` is the first `n` characters, or all of `s` when it is shorter. */
  lemma SubstringPrefix(s: string, n: nat)
    ensures var r := Substring(s, 0, n);
      |r| <= |s| && r == s[..|r|] && (|s| <= n ==> r == s) && (|s| > n ==> |r| == n)
  {
    var r := Substring(s, 0, n);
    assert r == s[0..Min(n, |s|)];
  }

  /** `s.substring(a, b)` with `a < b` is empty exactly when `s` ends at or before `a`. */
  lemma SubstringEmpty(s: string, a: nat, b: nat)
    requires a < b
    ensures Substring(s, a, b) == [] <==> |s| <= a
  {
  }

  /** `s.split(/[D]+/)` where `isDelim` is the class D: the pieces between maximal
      runs of delimiter characters, with an empty first (last) piece when `s`
      starts (ends) with a run, and `[""]` for the empty string. */
  function Split(s: string, isDelim: char -> bool): (pieces: seq<string>)
    ensures |pieces| >= 1
    ensures forall k :: 0 <= k < |pieces| ==> NoneOf(pieces[k], isDelim)
  {
    SplitFrom(s, isDelim, [], false)
  }

  predicate NoneOf(s: string, isDelim: char -> bool) {
    forall i :: 0 <= i < |s| ==> !isDelim(s[i])
  }

  /** Continues a split: `current` is the piece being built, `inRun` says whether
      the previous character was a delimiter. */
  function SplitFrom(s: string, isDelim: char -> bool, current: string, inRun: bool): (pieces: seq<string>)
    requires NoneOf(current, isDelim)
    ensures |pieces| >= 1
    ensures forall k :: 0 <= k < |pieces| ==> NoneOf(pieces[k], isDelim)
    decreases |s|
  {
    if s == [] then [current]
    else if isDelim(s[0]) then
      if inRun then SplitFrom(s[1..], isDelim, current, true)
      else [current] + SplitFrom(s[1..], isDelim, [], true)
    else SplitFrom(s[1..], isDelim, current + [s[0]], false)
  }

  /** `xs.filter(keep)`: the elements that satisfy `keep`, in their order. */
  function Filter<T>(xs: seq<T>, keep: T -> bool): (r: seq<T>)
    ensures |r| <= |xs|
    ensures forall i :: 0 <= i < |r| ==> keep(r[i]) && r[i] in xs
    ensures forall x :: x in xs && keep(x) ==> x in r
  {
    if xs == [] then []
    else if keep(xs[0]) then [xs[0]] + Filter(xs[1..], keep)
    else Filter(xs[1..], keep)
  }

  /** Filtering a concatenation filters each part and keeps them in order. */
  lemma {:induction false} FilterAppend<T>(xs: seq<T>, ys: seq<T>, keep: T -> bool)
    ensures Filter(xs + ys, keep) == Filter(xs, keep) + Filter(ys, keep)
  {
    if xs == [] {
      assert xs + ys == ys;
    } else {
      assert (xs + ys)[0] == xs[0] && (xs + ys)[1..] == xs[1..] + ys;
      FilterAppend(xs[1..], ys, keep);
    }
  }

  /** Nothing survives a filter that rejects every element. */
  lemma {:induction false} FilterNone<T>(xs: seq<T>, keep: T -> bool)
    requires forall j :: 0 <= j < |xs| ==> !keep(xs[j])
    ensures Filter(xs, keep) == []
  {
    if xs != [] {
      FilterNone(xs[1..], keep);
    }
  }

  /** Filtering three elements keeps each that passes, in order. */
  lemma FilterThree<T>(x: T, y: T, z: T, keep: T -> bool)
    ensures Filter([x, y, z], keep)
      == (if keep(x) then [x] else []) + (if keep(y) then [y] else []) + (if keep(z) then [z] else [])
  {
    FilterOne(x, keep);
    FilterOne(y, keep);
    FilterOne(z, keep);
    assert [x, y, z] == [x] + [y, z] && [y, z] == [y] + [z];
    FilterAppend([y], [z], keep);
    FilterAppend([x], [y, z], keep);
  }

  lemma FilterOne<T>(x: T, keep: T -> bool)
    ensures Filter([x], keep) == if keep(x) then [x] else []
  {
    assert [x][1..] == [];
  }

  /** The first element kept is the first element that satisfies `keep`. */
  lemma FilterFirst<T>(xs: seq<T>, keep: T -> bool, k: nat)
    requires k < |xs| && keep(xs[k]) && forall j :: 0 <= j < k ==> !keep(xs[j])
    ensures Filter(xs, keep) != [] && Filter(xs, keep)[0] == xs[k]
  {
    assert xs == xs[..k] + xs[k..];
    FilterAppend(xs[..k], xs[k..], keep);
    FilterNone(xs[..k], keep);
  }

  /** `s` with every delimiter character removed. */
  function Without(s: string, isDelim: char -> bool): (r: string)
    ensures |r| <= |s| && NoneOf(r, isDelim)
  {
    if s == [] then []
    else if isDelim(s[0]) then Without(s[1..], isDelim)
    else [s[0]] + Without(s[1..], isDelim)
  }

  /** Removing the delimiters is filtering the text's characters by "not a
      delimiter": every other character stays, in order. */
  lemma {:induction false} WithoutIsFilter(s: string, isDelim: char -> bool)
    ensures Without(s, isDelim) == Filter(s, c => !isDelim(c))
  {
    if s != [] {
      WithoutIsFilter(s[1..], isDelim);
    }
  }

  /** The pieces joined back together, with nothing between them. */
  function Concat(pieces: seq<string>): string {
    if pieces == [] then [] else pieces[0] + Concat(pieces[1..])
  }

  /** Splitting loses only the delimiters: the pieces, joined, are the text with
      its delimiter characters removed, in order. */
  lemma SplitKeepsText(s: string, isDelim: char -> bool)
    ensures Concat(Split(s, isDelim)) == Without(s, isDelim)
  {
    SplitFromKeepsText(s, isDelim, [], false);
  }

  lemma {:induction false} SplitFromKeepsText(s: string, isDelim: char -> bool, current: string, inRun: bool)
    requires NoneOf(current, isDelim)
    ensures Concat(SplitFrom(s, isDelim, current, inRun)) == current + Without(s, isDelim)
    decreases |s|
  {
    if s == [] {
      assert Concat([current]) == current + Concat([]);
    } else if isDelim(s[0]) {
      var w := Without(s[1..], isDelim);
      assert Without(s, isDelim) == w;
      if inRun {
        SplitFromKeepsText(s[1..], isDelim, current, true);
      } else {
        var rest := SplitFrom(s[1..], isDelim, [], true);
        assert SplitFrom(s, isDelim, current, inRun) == [current] + rest;
        SplitFromKeepsText(s[1..], isDelim, [], true);
        assert Concat(rest) == w by {
          assert [] + w == w;
        }
        assert ([current] + rest)[1..] == rest;
      }
    } else {
      var w := Without(s[1..], isDelim);
      assert Without(s, isDelim) == [s[0]] + w;
      assert SplitFrom(s, isDelim, current, inRun) == SplitFrom(s[1..], isDelim, current + [s[0]], false);
      SplitFromKeepsText(s[1..], isDelim, current + [s[0]], false);
      assert current + [s[0]] + w == current + ([s[0]] + w);
    }
  }

  /** A run of delimiters ends a piece: a piece `p`, then a maximal run `d`,
      splits as `p` followed by the split of what comes after the run. */
  lemma SplitAtRun(p: string, d: string, rest: string, isDelim: char -> bool)
    requires NoneOf(p, isDelim) && d != [] && forall i :: 0 <= i < |d| ==> isDelim(d[i])
    requires rest == [] || !isDelim(rest[0])
    ensures Split(p + d + rest, isDelim) == [p] + Split(rest, isDelim)
  {
    SplitFromPiece(p, d + rest, isDelim, []);
    assert p + d + rest == p + (d + rest);
    assert [] + p == p;
    assert (d + rest)[0] == d[0] && (d + rest)[1..] == d[1..] + rest;
    SplitFromSkipsRun(d[1..], rest, isDelim, []);
    SplitFromAfterRun(rest, isDelim);
  }

  /** Reading delimiter-free text only extends the current piece. */
  lemma {:induction false} SplitFromPiece(p: string, t: string, isDelim: char -> bool, current: string)
    requires NoneOf(p, isDelim) && NoneOf(current, isDelim)
    ensures SplitFrom(p + t, isDelim, current, false) == SplitFrom(t, isDelim, current + p, false)
    decreases |p|
  {
    if p == [] {
      assert p + t == t && current + p == current;
    } else {
      assert (p + t)[0] == p[0] && (p + t)[1..] == p[1..] + t;
      assert NoneOf(current + [p[0]], isDelim);
      SplitFromPiece(p[1..], t, isDelim, current + [p[0]]);
      assert current + [p[0]] + p[1..] == current + p;
    }
  }

  /** Inside a run, further delimiters are skipped. */
  lemma {:induction false} SplitFromSkipsRun(d: string, t: string, isDelim: char -> bool, current: string)
    requires NoneOf(current, isDelim) && forall i :: 0 <= i < |d| ==> isDelim(d[i])
    ensures SplitFrom(d + t, isDelim, current, true) == SplitFrom(t, isDelim, current, true)
    decreases |d|
  {
    if d == [] {
      assert d + t == t;
    } else {
      assert (d + t)[0] == d[0] && (d + t)[1..] == d[1..] + t;
      SplitFromSkipsRun(d[1..], t, isDelim, current);
    }
  }

  /** After a run, text that does not start with a delimiter splits afresh. */
  lemma SplitFromAfterRun(t: string, isDelim: char -> bool)
    requires t == [] || !isDelim(t[0])
    ensures SplitFrom(t, isDelim, [], true) == Split(t, isDelim)
  {
  }

  /** Text without a delimiter is a single piece. */
  lemma SplitWithoutDelimiter(s: string, isDelim: char -> bool)
    requires NoneOf(s, isDelim)
    ensures Split(s, isDelim) == [s]
  {
    SplitFromWithoutDelimiter(s, isDelim, [], false);
    assert [] + s == s;
  }

  lemma {:induction false} SplitFromWithoutDelimiter(s: string, isDelim: char -> bool, current: string, inRun: bool)
    requires NoneOf(s, isDelim) && NoneOf(current, isDelim)
    ensures SplitFrom(s, isDelim, current, inRun) == [current + s]
    decreases |s|
  {
    if s == [] {
      assert current + s == current;
    } else {
      assert !isDelim(s[0]);
      SplitFromWithoutDelimiter(s[1..], isDelim, current + [s[0]], false);
      assert current + [s[0]] + s[1..] == current + s;
    }
  }

  /** `xs.slice(0, n)`. */
  function Take<T>(xs: seq<T>, n: nat): (r: seq<T>)
    ensures |r| == Min(n, |xs|) && r == xs[..|r|]
  {
    if n <= |xs| then xs[..n] else xs
  }

  /** Index of the first `c` in `s`. */
  function IndexOf(s: string, c: char): (k: nat)
    requires c in s
    ensures k < |s| && s[k] == c && c !in s[..k]
  {
    if s[0] == c then 0 else 1 + IndexOf(s[1..], c)
  }

  /** Index of the last `c` in `s`. */
  function LastIndexOf(s: string, c: char): (k: nat)
    requires c in s
    ensures k < |s| && s[k] == c && c !in s[k + 1..]
  {
    if s[|s| - 1] == c then |s| - 1
    else
      assert c in s[..|s| - 1] by {
        var i :| 0 <= i < |s| && s[i] == c;
        assert s[..|s| - 1][i] == c;
      }
      LastIndexOf(s[..|s| - 1], c)
  }

  function DigitChar(d: nat): char
    requires d < 10
  {
    ('0' as int + d) as char
  }

  predicate AllDigits(s: string) {
    forall i :: 0 <= i < |s| ==> IsDigit(s[i])
  }

  /** `String(n)` for a non-negative integer: its decimal digits, most significant
      first, without leading zeros. */
  function NatText(n: nat): (r: string)
    ensures r != [] && AllDigits(r)
    ensures r[0] != '0' || n == 0
  {
    if n < 10 then [DigitChar(n)] else NatText(n / 10) + [DigitChar(n % 10)]
  }

  /** `String(n)` for an integer JavaScript prints without an exponent. */
  function IntText(n: int): (r: string)
    ensures r != []
  {
    if n < 0 then "-" + NatText(-n) else NatText(n)
  }

  /** `parseInt(d, 10)` for a run of decimal digits. */
  function ParseDigits(d: string): nat
    requires AllDigits(d)
  {
    if d == [] then 0 else 10 * ParseDigits(d[..|d| - 1]) + (d[|d| - 1] as int - '0' as int)
  }

  /** Reading back the decimal text of a number gives the number. */
  lemma {:induction false} ParseNatText(n: nat)
    ensures ParseDigits(NatText(n)) == n
  {
    if n >= 10 {
      ParseNatText(n / 10);
      var r := NatText(n);
      assert r[..|r| - 1] == NatText(n / 10);
    }
  }
}
