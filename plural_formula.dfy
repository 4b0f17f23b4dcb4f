/** The string rewrites the CLDR-to-gettext converter applies to plural
    formulas: `reduceFormula`, which replaces two over-long formulas by
    shorter equivalents, and `reverseFormula`, which negates the formula of
    the first category when a language has just two. The PCRE patterns the
    source tests come out as hand-written recognisers. */
module PluralFormula {
  import opened Wrappers
  import opened Strings
  import opened Php

  // --------------------------------------------------------------- patterns

  /** PCRE's `$` without the `m` flag matches at the end or before a final
      line feed; none of the patterns below can consume a line feed, so a
      match of the whole string is a match of the string without it. */
  function Anchor(s: string): (r: string)
    ensures r == s || (|s| > 0 && s[|s| - 1] == '\n' && r == s[..|s| - 1])
  {
    if |s| > 0 && s[|s| - 1] == '\n' then s[..|s| - 1] else s
  }

  /** The end of `n( % \d+)?` starting at `i`, or `i` when there is no `n`. */
  function OperandEnd(s: string, i: nat): (j: nat)
    requires i <= |s|
    ensures i <= j <= |s|
    ensures j > i ==> s[i] == 'n'
  {
    if i < |s| && s[i] == 'n' then
      (if i + 5 <= |s| && s[i + 1..i + 4] == " % " && IsDigit(s[i + 4]) then DigitRun(s, i + 4) else i + 1)
    else i
  }

  /** `\d+(\.\.\d+|,\d+)*?$` from `i`: a number, then ranges and further
      numbers up to the end. */
  predicate ValuesFrom(s: string, i: nat)
    requires i <= |s|
    decreases |s| - i, 1
  {
    i < |s| && IsDigit(s[i]) && MoreValues(s, DigitRun(s, i))
  }

  predicate MoreValues(s: string, i: nat)
    requires i <= |s|
    decreases |s| - i, 0
  {
    i == |s|
    || (i + 2 <= |s| && s[i..i + 2] == ".." && ValuesFrom(s, i + 2))
    || (s[i] == ',' && ValuesFrom(s, i + 1))
  }

  /** Where the operator of a single comparison `n( % \d+)? <op> <values>`
      sits, when `s` is one. */
  function ComparisonAt(s: string, op: string): (r: Option<nat>)
    requires |op| == 4
    ensures r.Some? ==> 0 < r.value && r.value + 4 <= |s| && s[r.value..r.value + 4] == op
  {
    var j := OperandEnd(s, 0);
    if j > 0 && j + 4 <= |s| && s[j..j + 4] == op && ValuesFrom(s, j + 4) then Some(j) else None
  }

  /** `preg_match('/^n( % \d+)? == \d+(\.\.\d+|,\d+)*?$/', s)` and its `!=` twin. */
  predicate IsComparison(s: string, op: string)
    requires |op| == 4
  {
    ComparisonAt(Anchor(s), op).Some?
  }

  /** `preg_match('/^\(?n == \d+ \|\| n == \d+\)?$/', s)`. */
  predicate EitherCore(s: string)
  {
    var i := if |s| > 0 && s[0] == '(' then 1 else 0;
    i + 5 <= |s| && s[i..i + 5] == "n == " &&
    var k1 := DigitRun(s, i + 5);
    k1 > i + 5 && k1 + 9 <= |s| && s[k1..k1 + 9] == " || n == " &&
    var k2 := DigitRun(s, k1 + 9);
    k2 > k1 + 9 && (k2 == |s| || (k2 + 1 == |s| && s[k2] == ')'))
  }

  predicate IsEither(s: string)
  {
    EitherCore(Anchor(s))
  }

  /** The four groups of `/^(n(?: % \d+)?) == (\d+) && (n(?: % \d+)?) != (\d+)$/`. */
  function BothCore(s: string): (r: Option<(string, string, string, string)>)
  {
    var j1 := OperandEnd(s, 0);
    if !(j1 > 0 && j1 + 4 <= |s| && s[j1..j1 + 4] == " == ") then None
    else
      var k1 := DigitRun(s, j1 + 4);
      if !(k1 > j1 + 4 && k1 + 4 <= |s| && s[k1..k1 + 4] == " && ") then None
      else
        var j2 := OperandEnd(s, k1 + 4);
        if !(j2 > k1 + 4 && j2 + 4 <= |s| && s[j2..j2 + 4] == " != ") then None
        else
          var k2 := DigitRun(s, j2 + 4);
          if !(k2 > j2 + 4 && k2 == |s|) then None
          else Some((s[..j1], s[j1 + 4..k1], s[k1 + 4..j2], s[j2 + 4..]))
  }

  function Both(s: string): Option<(string, string, string, string)>
  {
    BothCore(Anchor(s))
  }

  predicate IsParen(c: char)
  {
    c == '(' || c == ')'
  }

  // --------------------------------------------------------------- rewrites

  /** `reduceFormula`: two literal formulas have shorter equivalents; every
      other formula is returned as it is, so reducing is idempotent. */
  function Reduce(f: string): (r: string)
    ensures r != f ==> (f == "n != 0 && n != 1" && r == "n > 1") || (f == "(n == 0 || n == 1) && n != 0" && r == "n == 1")
  {
    if f == "n != 0 && n != 1" then "n > 1"
    else if f == "(n == 0 || n == 1) && n != 0" then "n == 1"
    else f
  }

  /** `reverseFormula`: the negation of `f` for the shapes it knows, or
      `None` where the source throws `InvalidArgumentException`. */
  function Reverse(f: string): Option<string>
  {
    if IsComparison(f, " == ") then Some(ReplaceAll(f, " == ", " != "))
    else if IsComparison(f, " != ") then Some(ReplaceAll(f, " != ", " == "))
    else if IsEither(f) then Some(Trim(ReplaceAll(ReplaceAll(f, " == ", " != "), " || ", " && "), IsParen))
    else if Both(f).Some? then
      var m := Both(f).value;
      Some(m.0 + " != " + m.1 + " || " + m.2 + " == " + m.3)
    else if f == "(n == 1 || n == 2 || n == 3) || n % 10 != 4 && n % 10 != 6 && n % 10 != 9" then
      Some("n != 1 && n != 2 && n != 3 && (n % 10 == 4 || n % 10 == 6 || n % 10 == 9)")
    else if f == "(n == 0 || n == 1) || n >= 11 && n <= 99" then
      Some("n >= 2 && (n < 11 || n > 99)")
    else None
  }

  // ----------------------------------------------------------------- lemmas

  /** Reducing twice is reducing once. */
  lemma ReduceIdempotent(f: string)
    ensures Reduce(Reduce(f)) == Reduce(f)
  {
  }

  /** The longest digit run from `i` ends at the first non-digit. */
  lemma {:induction false} DigitRunOver(s: string, i: nat, j: nat)
    requires i <= j <= |s|
    requires forall k :: i <= k < j ==> IsDigit(s[k])
    requires j == |s| || !IsDigit(s[j])
    ensures DigitRun(s, i) == j
    decreases j - i
  {
    if i < j {
      DigitRunOver(s, i + 1, j);
    }
  }

  /** Digit runs of two strings of one length that agree from `i` on agree. */
  lemma {:induction false} DigitRunSame(s: string, t: string, i: nat)
    requires i <= |s| == |t| && s[i..] == t[i..]
    ensures DigitRun(s, i) == DigitRun(t, i)
    decreases |s| - i
  {
    if i < |s| {
      assert s[i] == s[i..][0] && t[i] == t[i..][0];
      assert s[i + 1..] == s[i..][1..] && t[i + 1..] == t[i..][1..];
      DigitRunSame(s, t, i + 1);
    }
  }

  /** Whether a value list follows depends only on the text from `i` on. */
  lemma {:induction false} ValuesSame(s: string, t: string, i: nat)
    requires i <= |s| == |t| && s[i..] == t[i..]
    ensures ValuesFrom(s, i) == ValuesFrom(t, i)
    decreases |s| - i
  {
    if i < |s| && IsDigit(s[i]) {
      assert s[i] == s[i..][0] && t[i] == t[i..][0];
      DigitRunSame(s, t, i);
      var d := DigitRun(s, i);
      assert s[d..] == t[d..] by {
        assert s[d..] == s[i..][d - i..] && t[d..] == t[i..][d - i..];
      }
      if d < |s| {
        assert s[d] == s[d..][0] && t[d] == t[d..][0];
        assert s[d + 1..] == s[d..][1..] && t[d + 1..] == t[d..][1..];
        ValuesSame(s, t, d + 1);
        if d + 2 <= |s| {
          assert s[d..d + 2] == s[d..][..2] && t[d..d + 2] == t[d..][..2];
          assert s[d + 2..] == s[d..][2..] && t[d + 2..] == t[d..][2..];
          ValuesSame(s, t, d + 2);
        }
      }
    } else if i < |s| {
      assert s[i] == s[i..][0] && t[i] == t[i..][0];
    }
  }

  predicate IsValueChar(c: char)
  {
    IsDigit(c) || c == '.' || c == ','
  }

  /** A value list is made of digits, dots and commas. */
  lemma {:induction false} ValuesChars(s: string, i: nat)
    requires i <= |s| && ValuesFrom(s, i)
    ensures forall k :: i <= k < |s| ==> IsValueChar(s[k])
    decreases |s| - i
  {
    var d := DigitRun(s, i);
    if d < |s| {
      if d + 2 <= |s| && s[d..d + 2] == ".." && ValuesFrom(s, d + 2) {
        ValuesChars(s, d + 2);
        assert s[d] == s[d..d + 2][0] && s[d + 1] == s[d..d + 2][1];
      } else {
        ValuesChars(s, d + 1);
      }
    }
  }

  /** The operand `n( % \d+)?` holds neither `=` nor `!`. */
  lemma OperandChars(s: string, j: nat)
    requires OperandEnd(s, 0) == j > 0
    ensures forall k :: 0 <= k < j ==> s[k] != '=' && s[k] != '!'
  {
    if j > 1 {
      assert s[1..4] == " % ";
      assert s[1] == s[1..4][0] && s[2] == s[1..4][1] && s[3] == s[1..4][2];
    }
  }

  /** The operand ends at the same place in a string that agrees with `s`
      before it and has a comparison operator after it. */
  lemma OperandAgree(s: string, t: string, j: nat)
    requires OperandEnd(s, 0) == j > 0
    requires j + 4 <= |t| && t[..j] == s[..j]
    requires t[j..j + 4] == " == " || t[j..j + 4] == " != "
    ensures OperandEnd(t, 0) == j
  {
    assert t[j] == t[j..j + 4][0] && t[j + 1] == t[j..j + 4][1];
    assert t[0] == t[..j][0] && s[0] == s[..j][0];
    if j == 1 {
      assert t[1..4][1] == t[2];
      assert t[2] == t[j..j + 4][1];
    } else {
      assert s[1..4] == " % " && IsDigit(s[4]) && DigitRun(s, 4) == j;
      assert forall k :: 0 <= k < j ==> t[k] == t[..j][k] && s[k] == s[..j][k];
      assert t[1..4] == s[1..4];
      DigitRunOver(t, 4, j);
    }
  }

  /** Around its operator, a single comparison holds neither `=` nor `!`. */
  lemma ComparisonParts(f: string, p: string, j: nat)
    requires |p| == 4 && ComparisonAt(Anchor(f), p) == Some(j)
    ensures j + 4 <= |f| && f[j..j + 4] == p && f == f[..j] + p + f[j + 4..]
    ensures '=' !in f[..j] && '!' !in f[..j] && '=' !in f[j + 4..] && '!' !in f[j + 4..]
  {
    var c := Anchor(f);
    assert c == f[..|c|];
    assert f[j..j + 4] == c[j..j + 4];
    OperandChars(c, j);
    assert f[..j] == c[..j];
    ValuesChars(c, j + 4);
    TailChars(f, c, j + 4);
  }

  /** The text after the operator is a value list, perhaps with a final line feed. */
  lemma TailChars(f: string, c: string, i: nat)
    requires c == Anchor(f) && i <= |c|
    requires forall k :: i <= k < |c| ==> IsValueChar(c[k])
    ensures '=' !in f[i..] && '!' !in f[i..]
  {
    assert c == f[..|c|];
    assert forall k :: i <= k < |c| ==> f[k] == c[k];
    assert forall k :: i <= k < |f| ==> f[i..][k - i] == f[k];
  }

  /** Changing four characters before the end commutes with dropping a final line feed. */
  lemma AnchorSwap(f: string, q: string, j: nat)
    requires |q| == 4 && j + 4 < |Anchor(f)|
    ensures Anchor(f[..j] + q + f[j + 4..]) == Anchor(f)[..j] + q + Anchor(f)[j + 4..]
  {
    var c := Anchor(f);
    var g := f[..j] + q + f[j + 4..];
    assert g[|g| - 1] == f[|f| - 1];
    if |c| < |f| {
      assert Anchor(g) == g[..|g| - 1];
      assert c[j + 4..] == f[j + 4..|f| - 1];
    }
  }

  /** Swapping the operator of a single comparison keeps it a single
      comparison with the other operator, and changes nothing else. */
  lemma FlipComparison(f: string, p: string, q: string, j: nat)
    requires (p == " == " && q == " != ") || (p == " != " && q == " == ")
    requires ComparisonAt(Anchor(f), p) == Some(j)
    ensures j + 4 <= |f| && f[j..j + 4] == p
    ensures ReplaceAll(f, p, q) == f[..j] + q + f[j + 4..]
    ensures ComparisonAt(Anchor(f[..j] + q + f[j + 4..]), q) == Some(j)
  {
    ComparisonParts(f, p, j);
    var a, b := f[..j], f[j + 4..];
    ReplaceSkip(a, p, q, b);
    ReplaceAbsent(b, p, q);
    FlipAnchored(f, p, q, j);
  }

  lemma FlipAnchored(f: string, p: string, q: string, j: nat)
    requires |p| == 4 && |q| == 4 && (q == " == " || q == " != ")
    requires ComparisonAt(Anchor(f), p) == Some(j)
    ensures ComparisonAt(Anchor(f[..j] + q + f[j + 4..]), q) == Some(j)
  {
    var c := Anchor(f);
    assert c == f[..|c|];
    assert j + 4 < |c| by {
      assert ValuesFrom(c, j + 4);
    }
    AnchorSwap(f, q, j);
    var d := Anchor(f[..j] + q + f[j + 4..]);
    assert d == c[..j] + q + c[j + 4..];
    assert d[..j] == c[..j] && d[j..j + 4] == q;
    OperandAgree(c, d, j);
    assert c[j + 4..] == d[j + 4..];
    ValuesSame(c, d, j + 4);
  }

  /** A formula is a single comparison with at most one of the two operators. */
  lemma ComparisonExclusive(f: string)
    ensures !(IsComparison(f, " == ") && IsComparison(f, " != "))
  {
  }

  /** On a single comparison `reverseFormula` is the operator replacement. */
  lemma ReverseOnComparison(f: string, p: string, q: string)
    requires (p == " == " && q == " != ") || (p == " != " && q == " == ")
    requires IsComparison(f, p)
    ensures Reverse(f) == Some(ReplaceAll(f, p, q))
  {
    ComparisonExclusive(f);
  }

  /** `reverseFormula` flips the operator of a single comparison and leaves
      the rest alone; the result is a single comparison again, its operator
      where the old one was. */
  lemma ReverseFlips(f: string, p: string, q: string)
    requires (p == " == " && q == " != ") || (p == " != " && q == " == ")
    requires IsComparison(f, p)
    ensures var j := ComparisonAt(Anchor(f), p).value;
      j + 4 <= |f| && f == f[..j] + p + f[j + 4..] &&
      Reverse(f) == Some(f[..j] + q + f[j + 4..]) &&
      ComparisonAt(Anchor(Reverse(f).value), q) == Some(j)
  {
    var j := ComparisonAt(Anchor(f), p).value;
    FlipComparison(f, p, q, j);
    ComparisonParts(f, p, j);
    ReverseOnComparison(f, p, q);
  }

  /** Reversing a single comparison twice gives it back. */
  lemma ReverseTwice(f: string, p: string, q: string)
    requires (p == " == " && q == " != ") || (p == " != " && q == " == ")
    requires IsComparison(f, p)
    ensures Reverse(f).Some? && Reverse(Reverse(f).value) == Some(f)
  {
    var j := ComparisonAt(Anchor(f), p).value;
    ReverseFlips(f, p, q);
    var g := Reverse(f).value;
    ReverseFlips(g, q, p);
    Resplice(f, p, q, j);
  }

  /** Putting the old operator back gives the old string. */
  lemma Resplice(f: string, p: string, q: string, j: nat)
    requires |p| == |q| == 4 && j + 4 <= |f| && f == f[..j] + p + f[j + 4..]
    ensures var g := f[..j] + q + f[j + 4..]; g[..j] + p + g[j + 4..] == f
  {
    var g := f[..j] + q + f[j + 4..];
    assert g[..j] == f[..j] && g[j + 4..] == f[j + 4..];
  }

  predicate IsNumber(d: string)
  {
    |d| > 0 && forall k :: 0 <= k < |d| ==> IsDigit(d[k])
  }

  /** `trim(..., '()')` removes one optional bracket from each end of a text
      that starts and ends with something else. */
  lemma TrimParens(open: string, x: string, close: string)
    requires open == "" || open == "("
    requires close == "" || close == ")"
    requires |x| > 0 && !IsParen(x[0]) && !IsParen(x[|x| - 1])
    ensures Trim(open + x + close, IsParen) == x
  {
    assert open + x + close == open + (x + close);
    TrimOpen(open, x + close);
    TrimClose(x, close);
  }

  lemma TrimOpen(open: string, y: string)
    requires open == "" || open == "("
    requires |y| > 0 && !IsParen(y[0])
    ensures TrimLeft(open + y, IsParen) == y
  {
    if open == "(" {
      assert (open + y)[1..] == y;
    } else {
      assert open + y == y;
    }
  }

  lemma TrimClose(x: string, close: string)
    requires close == "" || close == ")"
    requires |x| > 0 && !IsParen(x[|x| - 1])
    ensures TrimRight(x + close, IsParen) == x
  {
    if close == ")" {
      assert (x + close)[..|x|] == x;
    } else {
      assert x + close == x;
    }
  }

  /** `open n <op> a <join> n <op> b close`. */
  function EitherText(open: string, a: string, b: string, close: string, op: string, join: string): string
  {
    open + "n" + op + a + join + "n" + op + b + close
  }

  /** What `str_replace(' == ', ' != ', ...)` makes of `n == a || n == b`. */
  lemma EitherFirstReplace(open: string, a: string, b: string, close: string)
    requires open == "" || open == "("
    requires close == "" || close == ")"
    requires IsNumber(a) && IsNumber(b)
    ensures ReplaceAll(EitherText(open, a, b, close, " == ", " || "), " == ", " != ")
      == EitherText(open, a, b, close, " != ", " || ")
  {
    var x := open + "n";
    var y := a + " || n";
    var z := b + close;
    EitherRegroup(open, a, b, close, " == ");
    NumberLacks(a, '=');
    NumberLacks(b, '=');
    assert '=' !in " || n" && '=' !in close && '=' !in x;
    assert '=' !in y && '=' !in z;
    ReplaceSkip(x, " == ", " != ", y + " == " + z);
    ReplaceSkip(y, " == ", " != ", z);
    ReplaceAbsent(z, " == ", " != ");
    EitherRegroup(open, a, b, close, " != ");
  }

  /** A number holds no character but digits. */
  lemma NumberLacks(a: string, c: char)
    requires IsNumber(a) && !IsDigit(c)
    ensures c !in a
  {
  }

  lemma EitherRegroup(open: string, a: string, b: string, close: string, op: string)
    ensures (open + "n") + op + ((a + " || n") + op + (b + close)) == EitherText(open, a, b, close, op, " || ")
  {
  }

  /** What `str_replace(' || ', ' && ', ...)` makes of `n != a || n != b`. */
  lemma EitherSecondReplace(open: string, a: string, b: string, close: string)
    requires open == "" || open == "("
    requires close == "" || close == ")"
    requires IsNumber(a) && IsNumber(b)
    ensures ReplaceAll(EitherText(open, a, b, close, " != ", " || "), " || ", " && ")
      == EitherText(open, a, b, close, " != ", " && ")
  {
    var u := open + "n" + " != " + a;
    var v := "n" + " != " + b + close;
    EitherSplit(open, a, b, close, " != ", " || ");
    EitherSplit(open, a, b, close, " != ", " && ");
    NumberLacks(a, '|');
    NumberLacks(b, '|');
    assert '|' !in open && '|' !in "n" + " != " && '|' !in close;
    assert '|' !in u && '|' !in v;
    ReplaceSkip(u, " || ", " && ", v);
    ReplaceAbsent(v, " || ", " && ");
  }

  lemma EitherSplit(open: string, a: string, b: string, close: string, op: string, join: string)
    ensures EitherText(open, a, b, close, op, join) == (open + "n" + op + a) + join + ("n" + op + b + close)
  {
  }

  /** Where the parts of `n == a || n == b` sit. */
  lemma EitherLayout(open: string, a: string, b: string, close: string, f: string, o: nat, k1: nat, k2: nat)
    requires open == "" || open == "("
    requires close == "" || close == ")"
    requires IsNumber(a) && IsNumber(b)
    requires f == EitherText(open, a, b, close, " == ", " || ")
    requires o == |open| && k1 == o + 5 + |a| && k2 == k1 + 9 + |b|
    ensures |f| == k2 + |close| && Anchor(f) == f
    ensures open == "(" ==> f[0] == '('
    ensures f[o..o + 5] == "n == " && f[k1..k1 + 9] == " || n == "
    ensures forall k :: o + 5 <= k < k1 ==> IsDigit(f[k])
    ensures forall k :: k1 + 9 <= k < k2 ==> IsDigit(f[k])
    ensures close == ")" ==> f[k2] == ')'
  {
    var g1 := open + "n" + " == ";
    var g2 := g1 + a;
    var g5 := g2 + " || " + "n" + " == ";
    var g6 := g5 + b;
    assert f == g6 + close;
    assert f[..|g6|] == g6 && f[|g6|..] == close;
    Layer(f, g6, g5, b);
    assert g5 == g2 + " || n == ";
    Layer(f, g5, g2, " || n == ");
    Layer(f, g2, g1, a);
    assert g1 == open + "n == ";
    Layer(f, g1, open, "n == ");
    DigitsAt(f, k1 + 9, b);
    DigitsAt(f, o + 5, a);
    assert f[|f| - 1] == (if close == ")" then ')' else b[|b| - 1]);
  }

  /** `n == a || n == b` is no single comparison. */
  lemma EitherNotComparison(open: string, a: string, b: string, close: string)
    requires open == "" || open == "("
    requires close == "" || close == ")"
    requires IsNumber(a) && IsNumber(b)
    ensures var f := EitherText(open, a, b, close, " == ", " || ");
      !IsComparison(f, " == ") && !IsComparison(f, " != ")
  {
    var f := EitherText(open, a, b, close, " == ", " || ");
    EitherLayout(open, a, b, close, f, |open|, |open| + 5 + |a|, |open| + 5 + |a| + 9 + |b|);
    if open == "" {
      assert f[1..4] == f[0..5][1..4];
      assert OperandEnd(f, 0) == 1;
      assert f[1..5] == " == ";
      var k1 := 5 + |a|;
      DigitRunOver(f, 5, k1);
      assert f[k1] == f[k1..k1 + 9][0];
      assert f[k1..k1 + 2] == f[k1..k1 + 9][..2];
      assert !MoreValues(f, k1);
      assert !ValuesFrom(f, 5);
      assert ComparisonAt(f, " == ").None?;
      assert ComparisonAt(f, " != ").None?;
    }
  }

  /** `n == a || n == b`, with or without brackets, is the second shape `reverseFormula` knows. */
  lemma EitherMatches(open: string, a: string, b: string, close: string)
    requires open == "" || open == "("
    requires close == "" || close == ")"
    requires IsNumber(a) && IsNumber(b)
    ensures IsEither(EitherText(open, a, b, close, " == ", " || "))
  {
    var f := EitherText(open, a, b, close, " == ", " || ");
    var o, k1 := |open|, |open| + 5 + |a|;
    var k2 := k1 + 9 + |b|;
    EitherLayout(open, a, b, close, f, o, k1, k2);
    DigitRunOver(f, o + 5, k1);
    DigitRunOver(f, k1 + 9, k2);
    if open == "" {
      assert f[0] == f[o..o + 5][0];
    }
    EitherCoreAt(f, o, k1, k2);
  }

  lemma EitherCoreAt(s: string, i: nat, k1: nat, k2: nat)
    requires i == (if |s| > 0 && s[0] == '(' then 1 else 0)
    requires i + 5 <= |s| && s[i..i + 5] == "n == "
    requires i + 5 < k1 && k1 + 9 <= |s| && DigitRun(s, i + 5) == k1 && s[k1..k1 + 9] == " || n == "
    requires k1 + 9 < k2 && k2 <= |s| && DigitRun(s, k1 + 9) == k2
    requires k2 == |s| || (k2 + 1 == |s| && s[k2] == ')')
    ensures EitherCore(s)
  {
  }

  lemma ReverseOnEither(f: string)
    requires !IsComparison(f, " == ") && !IsComparison(f, " != ") && IsEither(f)
    ensures Reverse(f) == Some(Trim(ReplaceAll(ReplaceAll(f, " == ", " != "), " || ", " && "), IsParen))
  {
  }

  /** `reverseFormula` turns `n == a || n == b`, bracketed or not, into
      `n != a && n != b` (De Morgan). */
  lemma ReverseEither(open: string, a: string, b: string, close: string)
    requires open == "" || open == "("
    requires close == "" || close == ")"
    requires IsNumber(a) && IsNumber(b)
    ensures Reverse(EitherText(open, a, b, close, " == ", " || ")) == Some(EitherText("", a, b, "", " != ", " && "))
  {
    var f := EitherText(open, a, b, close, " == ", " || ");
    var g := EitherText(open, a, b, close, " != ", " || ");
    var h := EitherText(open, a, b, close, " != ", " && ");
    var x := EitherText("", a, b, "", " != ", " && ");
    EitherNotComparison(open, a, b, close);
    EitherMatches(open, a, b, close);
    EitherFirstReplace(open, a, b, close);
    EitherSecondReplace(open, a, b, close);
    EitherBare(open, a, b, close);
    TrimParens(open, x, close);
    ReverseChain(f, g, h, open, x, close);
  }

  /** Chains the two replacements and the trim into the reversed text. */
  lemma ReverseChain(f: string, g: string, h: string, open: string, x: string, close: string)
    requires !IsComparison(f, " == ") && !IsComparison(f, " != ") && IsEither(f)
    requires ReplaceAll(f, " == ", " != ") == g && ReplaceAll(g, " || ", " && ") == h
    requires h == open + x + close && Trim(open + x + close, IsParen) == x
    ensures Reverse(f) == Some(x)
  {
  }

  lemma EitherBare(open: string, a: string, b: string, close: string)
    requires IsNumber(b)
    ensures var x := EitherText("", a, b, "", " != ", " && ");
      EitherText(open, a, b, close, " != ", " && ") == open + x + close &&
      |x| > 0 && x[0] == 'n' && x[|x| - 1] == b[|b| - 1]
  {
  }

  /** `n` or `n % m`, the operands the patterns accept. */
  predicate IsOperand(x: string)
  {
    x == "n" || (|x| >= 5 && x[..4] == "n % " && IsNumber(x[4..]))
  }

  /** An operand followed by a comparison operator ends where it was put. */
  lemma OperandAt(s: string, i: nat, x: string)
    requires IsOperand(x) && i + |x| + 4 <= |s| && s[i..i + |x|] == x
    requires s[i + |x|..i + |x| + 4] == " == " || s[i + |x|..i + |x| + 4] == " != "
    ensures OperandEnd(s, i) == i + |x|
  {
    var j := i + |x|;
    assert s[i] == s[i..j][0];
    assert s[j] == s[j..j + 4][0] && s[j + 1] == s[j..j + 4][1];
    if x == "n" {
      assert s[i + 1..i + 4][1] == s[i + 2];
    } else {
      assert s[i + 1..i + 4] == " % " by {
        assert s[i + 1..i + 4] == s[i..j][1..4];
        assert x[1..4] == x[..4][1..4];
      }
      forall k | i + 4 <= k < j
        ensures IsDigit(s[k])
      {
        assert s[k] == s[i..j][k - i] && x[k - i] == x[4..][k - i - 4];
      }
      DigitRunOver(s, i + 4, j);
    }
  }

  /** `x == a && y != b`. */
  function BothText(x: string, a: string, y: string, b: string, eq: string, ne: string, join: string): string
  {
    x + eq + a + join + y + ne + b
  }

  /** Where the parts of `x == a && y != b` sit. */
  lemma BothLayout(x: string, a: string, y: string, b: string)
    requires IsOperand(x) && IsOperand(y) && IsNumber(a) && IsNumber(b)
    ensures var f := BothText(x, a, y, b, " == ", " != ", " && ");
      var j1 := |x|;
      var k1 := j1 + 4 + |a|;
      var j2 := k1 + 4 + |y|;
      |f| == j2 + 4 + |b| && Anchor(f) == f &&
      f[..j1] == x && f[j1..j1 + 4] == " == " && f[j1 + 4..k1] == a &&
      f[k1..k1 + 4] == " && " && f[k1 + 4..j2] == y && f[j2..j2 + 4] == " != " && f[j2 + 4..] == b
  {
    var f2 := x + " == ";
    var f3 := f2 + a;
    var f4 := f3 + " && ";
    var f5 := f4 + y;
    var f6 := f5 + " != ";
    var f := f6 + b;
    assert f == BothText(x, a, y, b, " == ", " != ", " && ");
    assert f[|f| - 1] == b[|b| - 1];
    assert f[..|f6|] == f6 && f[|f6|..] == b;
    Layer(f, f6, f5, " != ");
    Layer(f, f5, f4, y);
    Layer(f, f4, f3, " && ");
    Layer(f, f3, f2, a);
    Layer(f, f2, x, " == ");
  }

  /** A prefix `h + m` of `f` puts `h` and `m` at their places in `f`. */
  lemma Layer(f: string, g: string, h: string, m: string)
    requires |g| <= |f| && f[..|g|] == g && g == h + m
    ensures f[..|h|] == h && f[|h|..|g|] == m
  {
    assert f[..|h|] == g[..|h|];
    assert f[|h|..|g|] == g[|h|..];
  }

  /** `x == a && y != b` is no single comparison. */
  lemma BothNotComparison(x: string, a: string, y: string, b: string)
    requires IsOperand(x) && IsOperand(y) && IsNumber(a) && IsNumber(b)
    ensures var f := BothText(x, a, y, b, " == ", " != ", " && ");
      !IsComparison(f, " == ") && !IsComparison(f, " != ")
  {
    var f := BothText(x, a, y, b, " == ", " != ", " && ");
    BothLayout(x, a, y, b);
    var j1 := |x|;
    var k1 := j1 + 4 + |a|;
    OperandAt(f, 0, x);
    DigitsAt(f, j1 + 4, a);
    DigitRunOver(f, j1 + 4, k1);
    NotMoreValues(f, k1);
  }

  /** The digits of `d` placed at `i`. */
  lemma DigitsAt(s: string, i: nat, d: string)
    requires IsNumber(d) && i + |d| <= |s| && s[i..i + |d|] == d
    ensures forall k :: i <= k < i + |d| ==> IsDigit(s[k])
  {
    assert forall k :: i <= k < i + |d| ==> s[k] == s[i..i + |d|][k - i];
  }

  /** The digits of `d` ending `s`. */
  lemma DigitsTail(s: string, i: nat, d: string)
    requires IsNumber(d) && i <= |s| && s[i..] == d
    ensures forall k :: i <= k < |s| ==> IsDigit(s[k])
  {
    assert forall k :: i <= k < |s| ==> s[k] == s[i..][k - i];
  }

  /** No value list goes on at ` && `. */
  lemma NotMoreValues(s: string, i: nat)
    requires i + 4 <= |s| && s[i..i + 4] == " && "
    ensures !MoreValues(s, i)
  {
    assert s[i] == s[i..i + 4][0];
    assert s[i..i + 2] == s[i..i + 4][..2];
  }

  /** `x == a && y != b` is not the `||` shape. */
  lemma BothNotEither(x: string, a: string, y: string, b: string)
    requires IsOperand(x) && IsOperand(y) && IsNumber(a) && IsNumber(b)
    ensures !IsEither(BothText(x, a, y, b, " == ", " != ", " && "))
  {
    var f := BothText(x, a, y, b, " == ", " != ", " && ");
    BothLayout(x, a, y, b);
    var k1 := |x| + 4 + |a|;
    assert f[0] == f[..|x|][0] == 'n';
    if x == "n" {
      DigitsAt(f, 5, a);
      DigitRunOver(f, 5, k1);
      assert f[k1..k1 + 4][1] == f[k1 + 1];
      if k1 + 9 <= |f| {
        assert f[k1..k1 + 9][1] == f[k1 + 1];
      }
    } else {
      assert f[2] == f[..|x|][2] == x[..4][2];
      if 5 <= |f| {
        assert f[0..5][2] == f[2];
      }
    }
  }

  lemma BothCoreAt(s: string, j1: nat, k1: nat, j2: nat)
    requires 0 < j1 && j1 + 4 < k1 && k1 + 4 < j2 && j2 + 4 < |s|
    requires OperandEnd(s, 0) == j1 && s[j1..j1 + 4] == " == " && DigitRun(s, j1 + 4) == k1
    requires s[k1..k1 + 4] == " && " && OperandEnd(s, k1 + 4) == j2 && s[j2..j2 + 4] == " != "
    requires DigitRun(s, j2 + 4) == |s|
    ensures BothCore(s) == Some((s[..j1], s[j1 + 4..k1], s[k1 + 4..j2], s[j2 + 4..]))
  {
  }

  /** Scanning an operand and a number laid out at `i` in `f`, followed by `sep`. */
  lemma ScanPair(f: string, i: nat, j: nat, k: nat, x: string, op: string, a: string, sep: string)
    requires IsOperand(x) && IsNumber(a) && (op == " == " || op == " != ")
    requires j == i + |x| && k == j + 4 + |a| && k <= |f|
    requires f[i..j] == x && f[j..j + 4] == op && f[j + 4..k] == a
    requires k == |f| || (k + 4 <= |f| && f[k..k + 4] == sep && sep == " && ")
    ensures OperandEnd(f, i) == j && DigitRun(f, j + 4) == k
  {
    OperandAt(f, i, x);
    DigitsAt(f, j + 4, a);
    if k < |f| {
      assert f[k] == f[k..k + 4][0];
    }
    DigitRunOver(f, j + 4, k);
  }

  /** Scanning the first operand and number of `f`, followed by ` && `. */
  lemma ScanFirst(f: string, j: nat, k: nat, x: string, a: string)
    requires IsOperand(x) && IsNumber(a)
    requires j == |x| && k == j + 4 + |a| && k + 4 <= |f|
    requires f[..j] == x && f[j..j + 4] == " == " && f[j + 4..k] == a && f[k..k + 4] == " && "
    ensures OperandEnd(f, 0) == j && DigitRun(f, j + 4) == k
  {
    assert f[0..j] == f[..j];
    ScanPair(f, 0, j, k, x, " == ", a, " && ");
  }

  /** Scanning the last operand and number of `f`, the number ending it. */
  lemma ScanLast(f: string, i: nat, j: nat, y: string, b: string)
    requires IsOperand(y) && IsNumber(b)
    requires j == i + |y| && |f| == j + 4 + |b|
    requires f[i..j] == y && f[j..j + 4] == " != " && f[j + 4..] == b
    ensures OperandEnd(f, i) == j && DigitRun(f, j + 4) == |f|
  {
    assert f[j + 4..|f|] == f[j + 4..];
    ScanPair(f, i, j, |f|, y, " != ", b, " && ");
  }

  /** `x == a && y != b` is the third shape `reverseFormula` knows, with its four groups. */
  lemma BothMatches(x: string, a: string, y: string, b: string)
    requires IsOperand(x) && IsOperand(y) && IsNumber(a) && IsNumber(b)
    ensures Both(BothText(x, a, y, b, " == ", " != ", " && ")) == Some((x, a, y, b))
  {
    var f := BothText(x, a, y, b, " == ", " != ", " && ");
    BothLayout(x, a, y, b);
    BothMatchesAt(f, x, a, y, b);
  }

  lemma BothMatchesAt(f: string, x: string, a: string, y: string, b: string)
    requires IsOperand(x) && IsOperand(y) && IsNumber(a) && IsNumber(b)
    requires var j1 := |x|;
      var k1 := j1 + 4 + |a|;
      var j2 := k1 + 4 + |y|;
      |f| == j2 + 4 + |b| && Anchor(f) == f &&
      f[..j1] == x && f[j1..j1 + 4] == " == " && f[j1 + 4..k1] == a &&
      f[k1..k1 + 4] == " && " && f[k1 + 4..j2] == y && f[j2..j2 + 4] == " != " && f[j2 + 4..] == b
    ensures Both(f) == Some((x, a, y, b))
  {
    var j1 := |x|;
    var k1 := j1 + 4 + |a|;
    var j2 := k1 + 4 + |y|;
    BothScan(f, j1, k1, j2, x, a, y, b);
    BothCoreAt(f, j1, k1, j2);
  }

  lemma BothScan(f: string, j1: nat, k1: nat, j2: nat, x: string, a: string, y: string, b: string)
    requires IsOperand(x) && IsOperand(y) && IsNumber(a) && IsNumber(b)
    requires j1 == |x| && k1 == j1 + 4 + |a| && j2 == k1 + 4 + |y| && |f| == j2 + 4 + |b|
    requires f[..j1] == x && f[j1..j1 + 4] == " == " && f[j1 + 4..k1] == a && f[k1..k1 + 4] == " && "
    requires f[k1 + 4..j2] == y && f[j2..j2 + 4] == " != " && f[j2 + 4..] == b
    ensures OperandEnd(f, 0) == j1 && DigitRun(f, j1 + 4) == k1
    ensures OperandEnd(f, k1 + 4) == j2 && DigitRun(f, j2 + 4) == |f|
  {
    ScanFirst(f, j1, k1, x, a);
    ScanLast(f, k1 + 4, j2, y, b);
  }

  /** `reverseFormula` turns `x == a && y != b` into `x != a || y == b` (De Morgan). */
  lemma ReverseBoth(x: string, a: string, y: string, b: string)
    requires IsOperand(x) && IsOperand(y) && IsNumber(a) && IsNumber(b)
    ensures Reverse(BothText(x, a, y, b, " == ", " != ", " && ")) == Some(BothText(x, a, y, b, " != ", " == ", " || "))
  {
    BothNotComparison(x, a, y, b);
    BothNotEither(x, a, y, b);
    BothMatches(x, a, y, b);
  }
}
