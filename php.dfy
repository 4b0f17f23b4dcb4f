/** PHP values as the core sees them: scalars and ordered arrays whose keys are
    integers or strings, with the conversions PHP applies implicitly. */
module Php {
  import opened Wrappers
  import opened Strings

  /** An array key. PHP turns canonical numeric string keys into integers when
      an array is built; the model receives keys in that normalised form. */
  datatype Key = IntKey(i: int) | StrKey(s: string)

  /** A PHP value. A float carries the text PHP prints for it. */
  datatype Value =
    | Null
    | Bool(b: bool)
    | Int(i: int)
    | Float(repr: string)
    | Text(s: string)
    | Arr(entries: seq<Entry>)

  /** One key/value pair of an array, in insertion order. */
  datatype Entry = Entry(key: Key, val: Value)

  function DigitChar(d: int): char
    requires 0 <= d < 10
  {
    "0123456789"[d]
  }

  predicate IsDigit(c: char)
  {
    '0' <= c <= '9'
  }

  function NatToStr(n: nat): (r: string)
    ensures |r| >= 1
    ensures forall k :: 0 <= k < |r| ==> IsDigit(r[k])
  {
    if n < 10 then [DigitChar(n)] else NatToStr(n / 10) + [DigitChar(n % 10)]
  }

  /** Decimal text of an integer, as string conversion prints it. */
  function IntToStr(i: int): (r: string)
    ensures |r| >= 1
  {
    if i < 0 then "-" + NatToStr(-i) else NatToStr(i)
  }

  function KeyStr(k: Key): string
  {
    match k
    case IntKey(i) => IntToStr(i)
    case StrKey(s) => s
  }

  /** `(string) $v`. An array converts to the text `Array`. */
  function StrVal(v: Value): string
  {
    match v
    case Null => ""
    case Bool(b) => if b then "1" else ""
    case Int(i) => IntToStr(i)
    case Float(r) => r
    case Text(s) => s
    case Arr(_) => "Array"
  }

  /** The end of the longest run of decimal digits starting at `i`. */
  function DigitRun(s: string, i: nat): (j: nat)
    requires i <= |s|
    ensures i <= j <= |s|
    ensures forall k :: i <= k < j ==> IsDigit(s[k])
    ensures j < |s| ==> !IsDigit(s[j])
    decreases |s| - i
  {
    if i < |s| && IsDigit(s[i]) then DigitRun(s, i + 1) else i
  }

  /** The end of an optional exponent `[eE][+-]?[0-9]+` at `i` (or `i` if there is none). */
  function ExponentEnd(s: string, i: nat): (j: nat)
    requires i <= |s|
    ensures i <= j <= |s|
  {
    if i < |s| && (s[i] == 'e' || s[i] == 'E') then
      var e := if i + 1 < |s| && (s[i + 1] == '+' || s[i + 1] == '-') then i + 2 else i + 1;
      var d := DigitRun(s, e);
      if d > e then d else i
    else i
  }

  /** The leading whitespace PHP 7's numeric-string test accepts. */
  predicate IsNumericSpace(c: char)
  {
    c == ' ' || c == '\t' || c == '\n' || c == '\r' || c as int == 0x0B || c as int == 0x0C
  }

  function NumericSpaceRun(s: string, i: nat): (j: nat)
    requires i <= |s|
    ensures i <= j <= |s|
    decreases |s| - i
  {
    if i < |s| && IsNumericSpace(s[i]) then NumericSpaceRun(s, i + 1) else i
  }

  /** PHP 7 `is_numeric` on a string: optional leading whitespace, an optional
      sign, digits with an optional fraction (or a fraction alone), an optional
      exponent, and nothing after. */
  predicate IsNumericStr(s: string)
  {
    var i := NumericSpaceRun(s, 0);
    var j := if i < |s| && (s[i] == '+' || s[i] == '-') then i + 1 else i;
    var k := DigitRun(s, j);
    if k > j then
      var m := if k < |s| && s[k] == '.' then DigitRun(s, k + 1) else k;
      ExponentEnd(s, m) == |s|
    else if j < |s| && s[j] == '.' then
      var m := DigitRun(s, j + 1);
      m > j + 1 && ExponentEnd(s, m) == |s|
    else false
  }

  /** `is_numeric($v)`. */
  predicate IsNumeric(v: Value)
  {
    match v
    case Int(_) => true
    case Float(_) => true
    case Text(s) => IsNumericStr(s)
    case _ => false
  }

  function DigitValue(c: char): nat
  {
    if IsDigit(c) then c as int - '0' as int else 0
  }

  /** The number the decimal digits `s[i..j]` spell. */
  function DigitsValue(s: string, i: nat, j: nat): nat
    requires i <= j <= |s|
    decreases j - i
  {
    if j == i then 0 else DigitsValue(s, i, j - 1) * 10 + DigitValue(s[j - 1])
  }

  function Pow10(n: nat): (r: nat)
    ensures r >= 1
  {
    if n == 0 then 1 else 10 * Pow10(n - 1)
  }

  /** The signed value of the exponent `ExponentEnd` accepted in `s[m..e]`. */
  function ExponentValue(s: string, m: nat, e: nat): int
    requires m <= e <= |s|
  {
    if e == m || m + 1 >= |s| then 0
    else
      var negative := s[m + 1] == '-';
      var d := if negative || s[m + 1] == '+' then m + 2 else m + 1;
      if d <= e then
        var v: int := DigitsValue(s, d, e);
        if negative then -v else v
      else 0
  }

  /** PHP 7 `$s == 1` for a string: the string counts by the number its
      leading numeric part spells (whitespace, a sign, digits with an optional
      fraction, an optional exponent; anything after is ignored, and a string
      without one is 0). With `scale` places after the decimal point once the
      exponent is applied, that number is one exactly when the digits, read as
      an integer, are `10^scale`. */
  predicate TextIsOne(s: string)
  {
    var i := NumericSpaceRun(s, 0);
    var j := if i < |s| && s[i] == '+' then i + 1 else i;
    var k := DigitRun(s, j);
    var f := if k < |s| && s[k] == '.' then k + 1 else k;
    var m := DigitRun(s, f);
    var scale := (m - f) - ExponentValue(s, m, ExponentEnd(s, m));
    !(i < |s| && s[i] == '-') && (k > j || m > f) && scale >= 0 &&
    DigitsValue(s, j, k) * Pow10(m - f) + DigitsValue(s, f, m) == Pow10(scale)
  }

  /** PHP 7 `$v == 1`. A float is compared by the text PHP prints for it. */
  predicate LooseEqualsOne(v: Value)
  {
    match v
    case Null => false
    case Bool(b) => b
    case Int(i) => i == 1
    case Float(r) => r == "1"
    case Text(s) => TextIsOne(s)
    case Arr(_) => false
  }

  /** The digits `NatToStr` prints spell the number printed. */
  lemma {:induction false} NatToStrValue(n: nat)
    ensures DigitsValue(NatToStr(n), 0, |NatToStr(n)|) == n
  {
    var s := NatToStr(n);
    if n >= 10 {
      var init := NatToStr(n / 10);
      NatToStrValue(n / 10);
      DigitsValuePrefix(s, init, |init|);
    }
  }

  /** Digits read from the start do not look past their end. */
  lemma {:induction false} DigitsValuePrefix(s: string, init: string, j: nat)
    requires j <= |init| < |s| && init == s[..|init|]
    ensures DigitsValue(s, 0, j) == DigitsValue(init, 0, j)
  {
    if j > 0 {
      DigitsValuePrefix(s, init, j - 1);
    }
  }

  /** A printed integer equals 1 exactly when the integer is 1. */
  lemma DecimalTextIsOne(i: int)
    ensures TextIsOne(IntToStr(i)) <==> i == 1
  {
    var s := IntToStr(i);
    assert NumericSpaceRun(s, 0) == 0;
    if i >= 0 {
      DigitRunAll(s, 0);
      NatToStrValue(i);
      assert ExponentEnd(s, |s|) == |s|;
    }
  }

  /** A leading `1` followed by anything that does not continue a number is
      one: PHP 7 ignores what follows the numeric part. */
  lemma LeadingOne(t: string)
    requires |t| == 0 || !(IsDigit(t[0]) || t[0] == '.' || t[0] == 'e' || t[0] == 'E')
    ensures TextIsOne("1" + t)
  {
    var s := "1" + t;
    assert s[0] == '1';
    assert NumericSpaceRun(s, 0) == 0;
    assert DigitRun(s, 1) == 1 && DigitRun(s, 0) == 1;
    assert ExponentEnd(s, 1) == 1;
    assert DigitsValue(s, 0, 1) == 1;
  }

  /** `"1.0" == 1`: a zero fraction does not change the value. */
  lemma FractionOne()
    ensures TextIsOne("1.0")
  {
    var s := "1.0";
    assert NumericSpaceRun(s, 0) == 0;
    assert DigitRun(s, 1) == 1 && DigitRun(s, 0) == 1;
    assert DigitRun(s, 3) == 3 && DigitRun(s, 2) == 3;
    assert ExponentEnd(s, 3) == 3;
    assert DigitsValue(s, 0, 1) == 1 && DigitsValue(s, 2, 3) == 0;
  }

  /** `" 1" == 1`: leading whitespace is skipped. */
  lemma PaddedOne()
    ensures TextIsOne(" 1")
  {
    var s := " 1";
    assert NumericSpaceRun(s, 1) == 1 && NumericSpaceRun(s, 0) == 1;
    assert DigitRun(s, 2) == 2 && DigitRun(s, 1) == 2;
    assert ExponentEnd(s, 2) == 2;
    assert DigitsValue(s, 1, 2) == 1;
  }

  /** `"10e-1" == 1`: the exponent scales the digits. */
  lemma ExponentOne()
    ensures TextIsOne("10e-1")
  {
    var s := "10e-1";
    assert NumericSpaceRun(s, 0) == 0;
    assert DigitRun(s, 2) == 2 && DigitRun(s, 1) == 2 && DigitRun(s, 0) == 2;
    assert DigitRun(s, 5) == 5 && DigitRun(s, 4) == 5;
    assert ExponentEnd(s, 2) == 5;
    assert DigitsValue(s, 4, 5) == 1 && ExponentValue(s, 2, 5) == -1;
    assert DigitsValue(s, 0, 2) == 10;
  }

  /** `"0.1" == 1` fails: the digits spell 1 but the value is a tenth. */
  lemma FractionBelowOne()
    ensures !TextIsOne("0.1")
  {
    var s := "0.1";
    assert NumericSpaceRun(s, 0) == 0;
    assert DigitRun(s, 1) == 1 && DigitRun(s, 0) == 1;
    assert DigitRun(s, 3) == 3 && DigitRun(s, 2) == 3;
    assert ExponentEnd(s, 3) == 3;
    assert DigitsValue(s, 0, 1) == 0 && DigitsValue(s, 2, 3) == 1;
  }

  lemma DecimalIsNumeric(i: int)
    ensures IsNumericStr(IntToStr(i))
  {
    var s := IntToStr(i);
    var j := if i < 0 then 1 else 0;
    assert NumericSpaceRun(s, 0) == 0;
    assert DigitRun(s, j) == |s| by {
      DigitRunAll(s, j);
    }
  }

  lemma {:induction false} DigitRunAll(s: string, i: nat)
    requires i <= |s|
    requires forall k :: i <= k < |s| ==> IsDigit(s[k])
    ensures DigitRun(s, i) == |s|
    decreases |s| - i
  {
    if i < |s| {
      DigitRunAll(s, i + 1);
    }
  }

  /** `!(bool) $v`, which is also PHP's `empty()` and loose `$v == null`. */
  predicate Falsy(v: Value)
  {
    match v
    case Null => true
    case Bool(b) => !b
    case Int(i) => i == 0
    case Float(r) => r == "0" || r == "-0"
    case Text(s) => s == "" || s == "0"
    case Arr(es) => es == []
  }

  /** The value stored under `k`, if any (array keys are unique, so the first match). */
  function Lookup(es: seq<Entry>, k: Key): (r: Option<Value>)
    ensures r.Some? <==> exists j :: 0 <= j < |es| && es[j].key == k
    ensures r.Some? ==> exists j :: 0 <= j < |es| && es[j] == Entry(k, r.value)
  {
    if |es| == 0 then None
    else if es[0].key == k then Some(es[0].val)
    else
      var r := Lookup(es[1..], k);
      assert forall j :: 0 < j < |es| ==> es[j] == es[1..][j - 1];
      r
  }

  /** `$a[$k] ?? null`. */
  function Get(es: seq<Entry>, k: Key): Value
  {
    Lookup(es, k).GetOr(Null)
  }

  /** `isset($a[$k])`: present and not null. */
  predicate IsSet(es: seq<Entry>, k: Key)
  {
    Get(es, k) != Null
  }

  function Keys(es: seq<Entry>): (ks: seq<Key>)
    ensures |ks| == |es|
    ensures forall j :: 0 <= j < |es| ==> ks[j] == es[j].key
  {
    if |es| == 0 then [] else [es[0].key] + Keys(es[1..])
  }

  /** No key occurs twice, as in every PHP array. */
  predicate UniqueKeys(es: seq<Entry>)
  {
    forall i, j :: 0 <= i < j < |es| ==> es[i].key != es[j].key
  }

  lemma LookupCons(e: Entry, rest: seq<Entry>)
    ensures forall k :: Lookup([e] + rest, k) == if e.key == k then Some(e.val) else Lookup(rest, k)
  {
    assert ([e] + rest)[1..] == rest;
  }

  /** `$a[$k] = $v`: overwrite in place when `k` is present, append otherwise. */
  function Put(es: seq<Entry>, k: Key, v: Value): (r: seq<Entry>)
    ensures Lookup(r, k) == Some(v)
    ensures forall k' :: k' != k ==> Lookup(r, k') == Lookup(es, k')
  {
    if |es| == 0 then [Entry(k, v)]
    else
      assert es == [es[0]] + es[1..];
      LookupCons(es[0], es[1..]);
      if es[0].key == k then
        LookupCons(Entry(k, v), es[1..]);
        [Entry(k, v)] + es[1..]
      else
        var tail := Put(es[1..], k, v);
        LookupCons(es[0], tail);
        [es[0]] + tail
  }

  /** `unset($a[$k])`. */
  function Remove(es: seq<Entry>, k: Key): (r: seq<Entry>)
    ensures Lookup(r, k) == None
    ensures forall k' :: k' != k ==> Lookup(r, k') == Lookup(es, k')
  {
    if |es| == 0 then []
    else
      assert es == [es[0]] + es[1..];
      LookupCons(es[0], es[1..]);
      var tail := Remove(es[1..], k);
      if es[0].key == k then tail
      else
        LookupCons(es[0], tail);
        [es[0]] + tail
  }

  /** The array's keys are exactly 0 .. n-1, in some order: PHP's list test
      `array_diff_key($a, array_keys(array_keys($a))) === []` for an array with unique keys. */
  predicate IsList(es: seq<Entry>)
  {
    forall j :: 0 <= j < |es| ==> es[j].key.IntKey? && 0 <= es[j].key.i < |es|
  }

  /** The values of an array, in order (`array_values`). */
  function Values(es: seq<Entry>): (vs: seq<Value>)
    ensures |vs| == |es|
    ensures forall j :: 0 <= j < |es| ==> vs[j] == es[j].val
  {
    if |es| == 0 then [] else [es[0].val] + Values(es[1..])
  }

  /** A 0-based list built from values (PHP `[$a, $b, ...]`). */
  function ListOf(vs: seq<Value>): (es: seq<Entry>)
    ensures |es| == |vs|
    ensures forall j :: 0 <= j < |vs| ==> es[j] == Entry(IntKey(j), vs[j])
  {
    if |vs| == 0 then [] else ListOf(vs[..|vs| - 1]) + [Entry(IntKey(|vs| - 1), vs[|vs| - 1])]
  }
}
