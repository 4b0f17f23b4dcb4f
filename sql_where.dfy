/** The condition compiler of the Medoo query builder: a PHP array of
    `column[op] => value` pairs, possibly nested in `AND`/`OR` groups, becomes
    the text of a WHERE condition. */
module SqlWhere {
  import opened Wrappers
  import opened Strings
  import opened Php
  import opened SqlQuote

  // ------------------------------------------------------------ key syntax

  /** PCRE's `\w` in the default locale. */
  predicate IsWordChar(c: char)
  {
    ('a' <= c <= 'z') || ('A' <= c <= 'Z') || IsDigit(c) || c == '_'
  }

  /** The characters of a column reference in a condition key: `[\w.-]`. */
  predicate IsKeyChar(c: char)
  {
    IsWordChar(c) || c == '.' || c == '-'
  }

  /** The first index at or after `i` whose character satisfies `p`, or `|s|`. */
  function Find(s: string, i: nat, p: char -> bool): (j: nat)
    requires i <= |s|
    ensures i <= j <= |s|
    ensures forall k :: i <= k < j ==> !p(s[k])
    ensures j < |s| ==> p(s[j])
    decreases |s| - i
  {
    if i == |s| || p(s[i]) then i else Find(s, i + 1, p)
  }

  /** The operator suffixes a condition key may carry. */
  const Operators: set<string> := {">", ">=", "<", "<=", "!", "<>", "><", "~", "!~"}

  /** A condition key split into its column and its `[op]` suffix. */
  datatype KeyParts = KeyParts(column: string, op: Option<string>)

  /** The operator written in brackets at position `j`, if it is one of `Operators`. */
  function BracketOp(k: string, j: nat): (r: Option<string>)
    requires j <= |k|
    ensures r.Some? ==> r.value in Operators
  {
    if j < |k| && k[j] == '[' then
      var e := j + 1 + FirstIndex(k[j + 1..], ']');
      if e < |k| && k[j + 1..e] in Operators then Some(k[j + 1..e]) else None
    else None
  }

  /** The match of `(#?)([\w\.\-]+)(\[(op)\])?` against a key: the column is the
      leftmost run of `[\w.-]`, and the operator is taken only when a known one
      sits in brackets right after it. Without any such run there is no match,
      which leaves an empty column. */
  function ParseKey(k: string): (r: KeyParts)
    ensures r.op.Some? ==> r.op.value in Operators && r.column != ""
  {
    var i := Find(k, 0, IsKeyChar);
    if i == |k| then KeyParts("", None)
    else
      var j := Run(k, i, IsKeyChar);
      KeyParts(k[i..j], BracketOp(k, j))
  }

  /** Case-insensitive equality of an ASCII letter with an upper-case one. */
  predicate LetterIs(c: char, upper: char)
  {
    c == upper || c as int == upper as int + 32
  }

  /** No line feed except possibly a final one: what `.*$` accepts. */
  predicate LineTail(s: string)
  {
    '\n' !in s || ('\n' !in s[..|s| - 1] && s[|s| - 1] == '\n')
  }

  /** The part after `AND`/`OR` in `/^(AND|OR)(\s+#.*)?$/i`. */
  predicate GroupTail(rest: string)
  {
    rest == "" || rest == "\n" ||
    (var j := SpaceRun(rest, 0); 0 < j < |rest| && rest[j] == '#' && LineTail(rest[j + 1..]))
  }

  /** The relation word of a group key such as `AND`, `or #2`, written as in
      the key (the match is case-insensitive); `None` for other keys. */
  function GroupRelation(k: Key): (r: Option<string>)
    ensures r.Some? ==> k.StrKey? && |r.value| >= 2
  {
    if k.IntKey? then None
    else
      var s := k.s;
      if |s| >= 3 && LetterIs(s[0], 'A') && LetterIs(s[1], 'N') && LetterIs(s[2], 'D') then
        if GroupTail(s[3..]) then Some(s[..3]) else None
      else if |s| >= 2 && LetterIs(s[0], 'O') && LetterIs(s[1], 'R') then
        if GroupTail(s[2..]) then Some(s[..2]) else None
      else None
  }

  // ---------------------------------------------------------- leaf conditions

  /** The default (`= / IN / IS NULL`) and negated (`!= / NOT IN / IS NOT NULL`) forms. */
  function Equality(cfg: Config, key: string, col: string, v: Value, negated: bool): string
  {
    match v
    case Null => col + (if negated then " IS NOT NULL" else " IS NULL")
    case Arr(es) => col + (if negated then " NOT IN (" else " IN (") + Join(ListItems(cfg, es), ",") + ")"
    case Int(_) => col + (if negated then " != " else " = ") + StrVal(v)
    case Float(_) => col + (if negated then " != " else " = ") + StrVal(v)
    case Bool(b) => col + (if negated then " != " else " = ") + (if b then "1" else "0")
    case Text(s) => col + (if negated then " != " else " = ") + QuoteFn(cfg, key, s)
  }

  /** `(col BETWEEN a AND b)` or `(col NOT BETWEEN a AND b)`. */
  function Between(cfg: Config, col: string, es: seq<Entry>, negated: bool): string
  {
    var c := col + (if negated then " NOT" else "");
    var a := Get(es, IntKey(0));
    var b := Get(es, IntKey(1));
    if IsNumeric(a) && IsNumeric(b) then "(" + c + " BETWEEN " + StrVal(a) + " AND " + StrVal(b) + ")"
    else "(" + c + " BETWEEN " + PdoQuote(cfg, a) + " AND " + PdoQuote(cfg, b) + ")"
  }

  /** `/^(?!(%|\[|_])).+(?<!(%|\]|_))$/`, exactly as the source writes it: the
      excluded prefixes are `%`, `[` and the two characters `_]`. */
  predicate LikeWrapAsWritten(item: string)
  {
    var core := if |item| > 0 && item[|item| - 1] == '\n' then item[..|item| - 1] else item;
    !StartsWith(item, '%') && !StartsWith(item, '[') && !(|item| >= 2 && item[..2] == "_]") &&
    |core| > 0 && '\n' !in core && core[|core| - 1] !in {'%', ']', '_'}
  }

  /** The same guard with the excluded prefixes `%`, `[` and `_`, mirroring the
      excluded suffixes `%`, `]` and `_`. */
  predicate LikeWrap(item: string)
  {
    var core := if |item| > 0 && item[|item| - 1] == '\n' then item[..|item| - 1] else item;
    !StartsWith(item, '%') && !StartsWith(item, '[') && !StartsWith(item, '_') &&
    |core| > 0 && '\n' !in core && core[|core| - 1] !in {'%', ']', '_'}
  }

  /** The LIKE pattern built from one item: a final `_` becomes `%`, a final
      `%` moves to the front, and anything else not already anchored by a
      wildcard or bracket is wrapped in `%...%`. */
  function LikePattern(item: string): string
  {
    if |item| > 0 && item[|item| - 1] == '_' then item[..|item| - 1] + "%"
    else if |item| > 0 && item[|item| - 1] == '%' then "%" + item[..|item| - 1]
    else if LikeWrap(item) then "%" + item + "%"
    else item
  }

  /** The items of a LIKE condition: the array's values, or the value itself. */
  function LikeItems(v: Value): seq<Value>
  {
    if v.Arr? then Values(v.entries) else [v]
  }

  function LikeFragment(cfg: Config, key: string, col: string, negated: bool, item: Value): string
  {
    col + (if negated then " NOT" else "") + " LIKE " + QuoteFn(cfg, key, LikePattern(StrVal(item)))
  }

  function LikeFragments(cfg: Config, key: string, col: string, negated: bool, items: seq<Value>): (r: seq<string>)
    ensures |r| == |items|
  {
    if |items| == 0 then []
    else LikeFragments(cfg, key, col, negated, items[..|items| - 1]) + [LikeFragment(cfg, key, col, negated, items[|items| - 1])]
  }

  /** The `[~]` / `[!~]` condition: one LIKE per item, joined by ` OR `. */
  function LikeCondition(cfg: Config, key: string, col: string, negated: bool, v: Value): string
  {
    Join(LikeFragments(cfg, key, col, negated, LikeItems(v)), " OR ")
  }

  lemma LikeFragmentsSnoc(cfg: Config, key: string, col: string, negated: bool, items: seq<Value>, i: nat)
    requires i < |items|
    ensures LikeFragments(cfg, key, col, negated, items[..i + 1])
      == LikeFragments(cfg, key, col, negated, items[..i]) + [LikeFragment(cfg, key, col, negated, items[i])]
  {
    assert items[..i + 1][..i] == items[..i];
  }

  /** `[~]` / `[!~]`, built by the source's loop over the items. */
  method LikeClause(cfg: Config, key: string, col: string, negated: bool, v: Value) returns (r: string)
    ensures r == LikeCondition(cfg, key, col, negated, v)
  {
    var items := LikeItems(v);
    var like: seq<string> := [];
    var i := 0;
    while i < |items|
      invariant 0 <= i <= |items|
      invariant like == LikeFragments(cfg, key, col, negated, items[..i])
    {
      LikeFragmentsSnoc(cfg, key, col, negated, items, i);
      like := like + [LikeFragment(cfg, key, col, negated, items[i])];
      i := i + 1;
    }
    assert items[..|items|] == items;
    r := Join(like, " OR ");
  }

  /** `>`, `>=`, `<`, `<=`: numbers bare, `#` keys through `quoteFn`, the rest
      quoted. `quoteFn` of a null, a boolean or an array is the driver's quote,
      since their text (`""`, `"1"`, or no string at all) is never a call. */
  function Comparison(cfg: Config, key: string, col: string, op: string, v: Value): string
  {
    col + " " + op + " " +
    (if IsNumeric(v) then StrVal(v)
     else if StartsWith(key, '#') && v.Text? then QuoteFn(cfg, key, v.s)
     else PdoQuote(cfg, v))
  }

  /** The condition for one non-group entry, or `None` when the operator emits
      nothing (a range operator without an array value). */
  function Leaf(cfg: Config, k: Key, v: Value): Option<string>
  {
    var parts := ParseKey(KeyStr(k));
    OperatorCondition(cfg, KeyStr(k), QuoteColumn(cfg, parts.column), parts.op, v)
  }

  /** The condition for a parsed key: the source's table of operator and value type. */
  function OperatorCondition(cfg: Config, key: string, col: string, op: Option<string>, v: Value): Option<string>
  {
    match op
    case None => Some(Equality(cfg, key, col, v, false))
    case Some(o) =>
      if o == "!" then Some(Equality(cfg, key, col, v, true))
      else if o == "<>" || o == "><" then
        if v.Arr? then Some(Between(cfg, col, v.entries, o == "><")) else None
      else if o == "~" || o == "!~" then Some(LikeCondition(cfg, key, col, o == "!~", v))
      else Some(Comparison(cfg, key, col, o, v))
  }

  // ------------------------------------------------------------ conditions

  /** `dataImplode(v, conj)`: the conditions of an array joined by `conj + ' '`;
      a value that is not an array has none. */
  function Conditions(cfg: Config, v: Value, conj: string): string
    decreases v, 2
  {
    if v.Arr? then Join(Fragments(cfg, v.entries, conj), conj + " ") else ""
  }

  /** The fragments of one level, in order. */
  function Fragments(cfg: Config, es: seq<Entry>, conj: string): seq<string>
    decreases es, 1
  {
    if |es| == 0 then []
    else
      var f := Fragment(cfg, es[|es| - 1], conj);
      Fragments(cfg, es[..|es| - 1], conj) + (if f.Some? then [f.value] else [])
  }

  /** One entry: a group key with an array value is compiled recursively,
      everything else is a leaf. */
  function Fragment(cfg: Config, e: Entry, conj: string): Option<string>
    decreases e, 0
  {
    var rel := GroupRelation(e.key);
    if e.val.Arr? && rel.Some? then
      if !IsList(e.val.entries) then Some("(" + Conditions(cfg, e.val, " " + rel.value) + ")")
      else Some("(" + InnerConjunction(cfg, e.val.entries, " " + rel.value, conj) + ")")
    else Leaf(cfg, e.key, e.val)
  }

  /** `innerConjunct`: each element compiled and parenthesised on its own. */
  function InnerConjunction(cfg: Config, es: seq<Entry>, conj: string, outer: string): string
    decreases es, 2
  {
    Join(InnerItems(cfg, es, conj), outer + " ")
  }

  function InnerItems(cfg: Config, es: seq<Entry>, conj: string): (r: seq<string>)
    ensures |r| == |es|
    decreases es, 1
  {
    if |es| == 0 then []
    else InnerItems(cfg, es[..|es| - 1], conj) + [InnerItem(cfg, es[|es| - 1], conj)]
  }

  function InnerItem(cfg: Config, e: Entry, conj: string): string
    decreases e, 0
  {
    "(" + Conditions(cfg, e.val, conj) + ")"
  }

  /** `innerConjunct`, built by the source's loop. */
  method InnerConjunct(cfg: Config, v: Value, conj: string, outer: string) returns (r: string)
    requires v.Arr?
    ensures r == InnerConjunction(cfg, v.entries, conj, outer)
    decreases v, 0
  {
    var es := v.entries;
    var haystack: seq<string> := [];
    var i := 0;
    while i < |es|
      invariant 0 <= i <= |es|
      invariant haystack == InnerItems(cfg, es[..i], conj)
    {
      assert es[..i + 1][..i] == es[..i];
      assert es[i] in es;
      var c := DataImplode(cfg, es[i].val, conj);
      haystack := haystack + ["(" + c + ")"];
      assert haystack == InnerItems(cfg, es[..i + 1], conj);
      i := i + 1;
    }
    assert es[..|es|] == es;
    r := Join(haystack, outer + " ");
  }

  /** A `[~]` or `[!~]` key's leaf is its LIKE condition. */
  lemma LeafLike(cfg: Config, k: Key, v: Value)
    requires ParseKey(KeyStr(k)).op == Some("~") || ParseKey(KeyStr(k)).op == Some("!~")
    ensures var parts := ParseKey(KeyStr(k));
      Leaf(cfg, k, v) == Some(LikeCondition(cfg, KeyStr(k), QuoteColumn(cfg, parts.column), parts.op == Some("!~"), v))
  {
    var parts := ParseKey(KeyStr(k));
    OperatorLike(cfg, KeyStr(k), QuoteColumn(cfg, parts.column), parts.op.value, v);
  }

  lemma OperatorLike(cfg: Config, key: string, col: string, o: string, v: Value)
    requires o == "~" || o == "!~"
    ensures OperatorCondition(cfg, key, col, Some(o), v) == Some(LikeCondition(cfg, key, col, o == "!~", v))
  {
    assert o != "!" && o != "<>" && o != "><";
  }

  method EntryCondition(cfg: Config, e: Entry, conj: string) returns (f: Option<string>)
    ensures f == Fragment(cfg, e, conj)
    decreases e, 0
  {
    var rel := GroupRelation(e.key);
    if e.val.Arr? && rel.Some? {
      var sub: string;
      if !IsList(e.val.entries) {
        sub := DataImplode(cfg, e.val, " " + rel.value);
      } else {
        sub := InnerConjunct(cfg, e.val, " " + rel.value, conj);
      }
      return Some("(" + sub + ")");
    }
    var parts := ParseKey(KeyStr(e.key));
    if parts.op == Some("~") || parts.op == Some("!~") {
      var like := LikeClause(cfg, KeyStr(e.key), QuoteColumn(cfg, parts.column), parts.op == Some("!~"), e.val);
      LeafLike(cfg, e.key, e.val);
      return Some(like);
    }
    f := Leaf(cfg, e.key, e.val);
  }

  /** `dataImplode`, built by the source's loop over the entries. */
  method DataImplode(cfg: Config, v: Value, conj: string) returns (r: string)
    ensures r == Conditions(cfg, v, conj)
    decreases v, 1
  {
    if !v.Arr? {
      return "";
    }
    var es := v.entries;
    var wheres: seq<string> := [];
    var i := 0;
    while i < |es|
      invariant 0 <= i <= |es|
      invariant wheres == Fragments(cfg, es[..i], conj)
    {
      assert es[..i + 1][..i] == es[..i];
      assert es[i] in es;
      var f := EntryCondition(cfg, es[i], conj);
      if f.Some? {
        wheres := wheres + [f.value];
      }
      i := i + 1;
    }
    assert es[..|es|] == es;
    r := Join(wheres, conj + " ");
  }

  // ---------------------------------------------------------------- lemmas

  /** Every character of a non-empty column reference is in `[\w.-]`. */
  predicate PlainName(name: string)
  {
    |name| > 0 && forall k :: 0 <= k < |name| ==> IsKeyChar(name[k])
  }

  /** A condition key as written: an optional `#`, the column, an optional `[op]`. */
  function KeyText(name: string, op: Option<string>, raw: bool): string
  {
    (if raw then "#" else "") + name + (if op.Some? then "[" + op.value + "]" else "")
  }

  lemma {:induction false} FindAt(s: string, i: nat, j: nat, p: char -> bool)
    requires i <= j < |s|
    requires forall k :: i <= k < j ==> !p(s[k])
    requires p(s[j])
    ensures Find(s, i, p) == j
    decreases j - i
  {
    if i < j {
      FindAt(s, i + 1, j, p);
    }
  }

  lemma {:induction false} RunToEnd(s: string, i: nat, p: char -> bool)
    requires i <= |s|
    requires forall k :: i <= k < |s| ==> p(s[k])
    ensures Run(s, i, p) == |s|
    decreases |s| - i
  {
    if i < |s| {
      RunToEnd(s, i + 1, p);
    }
  }

  lemma OperatorHasNoBracket(o: string)
    requires o in Operators
    ensures ']' !in o
  {
    if o == ">" {} else if o == ">=" {} else if o == "<" {} else if o == "<=" {}
    else if o == "!" {} else if o == "<>" {} else if o == "><" {} else if o == "~" {}
    else { assert o == "!~"; }
  }

  /** Parsing a key written from a column, an operator and the raw marker gives
      back the column and the operator. */
  lemma ParseKeyText(name: string, op: Option<string>, raw: bool)
    requires PlainName(name)
    requires op.Some? ==> op.value in Operators
    ensures ParseKey(KeyText(name, op, raw)) == KeyParts(name, op)
  {
    var k := KeyText(name, op, raw);
    var start := if raw then 1 else 0;
    var j := start + |name|;
    var tail := if op.Some? then "[" + op.value + "]" else "";
    assert k == (if raw then "#" else "") + name + tail;
    assert k[start..j] == name;
    assert k[j..] == tail;
    FindAt(k, 0, start, IsKeyChar);
    if op.None? {
      RunToEnd(k, start, IsKeyChar);
    } else {
      RunOver(k, start, j, IsKeyChar);
      BracketOpOf(k, j, op.value);
    }
  }

  /** An operator written in brackets at the end of a key is read back. */
  lemma BracketOpOf(k: string, j: nat, o: string)
    requires j < |k| && k[j..] == "[" + o + "]"
    requires o in Operators
    ensures BracketOp(k, j) == Some(o)
  {
    OperatorHasNoBracket(o);
    var t := k[j + 1..];
    assert t == o + "]";
    assert FirstIndex(t, ']') == |o| by {
      assert t[|o|] == ']';
      assert forall i :: 0 <= i < |o| ==> t[i] == o[i];
    }
    assert k[j + 1..j + 1 + |o|] == o;
  }

  /** A key without a suffix: `IS NULL`, `IN (...)`, or `= value`. */
  lemma DefaultOperator(cfg: Config, key: string, v: Value)
    requires ParseKey(key).op.None?
    ensures var c := QuoteColumn(cfg, ParseKey(key).column);
            var r := Leaf(cfg, StrKey(key), v);
            (v.Null? ==> r == Some(c + " IS NULL")) &&
            (v.Arr? ==> r == Some(c + " IN (" + Join(ListItems(cfg, v.entries), ",") + ")")) &&
            (v.Int? || v.Float? ==> r == Some(c + " = " + StrVal(v))) &&
            (v.Bool? ==> r == Some(c + " = " + (if v.b then "1" else "0"))) &&
            (v.Text? && !StartsWith(key, '#') ==> r == Some(c + " = " + cfg.quote(v.s))) &&
            (v.Text? && StartsWith(key, '#') && IsFnCall(v.s) ==> r == Some(c + " = " + v.s))
  {
  }

  /** The `[!]` suffix: `IS NOT NULL`, `NOT IN (...)`, or `!= value`. */
  lemma NegatedOperator(cfg: Config, key: string, v: Value)
    requires ParseKey(key).op == Some("!")
    ensures var c := QuoteColumn(cfg, ParseKey(key).column);
            var r := Leaf(cfg, StrKey(key), v);
            (v.Null? ==> r == Some(c + " IS NOT NULL")) &&
            (v.Arr? ==> r == Some(c + " NOT IN (" + Join(ListItems(cfg, v.entries), ",") + ")")) &&
            (v.Int? || v.Float? ==> r == Some(c + " != " + StrVal(v))) &&
            (v.Bool? ==> r == Some(c + " != " + (if v.b then "1" else "0"))) &&
            (v.Text? && !StartsWith(key, '#') ==> r == Some(c + " != " + cfg.quote(v.s))) &&
            (v.Text? && StartsWith(key, '#') && IsFnCall(v.s) ==> r == Some(c + " != " + v.s))
  {
  }

  /** `[<>]` and `[><]`: a BETWEEN on the array's first two elements, bare when
      both are numeric and quoted otherwise; no condition for a non-array. */
  lemma RangeOperator(cfg: Config, key: string, v: Value)
    requires ParseKey(key).op == Some("<>") || ParseKey(key).op == Some("><")
    ensures var c := QuoteColumn(cfg, ParseKey(key).column) + (if ParseKey(key).op == Some("><") then " NOT" else "");
            var r := Leaf(cfg, StrKey(key), v);
            (!v.Arr? ==> r == None) &&
            (v.Arr? ==>
               var a := Get(v.entries, IntKey(0));
               var b := Get(v.entries, IntKey(1));
               r == Some(if IsNumeric(a) && IsNumeric(b)
                         then "(" + c + " BETWEEN " + StrVal(a) + " AND " + StrVal(b) + ")"
                         else "(" + c + " BETWEEN " + PdoQuote(cfg, a) + " AND " + PdoQuote(cfg, b) + ")"))
  {
  }

  lemma {:induction false} LikeFragmentsAt(cfg: Config, key: string, col: string, negated: bool, items: seq<Value>, j: nat)
    requires j < |items|
    ensures LikeFragments(cfg, key, col, negated, items)[j] == LikeFragment(cfg, key, col, negated, items[j])
    decreases |items|
  {
    if j < |items| - 1 {
      assert items[..|items| - 1][j] == items[j];
      LikeFragmentsAt(cfg, key, col, negated, items[..|items| - 1], j);
    }
  }

  /** `[~]` and `[!~]`: one LIKE per item, joined by ` OR `. */
  lemma LikeOperator(cfg: Config, key: string, v: Value)
    requires ParseKey(key).op == Some("~") || ParseKey(key).op == Some("!~")
    ensures var negated := ParseKey(key).op == Some("!~");
            var c := QuoteColumn(cfg, ParseKey(key).column);
            var items := LikeItems(v);
            var fs := LikeFragments(cfg, key, c, negated, items);
            Leaf(cfg, StrKey(key), v) == Some(Join(fs, " OR ")) &&
            |fs| == |items| &&
            forall j :: 0 <= j < |items| ==>
              fs[j] == c + (if negated then " NOT" else "") + " LIKE " + QuoteFn(cfg, key, LikePattern(StrVal(items[j])))
  {
    var negated := ParseKey(key).op == Some("!~");
    var c := QuoteColumn(cfg, ParseKey(key).column);
    var items := LikeItems(v);
    LeafLike(cfg, StrKey(key), v);
    assert KeyStr(StrKey(key)) == key;
    forall j | 0 <= j < |items|
      ensures LikeFragments(cfg, key, c, negated, items)[j]
           == c + (if negated then " NOT" else "") + " LIKE " + QuoteFn(cfg, key, LikePattern(StrVal(items[j])))
    {
      LikeFragmentsAt(cfg, key, c, negated, items, j);
    }
  }

  /** `>`, `>=`, `<`, `<=`: a number is written bare, anything else is quoted
      unless the key is raw. */
  lemma ComparisonOperator(cfg: Config, key: string, v: Value)
    requires ParseKey(key).op.Some? && ParseKey(key).op.value in {">", ">=", "<", "<="}
    ensures var op := ParseKey(key).op.value;
            var c := QuoteColumn(cfg, ParseKey(key).column);
            var r := Leaf(cfg, StrKey(key), v);
            (IsNumeric(v) ==> r == Some(c + " " + op + " " + StrVal(v))) &&
            (!IsNumeric(v) && !StartsWith(key, '#') ==> r == Some(c + " " + op + " " + PdoQuote(cfg, v)))
  {
    var op := ParseKey(key).op.value;
    var c := QuoteColumn(cfg, ParseKey(key).column);
    assert op != "!" && op != "<>" && op != "><" && op != "~" && op != "!~";
    assert Leaf(cfg, StrKey(key), v) == Some(Comparison(cfg, key, c, op, v));
  }

  /** A final `_` becomes `%`. */
  lemma LikeTrailingUnderscore(s: string)
    ensures LikePattern(s + "_") == s + "%"
  {
    assert (s + "_")[..|s|] == s;
  }

  /** A final `%` is moved to the front. */
  lemma LikeTrailingPercent(s: string)
    ensures LikePattern(s + "%") == "%" + s
  {
    assert (s + "%")[..|s|] == s;
  }

  /** A single-line pattern that neither starts with `%`, `[`, `_` nor ends
      with `%`, `]`, `_` is wrapped in `%...%`. */
  lemma LikeWrapsPlain(s: string)
    requires |s| > 0 && '\n' !in s
    requires s[0] !in {'%', '[', '_'} && s[|s| - 1] !in {'%', ']', '_'}
    ensures LikePattern(s) == "%" + s + "%"
  {
  }

  /** A pattern that starts with `%`, `[` or `_` and does not end with `_` or
      `%` is kept as it is. */
  lemma LikeKeepsAnchored(s: string)
    requires |s| > 0 && s[0] in {'%', '[', '_'} && s[|s| - 1] !in {'%', '_'}
    ensures LikePattern(s) == s
  {
  }

  /** The guard as written differs from the mirrored guard exactly on patterns
      that start with `_` but not with `_]`: those are wrapped as written. */
  lemma LikeGuardAsWrittenDiffers(s: string)
    ensures LikeWrap(s) ==> LikeWrapAsWritten(s)
    ensures LikeWrapAsWritten(s) && !LikeWrap(s) <==>
            LikeWrapAsWritten(s) && StartsWith(s, '_')
  {
  }

  /** The input that shows it: `_a` is wrapped into `%_a%` by the guard as written. */
  lemma LikeGuardAsWrittenExample()
    ensures LikeWrapAsWritten("_a") && !LikeWrap("_a")
    ensures LikePattern("_a") == "_a"
  {
    var s := "_a";
    assert s[..2] == s && s[1] == 'a';
  }

  /** `AND`, `OR`, and those words followed by ` #comment`, name groups. */
  lemma GroupRelationOf(w: string, comment: string)
    requires w in {"AND", "OR", "and", "or"}
    requires '\n' !in comment
    ensures GroupRelation(StrKey(w)) == Some(w)
    ensures GroupRelation(StrKey(w + " #" + comment)) == Some(w)
  {
    var n := |w|;
    assert w[..n] == w;
    assert n == 2 || n == 3;
    assert n == 3 ==> w[n..] == "";
    var k := w + " #" + comment;
    var rest := k[|w|..];
    assert rest == " #" + comment;
    assert SpaceRun(rest, 0) == 1 by {
      assert IsSpace(rest[0]) && !IsSpace(rest[1]);
    }
    assert rest[2..] == comment;
    assert k[..|w|] == w;
  }

  /** The fragments an entry adds to its level. */
  function Added(f: Option<string>): seq<string>
  {
    if f.Some? then [f.value] else []
  }

  lemma FragmentsLast(cfg: Config, es: seq<Entry>, conj: string)
    requires |es| > 0
    ensures Fragments(cfg, es, conj) == Fragments(cfg, es[..|es| - 1], conj) + Added(Fragment(cfg, es[|es| - 1], conj))
  {
  }

  /** Fragments of a concatenation are the concatenated fragments. */
  lemma {:induction false} FragmentsAppend(cfg: Config, a: seq<Entry>, b: seq<Entry>, conj: string)
    ensures Fragments(cfg, a + b, conj) == Fragments(cfg, a, conj) + Fragments(cfg, b, conj)
    decreases |b|
  {
    if |b| == 0 {
      assert a + b == a;
    } else {
      var ab := a + b;
      var b' := b[..|b| - 1];
      assert ab[..|ab| - 1] == a + b';
      assert ab[|ab| - 1] == b[|b| - 1];
      var last := Added(Fragment(cfg, b[|b| - 1], conj));
      FragmentsLast(cfg, ab, conj);
      FragmentsLast(cfg, b, conj);
      FragmentsAppend(cfg, a, b', conj);
      assert Fragments(cfg, ab, conj) == Fragments(cfg, a, conj) + Fragments(cfg, b', conj) + last;
    }
  }

  /** The conditions of one level are joined with the conjunctor and a space:
      compiling `a + b` joins the compilation of `a` and of `b`. */
  lemma ConditionsAppend(cfg: Config, a: seq<Entry>, b: seq<Entry>, conj: string)
    requires Conditions(cfg, Arr(a), conj) != "" && Conditions(cfg, Arr(b), conj) != ""
    ensures Conditions(cfg, Arr(a + b), conj)
         == Conditions(cfg, Arr(a), conj) + conj + " " + Conditions(cfg, Arr(b), conj)
  {
    FragmentsAppend(cfg, a, b, conj);
    JoinAppend(Fragments(cfg, a, conj), Fragments(cfg, b, conj), conj + " ");
  }

  /** A level with one entry is that entry's condition. */
  lemma ConditionsSingle(cfg: Config, e: Entry, conj: string)
    requires Fragment(cfg, e, conj).Some?
    ensures Conditions(cfg, Arr([e]), conj) == Fragment(cfg, e, conj).value
  {
    var one := [e];
    assert one[..0] == [];
    FragmentsLast(cfg, one, conj);
    assert Fragments(cfg, one, conj) == [Fragment(cfg, e, conj).value];
  }

  /** A group whose value is an associative array is compiled with the group's
      own conjunctor and parenthesised once. */
  lemma GroupOfMap(cfg: Config, k: Key, es: seq<Entry>, conj: string)
    requires GroupRelation(k).Some? && !IsList(es)
    ensures Conditions(cfg, Arr([Entry(k, Arr(es))]), conj)
         == "(" + Conditions(cfg, Arr(es), " " + GroupRelation(k).value) + ")"
  {
    ConditionsSingle(cfg, Entry(k, Arr(es)), conj);
  }

  lemma {:induction false} InnerItemsAt(cfg: Config, es: seq<Entry>, conj: string, j: nat)
    requires j < |es|
    ensures InnerItems(cfg, es, conj)[j] == InnerItem(cfg, es[j], conj)
    decreases |es|
  {
    if j < |es| - 1 {
      assert es[..|es| - 1][j] == es[j];
      InnerItemsAt(cfg, es[..|es| - 1], conj, j);
    }
  }

  /** A group whose value is a 0-based list compiles and parenthesises each
      element on its own and joins them with the enclosing conjunctor. */
  lemma GroupOfList(cfg: Config, k: Key, es: seq<Entry>, conj: string)
    requires GroupRelation(k).Some? && IsList(es)
    ensures var items := InnerItems(cfg, es, " " + GroupRelation(k).value);
            Conditions(cfg, Arr([Entry(k, Arr(es))]), conj) == "(" + Join(items, conj + " ") + ")" &&
            |items| == |es| &&
            forall j :: 0 <= j < |es| ==> items[j] == "(" + Conditions(cfg, es[j].val, " " + GroupRelation(k).value) + ")"
  {
    ConditionsSingle(cfg, Entry(k, Arr(es)), conj);
    forall j | 0 <= j < |es|
      ensures InnerItems(cfg, es, " " + GroupRelation(k).value)[j]
           == "(" + Conditions(cfg, es[j].val, " " + GroupRelation(k).value) + ")"
    {
      InnerItemsAt(cfg, es, " " + GroupRelation(k).value, j);
    }
  }
}
