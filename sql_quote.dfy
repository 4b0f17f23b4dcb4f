/** Identifier and value quoting of the Medoo query builder: ANSI double
    quotes around identifiers, a table prefix, and the driver's own string
    quoting for values. */
module SqlQuote {
  import opened Wrappers
  import opened Strings
  import opened Php

  /** What a builder instance knows: the table prefix, the driver name
      (`pgsql`, `mysql`, ...), the driver's `PDO::quote` and the JSON encoder.
      The last two are foreign and stay uninterpreted. */
  datatype Config = Config(prefix: string, dialect: string, quote: string -> string, json: Value -> string)

  predicate StartsWith(s: string, c: char)
  {
    |s| > 0 && s[0] == c
  }

  /** `PDO::quote($v)`: scalars are converted to text first; an array is
      refused by the driver, which leaves an empty string in the query. */
  function PdoQuote(cfg: Config, v: Value): string
  {
    if v.Arr? then "" else cfg.quote(StrVal(v))
  }

  /** `quoteTable`: `t` becomes `"<prefix>t"`, and `db.t` becomes `"db"."<prefix>t"`. */
  function QuoteTable(cfg: Config, t: string): string
  {
    if '.' in t then "\"" + ReplaceAll(t, ".", "\".\"" + cfg.prefix) + "\""
    else "\"" + cfg.prefix + t + "\""
  }

  /** `quoteColumn` once a leading `#` is gone. A `.` right at the end reads
      an offset past the string, which is not `*`. */
  function QuoteColumnBody(cfg: Config, s: string): string
  {
    if s == "*" then "*"
    else
      var p := FirstIndex(s, '.');
      if p < |s| then
        if p + 1 < |s| && s[p + 1] == '*' then QuoteTable(cfg, s[..p]) + ".*"
        else "\"" + cfg.prefix + ReplaceAll(s, ".", "\".\"") + "\""
      else "\"" + s + "\""
  }

  /** `quoteColumn`: one leading `#` (the raw-value marker) is dropped first. */
  function QuoteColumn(cfg: Config, s: string): string
  {
    if StartsWith(s, '#') then QuoteColumnBody(cfg, s[1..]) else QuoteColumnBody(cfg, s)
  }

  predicate IsFnNameChar(c: char)
  {
    ('A' <= c <= 'Z') || IsDigit(c) || c == '_'
  }

  /** The end of the run of characters satisfying `p` that starts at `i`. */
  function Run(s: string, i: nat, p: char -> bool): (j: nat)
    requires i <= |s|
    ensures i <= j <= |s|
    ensures forall k :: i <= k < j ==> p(s[k])
    ensures j < |s| ==> !p(s[j])
    decreases |s| - i
  {
    if i < |s| && p(s[i]) then Run(s, i + 1, p) else i
  }

  /** `NAME(args)` with the whole string consumed: upper-case letters, digits
      and `_`, then `(`, anything but `)`, and a final `)`. */
  predicate FnCallCore(s: string)
  {
    var j := Run(s, 0, IsFnNameChar);
    j < |s| && s[j] == '(' && |s| >= j + 2 && s[|s| - 1] == ')' && ')' !in s[j + 1..|s| - 1]
  }

  /** `preg_match('/^[A-Z0-9\_]*\([^)]*\)$/', s)`; `$` also matches before a final newline. */
  predicate IsFnCall(s: string)
  {
    FnCallCore(s) || (|s| > 0 && s[|s| - 1] == '\n' && FnCallCore(s[..|s| - 1]))
  }

  /** A function call written in the expected shape is recognised. */
  lemma FnCallShape(name: string, args: string)
    requires forall k :: 0 <= k < |name| ==> IsFnNameChar(name[k])
    requires ')' !in args
    ensures IsFnCall(name + "(" + args + ")")
  {
    var s := name + "(" + args + ")";
    RunOver(s, 0, |name|, IsFnNameChar);
    assert s[|name| + 1..|s| - 1] == args;
  }

  lemma {:induction false} RunOver(s: string, i: nat, j: nat, p: char -> bool)
    requires i <= j < |s|
    requires forall k :: i <= k < j ==> p(s[k])
    requires !p(s[j])
    ensures Run(s, i, p) == j
    decreases j - i
  {
    if i < j {
      RunOver(s, i + 1, j, p);
    }
  }

  /** `quoteFn`: a string is inserted raw only when its column is marked with
      `#` and it looks like `NAME(...)`; otherwise the driver quotes it. */
  function QuoteFn(cfg: Config, column: string, s: string): (r: string)
    ensures r == s || r == cfg.quote(s)
    ensures r != cfg.quote(s) ==> StartsWith(column, '#') && IsFnCall(s)
  {
    if StartsWith(column, '#') && IsFnCall(s) then s else cfg.quote(s)
  }

  /** `quoteValue`: the SQL literal for a value bound to `column`. */
  function QuoteValue(cfg: Config, column: string, v: Value): string
  {
    match v
    case Null => "NULL"
    case Arr(_) => cfg.quote(cfg.json(v))
    case Bool(b) => if b then "1" else "0"
    case Int(i) => IntToStr(i)
    case Float(r) => r
    case Text(s) => QuoteFn(cfg, column, s)
  }

  /** The literal for one `IN (...)` element: integers bare, everything else quoted. */
  function ListItem(cfg: Config, v: Value): string
  {
    if v.Int? then IntToStr(v.i) else PdoQuote(cfg, v)
  }

  /** The elements of `quoteArray`, in order. */
  function ListItems(cfg: Config, es: seq<Entry>): (r: seq<string>)
    ensures |r| == |es|
    ensures forall j :: 0 <= j < |es| ==> r[j] == ListItem(cfg, es[j].val)
  {
    MapSeq((e: Entry) => ListItem(cfg, e.val), es)
  }

  /** `quoteArray`, built by the source's loop over the array. */
  method QuoteArray(cfg: Config, es: seq<Entry>) returns (r: string)
    ensures r == Join(ListItems(cfg, es), ",")
  {
    var temp: seq<string> := [];
    var i := 0;
    while i < |es|
      invariant 0 <= i <= |es|
      invariant temp == ListItems(cfg, es[..i])
    {
      assert es[..i + 1][..i] == es[..i];
      temp := temp + [ListItem(cfg, es[i].val)];
      i := i + 1;
    }
    assert es[..|es|] == es;
    r := Join(temp, ",");
  }

  /** The characters of an identifier inside the alias pattern `name (alias)`. */
  predicate IsIdentChar(c: char)
  {
    ('a' <= c <= 'z') || ('A' <= c <= 'Z') || IsDigit(c) || c == '_' || c == '-'
  }

  predicate IsDottedIdentChar(c: char)
  {
    IsIdentChar(c) || c == '.'
  }

  /** An attempt of `name\s*\(alias\)` at position `i`; `dotted` allows `.` in the name. */
  function AliasAt(s: string, i: nat, dotted: bool): Option<(string, string)>
    requires i <= |s|
  {
    var n := Run(s, i, if dotted then IsDottedIdentChar else IsIdentChar);
    var w := SpaceRun(s, n);
    if w < |s| && s[w] == '(' then
      var a := Run(s, w + 1, IsIdentChar);
      if a < |s| && s[a] == ')' then Some((s[i..n], s[w + 1..a])) else None
    else None
  }

  /** `preg_match` of the alias pattern: the leftmost position where it matches. */
  function AliasMatch(s: string, i: nat, dotted: bool): (r: Option<(string, string)>)
    requires i <= |s|
    ensures r.None? ==> forall k :: i <= k <= |s| ==> AliasAt(s, k, dotted).None?
    decreases |s| - i
  {
    if AliasAt(s, i, dotted).Some? then AliasAt(s, i, dotted)
    else if i == |s| then None
    else AliasMatch(s, i + 1, dotted)
  }

  /** The aggregate shorthands a column key may name. */
  predicate IsAggregate(k: Key)
  {
    k.StrKey? && k.s in {"COUNT", "MAX", "MIN", "SUM", "AVG", "ROUND"}
  }

  /** One column of the select list: `col`, `col AS alias`, `FN(col)` or `FN(col) AS alias`. */
  function ColumnItem(cfg: Config, e: Entry): string
  {
    var text := StrVal(e.val);
    match AliasMatch(text, 0, true)
    case Some((name, alias)) =>
      var c := QuoteColumn(cfg, name);
      (if IsAggregate(e.key) then e.key.s + "(" + c + ")" else c) + " AS " + QuoteColumn(cfg, alias)
    case None =>
      var c := QuoteColumn(cfg, text);
      if IsAggregate(e.key) then e.key.s + "(" + c + ")" else c
  }

  function ColumnItems(cfg: Config, es: seq<Entry>): (r: seq<string>)
    ensures |r| == |es|
    ensures forall j :: 0 <= j < |es| ==> r[j] == ColumnItem(cfg, es[j])
  {
    MapSeq((e: Entry) => ColumnItem(cfg, e), es)
  }

  /** The entries `columnPush` iterates: a string is a one-column list, and a
      value that is neither string nor array yields nothing. */
  function ColumnEntries(columns: Value): seq<Entry>
  {
    match columns
    case Text(s) => [Entry(IntKey(0), columns)]
    case Arr(es) => es
    case _ => []
  }

  /** The select list `columnPush` produces. */
  function ColumnList(cfg: Config, columns: Value): string
  {
    if columns == Text("*") then "*" else Join(ColumnItems(cfg, ColumnEntries(columns)), ",")
  }

  /** The items of one more column entry. */
  lemma ColumnItemsStep(cfg: Config, es: seq<Entry>, i: nat)
    requires i < |es|
    ensures ColumnItems(cfg, es[..i + 1]) == ColumnItems(cfg, es[..i]) + [ColumnItem(cfg, es[i])]
  {
    assert es[..i + 1][..i] == es[..i];
  }

  /** `columnPush`, built by the source's loop over the columns. */
  method ColumnPush(cfg: Config, columns: Value) returns (r: string)
    ensures r == ColumnList(cfg, columns)
  {
    if columns == Text("*") {
      return "*";
    }
    var es := ColumnEntries(columns);
    var stack: seq<string> := [];
    var i := 0;
    while i < |es|
      invariant 0 <= i <= |es|
      invariant stack == ColumnItems(cfg, es[..i])
    {
      ColumnItemsStep(cfg, es, i);
      stack := stack + [ColumnItem(cfg, es[i])];
      i := i + 1;
    }
    assert es[..|es|] == es;
    r := Join(stack, ",");
  }

  // ---------------------------------------------------------------- lemmas

  /** Replacing the characters of `a + [c] + b` when only the middle one is `c`. */
  lemma {:induction false} ReplaceAround(a: string, c: char, b: string, rep: string)
    requires c !in a && c !in b
    ensures ReplaceAll(a + [c] + b, [c], rep) == a + rep + b
    decreases |a|
  {
    var s := a + [c] + b;
    if |a| == 0 {
      assert s[..1] == [c];
      assert s[1..] == b;
      ReplaceCharAbsent(b, c, rep);
    } else {
      assert s[0] == a[0] && a[0] != c;
      assert s[..1] != [c];
      assert s[1..] == a[1..] + [c] + b;
      ReplaceAround(a[1..], c, b, rep);
    }
  }

  /** `quoteTable("t")` is `"<prefix>t"`. */
  lemma QuoteTablePlain(cfg: Config, t: string)
    requires '.' !in t
    ensures QuoteTable(cfg, t) == "\"" + cfg.prefix + t + "\""
  {
  }

  /** `quoteTable("db.t")` is `"db"."<prefix>t"`. */
  lemma QuoteTableQualified(cfg: Config, db: string, t: string)
    requires '.' !in db && '.' !in t
    ensures QuoteTable(cfg, db + "." + t) == "\"" + db + "\".\"" + cfg.prefix + t + "\""
  {
    assert db + "." + t == db + ['.'] + t;
    ReplaceAround(db, '.', t, "\".\"" + cfg.prefix);
  }

  /** One leading `#` is ignored by `quoteColumn`. */
  lemma QuoteColumnStripsHash(cfg: Config, s: string)
    requires !StartsWith(s, '#')
    ensures QuoteColumn(cfg, "#" + s) == QuoteColumn(cfg, s)
  {
    assert ("#" + s)[1..] == s;
  }

  /** `quoteColumn("*")` is `*`. */
  lemma QuoteColumnStar(cfg: Config)
    ensures QuoteColumn(cfg, "*") == "*"
  {
  }

  /** `quoteColumn("t.*")` is `quoteTable("t").*`. */
  lemma QuoteColumnTableStar(cfg: Config, t: string)
    requires '.' !in t && !StartsWith(t, '#')
    ensures QuoteColumn(cfg, t + ".*") == QuoteTable(cfg, t) + ".*"
  {
    var s := t + ".*";
    assert s[|t|] == '.';
    assert FirstIndex(s, '.') == |t|;
    assert s[..|t|] == t;
  }

  /** `quoteColumn("t.c")` is `"<prefix>t"."c"`. */
  lemma QuoteColumnQualified(cfg: Config, t: string, c: string)
    requires '.' !in t && '.' !in c && !StartsWith(t, '#') && !StartsWith(c, '*')
    ensures QuoteColumn(cfg, t + "." + c) == "\"" + cfg.prefix + t + "\".\"" + c + "\""
  {
    var s := t + "." + c;
    assert s == t + ['.'] + c;
    assert s[|t|] == '.';
    assert FirstIndex(s, '.') == |t|;
    ReplaceAround(t, '.', c, "\".\"");
  }

  /** `quoteColumn("c")` is `"c"` for a name without `.`. */
  lemma QuoteColumnPlain(cfg: Config, c: string)
    requires '.' !in c && c != "*" && !StartsWith(c, '#')
    ensures QuoteColumn(cfg, c) == "\"" + c + "\""
  {
    assert FirstIndex(c, '.') == |c|;
  }

  /** A string bound to a `#` column and shaped like `NAME(...)` is inserted raw. */
  lemma QuoteValueRawFunction(cfg: Config, column: string, name: string, args: string)
    requires StartsWith(column, '#')
    requires forall k :: 0 <= k < |name| ==> IsFnNameChar(name[k])
    requires ')' !in args
    ensures QuoteValue(cfg, column, Text(name + "(" + args + ")")) == name + "(" + args + ")"
  {
    FnCallShape(name, args);
  }

  /** Every other string is quoted by the driver. */
  lemma QuoteValueQuotesText(cfg: Config, column: string, s: string)
    requires !StartsWith(column, '#') || !IsFnCall(s)
    ensures QuoteValue(cfg, column, Text(s)) == cfg.quote(s)
  {
  }

  /** A column written `name (alias)` in the select list becomes `"name" AS "alias"`. */
  lemma ColumnAliasShape(cfg: Config, name: string, alias: string)
    requires forall k :: 0 <= k < |name| ==> IsDottedIdentChar(name[k])
    requires forall k :: 0 <= k < |alias| ==> IsIdentChar(alias[k])
    ensures ColumnItem(cfg, Entry(IntKey(0), Text(name + " (" + alias + ")")))
         == QuoteColumn(cfg, name) + " AS " + QuoteColumn(cfg, alias)
  {
    AliasShape(name, alias);
  }

  /** The alias pattern finds `name` and `alias` in `name (alias)`. */
  lemma AliasShape(name: string, alias: string)
    requires forall k :: 0 <= k < |name| ==> IsDottedIdentChar(name[k])
    requires forall k :: 0 <= k < |alias| ==> IsIdentChar(alias[k])
    ensures AliasMatch(name + " (" + alias + ")", 0, true) == Some((name, alias))
  {
    var s := name + " (" + alias + ")";
    RunOver(s, 0, |name|, IsDottedIdentChar);
    assert SpaceRun(s, |name|) == |name| + 1 by {
      assert IsSpace(s[|name|]);
      assert !IsSpace(s[|name| + 1]);
    }
    RunOver(s, |name| + 2, |s| - 1, IsIdentChar);
    assert s[0..|name|] == name;
    assert s[|name| + 2..|s| - 1] == alias;
  }
}
