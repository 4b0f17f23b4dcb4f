/** SELECT statements of the Medoo query builder: the table and its alias,
    the JOIN list, the column list with the `FUN` shorthand, and the suffix
    clauses. */
module SqlSelect {
  import opened Wrappers
  import opened Strings
  import opened Php
  import opened SqlQuote
  import opened SqlWhere
  import opened SqlClause

  /** `$a ?? $b` on values already looked up. */
  function Coalesce(a: Value, b: Value): (r: Value)
    ensures r == Null ==> a == Null && b == Null
  {
    if a != Null then a else b
  }

  /** `getTable`: TABLE, else FROM, else SELECT. */
  function GetTable(es: seq<Entry>): Value
  {
    Coalesce(Get(es, StrKey("TABLE")), Coalesce(Get(es, StrKey("FROM")), Get(es, StrKey("SELECT"))))
  }

  /** `getColumns`: COLUMNS, else SELECT when TABLE or FROM names the table, else `*`. */
  function GetColumns(es: seq<Entry>): Value
  {
    if IsSet(es, StrKey("COLUMNS")) then Get(es, StrKey("COLUMNS"))
    else if (IsSet(es, StrKey("TABLE")) && IsSet(es, StrKey("SELECT"))) ||
            (IsSet(es, StrKey("FROM")) && IsSet(es, StrKey("SELECT")))
    then Get(es, StrKey("SELECT"))
    else Text("*")
  }

  /** The statement array: a string names just the table. Any other non-array
      value reads as an array with nothing set. */
  function SelectStruct(struct: Value): seq<Entry>
  {
    match struct
    case Text(s) => [Entry(StrKey("TABLE"), struct)]
    case Arr(es) => es
    case _ => []
  }

  /** The quoted main table, and the same with its alias for the FROM list. */
  datatype MainTable = MainTable(table: string, query: string)

  /** `name (alias)` anywhere in the table text gives an aliased table. */
  function MainTableOf(cfg: Config, t: string): MainTable
  {
    match AliasMatch(t, 0, false)
    case Some((name, alias)) =>
      MainTable(QuoteTable(cfg, name), QuoteTable(cfg, name) + " AS " + QuoteTable(cfg, alias))
    case None => MainTable(QuoteTable(cfg, t), QuoteTable(cfg, t))
  }

  // ----------------------------------------------------------------- JOIN

  /** The parts of a JOIN key `[op]name (alias)`: the operator ("" without
      one), the joined table and the optional alias. */
  datatype JoinKey = JoinKey(op: string, name: string, alias: Option<string>)

  /** The operator of `(\[(\<|\>|\>\<|\<\>)\])?` at the start, or "". */
  function JoinOp(s: string): (op: string)
    ensures op in {"", "<", ">", "><", "<>"}
    ensures op != "" ==> |s| >= |op| + 2
  {
    if |s| >= 3 && s[0] == '[' && (s[1] == '<' || s[1] == '>') && s[2] == ']' then [s[1]]
    else if |s| >= 4 && s[0] == '[' && (s[1..3] == "><" || s[1..3] == "<>") && s[3] == ']' then s[1..3]
    else ""
  }

  /** `([a-zA-Z0-9_\-]*)\s?(\(([a-zA-Z0-9_\-]*)\))?` at the start of `s`:
      the table name and the optional alias. */
  function NameAlias(s: string): (string, Option<string>)
  {
    var n := Run(s, 0, IsIdentChar);
    var sp := if n < |s| && IsSpace(s[n]) then n + 1 else n;
    var alias :=
      if sp < |s| && s[sp] == '(' then
        var a := Run(s, sp + 1, IsIdentChar);
        if a < |s| && s[a] == ')' then Some(s[sp + 1..a]) else None
      else None;
    (s[..n], alias)
  }

  /** The JOIN key pattern, which always matches at position 0. */
  function ParseJoinKey(s: string): JoinKey
  {
    var op := JoinOp(s);
    var start := if op == "" then 0 else |op| + 2;
    var (name, alias) := NameAlias(s[start..]);
    JoinKey(op, name, alias)
  }

  /** The join kind for each operator. */
  function JoinSign(op: string): string
  {
    if op == ">" then "LEFT"
    else if op == "<" then "RIGHT"
    else if op == "<>" then "FULL"
    else "INNER"
  }

  /** One `ON` pair: a `table.column` key names its own table; a bare key is a
      column of the main table. */
  function OnPair(cfg: Config, table: string, target: string, e: Entry): string
  {
    var k := KeyStr(e.key);
    var dot := FirstIndex(k, '.');
    (if 0 < dot < |k| then "\"" + cfg.prefix + ReplaceAll(k, ".", "\".\"") + "\""
     else table + ".\"" + k + "\"") +
    " = " + target + ".\"" + StrVal(e.val) + "\""
  }

  function OnPairs(cfg: Config, table: string, target: string, es: seq<Entry>): (r: seq<string>)
    ensures |r| == |es|
    ensures forall j :: 0 <= j < |es| ==> r[j] == OnPair(cfg, table, target, es[j])
  {
    MapSeq((e: Entry) => OnPair(cfg, table, target, e), es)
  }

  /** The pairs of one more entry. */
  lemma OnPairsStep(cfg: Config, table: string, target: string, es: seq<Entry>, i: nat)
    requires i < |es|
    ensures OnPairs(cfg, table, target, es[..i + 1]) ==
      OnPairs(cfg, table, target, es[..i]) + [OnPair(cfg, table, target, es[i])]
  {
    assert es[..i + 1][..i] == es[..i];
  }

  /** The values of a list, as strings. */
  function StrVals(vs: seq<Value>): (r: seq<string>)
    ensures |r| == |vs|
    ensures forall j :: 0 <= j < |vs| ==> r[j] == StrVal(vs[j])
  {
    MapSeq((v: Value) => StrVal(v), vs)
  }

  /** The table the `ON` pairs point at: the alias if there is one. */
  function JoinTarget(cfg: Config, jk: JoinKey): string
  {
    QuoteTable(cfg, if jk.alias.Some? then jk.alias.value else jk.name)
  }

  /** The join condition: `USING` for a string or a list, `ON` pairs for a map. */
  function Relation(cfg: Config, table: string, jk: JoinKey, rel: Value): string
  {
    match rel
    case Text(s) => "USING (\"" + s + "\")"
    case Arr(es) =>
      if IsSet(es, IntKey(0)) then "USING (\"" + Join(StrVals(Values(es)), "\", \"") + "\")"
      else "ON " + Join(OnPairs(cfg, table, JoinTarget(cfg, jk), es), " AND ")
    case _ => StrVal(rel)
  }

  /** `KIND JOIN "table" [AS "alias"] relation`. */
  function JoinPhrase(cfg: Config, jk: JoinKey, relation: string): string
  {
    var tableName := QuoteTable(cfg, jk.name) + " " +
      (if jk.alias.Some? then "AS " + QuoteTable(cfg, jk.alias.value) + " " else "");
    JoinSign(jk.op) + " JOIN " + tableName + relation
  }

  /** One JOIN entry, or `None` when its key has no operator or no table. */
  function JoinItem(cfg: Config, table: string, e: Entry): Option<string>
  {
    var jk := ParseJoinKey(KeyStr(e.key));
    if jk.op != "" && jk.name != "" then Some(JoinPhrase(cfg, jk, Relation(cfg, table, jk, e.val)))
    else None
  }

  function JoinItems(cfg: Config, table: string, es: seq<Entry>): seq<string>
  {
    if |es| == 0 then []
    else
      var f := JoinItem(cfg, table, es[|es| - 1]);
      JoinItems(cfg, table, es[..|es| - 1]) + (if f.Some? then [f.value] else [])
  }

  /** The entries `foreach` visits: none for a value that is not an array. */
  function EntriesOf(v: Value): seq<Entry>
  {
    if v.Arr? then v.entries else []
  }

  /** The FROM list: the main table, then the joins when JOIN is set. */
  function FromList(cfg: Config, es: seq<Entry>): string
  {
    var mt := MainTableOf(cfg, StrVal(GetTable(es)));
    if IsSet(es, StrKey("JOIN")) then mt.query + " " + Join(JoinItems(cfg, mt.table, EntriesOf(Get(es, StrKey("JOIN")))), " ")
    else mt.query
  }

  // -------------------------------------------------------------- columns

  /** The select list, wrapped in the `FUN` aggregate when one is given. */
  function SelectColumn(cfg: Config, es: seq<Entry>): string
  {
    var columns := GetColumns(es);
    if IsSet(es, StrKey("FUN")) then
      var fn := Get(es, StrKey("FUN"));
      if LooseEqualsOne(fn) then "1" else StrVal(fn) + "(" + ColumnList(cfg, columns) + ")"
    else ColumnList(cfg, columns)
  }

  /** `selectContext($struct)`. */
  function SelectText(cfg: Config, struct: Value): string
  {
    var es := SelectStruct(struct);
    "SELECT " + SelectColumn(cfg, es) + " FROM " + FromList(cfg, es) + WhereText(cfg, SuffixWhere(es))
  }

  // -------------------------------------------------------------- methods

  /** The `ON` pairs, built by the source's inner loop. */
  method OnClause(cfg: Config, table: string, target: string, es: seq<Entry>) returns (r: string)
    ensures r == "ON " + Join(OnPairs(cfg, table, target, es), " AND ")
  {
    var joins: seq<string> := [];
    var i := 0;
    while i < |es|
      invariant 0 <= i <= |es|
      invariant joins == OnPairs(cfg, table, target, es[..i])
    {
      OnPairsStep(cfg, table, target, es, i);
      joins := joins + [OnPair(cfg, table, target, es[i])];
      i := i + 1;
    }
    assert es[..|es|] == es;
    r := "ON " + Join(joins, " AND ");
  }

  /** One entry of the JOIN loop. */
  method JoinEntry(cfg: Config, table: string, e: Entry) returns (r: Option<string>)
    ensures r == JoinItem(cfg, table, e)
  {
    var jk := ParseJoinKey(KeyStr(e.key));
    if jk.op == "" || jk.name == "" {
      return None;
    }
    var relation := Relation(cfg, table, jk, e.val);
    if e.val.Arr? && !IsSet(e.val.entries, IntKey(0)) {
      relation := OnClause(cfg, table, JoinTarget(cfg, jk), e.val.entries);
    }
    r := Some(JoinPhrase(cfg, jk, relation));
  }

  /** The JOIN list, built by the source's loop. */
  method JoinClause(cfg: Config, table: string, es: seq<Entry>) returns (r: string)
    ensures r == Join(JoinItems(cfg, table, es), " ")
  {
    var join: seq<string> := [];
    var i := 0;
    while i < |es|
      invariant 0 <= i <= |es|
      invariant join == JoinItems(cfg, table, es[..i])
    {
      assert es[..i + 1][..i] == es[..i];
      var f := JoinEntry(cfg, table, es[i]);
      if f.Some? {
        join := join + [f.value];
      }
      i := i + 1;
    }
    assert es[..|es|] == es;
    r := Join(join, " ");
  }

  /** The FROM list with its joins. */
  method FromPart(cfg: Config, es: seq<Entry>) returns (tableQuery: string)
    ensures tableQuery == FromList(cfg, es)
  {
    var mt := MainTableOf(cfg, StrVal(GetTable(es)));
    if IsSet(es, StrKey("JOIN")) {
      var join := JoinClause(cfg, mt.table, EntriesOf(Get(es, StrKey("JOIN"))));
      tableQuery := mt.query + " " + join;
    } else {
      tableQuery := mt.query;
    }
  }

  /** The select list with the `FUN` shorthand. */
  method ColumnPart(cfg: Config, es: seq<Entry>) returns (column: string)
    ensures column == SelectColumn(cfg, es)
  {
    var columns := GetColumns(es);
    if IsSet(es, StrKey("FUN")) {
      var fn := Get(es, StrKey("FUN"));
      if LooseEqualsOne(fn) {
        column := "1";
      } else {
        var list := ColumnPush(cfg, columns);
        column := StrVal(fn) + "(" + list + ")";
      }
    } else {
      column := ColumnPush(cfg, columns);
    }
  }

  /** `selectContext`. */
  method SelectContext(cfg: Config, struct: Value) returns (r: string)
    ensures r == SelectText(cfg, struct)
  {
    var es := SelectStruct(struct);
    var tableQuery := FromPart(cfg, es);
    var column := ColumnPart(cfg, es);
    var suffix := SuffixClause(cfg, es);
    r := "SELECT " + column + " FROM " + tableQuery + suffix;
  }

  // --------------------------------------------------------------- lemmas

  /** SELECT names the table only when neither TABLE nor FROM does; otherwise
      it is the column list. */
  lemma SelectRoles(es: seq<Entry>)
    requires IsSet(es, StrKey("SELECT")) && !IsSet(es, StrKey("COLUMNS"))
    ensures IsSet(es, StrKey("TABLE")) || IsSet(es, StrKey("FROM")) ==> GetColumns(es) == Get(es, StrKey("SELECT"))
    ensures !IsSet(es, StrKey("TABLE")) && !IsSet(es, StrKey("FROM")) ==>
      GetTable(es) == Get(es, StrKey("SELECT")) && GetColumns(es) == Text("*")
  {
  }

  /** The operators read back from a JOIN key `[op]`. */
  lemma JoinOpOf(op: string, rest: string)
    requires op in {"<", ">", "><", "<>"}
    ensures JoinOp("[" + op + "]" + rest) == op
  {
    var s := "[" + op + "]" + rest;
    if |op| == 1 {
      assert s[0] == '[' && s[1] == op[0] && s[2] == ']';
    } else {
      assert s[0] == '[' && s[1..3] == op && s[3] == ']';
      assert s[2] != ']';
    }
  }

  /** Whatever follows a `[op]` marker is parsed as the name and alias. */
  lemma ParseJoinMarked(op: string, rest: string)
    requires op in {"<", ">", "><", "<>"}
    ensures ParseJoinKey("[" + op + "]" + rest) == JoinKey(op, NameAlias(rest).0, NameAlias(rest).1)
  {
    JoinOpOf(op, rest);
    assert ("[" + op + "]" + rest)[|op| + 2..] == rest;
  }

  lemma {:induction false} RunToEnd(s: string, i: nat)
    requires i <= |s|
    requires forall k :: i <= k < |s| ==> IsIdentChar(s[k])
    ensures Run(s, i, IsIdentChar) == |s|
    decreases |s| - i
  {
    if i < |s| {
      RunToEnd(s, i + 1);
    }
  }

  /** A bare name has no alias. */
  lemma NameAliasPlain(name: string)
    requires forall k :: 0 <= k < |name| ==> IsIdentChar(name[k])
    ensures NameAlias(name) == (name, None)
  {
    RunToEnd(name, 0);
    assert name[..|name|] == name;
  }

  /** `name(alias)` gives the name and the alias. */
  lemma NameAliasParen(name: string, alias: string)
    requires forall k :: 0 <= k < |name| ==> IsIdentChar(name[k])
    requires forall k :: 0 <= k < |alias| ==> IsIdentChar(alias[k])
    ensures NameAlias(name + "(" + alias + ")") == (name, Some(alias))
  {
    var s := name + "(" + alias + ")";
    var n := |name|;
    RunOver(s, 0, n, IsIdentChar);
    assert !IsSpace(s[n]);
    RunOver(s, n + 1, |s| - 1, IsIdentChar);
    assert s[..n] == name;
    assert s[n + 1..|s| - 1] == alias;
  }

  /** A JOIN key `[op]name` with a table name and nothing after it. */
  lemma ParseJoinPlain(op: string, name: string)
    requires op in {"<", ">", "><", "<>"}
    requires forall k :: 0 <= k < |name| ==> IsIdentChar(name[k])
    ensures ParseJoinKey("[" + op + "]" + name) == JoinKey(op, name, None)
  {
    ParseJoinMarked(op, name);
    NameAliasPlain(name);
  }

  /** A JOIN key `[op]name(alias)` names the joined table and its alias. */
  lemma ParseJoinAliased(op: string, name: string, alias: string)
    requires op in {"<", ">", "><", "<>"}
    requires forall k :: 0 <= k < |name| ==> IsIdentChar(name[k])
    requires forall k :: 0 <= k < |alias| ==> IsIdentChar(alias[k])
    ensures ParseJoinKey("[" + op + "]" + name + "(" + alias + ")") == JoinKey(op, name, Some(alias))
  {
    var rest := name + "(" + alias + ")";
    ParseJoinMarked(op, rest);
    NameAliasParen(name, alias);
    AliasedKeyText(op, name, alias);
  }

  lemma AliasedKeyText(op: string, name: string, alias: string)
    ensures "[" + op + "]" + name + "(" + alias + ")" == "[" + op + "]" + (name + "(" + alias + ")")
  {
  }

  /** The four JOIN operators and the join each one makes. */
  lemma JoinSigns()
    ensures JoinSign(">") == "LEFT" && JoinSign("<") == "RIGHT"
    ensures JoinSign("<>") == "FULL" && JoinSign("><") == "INNER"
  {
  }

  /** A JOIN key without a leading bracketed operator adds no join at all. */
  lemma JoinDropsUnmarked(cfg: Config, table: string, e: Entry)
    requires !(|KeyStr(e.key)| > 0 && KeyStr(e.key)[0] == '[')
    ensures JoinItem(cfg, table, e) == None
  {
  }

  /** `[op]name` joined on a string column uses `USING`. */
  lemma JoinUsingColumn(cfg: Config, table: string, op: string, name: string, column: string)
    requires op in {"<", ">", "><", "<>"}
    requires |name| > 0 && forall k :: 0 <= k < |name| ==> IsIdentChar(name[k])
    ensures JoinItem(cfg, table, Entry(StrKey("[" + op + "]" + name), Text(column))) ==
      Some(JoinSign(op) + " JOIN " + QuoteTable(cfg, name) + " USING (\"" + column + "\")")
  {
    JoinUsingOf(cfg, table, op, name, Text(column), column);
  }

  lemma UsingText(x: string, u: string)
    ensures x + " " + ("USING (\"" + u + "\")") == x + " USING (\"" + u + "\")"
  {
  }

  /** A relation that reads `USING ("u")` gives `KIND JOIN "name" USING ("u")`. */
  lemma JoinUsingOf(cfg: Config, table: string, op: string, name: string, rel: Value, u: string)
    requires op in {"<", ">", "><", "<>"}
    requires |name| > 0 && forall k :: 0 <= k < |name| ==> IsIdentChar(name[k])
    requires Relation(cfg, table, JoinKey(op, name, None), rel) == "USING (\"" + u + "\")"
    ensures JoinItem(cfg, table, Entry(StrKey("[" + op + "]" + name), rel)) ==
      Some(JoinSign(op) + " JOIN " + QuoteTable(cfg, name) + " USING (\"" + u + "\")")
  {
    JoinMarked(cfg, table, op, name, rel);
    UsingText(JoinSign(op) + " JOIN " + QuoteTable(cfg, name), u);
  }

  /** An unaliased join reads `KIND JOIN "name" relation`. */
  lemma PhraseUnaliased(cfg: Config, op: string, name: string, relation: string)
    ensures JoinPhrase(cfg, JoinKey(op, name, None), relation) ==
      JoinSign(op) + " JOIN " + QuoteTable(cfg, name) + " " + relation
  {
  }

  /** The entry for a key `[op]name`. */
  lemma JoinMarked(cfg: Config, table: string, op: string, name: string, rel: Value)
    requires op in {"<", ">", "><", "<>"}
    requires |name| > 0 && forall k :: 0 <= k < |name| ==> IsIdentChar(name[k])
    ensures JoinItem(cfg, table, Entry(StrKey("[" + op + "]" + name), rel)) ==
      Some(JoinSign(op) + " JOIN " + QuoteTable(cfg, name) + " " + Relation(cfg, table, JoinKey(op, name, None), rel))
  {
    ParseJoinPlain(op, name);
    PhraseUnaliased(cfg, op, name, Relation(cfg, table, JoinKey(op, name, None), rel));
  }

  /** `[op]name` joined on a list of columns uses `USING` with all of them. */
  lemma JoinUsingList(cfg: Config, table: string, op: string, name: string, es: seq<Entry>)
    requires op in {"<", ">", "><", "<>"}
    requires |name| > 0 && forall k :: 0 <= k < |name| ==> IsIdentChar(name[k])
    requires IsSet(es, IntKey(0))
    ensures JoinItem(cfg, table, Entry(StrKey("[" + op + "]" + name), Arr(es))) ==
      Some(JoinSign(op) + " JOIN " + QuoteTable(cfg, name) + " USING (\"" + Join(StrVals(Values(es)), "\", \"") + "\")")
  {
    var columns := Join(StrVals(Values(es)), "\", \"");
    assert Relation(cfg, table, JoinKey(op, name, None), Arr(es)) == "USING (\"" + columns + "\")";
    JoinUsingOf(cfg, table, op, name, Arr(es), columns);
  }

  /** `[op]name` joined on a map of columns uses `ON` pairs against the joined table. */
  lemma JoinOn(cfg: Config, table: string, op: string, name: string, es: seq<Entry>)
    requires op in {"<", ">", "><", "<>"}
    requires |name| > 0 && forall k :: 0 <= k < |name| ==> IsIdentChar(name[k])
    requires !IsSet(es, IntKey(0))
    ensures JoinItem(cfg, table, Entry(StrKey("[" + op + "]" + name), Arr(es))) ==
      Some(JoinSign(op) + " JOIN " + QuoteTable(cfg, name) + " ON " +
        Join(OnPairs(cfg, table, QuoteTable(cfg, name), es), " AND "))
  {
    var on := Join(OnPairs(cfg, table, QuoteTable(cfg, name), es), " AND ");
    JoinMarked(cfg, table, op, name, Arr(es));
    RelationOn(cfg, table, JoinKey(op, name, None), es);
    OnText(JoinSign(op) + " JOIN " + QuoteTable(cfg, name), on);
  }

  /** A map of columns relates by `ON` pairs against the join target. */
  lemma RelationOn(cfg: Config, table: string, jk: JoinKey, es: seq<Entry>)
    requires !IsSet(es, IntKey(0))
    ensures Relation(cfg, table, jk, Arr(es)) == "ON " + Join(OnPairs(cfg, table, JoinTarget(cfg, jk), es), " AND ")
  {
  }

  lemma OnText(x: string, on: string)
    ensures x + " " + ("ON " + on) == x + " ON " + on
  {
  }

  /** A bare `ON` key is a column of the main table; a `table.column` key is prefixed. */
  lemma OnPairForms(cfg: Config, table: string, target: string, k: string, t: string, c: string, v: Value)
    requires '.' !in k && '.' !in t && '.' !in c && |t| > 0
    ensures OnPair(cfg, table, target, Entry(StrKey(k), v)) ==
      table + ".\"" + k + "\" = " + target + ".\"" + StrVal(v) + "\""
    ensures OnPair(cfg, table, target, Entry(StrKey(t + "." + c), v)) ==
      "\"" + cfg.prefix + t + "\".\"" + c + "\" = " + target + ".\"" + StrVal(v) + "\""
  {
    OnPairBare(cfg, table, target, k, v);
    OnPairDotted(cfg, table, target, t, c, v);
  }

  lemma OnPairBare(cfg: Config, table: string, target: string, k: string, v: Value)
    requires '.' !in k
    ensures OnPair(cfg, table, target, Entry(StrKey(k), v)) ==
      table + ".\"" + k + "\" = " + target + ".\"" + StrVal(v) + "\""
  {
  }

  lemma OnPairDotted(cfg: Config, table: string, target: string, t: string, c: string, v: Value)
    requires '.' !in t && '.' !in c && |t| > 0
    ensures OnPair(cfg, table, target, Entry(StrKey(t + "." + c), v)) ==
      "\"" + cfg.prefix + t + "\".\"" + c + "\" = " + target + ".\"" + StrVal(v) + "\""
  {
    var s := t + "." + c;
    DotAfter(t, c);
    ReplaceAround(t, '.', c, "\".\"");
    OnPairPrefixed(cfg, table, target, s, v);
    DottedText(cfg.prefix, t, c, target, StrVal(v));
  }

  /** The first dot of `t.c` is the one after `t`. */
  lemma DotAfter(t: string, c: string)
    requires '.' !in t && |t| > 0
    ensures 0 < FirstIndex(t + "." + c, '.') == |t| < |t + "." + c|
  {
    var s := t + "." + c;
    assert s == t + ['.'] + c;
    assert s[|t|] == '.';
  }

  /** A key with a dot inside names its own table. */
  lemma OnPairPrefixed(cfg: Config, table: string, target: string, k: string, v: Value)
    requires 0 < FirstIndex(k, '.') < |k|
    ensures OnPair(cfg, table, target, Entry(StrKey(k), v)) ==
      ("\"" + cfg.prefix + ReplaceAll(k, ".", "\".\"") + "\"") + " = " + target + ".\"" + StrVal(v) + "\""
  {
  }

  lemma DottedText(p: string, t: string, c: string, target: string, value: string)
    ensures ("\"" + p + (t + "\".\"" + c) + "\"") + " = " + target + ".\"" + value + "\"" ==
      "\"" + p + t + "\".\"" + c + "\" = " + target + ".\"" + value + "\""
  {
  }

  /** Joins keep the order of the JOIN array and drop only unmarked entries. */
  lemma {:induction false} JoinItemsAppend(cfg: Config, table: string, es: seq<Entry>, e: Entry)
    ensures JoinItems(cfg, table, es + [e]) ==
      JoinItems(cfg, table, es) + (if JoinItem(cfg, table, e).Some? then [JoinItem(cfg, table, e).value] else [])
  {
    assert (es + [e])[..|es|] == es;
  }

  /** Without FUN the select list is `columnPush` of the columns; a FUN that
      equals 1 under PHP's loose comparison selects `1`, any other FUN wraps
      the columns in a call. */
  lemma SelectColumnForms(cfg: Config, es: seq<Entry>)
    ensures !IsSet(es, StrKey("FUN")) ==> SelectColumn(cfg, es) == ColumnList(cfg, GetColumns(es))
    ensures LooseEqualsOne(Get(es, StrKey("FUN"))) ==> SelectColumn(cfg, es) == "1"
    ensures IsSet(es, StrKey("FUN")) && !LooseEqualsOne(Get(es, StrKey("FUN"))) ==>
      SelectColumn(cfg, es) == StrVal(Get(es, StrKey("FUN"))) + "(" + ColumnList(cfg, GetColumns(es)) + ")"
  {
  }

  /** `FUN => "1.0"` selects `1`, as `$fn == 1` does for a numeric string
      equal to one. */
  lemma FunNumericText(cfg: Config, es: seq<Entry>)
    ensures Get(es, StrKey("FUN")) == Text("1.0") ==> SelectColumn(cfg, es) == "1"
  {
    FractionOne();
  }

  /** A statement with no WHERE and no modifiers has no suffix. */
  lemma NoSuffix(cfg: Config, es: seq<Entry>)
    requires Get(es, StrKey("WHERE")) == Null
    requires forall m :: m in Modifiers ==> Get(es, StrKey(m)) == Null
    ensures WhereText(cfg, SuffixWhere(es)) == ""
  {
    CopyNothing(es, [], Modifiers);
  }

  /** Modifiers that are not set copy nothing. */
  lemma {:induction false} CopyNothing(struct: seq<Entry>, where: seq<Entry>, names: seq<string>)
    requires forall m :: m in names ==> Get(struct, StrKey(m)) == Null
    ensures CopyModifiers(struct, where, names) == where
  {
    if |names| > 0 {
      assert forall m :: m in names[..|names| - 1] ==> m in names;
      CopyNothing(struct, where, names[..|names| - 1]);
    }
  }

  /** `selectContext("t")` selects every column of the prefixed table. */
  lemma SelectWholeTable(cfg: Config, t: string)
    requires forall k :: 0 <= k < |t| ==> t[k] != '('
    ensures SelectText(cfg, Text(t)) == "SELECT * FROM " + QuoteTable(cfg, t)
  {
    var es := [Entry(StrKey("TABLE"), Text(t))];
    assert SelectStruct(Text(t)) == es;
    TableOnlyFrom(cfg, t);
    TableOnlyColumn(cfg, t);
    TableOnlySuffix(cfg, t);
    SelectAllText(QuoteTable(cfg, t));
  }

  /** In the one-entry statement `TABLE => t`, every other key is unset. */
  lemma TableOnlyGet(t: string, k: string)
    requires k != "TABLE"
    ensures Get([Entry(StrKey("TABLE"), Text(t))], StrKey(k)) == Null
  {
    var es := [Entry(StrKey("TABLE"), Text(t))];
    assert es[1..] == [];
  }

  lemma TableOnlyFrom(cfg: Config, t: string)
    requires forall k :: 0 <= k < |t| ==> t[k] != '('
    ensures FromList(cfg, [Entry(StrKey("TABLE"), Text(t))]) == QuoteTable(cfg, t)
  {
    var es := [Entry(StrKey("TABLE"), Text(t))];
    assert Get(es, StrKey("TABLE")) == Text(t);
    assert GetTable(es) == Text(t);
    NoAliasWithoutParen(t, 0);
    TableOnlyGet(t, "JOIN");
  }

  lemma TableOnlyColumn(cfg: Config, t: string)
    ensures SelectColumn(cfg, [Entry(StrKey("TABLE"), Text(t))]) == "*"
  {
    var es := [Entry(StrKey("TABLE"), Text(t))];
    TableOnlyGet(t, "COLUMNS");
    TableOnlyGet(t, "SELECT");
    TableOnlyGet(t, "FROM");
    TableOnlyGet(t, "FUN");
    assert GetColumns(es) == Text("*");
  }

  lemma TableOnlySuffix(cfg: Config, t: string)
    ensures WhereText(cfg, SuffixWhere([Entry(StrKey("TABLE"), Text(t))])) == ""
  {
    var es := [Entry(StrKey("TABLE"), Text(t))];
    TableOnlyGet(t, "WHERE");
    TableOnlyGet(t, "GROUP");
    TableOnlyGet(t, "ORDER");
    TableOnlyGet(t, "LIMIT");
    TableOnlyGet(t, "HAVING");
    assert forall m :: m in Modifiers ==> Get(es, StrKey(m)) == Null;
    NoSuffix(cfg, es);
  }

  lemma SelectAllText(q: string)
    ensures "SELECT " + "*" + " FROM " + q + "" == "SELECT * FROM " + q
  {
  }

  /** No `(`, no alias. */
  lemma {:induction false} NoAliasWithoutParen(t: string, i: nat)
    requires i <= |t|
    requires forall k :: 0 <= k < |t| ==> t[k] != '('
    ensures AliasMatch(t, i, false).None?
    decreases |t| - i
  {
    if i < |t| {
      NoAliasWithoutParen(t, i + 1);
    }
  }
}
