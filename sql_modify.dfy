/** INSERT, UPDATE, DELETE and REPLACE statements of the Medoo query builder:
    the SQL text each one sends to the driver. */
module SqlModify {
  import opened Wrappers
  import opened Strings
  import opened Php
  import opened SqlQuote
  import opened SqlWhere
  import opened SqlClause
  import opened SqlSelect

  // ------------------------------------------------------- INSERT keyword

  /** The modifiers an INSERT keyword may carry in its second word. */
  const InsertModifiers: set<string> := {"LOW_PRIORITY", "DELAYED", "IGNORE"}

  /** The keyword words after the source's clean-up: the verb, then a
      modifier (or nothing), then `IGNORE` (or nothing). */
  function KeywordWords(parts: seq<string>): (w: seq<string>)
    requires 1 <= |parts| <= 3
    ensures |w| == |parts|
    ensures w[0] == "INSERT" || w[0] == "REPLACE"
    ensures |w| > 1 ==> w[1] == "" || w[1] in InsertModifiers
    ensures |w| > 2 ==> w[2] == "" || (w[2] == "IGNORE" && w[1] != "IGNORE")
    ensures w[0] == "REPLACE" <==> parts[0] == "REPLACE"
  {
    var first := if parts[0] != "REPLACE" then "INSERT" else "REPLACE";
    var p := [first] + parts[1..];
    var p2 := if |p| > 1 && p[1] !in InsertModifiers then p[1 := ""] else p;
    if |p2| > 2 && (p2[1] == p2[2] || p2[2] != "IGNORE") then p2[2 := ""] else p2
  }

  /** The INSERT keyword actually used for a requested one. */
  function InsertKeyword(s: string): string
  {
    if ' ' in s then
      var parts := Split(Trim(s, IsTrimChar), ' ');
      if |parts| > 3 then "INSERT" else Trim(Join(KeywordWords(parts), " "), IsTrimChar)
    else if s != "REPLACE" then "INSERT"
    else "REPLACE"
  }

  /** What may follow the verb of a normalised keyword. */
  const KeywordTails: set<string> :=
    {"", " LOW_PRIORITY", " DELAYED", " IGNORE", "  IGNORE", " LOW_PRIORITY IGNORE", " DELAYED IGNORE"}

  /** `INSERT` or `REPLACE`, followed by one of the allowed modifier tails. */
  predicate IsInsertKeyword(r: string)
  {
    (|r| >= 6 && r[..6] == "INSERT" && r[6..] in KeywordTails) ||
    (|r| >= 7 && r[..7] == "REPLACE" && r[7..] in KeywordTails)
  }

  // ---------------------------------------------------------- INSERT rows

  /** The rows `insertContext` iterates: the values of a list (an array with
      key 0), else the data itself as one row. A non-empty string has a
      character at offset 0, so it is kept, and iterating it yields no row. */
  function InsertRows(datas: Value): seq<Value>
  {
    match datas
    case Arr(es) => if IsSet(es, IntKey(0)) then Values(es) else [datas]
    case Text(s) => if |s| > 0 then [] else [datas]
    case _ => [datas]
  }

  /** `$datas[0]` after the wrapping, whose keys name the columns of a
      multi-row insert. */
  function ZeroRow(datas: Value): Value
  {
    match datas
    case Arr(es) => if IsSet(es, IntKey(0)) then Get(es, IntKey(0)) else datas
    case Text(s) => if |s| > 0 then Text([s[0]]) else datas
    case _ => datas
  }

  function InsertColumns(cfg: Config, es: seq<Entry>): (r: seq<string>)
    ensures |r| == |es|
    ensures forall j :: 0 <= j < |es| ==> r[j] == QuoteColumn(cfg, KeyStr(es[j].key))
  {
    MapSeq((e: Entry) => QuoteColumn(cfg, KeyStr(e.key)), es)
  }

  function InsertValues(cfg: Config, es: seq<Entry>): (r: seq<string>)
    ensures |r| == |es|
    ensures forall j :: 0 <= j < |es| ==> r[j] == QuoteValue(cfg, KeyStr(es[j].key), es[j].val)
  {
    MapSeq((e: Entry) => QuoteValue(cfg, KeyStr(e.key), e.val), es)
  }

  /** The statement for one row. */
  function InsertRow(cfg: Config, keyword: string, table: string, row: Value): string
  {
    var es := EntriesOf(row);
    keyword + " INTO " + QuoteTable(cfg, table) + " (" + Join(InsertColumns(cfg, es), ", ") +
    ") VALUES (" + Join(InsertValues(cfg, es), ", ") + ")"
  }

  /** One statement per row, in order. */
  function InsertStatements(cfg: Config, keyword: string, table: string, rows: seq<Value>): (r: seq<string>)
    ensures |r| == |rows|
    ensures forall j :: 0 <= j < |rows| ==> r[j] == InsertRow(cfg, keyword, table, rows[j])
  {
    MapSeq((row: Value) => InsertRow(cfg, keyword, table, row), rows)
  }

  function ValueTuple(cfg: Config, row: Value): string
  {
    "(" + Join(InsertValues(cfg, EntriesOf(row)), ", ") + ")"
  }

  function ValueTuples(cfg: Config, rows: seq<Value>): (r: seq<string>)
    ensures |r| == |rows|
    ensures forall j :: 0 <= j < |rows| ==> r[j] == ValueTuple(cfg, rows[j])
  {
    MapSeq((row: Value) => ValueTuple(cfg, row), rows)
  }

  /** The single statement of a multi-row insert: the columns of row 0 and a
      value tuple per row. */
  function MultiInsertText(cfg: Config, keyword: string, table: string, datas: Value): string
  {
    keyword + " INTO " + QuoteTable(cfg, table) + " (" +
    Join(InsertColumns(cfg, EntriesOf(ZeroRow(datas))), ", ") + ") VALUES " +
    Join(ValueTuples(cfg, InsertRows(datas)), ", ")
  }

  /** A list of statements, or the one statement of a multi-row insert. */
  datatype InsertSql = Statements(sqls: seq<string>) | Statement(sql: string)

  /** The table, rows and requested keyword once an array form is unpacked. */
  datatype InsertArgs = InsertArgs(table: string, datas: Value, keyword: string)

  function InsertInput(table: Value, datas: Value, keyword: string): InsertArgs
  {
    if table.Arr? then
      var t := table.entries;
      var d := Coalesce(Get(t, StrKey("VALUES")), Get(t, StrKey("SET")));
      var name := Coalesce(Get(t, StrKey("FROM")), Coalesce(Get(t, StrKey("TABLE")), Get(t, StrKey("INSERT"))));
      InsertArgs(StrVal(name), d, if d.Text? then d.s else keyword)
    else InsertArgs(StrVal(table), datas, keyword)
  }

  /** `insertContext($table, $datas, $INSERT, $multi)`. */
  function InsertText(cfg: Config, table: Value, datas: Value, keyword: string, multi: bool): InsertSql
  {
    var a := InsertInput(table, datas, keyword);
    var kw := InsertKeyword(a.keyword);
    if multi then Statement(MultiInsertText(cfg, kw, a.table, a.datas))
    else Statements(InsertStatements(cfg, kw, a.table, InsertRows(a.datas)))
  }

  // --------------------------------------------------------------- UPDATE

  /** `/([\w]+)(\[(\+|\-|\*|\/)\])?/` on a data key: the column and operator
      when the first word is followed by an arithmetic marker. */
  function ArithKey(k: string): (r: Option<(string, char)>)
    ensures r.Some? ==> |r.value.0| > 0 && r.value.1 in "+-*/"
  {
    var i := Find(k, 0, IsWordChar);
    if i == |k| then None
    else
      var n := Run(k, i, IsWordChar);
      if n + 2 < |k| && k[n] == '[' && k[n + 1] in "+-*/" && k[n + 2] == ']' then Some((k[i..n], k[n + 1]))
      else None
  }

  /** One assignment of the SET list, or `None` for an arithmetic update by a
      value that is not numeric. */
  function UpdateField(cfg: Config, e: Entry): Option<string>
  {
    var k := KeyStr(e.key);
    match ArithKey(k)
    case Some((c, op)) =>
      if IsNumeric(e.val) then Some(QuoteColumn(cfg, c) + " = " + QuoteColumn(cfg, c) + " " + [op] + " " + StrVal(e.val))
      else None
    case None => Some(QuoteColumn(cfg, k) + " = " + QuoteValue(cfg, k, e.val))
  }

  function UpdateFields(cfg: Config, es: seq<Entry>): seq<string>
  {
    if |es| == 0 then []
    else
      var f := UpdateField(cfg, es[|es| - 1]);
      UpdateFields(cfg, es[..|es| - 1]) + (if f.Some? then [f.value] else [])
  }

  /** The SQL of `update($table, $data, $where)`. */
  function UpdateText(cfg: Config, table: Value, data: Value, where: Value): string
  {
    if table.Arr? then
      var t := table.entries;
      var d := Coalesce(Get(t, StrKey("SET")), Get(t, StrKey("VALUES")));
      var name := Coalesce(Get(t, StrKey("FROM")), Coalesce(Get(t, StrKey("TABLE")), Get(t, StrKey("UPDATE"))));
      "UPDATE " + QuoteTable(cfg, StrVal(name)) + " SET " + Join(UpdateFields(cfg, EntriesOf(d)), ", ") +
      WhereText(cfg, SuffixWhere(t))
    else
      "UPDATE " + QuoteTable(cfg, StrVal(table)) + " SET " + Join(UpdateFields(cfg, EntriesOf(data)), ", ") +
      WhereText(cfg, where)
  }

  // --------------------------------------------------------------- DELETE

  /** The SQL of `delete($table, $where)`. */
  function DeleteText(cfg: Config, table: Value, where: Value): string
  {
    if table.Arr? then
      var t := table.entries;
      var name := Coalesce(Get(t, StrKey("FROM")), Coalesce(Get(t, StrKey("TABLE")), Get(t, StrKey("DELETE"))));
      "DELETE FROM " + QuoteTable(cfg, StrVal(name)) + WhereText(cfg, SuffixWhere(t))
    else "DELETE FROM " + QuoteTable(cfg, StrVal(table)) + WhereText(cfg, where)
  }

  // -------------------------------------------------------------- REPLACE

  /** `column = REPLACE("column", 'search', 'replacement')`, both values
      through `quote`, which is `PDO::quote`. */
  function ReplaceItem(cfg: Config, column: string, search: Value, replacement: Value): string
  {
    column + " = REPLACE(" + QuoteColumn(cfg, column) + ", " + PdoQuote(cfg, search) + ", " + PdoQuote(cfg, replacement) + ")"
  }

  /** The replacements of one column, one per search/replacement pair. */
  function ReplacePairs(cfg: Config, column: string, es: seq<Entry>): (r: seq<string>)
    ensures |r| == |es|
    ensures forall j :: 0 <= j < |es| ==> r[j] == ReplaceItem(cfg, column, Text(KeyStr(es[j].key)), es[j].val)
  {
    MapSeq((e: Entry) => ReplaceItem(cfg, column, Text(KeyStr(e.key)), e.val), es)
  }

  /** The replacements of every column, in order. */
  function ReplaceColumns(cfg: Config, cs: seq<Entry>): seq<string>
  {
    if |cs| == 0 then []
    else ReplaceColumns(cfg, cs[..|cs| - 1]) + ReplacePairs(cfg, KeyStr(cs[|cs| - 1].key), EntriesOf(cs[|cs| - 1].val))
  }

  /** The SQL of `replace($table, $columns, $search, $replace, $where)`. With
      an array of columns the WHERE is the third argument; with an array of
      pairs it is the fourth. */
  function ReplaceText(cfg: Config, table: string, columns: Value, search: Value, replace: Value, where: Value): string
  {
    var head := "UPDATE " + QuoteTable(cfg, table) + " SET ";
    if columns.Arr? then head + Join(ReplaceColumns(cfg, columns.entries), ", ") + WhereText(cfg, search)
    else if search.Arr? then head + Join(ReplacePairs(cfg, StrVal(columns), search.entries), ", ") + WhereText(cfg, replace)
    else head + ReplaceItem(cfg, StrVal(columns), search, replace) + WhereText(cfg, where)
  }

  // -------------------------------------------------------------- methods

  /** The column and value lists of one row, built together as the source does. */
  method RowLists(cfg: Config, es: seq<Entry>) returns (columns: seq<string>, values: seq<string>)
    ensures columns == InsertColumns(cfg, es)
    ensures values == InsertValues(cfg, es)
  {
    columns := [];
    values := [];
    var i := 0;
    while i < |es|
      invariant 0 <= i <= |es|
      invariant columns == InsertColumns(cfg, es[..i])
      invariant values == InsertValues(cfg, es[..i])
    {
      assert es[..i + 1][..i] == es[..i];
      columns := columns + [QuoteColumn(cfg, KeyStr(es[i].key))];
      values := values + [QuoteValue(cfg, KeyStr(es[i].key), es[i].val)];
      i := i + 1;
    }
    assert es[..|es|] == es;
  }

  /** The value tuple of one row of a multi-row insert. */
  method RowTuple(cfg: Config, row: Value) returns (t: string)
    ensures t == ValueTuple(cfg, row)
  {
    var es := EntriesOf(row);
    var sub: seq<string> := [];
    var i := 0;
    while i < |es|
      invariant 0 <= i <= |es|
      invariant sub == InsertValues(cfg, es[..i])
    {
      assert es[..i + 1][..i] == es[..i];
      sub := sub + [QuoteValue(cfg, KeyStr(es[i].key), es[i].val)];
      i := i + 1;
    }
    assert es[..|es|] == es;
    t := "(" + Join(sub, ", ") + ")";
  }

  /** The value tuples of a multi-row insert, one per row. */
  method TupleList(cfg: Config, rows: seq<Value>) returns (values: seq<string>)
    ensures values == ValueTuples(cfg, rows)
  {
    values := [];
    var i := 0;
    while i < |rows|
      invariant 0 <= i <= |rows|
      invariant values == ValueTuples(cfg, rows[..i])
    {
      assert rows[..i + 1][..i] == rows[..i];
      var t := RowTuple(cfg, rows[i]);
      values := values + [t];
      i := i + 1;
    }
    assert rows[..|rows|] == rows;
  }

  /** A multi-row insert. */
  method MultiInsert(cfg: Config, keyword: string, table: string, datas: Value) returns (sql: string)
    ensures sql == MultiInsertText(cfg, keyword, table, datas)
  {
    var values := TupleList(cfg, InsertRows(datas));
    var columns := Join(InsertColumns(cfg, EntriesOf(ZeroRow(datas))), ", ");
    sql := keyword + " INTO " + QuoteTable(cfg, table) + " (" + columns + ") VALUES " + Join(values, ", ");
  }

  /** The statements of one more row. */
  lemma InsertStatementsStep(cfg: Config, keyword: string, table: string, rows: seq<Value>, i: nat)
    requires i < |rows|
    ensures InsertStatements(cfg, keyword, table, rows[..i + 1]) ==
      InsertStatements(cfg, keyword, table, rows[..i]) + [InsertRow(cfg, keyword, table, rows[i])]
  {
    assert rows[..i + 1][..i] == rows[..i];
  }

  /** One statement per row. */
  method RowInserts(cfg: Config, keyword: string, table: string, rows: seq<Value>) returns (sql: seq<string>)
    ensures sql == InsertStatements(cfg, keyword, table, rows)
  {
    sql := [];
    var i := 0;
    while i < |rows|
      invariant 0 <= i <= |rows|
      invariant sql == InsertStatements(cfg, keyword, table, rows[..i])
    {
      InsertStatementsStep(cfg, keyword, table, rows, i);
      var columns, values := RowLists(cfg, EntriesOf(rows[i]));
      sql := sql + [keyword + " INTO " + QuoteTable(cfg, table) + " (" + Join(columns, ", ") +
        ") VALUES (" + Join(values, ", ") + ")"];
      i := i + 1;
    }
    assert rows[..|rows|] == rows;
  }

  /** `insertContext`. */
  method InsertContext(cfg: Config, table: Value, datas: Value, keyword: string, multi: bool) returns (r: InsertSql)
    ensures r == InsertText(cfg, table, datas, keyword, multi)
  {
    var a := InsertInput(table, datas, keyword);
    var kw := InsertKeyword(a.keyword);
    if multi {
      var sql := MultiInsert(cfg, kw, a.table, a.datas);
      r := Statement(sql);
    } else {
      var sql := RowInserts(cfg, kw, a.table, InsertRows(a.datas));
      r := Statements(sql);
    }
  }

  /** The SET list of an update. */
  method SetList(cfg: Config, es: seq<Entry>) returns (r: string)
    ensures r == Join(UpdateFields(cfg, es), ", ")
  {
    var fields: seq<string> := [];
    var i := 0;
    while i < |es|
      invariant 0 <= i <= |es|
      invariant fields == UpdateFields(cfg, es[..i])
    {
      assert es[..i + 1][..i] == es[..i];
      var f := UpdateField(cfg, es[i]);
      if f.Some? {
        fields := fields + [f.value];
      }
      i := i + 1;
    }
    assert es[..|es|] == es;
    r := Join(fields, ", ");
  }

  /** The SQL `update` executes. */
  method Update(cfg: Config, table: Value, data: Value, where: Value) returns (sql: string)
    ensures sql == UpdateText(cfg, table, data, where)
  {
    var d := data;
    var name := table;
    var w: string;
    if table.Arr? {
      var t := table.entries;
      d := Coalesce(Get(t, StrKey("SET")), Get(t, StrKey("VALUES")));
      w := SuffixClause(cfg, t);
      name := Coalesce(Get(t, StrKey("FROM")), Coalesce(Get(t, StrKey("TABLE")), Get(t, StrKey("UPDATE"))));
    } else {
      w := WhereClause(cfg, where);
    }
    var fields := SetList(cfg, EntriesOf(d));
    sql := "UPDATE " + QuoteTable(cfg, StrVal(name)) + " SET " + fields + w;
  }

  /** The SQL `delete` executes. */
  method Delete(cfg: Config, table: Value, where: Value) returns (sql: string)
    ensures sql == DeleteText(cfg, table, where)
  {
    var name := table;
    var w: string;
    if table.Arr? {
      var t := table.entries;
      w := SuffixClause(cfg, t);
      name := Coalesce(Get(t, StrKey("FROM")), Coalesce(Get(t, StrKey("TABLE")), Get(t, StrKey("DELETE"))));
    } else {
      w := WhereClause(cfg, where);
    }
    sql := "DELETE FROM " + QuoteTable(cfg, StrVal(name)) + w;
  }

  /** The replacements of one more pair. */
  lemma ReplacePairsStep(cfg: Config, column: string, es: seq<Entry>, i: nat)
    requires i < |es|
    ensures ReplacePairs(cfg, column, es[..i + 1]) ==
      ReplacePairs(cfg, column, es[..i]) + [ReplaceItem(cfg, column, Text(KeyStr(es[i].key)), es[i].val)]
  {
    assert es[..i + 1][..i] == es[..i];
  }

  /** The replacements of one more column. */
  lemma ReplaceColumnsStep(cfg: Config, cs: seq<Entry>, i: nat)
    requires i < |cs|
    ensures ReplaceColumns(cfg, cs[..i + 1]) ==
      ReplaceColumns(cfg, cs[..i]) + ReplacePairs(cfg, KeyStr(cs[i].key), EntriesOf(cs[i].val))
  {
    assert cs[..i + 1][..i] == cs[..i];
  }

  /** The replacements of one column, built by the inner loop. */
  method ReplaceColumn(cfg: Config, column: string, es: seq<Entry>) returns (r: seq<string>)
    ensures r == ReplacePairs(cfg, column, es)
  {
    r := [];
    var i := 0;
    while i < |es|
      invariant 0 <= i <= |es|
      invariant r == ReplacePairs(cfg, column, es[..i])
    {
      ReplacePairsStep(cfg, column, es, i);
      r := r + [ReplaceItem(cfg, column, Text(KeyStr(es[i].key)), es[i].val)];
      i := i + 1;
    }
    assert es[..|es|] == es;
  }

  /** The SQL `replace` executes. */
  method Replace(cfg: Config, table: string, columns: Value, search: Value, replace: Value, where: Value)
    returns (sql: string)
    ensures sql == ReplaceText(cfg, table, columns, search, replace, where)
  {
    var query: string;
    var w := where;
    if columns.Arr? {
      var cs := columns.entries;
      var all: seq<string> := [];
      var i := 0;
      while i < |cs|
        invariant 0 <= i <= |cs|
        invariant all == ReplaceColumns(cfg, cs[..i])
      {
        ReplaceColumnsStep(cfg, cs, i);
        var pairs := ReplaceColumn(cfg, KeyStr(cs[i].key), EntriesOf(cs[i].val));
        all := all + pairs;
        i := i + 1;
      }
      assert cs[..|cs|] == cs;
      query := Join(all, ", ");
      w := search;
    } else if search.Arr? {
      var pairs := ReplaceColumn(cfg, StrVal(columns), search.entries);
      query := Join(pairs, ", ");
      w := replace;
    } else {
      query := ReplaceItem(cfg, StrVal(columns), search, replace);
    }
    var clause := WhereClause(cfg, w);
    sql := "UPDATE " + QuoteTable(cfg, table) + " SET " + query + clause;
  }

  // --------------------------------------------------------------- lemmas

  /** A keyword starting and ending with a non-blank character is left alone by `trim`. */
  lemma TrimClean(x: string)
    requires |x| > 0 && !IsTrimChar(x[0]) && !IsTrimChar(x[|x| - 1])
    ensures Trim(x, IsTrimChar) == x
  {
  }

  /** A trailing blank after such a keyword is removed by `trim`. */
  lemma TrimTrailingSpace(x: string)
    requires |x| > 0 && !IsTrimChar(x[0]) && !IsTrimChar(x[|x| - 1])
    ensures Trim(x + " ", IsTrimChar) == x
  {
    var y := x + " ";
    assert y[0] == x[0];
    assert TrimLeft(y, IsTrimChar) == y;
    assert IsTrimChar(y[|y| - 1]);
    assert y[..|y| - 1] == x;
    assert TrimRight(x, IsTrimChar) == x;
  }

  /** So are two trailing blanks. */
  lemma TrimTrailingSpaces(x: string)
    requires |x| > 0 && !IsTrimChar(x[0]) && !IsTrimChar(x[|x| - 1])
    ensures Trim(x + " " + " ", IsTrimChar) == x
  {
    var y := x + " ";
    var z := y + " ";
    assert z[0] == x[0];
    assert TrimLeft(z, IsTrimChar) == z;
    assert IsTrimChar(z[|z| - 1]);
    assert z[..|z| - 1] == y;
    TrimTrailingSpace(x);
    assert TrimLeft(y, IsTrimChar) == y;
  }

  /** The verb followed by an allowed tail is an allowed keyword. */
  lemma VerbTail(verb: string, tail: string)
    requires verb == "INSERT" || verb == "REPLACE"
    requires tail in KeywordTails
    ensures IsInsertKeyword(verb + tail)
  {
    var r := verb + tail;
    assert r[..|verb|] == verb && r[|verb|..] == tail;
  }

  lemma VerbEnds(verb: string)
    requires verb == "INSERT" || verb == "REPLACE"
    ensures |verb| > 0 && !IsTrimChar(verb[0]) && !IsTrimChar(verb[|verb| - 1])
  {
  }

  lemma ModifierTail(m: string)
    requires m in InsertModifiers
    ensures " " + m in KeywordTails
    ensures |m| > 0 && !IsTrimChar(m[|m| - 1])
  {
    if m == "LOW_PRIORITY" {
      assert " " + m == " LOW_PRIORITY";
    } else if m == "DELAYED" {
      assert " " + m == " DELAYED";
    } else {
      assert " " + m == " IGNORE";
    }
  }

  lemma IgnoreTail(m: string)
    requires m == "" || m == "LOW_PRIORITY" || m == "DELAYED"
    ensures " " + m + " " + "IGNORE" in KeywordTails
  {
    if m == "" {
      assert " " + m + " " + "IGNORE" == "  IGNORE";
    } else if m == "LOW_PRIORITY" {
      assert " " + m + " " + "IGNORE" == " LOW_PRIORITY IGNORE";
    } else {
      assert " " + m + " " + "IGNORE" == " DELAYED IGNORE";
    }
  }

  /** The verb and an allowed tail ending in a letter survive `trim`. */
  lemma CleanKeyword(verb: string, tail: string)
    requires verb == "INSERT" || verb == "REPLACE"
    requires tail in KeywordTails
    requires tail == "" || !IsTrimChar(tail[|tail| - 1])
    ensures IsInsertKeyword(Trim(verb + tail, IsTrimChar))
  {
    VerbEnds(verb);
    var x := verb + tail;
    assert x[0] == verb[0];
    assert x[|x| - 1] == if tail == "" then verb[|verb| - 1] else tail[|tail| - 1];
    TrimClean(x);
    VerbTail(verb, tail);
  }

  /** The verb followed by one or two blanks is trimmed to the bare verb. */
  lemma PaddedKeyword(verb: string, pad: string)
    requires verb == "INSERT" || verb == "REPLACE"
    requires pad == " " || pad == "  "
    ensures IsInsertKeyword(Trim(verb + pad, IsTrimChar))
  {
    VerbEnds(verb);
    if pad == " " {
      TrimTrailingSpace(verb);
    } else {
      assert verb + pad == verb + " " + " ";
      TrimTrailingSpaces(verb);
    }
    VerbTail(verb, "");
    assert verb + "" == verb;
  }

  lemma TwoWords(verb: string, m: string)
    requires verb == "INSERT" || verb == "REPLACE"
    requires m == "" || m in InsertModifiers
    ensures IsInsertKeyword(Trim(verb + " " + m, IsTrimChar))
  {
    if m == "" {
      assert verb + " " + m == verb + " ";
      PaddedKeyword(verb, " ");
    } else {
      ModifierTail(m);
      assert verb + " " + m == verb + (" " + m);
      CleanKeyword(verb, " " + m);
    }
  }

  lemma ThreeWords(verb: string, m: string, last: string)
    requires verb == "INSERT" || verb == "REPLACE"
    requires m == "" || m in InsertModifiers
    requires last == "" || (last == "IGNORE" && m != "IGNORE")
    ensures IsInsertKeyword(Trim(verb + " " + m + " " + last, IsTrimChar))
  {
    if last == "" {
      if m == "" {
        BareVerb(verb);
      } else {
        VerbModifier(verb, m);
      }
    } else {
      VerbIgnore(verb, m);
    }
  }

  /** `INSERT  `: the verb alone. */
  lemma BareVerb(verb: string)
    requires verb == "INSERT" || verb == "REPLACE"
    ensures IsInsertKeyword(Trim(verb + " " + "" + " " + "", IsTrimChar))
  {
    assert verb + " " + "" + " " + "" == verb + "  ";
    PaddedKeyword(verb, "  ");
  }

  /** `INSERT m `: one modifier. */
  lemma VerbModifier(verb: string, m: string)
    requires verb == "INSERT" || verb == "REPLACE"
    requires m in InsertModifiers
    ensures IsInsertKeyword(Trim(verb + " " + m + " " + "", IsTrimChar))
  {
    var x := verb + " " + m;
    assert verb + " " + m + " " + "" == x + " ";
    VerbEnds(verb);
    ModifierTail(m);
    assert x[0] == verb[0] && x[|x| - 1] == m[|m| - 1];
    TrimTrailingSpace(x);
    TwoWords(verb, m);
    TrimClean(x);
  }

  /** `INSERT m IGNORE`, with `m` possibly empty. */
  lemma VerbIgnore(verb: string, m: string)
    requires verb == "INSERT" || verb == "REPLACE"
    requires m == "" || m in InsertModifiers
    requires m != "IGNORE"
    ensures IsInsertKeyword(Trim(verb + " " + m + " " + "IGNORE", IsTrimChar))
  {
    IgnoreTail(m);
    var tail := " " + m + " " + "IGNORE";
    assert verb + " " + m + " " + "IGNORE" == verb + tail;
    assert tail[|tail| - 1] == 'E';
    CleanKeyword(verb, tail);
  }

  lemma JoinTwo(w: seq<string>, sep: string)
    requires |w| == 2
    ensures Join(w, sep) == w[0] + sep + w[1]
  {
    assert w[..1] == [w[0]];
  }

  lemma JoinThree(w: seq<string>, sep: string)
    requires |w| == 3
    ensures Join(w, sep) == w[0] + sep + w[1] + sep + w[2]
  {
    JoinTwo(w[..2], sep);
  }

  /** The joined and trimmed words of a normalised keyword form an allowed keyword. */
  lemma KeywordWordsSafe(w: seq<string>)
    requires 1 <= |w| <= 3
    requires w[0] == "INSERT" || w[0] == "REPLACE"
    requires |w| > 1 ==> w[1] == "" || w[1] in InsertModifiers
    requires |w| > 2 ==> w[2] == "" || (w[2] == "IGNORE" && w[1] != "IGNORE")
    ensures IsInsertKeyword(Trim(Join(w, " "), IsTrimChar))
  {
    if |w| == 1 {
      CleanKeyword(w[0], "");
      assert w[0] + "" == w[0];
    } else if |w| == 2 {
      JoinTwo(w, " ");
      TwoWords(w[0], w[1]);
    } else {
      JoinThree(w, " ");
      ThreeWords(w[0], w[1], w[2]);
    }
  }

  /** Whatever keyword is requested, the statement starts with `INSERT` or
      `REPLACE` and carries only the modifiers MySQL allows there. */
  lemma InsertKeywordSafe(s: string)
    ensures IsInsertKeyword(InsertKeyword(s))
  {
    if ' ' in s {
      var parts := Split(Trim(s, IsTrimChar), ' ');
      if |parts| > 3 {
        VerbTail("INSERT", "");
        assert "INSERT" + "" == "INSERT";
      } else {
        KeywordWordsSafe(KeywordWords(parts));
      }
    } else {
      VerbTail("INSERT", "");
      VerbTail("REPLACE", "");
      assert "INSERT" + "" == "INSERT" && "REPLACE" + "" == "REPLACE";
    }
  }

  /** A REPLACE request keeps its verb; any other verb becomes INSERT. */
  lemma InsertKeywordVerb(s: string)
    requires ' ' in s
    requires |Split(Trim(s, IsTrimChar), ' ')| <= 3
    ensures var w := KeywordWords(Split(Trim(s, IsTrimChar), ' '));
      w[0] == (if Split(Trim(s, IsTrimChar), ' ')[0] == "REPLACE" then "REPLACE" else "INSERT")
  {
  }

  /** An associative array of data is one row, so one statement. */
  lemma InsertSingleRow(cfg: Config, table: string, es: seq<Entry>, keyword: string)
    requires !IsSet(es, IntKey(0))
    ensures InsertText(cfg, Text(table), Arr(es), keyword, false) ==
      Statements([InsertRow(cfg, InsertKeyword(keyword), table, Arr(es))])
  {
    assert InsertInput(Text(table), Arr(es), keyword) == InsertArgs(table, Arr(es), keyword);
    assert InsertRows(Arr(es)) == [Arr(es)];
    var kw := InsertKeyword(keyword);
    assert InsertStatements(cfg, kw, table, [Arr(es)]) == [InsertRow(cfg, kw, table, Arr(es))];
  }

  /** A list of rows gives one statement per row, in order. */
  lemma InsertManyRows(cfg: Config, table: string, es: seq<Entry>, keyword: string)
    requires IsSet(es, IntKey(0))
    ensures var r := InsertText(cfg, Text(table), Arr(es), keyword, false);
      r.Statements? && |r.sqls| == |es| &&
      forall j :: 0 <= j < |es| ==> r.sqls[j] == InsertRow(cfg, InsertKeyword(keyword), table, es[j].val)
  {
    assert InsertInput(Text(table), Arr(es), keyword) == InsertArgs(table, Arr(es), keyword);
    var rows := InsertRows(Arr(es));
    assert rows == Values(es);
    var sqls := InsertStatements(cfg, InsertKeyword(keyword), table, rows);
    assert InsertText(cfg, Text(table), Arr(es), keyword, false) == Statements(sqls);
  }

  /** Every row of a multi-row insert contributes one value tuple. */
  lemma MultiInsertTuples(cfg: Config, keyword: string, table: string, es: seq<Entry>)
    requires IsSet(es, IntKey(0))
    ensures var vs := ValueTuples(cfg, InsertRows(Arr(es)));
      |vs| == |es| && forall j :: 0 <= j < |es| ==> vs[j] == ValueTuple(cfg, es[j].val)
  {
  }

  /** A key with only word characters is a plain assignment. */
  lemma {:induction false} ArithKeyPlain(k: string)
    requires forall j :: 0 <= j < |k| ==> IsWordChar(k[j])
    ensures ArithKey(k) == None
  {
    if |k| > 0 {
      assert Find(k, 0, IsWordChar) == 0;
      WordRunToEnd(k, 0);
    }
  }

  lemma {:induction false} WordRunToEnd(s: string, i: nat)
    requires i <= |s|
    requires forall k :: i <= k < |s| ==> IsWordChar(s[k])
    ensures Run(s, i, IsWordChar) == |s|
    decreases |s| - i
  {
    if i < |s| {
      WordRunToEnd(s, i + 1);
    }
  }

  /** `name[op]` with a word name names the column and the operator. */
  lemma ArithKeyMarked(name: string, op: char)
    requires |name| > 0 && forall j :: 0 <= j < |name| ==> IsWordChar(name[j])
    requires op in "+-*/"
    ensures ArithKey(name + "[" + [op] + "]") == Some((name, op))
  {
    var k := name + "[" + [op] + "]";
    assert IsWordChar(k[0]);
    assert Find(k, 0, IsWordChar) == 0;
    RunOver(k, 0, |name|, IsWordChar);
    assert k[..|name|] == name;
    assert k[0..|name|] == name;
  }

  /** `name[op] => v` adds, subtracts, multiplies or divides by a numeric `v`
      and is dropped for any other value. */
  lemma UpdateArithmetic(cfg: Config, name: string, op: char, v: Value)
    requires |name| > 0 && forall j :: 0 <= j < |name| ==> IsWordChar(name[j])
    requires op in "+-*/"
    ensures UpdateField(cfg, Entry(StrKey(name + "[" + [op] + "]"), v)) ==
      if IsNumeric(v) then Some(QuoteColumn(cfg, name) + " = " + QuoteColumn(cfg, name) + " " + [op] + " " + StrVal(v))
      else None
  {
    ArithKeyMarked(name, op);
  }

  /** A plain key assigns the quoted value. */
  lemma UpdatePlain(cfg: Config, name: string, v: Value)
    requires forall j :: 0 <= j < |name| ==> IsWordChar(name[j])
    ensures UpdateField(cfg, Entry(StrKey(name), v)) == Some(QuoteColumn(cfg, name) + " = " + QuoteValue(cfg, name, v))
  {
    ArithKeyPlain(name);
  }

  /** With a statement array, the separate `$where` argument plays no part. */
  lemma StatementArrayIgnoresWhere(cfg: Config, t: seq<Entry>, data: Value, w1: Value, w2: Value)
    ensures UpdateText(cfg, Arr(t), data, w1) == UpdateText(cfg, Arr(t), data, w2)
    ensures DeleteText(cfg, Arr(t), w1) == DeleteText(cfg, Arr(t), w2)
  {
  }

  /** The WHERE of `replace` moves with the form: with an array of columns
      only `$search` is read as the WHERE, with an array of pairs only `$replace`. */
  lemma ReplaceWhereArgument(cfg: Config, table: string, columns: Value, search: Value,
                             r1: Value, r2: Value, w1: Value, w2: Value)
    ensures columns.Arr? ==>
      ReplaceText(cfg, table, columns, search, r1, w1) == ReplaceText(cfg, table, columns, search, r2, w2)
    ensures !columns.Arr? && search.Arr? ==>
      ReplaceText(cfg, table, columns, search, r1, w1) == ReplaceText(cfg, table, columns, search, r1, w2)
  {
  }

  /** Each column contributes its replacements after those of the columns before it. */
  lemma {:induction false} ReplaceColumnsAppend(cfg: Config, xs: seq<Entry>, ys: seq<Entry>)
    ensures ReplaceColumns(cfg, xs + ys) == ReplaceColumns(cfg, xs) + ReplaceColumns(cfg, ys)
    decreases |ys|
  {
    if |ys| == 0 {
      assert xs + ys == xs;
    } else {
      var init, c := ys[..|ys| - 1], ys[|ys| - 1];
      assert xs + ys == (xs + init) + [c] && ys == init + [c];
      ReplaceColumnsAppend(cfg, xs, init);
      ReplaceColumnsSnoc(cfg, xs + init, c);
      ReplaceColumnsSnoc(cfg, init, c);
      AppendAssoc(ReplaceColumns(cfg, xs), ReplaceColumns(cfg, init), ReplacePairs(cfg, KeyStr(c.key), EntriesOf(c.val)));
    }
  }

  /** The replacements of a list with one more column. */
  lemma ReplaceColumnsSnoc(cfg: Config, cs: seq<Entry>, c: Entry)
    ensures ReplaceColumns(cfg, cs + [c]) == ReplaceColumns(cfg, cs) + ReplacePairs(cfg, KeyStr(c.key), EntriesOf(c.val))
  {
    assert (cs + [c])[..|cs|] == cs;
  }
}
