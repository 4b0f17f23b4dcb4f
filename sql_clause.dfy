/** The clause assembler of the Medoo query builder: the WHERE condition
    followed by MATCH, GROUP BY / HAVING, ORDER BY and LIMIT, all read from
    one PHP array. */
module SqlClause {
  import opened Wrappers
  import opened Strings
  import opened Php
  import opened SqlQuote
  import opened SqlWhere

  // ----------------------------------------------------- loose AND/OR keys

  /** What may follow the word in `/^AND\s*#?$/i`: spaces, at most one `#`,
      and (by `$`) a final line feed. */
  predicate LooseTail(rest: string)
  {
    var j := SpaceRun(rest, 0);
    rest[j..] == "" || rest[j..] == "#" || rest[j..] == "#\n"
  }

  /** A key that `/^AND\s*#?$/i` (for `word == "AND"`) or `/^OR\s*#?$/i` matches. */
  predicate IsWordKey(k: Key, word: string)
  {
    k.StrKey? && |k.s| >= |word| &&
    (forall i :: 0 <= i < |word| ==> LetterIs(k.s[i], word[i])) &&
    LooseTail(k.s[|word|..])
  }

  /** The first key that matches, as `array_values(preg_grep(...))[0]` takes it. */
  function FirstKey(es: seq<Entry>, word: string): (r: Option<Key>)
    ensures r.Some? ==> IsWordKey(r.value, word) && exists j :: 0 <= j < |es| && es[j].key == r.value
    ensures r.Some? ==>
      exists j :: 0 <= j < |es| && es[j].key == r.value && forall i :: 0 <= i < j ==> !IsWordKey(es[i].key, word)
    ensures r.None? ==> forall j :: 0 <= j < |es| ==> !IsWordKey(es[j].key, word)
  {
    if |es| == 0 then None
    else if IsWordKey(es[0].key, word) then Some(es[0].key)
    else
      var r := FirstKey(es[1..], word);
      assert forall j :: 0 < j < |es| ==> es[j] == es[1..][j - 1];
      r
  }

  /** The keys that are never conditions at the top level. */
  predicate Reserved(k: Key)
  {
    k.StrKey? && k.s in {"AND", "OR", "GROUP", "ORDER", "HAVING", "LIMIT", "LIKE", "MATCH"}
  }

  /** `array_diff_key($where, array_flip([...]))`: the loose conditions, in order. */
  function Singles(es: seq<Entry>): (r: seq<Entry>)
    ensures forall j :: 0 <= j < |r| ==> !Reserved(r[j].key) && r[j] in es
    ensures |r| <= |es|
  {
    if |es| == 0 then []
    else (if Reserved(es[0].key) then [] else [es[0]]) + Singles(es[1..])
  }

  // ------------------------------------------------------------- clauses

  /** The WHERE part: the loose conditions, replaced by a top-level `AND` key's
      conditions, replaced in turn by a top-level `OR` key's. */
  function ConditionClause(cfg: Config, es: seq<Entry>): string
  {
    var single := Singles(es);
    var condition := Conditions(cfg, Arr(single), " AND");
    var base := if single != [] && condition != "" then " WHERE " + condition else "";
    var andKey := FirstKey(es, "AND");
    var orKey := FirstKey(es, "OR");
    var withAnd := if andKey.Some? then " WHERE " + Conditions(cfg, Get(es, andKey.value), " AND") else base;
    if orKey.Some? then " WHERE " + Conditions(cfg, Get(es, orKey.value), " OR") else withAnd
  }

  /** The values of an array, or nothing for any other value (`array_map` on a
      non-array gives no list). */
  function ArrayValues(v: Value): seq<Value>
  {
    if v.Arr? then Values(v.entries) else []
  }

  function QuotedColumns(cfg: Config, vs: seq<Value>): (r: seq<string>)
    ensures |r| == |vs|
  {
    if |vs| == 0 then [] else QuotedColumns(cfg, vs[..|vs| - 1]) + [QuoteColumn(cfg, StrVal(vs[|vs| - 1]))]
  }

  /** The full-text MATCH part; it needs both `columns` and `keyword`. */
  function MatchClause(cfg: Config, es: seq<Entry>, clause: string): string
  {
    var m := Get(es, StrKey("MATCH"));
    if m.Arr? && IsSet(m.entries, StrKey("columns")) && IsSet(m.entries, StrKey("keyword")) then
      (if clause != "" then " AND " else " WHERE ") + " MATCH (" +
      Join(QuotedColumns(cfg, ArrayValues(Get(m.entries, StrKey("columns")))), ", ") +
      ") AGAINST (" + PdoQuote(cfg, Get(m.entries, StrKey("keyword"))) + ")"
    else ""
  }

  /** `(array) $v` for a set value: an array stays, a scalar becomes a one-element list. */
  function AsList(v: Value): seq<Value>
  {
    if v.Arr? then Values(v.entries) else [v]
  }

  /** GROUP BY, followed by HAVING only when there is a GROUP. */
  function GroupClause(cfg: Config, es: seq<Entry>): string
  {
    if IsSet(es, StrKey("GROUP")) then
      " GROUP BY " + Join(QuotedColumns(cfg, AsList(Get(es, StrKey("GROUP")))), ", ") +
      (if IsSet(es, StrKey("HAVING")) then " HAVING " + Conditions(cfg, Get(es, StrKey("HAVING")), " AND") else "")
    else ""
  }

  /** `/(^[a-zA-Z0-9_\-\.]*)(\s*(DESC|ASC))?/` applied to an ORDER string:
      the column, a space, and the direction if one follows. */
  function SortText(cfg: Config, s: string): (r: string)
    ensures exists j :: (0 <= j <= |s| && (forall k :: 0 <= k < j ==> IsDottedIdentChar(s[k])) &&
      (r == QuoteColumn(cfg, s[..j]) + " " || r == QuoteColumn(cfg, s[..j]) + " ASC" || r == QuoteColumn(cfg, s[..j]) + " DESC"))
  {
    var j := Run(s, 0, IsDottedIdentChar);
    var k := SpaceRun(s, j);
    var dir := if |s| >= k + 4 && s[k..k + 4] == "DESC" then "DESC"
               else if |s| >= k + 3 && s[k..k + 3] == "ASC" then "ASC"
               else "";
    QuoteColumn(cfg, s[..j]) + " " + dir
  }

  /** One entry of an ORDER array, or `None` when the source skips it. */
  function OrderItem(cfg: Config, e: Entry): Option<string>
  {
    var col := QuoteColumn(cfg, KeyStr(e.key));
    if e.val.Arr? then Some("FIELD(" + col + ", " + Join(ListItems(cfg, e.val.entries), ",") + ")")
    else if e.val == Text("ASC") || e.val == Text("DESC") then Some(col + " " + e.val.s)
    else if e.val == Text("asc") then Some(col + " ASC")
    else if e.val == Text("desc") then Some(col + " DESC")
    else if e.key.IntKey? then Some(SortText(cfg, StrVal(e.val)))
    else None
  }

  function OrderItems(cfg: Config, es: seq<Entry>): seq<string>
  {
    if |es| == 0 then []
    else
      var f := OrderItem(cfg, es[|es| - 1]);
      OrderItems(cfg, es[..|es| - 1]) + (if f.Some? then [f.value] else [])
  }

  /** The ORDER BY part for a given ORDER value. */
  function OrderText(cfg: Config, order: Value): string
  {
    if order.Arr? then " ORDER BY " + Join(OrderItems(cfg, order.entries), ",")
    else " ORDER BY " + SortText(cfg, StrVal(order))
  }

  function OrderClause(cfg: Config, es: seq<Entry>): string
  {
    if IsSet(es, StrKey("ORDER")) then OrderText(cfg, Get(es, StrKey("ORDER"))) else ""
  }

  /** The LIMIT part: a number, or an `[offset, count]` pair whose form depends on the driver. */
  function LimitText(cfg: Config, limit: Value): string
  {
    if IsNumeric(limit) then " LIMIT " + StrVal(limit)
    else if limit.Arr? && IsNumeric(Get(limit.entries, IntKey(0))) && IsNumeric(Get(limit.entries, IntKey(1))) then
      var offset := StrVal(Get(limit.entries, IntKey(0)));
      var count := StrVal(Get(limit.entries, IntKey(1)));
      if cfg.dialect == "pgsql" then " OFFSET " + offset + " LIMIT " + count
      else " LIMIT " + offset + "," + count
    else ""
  }

  function LimitClause(cfg: Config, es: seq<Entry>): string
  {
    if IsSet(es, StrKey("LIMIT")) then LimitText(cfg, Get(es, StrKey("LIMIT"))) else ""
  }

  /** `whereClause($where)`. */
  function WhereText(cfg: Config, where: Value): string
  {
    if Falsy(where) then ""
    else if where.Arr? then WhereArray(cfg, where.entries)
    else " " + StrVal(where)
  }

  /** `whereClause` for a non-empty array. */
  function WhereArray(cfg: Config, es: seq<Entry>): string
  {
    var c := ConditionClause(cfg, es);
    c + MatchClause(cfg, es, c) + GroupClause(cfg, es) + OrderClause(cfg, es) + LimitClause(cfg, es)
  }

  /** The ORDER array, built by the source's loop. */
  method OrderBy(cfg: Config, es: seq<Entry>) returns (r: string)
    ensures r == Join(OrderItems(cfg, es), ",")
  {
    var stack: seq<string> := [];
    var i := 0;
    while i < |es|
      invariant 0 <= i <= |es|
      invariant stack == OrderItems(cfg, es[..i])
    {
      assert es[..i + 1][..i] == es[..i];
      var f := OrderItem(cfg, es[i]);
      if f.Some? {
        stack := stack + [f.value];
      }
      i := i + 1;
    }
    assert es[..|es|] == es;
    r := Join(stack, ",");
  }

  /** The WHERE part, replaced step by step as the source does. */
  method ConditionPart(cfg: Config, es: seq<Entry>) returns (clause: string)
    ensures clause == ConditionClause(cfg, es)
  {
    clause := "";
    var single := Singles(es);
    if single != [] {
      var condition := DataImplode(cfg, Arr(single), " AND");
      if condition != "" {
        clause := " WHERE " + condition;
      }
    }
    var andKey := FirstKey(es, "AND");
    if andKey.Some? {
      var c := DataImplode(cfg, Get(es, andKey.value), " AND");
      clause := " WHERE " + c;
    }
    var orKey := FirstKey(es, "OR");
    if orKey.Some? {
      var c := DataImplode(cfg, Get(es, orKey.value), " OR");
      clause := " WHERE " + c;
    }
  }

  /** GROUP BY and HAVING. */
  method GroupPart(cfg: Config, es: seq<Entry>) returns (r: string)
    ensures r == GroupClause(cfg, es)
  {
    r := "";
    if IsSet(es, StrKey("GROUP")) {
      r := " GROUP BY " + Join(QuotedColumns(cfg, AsList(Get(es, StrKey("GROUP")))), ", ");
      if IsSet(es, StrKey("HAVING")) {
        var h := DataImplode(cfg, Get(es, StrKey("HAVING")), " AND");
        r := r + " HAVING " + h;
      }
    }
  }

  /** ORDER BY. */
  method OrderPart(cfg: Config, es: seq<Entry>) returns (r: string)
    ensures r == OrderClause(cfg, es)
  {
    r := "";
    if IsSet(es, StrKey("ORDER")) {
      var order := Get(es, StrKey("ORDER"));
      if order.Arr? {
        var o := OrderBy(cfg, order.entries);
        r := " ORDER BY " + o;
      } else {
        r := " ORDER BY " + SortText(cfg, StrVal(order));
      }
    }
  }

  /** `whereClause`, growing the clause part by part as the source does. */
  method WhereClause(cfg: Config, where: Value) returns (clause: string)
    ensures clause == WhereText(cfg, where)
  {
    if Falsy(where) {
      return "";
    }
    if !where.Arr? {
      return " " + StrVal(where);
    }
    var es := where.entries;
    clause := ConditionPart(cfg, es);
    clause := clause + MatchClause(cfg, es, clause);
    var group := GroupPart(cfg, es);
    var order := OrderPart(cfg, es);
    clause := clause + group + order + LimitClause(cfg, es);
  }

  // -------------------------------------------------------- suffixClause

  /** The statement modifiers `suffixClause` moves into the WHERE array. */
  const Modifiers: seq<string> := ["GROUP", "ORDER", "LIMIT", "HAVING"]

  /** Copies each modifier set in `struct` and not set in `where`. */
  function CopyModifiers(struct: seq<Entry>, where: seq<Entry>, names: seq<string>): seq<Entry>
  {
    if |names| == 0 then where
    else
      var w := CopyModifiers(struct, where, names[..|names| - 1]);
      var m := StrKey(names[|names| - 1]);
      if IsSet(struct, m) && !IsSet(w, m) then Put(w, m, Get(struct, m)) else w
  }

  /** The WHERE array `suffixClause` hands to `whereClause`. A missing (or
      false) WHERE starts as an empty array. A WHERE that is some other
      scalar gets no modifiers: PHP's write of a modifier into a scalar only
      raises a warning, except into a string, which the model leaves out. */
  function SuffixWhere(struct: seq<Entry>): Value
  {
    var w := Get(struct, StrKey("WHERE"));
    if w.Null? || w == Bool(false) then Arr(CopyModifiers(struct, [], Modifiers))
    else if w.Arr? then Arr(CopyModifiers(struct, w.entries, Modifiers))
    else w
  }

  /** `suffixClause`, with the source's loop over the modifiers. */
  method SuffixClause(cfg: Config, struct: seq<Entry>) returns (r: string)
    ensures r == WhereText(cfg, SuffixWhere(struct))
  {
    var w := Get(struct, StrKey("WHERE"));
    if !(w.Null? || w == Bool(false) || w.Arr?) {
      r := WhereClause(cfg, w);
      return;
    }
    var start: seq<Entry> := if w.Arr? then w.entries else [];
    var where := CopyLoop(struct, start, Modifiers);
    SuffixWhereArray(struct, start);
    r := WhereClause(cfg, Arr(where));
  }

  /** The loop of `suffixClause`: each named key set in `struct` and not yet
      in `where` is copied over. */
  method CopyLoop(struct: seq<Entry>, start: seq<Entry>, names: seq<string>) returns (where: seq<Entry>)
    ensures where == CopyModifiers(struct, start, names)
  {
    where := start;
    var i := 0;
    while i < |names|
      invariant 0 <= i <= |names|
      invariant where == CopyModifiers(struct, start, names[..i])
    {
      CopyModifiersStep(struct, start, names, i);
      var m := StrKey(names[i]);
      if IsSet(struct, m) && !IsSet(where, m) {
        where := Put(where, m, Get(struct, m));
      }
      i := i + 1;
    }
    assert names[..|names|] == names;
  }

  /** The copies after one more modifier name. */
  lemma CopyModifiersStep(struct: seq<Entry>, where: seq<Entry>, names: seq<string>, i: nat)
    requires i < |names|
    ensures var w := CopyModifiers(struct, where, names[..i]);
      var m := StrKey(names[i]);
      CopyModifiers(struct, where, names[..i + 1]) ==
        if IsSet(struct, m) && !IsSet(w, m) then Put(w, m, Get(struct, m)) else w
  {
    assert names[..i + 1][..i] == names[..i];
  }

  /** A WHERE that is missing, false or an array is the start of the copies. */
  lemma SuffixWhereArray(struct: seq<Entry>, start: seq<Entry>)
    requires var w := Get(struct, StrKey("WHERE"));
      w.Null? || w == Bool(false) || w.Arr?
    requires start == var w := Get(struct, StrKey("WHERE")); if w.Arr? then w.entries else []
    ensures SuffixWhere(struct) == Arr(CopyModifiers(struct, start, Modifiers))
  {
  }

  // ---------------------------------------------------------------- lemmas

  /** Dropping the reserved keys twice is dropping them once. */
  lemma {:induction false} SinglesIdempotent(es: seq<Entry>)
    ensures Singles(Singles(es)) == Singles(es)
  {
    if |es| > 0 {
      SinglesIdempotent(es[1..]);
      var head := if Reserved(es[0].key) then [] else [es[0]];
      SinglesAppend(head, Singles(es[1..]));
    }
  }

  lemma {:induction false} SinglesAppend(xs: seq<Entry>, ys: seq<Entry>)
    ensures Singles(xs + ys) == Singles(xs) + Singles(ys)
  {
    if |xs| > 0 {
      assert (xs + ys)[1..] == xs[1..] + ys;
      SinglesAppend(xs[1..], ys);
    } else {
      assert xs + ys == ys;
    }
  }

  /** Without a top-level `AND` or `OR` key the reserved keys play no part:
      the WHERE part is that of the loose conditions alone. */
  lemma LooseConditionsOnly(cfg: Config, es: seq<Entry>)
    requires FirstKey(es, "AND").None? && FirstKey(es, "OR").None?
    ensures ConditionClause(cfg, es) == ConditionClause(cfg, Singles(es))
  {
    SinglesIdempotent(es);
    var s := Singles(es);
    assert FirstKey(s, "AND").None? by {
      assert forall j :: 0 <= j < |s| ==> !IsWordKey(s[j].key, "AND");
    }
    assert FirstKey(s, "OR").None? by {
      assert forall j :: 0 <= j < |s| ==> !IsWordKey(s[j].key, "OR");
    }
  }

  /** A top-level `OR` key decides the WHERE part on its own: every other
      entry, loose or `AND`, is overridden. */
  lemma OrKeyDecides(cfg: Config, es: seq<Entry>)
    requires FirstKey(es, "OR").Some?
    ensures var k := FirstKey(es, "OR").value;
      ConditionClause(cfg, es) == ConditionClause(cfg, [Entry(k, Get(es, k))])
  {
    var k := FirstKey(es, "OR").value;
    var one := [Entry(k, Get(es, k))];
    assert FirstKey(one, "OR") == Some(k);
    assert Get(one, k) == Get(es, k);
  }

  /** Without an `OR` key, a top-level `AND` key decides the WHERE part on its own. */
  lemma AndKeyDecides(cfg: Config, es: seq<Entry>)
    requires FirstKey(es, "OR").None? && FirstKey(es, "AND").Some?
    ensures var k := FirstKey(es, "AND").value;
      ConditionClause(cfg, es) == ConditionClause(cfg, [Entry(k, Get(es, k))])
  {
    var k := FirstKey(es, "AND").value;
    var one := [Entry(k, Get(es, k))];
    assert LetterIs(k.s[0], 'A');
    assert !IsWordKey(k, "OR");
    assert FirstKey(one, "OR") == None;
    assert FirstKey(one, "AND") == Some(k);
    assert Get(one, k) == Get(es, k);
  }

  /** The key tests accept any letter case and a bare trailing `#`, and
      nothing else after the word. */
  lemma WordKeyForms()
    ensures IsWordKey(StrKey("and #"), "AND")
    ensures IsWordKey(StrKey("Or"), "OR")
    ensures !IsWordKey(StrKey("AND #1"), "AND")
    ensures !IsWordKey(StrKey("ORDER"), "OR")
  {
    var a := "and #";
    assert a[3..] == " #" && SpaceRun(" #", 0) == 1 && " #"[1..] == "#";
    var b := "Or";
    assert b[2..] == "" && SpaceRun("", 0) == 0;
    var c := "AND #1";
    assert c[3..] == " #1" && SpaceRun(" #1", 0) == 1 && " #1"[1..] == "#1";
    var d := "ORDER";
    assert d[2..] == "DER" && SpaceRun("DER", 0) == 0;
  }

  /** Setting a reserved key leaves the loose conditions alone. */
  lemma {:induction false} SinglesPutReserved(es: seq<Entry>, k: Key, v: Value)
    requires Reserved(k)
    ensures Singles(Put(es, k, v)) == Singles(es)
  {
    if |es| > 0 {
      if es[0].key != k {
        SinglesPutReserved(es[1..], k, v);
        assert Put(es, k, v)[1..] == Put(es[1..], k, v);
      } else {
        assert Put(es, k, v)[1..] == es[1..];
      }
    }
  }

  /** Setting a key that is not an `AND`/`OR` key leaves the first such key alone. */
  lemma {:induction false} FirstKeyPutOther(es: seq<Entry>, k: Key, v: Value, word: string)
    requires !IsWordKey(k, word)
    ensures FirstKey(Put(es, k, v), word) == FirstKey(es, word)
  {
    if |es| > 0 {
      if es[0].key != k {
        FirstKeyPutOther(es[1..], k, v, word);
        assert Put(es, k, v)[1..] == Put(es[1..], k, v);
      } else {
        assert Put(es, k, v)[1..] == es[1..];
      }
    } else {
      assert Put(es, k, v) == [Entry(k, v)];
    }
  }

  /** Setting HAVING leaves the WHERE part as it was. */
  lemma ConditionPutHaving(cfg: Config, es: seq<Entry>, h: Value)
    ensures ConditionClause(cfg, Put(es, StrKey("HAVING"), h)) == ConditionClause(cfg, es)
  {
    var hk := StrKey("HAVING");
    var es' := Put(es, hk, h);
    HavingNotWordKey();
    SinglesPutReserved(es, hk, h);
    FirstKeyPutOther(es, hk, h, "AND");
    FirstKeyPutOther(es, hk, h, "OR");
    var andKey := FirstKey(es, "AND");
    var orKey := FirstKey(es, "OR");
    if andKey.Some? {
      GetPutOther(es, hk, h, andKey.value);
    }
    if orKey.Some? {
      GetPutOther(es, hk, h, orKey.value);
    }
    ConditionClauseAgree(cfg, es, es');
  }

  lemma HavingNotWordKey()
    ensures !IsWordKey(StrKey("HAVING"), "AND") && !IsWordKey(StrKey("HAVING"), "OR")
  {
    assert !LetterIs('H', 'A');
    assert !LetterIs('H', 'O');
  }

  lemma GetPutOther(es: seq<Entry>, k: Key, v: Value, k': Key)
    requires k' != k
    ensures Get(Put(es, k, v), k') == Get(es, k')
  {
  }

  /** The WHERE part depends only on the loose conditions and the `AND`/`OR` keys. */
  lemma ConditionClauseAgree(cfg: Config, es: seq<Entry>, es': seq<Entry>)
    requires Singles(es') == Singles(es)
    requires FirstKey(es', "AND") == FirstKey(es, "AND") && FirstKey(es', "OR") == FirstKey(es, "OR")
    requires FirstKey(es, "AND").Some? ==> Get(es', FirstKey(es, "AND").value) == Get(es, FirstKey(es, "AND").value)
    requires FirstKey(es, "OR").Some? ==> Get(es', FirstKey(es, "OR").value) == Get(es, FirstKey(es, "OR").value)
    ensures ConditionClause(cfg, es') == ConditionClause(cfg, es)
  {
  }

  /** Setting HAVING leaves MATCH, ORDER and LIMIT as they were. */
  lemma OthersPutHaving(cfg: Config, es: seq<Entry>, h: Value, clause: string)
    ensures var es' := Put(es, StrKey("HAVING"), h);
      MatchClause(cfg, es', clause) == MatchClause(cfg, es, clause) &&
      OrderClause(cfg, es') == OrderClause(cfg, es) &&
      LimitClause(cfg, es') == LimitClause(cfg, es)
  {
    MatchPutHaving(cfg, es, h, clause);
    OrderPutHaving(cfg, es, h);
    LimitPutHaving(cfg, es, h);
  }

  lemma MatchPutHaving(cfg: Config, es: seq<Entry>, h: Value, clause: string)
    ensures MatchClause(cfg, Put(es, StrKey("HAVING"), h), clause) == MatchClause(cfg, es, clause)
  {
    GetPutOther(es, StrKey("HAVING"), h, StrKey("MATCH"));
  }

  lemma OrderPutHaving(cfg: Config, es: seq<Entry>, h: Value)
    ensures OrderClause(cfg, Put(es, StrKey("HAVING"), h)) == OrderClause(cfg, es)
  {
    GetPutOther(es, StrKey("HAVING"), h, StrKey("ORDER"));
  }

  lemma LimitPutHaving(cfg: Config, es: seq<Entry>, h: Value)
    ensures LimitClause(cfg, Put(es, StrKey("HAVING"), h)) == LimitClause(cfg, es)
  {
    GetPutOther(es, StrKey("HAVING"), h, StrKey("LIMIT"));
  }

  /** HAVING is emitted only together with GROUP: without a GROUP, adding a
      HAVING entry changes nothing. */
  lemma HavingNeedsGroup(cfg: Config, es: seq<Entry>, h: Value)
    requires !IsSet(es, StrKey("GROUP"))
    ensures WhereText(cfg, Arr(Put(es, StrKey("HAVING"), h))) == WhereText(cfg, Arr(es))
  {
    var es' := Put(es, StrKey("HAVING"), h);
    WhereArrayPutHaving(cfg, es, h);
    assert Lookup(es', StrKey("HAVING")).Some?;
    WhereTextArray(cfg, es');
    if es == [] {
      EmptyWhereArray(cfg);
    } else {
      WhereTextArray(cfg, es);
    }
  }

  lemma WhereTextArray(cfg: Config, es: seq<Entry>)
    requires es != []
    ensures WhereText(cfg, Arr(es)) == WhereArray(cfg, es)
  {
  }

  lemma WhereArrayPutHaving(cfg: Config, es: seq<Entry>, h: Value)
    requires !IsSet(es, StrKey("GROUP"))
    ensures WhereArray(cfg, Put(es, StrKey("HAVING"), h)) == WhereArray(cfg, es)
  {
    var es' := Put(es, StrKey("HAVING"), h);
    ConditionPutHaving(cfg, es, h);
    OthersPutHaving(cfg, es, h, ConditionClause(cfg, es));
    assert Get(es', StrKey("GROUP")) == Get(es, StrKey("GROUP"));
  }

  lemma EmptyWhereArray(cfg: Config)
    ensures WhereArray(cfg, []) == ""
  {
    assert ConditionClause(cfg, []) == "";
  }

  /** An `[offset, count]` LIMIT takes the driver's form. */
  lemma LimitPair(cfg: Config, offset: int, count: int)
    ensures LimitText(cfg, Arr(ListOf([Int(offset), Int(count)]))) ==
      if cfg.dialect == "pgsql" then " OFFSET " + IntToStr(offset) + " LIMIT " + IntToStr(count)
      else " LIMIT " + IntToStr(offset) + "," + IntToStr(count)
  {
    var es := ListOf([Int(offset), Int(count)]);
    assert es == [Entry(IntKey(0), Int(offset)), Entry(IntKey(1), Int(count))];
    assert Get(es, IntKey(0)) == Int(offset);
    assert Get(es, IntKey(1)) == Int(count);
  }

  /** A LIMIT that is neither numeric nor an array never reaches the SQL. */
  lemma LimitRejectsText(cfg: Config, limit: Value)
    requires !IsNumeric(limit) && !limit.Arr?
    ensures LimitText(cfg, limit) == ""
  {
  }

  /** A column followed by a direction sorts by that column in that direction. */
  lemma SortTextPlain(cfg: Config, name: string, dir: string)
    requires forall k :: 0 <= k < |name| ==> IsDottedIdentChar(name[k])
    requires dir == "ASC" || dir == "DESC"
    ensures SortText(cfg, name + " " + dir) == QuoteColumn(cfg, name) + " " + dir
  {
    var s := name + " " + dir;
    assert !IsDottedIdentChar(s[|name|]);
    RunOver(s, 0, |name|, IsDottedIdentChar);
    assert s[..|name|] == name;
    assert !IsSpace(s[|name| + 1]);
    assert SpaceRun(s, |name|) == |name| + 1;
    var k := |name| + 1;
    assert s[k..] == dir;
    if dir == "ASC" {
      assert s[k..k + 3] == "ASC";
    } else {
      assert s[k..k + 4] == "DESC";
    }
  }

  /** Lower-case directions are upper-cased; a string key with any other
      scalar value is dropped. */
  lemma OrderItemDirections(cfg: Config, k: Key, v: Value)
    ensures OrderItem(cfg, Entry(k, Text("desc"))) == Some(QuoteColumn(cfg, KeyStr(k)) + " DESC")
    ensures OrderItem(cfg, Entry(k, Text("asc"))) == Some(QuoteColumn(cfg, KeyStr(k)) + " ASC")
    ensures k.StrKey? && !v.Arr? && v !in {Text("ASC"), Text("DESC"), Text("asc"), Text("desc")} ==>
      OrderItem(cfg, Entry(k, v)) == None
  {
  }

  /** The modifiers all differ, so each is copied at most once. */
  lemma ModifiersDistinct()
    ensures forall i, j :: 0 <= i < j < |Modifiers| ==> Modifiers[i] != Modifiers[j]
  {
  }

  /** Copying modifiers: each named key ends up with the WHERE array's own
      value if it has one and with the statement's value otherwise; every other
      key keeps the WHERE array's entry. */
  lemma {:induction false} CopyModifiersGet(struct: seq<Entry>, where: seq<Entry>, names: seq<string>, k: Key)
    requires forall i, j :: 0 <= i < j < |names| ==> names[i] != names[j]
    ensures k.StrKey? && k.s in names ==>
      Get(CopyModifiers(struct, where, names), k) == if IsSet(where, k) then Get(where, k) else Get(struct, k)
    ensures !(k.StrKey? && k.s in names) ==> Lookup(CopyModifiers(struct, where, names), k) == Lookup(where, k)
  {
    if |names| > 0 {
      var prefix := names[..|names| - 1];
      var n := names[|names| - 1];
      var m := StrKey(n);
      var w := CopyModifiers(struct, where, prefix);
      CopyModifiersGet(struct, where, prefix, k);
      CopyModifiersGet(struct, where, prefix, m);
      assert n !in prefix by {
        forall i | 0 <= i < |prefix| ensures prefix[i] != n {
          assert names[i] != names[|names| - 1];
        }
      }
      assert Lookup(w, m) == Lookup(where, m);
      assert forall x :: x in names <==> x in prefix || x == n;
    }
  }

  /** `suffixClause`'s WHERE array, for a statement whose WHERE is an array. */
  lemma SuffixWhereCopies(struct: seq<Entry>, where: seq<Entry>, k: Key)
    requires Get(struct, StrKey("WHERE")) == Arr(where)
    ensures SuffixWhere(struct).Arr?
    ensures k.StrKey? && k.s in Modifiers ==>
      Get(SuffixWhere(struct).entries, k) == if IsSet(where, k) then Get(where, k) else Get(struct, k)
    ensures !(k.StrKey? && k.s in Modifiers) ==> Lookup(SuffixWhere(struct).entries, k) == Lookup(where, k)
  {
    ModifiersDistinct();
    CopyModifiersGet(struct, where, Modifiers, k);
  }
}
