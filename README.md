# Hail-Framework core, modelled in Dafny

This project models five pieces of the Hail PHP framework and proves properties of them:

- **Medoo query builder** (`Hail/DB/Medoo.php`). It quotes identifiers and values and compiles condition arrays into WHERE text. It also assembles the GROUP / HAVING / ORDER / LIMIT clauses and builds SELECT (with JOINs), INSERT, UPDATE, DELETE and REPLACE statements. Modules: `SqlQuote`, `SqlWhere`, `SqlClause`, `SqlSelect`, `SqlModify`.
- **Migration manager** (`src/Database/Migration/Manager.php`). It decides which migrations `migrate`, `migrateToDateTime` and `rollback` run, in which order and direction. It orders seeds by their dependencies and computes the exit code of `printStatus`. Modules: `Migration` (a `Manager` class whose trace records each executed migration or seed), and `Seeds`.
- **Plural-formula builder** (`src/I18n/Gettext/Languages/Language.php`). It validates and filters CLDR plural categories, builds the gettext plural formula, and rewrites formulas with `reverseFormula` / `reduceFormula`. Modules: `PluralFormula` (the pure rewrites) and `Plural` (a `Language` class).
- **Latte output escapers** (`Hail/Latte/Runtime/Filters.php`): `escapeHtml`, `escapeHtmlComment`, `escapeXML`, `escapeCss`, `escapeICal` and `htmlAttributes`. Module: `Escape`.
- **Session segments** (`src/Session/Segment.php`). A segment is a name-scoped view of session data and of flash values for this request and the next. Module: `Session`, with a `SessionStore` class for the session state and the `$_SESSION` maps, and a `Segment` class.

Shared modules:

- `Wrappers` holds `Option` and `Result`.
- `Strings` holds `Join` (`implode`), `ReplaceAll` (`str_replace`), `Trim` and `Split` (`explode`).
- `Php` models PHP values and ordered arrays. An array is a sequence of key/value entries. It covers lookup, overwrite-or-append, unset, `(string)` casts, `is_numeric` and loose falsiness.

Where the source loops and mutates state, the model does the same. A `while` loop carries invariants tying its state to a specification function on the prefix processed so far. The method's `ensures` then equals that function, and the properties the source promises are proved about the function as lemmas. Pure PHP expressions are Dafny functions. Exceptions become `Err` results, and early `return`s of a void method become "no step recorded".

Regular expressions are modelled as hand-written recognisers for the exact patterns used. In PCRE without the `m` flag, `$` also matches before a final line feed, and the recognisers model that. `PDO::quote` and `Json::encode` are uninterpreted functions carried in the builder's `Config`.

Where a doc comment and the code disagree, the model follows the code. `keepFlash`'s comment (`src/Session/Segment.php:276-277`) says values already waiting for the next request take precedence. The code calls `array_merge(next, now)`, so the current value wins under a string key. `Session.KeepFlashKeeps` proves the code's behaviour.

Two defects of the code are the exception; both are rows under "## Findings". There the model keeps the code as written beside the corrected rule, and the statement builders use the corrected rule. The first is the LIKE guard of `Hail/DB/Medoo.php:407`: the compiler does not wrap a pattern that starts with `_`, where the code wraps `_a` into `%_a%`. The second is the named rollback target of `src/Database/Migration/Manager.php:445-450`: `rollback` resolves a name to the version recorded under it, where the code uses its position in the log. "## Left out" names each member this affects, one line per member.

## Model

| member | source | states |
|---|---|---|
| Php.Put | Hail/DB/Medoo.php:464 | `$a[$k] = $v` on an ordered array: the key then reads `v`, every other key reads as before |
| Php.Remove | src/Session/Segment.php:127 | `unset($a[$k])`: the key is gone, every other key reads as before |
| Php.Lookup | src/Session/Segment.php:64 | array access finds a value exactly when some entry has that key, and the value is that entry's |
| Php.DecimalTextIsOne | Hail/DB/Medoo.php:662 | under PHP 7's `$s == 1`, the decimal text of an integer equals 1 exactly when the integer is 1 |
| Php.LeadingOne | Hail/DB/Medoo.php:662 | `"1"` followed by anything that does not continue a number equals 1 (`"1abc" == 1`) |
| Php.FractionOne | Hail/DB/Medoo.php:662 | `"1.0" == 1` |
| Php.PaddedOne | Hail/DB/Medoo.php:662 | `" 1" == 1`: leading whitespace is skipped |
| Php.ExponentOne | Hail/DB/Medoo.php:662 | `"10e-1" == 1`: the exponent scales the digits |
| Php.FractionBelowOne | Hail/DB/Medoo.php:662 | `"0.1" == 1` does not hold |
| Strings.SplitJoin | Hail/DB/Medoo.php:731 | `explode` then `implode` with the same one-character separator gives the text back |
| Strings.JoinAppend | Hail/DB/Medoo.php:456 | `implode` of two non-empty lists is the two implodes joined by the separator |
| SqlQuote.QuoteTablePlain | Hail/DB/Medoo.php:224-231 | `quoteTable("t")` is `"<prefix>t"` |
| SqlQuote.QuoteTableQualified | Hail/DB/Medoo.php:226-227 | `quoteTable("db.t")` is `"db"."<prefix>t"` |
| SqlQuote.QuoteColumnStripsHash | Hail/DB/Medoo.php:235-237 | one leading `#` is ignored by `quoteColumn` |
| SqlQuote.QuoteColumnStar | Hail/DB/Medoo.php:239-241 | `quoteColumn("*")` is `*` |
| SqlQuote.QuoteColumnTableStar | Hail/DB/Medoo.php:243-246 | `quoteColumn("t.*")` is `quoteTable("t").*` |
| SqlQuote.QuoteColumnQualified | Hail/DB/Medoo.php:243-248 | `quoteColumn("t.c")` is `"<prefix>t"."c"` |
| SqlQuote.QuoteColumnPlain | Hail/DB/Medoo.php:251 | a name without `.` is quoted as `"c"` |
| SqlQuote.QuoteFn | Hail/DB/Medoo.php:305-308 | the result is the string itself or its driver quoting; it is raw only for a `#` column and a `NAME(...)` value |
| SqlQuote.FnCallShape | Hail/DB/Medoo.php:307 | every `NAME(args)` with upper-case/digit/underscore name and no `)` in args matches the raw-function pattern |
| SqlQuote.QuoteValueRawFunction | Hail/DB/Medoo.php:310-330 | a string bound to a `#` column and shaped `NAME(...)` is inserted raw |
| SqlQuote.QuoteValueQuotesText | Hail/DB/Medoo.php:327-328 | every other string value is quoted by the driver |
| SqlQuote.ListItems | Hail/DB/Medoo.php:288-290 | one `IN` list element per array element, in order; integers bare, the rest quoted |
| SqlQuote.QuoteArray | Hail/DB/Medoo.php:284-293 | the loop's result is the elements joined by `,` |
| SqlQuote.AliasMatch | Hail/DB/Medoo.php:266 | no result means the alias pattern matches at no position (leftmost-match semantics of `preg_match`) |
| SqlQuote.ColumnItems | Hail/DB/Medoo.php:265-278 | one select-list item per column entry, in order |
| SqlQuote.ColumnPush | Hail/DB/Medoo.php:254-281 | the loop's result is the select list: `*` unchanged, a string as a one-column list, items joined by `,` |
| SqlQuote.ColumnAliasShape | Hail/DB/Medoo.php:266-273 | a column written `name (alias)` becomes `"name" AS "alias"` |
| SqlWhere.BracketOp | Hail/DB/Medoo.php:346 | a recognised bracket suffix is one of the eight operators |
| SqlWhere.ParseKey | Hail/DB/Medoo.php:346-350 | an operator is only found after a non-empty column |
| SqlWhere.ParseKeyText | Hail/DB/Medoo.php:346-347 | parsing `#?name[op]?` gives back the name and the operator (round trip) |
| SqlWhere.GroupRelation | Hail/DB/Medoo.php:338-340 | a group relation comes only from a string key |
| SqlWhere.GroupRelationOf | Hail/DB/Medoo.php:340 | `AND`, `OR` in either case, optionally followed by ` #comment`, name a group of that relation |
| SqlWhere.DefaultOperator | Hail/DB/Medoo.php:429-452 | a key without suffix gives `IS NULL`, `IN (...)`, `= n`, `= 1/0` or `= quoteFn(v)` by value type |
| SqlWhere.NegatedOperator | Hail/DB/Medoo.php:352-375 | `[!]` gives `IS NOT NULL`, `NOT IN (...)` or `!= v` by value type |
| SqlWhere.RangeOperator | Hail/DB/Medoo.php:377-389 | `[<>]`/`[><]` give `(col [NOT ]BETWEEN a AND b)`, bare when both bounds are numeric and quoted otherwise; no fragment for a non-array |
| SqlWhere.LikeOperator | Hail/DB/Medoo.php:391-415 | `[~]`/`[!~]` give one `[NOT ]LIKE` fragment per item, joined by ` OR ` |
| SqlWhere.ComparisonOperator | Hail/DB/Medoo.php:417-428 | `>`, `>=`, `<`, `<=`: a numeric value is written bare; any other value under a key without `#` is quoted by the driver |
| SqlWhere.LikeTrailingUnderscore | Hail/DB/Medoo.php:403-404 | a final `_` becomes `%` |
| SqlWhere.LikeTrailingPercent | Hail/DB/Medoo.php:405-406 | a final `%` is removed and a `%` is put in front |
| SqlWhere.LikeWrapsPlain | Hail/DB/Medoo.php:407-408 | a single-line pattern not starting with `%`, `[`, `_` and not ending with `%`, `]`, `_` is wrapped in `%...%` |
| SqlWhere.LikeKeepsAnchored | Hail/DB/Medoo.php:407 | a pattern starting with `%`, `[` or `_` that does not end with `%` or `_` is kept as is |
| SqlWhere.LikeGuardAsWrittenDiffers | Hail/DB/Medoo.php:407 | the guard as written accepts everything the mirrored guard does, and more exactly on patterns starting with `_` |
| SqlWhere.LikeGuardAsWrittenExample | Hail/DB/Medoo.php:407 | `_a` passes the guard as written but not the mirrored guard |
| SqlWhere.LikeFragments | Hail/DB/Medoo.php:399-412 | one LIKE fragment per item |
| SqlWhere.LikeClause | Hail/DB/Medoo.php:391-415 | the loop's result is the LIKE condition |
| SqlWhere.InnerItems | Hail/DB/Medoo.php:298-300 | one parenthesised element per list element |
| SqlWhere.InnerConjunct | Hail/DB/Medoo.php:295-303 | the loop's result is `innerConjunct`: elements compiled on their own, joined by the outer conjunctor |
| SqlWhere.EntryCondition | Hail/DB/Medoo.php:336-453 | one entry's condition, group or leaf |
| SqlWhere.DataImplode | Hail/DB/Medoo.php:332-457 | the loop's result is the conditions of the array joined by `conj + ' '` |
| SqlWhere.FragmentsAppend | Hail/DB/Medoo.php:336-454 | fragments of a concatenation are the concatenated fragments (conditions are compiled entry by entry) |
| SqlWhere.ConditionsAppend | Hail/DB/Medoo.php:456 | conditions of two non-empty levels joined are the two joined by the conjunctor and a space |
| SqlWhere.ConditionsSingle | Hail/DB/Medoo.php:456 | a level with one entry is that entry's condition |
| SqlWhere.GroupOfMap | Hail/DB/Medoo.php:342-343 | an associative group value is compiled recursively with the group's relation and wrapped once in parentheses |
| SqlWhere.GroupOfList | Hail/DB/Medoo.php:342-344 | a 0-based list group value compiles and parenthesises each element on its own, joined by the outer conjunctor |
| SqlClause.FirstKey | Hail/DB/Medoo.php:480-481 | the first key matching `/^AND\s*#?$/i` (or `OR`), or none exactly when no key matches |
| SqlClause.Singles | Hail/DB/Medoo.php:483-485 | the loose conditions: entries of the array without a reserved key |
| SqlClause.SinglesIdempotent | Hail/DB/Medoo.php:483-485 | dropping the reserved keys twice is dropping them once |
| SqlClause.SinglesAppend | Hail/DB/Medoo.php:483-485 | `array_diff_key` distributes over concatenation |
| SqlClause.LooseConditionsOnly | Hail/DB/Medoo.php:487-492 | without an `AND`/`OR` key, the WHERE part is that of the loose conditions alone |
| SqlClause.OrKeyDecides | Hail/DB/Medoo.php:499-502 | a top-level `OR` key decides the WHERE part alone: the result is the same as for an array holding only that entry |
| SqlClause.AndKeyDecides | Hail/DB/Medoo.php:494-497 | without an `OR` key, a top-level `AND` key decides the WHERE part alone, in the same way |
| SqlClause.WordKeyForms | Hail/DB/Medoo.php:480-481 | the key tests accept any case and a trailing `#`, and reject `AND #1` and `ORDER` |
| SqlClause.SinglesPutReserved | Hail/DB/Medoo.php:483-485 | setting a reserved key leaves the loose conditions alone |
| SqlClause.FirstKeyPutOther | Hail/DB/Medoo.php:480-481 | setting a key that is no `AND`/`OR` key leaves the first such key alone |
| SqlClause.ConditionPutHaving | Hail/DB/Medoo.php:483-502 | setting HAVING leaves the WHERE part as it was |
| SqlClause.OthersPutHaving | Hail/DB/Medoo.php:504-563 | setting HAVING leaves MATCH, ORDER and LIMIT as they were |
| SqlClause.HavingNeedsGroup | Hail/DB/Medoo.php:512-518 | HAVING is emitted only together with GROUP |
| SqlClause.WhereArrayPutHaving | Hail/DB/Medoo.php:512-518 | without GROUP, the clause of an array ignores its HAVING |
| SqlClause.WhereTextArray | Hail/DB/Medoo.php:473-478 | a non-empty array goes through the array branch |
| SqlClause.EmptyWhereArray | Hail/DB/Medoo.php:473-475 | an empty array gives the empty clause |
| SqlClause.LimitPair | Hail/DB/Medoo.php:552-561 | `[o, c]` gives `OFFSET o LIMIT c` for pgsql and `LIMIT o,c` otherwise |
| SqlClause.LimitRejectsText | Hail/DB/Medoo.php:547-563 | a LIMIT that is neither numeric nor an array adds nothing |
| SqlClause.SortText | Hail/DB/Medoo.php:521-543 | an ORDER string sorts by the quoted leading dotted-identifier run |
| SqlClause.SortTextPlain | Hail/DB/Medoo.php:542-543 | `name ASC`/`name DESC` sorts by that column in that direction |
| SqlClause.OrderItemDirections | Hail/DB/Medoo.php:527-537 | `asc`/`desc` are upper-cased; a string key with any other scalar value is skipped |
| SqlClause.QuotedColumns | Hail/DB/Medoo.php:513 | one quoted column per GROUP element |
| SqlClause.OrderBy | Hail/DB/Medoo.php:524-540 | the loop's result is the ORDER items joined by `,` |
| SqlClause.ConditionPart | Hail/DB/Medoo.php:483-502 | the step-by-step WHERE part equals its specification |
| SqlClause.GroupPart | Hail/DB/Medoo.php:512-518 | the GROUP BY / HAVING part equals its specification |
| SqlClause.OrderPart | Hail/DB/Medoo.php:520-545 | the ORDER BY part equals its specification |
| SqlClause.WhereClause | Hail/DB/Medoo.php:471-569 | `whereClause` grown part by part equals its specification |
| SqlClause.ModifiersDistinct | Hail/DB/Medoo.php:462 | the four modifiers GROUP, ORDER, LIMIT, HAVING differ |
| SqlClause.CopyModifiersGet | Hail/DB/Medoo.php:462-466 | each modifier is the WHERE array's own value if set there, else the statement's; other keys are untouched |
| SqlClause.SuffixWhereCopies | Hail/DB/Medoo.php:459-469 | `suffixClause`'s WHERE array takes each missing modifier from the statement |
| SqlClause.SuffixClause | Hail/DB/Medoo.php:459-469 | the loop's result is `whereClause` of that array |
| SqlClause.CopyLoop | Hail/DB/Medoo.php:461-465 | the loop copies exactly the modifiers set in the statement and not already in WHERE, in `CopyModifiers` order |
| SqlSelect.Coalesce | Hail/DB/Medoo.php:573 | `??` is null only when both sides are |
| SqlSelect.SelectRoles | Hail/DB/Medoo.php:571-588 | SELECT names the columns when TABLE or FROM names the table, otherwise it names the table and the columns are `*` |
| SqlSelect.JoinOp | Hail/DB/Medoo.php:619 | the JOIN operator is one of `<`, `>`, `><`, `<>` or absent |
| SqlSelect.JoinOpOf | Hail/DB/Medoo.php:619 | `[op]` reads back as `op` |
| SqlSelect.ParseJoinMarked | Hail/DB/Medoo.php:619 | after `[op]` the rest is parsed as the name and alias |
| SqlSelect.NameAliasPlain | Hail/DB/Medoo.php:619 | a bare name has no alias |
| SqlSelect.NameAliasParen | Hail/DB/Medoo.php:619 | `name(alias)` gives both |
| SqlSelect.ParseJoinPlain | Hail/DB/Medoo.php:619 | `[op]name` gives the operator and the table |
| SqlSelect.ParseJoinAliased | Hail/DB/Medoo.php:619 | `[op]name(alias)` gives the operator, the table and the alias |
| SqlSelect.JoinSigns | Hail/DB/Medoo.php:611-616 | `>` LEFT, `<` RIGHT, `<>` FULL, `><` INNER |
| SqlSelect.JoinDropsUnmarked | Hail/DB/Medoo.php:621 | a JOIN key without `[op]` adds no join |
| SqlSelect.JoinUsingColumn | Hail/DB/Medoo.php:622-623 | a string relation gives `KIND JOIN "t" USING ("c")` |
| SqlSelect.JoinUsingOf | Hail/DB/Medoo.php:648-653 | a `USING` relation is placed after the quoted table |
| SqlSelect.PhraseUnaliased | Hail/DB/Medoo.php:648-653 | an unaliased join reads `KIND JOIN "t" relation` |
| SqlSelect.JoinMarked | Hail/DB/Medoo.php:621-653 | the join text of a key `[op]name` |
| SqlSelect.JoinUsingList | Hail/DB/Medoo.php:626-627 | a list relation gives `USING ("a", "b", ...)` |
| SqlSelect.JoinOn | Hail/DB/Medoo.php:629-644 | a map relation gives `ON` pairs joined by ` AND ` |
| SqlSelect.OnPairForms | Hail/DB/Medoo.php:632-641 | a bare key is a column of the main table, a `t.c` key is `"<prefix>t"."c"`; the value is a column of the joined table |
| SqlSelect.OnPairs | Hail/DB/Medoo.php:631-642 | one `ON` pair per relation entry |
| SqlSelect.StrVals | Hail/DB/Medoo.php:627 | the list's values as strings, in order |
| SqlSelect.JoinItemsAppend | Hail/DB/Medoo.php:618-655 | joins keep the JOIN array's order and drop only unmarked entries |
| SqlSelect.SelectColumnForms | Hail/DB/Medoo.php:660-670 | without FUN the columns are `columnPush`; a FUN loosely equal to 1 selects `1`; any other FUN wraps the columns in a call named by it |
| SqlSelect.FunNumericText | Hail/DB/Medoo.php:662 | `FUN => "1.0"` selects `1`, since `"1.0" == 1` |
| SqlSelect.NoSuffix | Hail/DB/Medoo.php:459-469 | no WHERE and no modifiers give an empty suffix |
| SqlSelect.CopyNothing | Hail/DB/Medoo.php:462-466 | unset modifiers copy nothing |
| SqlSelect.SelectWholeTable | Hail/DB/Medoo.php:590-607 | `selectContext("t")` for a table name without `(` is `SELECT * FROM "<prefix>t"` |
| SqlSelect.NoAliasWithoutParen | Hail/DB/Medoo.php:599 | a table without `(` has no alias |
| SqlSelect.OnClause | Hail/DB/Medoo.php:629-644 | the loop's result is `ON` and the pairs joined by ` AND ` |
| SqlSelect.JoinEntry | Hail/DB/Medoo.php:619-654 | one entry of the JOIN loop equals its specification |
| SqlSelect.JoinClause | Hail/DB/Medoo.php:609-658 | the loop's result is the joins joined by a space |
| SqlSelect.FromPart | Hail/DB/Medoo.php:598-658 | the FROM list with the main table's alias and the joins |
| SqlSelect.ColumnPart | Hail/DB/Medoo.php:660-670 | the select list with the FUN shorthand |
| SqlSelect.SelectContext | Hail/DB/Medoo.php:590-673 | `selectContext` equals its specification |
| SqlModify.KeywordWords | Hail/DB/Medoo.php:735-749 | the cleaned keyword words: `INSERT` or `REPLACE` (REPLACE exactly when requested), an allowed modifier or nothing, `IGNORE` or nothing, never `IGNORE IGNORE` |
| SqlModify.KeywordWordsSafe | Hail/DB/Medoo.php:751 | the joined and trimmed words form an allowed keyword |
| SqlModify.InsertKeywordSafe | Hail/DB/Medoo.php:730-755 | whatever keyword is requested, the statement starts with an allowed INSERT/REPLACE keyword |
| SqlModify.InsertKeywordVerb | Hail/DB/Medoo.php:730-737 | a REPLACE request keeps its verb; any other verb becomes INSERT |
| SqlModify.InsertColumns | Hail/DB/Medoo.php:784-785 | one quoted column per key of the row |
| SqlModify.InsertValues | Hail/DB/Medoo.php:784-786 | one quoted value per entry of the row |
| SqlModify.InsertStatements | Hail/DB/Medoo.php:779-790 | one statement per row, in order |
| SqlModify.ValueTuples | Hail/DB/Medoo.php:769-775 | one value tuple per row, in order |
| SqlModify.InsertSingleRow | Hail/DB/Medoo.php:758-760 | an associative data array is one row, so one statement |
| SqlModify.InsertManyRows | Hail/DB/Medoo.php:758-791 | a list of rows gives one statement per row, in order |
| SqlModify.MultiInsertTuples | Hail/DB/Medoo.php:762-777 | every row of a multi-row insert contributes one value tuple |
| SqlModify.RowLists | Hail/DB/Medoo.php:781-787 | the inner loop's column and value lists equal their specifications |
| SqlModify.RowTuple | Hail/DB/Medoo.php:770-774 | the inner loop's tuple equals its specification |
| SqlModify.TupleList | Hail/DB/Medoo.php:768-775 | the outer loop's tuples equal their specification |
| SqlModify.MultiInsert | Hail/DB/Medoo.php:762-777 | the multi-row statement equals its specification |
| SqlModify.RowInserts | Hail/DB/Medoo.php:779-791 | the per-row statements equal their specification |
| SqlModify.InsertContext | Hail/DB/Medoo.php:719-794 | `insertContext` equals its specification |
| SqlModify.ArithKey | Hail/DB/Medoo.php:868-870 | an arithmetic key names a non-empty column and one of `+ - * /` |
| SqlModify.ArithKeyPlain | Hail/DB/Medoo.php:868 | a word-only key is a plain assignment |
| SqlModify.ArithKeyMarked | Hail/DB/Medoo.php:868 | `name[op]` reads back as the column and the operator |
| SqlModify.UpdateArithmetic | Hail/DB/Medoo.php:870-873 | `name[op] => v` gives `"name" = "name" op v` for numeric v and nothing otherwise |
| SqlModify.UpdatePlain | Hail/DB/Medoo.php:874-877 | a plain key assigns the quoted value |
| SqlModify.SetList | Hail/DB/Medoo.php:865-878 | the loop's SET list equals its specification |
| SqlModify.Update | Hail/DB/Medoo.php:854-883 | the statement `update` sends is `UpdateText`: the table, the SET list and the suffix clause |
| SqlModify.Delete | Hail/DB/Medoo.php:891-904 | the statement `delete` sends is `DeleteText`: the table and the suffix clause |
| SqlModify.StatementArrayIgnoresWhere | Hail/DB/Medoo.php:857-896 | with a statement array, the separate `$where` argument plays no part |
| SqlModify.ReplacePairs | Hail/DB/Medoo.php:922-924 | one `REPLACE(...)` per search/replacement pair, the key and the value each through `PDO::quote` |
| SqlModify.ReplaceColumn | Hail/DB/Medoo.php:922-924 | the inner loop equals its specification |
| SqlModify.Replace | Hail/DB/Medoo.php:915-943 | the statement `replace` sends is `ReplaceText`: the table, the `REPLACE(...)` assignments and the suffix clause |
| SqlModify.ReplaceWhereArgument | Hail/DB/Medoo.php:918-936 | with a columns array, the `$replace` and `$where` arguments play no part (`$search` is the WHERE); with a search array, `$where` plays no part |
| SqlModify.ReplaceColumnsAppend | Hail/DB/Medoo.php:921-925 | the replacements of several columns keep the columns' order |
| Seeds.Put | src/Database/Migration/Manager.php:753-756 | `$a[$k] = $seed`: the keys are the old ones plus `k`, the old ones keep their order, no key repeats |
| Seeds.Merge | src/Database/Migration/Manager.php:754 | `array_merge` of string-keyed arrays: the keys of both, no key repeats |
| Seeds.InstancesOf | src/Database/Migration/Manager.php:728-732 | a dependency is added exactly when it is a loaded seed |
| Seeds.DepInstances | src/Database/Migration/Manager.php:722-737 | the instances are exactly the dependencies that are loaded seeds, without repeats |
| Seeds.DependencyInstances | src/Database/Migration/Manager.php:722-737 | the two loops compute `DepInstances` |
| Seeds.OrderSeeds | src/Database/Migration/Manager.php:746-761 | the loop computes `OrderFrom` |
| Seeds.SeedTurn | src/Database/Migration/Manager.php:750-757 | one loop turn computes `OrderStep` |
| Seeds.OrderFromFails | src/Database/Migration/Manager.php:749-758 | a failure on a prefix is a failure on the whole list |
| Seeds.PutKeepsOrder | src/Database/Migration/Manager.php:756 | appending a seed whose dependencies are present keeps dependencies ahead |
| Seeds.MergeKeepsOrder | src/Database/Migration/Manager.php:754 | merging keeps dependencies ahead |
| Seeds.OrderStepSound | src/Database/Migration/Manager.php:750-757 | one turn keeps keys distinct and dependencies ahead, and adds only the seed and loaded seeds |
| Seeds.PutDeps | src/Database/Migration/Manager.php:753-754 | the seed put after its ordered dependencies finds them ahead |
| Seeds.OrderFromSound | src/Database/Migration/Manager.php:746-761 | the result holds every seed, no repeats, nothing but seeds and loaded dependencies, and every loaded dependency of a seed comes before it |
| Seeds.IndependentSeedsKeepOrder | src/Database/Migration/Manager.php:755-757 | seeds without loaded dependencies keep their order |
| Seeds.AcyclicTerminates | src/Database/Migration/Manager.php:746-761 | when a rank drops along every loaded dependency and the fuel covers the seeds' ranks, the ordering finishes |
| Migration.MaxOf | src/Database/Migration/Manager.php:275-301 | `max` is an element and bounds all others |
| Migration.Steps | src/Database/Migration/Manager.php:325-337 | one executed migration per version, in order, in the given direction |
| Migration.Outstanding | src/Database/Migration/Manager.php:270-272 | the versions at or before the date, and only those |
| Migration.DateTarget | src/Database/Migration/Manager.php:267-278 | the newest available version at or before the date, none exactly when every version is later |
| Migration.Known | src/Database/Migration/Manager.php:432-438 | the log rows kept are those that have a migration |
| Migration.Reverse | src/Database/Migration/Manager.php:433 | `array_unshift` builds the rows newest first |
| Migration.VersionsOf | src/Database/Migration/Manager.php:459 | the versions of the rows, in order |
| Migration.NamedVersion | src/Database/Migration/Manager.php:445-446 | the version of the first row with that name, none exactly when no row has it |
| Migration.NamedPosition | src/Database/Migration/Manager.php:445-446 | the first position holding the name, as `array_search` returns it in the renumbered name column; none exactly when no row has it |
| Migration.Missing | src/Database/Migration/Manager.php:117 | the logged versions without a migration |
| Migration.StatusCode | src/Database/Migration/Manager.php:117-235 | 2 when a logged version is missing, else 1 when a migration is down, else 0; 0 with no migrations |
| Migration.Manager.constructor | src/Database/Migration/Manager.php:70-74 | a new manager holds the given ascending migration versions and seeds and has executed nothing |
| Migration.Manager.ExecuteMigration | src/Database/Migration/Manager.php:351-371 | one migration step is appended to the trace |
| Migration.Manager.ExecuteSeed | src/Database/Migration/Manager.php:381-401 | one seed step is appended to the trace |
| Migration.Manager.RunDowns | src/Database/Migration/Manager.php:316-327 | the down loop appends exactly `DownSteps` |
| Migration.Manager.RunUps | src/Database/Migration/Manager.php:330-339 | the up loop appends exactly `UpSteps` |
| Migration.Manager.Migrate | src/Database/Migration/Manager.php:289-340 | `migrate` appends exactly `MigratePlan` |
| Migration.Manager.MigrateToDateTime | src/Database/Migration/Manager.php:265-279 | migrates to `DateTarget`, or does nothing when there is none |
| Migration.Manager.SortByLog | src/Database/Migration/Manager.php:424-439 | the first loop keeps the known rows and orders them newest first |
| Migration.Manager.RevertUntil | src/Database/Migration/Manager.php:481-505 | the second loop appends exactly `RollbackSteps` as down steps |
| Migration.Manager.ResolveTarget | src/Database/Migration/Manager.php:441-478 | the target resolution equals `ResolvedTarget` |
| Migration.Manager.Rollback | src/Database/Migration/Manager.php:413-510 | `rollback` appends exactly `RollbackPlan` as down steps |
| Seeds.ReorderKeepsRecords | src/Database/Migration/Manager.php:818 | storing the loaded records in an order that holds every loaded name once keeps the loaded names and each seed's dependencies |
| Migration.Manager.GetSeeds | src/Database/Migration/Manager.php:818-820 | the result is the dependency order of the loaded seeds, and the manager stores the seed records in that order for the next call (unchanged when the ordering does not finish) |
| Migration.StoredSeeds | src/Database/Migration/Manager.php:818 | the stored seeds are the same records, keyed in the computed order, with every loaded dependency ahead of its dependant |
| Migration.Manager.ExecuteSeeds | src/Database/Migration/Manager.php:524-529 | the loop of `seed` records one seed step per ordered seed, in order, and changes nothing else |
| Migration.Manager.RunSeeds | src/Database/Migration/Manager.php:520-539 | every seed in order, or only the named one, or an error for an unknown name; the reordered seeds stay stored as `getSeeds` leaves them |
| Migration.Manager.PrintStatus | src/Database/Migration/Manager.php:84-236 | the exit code is `StatusCode` |
| Migration.SeedNames | src/Database/Migration/Manager.php:526-527 | the keys of the loaded seeds, in order |
| Migration.SeedSteps | src/Database/Migration/Manager.php:526-529 | one seed step per name |
| Migration.RollbackStepsSpec | src/Database/Migration/Manager.php:483-505 | the rollback reverts newest-first rows up to the first stop: the target under must-match, a key at or below the target otherwise, an unforced breakpoint |
| Migration.DownStepAt | src/Database/Migration/Manager.php:319-327 | one turn of the down loop |
| Migration.RollbackAdvance | src/Database/Migration/Manager.php:488-503 | a turn that reverts its row |
| Migration.RollbackStop | src/Database/Migration/Manager.php:484-501 | a turn that stops the loop |
| Migration.DownStepsExact | src/Database/Migration/Manager.php:316-327 | the down phase reverts exactly the executed migrations above the target, newest first |
| Migration.UpStepsExact | src/Database/Migration/Manager.php:330-339 | the up phase applies exactly the unexecuted migrations at or below the target, oldest first |
| Migration.MigrateNothing | src/Database/Migration/Manager.php:296-310 | nothing with no migrations and no log, or with a nonzero unknown target |
| Migration.MigrateDirections | src/Database/Migration/Manager.php:314-339 | up when target > current; no down step then; every up step at or below the target and not executed, every down step above it and executed |
| Migration.MigrateLatest | src/Database/Migration/Manager.php:300-301 | with no target, migrate heads for the newest version known anywhere |
| Migration.RollbackNoStop | src/Database/Migration/Manager.php:483-505 | a loop no row stops reverts every row, in order |
| Migration.ResolvedAll | src/Database/Migration/Manager.php:441-442 | `'all'` is target 0 |
| Migration.RollbackAllForced | src/Database/Migration/Manager.php:441-505 | `'all'` with force reverts every executed migration, newest first |
| Migration.RollbackPrevious | src/Database/Migration/Manager.php:466-471 | no target reverts exactly the last executed migration |
| Migration.RollbackToLast | src/Database/Migration/Manager.php:458-464 | an empty log, or the last executed version as target, reverts nothing |
| Migration.KnownAll | src/Database/Migration/Manager.php:432-438 | a log whose versions all have migrations is kept whole |
| Migration.NamedRollbackIntended | src/Database/Migration/Manager.php:443-456 | rolling back to the first of two migrations by name reverts the second |
| Migration.NamedRollbackAsWrittenDiffers | src/Database/Migration/Manager.php:445-477 | as written, that call reverts nothing under must-match, and everything otherwise |
| PluralFormula.Anchor | src/I18n/Gettext/Languages/Language.php:320 | `$` matches at the end or before a final line feed |
| PluralFormula.ComparisonAt | src/I18n/Gettext/Languages/Language.php:320-323 | where the operator of a single comparison sits |
| PluralFormula.Reduce | src/I18n/Gettext/Languages/Language.php:349-357 | the two mapped formulas are rewritten, everything else is kept |
| PluralFormula.ReduceIdempotent | src/I18n/Gettext/Languages/Language.php:349-357 | reducing twice is reducing once |
| PluralFormula.ReverseFlips | src/I18n/Gettext/Languages/Language.php:320-325 | a single comparison gets ` == ` and ` != ` swapped and stays a single comparison of the other kind |
| PluralFormula.ReverseOnComparison | src/I18n/Gettext/Languages/Language.php:320-325 | a single comparison is reversed by replacing its operator everywhere |
| PluralFormula.ReverseTwice | src/I18n/Gettext/Languages/Language.php:320-325 | reversing a single comparison twice gives it back |
| PluralFormula.ComparisonExclusive | src/I18n/Gettext/Languages/Language.php:320-325 | a formula is a single comparison of at most one kind |
| PluralFormula.ReverseEither | src/I18n/Gettext/Languages/Language.php:326-328 | `n == a \|\| n == b`, bracketed or not, becomes `n != a && n != b` |
| PluralFormula.ReverseOnEither | src/I18n/Gettext/Languages/Language.php:326-328 | an either-formula that is not a single comparison has its operators swapped and its outer brackets trimmed |
| PluralFormula.EitherMatches | src/I18n/Gettext/Languages/Language.php:326 | `n == a \|\| n == b`, bracketed or not, matches the either-pattern |
| PluralFormula.ReverseBoth | src/I18n/Gettext/Languages/Language.php:330-332 | `x == a && y != b` becomes `x != a \|\| y == b` (De Morgan) |
| PluralFormula.BothMatches | src/I18n/Gettext/Languages/Language.php:330 | `x == a && y != b` matches the both-pattern, with its four groups read back |
| Plural.Ids | src/I18n/Gettext/Languages/Language.php:211 | the ids of the categories, in order |
| Plural.Keep | src/I18n/Gettext/Languages/Language.php:185-217 | a filter: an element is kept exactly when it is in the list and passes |
| Plural.KeepSubsequence | src/I18n/Gettext/Languages/Language.php:185-193 | what the filter keeps is a subsequence |
| Plural.FindRepeat | src/I18n/Gettext/Languages/Language.php:80-88 | the first category whose id repeats an earlier one |
| Plural.RepeatIff | src/I18n/Gettext/Languages/Language.php:82-86 | no repeat found exactly when all ids are distinct |
| Plural.Insert | src/I18n/Gettext/Languages/Language.php:95-98 | inserting keeps the list sorted by CLDR rank and is a permutation |
| Plural.SortByRank | src/I18n/Gettext/Languages/Language.php:95-98 | `usort` by CLDR rank: sorted and a permutation |
| Plural.ValidatedRejects | src/I18n/Gettext/Languages/Language.php:80-103 | the constructor throws exactly on a repeated id, on an empty list, and on a sorted list not ending in `other` |
| Plural.ValidatedKeeps | src/I18n/Gettext/Languages/Language.php:94-103 | otherwise the categories are sorted by CLDR rank, a permutation of the input, ending in `other` |
| Plural.AlwaysTrueOutcome | src/I18n/Gettext/Languages/Language.php:151-173 | with an always-true category: success exactly when it has examples and no other one has; then the list is that category renamed `other` with no formula |
| Plural.AlwaysTrueAbsent | src/I18n/Gettext/Languages/Language.php:163 | without one the list is unchanged |
| Plural.AlwaysFalseOutcome | src/I18n/Gettext/Languages/Language.php:182-195 | throws exactly when an always-false category has examples; otherwise removes exactly the always-false ones and keeps the rest in order |
| Plural.KeepEvery | src/I18n/Gettext/Languages/Language.php:210-217 | a filter every element passes returns the list |
| Plural.GoodExists | src/I18n/Gettext/Languages/Language.php:225-272 | when the one/few/many/other key matches, some category has examples |
| Plural.RenameLast | src/I18n/Gettext/Languages/Language.php:270-275 | the last good category is renamed `other` with no formula when the dropped list ends in `other` |
| Plural.ExamplesNoop | src/I18n/Gettext/Languages/Language.php:220-222 | a no-op when every category has examples |
| Plural.ExamplesUnhandled | src/I18n/Gettext/Languages/Language.php:225-268 | a category without examples, outside the one handled case (ids one, few, many, other with only `other` lacking examples), throws, naming the bad ids and all ids |
| Plural.ExamplesAccepted | src/I18n/Gettext/Languages/Language.php:225-276 | acceptance happens only in the handled case and when the formula is one of the two in which `other` never occurs for integers; then only the categories with examples stay, and the last is renamed `other` when `other` was dropped |
| Plural.LastReplaced | src/I18n/Gettext/Languages/Language.php:272-276 | replacing the last element adds only that element |
| Plural.ExamplesKept | src/I18n/Gettext/Languages/Language.php:276 | every kept category has examples and every kept formula comes from the input |
| Plural.FormulaOne | src/I18n/Gettext/Languages/Language.php:288-290 | one category gives `0` |
| Plural.FormulaTwo | src/I18n/Gettext/Languages/Language.php:291-292 | two categories give the first's comparison flipped, then reduced |
| Plural.Guard | src/I18n/Gettext/Languages/Language.php:296-299 | the guard is bracketed |
| Plural.ChainOrder | src/I18n/Gettext/Languages/Language.php:294-304 | the ternary tests guards 0..n-2 in order and defaults to n-1 |
| Plural.ChainSelect | src/I18n/Gettext/Languages/Language.php:294-304 | evaluating the ternary picks the first guard that holds, else the default |
| Plural.FormulaChain | src/I18n/Gettext/Languages/Language.php:293-306 | n >= 3 categories give that chain of the reduced guards |
| Plural.ConvertedCategories | src/I18n/Gettext/Languages/Language.php:70-109 | after construction every category has examples, none is always-false, and the formula is built from them |
| Plural.Language.Build | src/I18n/Gettext/Languages/Language.php:70-109 | the constructor's state equals `Converted`, or it fails with its error |
| Plural.Language.Validate | src/I18n/Gettext/Languages/Language.php:79-103 | collection, emptiness, sorting and the `other` check equal `Validated` |
| Plural.Language.Collect | src/I18n/Gettext/Languages/Language.php:80-88 | the nested loops fail exactly at `FindRepeat` |
| Plural.Language.CheckAlwaysTrue | src/I18n/Gettext/Languages/Language.php:151-173 | the method's error or new categories equal `AlwaysTrueChecked` |
| Plural.Language.CheckAlwaysFalse | src/I18n/Gettext/Languages/Language.php:182-195 | the method's error or new categories equal `AlwaysFalseChecked` |
| Plural.Language.CheckAllWithExamples | src/I18n/Gettext/Languages/Language.php:204-277 | the method's error or new categories equal `ExamplesChecked` |
| Plural.Language.Partition | src/I18n/Gettext/Languages/Language.php:210-218 | all ids, good and bad categories and bad ids, as the loop splits them |
| Plural.Language.BuildFormula | src/I18n/Gettext/Languages/Language.php:284-308 | the descending loop's formula equals `FormulaOf` |
| Escape.Delete | Hail/Latte/Runtime/Filters.php:132 | `preg_replace` of a class by `''`: a character remains exactly when it was there and is not in the class (also the `preg_replace` of `escapeXML`, line 85) |
| Escape.EncodeFuse | Hail/Latte/Runtime/Filters.php:85 | two per-character maps in turn are one map |
| Escape.ReplaceCharEncode | Hail/Latte/Runtime/Filters.php:480-483 | `str_replace` of one character is a per-character map |
| Escape.DecodeEncode | Hail/Latte/Runtime/Filters.php:47 | entity decoding undoes any map whose images decode back |
| Escape.HtmlEntityDecodes | Hail/Latte/Runtime/Filters.php:47 | every `htmlspecialchars` image decodes back to its character |
| Escape.SpecialCharsDecode | Hail/Latte/Runtime/Filters.php:47 | `htmlspecialchars` is undone by decoding, for all quote flags |
| Escape.SpecialCharsSafe | Hail/Latte/Runtime/Filters.php:47 | no `<` or `>`; no `"` / `'` when that quote is escaped |
| Escape.EscapeHtmlDecode | Hail/Latte/Runtime/Filters.php:37-48 | decoding gives back the input, plus the one space the backtick rule adds |
| Escape.EscapeHtmlSafe | Hail/Latte/Runtime/Filters.php:43-47 | with `ENT_QUOTES` the output holds none of `<`, `>`, `"`, `'` |
| Escape.DashesSplit | Hail/Latte/Runtime/Filters.php:64 | replacing `--` by `- - ` leaves no two adjacent dashes and keeps the first character |
| Escape.DashesKept | Hail/Latte/Runtime/Filters.php:64 | text without `--` is left alone |
| Escape.CommentSafe | Hail/Latte/Runtime/Filters.php:58-70 | the output has no `--`, and when not empty does not start with `-`, `>`, `!` nor end with `-` (HTML comment text) |
| Escape.CommentKeepsSafe | Hail/Latte/Runtime/Filters.php:58-70 | valid comment text is returned unchanged |
| Escape.EscapeXmlDecode | Hail/Latte/Runtime/Filters.php:80-86 | decoding gives back the input without the forbidden C0 controls |
| Escape.EscapeXmlSafe | Hail/Latte/Runtime/Filters.php:85 | the output holds no forbidden control and none of `<`, `>`, `"`, `'` |
| Escape.UnslashEncode | Hail/Latte/Runtime/Filters.php:99 | unslashing undoes any map whose images read back (the `addcslashes` of `escapeCss`, and of `escapeICal` at line 132) |
| Escape.SlashImagesUnslash | Hail/Latte/Runtime/Filters.php:99 | for a list holding the backslash and no C letter or octal digit, every `addcslashes` image reads back (`escapeCss`, and `escapeICal` at line 132) |
| Escape.SlashImagesPrintable | Hail/Latte/Runtime/Filters.php:99 | the only control an image can hold is an unlisted character itself (`escapeCss`, and `escapeICal` at line 132) |
| Escape.EscapeCssDecode | Hail/Latte/Runtime/Filters.php:96-100 | unslashing gives back the input |
| Escape.EscapeCssPrintable | Hail/Latte/Runtime/Filters.php:99 | the output holds no control character |
| Escape.EscapeICalDecode | Hail/Latte/Runtime/Filters.php:129-133 | unslashing gives back the input without the dropped controls |
| Escape.EscapeICalPrintable | Hail/Latte/Runtime/Filters.php:132 | no control but tab survives, so no line break |
| Escape.Parts | Hail/Latte/Runtime/Filters.php:462-467 | no parts exactly when every entry is loosely null |
| Escape.AttrEscapeMap | Hail/Latte/Runtime/Filters.php:480-483 | the three `str_replace` steps are one per-character map |
| Escape.AttrEscapeSpace | Hail/Latte/Runtime/Filters.php:485 | the backtick rule's trailing space passes through the escaping |
| Escape.AttrEscapeSafe | Hail/Latte/Runtime/Filters.php:478-484 | the chosen quote never appears in the escaped value, no `<` in XHTML mode, and decoding gives the value back |
| Escape.QuotedSafe | Hail/Latte/Runtime/Filters.php:478-486 | the emitted value sits between two quotes of the chosen kind, holds none inside, and decodes back |
| Escape.PieceCases | Hail/Latte/Runtime/Filters.php:449-469 | null/false omitted; `true` gives ` key` or ` key="key"` in XHTML; an all-null array omitted |
| Escape.Composite | Hail/Latte/Runtime/Filters.php:461-472 | the inner loop's parts, and their join by `;` for `style`/`on*` and a space otherwise |
| Escape.HtmlAttributes | Hail/Latte/Runtime/Filters.php:441-490 | the loop's result equals `AttributesText`: the attribute pieces in order, and `''` for a non-array |
| Session.NextIndex | src/Session/Segment.php:102 | the key `$a[] = v` uses is above every integer key |
| Session.AppendFresh | src/Session/Segment.php:102 | the appended value sits under a key the array did not have; every other key reads as before (`add`; also `addFlash` at line 157 and `addFlashNow` at lines 259-260) |
| Session.MergeIntValues | src/Session/Segment.php:282-285 | `array_merge` keeps the integer-keyed values of both arrays, in order |
| Session.MergeStringKey | src/Session/Segment.php:282-285 | under a string key, `array_merge` gives the later array's value when it has one |
| Session.MergeFlash | src/Session/Segment.php:282-285 | `array_merge(next, now)`: the current value wins under a string key, and the numbered values of next come first |
| Session.Loaded | src/Session/Segment.php:311-324 | after `load` the three entries exist; nothing under another name changes |
| Session.Resumed | src/Session/Segment.php:296-305 | resumes exactly when started or resumable, then started and loaded; nothing under another name changes |
| Session.Ready | src/Session/Segment.php:332-338 | always started and loaded afterwards; nothing under another name changes |
| Session.GetOp | src/Session/Segment.php:60-65 | `get` changes nothing under another name |
| Session.GetSegmentOp | src/Session/Segment.php:73-78 | `getSegment` changes nothing under another name |
| Session.SetOp | src/Session/Segment.php:88-92 | `set` changes nothing under another name |
| Session.AddOp | src/Session/Segment.php:100-104 | `add` changes nothing under another name |
| Session.ClearOp | src/Session/Segment.php:109-114 | `clear` changes nothing under another name |
| Session.RemoveOp | src/Session/Segment.php:122-133 | `remove` changes nothing under another name |
| Session.SetFlashOp | src/Session/Segment.php:143-147 | `setFlash` changes nothing under another name |
| Session.AddFlashOp | src/Session/Segment.php:155-159 | `addFlash` changes nothing under another name |
| Session.GetFlashOp | src/Session/Segment.php:171-176 | `getFlash` changes nothing under another name |
| Session.GetAllCurrentFlashOp | src/Session/Segment.php:186-191 | `getAllCurrentFlash` changes nothing under another name |
| Session.ClearFlashOp | src/Session/Segment.php:197-202 | `clearFlash` changes nothing under another name |
| Session.GetFlashNextOp | src/Session/Segment.php:214-219 | `getFlashNext` changes nothing under another name |
| Session.GetAllFlashNextOp | src/Session/Segment.php:229-234 | `getAllFlashNext` changes nothing under another name |
| Session.SetFlashNowOp | src/Session/Segment.php:244-249 | `setFlashNow` changes nothing under another name |
| Session.AddFlashNowOp | src/Session/Segment.php:257-262 | `addFlashNow` changes nothing under another name |
| Session.ClearFlashNowOp | src/Session/Segment.php:267-273 | `clearFlashNow` changes nothing under another name |
| Session.KeepFlashOp | src/Session/Segment.php:279-287 | `keepFlash` changes nothing under another name |
| Session.LoadedFills | src/Session/Segment.php:313-323 | `load` creates an entry only when missing, keeps existing contents, and is idempotent |
| Session.ReadyStarts | src/Session/Segment.php:332-338 | `resumeOrStartSession` is: start, then load |
| Session.GetAfterSet | src/Session/Segment.php:60-92 | after `set(k, v)`, `get(k, alt)` returns `v`, or `alt` when `v` is null |
| Session.GetOtherAfterSet | src/Session/Segment.php:60-92 | setting one key does not change what another key reads |
| Session.AddAppends | src/Session/Segment.php:100-104 | `add` stores the value under a fresh numeric key and keeps every other key |
| Session.IdleSession | src/Session/Segment.php:109-305 | neither started nor resumable: the clear, remove and keep operations change nothing and `get` reads the stored data without starting anything |
| Session.ClearEmpties | src/Session/Segment.php:109-114 | otherwise `clear` empties the segment |
| Session.RemoveCases | src/Session/Segment.php:122-133 | a truthy key drops only that key; no key or a falsy one (`0`, `""`, `"0"`) drops the whole segment |
| Session.FlashVisibility | src/Session/Segment.php:143-249 | `setFlash` is seen in flash-next only and leaves flash-now as loaded; `setFlashNow` is seen in both |
| Session.FlashClearing | src/Session/Segment.php:197-273 | with a started or resumable session, `clearFlash` empties the next request's flash and leaves the current one; `clearFlashNow` empties both; the segment data stay as loaded |
| Session.FlashAdding | src/Session/Segment.php:155-261 | `addFlash` puts the value under the next free integer key of the next request's flash and leaves the current one; `addFlashNow` puts it into both |
| Session.KeepFlashKeeps | src/Session/Segment.php:279-287 | after `keepFlash`, flash-next gives the current value under a string key present now, keeps its own otherwise, and holds both numbered value lists |
| Session.SessionStore.Resume | src/Session/Segment.php:299 | the session resumes exactly when started or resumable |
| Session.SessionStore.Start | src/Session/Segment.php:335 | starting sets the started flag only |
| Session.Segment.constructor | src/Session/Segment.php:44-48 | a segment is bound to its session and its name |
| Session.Segment.Load | src/Session/Segment.php:311-324 | the new store is `Loaded` |
| Session.Segment.ResumeSession | src/Session/Segment.php:296-305 | the new store and the result are `Resumed` |
| Session.Segment.ResumeOrStartSession | src/Session/Segment.php:332-338 | the new store is `Ready` |
| Session.Segment.Get | src/Session/Segment.php:60-65 | the new store and the value are `GetOp` |
| Session.Segment.GetSegment | src/Session/Segment.php:73-78 | the new store and the value are `GetSegmentOp` |
| Session.Segment.Set | src/Session/Segment.php:88-92 | the new store is `SetOp` |
| Session.Segment.Add | src/Session/Segment.php:100-104 | the new store is `AddOp` |
| Session.Segment.Clear | src/Session/Segment.php:109-114 | the new store is `ClearOp` |
| Session.Segment.Remove | src/Session/Segment.php:122-133 | the new store is `RemoveOp` |
| Session.Segment.SetFlash | src/Session/Segment.php:143-147 | the new store is `SetFlashOp` |
| Session.Segment.AddFlash | src/Session/Segment.php:155-159 | the new store is `AddFlashOp` |
| Session.Segment.GetFlash | src/Session/Segment.php:171-176 | the new store and the value are `GetFlashOp` |
| Session.Segment.GetAllCurrentFlash | src/Session/Segment.php:186-191 | the new store and the value are `GetAllCurrentFlashOp` |
| Session.Segment.ClearFlash | src/Session/Segment.php:197-202 | the new store is `ClearFlashOp` |
| Session.Segment.GetFlashNext | src/Session/Segment.php:214-219 | the new store and the value are `GetFlashNextOp` |
| Session.Segment.GetAllFlashNext | src/Session/Segment.php:229-234 | the new store and the value are `GetAllFlashNextOp` |
| Session.Segment.SetFlashNow | src/Session/Segment.php:244-249 | the new store is `SetFlashNowOp` |
| Session.Segment.AddFlashNow | src/Session/Segment.php:257-262 | the new store is `AddFlashNowOp` |
| Session.Segment.ClearFlashNow | src/Session/Segment.php:267-273 | the new store is `ClearFlashNowOp` |
| Session.Segment.KeepFlash | src/Session/Segment.php:279-287 | the new store is `KeepFlashOp` |

## Left out

- Database I/O: the PDO connection, `query`/`exec`/`release`, events, and the fetching wrappers of `Hail/DB/Medoo.php`. The model stops at the SQL text.
- `PDO::quote` and `Json::encode`: uninterpreted functions of the builder's configuration.
- `insert`/`multiInsert` execution and `lastInsertId`: only the statements `insertContext` builds are modelled.
- The MATCH clause of `whereClause` is modelled, but no property is proved about it.
- File discovery (`getMigrations`, `getSeeds` loading classes from files), the console output of the manager and execution timing. A migration or seed execution is a step appended to a trace.
- `printStatus`'s table output and its `json` format: only its exit code is modelled. The version order is a boolean (creation or execution time), so the `Invalid version_order configuration option` exception of `src/Database/Migration/Manager.php:96-104` cannot arise and is not modelled.
- The `start_time` conversion in `rollback` under execution-time ordering: a row's start time is given as a number already in `YmdHis` form.
- `toggleBreakpoint`/`removeBreakpoints`: they only delegate to the database adapter.
- SqlWhere.LikePattern: the `[~]`/`[!~]` compiler uses the corrected guard of the first "## Findings" row. A pattern starting with `_` (for example `_a`) is left as it is, where `Hail/DB/Medoo.php:407` wraps it into `%_a%`. `SqlWhere.LikeWrapAsWritten` keeps the code's guard.
- SqlWhere.LikeKeepsAnchored: states the corrected guard, so it keeps `_a` unwrapped, which the code does not.
- SqlWhere.LikeOperator: its fragments follow the corrected guard, as `SqlWhere.LikePattern` does.
- SqlWhere.LikeFragments: each fragment follows the corrected guard, as `SqlWhere.LikePattern` does.
- SqlWhere.LikeClause: the loop equals a LIKE condition that follows the corrected guard, as `SqlWhere.LikePattern` does.
- Migration.ResolvedTarget: a named rollback target is resolved to the version recorded under that name, the corrected reading of the second "## Findings" row. The code resolves it to the name's position in the log (`Migration.NamedRollbackAsWrittenDiffers`).
- Migration.Manager.ResolveTarget: a named target follows `Migration.ResolvedTarget`, not the position the code finds.
- Migration.Manager.Rollback: for a named target it reverts what `Migration.ResolvedTarget` resolves. For a log of `10 "a"` and `20 "b"`, rolling back to `"a"` reverts `20`, where the code reverts nothing (must-match) or both (otherwise).
- SqlWhere.InnerConjunct: its LIKE conditions follow the corrected guard, as `SqlWhere.LikePattern` does, so `['c[~]' => '_a']` compiles to `"c" LIKE '_a'` where the code gives `'%_a%'`.
- SqlWhere.EntryCondition: its LIKE conditions follow the corrected guard, as `SqlWhere.LikePattern` does, so `['c[~]' => '_a']` compiles to `"c" LIKE '_a'` where the code gives `'%_a%'`.
- SqlWhere.DataImplode: its LIKE conditions follow the corrected guard, as `SqlWhere.LikePattern` does, so `['c[~]' => '_a']` compiles to `"c" LIKE '_a'` where the code gives `'%_a%'`.
- SqlClause.ConditionPart: its LIKE conditions follow the corrected guard, as `SqlWhere.LikePattern` does, so `['c[~]' => '_a']` compiles to `"c" LIKE '_a'` where the code gives `'%_a%'`.
- SqlClause.WhereClause: its LIKE conditions follow the corrected guard, as `SqlWhere.LikePattern` does, so `['c[~]' => '_a']` compiles to `"c" LIKE '_a'` where the code gives `'%_a%'`.
- SqlClause.SuffixClause: its LIKE conditions follow the corrected guard, as `SqlWhere.LikePattern` does, so `['c[~]' => '_a']` compiles to `"c" LIKE '_a'` where the code gives `'%_a%'`.
- SqlSelect.SelectContext: the WHERE part of the statement follows the corrected LIKE guard, as `SqlWhere.LikePattern` does.
- SqlModify.Update: the WHERE part of the statement follows the corrected LIKE guard, as `SqlWhere.LikePattern` does.
- SqlModify.Delete: the WHERE part of the statement follows the corrected LIKE guard, as `SqlWhere.LikePattern` does.
- SqlModify.Replace: the WHERE part of the statement follows the corrected LIKE guard, as `SqlWhere.LikePattern` does.
- SqlWhere.LikeCondition: follows the corrected LIKE guard, as `SqlWhere.LikePattern` does; so do the specification functions built on it (`Leaf`, `OperatorCondition`, `Fragment`, `Fragments`, `Conditions`, `InnerItem`, `InnerConjunction`, `SqlClause.ConditionClause`, `WhereArray`, `WhereText`, `SqlSelect.SelectText`, `SqlModify.UpdateText`, `DeleteText`, `ReplaceText`).
- Migration.RollbackPlan: a named target is resolved by `Migration.ResolvedTarget`, so the plan reverts what the corrected resolution gives, not what the code reverts.
- SqlSelect.ColumnPart: `$fn == 1` is decided on the exact decimal value of a numeric string. A string such as `1.00000000000000000001`, which PHP rounds to the float 1, counts as not equal to 1. A float is compared by the text PHP prints for it.
- SqlClause.SuffixWhere: a WHERE that is a string, combined with a GROUP, ORDER, LIMIT or HAVING entry, is passed on unchanged. PHP writes the modifier into the string at an illegal offset, with a warning and a result that depends on the PHP version.
- The `array_key_exists($seeder->getName(), $seeds)` test of `seed`: the seed class's `getName` is not part of this model. A seed is taken to be named by its class key, so the test always holds.
- Seeds.OrderFrom: seed ordering recurses through dependencies, so it carries a `fuel` bound. With too little fuel it returns `None`, where PHP would recurse without bound on a dependency cycle.
- The `Category` constructor of the plural builder, which parses CLDR rules and examples: a category is given as its id, formula and optional examples.
- Plural.SortByRank: `usort` is not stable in general. The model sorts stably by CLDR rank, and ids are distinct by then, so the order is the same.
- Aliasing of the `Category` objects that `checkAlwaysTrueCategories` and `checkAllCategoriesWithExamples` rename in place: categories are values rebuilt in the list.
- The descriptive fields of `Language` (id, name, script, territory, base language, superseded-by) and `getAll`/`getById`/`getUSAsciiClone`: they come from CLDR data that are not part of this model.
- PluralFormula.Reverse: the two literal special cases of `reverseFormula` are modelled, but no lemma covers them.
- `escapeHtml` on an `IHtmlString` object and the UTF-8 validation of `htmlspecialchars`: a character stands for one code point, and invalid input is not modelled.
- Escape.SlashImage: the branch of `addcslashes` that writes characters above 126 in octal is not modelled. Neither escaper's list holds such characters.
- `htmlAttributes` with `$tmp` null is modelled as an empty list of parts. The XHTML switch, a static property in the source, is a parameter.
- The rest of `Filters.php` (`escapeJs`, `date`, `bytes`, `truncate`, `substring` and the mbstring and regex-based filters) is outside the modelled core.
- The external `Session` object: its started and resumable state are flags of `SessionStore`. `resume` succeeds exactly when the session is resumable, and `start` always succeeds.
- A segment name equal to one of the two flash keys of `$_SESSION` is not modelled: the segment data and the two flash areas are separate maps.
- Session.NextIndex: PHP remembers the next free integer key even after the largest key is unset. The model recomputes it from the keys present, which is what a freshly loaded session array does.
- Session.Segment.Remove: a key is given as an array key, or none for a null or false argument.

## Findings

| source | as written | input that shows it | evidently intended | confidence | as-written member | corrected member |
|---|---|---|---|---|---|---|
| Hail/DB/Medoo.php:407 | the look-ahead `(?!(%\|\[\|_]))` excludes the prefixes `%`, `[` and the two characters `_]` | `[~]` with `_a`: wrapped into `%_a%` | exclude a leading `_`, mirroring the look-behind's `%`, `]`, `_` | medium, not executed | SqlWhere.LikeGuardAsWrittenExample | SqlWhere.LikeKeepsAnchored |
| src/Database/Migration/Manager.php:445-450 | `array_column` renumbers the name column from 0, so `$found` is a position, not a version | log `10 "a"`, `20 "b"`; `rollback` to `"a"`: nothing is reverted (must-match), or both are (otherwise) | roll back to the version recorded under that name, reverting only `20` | high, not executed | Migration.NamedRollbackAsWrittenDiffers | Migration.NamedRollbackIntended |
