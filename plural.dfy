/** The conversion of a language's CLDR plural rules to a gettext plural
    formula: the categories are collected and validated, those that can
    never or always occur for integers are dealt with, and the formula is
    built as a chain of conditional expressions over the remaining
    categories. Category objects are only reachable through the list, so
    they are modelled as values that the list replaces. */
module Plural {
  import opened Wrappers
  import opened Strings
  import opened Php
  import opened PluralFormula

  /** The name of the catch-all category. */
  const Other := "other"

  /** A category's formula: `true` or `false` for rules that always or never
      hold for integers, `null` once renamed to the catch-all, or the gettext
      text of the rule. */
  datatype Formula = AlwaysTrue | AlwaysFalse | NoFormula | Rule(text: string)

  /** A plural category: its id, its formula and its integer examples, if any. */
  datatype Category = Category(id: string, formula: Formula, examples: Option<string>)

  /** The exceptions the conversion throws. */
  datatype Error =
    | Repeated(id: string)
    | NoCategories
    | MissingOther
    | TrueWithoutExamples(id: string)
    | NeverButExamples(id: string)
    | FalseWithExamples(id: string)
    | Unhandled(bad: seq<string>, all: seq<string>)
    | Irreversible(formula: string)

  /** The string PHP makes of a formula: `true` is `1`, `false` and `null` are empty. */
  function FormulaText(f: Formula): string
  {
    match f
    case AlwaysTrue => "1"
    case AlwaysFalse => ""
    case NoFormula => ""
    case Rule(t) => t
  }

  function Ids(cs: seq<Category>): (r: seq<string>)
    ensures |r| == |cs|
    ensures forall j :: 0 <= j < |cs| ==> r[j] == cs[j].id
  {
    if |cs| == 0 then [] else Ids(cs[..|cs| - 1]) + [cs[|cs| - 1].id]
  }

  /** The first index at or after `i` whose category satisfies `p`. */
  function Find(cs: seq<Category>, p: Category -> bool, i: nat): (r: Option<nat>)
    requires i <= |cs|
    ensures r.Some? ==> i <= r.value < |cs| && p(cs[r.value]) && forall j :: i <= j < r.value ==> !p(cs[j])
    ensures r.None? ==> forall j :: i <= j < |cs| ==> !p(cs[j])
    decreases |cs| - i
  {
    if i == |cs| then None else if p(cs[i]) then Some(i) else Find(cs, p, i + 1)
  }

  /** The categories satisfying `p`, in their order. */
  function Keep(cs: seq<Category>, p: Category -> bool): (r: seq<Category>)
    ensures |r| <= |cs|
    ensures forall c :: c in r <==> c in cs && p(c)
  {
    if |cs| == 0 then []
    else Keep(cs[..|cs| - 1], p) + (if p(cs[|cs| - 1]) then [cs[|cs| - 1]] else [])
  }

  /** `r` is `cs` with some elements left out and the rest in order. */
  predicate IsSubsequence(r: seq<Category>, cs: seq<Category>)
  {
    |r| == 0 ||
    (|cs| > 0 &&
      ((r[|r| - 1] == cs[|cs| - 1] && IsSubsequence(r[..|r| - 1], cs[..|cs| - 1])) ||
       IsSubsequence(r, cs[..|cs| - 1])))
  }

  // ------------------------------------------------------------ constructor

  /** The first category whose id an earlier one already has. */
  function FindRepeat(cs: seq<Category>, i: nat): (r: Option<nat>)
    requires i <= |cs|
    ensures r.Some? ==> i <= r.value < |cs| && cs[r.value].id in Ids(cs[..r.value])
    ensures r.Some? ==> forall k {:trigger Ids(cs[..k])} :: i <= k < r.value ==> cs[k].id !in Ids(cs[..k])
    ensures r.None? ==> forall k {:trigger Ids(cs[..k])} :: i <= k < |cs| ==> cs[k].id !in Ids(cs[..k])
    decreases |cs| - i
  {
    if i == |cs| then None else if cs[i].id in Ids(cs[..i]) then Some(i) else FindRepeat(cs, i + 1)
  }

  /** One turn of the collection loop: a category matching an earlier one is the repeat. */
  lemma RepeatStep(cs: seq<Category>, i: nat, m: nat)
    requires m < i < |cs| && cs[m].id == cs[i].id
    ensures FindRepeat(cs, i) == Some(i)
  {
    assert Ids(cs[..i])[m] == cs[i].id;
  }

  /** One turn of the collection loop: a category matching no earlier one is skipped. */
  lemma RepeatSkip(cs: seq<Category>, i: nat)
    requires i < |cs| && forall j :: 0 <= j < i ==> cs[j].id != cs[i].id
    ensures FindRepeat(cs, i) == FindRepeat(cs, i + 1)
  {
    assert cs[i].id !in Ids(cs[..i]);
  }

  /** The position of `id` in the CLDR order; an unknown id counts as 0,
      as `array_search` giving `false` does in a subtraction. */
  function Rank(order: seq<string>, id: string): nat
  {
    if |order| == 0 then 0 else if order[0] == id then 0 else
      var r := Rank(order[1..], id);
      if id in order[1..] then r + 1 else 0
  }

  predicate SortedByRank(cs: seq<Category>, order: seq<string>)
  {
    forall i, j :: 0 <= i < j < |cs| ==> Rank(order, cs[i].id) <= Rank(order, cs[j].id)
  }

  /** Inserts `c` after every category of the same or a lower rank. */
  function Insert(c: Category, s: seq<Category>, order: seq<string>): (r: seq<Category>)
    requires SortedByRank(s, order)
    ensures |r| == |s| + 1
    ensures multiset(r) == multiset(s) + multiset{c}
    ensures SortedByRank(r, order)
  {
    if |s| == 0 then [c]
    else if Rank(order, c.id) < Rank(order, s[0].id) then [c] + s
    else
      var rest := Insert(c, s[1..], order);
      assert s == [s[0]] + s[1..];
      InsertBound(c, s, rest, order);
      [s[0]] + rest
  }

  /** Everything after the head of `s`, and `c`, ranks no lower than the head. */
  lemma InsertBound(c: Category, s: seq<Category>, rest: seq<Category>, order: seq<string>)
    requires |s| > 0 && SortedByRank(s, order)
    requires Rank(order, s[0].id) <= Rank(order, c.id)
    requires multiset(rest) == multiset(s[1..]) + multiset{c}
    requires SortedByRank(rest, order)
    ensures SortedByRank([s[0]] + rest, order)
  {
    forall j | 0 <= j < |rest|
      ensures Rank(order, s[0].id) <= Rank(order, rest[j].id)
    {
      assert rest[j] in multiset(rest);
      if rest[j] != c {
        assert rest[j] in s[1..];
      }
    }
  }

  /** `usort` by CLDR rank. */
  function SortByRank(cs: seq<Category>, order: seq<string>): (r: seq<Category>)
    ensures |r| == |cs|
    ensures multiset(r) == multiset(cs)
    ensures SortedByRank(r, order)
  {
    if |cs| == 0 then []
    else
      assert cs == cs[..|cs| - 1] + [cs[|cs| - 1]];
      Insert(cs[|cs| - 1], SortByRank(cs[..|cs| - 1], order), order)
  }

  /** The categories the constructor keeps before its three checks, or the
      exception it throws: a repeated id, no category at all, or a last
      category (in CLDR order) other than `other`. */
  function Validated(info: seq<Category>, order: seq<string>): Result<seq<Category>, Error>
  {
    match FindRepeat(info, 0)
    case Some(k) => Err(Repeated(info[k].id))
    case None =>
      if |info| == 0 then Err(NoCategories)
      else
        var sorted := SortByRank(info, order);
        if sorted[|sorted| - 1].id != Other then Err(MissingOther) else Ok(sorted)
  }

  // ------------------------------------------------------------ the checks

  predicate IsAlwaysTrue(c: Category)
  {
    c.formula == AlwaysTrue
  }

  /** The first category after `i`, other than the `k`th, that has examples. */
  function FindOther(cs: seq<Category>, k: nat, i: nat): (r: Option<nat>)
    requires i <= |cs|
    ensures r.Some? ==> i <= r.value < |cs| && r.value != k && cs[r.value].examples.Some?
    ensures r.None? ==> forall j :: i <= j < |cs| && j != k ==> cs[j].examples.None?
    decreases |cs| - i
  {
    if i == |cs| then None
    else if i != k && cs[i].examples.Some? then Some(i)
    else FindOther(cs, k, i + 1)
  }

  /** `checkAlwaysTrueCategories`. */
  function AlwaysTrueChecked(cs: seq<Category>): Result<seq<Category>, Error>
  {
    match Find(cs, IsAlwaysTrue, 0)
    case None => Ok(cs)
    case Some(k) =>
      if cs[k].examples.None? then Err(TrueWithoutExamples(cs[k].id))
      else match FindOther(cs, k, 0)
        case Some(j) => Err(NeverButExamples(cs[j].id))
        case None => Ok([Category(Other, NoFormula, cs[k].examples)])
  }

  predicate IsFalseWithExamples(c: Category)
  {
    c.formula == AlwaysFalse && c.examples.Some?
  }

  predicate IsNotFalse(c: Category)
  {
    c.formula != AlwaysFalse
  }

  /** `checkAlwaysFalseCategories`. */
  function AlwaysFalseChecked(cs: seq<Category>): Result<seq<Category>, Error>
  {
    match Find(cs, IsFalseWithExamples, 0)
    case Some(j) => Err(FalseWithExamples(cs[j].id))
    case None => Ok(Keep(cs, IsNotFalse))
  }

  predicate HasExamples(c: Category)
  {
    c.examples.Some?
  }

  predicate LacksExamples(c: Category)
  {
    c.examples.None?
  }

  /** The one/few/many/other formula where `one` is every number ending in
      1 but not in 11. */
  const EndsInOneFormula := "(n % 10 == 1 && n % 100 != 11) ? 0 : ((n % 10 >= 2 && n % 10 <= 4 && (n % 100 < 12 || n % 100 > 14)) ? 1 : ((n % 10 == 0 || n % 10 >= 5 && n % 10 <= 9 || n % 100 >= 11 && n % 100 <= 14) ? 2 : 3))"

  /** The one/few/many/other formula where `one` is the number 1 alone. */
  const ExactlyOneFormula := "(n == 1) ? 0 : ((n % 10 >= 2 && n % 10 <= 4 && (n % 100 < 12 || n % 100 > 14)) ? 1 : ((n != 1 && (n % 10 == 0 || n % 10 == 1) || n % 10 >= 5 && n % 10 <= 9 || n % 100 >= 12 && n % 100 <= 14) ? 2 : 3))"

  /** The two four-category formulas whose `other` category never occurs for integers. */
  predicate OtherNeverOccurs(f: string)
  {
    f == EndsInOneFormula || f == ExactlyOneFormula
  }

  /** The last category renamed to the catch-all. */
  function RenameLast(good: seq<Category>): (r: seq<Category>)
    requires |good| > 0
    ensures |r| == |good| && r[..|r| - 1] == good[..|good| - 1]
    ensures r[|r| - 1] == Category(Other, NoFormula, good[|good| - 1].examples)
  {
    good[..|good| - 1] + [Category(Other, NoFormula, good[|good| - 1].examples)]
  }

  /** The `switch` key of `checkAllCategoriesWithExamples` selects its one case. */
  predicate KeyMatches(cs: seq<Category>)
  {
    Join(Ids(Keep(cs, LacksExamples)), ",") + "@" + Join(Ids(cs), ",") == Other + "@one,few,many," + Other
  }

  /** `checkAllCategoriesWithExamples`. */
  function ExamplesChecked(cs: seq<Category>): Result<seq<Category>, Error>
  {
    var good := Keep(cs, HasExamples);
    var bad := Keep(cs, LacksExamples);
    if |bad| == 0 then Ok(cs)
    else if !KeyMatches(cs) then Err(Unhandled(Ids(bad), Ids(cs)))
    else match FormulaOf(cs)
      case Err(e) => Err(e)
      case Ok(f) =>
        if !OtherNeverOccurs(f) then Err(Unhandled(Ids(bad), Ids(cs)))
        else if bad[|bad| - 1].id == Other then GoodExists(cs); Ok(RenameLast(good))
        else Ok(good)
  }

  /** Keeping from one more element of `cs`. */
  lemma KeepStep(cs: seq<Category>, i: nat, p: Category -> bool)
    requires i < |cs|
    ensures Keep(cs[..i + 1], p) == Keep(cs[..i], p) + (if p(cs[i]) then [cs[i]] else [])
  {
    assert cs[..i + 1][..i] == cs[..i];
  }

  /** The ids of one more element of `cs`. */
  lemma IdsStep(cs: seq<Category>, i: nat)
    requires i < |cs|
    ensures Ids(cs[..i + 1]) == Ids(cs[..i]) + [cs[i].id]
  {
    assert cs[..i + 1][..i] == cs[..i];
  }

  /** The ids of a list with one more category. */
  lemma IdsSnoc(cs: seq<Category>, c: Category)
    ensures Ids(cs + [c]) == Ids(cs) + [c.id]
  {
    assert (cs + [c])[..|cs|] == cs;
  }

  /** All categories kept by `p` means the list itself. */
  lemma {:induction false} KeepEvery(cs: seq<Category>, p: Category -> bool)
    ensures (forall c :: c in cs ==> p(c)) ==> Keep(cs, p) == cs
  {
    if |cs| > 0 {
      var init := cs[..|cs| - 1];
      assert cs == init + [cs[|cs| - 1]];
      if forall c :: c in cs ==> p(c) {
        assert forall c :: c in init ==> p(c) by {
          forall c | c in init ensures p(c) { assert c in cs; }
        }
        KeepEvery(init, p);
        assert p(cs[|cs| - 1]) by { assert cs[|cs| - 1] in cs; }
      }
    }
  }

  /** The matching key lists more ids than bad ones, so some category has examples. */
  lemma GoodExists(cs: seq<Category>)
    requires KeyMatches(cs)
    ensures |Keep(cs, HasExamples)| > 0
  {
    var x := Join(Ids(Keep(cs, LacksExamples)), ",");
    var y := Join(Ids(cs), ",");
    assert |x + "@" + y| == |Other + "@one,few,many," + Other|;
    assert |x| != |y|;
    KeepEvery(cs, LacksExamples);
    var c :| c in cs && !LacksExamples(c);
    assert c in Keep(cs, HasExamples);
  }

  // ---------------------------------------------------------------- formula

  /** `preg_match('/^\([^()]+\)$/', f)`: bracketed once, with no bracket inside. */
  predicate IsBracketed(f: string)
  {
    var c := Anchor(f);
    |c| >= 3 && c[0] == '(' && c[|c| - 1] == ')' && forall k :: 1 <= k < |c| - 1 ==> !IsParen(c[k])
  }

  /** The test of one category in the chain: its reduced formula, bracketed. */
  function Guard(f: Formula): (r: string)
    ensures |r| > 0 && r[0] == '('
  {
    var g := Reduce(FormulaText(f));
    if IsBracketed(g) then g else "(" + g + ")"
  }

  /** A chain of conditional expressions: `guard ? index : otherwise`,
      ending in a default index. */
  datatype Choice = Default(index: nat) | Test(guard: string, index: nat, otherwise: Choice)

  /** The guard of every category but the last, in order. */
  function GuardsOf(cs: seq<Category>): (r: seq<string>)
    requires |cs| > 0
  {
    seq(|cs| - 1, j requires 0 <= j < |cs| - 1 => Guard(cs[j].formula))
  }

  /** The chain testing the guards from `i` on, in order, with `|gs|` as
      the default. */
  function ChainOf(gs: seq<string>, i: nat): Choice
    requires i <= |gs|
    decreases |gs| - i
  {
    if i == |gs| then Default(i) else Test(gs[i], i, ChainOf(gs, i + 1))
  }

  /** The gettext text of a chain; every chain but the outermost is bracketed. */
  function Render(c: Choice, nested: bool): string
  {
    match c
    case Default(k) => IntToStr(k)
    case Test(g, k, e) =>
      var body := g + " ? " + IntToStr(k) + " : " + Render(e, true);
      if nested then "(" + body + ")" else body
  }

  /** The index a chain selects when the guards `holds` accepts are true. */
  function Pick(c: Choice, holds: string -> bool): nat
  {
    match c
    case Default(k) => k
    case Test(g, k, e) => if holds(g) then k else Pick(e, holds)
  }

  /** What `reverseFormula` makes of a category's formula. PHP's loose
      `switch` comparison makes `true` equal to the first literal case. */
  function ReverseOf(f: Formula): Option<string>
  {
    if f == AlwaysTrue then Some("n != 1 && n != 2 && n != 3 && (n % 10 == 4 || n % 10 == 6 || n % 10 == 9)")
    else Reverse(FormulaText(f))
  }

  /** `buildFormula`. */
  function FormulaOf(cs: seq<Category>): Result<string, Error>
  {
    if |cs| == 1 then Ok("0")
    else if |cs| == 2 then
      match ReverseOf(cs[0].formula)
      case None => Err(Irreversible(FormulaText(cs[0].formula)))
      case Some(g) => Ok(Reduce(g))
    else if |cs| == 0 then Ok(IntToStr(-1))
    else Ok(Render(ChainOf(GuardsOf(cs), 0), false))
  }

  /** The categories and the formula of a language built from `info`, or
      the exception its constructor throws. */
  function Converted(info: seq<Category>, order: seq<string>): Result<(seq<Category>, string), Error>
  {
    match Validated(info, order)
    case Err(e) => Err(e)
    case Ok(sorted) =>
      match AlwaysTrueChecked(sorted)
      case Err(e) => Err(e)
      case Ok(c1) =>
        match AlwaysFalseChecked(c1)
        case Err(e) => Err(e)
        case Ok(c2) =>
          match ExamplesChecked(c2)
          case Err(e) => Err(e)
          case Ok(c3) =>
            match FormulaOf(c3)
            case Err(e) => Err(e)
            case Ok(f) => Ok((c3, f))
  }

  // ----------------------------------------------------------------- lemmas

  /** No category repeats an earlier id exactly when all ids are distinct. */
  lemma RepeatIff(cs: seq<Category>)
    ensures FindRepeat(cs, 0).None? <==> forall i, j :: 0 <= i < j < |cs| ==> cs[i].id != cs[j].id
  {
    if FindRepeat(cs, 0).None? {
      forall i, j | 0 <= i < j < |cs|
        ensures cs[i].id != cs[j].id
      {
        assert cs[j].id !in Ids(cs[..j]);
        assert Ids(cs[..j])[i] == cs[i].id;
      }
    } else {
      var k := FindRepeat(cs, 0).value;
      var i :| 0 <= i < k && Ids(cs[..k])[i] == cs[k].id;
      assert cs[i].id == cs[k].id;
    }
  }

  /** The constructor throws on a repeated id, on an empty list and on a
      list whose last category in CLDR order is not `other`. */
  lemma ValidatedRejects(info: seq<Category>, order: seq<string>)
    ensures (Validated(info, order).Err? && Validated(info, order).error.Repeated?) <==>
      exists i, j :: 0 <= i < j < |info| && info[i].id == info[j].id
    ensures Validated(info, order) == Err(NoCategories) <==> |info| == 0
    ensures Validated(info, order) == Err(MissingOther) <==>
      (forall i, j :: 0 <= i < j < |info| ==> info[i].id != info[j].id) && |info| > 0 &&
      SortByRank(info, order)[|info| - 1].id != Other
  {
    RepeatIff(info);
    if FindRepeat(info, 0).Some? {
      var k := FindRepeat(info, 0).value;
      assert Validated(info, order) == Err(Repeated(info[k].id));
    } else {
      assert !(Validated(info, order).Err? && Validated(info, order).error.Repeated?);
    }
  }

  /** Otherwise it keeps the categories, sorted by CLDR rank, with `other` last. */
  lemma ValidatedKeeps(info: seq<Category>, order: seq<string>)
    requires Validated(info, order).Ok?
    ensures var r := Validated(info, order).value;
      multiset(r) == multiset(info) && SortedByRank(r, order) && |r| > 0 && r[|r| - 1].id == Other &&
      forall i, j :: 0 <= i < j < |info| ==> info[i].id != info[j].id
  {
    RepeatIff(info);
  }

  /** `checkAlwaysTrueCategories` leaves a list without an always-true
      category alone. When there is one, the first such category must have
      examples and no other category may have any; the list then becomes
      that category alone, renamed `other` and without a formula. */
  lemma AlwaysTrueOutcome(cs: seq<Category>, k: nat)
    requires k < |cs| && cs[k].formula == AlwaysTrue
    requires forall j :: 0 <= j < k ==> cs[j].formula != AlwaysTrue
    ensures AlwaysTrueChecked(cs).Ok? <==>
      cs[k].examples.Some? && forall j :: 0 <= j < |cs| && j != k ==> cs[j].examples.None?
    ensures cs[k].examples.None? ==> AlwaysTrueChecked(cs) == Err(TrueWithoutExamples(cs[k].id))
    ensures AlwaysTrueChecked(cs).Ok? ==> AlwaysTrueChecked(cs).value == [Category(Other, NoFormula, cs[k].examples)]
  {
    assert Find(cs, IsAlwaysTrue, 0) == Some(k);
  }

  lemma AlwaysTrueAbsent(cs: seq<Category>)
    requires forall c :: c in cs ==> c.formula != AlwaysTrue
    ensures AlwaysTrueChecked(cs) == Ok(cs)
  {
    assert Find(cs, IsAlwaysTrue, 0).None?;
  }

  /** What `Keep` leaves is a subsequence. */
  lemma {:induction false} KeepSubsequence(cs: seq<Category>, p: Category -> bool)
    ensures IsSubsequence(Keep(cs, p), cs)
  {
    if |cs| > 0 {
      var init := cs[..|cs| - 1];
      KeepSubsequence(init, p);
      var r := Keep(cs, p);
      if p(cs[|cs| - 1]) {
        assert r[..|r| - 1] == Keep(init, p);
      } else {
        assert r == Keep(init, p);
      }
    }
  }

  /** `checkAlwaysFalseCategories` throws exactly when a category whose
      formula is `false` has examples; otherwise it removes exactly the
      categories whose formula is `false` and keeps the rest in order. */
  lemma AlwaysFalseOutcome(cs: seq<Category>)
    ensures AlwaysFalseChecked(cs).Err? <==> exists c :: c in cs && c.formula == AlwaysFalse && c.examples.Some?
    ensures AlwaysFalseChecked(cs).Ok? ==>
      var r := AlwaysFalseChecked(cs).value;
      (forall c :: c in r <==> c in cs && c.formula != AlwaysFalse) && IsSubsequence(r, cs)
  {
    KeepSubsequence(cs, IsNotFalse);
    if AlwaysFalseChecked(cs).Err? {
      var j := Find(cs, IsFalseWithExamples, 0).value;
      assert cs[j] in cs;
    }
  }

  /** `checkAllCategoriesWithExamples` changes nothing when every category
      has examples. */
  lemma ExamplesNoop(cs: seq<Category>)
    requires forall c :: c in cs ==> c.examples.Some?
    ensures ExamplesChecked(cs) == Ok(cs)
  {
    var bad := Keep(cs, LacksExamples);
    assert forall i :: 0 <= i < |bad| ==> bad[i] in cs && LacksExamples(bad[i]);
  }

  /** Otherwise a list without the one/few/many/other key throws. */
  lemma ExamplesUnhandled(cs: seq<Category>, c: Category)
    requires c in cs && c.examples.None? && !KeyMatches(cs)
    ensures ExamplesChecked(cs) == Err(Unhandled(Ids(Keep(cs, LacksExamples)), Ids(cs)))
  {
    assert c in Keep(cs, LacksExamples);
  }

  /** A list with categories lacking examples is accepted only with the
      key and one of the two formulas; it keeps just its categories with
      examples, the last renamed `other` when the catch-all was dropped. */
  lemma ExamplesAccepted(cs: seq<Category>, c: Category)
    requires c in cs && c.examples.None? && ExamplesChecked(cs).Ok?
    ensures KeyMatches(cs) && FormulaOf(cs).Ok? && OtherNeverOccurs(FormulaOf(cs).value)
    ensures var r := ExamplesChecked(cs).value;
      var good := Keep(cs, HasExamples);
      var bad := Keep(cs, LacksExamples);
      |r| == |good| > 0 && r[..|r| - 1] == good[..|good| - 1] &&
      r[|r| - 1] == (if bad[|bad| - 1].id == Other then Category(Other, NoFormula, good[|good| - 1].examples)
                     else good[|good| - 1])
  {
    assert c in Keep(cs, LacksExamples);
    GoodExists(cs);
  }

  /** A list equal to `good` but for its last element holds only elements
      of `good` and that last element. */
  lemma LastReplaced(r: seq<Category>, good: seq<Category>)
    requires |r| == |good| > 0 && r[..|r| - 1] == good[..|good| - 1]
    ensures forall x :: x in r ==> x in good || x == r[|r| - 1]
  {
    forall x | x in r
      ensures x in good || x == r[|r| - 1]
    {
      var i :| 0 <= i < |r| && r[i] == x;
      if i < |r| - 1 {
        assert r[i] == r[..|r| - 1][i] == good[i];
      }
    }
  }

  /** `good` with its last element kept or renamed `other` holds only
      categories with examples, and only those of `cs` where it has a formula. */
  lemma KeptFrom(cs: seq<Category>, good: seq<Category>, r: seq<Category>)
    requires good == Keep(cs, HasExamples)
    requires |r| == |good| > 0 && r[..|r| - 1] == good[..|good| - 1]
    requires r[|r| - 1] == good[|good| - 1] || r[|r| - 1] == Category(Other, NoFormula, good[|good| - 1].examples)
    ensures forall c :: c in r ==> c.examples.Some?
    ensures forall c :: c in r && c.formula != NoFormula ==> c in cs
  {
    assert good[|good| - 1] in good;
    LastReplaced(r, good);
  }

  /** Whatever the check keeps has examples, and every category it keeps
      with a formula comes from the list. */
  lemma ExamplesKept(cs: seq<Category>)
    requires ExamplesChecked(cs).Ok?
    ensures forall c :: c in ExamplesChecked(cs).value ==> c.examples.Some?
    ensures forall c :: c in ExamplesChecked(cs).value && c.formula != NoFormula ==> c in cs
  {
    var good := Keep(cs, HasExamples);
    var r := ExamplesChecked(cs).value;
    if exists c :: c in cs && c.examples.None? {
      var c :| c in cs && c.examples.None?;
      ExamplesAccepted(cs, c);
      KeptFrom(cs, good, r);
    } else {
      ExamplesNoop(cs);
      assert r == cs;
    }
  }

  /** One category gives the formula `0`. */
  lemma FormulaOne(c: Category)
    ensures FormulaOf([c]) == Ok("0")
  {
  }

  /** Two categories whose first is a single comparison: the formula is
      that comparison with its operator flipped, then reduced. */
  lemma FormulaTwo(c0: Category, c1: Category, f: string, p: string, q: string)
    requires (p == " == " && q == " != ") || (p == " != " && q == " == ")
    requires c0.formula == Rule(f) && IsComparison(f, p)
    ensures var j := ComparisonAt(Anchor(f), p).value;
      FormulaOf([c0, c1]) == Ok(Reduce(f[..j] + q + f[j + 4..]))
  {
    ReverseFlips(f, p, q);
    var j := ComparisonAt(Anchor(f), p).value;
    ReverseOfRule(f);
    FormulaOfTwo([c0, c1], f[..j] + q + f[j + 4..]);
  }

  /** A written rule is reversed as its text. */
  lemma ReverseOfRule(f: string)
    ensures ReverseOf(Rule(f)) == Reverse(f)
  {
  }

  /** Two categories: the formula is the reduced reversal of the first one's. */
  lemma FormulaOfTwo(cs: seq<Category>, g: string)
    requires |cs| == 2 && ReverseOf(cs[0].formula) == Some(g)
    ensures FormulaOf(cs) == Ok(Reduce(g))
  {
  }

  /** The guards a chain tests, outermost first. */
  function Tests(c: Choice): seq<string>
  {
    match c
    case Default(_) => []
    case Test(g, _, e) => [g] + Tests(e)
  }

  function DefaultOf(c: Choice): nat
  {
    match c
    case Default(k) => k
    case Test(_, _, e) => DefaultOf(e)
  }

  /** The chain from `i` tests the guards from `i` on in order and
      defaults to the index after the last guard: for a list of categories,
      it tests categories 0 to n - 2 and defaults to n - 1. */
  lemma {:induction false} ChainOrder(gs: seq<string>, i: nat)
    requires i <= |gs|
    ensures Tests(ChainOf(gs, i)) == gs[i..]
    ensures DefaultOf(ChainOf(gs, i)) == |gs|
    decreases |gs| - i
  {
    if i < |gs| {
      ChainOrder(gs, i + 1);
      assert gs[i..] == [gs[i]] + gs[i + 1..];
    }
  }

  /** The chain from `i` selects the first index from `i` on whose guard
      holds, or the default when none does. */
  lemma {:induction false} ChainSelect(gs: seq<string>, i: nat, holds: string -> bool)
    requires i <= |gs|
    ensures var r := Pick(ChainOf(gs, i), holds);
      i <= r <= |gs| && (r < |gs| ==> holds(gs[r])) && forall j :: i <= j < r ==> !holds(gs[j])
    decreases |gs| - i
  {
    if i < |gs| {
      ChainSelect(gs, i + 1, holds);
    }
  }

  /** The chain of three or more categories: category `j` is tested by its
      reduced, bracketed formula. */
  lemma FormulaChain(cs: seq<Category>)
    requires |cs| >= 3
    ensures FormulaOf(cs) == Ok(Render(ChainOf(GuardsOf(cs), 0), false))
    ensures |GuardsOf(cs)| == |cs| - 1
    ensures forall j :: 0 <= j < |cs| - 1 ==> GuardsOf(cs)[j] == Guard(cs[j].formula)
  {
  }

  /** A language that is built keeps only categories with examples and
      never one whose formula is `false`. */
  lemma ConvertedCategories(info: seq<Category>, order: seq<string>)
    requires Converted(info, order).Ok?
    ensures forall c :: c in Converted(info, order).value.0 ==> c.examples.Some? && c.formula != AlwaysFalse
    ensures FormulaOf(Converted(info, order).value.0) == Ok(Converted(info, order).value.1)
  {
    var c1 := AlwaysTrueChecked(Validated(info, order).value).value;
    var c2 := AlwaysFalseChecked(c1).value;
    AlwaysFalseOutcome(c1);
    ExamplesKept(c2);
  }

  // ------------------------------------------------------------- the class

  /** A language: its categories, in CLDR order, and its gettext formula. */
  class Language {
    var categories: seq<Category>
    var formula: string

    constructor ()
      ensures categories == [] && formula == ""
    {
      categories := [];
      formula := "";
    }

    /** The constructor's work on `info`, the categories CLDR gives for the
        language, with `order` the CLDR category order. */
    method Build(info: seq<Category>, order: seq<string>) returns (r: Result<(), Error>)
      modifies this
      ensures match Converted(info, order)
        case Err(e) => r == Err(e)
        case Ok(v) => r == Ok(()) && categories == v.0 && formula == v.1
    {
      r := Validate(info, order);
      if r.Err? {
        return;
      }
      r := CheckAlwaysTrue();
      if r.Err? {
        return;
      }
      r := CheckAlwaysFalse();
      if r.Err? {
        return;
      }
      r := CheckAllWithExamples();
      if r.Err? {
        return;
      }
      var f := BuildFormula();
      if f.Err? {
        return Err(f.error);
      }
      formula := f.value;
    }

    /** The constructor up to its three checks: collection, the empty
        check, the sort and the check that `other` comes last. */
    method Validate(info: seq<Category>, order: seq<string>) returns (r: Result<(), Error>)
      modifies this
      ensures formula == old(formula)
      ensures match Validated(info, order)
        case Err(e) => r == Err(e)
        case Ok(cs) => r == Ok(()) && categories == cs
    {
      r := Collect(info);
      if r.Err? {
        return;
      }
      if |categories| == 0 {
        return Err(NoCategories);
      }
      categories := SortByRank(categories, order);
      if categories[|categories| - 1].id != Other {
        return Err(MissingOther);
      }
    }

    /** The collection loop: each category is compared with those collected so far. */
    method Collect(info: seq<Category>) returns (r: Result<(), Error>)
      modifies this
      ensures formula == old(formula)
      ensures match FindRepeat(info, 0)
        case Some(k) => r == Err(Repeated(info[k].id))
        case None => r == Ok(()) && categories == info
    {
      categories := [];
      var i := 0;
      while i < |info|
        invariant 0 <= i <= |info|
        invariant categories == info[..i]
        invariant FindRepeat(info, 0) == FindRepeat(info, i)
        invariant formula == old(formula)
      {
        var c := info[i];
        var m := 0;
        while m < |categories|
          invariant 0 <= m <= |categories|
          invariant categories == info[..i]
          invariant forall j :: 0 <= j < m ==> info[j].id != c.id
        {
          if categories[m].id == c.id {
            RepeatStep(info, i, m);
            return Err(Repeated(c.id));
          }
          m := m + 1;
        }
        RepeatSkip(info, i);
        categories := categories + [c];
        i := i + 1;
      }
      assert info[..i] == info;
      return Ok(());
    }

    /** `checkAlwaysTrueCategories`. */
    method CheckAlwaysTrue() returns (r: Result<(), Error>)
      modifies this
      ensures formula == old(formula)
      ensures match AlwaysTrueChecked(old(categories))
        case Err(e) => r == Err(e) && categories == old(categories)
        case Ok(cs) => r == Ok(()) && categories == cs
    {
      var found: Option<nat> := None;
      var i := 0;
      while i < |categories|
        invariant 0 <= i <= |categories|
        invariant Find(categories, IsAlwaysTrue, 0) == Find(categories, IsAlwaysTrue, i)
      {
        if categories[i].formula == AlwaysTrue {
          if categories[i].examples.None? {
            return Err(TrueWithoutExamples(categories[i].id));
          }
          found := Some(i);
          break;
        }
        i := i + 1;
      }
      if found.None? {
        return Ok(());
      }
      var k := found.value;
      var j := 0;
      while j < |categories|
        invariant 0 <= j <= |categories|
        invariant FindOther(categories, k, 0) == FindOther(categories, k, j)
      {
        if j != k && categories[j].examples.Some? {
          return Err(NeverButExamples(categories[j].id));
        }
        j := j + 1;
      }
      categories := [Category(Other, NoFormula, categories[k].examples)];
      return Ok(());
    }

    /** `checkAlwaysFalseCategories`. */
    method CheckAlwaysFalse() returns (r: Result<(), Error>)
      modifies this
      ensures formula == old(formula)
      ensures match AlwaysFalseChecked(old(categories))
        case Err(e) => r == Err(e) && categories == old(categories)
        case Ok(cs) => r == Ok(()) && categories == cs
    {
      var filtered := [];
      var i := 0;
      while i < |categories|
        invariant 0 <= i <= |categories|
        invariant Find(categories, IsFalseWithExamples, 0) == Find(categories, IsFalseWithExamples, i)
        invariant filtered == Keep(categories[..i], IsNotFalse)
      {
        var c := categories[i];
        if c.formula == AlwaysFalse {
          if c.examples.Some? {
            return Err(FalseWithExamples(c.id));
          }
        } else {
          filtered := filtered + [c];
        }
        assert categories[..i + 1][..i] == categories[..i];
        i := i + 1;
      }
      assert categories[..i] == categories;
      categories := filtered;
      return Ok(());
    }

    /** `checkAllCategoriesWithExamples`. */
    method CheckAllWithExamples() returns (r: Result<(), Error>)
      modifies this
      ensures formula == old(formula)
      ensures match ExamplesChecked(old(categories))
        case Err(e) => r == Err(e) && categories == old(categories)
        case Ok(cs) => r == Ok(()) && categories == cs
    {
      var allIds, good, bad, badIds := Partition();
      if |bad| == 0 {
        return Ok(());
      }
      if Join(badIds, ",") + "@" + Join(allIds, ",") != Other + "@one,few,many," + Other {
        return Err(Unhandled(badIds, allIds));
      }
      assert KeyMatches(categories);
      var f := BuildFormula();
      if f.Err? {
        return Err(f.error);
      }
      if !OtherNeverOccurs(f.value) {
        return Err(Unhandled(badIds, allIds));
      }
      if bad[|bad| - 1].id == Other {
        GoodExists(categories);
        good := RenameLast(good);
      }
      categories := good;
      return Ok(());
    }

    /** The loop of `checkAllCategoriesWithExamples`: all ids, the categories
        with and without examples, and the ids of the latter. */
    method Partition() returns (allIds: seq<string>, good: seq<Category>, bad: seq<Category>, badIds: seq<string>)
      ensures allIds == Ids(categories)
      ensures good == Keep(categories, HasExamples) && bad == Keep(categories, LacksExamples)
      ensures badIds == Ids(bad)
    {
      allIds, good, bad, badIds := [], [], [], [];
      var i := 0;
      while i < |categories|
        invariant 0 <= i <= |categories|
        invariant allIds == Ids(categories[..i])
        invariant good == Keep(categories[..i], HasExamples)
        invariant bad == Keep(categories[..i], LacksExamples)
        invariant badIds == Ids(bad)
      {
        var c := categories[i];
        IdsStep(categories, i);
        KeepStep(categories, i, HasExamples);
        KeepStep(categories, i, LacksExamples);
        allIds := allIds + [c.id];
        if c.examples.Some? {
          good := good + [c];
        } else {
          IdsSnoc(bad, c);
          bad := bad + [c];
          badIds := badIds + [c.id];
        }
        i := i + 1;
      }
      assert categories[..i] == categories;
    }

    /** `buildFormula`: the conditional chain is built from its end. */
    method BuildFormula() returns (r: Result<string, Error>)
      ensures r == FormulaOf(categories)
    {
      var n := |categories|;
      if n == 1 {
        return Ok("0");
      }
      if n == 2 {
        var rev := ReverseOf(categories[0].formula);
        if rev.None? {
          return Err(Irreversible(FormulaText(categories[0].formula)));
        }
        return Ok(Reduce(rev.value));
      }
      var f := IntToStr(n - 1);
      var i: int := n - 2;
      while i >= 0
        invariant n == 0 ==> i == -2 && f == IntToStr(-1)
        invariant n > 0 ==> -1 <= i <= n - 2 && f == Render(ChainOf(GuardsOf(categories), i + 1), i + 1 > 0)
      {
        var g := Reduce(FormulaText(categories[i].formula));
        if !IsBracketed(g) {
          g := "(" + g + ")";
        }
        f := g + " ? " + IntToStr(i) + " : " + f;
        if i > 0 {
          f := "(" + f + ")";
        }
        i := i - 1;
      }
      return Ok(f);
    }
  }
}
