/** String helpers mirroring the PHP library functions the core uses:
    `implode`, `str_replace`, `trim`, `explode`, and the PCRE `\s` class. */
module Strings {

  /** `implode(sep, parts)`. */
  function Join(parts: seq<string>, sep: string): string
  {
    if |parts| == 0 then ""
    else if |parts| == 1 then parts[0]
    else Join(parts[..|parts| - 1], sep) + sep + parts[|parts| - 1]
  }

  /** `f` applied to every element of `xs`, in order (`array_map`, or a
      loop pushing one result per element). */
  function MapSeq<T, U>(f: T -> U, xs: seq<T>): (r: seq<U>)
    ensures |r| == |xs|
    ensures forall j :: 0 <= j < |xs| ==> r[j] == f(xs[j])
  {
    if |xs| == 0 then [] else MapSeq(f, xs[..|xs| - 1]) + [f(xs[|xs| - 1])]
  }

  lemma AppendAssoc<T>(a: seq<T>, b: seq<T>, c: seq<T>)
    ensures (a + b) + c == a + (b + c)
  {
  }

  lemma JoinEmptyIff(parts: seq<string>, sep: string)
    requires |sep| > 0
    ensures Join(parts, sep) == "" <==> |parts| == 0 || (|parts| == 1 && parts[0] == "")
  {
    if |parts| > 1 {
      assert |Join(parts, sep)| >= |sep|;
    }
  }

  /** The index of the first occurrence of `c` in `s`, or `|s|` (PHP `strpos` giving false). */
  function FirstIndex(s: string, c: char): (i: nat)
    ensures i <= |s|
    ensures i < |s| ==> s[i] == c
    ensures forall j :: 0 <= j < i ==> s[j] != c
  {
    if |s| == 0 then 0
    else if s[0] == c then 0
    else 1 + FirstIndex(s[1..], c)
  }

  /** `str_replace(pat, rep, s)`: replaces every non-overlapping occurrence of
      `pat`, scanning from the left. An empty `pat` leaves `s` unchanged. */
  function ReplaceAll(s: string, pat: string, rep: string): string
    decreases |s|
  {
    if |pat| == 0 || |s| < |pat| then s
    else if s[..|pat|] == pat then rep + ReplaceAll(s[|pat|..], pat, rep)
    else [s[0]] + ReplaceAll(s[1..], pat, rep)
  }

  /** Replacing a character by a string that does not contain it removes it. */
  lemma {:induction false} ReplaceCharRemoves(s: string, c: char, rep: string)
    requires c !in rep
    ensures c !in ReplaceAll(s, [c], rep)
  {
    if |s| > 0 {
      ReplaceCharRemoves(s[1..], c, rep);
    }
  }

  /** Replacing a character by a string that does not contain `d` introduces no `d`. */
  lemma {:induction false} ReplaceCharKeepsAbsent(s: string, c: char, rep: string, d: char)
    requires d !in s && d !in rep
    ensures d !in ReplaceAll(s, [c], rep)
  {
    if |s| > 0 {
      ReplaceCharKeepsAbsent(s[1..], c, rep, d);
    }
  }

  /** Replacing a character that does not occur changes nothing. */
  lemma {:induction false} ReplaceCharAbsent(s: string, c: char, rep: string)
    requires c !in s
    ensures ReplaceAll(s, [c], rep) == s
  {
    if |s| > 0 {
      ReplaceCharAbsent(s[1..], c, rep);
    }
  }

  /** A pattern whose second character does not occur in `b` does not occur in `b`. */
  lemma {:induction false} ReplaceAbsent(b: string, pat: string, rep: string)
    requires |pat| >= 2 && pat[1] !in b
    ensures ReplaceAll(b, pat, rep) == b
  {
    if |b| >= |pat| {
      assert b[1] in b;
      assert b[..|pat|] != pat;
      ReplaceAbsent(b[1..], pat, rep);
      assert b == [b[0]] + b[1..];
    }
  }

  /** Scanning from the left, the first occurrence of `pat` after a prefix
      `a` in which no occurrence can start is the first one replaced. */
  lemma {:induction false} ReplaceSkip(a: string, pat: string, rep: string, b: string)
    requires |pat| >= 2 && pat[0] != pat[1] && pat[1] !in a
    ensures ReplaceAll(a + pat + b, pat, rep) == a + rep + ReplaceAll(b, pat, rep)
  {
    var s := a + pat + b;
    if |a| == 0 {
      assert s == pat + b && a + rep == rep;
      ReplaceFront(pat, rep, b);
    } else {
      NoMatchAtStart(a, pat, b);
      ReplaceStep(s, pat, rep);
      assert pat[1] !in a[1..];
      ReplaceSkip(a[1..], pat, rep, b);
      ConsRegroup(a, rep, ReplaceAll(b, pat, rep));
    }
  }

  /** An occurrence right at the front is replaced first. */
  lemma ReplaceFront(pat: string, rep: string, b: string)
    requires |pat| > 0
    ensures ReplaceAll(pat + b, pat, rep) == rep + ReplaceAll(b, pat, rep)
  {
    var s := pat + b;
    assert s[..|pat|] == pat && s[|pat|..] == b;
  }

  lemma ConsRegroup(a: string, x: string, y: string)
    requires |a| > 0
    ensures [a[0]] + (a[1..] + x + y) == a + x + y
  {
    assert a == [a[0]] + a[1..];
  }

  /** `pat` does not start right at the front of `a + pat + b` when its second
      character is not in `a` and differs from its first. */
  lemma NoMatchAtStart(a: string, pat: string, b: string)
    requires |a| > 0 && |pat| >= 2 && pat[0] != pat[1] && pat[1] !in a
    ensures var s := a + pat + b;
      s[..|pat|] != pat && s[0] == a[0] && s[1..] == a[1..] + pat + b
  {
    var s := a + pat + b;
    assert s[1] != pat[1] by {
      if |a| >= 2 {
        assert s[1] == a[1];
      } else {
        assert s[1] == pat[0];
      }
    }
    assert s[..|pat|][1] == s[1];
    assert s[1..] == a[1..] + pat + b;
  }

  /** Where `pat` does not start, the scan moves one character on. */
  lemma ReplaceStep(s: string, pat: string, rep: string)
    requires |pat| > 0 && |s| >= |pat| && s[..|pat|] != pat
    ensures ReplaceAll(s, pat, rep) == [s[0]] + ReplaceAll(s[1..], pat, rep)
  {
  }

  /** PCRE's `\s`: space, tab, line feed, vertical tab, form feed, carriage return. */
  predicate IsSpace(c: char)
  {
    c == ' ' || c == '\t' || c == '\n' || c as int == 0x0B || c as int == 0x0C || c == '\r'
  }

  /** The end of the longest run of `\s` characters starting at `i`. */
  function SpaceRun(s: string, i: nat): (j: nat)
    requires i <= |s|
    ensures i <= j <= |s|
    ensures forall k :: i <= k < j ==> IsSpace(s[k])
    ensures j < |s| ==> !IsSpace(s[j])
    decreases |s| - i
  {
    if i < |s| && IsSpace(s[i]) then SpaceRun(s, i + 1) else i
  }

  /** The characters PHP's `trim()` strips by default. */
  predicate IsTrimChar(c: char)
  {
    c == ' ' || c == '\t' || c == '\n' || c == '\r' || c == '\0' || c as int == 0x0B
  }

  function TrimLeft(s: string, strip: char -> bool): (r: string)
    ensures |r| <= |s| && r == s[|s| - |r|..]
    ensures |r| > 0 ==> !strip(r[0])
  {
    if |s| > 0 && strip(s[0]) then TrimLeft(s[1..], strip) else s
  }

  function TrimRight(s: string, strip: char -> bool): (r: string)
    ensures |r| <= |s| && r == s[..|r|]
    ensures |r| > 0 ==> !strip(r[|r| - 1])
  {
    if |s| > 0 && strip(s[|s| - 1]) then TrimRight(s[..|s| - 1], strip) else s
  }

  /** `trim(s, charlist)` for the character set `strip`. */
  function Trim(s: string, strip: char -> bool): string
  {
    TrimRight(TrimLeft(s, strip), strip)
  }

  /** `explode(sep, s)` for a one-character separator: the pieces between separators. */
  function Split(s: string, sep: char): (parts: seq<string>)
    ensures |parts| >= 1
    ensures forall k :: 0 <= k < |parts| ==> sep !in parts[k]
  {
    var i := FirstIndex(s, sep);
    if i == |s| then [s] else [s[..i]] + Split(s[i + 1..], sep)
  }

  /** Splitting and joining with the same separator gives the string back. */
  lemma {:induction false} SplitJoin(s: string, sep: char)
    ensures Join(Split(s, sep), [sep]) == s
  {
    var i := FirstIndex(s, sep);
    if i < |s| {
      var rest := Split(s[i + 1..], sep);
      SplitJoin(s[i + 1..], sep);
      JoinCons(s[..i], rest, [sep]);
      assert s == s[..i] + [sep] + s[i + 1..];
    }
  }

  /** Joining a list with a first element put in front. */
  lemma {:induction false} JoinCons(head: string, tail: seq<string>, sep: string)
    requires |tail| >= 1
    ensures Join([head] + tail, sep) == head + sep + Join(tail, sep)
    decreases |tail|
  {
    var all := [head] + tail;
    if |tail| == 1 {
      assert all[..1] == [head];
    } else {
      assert all[..|all| - 1] == [head] + tail[..|tail| - 1];
      JoinCons(head, tail[..|tail| - 1], sep);
    }
  }

  /** Joining two non-empty lists puts one separator between their joins. */
  lemma {:induction false} JoinAppend(xs: seq<string>, ys: seq<string>, sep: string)
    requires |xs| >= 1 && |ys| >= 1
    ensures Join(xs + ys, sep) == Join(xs, sep) + sep + Join(ys, sep)
    decreases |ys|
  {
    var all := xs + ys;
    if |ys| == 1 {
      assert all[..|all| - 1] == xs;
    } else {
      assert all[..|all| - 1] == xs + ys[..|ys| - 1];
      JoinAppend(xs, ys[..|ys| - 1], sep);
    }
  }
}
