/** The template runtime's output escapers: HTML text and attributes, HTML
    comments, XML, CSS and iCalendar text. Every escaper but the comment one
    maps each character to a fixed replacement, so the model states them
    through one character map, `Encode`, and proves them against decoders
    that undo them. Characters stand for whole UTF-8 sequences. */
module Escape {
  import opened Wrappers
  import opened Strings
  import opened Php

  // ---------------------------------------------------------- character maps

  /** Each character replaced by its image under `ent`. */
  function Encode(s: string, ent: char -> string): string
  {
    if |s| == 0 then "" else ent(s[0]) + Encode(s[1..], ent)
  }

  lemma {:induction false} EncodeAppend(a: string, b: string, ent: char -> string)
    ensures Encode(a + b, ent) == Encode(a, ent) + Encode(b, ent)
  {
    if |a| > 0 {
      assert (a + b)[1..] == a[1..] + b;
      EncodeAppend(a[1..], b, ent);
    } else {
      assert a + b == b;
    }
  }

  /** A character no image contains is absent from the result. */
  lemma {:induction false} EncodeAvoids(s: string, ent: char -> string, c: char)
    requires forall x :: c !in ent(x)
    ensures c !in Encode(s, ent)
  {
    if |s| > 0 {
      EncodeAvoids(s[1..], ent, c);
    }
  }

  /** A map that leaves every character of `s` alone leaves `s` alone. */
  lemma {:induction false} EncodeIdentity(s: string, ent: char -> string)
    requires forall k :: 0 <= k < |s| ==> ent(s[k]) == [s[k]]
    ensures Encode(s, ent) == s
  {
    if |s| > 0 {
      EncodeIdentity(s[1..], ent);
      assert s == [s[0]] + s[1..];
    }
  }

  /** Every character of the result passes `ok` when every character of
      the image of every character of `s` does. */
  lemma {:induction false} EncodeChars(s: string, ent: char -> string, ok: char -> bool)
    requires forall k, y :: 0 <= k < |s| && y in ent(s[k]) ==> ok(y)
    ensures forall y :: y in Encode(s, ent) ==> ok(y)
  {
    if |s| > 0 {
      assert forall k, y :: 0 <= k < |s[1..]| && y in ent(s[1..][k]) ==> ok(y) by {
        forall k, y | 0 <= k < |s[1..]| && y in ent(s[1..][k]) ensures ok(y) {
          assert s[1..][k] == s[k + 1];
        }
      }
      EncodeChars(s[1..], ent, ok);
    }
  }

  /** Two maps applied in turn are one map. */
  lemma {:induction false} EncodeFuse(s: string, f: char -> string, g: char -> string)
    ensures Encode(Encode(s, f), g) == Encode(s, x => Encode(f(x), g))
  {
    if |s| > 0 {
      EncodeAppend(f(s[0]), Encode(s[1..], f), g);
      EncodeFuse(s[1..], f, g);
    }
  }

  function Swap(c: char, rep: string): char -> string
  {
    x => if x == c then rep else [x]
  }

  /** `str_replace` of one character is a character map. */
  lemma {:induction false} ReplaceCharEncode(s: string, c: char, rep: string)
    ensures ReplaceAll(s, [c], rep) == Encode(s, Swap(c, rep))
  {
    if |s| > 0 {
      ReplaceCharEncode(s[1..], c, rep);
      assert s[..1] == [s[0]];
    }
  }

  /** `preg_replace` of a character class with the empty string: the
      characters `drop` accepts, deleted. */
  function Delete(s: string, drop: char -> bool): (r: string)
    ensures forall c :: c in r <==> c in s && !drop(c)
  {
    if |s| == 0 then "" else (if drop(s[0]) then "" else [s[0]]) + Delete(s[1..], drop)
  }

  predicate Starts(t: string, p: string)
  {
    |p| <= |t| && t[..|p|] == p
  }

  // ------------------------------------------------------------ HTML entities

  /** The quote flags of `htmlspecialchars`: `ENT_NOQUOTES` has neither,
      `ENT_COMPAT` the double quote, `ENT_QUOTES` both. */
  datatype Quotes = Quotes(double: bool, single: bool)

  const NoQuotes := Quotes(false, false)
  const AllQuotes := Quotes(true, true)

  /** The image of one character under `htmlspecialchars`. */
  function HtmlEntity(q: Quotes, c: char): string
  {
    if c == '&' then "&amp;"
    else if c == '"' && q.double then "&quot;"
    else if c == '\'' && q.single then "&#039;"
    else if c == '<' then "&lt;"
    else if c == '>' then "&gt;"
    else [c]
  }

  /** `htmlspecialchars(s, q, 'UTF-8')`. */
  function SpecialChars(s: string, q: Quotes): string
  {
    Encode(s, c => HtmlEntity(q, c))
  }

  /** Decoding of the entities the escapers emit; any other text is kept. */
  function DecodeEntities(t: string): string
    decreases |t|
  {
    if |t| == 0 then ""
    else if t[0] != '&' then [t[0]] + DecodeEntities(t[1..])
    else if Starts(t, "&amp;") then "&" + DecodeEntities(t[5..])
    else if Starts(t, "&quot;") then "\"" + DecodeEntities(t[6..])
    else if Starts(t, "&#039;") then "'" + DecodeEntities(t[6..])
    else if Starts(t, "&#39;") then "'" + DecodeEntities(t[5..])
    else if Starts(t, "&lt;") then "<" + DecodeEntities(t[4..])
    else if Starts(t, "&gt;") then ">" + DecodeEntities(t[4..])
    else "&" + DecodeEntities(t[1..])
  }

  /** `e` is an encoding of `c` that `DecodeEntities` reads back. */
  predicate Decodes(e: string, c: char)
  {
    (e == [c] && c != '&') ||
    (c == '&' && e == "&amp;") ||
    (c == '"' && e == "&quot;") ||
    (c == '\'' && (e == "&#039;" || e == "&#39;")) ||
    (c == '<' && e == "&lt;") ||
    (c == '>' && e == "&gt;")
  }

  lemma DecodeChunk(e: string, c: char, t: string)
    requires Decodes(e, c)
    ensures DecodeEntities(e + t) == [c] + DecodeEntities(t)
  {
    if e == [c] {
      var u := e + t;
      assert u[0] == c && u[1..] == t;
    } else if c == '&' {
      AmpChunk(t);
    } else if c == '"' {
      QuotChunk(t);
    } else if e == "&#039;" {
      AposChunk(t);
    } else if c == '\'' {
      ShortAposChunk(t);
    } else if c == '<' {
      LtChunk(t);
    } else {
      GtChunk(t);
    }
  }

  /** An entity followed by anything starts with that entity. */
  lemma StartsWhole(e: string, t: string)
    ensures Starts(e + t, e) && (e + t)[|e|..] == t
  {
    assert (e + t)[..|e|] == e;
  }

  /** One differing character rules a prefix out. */
  lemma StartsNot(u: string, p: string, i: nat)
    requires i < |p| && i < |u| && u[i] != p[i]
    ensures !Starts(u, p)
  {
    if |p| <= |u| {
      assert u[..|p|][i] == u[i];
    }
  }

  lemma AmpChunk(t: string)
    ensures DecodeEntities("&amp;" + t) == "&" + DecodeEntities(t)
  {
    StartsWhole("&amp;", t);
  }

  lemma QuotChunk(t: string)
    ensures DecodeEntities("&quot;" + t) == "\"" + DecodeEntities(t)
  {
    var u := "&quot;" + t;
    StartsWhole("&quot;", t);
    StartsNot(u, "&amp;", 1);
  }

  lemma AposChunk(t: string)
    ensures DecodeEntities("&#039;" + t) == "'" + DecodeEntities(t)
  {
    var u := "&#039;" + t;
    StartsWhole("&#039;", t);
    StartsNot(u, "&amp;", 1);
    StartsNot(u, "&quot;", 1);
  }

  lemma ShortAposChunk(t: string)
    ensures DecodeEntities("&#39;" + t) == "'" + DecodeEntities(t)
  {
    var u := "&#39;" + t;
    StartsWhole("&#39;", t);
    StartsNot(u, "&amp;", 1);
    StartsNot(u, "&quot;", 1);
    StartsNot(u, "&#039;", 2);
  }

  lemma LtChunk(t: string)
    ensures DecodeEntities("&lt;" + t) == "<" + DecodeEntities(t)
  {
    var u := "&lt;" + t;
    StartsWhole("&lt;", t);
    StartsNot(u, "&amp;", 1);
    StartsNot(u, "&quot;", 1);
    StartsNot(u, "&#039;", 1);
    StartsNot(u, "&#39;", 1);
  }

  lemma GtChunk(t: string)
    ensures DecodeEntities("&gt;" + t) == ">" + DecodeEntities(t)
  {
    var u := "&gt;" + t;
    StartsWhole("&gt;", t);
    StartsNot(u, "&amp;", 1);
    StartsNot(u, "&quot;", 1);
    StartsNot(u, "&#039;", 1);
    StartsNot(u, "&#39;", 1);
    StartsNot(u, "&lt;", 1);
  }

  /** Decoding undoes any map built from decodable images. */
  lemma {:induction false} DecodeEncode(s: string, ent: char -> string)
    requires forall x :: Decodes(ent(x), x)
    ensures DecodeEntities(Encode(s, ent)) == s
  {
    if |s| > 0 {
      DecodeChunk(ent(s[0]), s[0], Encode(s[1..], ent));
      DecodeEncode(s[1..], ent);
      assert s == [s[0]] + s[1..];
    }
  }

  lemma HtmlEntityDecodes(q: Quotes)
    ensures forall x :: Decodes(HtmlEntity(q, x), x)
  {
  }

  /** `htmlspecialchars` is undone by decoding, whatever the quote flags. */
  lemma SpecialCharsDecode(s: string, q: Quotes)
    ensures DecodeEntities(SpecialChars(s, q)) == s
  {
    HtmlEntityDecodes(q);
    DecodeEncode(s, c => HtmlEntity(q, c));
  }

  /** `htmlspecialchars` leaves no `<` or `>`, no `"` when the double quote
      is escaped and no `'` when the single quote is. */
  lemma SpecialCharsSafe(s: string, q: Quotes)
    ensures '<' !in SpecialChars(s, q) && '>' !in SpecialChars(s, q)
    ensures q.double ==> '"' !in SpecialChars(s, q)
    ensures q.single ==> '\'' !in SpecialChars(s, q)
  {
    EncodeAvoids(s, c => HtmlEntity(q, c), '<');
    EncodeAvoids(s, c => HtmlEntity(q, c), '>');
    if q.double {
      EncodeAvoids(s, c => HtmlEntity(q, c), '"');
    }
    if q.single {
      EncodeAvoids(s, c => HtmlEntity(q, c), '\'');
    }
  }

  /** The characters whose presence stops the backtick rule: space, `<`,
      `>` and both quotes. */
  predicate Breaks(c: char)
  {
    c == ' ' || c == '<' || c == '>' || c == '"' || c == '\''
  }

  /** With quotes escaped, a value holding a backtick and none of the
      breaking characters gets a trailing space, so that old browsers do
      not take the backtick for an attribute delimiter. */
  predicate NeedsSpace(s: string)
  {
    '`' in s && forall k :: 0 <= k < |s| ==> !Breaks(s[k])
  }

  /** `escapeHtml` on a string. */
  function EscapeHtml(s: string, q: Quotes): string
  {
    SpecialChars(if q != NoQuotes && NeedsSpace(s) then s + " " else s, q)
  }

  /** `escapeHtml` is undone by decoding, up to the trailing space of the
      backtick rule, which is added exactly when quotes are escaped and
      the string needs it. */
  lemma EscapeHtmlDecode(s: string, q: Quotes)
    ensures DecodeEntities(EscapeHtml(s, q)) == if q != NoQuotes && NeedsSpace(s) then s + " " else s
  {
    SpecialCharsDecode(if q != NoQuotes && NeedsSpace(s) then s + " " else s, q);
  }

  /** With `ENT_QUOTES`, the output holds none of `<`, `>`, `"`, `'`. */
  lemma EscapeHtmlSafe(s: string)
    ensures var r := EscapeHtml(s, AllQuotes);
      '<' !in r && '>' !in r && '"' !in r && '\'' !in r
  {
    SpecialCharsSafe(if NeedsSpace(s) then s + " " else s, AllQuotes);
  }

  // ------------------------------------------------------------ HTML comments

  predicate NoDashPair(t: string)
  {
    forall k :: 0 <= k < |t| - 1 ==> !(t[k] == '-' && t[k + 1] == '-')
  }

  /** Replacing `--` by `- - ` leaves no two adjacent dashes and keeps the
      first character. */
  lemma {:induction false} DashesSplit(s: string)
    ensures NoDashPair(ReplaceAll(s, "--", "- - "))
    ensures |s| > 0 ==> |ReplaceAll(s, "--", "- - ")| > 0 && ReplaceAll(s, "--", "- - ")[0] == s[0]
    decreases |s|
  {
    var r := ReplaceAll(s, "--", "- - ");
    if |s| >= 2 {
      if s[..2] == "--" {
        DashesSplit(s[2..]);
        var t := ReplaceAll(s[2..], "--", "- - ");
        assert r == "- - " + t;
        assert s[0] == '-';
      } else {
        DashesSplit(s[1..]);
        var t := ReplaceAll(s[1..], "--", "- - ");
        assert r == [s[0]] + t;
        assert s[1..][0] == s[1];
        assert !(s[0] == '-' && s[1] == '-') by {
          assert s[..2] == [s[0], s[1]];
        }
      }
    }
  }

  /** Text with no two adjacent dashes is left alone. */
  lemma {:induction false} DashesKept(s: string)
    requires NoDashPair(s)
    ensures ReplaceAll(s, "--", "- - ") == s
    decreases |s|
  {
    if |s| >= 2 {
      assert s[..2] != "--" by {
        assert s[..2] == [s[0], s[1]];
      }
      DashesKept(s[1..]);
      assert s == [s[0]] + s[1..];
    }
  }

  predicate BadCommentStart(c: char)
  {
    c == '-' || c == '>' || c == '!'
  }

  /** `escapeHtmlComment`: a space before a leading `-`, `>` or `!`, every
      `--` split, and a space after a trailing `-`. */
  function EscapeHtmlComment(s: string): string
  {
    var s1 := if |s| > 0 && BadCommentStart(s[0]) then " " + s else s;
    var s2 := ReplaceAll(s1, "--", "- - ");
    if |s2| > 0 && s2[|s2| - 1] == '-' then s2 + " " else s2
  }

  /** The result is valid comment text: no `--`, and when not empty it
      neither starts with `-`, `>` or `!` nor ends with `-`. */
  lemma CommentSafe(s: string)
    ensures var r := EscapeHtmlComment(s);
      NoDashPair(r) && (|r| > 0 ==> !BadCommentStart(r[0]) && r[|r| - 1] != '-')
  {
    var s1 := if |s| > 0 && BadCommentStart(s[0]) then " " + s else s;
    DashesSplit(s1);
    var s2 := ReplaceAll(s1, "--", "- - ");
    assert |s1| > 0 ==> !BadCommentStart(s1[0]);
    CommentEnd(s2);
  }

  /** The trailing space after a final dash keeps comment text valid. */
  lemma CommentEnd(s2: string)
    requires NoDashPair(s2) && (|s2| > 0 ==> !BadCommentStart(s2[0]))
    ensures var r := if |s2| > 0 && s2[|s2| - 1] == '-' then s2 + " " else s2;
      NoDashPair(r) && (|r| > 0 ==> !BadCommentStart(r[0]) && r[|r| - 1] != '-')
  {
    if |s2| > 0 && s2[|s2| - 1] == '-' {
      var r := s2 + " ";
      forall k | 0 <= k < |r| - 1
        ensures !(r[k] == '-' && r[k + 1] == '-')
      {
        if k + 1 < |s2| {
          assert r[k] == s2[k] && r[k + 1] == s2[k + 1];
        } else {
          assert r[k + 1] == ' ';
        }
      }
      assert r[0] == s2[0];
    }
  }


  /** Text that is already valid comment text is returned unchanged. */
  lemma CommentKeepsSafe(s: string)
    requires NoDashPair(s) && (|s| > 0 ==> !BadCommentStart(s[0]) && s[|s| - 1] != '-')
    ensures EscapeHtmlComment(s) == s
  {
    DashesKept(s);
  }

  // ---------------------------------------------------------------------- XML

  /** The C0 controls XML 1.0 does not allow (its Char production, section
      2.2): all but tab, line feed and carriage return. */
  predicate XmlForbidden(c: char)
  {
    c < '\t' || c as int == 0x0B || c as int == 0x0C || (0x0E <= c as int <= 0x1F)
  }

  /** `escapeXML`: forbidden controls deleted, then `htmlspecialchars` with both quotes. */
  function EscapeXml(s: string): string
  {
    SpecialChars(Delete(s, XmlForbidden), AllQuotes)
  }

  /** Decoding gives back the input without its forbidden controls. */
  lemma EscapeXmlDecode(s: string)
    ensures DecodeEntities(EscapeXml(s)) == Delete(s, XmlForbidden)
  {
    SpecialCharsDecode(Delete(s, XmlForbidden), AllQuotes);
  }

  predicate XmlSafe(c: char)
  {
    !XmlForbidden(c) && c != '<' && c != '>' && c != '"' && c != '\''
  }

  /** The output holds no forbidden control and none of `<`, `>`, `"`, `'`. */
  lemma EscapeXmlSafe(s: string)
    ensures forall c :: c in EscapeXml(s) ==> XmlSafe(c)
  {
    var d := Delete(s, XmlForbidden);
    assert forall k :: 0 <= k < |d| ==> d[k] in d;
    EncodeChars(d, c => HtmlEntity(AllQuotes, c), XmlSafe);
  }

  // ------------------------------------------------------------- addcslashes

  predicate IsOctal(c: char)
  {
    '0' <= c <= '7'
  }

  /** The letters `addcslashes` writes for the controls with a C escape. */
  predicate IsCLetter(c: char)
  {
    c == 'n' || c == 't' || c == 'r' || c == 'a' || c == 'v' || c == 'b' || c == 'f'
  }

  function CLetterControl(c: char): char
    requires IsCLetter(c)
  {
    if c == 'n' then '\n' else if c == 't' then '\t' else if c == 'r' then '\r'
    else if c == 'a' then 7 as char else if c == 'v' then 11 as char
    else if c == 'b' then 8 as char else 12 as char
  }

  function OctalDigit(d: nat): (c: char)
    requires d < 8
    ensures IsOctal(c)
  {
    (48 + d) as char
  }

  /** What follows the backslash for a control: its C letter, or three octal digits. */
  function ControlCode(c: char): (r: string)
    requires c < ' '
  {
    if c == '\n' then "n" else if c == '\t' then "t" else if c == '\r' then "r"
    else if c as int == 7 then "a" else if c as int == 11 then "v"
    else if c as int == 8 then "b" else if c as int == 12 then "f"
    else [OctalDigit(0), OctalDigit(c as int / 8), OctalDigit(c as int % 8)]
  }

  /** The image of one character under `addcslashes(s, list)`, for a list
      with no character above `~`. */
  function SlashImage(list: char -> bool, c: char): string
  {
    if !list(c) then [c]
    else if c < ' ' then "\\" + ControlCode(c)
    else ['\\', c]
  }

  /** The inverse of `addcslashes` on what it emits: a backslash before a C
      letter, before three octal digits, or before any other character. */
  function Unslash(t: string): string
    decreases |t|
  {
    if |t| < 2 || t[0] != '\\' then (if |t| == 0 then "" else [t[0]] + Unslash(t[1..]))
    else if IsCLetter(t[1]) then [CLetterControl(t[1])] + Unslash(t[2..])
    else if |t| >= 4 && IsOctal(t[1]) && IsOctal(t[2]) && IsOctal(t[3]) then
      [(64 * (t[1] as int - 48) + 8 * (t[2] as int - 48) + (t[3] as int - 48)) as char] + Unslash(t[4..])
    else [t[1]] + Unslash(t[2..])
  }

  /** `e` is an encoding of `c` that `Unslash` reads back. */
  predicate Unslashes(e: string, c: char)
  {
    (e == [c] && c != '\\') ||
    (c >= ' ' && !IsCLetter(c) && !IsOctal(c) && e == ['\\', c]) ||
    (c < ' ' && e == "\\" + ControlCode(c))
  }

  lemma UnslashChunk(e: string, c: char, t: string)
    requires Unslashes(e, c)
    ensures Unslash(e + t) == [c] + Unslash(t)
  {
    var u := e + t;
    assert u[..|e|] == e && u[|e|..] == t;
    if e == [c] {
      assert u[0] == c;
    } else if c >= ' ' {
      assert u[0] == '\\' && u[1] == c;
    } else {
      assert u[0] == '\\';
      var code := ControlCode(c);
      assert u[1..|e|] == code;
      if |code| == 3 {
        assert u[1] == code[0] && u[2] == code[1] && u[3] == code[2];
      } else {
        assert u[1] == code[0];
      }
    }
  }

  /** `Unslash` undoes any map built from images it reads back. */
  lemma {:induction false} UnslashEncode(s: string, ent: char -> string)
    requires forall x :: Unslashes(ent(x), x)
    ensures Unslash(Encode(s, ent)) == s
  {
    if |s| > 0 {
      UnslashChunk(ent(s[0]), s[0], Encode(s[1..], ent));
      UnslashEncode(s[1..], ent);
      assert s == [s[0]] + s[1..];
    }
  }

  /** A list that holds the backslash and whose printable members are no C
      letter and no octal digit gives images `Unslash` reads back. */
  lemma SlashImagesUnslash(list: char -> bool)
    requires list('\\')
    requires forall c :: list(c) && c >= ' ' ==> !IsCLetter(c) && !IsOctal(c)
    ensures forall x :: Unslashes(SlashImage(list, x), x)
  {
  }

  /** The only control an image can contain is an unlisted character itself. */
  lemma SlashImagesPrintable(list: char -> bool)
    ensures forall x, y :: y in SlashImage(list, x) && y < ' ' ==> y == x && !list(x)
  {
    forall x, y | y in SlashImage(list, x) && y < ' '
      ensures y == x && !list(x)
    {
      if list(x) && x < ' ' {
        var code := ControlCode(x);
        assert forall k :: 0 <= k < |code| ==> code[k] >= '0';
      }
    }
  }

  // ---------------------------------------------------------------------- CSS

  /** The characters `escapeCss` escapes: the C0 controls and the ASCII
      punctuation of CSS 2.1 except `-` and `_`. */
  predicate CssSpecial(c: char)
  {
    c < ' ' || c in "!\"#$%&'()*+,./:;<=>?@[\\]^`{|}~"
  }

  /** `escapeCss`: `addcslashes` with the CSS list. */
  function EscapeCss(s: string): string
  {
    Encode(s, c => SlashImage(CssSpecial, c))
  }

  /** No printable character of the CSS list is a C letter or an octal digit. */
  lemma CssSpecialPlain()
    ensures CssSpecial('\\')
    ensures forall c :: CssSpecial(c) && c >= ' ' ==> !IsCLetter(c) && !IsOctal(c)
  {
    var list := "!\"#$%&'()*+,./:;<=>?@[\\]^`{|}~";
    assert forall i :: 0 <= i < |list| ==> list[i] < '0' || ('7' < list[i] < 'a') || list[i] > 'z';
  }

  /** `Unslash` gives back the input. */
  lemma EscapeCssDecode(s: string)
    ensures Unslash(EscapeCss(s)) == s
  {
    CssSpecialPlain();
    SlashImagesUnslash(CssSpecial);
    UnslashEncode(s, c => SlashImage(CssSpecial, c));
  }

  predicate NoControl(c: char)
  {
    c >= ' '
  }

  /** The output holds no control character. */
  lemma EscapeCssPrintable(s: string)
    ensures forall c :: c in EscapeCss(s) ==> c >= ' '
  {
    SlashImagesPrintable(CssSpecial);
    EncodeChars(s, c => SlashImage(CssSpecial, c), NoControl);
  }

  // ----------------------------------------------------------------- iCalendar

  /** The controls `escapeICal` deletes: every C0 control but tab and line feed. */
  predicate ICalDropped(c: char)
  {
    c < ' ' && c != '\t' && c != '\n'
  }

  /** The characters `escapeICal` backslash-escapes: the TEXT escapes of
      section 3.3.11 of RFC 5545 plus `"` and `:`. */
  predicate ICalSpecial(c: char)
  {
    c == '"' || c == ';' || c == '\\' || c == ',' || c == ':' || c == '\n'
  }

  /** `escapeICal`: the dropped controls deleted, then `addcslashes` with the iCalendar list. */
  function EscapeICal(s: string): string
  {
    Encode(Delete(s, ICalDropped), c => SlashImage(ICalSpecial, c))
  }

  /** `Unslash` gives back the input without its dropped controls. */
  lemma EscapeICalDecode(s: string)
    ensures Unslash(EscapeICal(s)) == Delete(s, ICalDropped)
  {
    SlashImagesUnslash(ICalSpecial);
    UnslashEncode(Delete(s, ICalDropped), c => SlashImage(ICalSpecial, c));
  }

  predicate TabOrPrintable(c: char)
  {
    c >= ' ' || c == '\t'
  }

  /** The output holds no control but the tab: no line break survives. */
  lemma EscapeICalPrintable(s: string)
    ensures forall c :: c in EscapeICal(s) ==> c >= ' ' || c == '\t'
  {
    var d := Delete(s, ICalDropped);
    assert forall k :: 0 <= k < |d| ==> d[k] in d;
    SlashImagesPrintable(ICalSpecial);
    EncodeChars(d, c => SlashImage(ICalSpecial, c), TabOrPrintable);
  }

  // --------------------------------------------------------------- attributes

  /** `$v == null` under PHP's loose comparison: null, false, 0, 0.0, the
      empty string and the empty array, but not the string "0". */
  predicate LooseNull(v: Value)
  {
    match v
    case Null => true
    case Bool(b) => !b
    case Int(i) => i == 0
    case Float(r) => r == "0" || r == "-0"
    case Text(t) => t == ""
    case Arr(es) => es == []
  }

  /** The text one entry of an array value contributes: its key for `true`,
      `key:value` under a string key, the value alone under an integer key. */
  function Part(e: Entry): string
  {
    if e.val == Bool(true) then KeyStr(e.key)
    else match e.key
      case StrKey(k) => k + ":" + StrVal(e.val)
      case IntKey(_) => StrVal(e.val)
  }

  /** The texts of the entries that are not loosely null, in order. */
  function Parts(es: seq<Entry>): (r: seq<string>)
    ensures |r| == 0 <==> forall k :: 0 <= k < |es| ==> LooseNull(es[k].val)
  {
    if |es| == 0 then []
    else
      var init := Parts(es[..|es| - 1]);
      assert forall k :: 0 <= k < |es| - 1 ==> es[..|es| - 1][k] == es[k];
      init + (if LooseNull(es[|es| - 1].val) then [] else [Part(es[|es| - 1])])
  }

  /** `;` joins the parts of `style` and of event handlers (`on...`), a space the rest. */
  function Separator(key: Key): string
  {
    if key == StrKey("style") || Starts(KeyStr(key), "on") then ";" else " "
  }

  /** The quote around a value: `"`, or `'` when the value holds `"`. */
  function QuoteFor(value: string): char
  {
    if '"' in value then '\'' else '"'
  }

  function QuoteEntity(q: char): string
  {
    if q == '"' then "&quot;" else "&#39;"
  }

  /** The `str_replace` of `&`, the quote and `<` in turn; `<` is only
      escaped in XHTML mode. */
  function AttrEscape(value: string, q: char, xhtml: bool): string
  {
    ReplaceAll(ReplaceAll(ReplaceAll(value, "&", "&amp;"), [q], QuoteEntity(q)), "<", if xhtml then "&lt;" else "<")
  }

  /** The image of one character under `AttrEscape`. */
  function AttrEntity(q: char, xhtml: bool, c: char): string
  {
    if c == '&' then "&amp;" else if c == q then QuoteEntity(q) else if c == '<' && xhtml then "&lt;" else [c]
  }

  /** `str_replace` of one character distributes over concatenation. */
  lemma {:induction false} ReplaceCharAppend(a: string, b: string, c: char, rep: string)
    ensures ReplaceAll(a + b, [c], rep) == ReplaceAll(a, [c], rep) + ReplaceAll(b, [c], rep)
  {
    if |a| > 0 {
      var u := a + b;
      assert u[..1] == a[..1] && u[0] == a[0] && u[1..] == a[1..] + b;
      ReplaceCharAppend(a[1..], b, c, rep);
    } else {
      assert a + b == b;
    }
  }

  /** `str_replace` of one character after a map is a map. */
  lemma {:induction false} ReplaceAfterMap(s: string, f: char -> string, c: char, rep: string, g: char -> string)
    requires forall x :: ReplaceAll(f(x), [c], rep) == g(x)
    ensures ReplaceAll(Encode(s, f), [c], rep) == Encode(s, g)
  {
    if |s| > 0 {
      ReplaceCharAppend(f(s[0]), Encode(s[1..], f), c, rep);
      ReplaceAfterMap(s[1..], f, c, rep, g);
    }
  }

  /** The image of one character after the first two replacements. */
  function AmpQuote(q: char, c: char): string
  {
    if c == '&' then "&amp;" else if c == q then QuoteEntity(q) else [c]
  }

  lemma AmpQuoteStep(q: char)
    requires q == '"' || q == '\''
    ensures forall x :: ReplaceAll(Swap('&', "&amp;")(x), [q], QuoteEntity(q)) == AmpQuote(q, x)
  {
    forall x
      ensures ReplaceAll(Swap('&', "&amp;")(x), [q], QuoteEntity(q)) == AmpQuote(q, x)
    {
      if x == '&' {
        ReplaceCharAbsent("&amp;", q, QuoteEntity(q));
      } else {
        assert [x][..1] == [x] && [x][1..] == [];
      }
    }
  }

  lemma LessThanStep(q: char, xhtml: bool)
    requires q == '"' || q == '\''
    ensures forall x :: ReplaceAll(AmpQuote(q, x), "<", if xhtml then "&lt;" else "<") == AttrEntity(q, xhtml, x)
  {
    var lt := if xhtml then "&lt;" else "<";
    forall x
      ensures ReplaceAll(AmpQuote(q, x), "<", lt) == AttrEntity(q, xhtml, x)
    {
      if x == '&' {
        ReplaceCharAbsent("&amp;", '<', lt);
      } else if x == q {
        ReplaceCharAbsent(QuoteEntity(q), '<', lt);
      } else {
        assert [x][..1] == [x] && [x][1..] == [];
      }
    }
  }

  /** The three replacements in turn are the single map `AttrEntity`. */
  lemma AttrEscapeMap(value: string, q: char, xhtml: bool)
    requires q == '"' || q == '\''
    ensures AttrEscape(value, q, xhtml) == Encode(value, c => AttrEntity(q, xhtml, c))
  {
    ReplaceCharEncode(value, '&', "&amp;");
    AmpQuoteStep(q);
    ReplaceAfterMap(value, Swap('&', "&amp;"), q, QuoteEntity(q), c => AmpQuote(q, c));
    LessThanStep(q, xhtml);
    ReplaceAfterMap(value, c => AmpQuote(q, c), '<', if xhtml then "&lt;" else "<", c => AttrEntity(q, xhtml, c));
  }

  /** A trailing space passes through unchanged. */
  lemma AttrEscapeSpace(value: string, q: char, xhtml: bool, sp: string)
    requires q == '"' || q == '\''
    requires sp == "" || sp == " "
    ensures AttrEscape(value + sp, q, xhtml) == AttrEscape(value, q, xhtml) + sp
  {
    var ent := c => AttrEntity(q, xhtml, c);
    AttrEscapeMap(value, q, xhtml);
    AttrEscapeMap(value + sp, q, xhtml);
    EncodeAppend(value, sp, ent);
    if sp == " " {
      assert Encode(sp, ent) == ent(' ') + Encode("", ent);
    }
  }

  /** The escaped value holds no unescaped quote, no `<` in XHTML mode, and
      decoding gives back the value. */
  lemma AttrEscapeSafe(value: string, q: char, xhtml: bool)
    requires q == '"' || q == '\''
    ensures q !in AttrEscape(value, q, xhtml)
    ensures xhtml ==> '<' !in AttrEscape(value, q, xhtml)
    ensures DecodeEntities(AttrEscape(value, q, xhtml)) == value
  {
    AttrEscapeMap(value, q, xhtml);
    var ent := c => AttrEntity(q, xhtml, c);
    AttrEntityImages(q, xhtml);
    EncodeAvoids(value, ent, q);
    if xhtml {
      EncodeAvoids(value, ent, '<');
    }
    DecodeEncode(value, ent);
  }

  /** Every image avoids the chosen quote, avoids `<` in XHTML mode, and decodes back. */
  lemma AttrEntityImages(q: char, xhtml: bool)
    requires q == '"' || q == '\''
    ensures forall x :: q !in AttrEntity(q, xhtml, x)
    ensures xhtml ==> forall x :: '<' !in AttrEntity(q, xhtml, x)
    ensures forall x :: Decodes(AttrEntity(q, xhtml, x), x)
  {
  }

  /** ` key=` and the quoted, escaped value, with the backtick rule's space. */
  function Quoted(key: string, value: string, xhtml: bool): string
  {
    var q := QuoteFor(value);
    " " + key + "=" + [q] + AttrEscape(value, q, xhtml) + (if NeedsSpace(value) then " " else "") + [q]
  }

  /** The emitted value sits between two quotes of the chosen kind, holds
      none inside, and decodes to the value (with the backtick space). */
  lemma QuotedSafe(key: string, value: string, xhtml: bool)
    ensures var q := QuoteFor(value);
      var sp := if NeedsSpace(value) then " " else "";
      var body := AttrEscape(value, q, xhtml) + sp;
      (q == '"' <==> '"' !in value) &&
      Quoted(key, value, xhtml) == " " + key + "=" + [q] + body + [q] &&
      q !in body && DecodeEntities(body) == value + sp
  {
    var q := QuoteFor(value);
    var sp := if NeedsSpace(value) then " " else "";
    AttrEscapeSpace(value, q, xhtml, sp);
    AttrEscapeSafe(value + sp, q, xhtml);
  }

  /** What one attribute contributes: nothing for null and false, the bare
      name (or `key="key"` in XHTML mode) for true, nothing for an array
      with no part, and otherwise the quoted value. */
  function Piece(e: Entry, xhtml: bool): string
  {
    var k := KeyStr(e.key);
    match e.val
    case Null => ""
    case Bool(b) =>
      if !b then "" else if xhtml then " " + k + "=\"" + k + "\"" else " " + k
    case Arr(es) =>
      var parts := Parts(es);
      if |parts| == 0 then "" else Quoted(k, Join(parts, Separator(e.key)), xhtml)
    case _ => Quoted(k, StrVal(e.val), xhtml)
  }

  function Pieces(es: seq<Entry>, xhtml: bool): string
  {
    if |es| == 0 then "" else Pieces(es[..|es| - 1], xhtml) + Piece(es[|es| - 1], xhtml)
  }

  /** The attributes of one more entry; an entry that emits nothing adds nothing. */
  lemma PiecesStep(es: seq<Entry>, i: nat, xhtml: bool)
    requires i < |es|
    ensures Pieces(es[..i + 1], xhtml) == Pieces(es[..i], xhtml) + Piece(es[i], xhtml)
    ensures Piece(es[i], xhtml) == "" ==> Pieces(es[..i + 1], xhtml) == Pieces(es[..i], xhtml)
  {
    assert es[..i + 1][..i] == es[..i];
    if Piece(es[i], xhtml) == "" {
      assert Pieces(es[..i], xhtml) + "" == Pieces(es[..i], xhtml);
    }
  }

  /** `htmlAttributes`: empty for anything but an array. */
  function AttributesText(attrs: Value, xhtml: bool): string
  {
    if attrs.Arr? then Pieces(attrs.entries, xhtml) else ""
  }

  /** The basic cases of one attribute. */
  lemma PieceCases(e: Entry, xhtml: bool)
    ensures e.val == Null || e.val == Bool(false) ==> Piece(e, xhtml) == ""
    ensures e.val == Bool(true) ==>
      Piece(e, xhtml) == if xhtml then " " + KeyStr(e.key) + "=\"" + KeyStr(e.key) + "\"" else " " + KeyStr(e.key)
    ensures e.val.Arr? && (forall k :: 0 <= k < |e.val.entries| ==> LooseNull(e.val.entries[k].val)) ==>
      Piece(e, xhtml) == ""
  {
  }

  /** The parts of an array value, and how they are joined. */
  method Composite(key: Key, es: seq<Entry>) returns (tmp: seq<string>, value: string)
    ensures tmp == Parts(es)
    ensures |tmp| > 0 ==> value == Join(tmp, Separator(key))
  {
    tmp := [];
    var i := 0;
    while i < |es|
      invariant 0 <= i <= |es|
      invariant tmp == Parts(es[..i])
    {
      var e := es[i];
      if !LooseNull(e.val) {
        tmp := tmp + [Part(e)];
      }
      assert es[..i + 1][..i] == es[..i];
      i := i + 1;
    }
    assert es[..i] == es;
    value := "";
    if |tmp| > 0 {
      value := Join(tmp, Separator(key));
    }
  }

  /** `htmlAttributes`, with `xhtml` the XHTML switch. */
  method HtmlAttributes(attrs: Value, xhtml: bool) returns (s: string)
    ensures s == AttributesText(attrs, xhtml)
  {
    if !attrs.Arr? {
      return "";
    }
    var es := attrs.entries;
    s := "";
    var i := 0;
    while i < |es|
      invariant 0 <= i <= |es|
      invariant s == Pieces(es[..i], xhtml)
    {
      var e := es[i];
      PiecesStep(es, i, xhtml);
      i := i + 1;
      var key := KeyStr(e.key);
      var value: string;
      if e.val == Null || e.val == Bool(false) {
        continue;
      } else if e.val == Bool(true) {
        if xhtml {
          s := s + (" " + key + "=\"" + key + "\"");
        } else {
          s := s + (" " + key);
        }
        continue;
      } else if e.val.Arr? {
        var tmp;
        tmp, value := Composite(e.key, e.val.entries);
        if |tmp| == 0 {
          continue;
        }
      } else {
        value := StrVal(e.val);
      }
      assert Piece(e, xhtml) == Quoted(key, value, xhtml);
      var q := QuoteFor(value);
      s := s + (" " + key + "=" + [q] + AttrEscape(value, q, xhtml) + (if NeedsSpace(value) then " " else "") + [q]);
    }
    assert es[..i] == es;
  }
}
