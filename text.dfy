/** String operations of Python's `str` and JavaScript's `String` that the
    core relies on, over `seq<char>`. Case mapping covers the ASCII letters
    only. */
module Text {

  function LowerChar(c: char): char {
    if 'A' <= c <= 'Z' then (c as int + 32) as char else c
  }

  function UpperChar(c: char): char {
    if 'a' <= c <= 'z' then (c as int - 32) as char else c
  }

  /** `s.lower()` in Python, `s.toLowerCase()` in JavaScript. */
  function Lower(s: string): (r: string)
    ensures |r| == |s|
    ensures forall i :: 0 <= i < |s| ==> r[i] == LowerChar(s[i])
  {
    seq(|s|, i requires 0 <= i < |s| => LowerChar(s[i]))
  }

  /** `s.capitalize()`: the first character upper-cased, the rest lower-cased. */
  function Capitalize(s: string): (r: string)
    ensures |r| == |s|
    ensures |s| > 0 ==> r[0] == UpperChar(s[0]) && r[1..] == Lower(s[1..])
  {
    if |s| == 0 then "" else [UpperChar(s[0])] + Lower(s[1..])
  }

  /** The characters Python's `str.strip()` removes by default. */
  predicate IsSpace(c: char) {
    c == ' ' || '\t' <= c <= '\r' || '\U{1c}' <= c <= '\U{1f}' || c == '\U{85}'
    || c == '\U{a0}' || c == '\U{1680}' || '\U{2000}' <= c <= '\U{200a}'
    || c == '\U{2028}' || c == '\U{2029}' || c == '\U{202f}' || c == '\U{205f}'
    || c == '\U{3000}'
  }

  /** `s.strip()` is empty (false in a condition). */
  predicate IsBlank(s: string) {
    forall i :: 0 <= i < |s| ==> IsSpace(s[i])
  }

  /** `s.includes(sub)` in JavaScript. */
  predicate Contains(s: string, sub: string) {
    sub <= s || (|s| > 0 && Contains(s[1..], sub))
  }

  /** `sep.join(xs)`: the first part, then each later part after a
      separator. */
  function Join(sep: string, xs: seq<string>): (r: string)
    ensures |xs| == 0 ==> r == ""
    ensures |xs| > 0 ==> xs[0] <= r
    ensures |xs| > 0 ==> |xs[|xs| - 1]| <= |r| && r[|r| - |xs[|xs| - 1]|..] == xs[|xs| - 1]
  {
    if |xs| == 0 then ""
    else if |xs| == 1 then xs[0]
    else
      var rest := Join(sep, xs[1..]);
      assert xs[1..][|xs[1..]| - 1] == xs[|xs| - 1];
      xs[0] + sep + rest
  }

  /** The total length of some strings. */
  function TotalLength(xs: seq<string>): nat {
    if |xs| == 0 then 0 else |xs[0]| + TotalLength(xs[1..])
  }

  /** A joined text holds every part and one separator between each two
      neighbours, and nothing else. */
  lemma {:induction false} JoinLength(sep: string, xs: seq<string>)
    requires |xs| > 0
    ensures |Join(sep, xs)| == TotalLength(xs) + (|xs| - 1) * |sep|
    decreases |xs|
  {
    if |xs| > 1 {
      JoinLength(sep, xs[1..]);
      assert (|xs| - 1) * |sep| == (|xs| - 2) * |sep| + |sep|;
    }
  }

  /** `s.replace(pat, rep)`: every occurrence, left to right, without overlap. */
  function Replace(s: string, pat: string, rep: string): (r: string)
    requires |pat| > 0
    ensures rep == pat ==> r == s
    ensures |rep| == |pat| ==> |r| == |s|
    decreases |s|
  {
    if |s| < |pat| then s
    else if s[..|pat|] == pat then rep + Replace(s[|pat|..], pat, rep)
    else [s[0]] + Replace(s[1..], pat, rep)
  }

  /** Replacing a single character by text that lacks it removes it. */
  lemma {:induction false} ReplaceRemoves(s: string, c: char, rep: string)
    requires c !in rep
    ensures c !in Replace(s, [c], rep)
    decreases |s|
  {
    if |s| >= 1 {
      if s[..1] == [c] {
        ReplaceRemoves(s[1..], c, rep);
      } else {
        assert s[0] != c by { assert s[..1] == [s[0]]; }
        ReplaceRemoves(s[1..], c, rep);
      }
    }
  }

  /** A replacement whose rep text lacks a character does not add it. */
  lemma {:induction false} ReplaceKeepsAbsent(s: string, pat: string, rep: string, c: char)
    requires |pat| > 0 && c !in s && c !in rep
    ensures c !in Replace(s, pat, rep)
    decreases |s|
  {
    if |s| >= |pat| {
      if s[..|pat|] == pat {
        assert forall i :: 0 <= i < |s| - |pat| ==> s[|pat|..][i] == s[i + |pat|];
        ReplaceKeepsAbsent(s[|pat|..], pat, rep, c);
      } else {
        assert forall i :: 0 <= i < |s| - 1 ==> s[1..][i] == s[i + 1];
        ReplaceKeepsAbsent(s[1..], pat, rep, c);
      }
    }
  }

  /** Python's `<=` on strings: lexicographic by code point. */
  predicate StrLe(a: string, b: string)
    decreases |a|
  {
    if |a| == 0 then true
    else if |b| == 0 then false
    else if a[0] != b[0] then a[0] < b[0]
    else StrLe(a[1..], b[1..])
  }

  lemma {:induction false} StrLeTotal(a: string, b: string)
    ensures StrLe(a, b) || StrLe(b, a)
    decreases |a|
  {
    if |a| > 0 && |b| > 0 && a[0] == b[0] {
      StrLeTotal(a[1..], b[1..]);
    }
  }

  lemma {:induction false} StrLeAntisymmetric(a: string, b: string)
    requires StrLe(a, b) && StrLe(b, a)
    ensures a == b
    decreases |a|
  {
    if |a| > 0 && |b| > 0 {
      StrLeAntisymmetric(a[1..], b[1..]);
      assert a == [a[0]] + a[1..] && b == [b[0]] + b[1..];
    }
  }

  lemma {:induction false} StrLeTransitive(a: string, b: string, c: string)
    requires StrLe(a, b) && StrLe(b, c)
    ensures StrLe(a, c)
    decreases |a|
  {
    if |a| > 0 && |b| > 0 && |c| > 0 && a[0] == b[0] && b[0] == c[0] {
      StrLeTransitive(a[1..], b[1..], c[1..]);
    }
  }

  /** The decimal digits of a natural number, as `str()` prints them. */
  function NatToDecimal(n: nat): (r: string)
    ensures |r| > 0
    ensures forall i :: 0 <= i < |r| ==> '0' <= r[i] <= '9'
    decreases n
  {
    var d := [('0' as int + n % 10) as char];
    if n < 10 then d else NatToDecimal(n / 10) + d
  }

  /** The number a string of decimal digits denotes. */
  function DecimalValue(s: string): nat
    requires forall i :: 0 <= i < |s| ==> '0' <= s[i] <= '9'
    decreases |s|
  {
    if |s| == 0 then 0
    else DecimalValue(s[..|s| - 1]) * 10 + (s[|s| - 1] as int - '0' as int)
  }

  /** The digits printed for a number read back as that number, and only
      zero is printed with a leading zero. */
  lemma {:induction false} NatToDecimalValue(n: nat)
    ensures DecimalValue(NatToDecimal(n)) == n
    ensures NatToDecimal(n)[0] == '0' ==> n == 0
    decreases n
  {
    var d := [('0' as int + n % 10) as char];
    if n >= 10 {
      var a := NatToDecimal(n / 10);
      NatToDecimalValue(n / 10);
      assert (a + d)[..|a + d| - 1] == a;
      assert (a + d)[0] == a[0];
    }
  }

  /** `str(i)` for a Python int. */
  function IntToDecimal(i: int): string {
    if i < 0 then "-" + NatToDecimal(-i) else NatToDecimal(i)
  }

  /** The characters `repr()` escapes with a backslash inside a quoted
      string; other non-printable characters are not modelled. */
  function EscapeChar(c: char, quote: char): string {
    if c == '\\' then "\\\\"
    else if c == quote then ['\\', quote]
    else if c == '\n' then "\\n"
    else if c == '\r' then "\\r"
    else if c == '\t' then "\\t"
    else [c]
  }

  function Escape(s: string, quote: char): string {
    if |s| == 0 then "" else EscapeChar(s[0], quote) + Escape(s[1..], quote)
  }

  /** `repr(s)` for a str: single quotes, unless the text holds a single
      quote and no double quote. */
  function PyRepr(s: string): (r: string)
    ensures |r| >= 2 && r[0] == r[|r| - 1] && (r[0] == '\'' || r[0] == '"')
    ensures r[0] == '"' <==> '\'' in s && '"' !in s
    ensures |s| == 0 ==> |r| == 2
  {
    var quote := if '\'' in s && '"' !in s then '"' else '\'';
    [quote] + Escape(s, quote) + [quote]
  }

  /** The escape of a character never starts with the closing quote. */
  lemma EscapeCharHead(c: char, quote: char)
    requires quote == '\'' || quote == '"'
    ensures |EscapeChar(c, quote)| > 0 && EscapeChar(c, quote)[0] != quote
  {
  }

  /** Escapes form a prefix code: the first escape of a text determines
      its character. */
  lemma EscapeCharUnique(c1: char, c2: char, quote: char, rest1: string, rest2: string)
    requires quote == '\'' || quote == '"'
    requires EscapeChar(c1, quote) + rest1 == EscapeChar(c2, quote) + rest2
    ensures c1 == c2 && rest1 == rest2
  {
    var e1, e2 := EscapeChar(c1, quote), EscapeChar(c2, quote);
    assert (e1 + rest1)[0] == e1[0] && (e2 + rest2)[0] == e2[0];
    if |e1| == 2 && |e2| == 2 {
      assert (e1 + rest1)[1] == e1[1] && (e2 + rest2)[1] == e2[1];
    }
    assert |e1| == |e2|;
    assert rest1 == (e1 + rest1)[|e1|..] && rest2 == (e2 + rest2)[|e2|..];
  }

  lemma EscapeSplit(s: string, quote: char, rest: string)
    requires |s| > 0
    ensures Escape(s, quote) + [quote] + rest == EscapeChar(s[0], quote) + (Escape(s[1..], quote) + [quote] + rest)
  {
  }

  /** An escaped text followed by the closing quote starts with that quote
      exactly when the text is empty. */
  lemma EscapedHead(s: string, quote: char, rest: string)
    requires quote == '\'' || quote == '"'
    ensures (Escape(s, quote) + [quote] + rest)[0] == quote <==> |s| == 0
  {
    if |s| > 0 {
      EscapeCharHead(s[0], quote);
      EscapeSplit(s, quote, rest);
    }
  }

  /** An escaped text followed by the closing quote can be read back: the
      first unescaped quote ends it. */
  lemma {:induction false} EscapeUnique(s1: string, s2: string, quote: char, rest1: string, rest2: string)
    requires quote == '\'' || quote == '"'
    requires Escape(s1, quote) + [quote] + rest1 == Escape(s2, quote) + [quote] + rest2
    ensures s1 == s2 && rest1 == rest2
    decreases |s1|
  {
    EscapedHead(s1, quote, rest1);
    EscapedHead(s2, quote, rest2);
    if |s1| == 0 {
      assert Escape(s1, quote) + [quote] + rest1 == [quote] + rest1;
      assert Escape(s2, quote) + [quote] + rest2 == [quote] + rest2;
      assert rest1 == ([quote] + rest1)[1..] && rest2 == ([quote] + rest2)[1..];
    } else {
      EscapeSplit(s1, quote, rest1);
      EscapeSplit(s2, quote, rest2);
      EscapeCharUnique(s1[0], s2[0], quote, Escape(s1[1..], quote) + [quote] + rest1,
                       Escape(s2[1..], quote) + [quote] + rest2);
      EscapeUnique(s1[1..], s2[1..], quote, rest1, rest2);
      assert s1 == [s1[0]] + s1[1..] && s2 == [s2[0]] + s2[1..];
    }
  }

  /** `repr` of a str followed by more text can be read back: the text and
      what follows are determined. */
  lemma ReprPrefix(s1: string, s2: string, rest1: string, rest2: string)
    requires PyRepr(s1) + rest1 == PyRepr(s2) + rest2
    ensures s1 == s2 && rest1 == rest2
  {
    var q1 := if '\'' in s1 && '"' !in s1 then '"' else '\'';
    var q2 := if '\'' in s2 && '"' !in s2 then '"' else '\'';
    assert (PyRepr(s1) + rest1)[0] == q1 && (PyRepr(s2) + rest2)[0] == q2;
    var t1 := Escape(s1, q1) + [q1] + rest1;
    var t2 := Escape(s2, q2) + [q2] + rest2;
    assert PyRepr(s1) + rest1 == [q1] + t1;
    assert PyRepr(s2) + rest2 == [q2] + t2;
    assert t1 == (PyRepr(s1) + rest1)[1..] && t2 == (PyRepr(s2) + rest2)[1..];
    EscapeUnique(s1, s2, q1, rest1, rest2);
  }
}
