/** The JavaScript string operations the ticket code relies on, over `seq<char>`:
    the `\s` character class, ASCII `toLowerCase`, `replace(/\s+/g, "-")`,
    `includes`, decimal rendering of a non-negative integer, and joining and
    splitting on a separator. */
module Strings {

  /** JavaScript's `\s` class: ASCII whitespace, the Unicode space separators,
      the line and paragraph separators and the byte-order mark. */
  predicate IsSpace(c: char) {
    c in SpaceChars
  }

  const SpaceChars: set<char> := {
    ' ', '\t', '\n', '\U{000B}', '\U{000C}', '\r', '\U{00A0}', '\U{1680}',
    '\U{2000}', '\U{2001}', '\U{2002}', '\U{2003}', '\U{2004}', '\U{2005}',
    '\U{2006}', '\U{2007}', '\U{2008}', '\U{2009}', '\U{200A}',
    '\U{2028}', '\U{2029}', '\U{202F}', '\U{205F}', '\U{3000}', '\U{FEFF}'
  }

  predicate NoSpace(s: string) {
    forall i | 0 <= i < |s| :: !IsSpace(s[i])
  }

  predicate AllSpace(s: string) {
    forall i | 0 <= i < |s| :: IsSpace(s[i])
  }

  /** `toLowerCase` on one character; only the ASCII letters are mapped. */
  function LowerChar(c: char): char {
    if 'A' <= c <= 'Z' then (c as int + 32) as char else c
  }

  function Lower(s: string): string {
    seq(|s|, i requires 0 <= i < |s| => LowerChar(s[i]))
  }

  predicate IsLowered(s: string) {
    forall i | 0 <= i < |s| :: !('A' <= s[i] <= 'Z')
  }

  lemma LowerIsLowered(s: string)
    ensures IsLowered(Lower(s))
    ensures Lower(Lower(s)) == Lower(s)
  {
  }

  lemma LowerConcat(a: string, b: string)
    ensures Lower(a + b) == Lower(a) + Lower(b)
  {
  }

  /** The suffix of `s` left after its maximal leading whitespace run. */
  function DropSpaces(s: string): (r: string)
    ensures |r| <= |s|
  {
    if |s| > 0 && IsSpace(s[0]) then DropSpaces(s[1..]) else s
  }

  /** `DropSpaces` removes exactly the maximal leading whitespace run. */
  lemma {:induction false} DropSpacesRemovesLeadingRun(s: string)
    ensures var r := DropSpaces(s);
      && r == s[|s| - |r|..]
      && AllSpace(s[..|s| - |r|])
      && (r == [] || !IsSpace(r[0]))
    decreases |s|
  {
    if |s| > 0 && IsSpace(s[0]) {
      DropSpacesRemovesLeadingRun(s[1..]);
      var r := DropSpaces(s[1..]);
      assert s[..|s| - |r|] == [s[0]] + s[1..][..|s| - 1 - |r|];
    }
  }

  /** `s.replace(/\s+/g, "-")`: every maximal whitespace run becomes one "-". */
  function ReplaceSpaceRuns(s: string): string
    decreases |s|
  {
    if |s| == 0 then ""
    else if IsSpace(s[0]) then "-" + ReplaceSpaceRuns(DropSpaces(s[1..]))
    else [s[0]] + ReplaceSpaceRuns(s[1..])
  }

  /** The result holds no whitespace and is never longer than the input. */
  lemma {:induction false} ReplaceSpaceRunsShape(s: string)
    ensures NoSpace(ReplaceSpaceRuns(s))
    ensures |ReplaceSpaceRuns(s)| <= |s|
    decreases |s|
  {
    if |s| > 0 {
      if IsSpace(s[0]) {
        ReplaceSpaceRunsShape(DropSpaces(s[1..]));
        assert !IsSpace('-');
      } else {
        ReplaceSpaceRunsShape(s[1..]);
      }
    }
  }

  /** Visible ASCII characters are not whitespace. */
  lemma PrintableHasNoSpace(s: string)
    requires forall i | 0 <= i < |s| :: '!' <= s[i] <= '~'
    ensures NoSpace(s)
  {
  }

  /** A string with no whitespace is left unchanged. */
  lemma {:induction false} ReplaceKeepsSpaceFree(s: string)
    requires NoSpace(s)
    ensures ReplaceSpaceRuns(s) == s
    decreases |s|
  {
    if |s| > 0 {
      ReplaceKeepsSpaceFree(s[1..]);
    }
  }

  lemma {:induction false} DropSpacesConcat(x: string, y: string)
    ensures AllSpace(x) && (y == [] || !IsSpace(y[0])) ==> DropSpaces(x + y) == y
    ensures !AllSpace(x) ==> DropSpaces(x + y) == DropSpaces(x) + y
    decreases |x|
  {
    if |x| > 0 {
      assert (x + y)[1..] == x[1..] + y;
      DropSpacesConcat(x[1..], y);
    } else {
      assert x + y == y;
    }
  }

  /** A non-empty whitespace run becomes exactly one "-". */
  lemma ReplaceSpaceRun(w: string)
    requires |w| > 0 && AllSpace(w)
    ensures ReplaceSpaceRuns(w) == "-"
  {
    DropSpacesConcat(w[1..], []);
    assert w[1..] + [] == w[1..];
  }

  /** Replacement distributes over concatenation when the two halves do not
      split a whitespace run. */
  lemma {:induction false} ReplaceConcat(a: string, b: string)
    requires a == [] || b == [] || !IsSpace(a[|a| - 1]) || !IsSpace(b[0])
    ensures ReplaceSpaceRuns(a + b) == ReplaceSpaceRuns(a) + ReplaceSpaceRuns(b)
    decreases |a|
  {
    if a == [] {
      assert a + b == b;
    } else if b == [] {
      assert a + b == a;
    } else if !IsSpace(a[0]) {
      assert (a + b)[1..] == a[1..] + b;
      ReplaceConcat(a[1..], b);
      ConcatAssoc([a[0]], ReplaceSpaceRuns(a[1..]), ReplaceSpaceRuns(b));
    } else {
      assert (a + b)[1..] == a[1..] + b;
      DropSpacesConcat(a[1..], b);
      if AllSpace(a[1..]) {
        ReplaceSpaceRun(a);
      } else {
        var d := DropSpaces(a[1..]);
        DropSpacesRemovesLeadingRun(a[1..]);
        assert d != [];
        assert d[|d| - 1] == a[|a| - 1];
        ReplaceConcat(d, b);
        ConcatAssoc("-", ReplaceSpaceRuns(d), ReplaceSpaceRuns(b));
      }
    }
  }

  /** `parts[0] + sep + parts[1] + ... + sep + parts[n-1]`, as a template
      literal or `Array.join` writes it. */
  function JoinWith(parts: seq<string>, sep: string): string {
    if |parts| == 0 then ""
    else if |parts| == 1 then parts[0]
    else parts[0] + sep + JoinWith(parts[1..], sep)
  }

  /** `words[0] + runs[0] + words[1] + ... + runs[n-1] + words[n]`. */
  function Weave(words: seq<string>, runs: seq<string>): string
    requires |words| == |runs| + 1
  {
    if |runs| == 0 then words[0]
    else words[0] + runs[0] + Weave(words[1..], runs[1..])
  }

  /** `words` and `runs` cut a string at its maximal whitespace runs: the
      words hold no whitespace, every run is non-empty whitespace, and only
      the first and last word may be empty. Every string has such a cut. */
  ghost predicate IsRunDecomposition(words: seq<string>, runs: seq<string>) {
    && |words| == |runs| + 1
    && (forall i | 0 <= i < |words| :: NoSpace(words[i]))
    && (forall i | 0 < i < |words| - 1 :: words[i] != [])
    && (forall i | 0 <= i < |runs| :: |runs[i]| > 0 && AllSpace(runs[i]))
  }

  lemma WeaveStartsWithFirstWord(words: seq<string>, runs: seq<string>)
    requires |words| == |runs| + 1
    ensures |words[0]| <= |Weave(words, runs)|
    ensures Weave(words, runs)[..|words[0]|] == words[0]
  {
  }

  /** One word followed by one run: the word is kept and the run becomes "-". */
  lemma ReplaceWordThenRun(w: string, run: string, rest: string)
    requires NoSpace(w) && |run| > 0 && AllSpace(run)
    requires rest == [] || !IsSpace(rest[0])
    ensures ReplaceSpaceRuns(w + run + rest) == w + "-" + ReplaceSpaceRuns(rest)
  {
    var x := ReplaceSpaceRuns(rest);
    ReplaceConcat(run, rest);
    ReplaceSpaceRun(run);
    assert ReplaceSpaceRuns(run + rest) == "-" + x;
    assert w == [] || !IsSpace(w[|w| - 1]);
    ReplaceConcat(w, run + rest);
    ReplaceKeepsSpaceFree(w);
    assert ReplaceSpaceRuns(w + (run + rest)) == w + ("-" + x);
    ConcatAssoc(w, run, rest);
    ConcatAssoc(w, "-", x);
  }

  lemma ConcatAssoc<T>(a: seq<T>, b: seq<T>, c: seq<T>)
    ensures a + (b + c) == a + b + c
  {
  }

  /** The independent statement of `replace(/\s+/g, "-")`: once a string is
      cut at its maximal whitespace runs, the result is its words joined by
      "-". */
  lemma {:induction false} ReplaceWovenRuns(words: seq<string>, runs: seq<string>)
    requires IsRunDecomposition(words, runs)
    ensures ReplaceSpaceRuns(Weave(words, runs)) == JoinWith(words, "-")
    decreases |runs|
  {
    if |runs| == 0 {
      ReplaceKeepsSpaceFree(words[0]);
    } else {
      var rest := Weave(words[1..], runs[1..]);
      assert IsRunDecomposition(words[1..], runs[1..]);
      ReplaceWovenRuns(words[1..], runs[1..]);
      WeaveStartsWithFirstWord(words[1..], runs[1..]);
      if |runs| >= 2 {
        assert words[1] != [];
        assert rest[0] == words[1][0];
      } else {
        assert rest == words[1];
      }
      ReplaceWordThenRun(words[0], runs[0], rest);
    }
  }

  /** Lower-casing never creates or removes whitespace. */
  lemma LowerCharKeepsSpace(c: char)
    ensures IsSpace(LowerChar(c)) <==> IsSpace(c)
    ensures IsSpace(c) ==> LowerChar(c) == c
  {
    if 'A' <= c <= 'Z' {
      assert c !in SpaceChars;
      assert LowerChar(c) !in SpaceChars;
    }
  }

  lemma {:induction false} DropSpacesLower(s: string)
    ensures DropSpaces(Lower(s)) == Lower(DropSpaces(s))
    decreases |s|
  {
    if |s| > 0 {
      var l := Lower(s);
      LowerCharKeepsSpace(s[0]);
      assert l[0] == LowerChar(s[0]);
      if IsSpace(s[0]) {
        assert l[1..] == Lower(s[1..]);
        assert DropSpaces(l) == DropSpaces(l[1..]);
        assert DropSpaces(s) == DropSpaces(s[1..]);
        DropSpacesLower(s[1..]);
      } else {
        assert DropSpaces(l) == l;
        assert DropSpaces(s) == s;
      }
    }
  }

  /** Lower-casing and run replacement commute. */
  lemma {:induction false} ReplaceLowerCommute(s: string)
    ensures ReplaceSpaceRuns(Lower(s)) == Lower(ReplaceSpaceRuns(s))
    decreases |s|
  {
    if |s| > 0 {
      LowerCharKeepsSpace(s[0]);
      if IsSpace(s[0]) {
        ReplaceLowerCommute(DropSpaces(s[1..]));
        ReplaceLowerSpaceStep(s);
      } else {
        ReplaceLowerCommute(s[1..]);
        ReplaceLowerWordStep(s);
      }
    }
  }

  lemma ReplaceLowerSpaceStep(s: string)
    requires |s| > 0 && IsSpace(s[0])
    requires ReplaceSpaceRuns(Lower(DropSpaces(s[1..]))) == Lower(ReplaceSpaceRuns(DropSpaces(s[1..])))
    ensures ReplaceSpaceRuns(Lower(s)) == Lower(ReplaceSpaceRuns(s))
  {
    var x := ReplaceSpaceRuns(DropSpaces(s[1..]));
    LowerSpaceHead(s);
    assert ReplaceSpaceRuns(s) == "-" + x;
    LowerDashThen(x);
  }

  /** A leading whitespace run lower-cases to itself, so the replacement
      opens with "-" before and after lower-casing. */
  lemma LowerSpaceHead(s: string)
    requires |s| > 0 && IsSpace(s[0])
    ensures ReplaceSpaceRuns(Lower(s)) == "-" + ReplaceSpaceRuns(Lower(DropSpaces(s[1..])))
  {
    var l := Lower(s);
    LowerCharKeepsSpace(s[0]);
    assert l[1..] == Lower(s[1..]);
    assert IsSpace(l[0]);
    DropSpacesLower(s[1..]);
  }

  lemma LowerDashThen(x: string)
    ensures Lower("-" + x) == "-" + Lower(x)
  {
    LowerConcat("-", x);
    assert Lower("-") == "-";
  }

  lemma LowerCons(c: char, x: string)
    ensures Lower([c] + x) == [LowerChar(c)] + Lower(x)
  {
  }

  lemma ReplaceLowerWordStep(s: string)
    requires |s| > 0 && !IsSpace(s[0])
    requires ReplaceSpaceRuns(Lower(s[1..])) == Lower(ReplaceSpaceRuns(s[1..]))
    ensures ReplaceSpaceRuns(Lower(s)) == Lower(ReplaceSpaceRuns(s))
  {
    var c, x := s[0], s[1..];
    assert s == [c] + x;
    LowerCons(c, x);
    LowerCharKeepsSpace(c);
    var l := [LowerChar(c)] + Lower(x);
    assert l[0] == LowerChar(c) && l[1..] == Lower(x);
    assert ReplaceSpaceRuns(l) == [LowerChar(c)] + ReplaceSpaceRuns(Lower(x));
    assert ReplaceSpaceRuns(s) == [c] + ReplaceSpaceRuns(x);
    LowerCons(c, ReplaceSpaceRuns(x));
  }

  predicate StartsWith(s: string, prefix: string) {
    |prefix| <= |s| && s[..|prefix|] == prefix
  }

  predicate EndsWith(s: string, suffix: string) {
    |suffix| <= |s| && s[|s| - |suffix|..] == suffix
  }

  /** `s.includes(sub)`. */
  predicate Contains(s: string, sub: string)
    decreases |s|
  {
    StartsWith(s, sub) || (|s| > 0 && Contains(s[1..], sub))
  }

  ghost predicate OccursAt(s: string, sub: string, i: int) {
    0 <= i && i + |sub| <= |s| && s[i..i + |sub|] == sub
  }

  /** `Contains` is exactly "occurs at some position". */
  lemma {:induction false} ContainsIffOccurs(s: string, sub: string)
    ensures Contains(s, sub) <==> exists i :: OccursAt(s, sub, i)
    decreases |s|
  {
    if StartsWith(s, sub) {
      assert OccursAt(s, sub, 0);
    }
    if |s| > 0 {
      ContainsIffOccurs(s[1..], sub);
      if Contains(s[1..], sub) {
        var j :| OccursAt(s[1..], sub, j);
        assert s[j + 1..j + 1 + |sub|] == s[1..][j..j + |sub|];
        assert OccursAt(s, sub, j + 1);
      }
      if i :| OccursAt(s, sub, i) {
        if i > 0 {
          assert s[1..][i - 1..i - 1 + |sub|] == s[i..i + |sub|];
          assert OccursAt(s[1..], sub, i - 1);
        } else {
          assert StartsWith(s, sub);
        }
      }
    } else {
      if i :| OccursAt(s, sub, i) {
        assert StartsWith(s, sub);
      }
    }
  }

  lemma ContainsItself(s: string)
    ensures Contains(s, s)
  {
    assert StartsWith(s, s);
  }

  lemma ContainsEmpty(s: string)
    ensures Contains(s, "")
  {
    assert StartsWith(s, "");
  }

  /** JavaScript `a < b` on two strings: character by character, a proper
      prefix before any of its extensions. */
  predicate StrLess(a: string, b: string)
    decreases |a|
  {
    if |a| == 0 then |b| > 0
    else if |b| == 0 then false
    else if a[0] == b[0] then StrLess(a[1..], b[1..])
    else a[0] < b[0]
  }

  lemma {:induction false} StrLessIrreflexive(a: string)
    ensures !StrLess(a, a)
    decreases |a|
  {
    if |a| > 0 {
      StrLessIrreflexive(a[1..]);
    }
  }

  lemma {:induction false} StrLessTransitive(a: string, b: string, c: string)
    requires StrLess(a, b) && StrLess(b, c)
    ensures StrLess(a, c)
    decreases |a|
  {
    if |a| > 0 && a[0] == b[0] && b[0] == c[0] {
      StrLessTransitive(a[1..], b[1..], c[1..]);
    }
  }

  /** Any two strings are related in exactly one way: ordered one way,
      ordered the other way, or equal. */
  lemma {:induction false} StrLessTotal(a: string, b: string)
    ensures StrLess(a, b) || a == b || StrLess(b, a)
    ensures !(StrLess(a, b) && StrLess(b, a))
    ensures a == b ==> !StrLess(a, b)
    decreases |a|
  {
    if |a| > 0 && |b| > 0 && a[0] == b[0] {
      StrLessTotal(a[1..], b[1..]);
      assert a == [a[0]] + a[1..] && b == [b[0]] + b[1..];
    }
    StrLessIrreflexive(a);
  }

  predicate IsDigit(c: char) {
    '0' <= c <= '9'
  }

  function DigitChar(d: int): (c: char)
    requires 0 <= d < 10
    ensures IsDigit(c)
  {
    ('0' as int + d) as char
  }

  function DigitValue(c: char): int
    requires IsDigit(c)
  {
    c as int - '0' as int
  }

  /** The decimal rendering of a non-negative integer, as `${n}` writes it:
      digits only, no leading zero. */
  function Decimal(n: nat): (r: string)
    ensures |r| >= 1
    ensures forall i | 0 <= i < |r| :: IsDigit(r[i])
    ensures r[0] == '0' <==> n == 0
  {
    if n < 10 then [DigitChar(n)] else Decimal(n / 10) + [DigitChar(n % 10)]
  }

  function ParseDecimal(s: string): nat
    requires forall i | 0 <= i < |s| :: IsDigit(s[i])
  {
    if |s| == 0 then 0 else 10 * ParseDecimal(s[..|s| - 1]) + DigitValue(s[|s| - 1])
  }

  /** Reading the rendering back gives the number. */
  lemma {:induction false} ParseDecimalOfDecimal(n: nat)
    ensures ParseDecimal(Decimal(n)) == n
  {
    if n >= 10 {
      var d := Decimal(n / 10);
      assert (d + [DigitChar(n % 10)])[..|d|] == d;
      ParseDecimalOfDecimal(n / 10);
    }
  }

  /** Distinct numbers have distinct renderings. */
  lemma DecimalInjective(a: nat, b: nat)
    ensures Decimal(a) == Decimal(b) ==> a == b
  {
    ParseDecimalOfDecimal(a);
    ParseDecimalOfDecimal(b);
  }

  /** `s` up to, not including, its first `c`; all of `s` when it has none. */
  function UpTo(s: string, c: char): (r: string)
    ensures c !in r && StartsWith(s, r)
    decreases |s|
  {
    if |s| == 0 || s[0] == c then "" else [s[0]] + UpTo(s[1..], c)
  }

  /** `s` after its last `c`; all of `s` when it has none. */
  function AfterLast(s: string, c: char): (r: string)
    ensures c !in r && EndsWith(s, r)
    decreases |s|
  {
    if |s| == 0 || s[|s| - 1] == c then "" else AfterLast(s[..|s| - 1], c) + [s[|s| - 1]]
  }

  /** A `c`-free field followed by `c` is recovered by `UpTo`. */
  lemma {:induction false} UpToField(a: string, c: char, rest: string)
    requires c !in a
    ensures UpTo(a + [c] + rest, c) == a
    decreases |a|
  {
    if |a| > 0 {
      assert (a + [c] + rest)[1..] == a[1..] + [c] + rest;
      UpToField(a[1..], c, rest);
      assert [a[0]] + a[1..] == a;
    }
  }

  /** A `c`-free field preceded by `c` is recovered by `AfterLast`. */
  lemma {:induction false} AfterLastField(rest: string, c: char, a: string)
    requires c !in a
    ensures AfterLast(rest + [c] + a, c) == a
    decreases |a|
  {
    var s := rest + [c] + a;
    if |a| > 0 {
      assert s[..|s| - 1] == rest + [c] + a[..|a| - 1];
      AfterLastField(rest, c, a[..|a| - 1]);
      assert a[..|a| - 1] + [a[|a| - 1]] == a;
    }
  }

  /** `s.split(sep)` for a one-character separator. */
  function Split(s: string, sep: char): (r: seq<string>)
    ensures |r| >= 1
    decreases |s|
  {
    if |s| == 0 then [""]
    else if s[0] == sep then [""] + Split(s[1..], sep)
    else
      var rest := Split(s[1..], sep);
      [[s[0]] + rest[0]] + rest[1..]
  }

  lemma {:induction false} SplitPrefix(a: string, b: string, sep: char)
    requires sep !in a
    ensures Split(a + b, sep) == [a + Split(b, sep)[0]] + Split(b, sep)[1..]
    decreases |a|
  {
    if |a| == 0 {
      var t := Split(b, sep);
      assert a + b == b && a + t[0] == t[0];
      assert [t[0]] + t[1..] == t;
    } else {
      assert (a + b)[1..] == a[1..] + b;
      assert (a + b)[0] == a[0] != sep;
      SplitPrefix(a[1..], b, sep);
      var rest := Split(a[1..] + b, sep);
      assert rest[0] == a[1..] + Split(b, sep)[0];
      assert rest[1..] == Split(b, sep)[1..];
      assert [a[0]] + (a[1..] + Split(b, sep)[0]) == a + Split(b, sep)[0];
    }
  }

  /** Splitting undoes joining when no part holds the separator. */
  lemma {:induction false} SplitJoinWith(parts: seq<string>, sep: char)
    requires |parts| >= 1
    requires forall i | 0 <= i < |parts| :: sep !in parts[i]
    ensures Split(JoinWith(parts, [sep]), sep) == parts
    decreases |parts|
  {
    if |parts| == 1 {
      SplitPrefix(parts[0], "", sep);
      assert parts[0] + "" == parts[0];
      assert Split("", sep) == [""];
    } else {
      var rest := JoinWith(parts[1..], [sep]);
      SplitJoinWith(parts[1..], sep);
      SplitPrefix(parts[0], [sep] + rest, sep);
      assert ([sep] + rest)[1..] == rest;
      assert parts[0] + [sep] + rest == parts[0] + ([sep] + rest);
      var t := Split([sep] + rest, sep);
      assert t == [""] + parts[1..];
      assert parts[0] + t[0] == parts[0];
      assert [parts[0]] + parts[1..] == parts;
    }
  }
}
