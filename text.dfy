/**
 * Character classes and string helpers shared by the parsers and the prompt
 * builders.  Kotlin strings are modelled as `seq<char>`, where a `char` is a
 * Unicode scalar value rather than a UTF-16 code unit.  Every character the
 * application treats specially lies in the Basic Multilingual Plane, so this
 * changes no result of the parsers.  The regular-expression classes below are
 * those of the desktop JVM's `java.util.regex`; Android's ICU-backed engine
 * uses wider ones.
 */
module Text {

  /** Kotlin's `Char.isWhitespace()` on the JVM: Java whitespace plus the
      Unicode space separators (this is what `trim()` and `isBlank()` use). */
  predicate IsWhitespace(c: char) {
    c == ' ' || c == '\t' || c == '\n' || c == '\U{B}' || c == '\U{C}' || c == '\r'
    || ('\U{1C}' <= c <= '\U{1F}')
    || c == '\U{A0}' || c == '\U{1680}' || ('\U{2000}' <= c <= '\U{200A}')
    || c == '\U{2028}' || c == '\U{2029}' || c == '\U{202F}' || c == '\U{205F}'
    || c == '\U{3000}'
  }

  /** The regular-expression class `\s` of the desktop JVM, without the
      UNICODE_CHARACTER_CLASS flag: ASCII whitespace only.  Android's
      ICU-backed engine also matches Unicode white space such as U+00A0. */
  predicate IsRegexSpace(c: char) {
    c == ' ' || c == '\t' || c == '\n' || c == '\U{B}' || c == '\U{C}' || c == '\r'
  }

  /** The regular-expression class `\d` of the desktop JVM: ASCII digits
      only.  Android's ICU-backed engine matches every Unicode decimal digit. */
  predicate IsDigit(c: char) {
    '0' <= c <= '9'
  }

  /** Characters the desktop JVM's regular-expression `.` refuses to match
      (besides `\n`).  Android's ICU-backed engine also refuses U+000B and U+000C. */
  predicate IsLineTerminator(c: char) {
    c == '\n' || c == '\r' || c == '\U{85}' || c == '\U{2028}' || c == '\U{2029}'
  }

  lemma RegexSpaceIsWhitespace(c: char)
    ensures IsRegexSpace(c) ==> IsWhitespace(c)
    ensures IsDigit(c) ==> !IsWhitespace(c) && !IsRegexSpace(c)
  {
  }

  /** `isBlank()`: every character is whitespace (so the empty string is blank). */
  predicate IsBlank(s: string) {
    forall i :: 0 <= i < |s| ==> IsWhitespace(s[i])
  }

  predicate StartsWith(s: string, prefix: string) {
    |prefix| <= |s| && s[..|prefix|] == prefix
  }

  /** `t` occurs in `s` starting at index `k`. */
  predicate InfixAt(t: string, s: string, k: int) {
    0 <= k <= |s| - |t| && s[k..k + |t|] == t
  }

  /** `t` occurs somewhere inside `s`. */
  ghost predicate Occurs(t: string, s: string) {
    exists k :: InfixAt(t, s, k)
  }

  /** Neither end of `s` is whitespace: what `trim()` guarantees of its result. */
  predicate IsTrimmed(s: string) {
    s == [] || (!IsWhitespace(s[0]) && !IsWhitespace(s[|s| - 1]))
  }

  /** Index of the first non-whitespace character at or after `i` (or `|s|`). */
  function TrimStartIndex(s: string, i: nat): (r: nat)
    requires i <= |s|
    ensures i <= r <= |s|
    ensures forall k :: i <= k < r ==> IsWhitespace(s[k])
    ensures r < |s| ==> !IsWhitespace(s[r])
    decreases |s| - i
  {
    if i < |s| && IsWhitespace(s[i]) then TrimStartIndex(s, i + 1) else i
  }

  /** One past the last non-whitespace character in `s[lo..j]` (or `lo`). */
  function TrimEndIndex(s: string, lo: nat, j: nat): (r: nat)
    requires lo <= j <= |s|
    ensures lo <= r <= j
    ensures forall k :: r <= k < j ==> IsWhitespace(s[k])
    ensures r > lo ==> !IsWhitespace(s[r - 1])
    decreases j - lo
  {
    if j > lo && IsWhitespace(s[j - 1]) then TrimEndIndex(s, lo, j - 1) else j
  }

  /** Kotlin's `trim()`: the slice between the first and the last
      non-whitespace character. */
  function Trim(s: string): string
  {
    var i := TrimStartIndex(s, 0);
    s[i..TrimEndIndex(s, i, |s|)]
  }

  /** What `trim()` returns: no whitespace at either end, and the input is that
      result wrapped in blank margins. */
  lemma TrimBounds(s: string) returns (i: nat, j: nat)
    ensures i <= j <= |s| && Trim(s) == s[i..j]
    ensures IsBlank(s[..i]) && IsBlank(s[j..])
    ensures IsTrimmed(Trim(s))
  {
    i := TrimStartIndex(s, 0);
    j := TrimEndIndex(s, i, |s|);
    assert forall k :: 0 <= k < i ==> s[..i][k] == s[k];
    assert forall k :: 0 <= k < |s| - j ==> s[j..][k] == s[j + k];
  }

  lemma TrimIsTrimmed(s: string)
    ensures IsTrimmed(Trim(s))
  {
    var _, _ := TrimBounds(s);
  }

  /** `trim()` is characterised by its result: whatever is wrapped in blank
      margins and has non-whitespace ends is what `trim()` gives back. */
  lemma TrimUnique(a: string, m: string, b: string)
    requires IsBlank(a) && IsBlank(b) && IsTrimmed(m)
    ensures Trim(a + m + b) == m
  {
    var s := a + m + b;
    forall k | 0 <= k < |a| ensures IsWhitespace(s[k]) { assert s[k] == a[k]; }
    forall k | |a| + |m| <= k < |s| ensures IsWhitespace(s[k]) { assert s[k] == b[k - |a| - |m|]; }
    var i := TrimStartIndex(s, 0);
    if m == [] {
      assert i == |s|;
    } else {
      assert s[|a|] == m[0] && s[|a| + |m| - 1] == m[|m| - 1];
      assert i == |a|;
      assert TrimEndIndex(s, i, |s|) == |a| + |m|;
      assert s[|a|..|a| + |m|] == m;
    }
  }

  lemma BlankConcat(a: string, b: string)
    requires IsBlank(a) && IsBlank(b)
    ensures IsBlank(a + b)
  {
    forall i | 0 <= i < |a + b| ensures IsWhitespace((a + b)[i]) {
      if i < |a| { assert (a + b)[i] == a[i]; } else { assert (a + b)[i] == b[i - |a|]; }
    }
  }

  /** A blank tail makes no difference to `trim()`. */
  lemma TrimIgnoresBlankTail(x: string, w: string)
    requires IsBlank(w)
    ensures Trim(x + w) == Trim(x)
  {
    var i, j := TrimBounds(x);
    var m := x[i..j];
    assert x + w == x[..i] + m + (x[j..] + w);
    BlankConcat(x[j..], w);
    TrimUnique(x[..i], m, x[j..] + w);
  }

  /** `s.trim().isNotEmpty()` is the same test as `!s.isBlank()`. */
  lemma TrimEmptyIffBlank(s: string)
    ensures Trim(s) == [] <==> IsBlank(s)
  {
    var i, j := TrimBounds(s);
    if i == j {
      BlankConcat(s[..i], s[j..]);
      assert s == s[..i] + s[j..];
    }
  }

  lemma TrimIdempotent(s: string)
    ensures Trim(Trim(s)) == Trim(s)
  {
    var _, _ := TrimBounds(s);
    var m := Trim(s);
    TrimUnique([], m, []);
    assert [] + m + [] == m;
  }

  /** Kotlin's `split("\n")`: every piece, empty ones included, in order. */
  function Split(s: string): (r: seq<string>)
    ensures |r| >= 1
    ensures forall k :: 0 <= k < |r| ==> '\n' !in r[k]
    decreases |s|
  {
    if s == [] then [[]]
    else
      var rest := Split(s[1..]);
      if s[0] == '\n' then [[]] + rest
      else [[s[0]] + rest[0]] + rest[1..]
  }

  /** Kotlin's `joinToString("\n")`. */
  function Join(lines: seq<string>): string
    decreases |lines|
  {
    if |lines| == 0 then []
    else if |lines| == 1 then lines[0]
    else lines[0] + "\n" + Join(lines[1..])
  }

  lemma {:induction false} SplitNoNewline(a: string)
    requires '\n' !in a
    ensures Split(a) == [a]
    decreases |a|
  {
    if a != [] {
      SplitNoNewline(a[1..]);
      assert [a[0]] + a[1..] == a;
    }
  }

  lemma {:induction false} SplitLine(a: string, b: string)
    requires '\n' !in a
    ensures Split(a + "\n" + b) == [a] + Split(b)
    decreases |a|
  {
    var s := a + "\n" + b;
    if a == [] {
      assert s == "\n" + b;
      assert s[1..] == b;
    } else {
      assert s[1..] == a[1..] + "\n" + b;
      SplitLine(a[1..], b);
      assert [a[0]] + a[1..] == a;
    }
  }

  /** Splitting undoes joining, for lines that hold no line break. */
  lemma {:induction false} SplitJoin(lines: seq<string>)
    requires |lines| >= 1
    requires forall k :: 0 <= k < |lines| ==> '\n' !in lines[k]
    ensures Split(Join(lines)) == lines
    decreases |lines|
  {
    if |lines| == 1 {
      SplitNoNewline(lines[0]);
    } else {
      SplitJoin(lines[1..]);
      SplitLine(lines[0], Join(lines[1..]));
      assert [lines[0]] + lines[1..] == lines;
    }
  }

  /** Joining undoes splitting. */
  lemma {:induction false} JoinSplit(s: string)
    ensures Join(Split(s)) == s
    decreases |s|
  {
    if s != [] {
      JoinSplit(s[1..]);
      var rest := Split(s[1..]);
      if s[0] != '\n' {
        var r := Split(s);
        assert r[0] == [s[0]] + rest[0];
        if |rest| > 1 {
          assert r[1..] == rest[1..];
          assert Join(r) == [s[0]] + (rest[0] + "\n" + Join(rest[1..]));
        }
      } else {
        assert Split(s)[1..] == rest;
      }
      assert [s[0]] + s[1..] == s;
    }
  }

  /** A string is blank exactly when every piece of its split is blank. */
  lemma {:induction false} BlankIffLinesBlank(s: string)
    ensures IsBlank(s) <==> forall k :: 0 <= k < |Split(s)| ==> IsBlank(Split(s)[k])
    decreases |s|
  {
    if s != [] {
      BlankIffLinesBlank(s[1..]);
      var rest := Split(s[1..]);
      var r := Split(s);
      BlankCons(s[0], s[1..]);
      assert [s[0]] + s[1..] == s;
      if s[0] != '\n' {
        assert r[0] == [s[0]] + rest[0];
        BlankCons(s[0], rest[0]);
        assert |r| == |rest|;
        assert forall k :: 1 <= k < |r| ==> r[k] == rest[k];
        if IsBlank(s) {
          assert IsBlank(s[1..]);
          assert forall k :: 0 <= k < |Split(s[1..])| ==> IsBlank(Split(s[1..])[k]);
          assert |rest| > 0;
          assert IsBlank(rest[0]);
          assert IsBlank(r[0]);
          forall k | 0 <= k < |r| ensures IsBlank(r[k]) {
            if k > 0 { assert r[k] == rest[k]; assert IsBlank(rest[k]); }
          }
        }
        if forall k :: 0 <= k < |r| ==> IsBlank(r[k]) {
          assert IsBlank(r[0]);
          forall k | 0 <= k < |rest| ensures IsBlank(rest[k]) {
            if k > 0 { assert r[k] == rest[k]; }
          }
        }
      } else {
        assert r[0] == [];
        assert |r| == |rest| + 1;
        assert forall k :: 1 <= k < |r| ==> r[k] == rest[k - 1];
        assert (forall k :: 0 <= k < |r| ==> IsBlank(r[k]))
          <==> (forall k :: 0 <= k < |rest| ==> IsBlank(rest[k])) by {
          if forall k :: 0 <= k < |rest| ==> IsBlank(rest[k]) {
            forall k | 1 <= k < |r| ensures IsBlank(r[k]) {
              assert r[k] == rest[k - 1];
            }
          }
          if forall k :: 0 <= k < |r| ==> IsBlank(r[k]) {
            forall k | 0 <= k < |rest| ensures IsBlank(rest[k]) {
              assert r[k + 1] == rest[k];
            }
          }
        }
      }
    }
  }

  lemma BlankCons(c: char, t: string)
    ensures IsBlank([c] + t) <==> IsWhitespace(c) && IsBlank(t)
  {
    if IsBlank([c] + t) {
      assert ([c] + t)[0] == c;
      forall i | 0 <= i < |t| ensures IsWhitespace(t[i]) {
        assert ([c] + t)[i + 1] == t[i];
      }
    }
  }

  /** Numeric value of a run of decimal digits (the empty run is 0). */
  function DigitsValue(ds: string): nat
    decreases |ds|
  {
    if ds == [] then 0
    else
      var d := ds[|ds| - 1] as int - '0' as int;
      DigitsValue(ds[..|ds| - 1]) * 10 + (if 0 <= d then d else 0)
  }

  predicate AllDigits(s: string) {
    forall i :: 0 <= i < |s| ==> IsDigit(s[i])
  }

  /** Kotlin's `Int.toString()` for a non-negative value. */
  function NatToString(n: nat): (r: string)
    ensures r != [] && AllDigits(r)
    ensures DigitsValue(r) == n
    decreases n
  {
    var last := [('0' as int + n % 10) as char];
    if n < 10 then last
    else
      var r := NatToString(n / 10) + last;
      assert r[..|r| - 1] == NatToString(n / 10);
      r
  }

  /** Length of the longest prefix of `s` made of characters satisfying `\s`. */
  function RegexSpaceRun(s: string): (n: nat)
    ensures n <= |s|
    ensures forall i :: 0 <= i < n ==> IsRegexSpace(s[i])
    ensures n < |s| ==> !IsRegexSpace(s[n])
    decreases |s|
  {
    if s != [] && IsRegexSpace(s[0]) then 1 + RegexSpaceRun(s[1..]) else 0
  }

  /** Length of the longest prefix of `s` made of ASCII digits. */
  function DigitRun(s: string): (n: nat)
    ensures n <= |s| && AllDigits(s[..n])
    ensures n < |s| ==> !IsDigit(s[n])
    decreases |s|
  {
    if s != [] && IsDigit(s[0]) then
      var n := 1 + DigitRun(s[1..]);
      assert forall i :: 1 <= i < n ==> s[..n][i] == s[1..][..n - 1][i - 1];
      n
    else 0
  }

  /** Splitting a suffix `s[q..]` written as `x + y` at the seam. */
  lemma SuffixParts(s: string, q: nat, x: string, y: string)
    requires q <= |s| && s[q..] == x + y
    ensures s[q..q + |x|] == x && s[q + |x|..] == y
  {
    assert s[q..q + |x|] == s[q..][..|x|];
    assert s[q + |x|..] == s[q..][|x|..];
  }

  lemma {:induction false} DigitRunOf(ds: string, rest: string)
    requires AllDigits(ds)
    requires rest == [] || !IsDigit(rest[0])
    ensures DigitRun(ds + rest) == |ds|
    decreases |ds|
  {
    if ds != [] {
      assert (ds + rest)[1..] == ds[1..] + rest;
      DigitRunOf(ds[1..], rest);
    } else {
      assert ds + rest == rest;
    }
  }

  lemma {:induction false} RegexSpaceRunOf(w: string, rest: string)
    requires forall i :: 0 <= i < |w| ==> IsRegexSpace(w[i])
    requires rest == [] || !IsRegexSpace(rest[0])
    ensures RegexSpaceRun(w + rest) == |w|
    decreases |w|
  {
    if w != [] {
      assert (w + rest)[1..] == w[1..] + rest;
      RegexSpaceRunOf(w[1..], rest);
    } else {
      assert w + rest == rest;
    }
  }
}
