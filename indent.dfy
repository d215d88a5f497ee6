/**
 * Kotlin's `String.trimIndent()`, which both prompt builders apply to their
 * raw template text: the text is cut into lines at "\r\n", "\n" and "\r",
 * a blank first and a blank last line are removed, every other line loses
 * the smallest indentation found among the non-blank lines, and the lines
 * are joined again with "\n".
 */
module Indentation {
  import opened Text
  import opened Model

  /** Neither kind of line break occurs in `s`. */
  predicate OneLine(s: string) {
    forall i :: 0 <= i < |s| ==> s[i] != '\n' && s[i] != '\r'
  }

  predicate NoCarriageReturn(s: string) {
    forall i :: 0 <= i < |s| ==> s[i] != '\r'
  }

  lemma OneLineConcat(a: string, b: string)
    requires OneLine(a) && OneLine(b)
    ensures OneLine(a + b)
  {
    forall i | 0 <= i < |a + b| ensures (a + b)[i] != '\n' && (a + b)[i] != '\r' {
      if i < |a| { assert (a + b)[i] == a[i]; } else { assert (a + b)[i] == b[i - |a|]; }
    }
  }

  lemma NoCarriageReturnConcat(a: string, b: string)
    requires NoCarriageReturn(a) && NoCarriageReturn(b)
    ensures NoCarriageReturn(a + b)
  {
    forall i | 0 <= i < |a + b| ensures (a + b)[i] != '\r' {
      if i < |a| { assert (a + b)[i] == a[i]; } else { assert (a + b)[i] == b[i - |a|]; }
    }
  }

  /** Kotlin's `lines()`: the pieces of `s` between the line breaks "\r\n",
      "\n" and "\r"; a text ending in a break ends with an empty line. */
  function Lines(s: string): (r: seq<string>)
    ensures |r| >= 1
    decreases |s|
  {
    if s == [] then [[]]
    else if s[0] == '\n' then [[]] + Lines(s[1..])
    else if s[0] == '\r' then
      (if |s| > 1 && s[1] == '\n' then [[]] + Lines(s[2..]) else [[]] + Lines(s[1..]))
    else
      var rest := Lines(s[1..]);
      [[s[0]] + rest[0]] + rest[1..]
  }

  /** Without carriage returns, `lines()` is the split at "\n". */
  lemma {:induction false} LinesAreSplit(s: string)
    requires NoCarriageReturn(s)
    ensures Lines(s) == Split(s)
    decreases |s|
  {
    if s != [] {
      assert s[0] != '\r';
      LinesAreSplit(s[1..]);
    }
  }

  /** A line without breaks is its own single line. */
  lemma {:induction false} LinesOfOneLine(s: string)
    requires OneLine(s)
    ensures Lines(s) == [s]
    decreases |s|
  {
    if s != [] {
      LinesOfOneLine(s[1..]);
      assert [s[0]] + s[1..] == s;
    }
  }

  /** "\r\n" and a lone "\r" end a line just as "\n" does. */
  lemma LinesAtBreaks(a: string, b: string)
    requires OneLine(a)
    ensures Lines(a + "\n" + b) == [a] + Lines(b)
    ensures Lines(a + "\r\n" + b) == [a] + Lines(b)
    ensures b == [] || b[0] != '\n' ==> Lines(a + "\r" + b) == [a] + Lines(b)
  {
    assert ("\n" + b)[1..] == b;
    LinesAfterOneLine(a, "\n" + b);
    assert a + "\n" + b == a + ("\n" + b);
    assert ("\r\n" + b)[2..] == b;
    LinesAfterOneLine(a, "\r\n" + b);
    assert a + "\r\n" + b == a + ("\r\n" + b);
    assert ("\r" + b)[1..] == b;
    LinesAfterOneLine(a, "\r" + b);
    assert a + "\r" + b == a + ("\r" + b);
  }

  /** A line without breaks, followed by a break, is the first line. */
  lemma {:induction false} LinesAfterOneLine(a: string, b: string)
    requires OneLine(a) && b != [] && (b[0] == '\n' || b[0] == '\r')
    ensures Lines(a + b) == [a] + Lines(b)[1..]
    decreases |a|
  {
    if a == [] {
      assert a + b == b;
    } else {
      var s := a + b;
      assert s[0] == a[0] && s[1..] == a[1..] + b;
      LinesAfterOneLine(a[1..], b);
      assert [a[0]] + a[1..] == a;
    }
  }

  /** A break after a text that does not end in "\r" separates its lines
      from those that follow. */
  lemma {:induction false} LinesConcat(a: string, b: string)
    requires a == [] || a[|a| - 1] != '\r'
    ensures Lines(a + "\n" + b) == Lines(a) + Lines(b)
    decreases |a|
  {
    var s := a + "\n" + b;
    if a == [] {
      assert s[0] == '\n' && s[1..] == b;
    } else if a[0] == '\n' {
      assert s[0] == '\n' && s[1..] == a[1..] + "\n" + b;
      LinesConcat(a[1..], b);
    } else if a[0] == '\r' {
      assert |a| > 1;
      var skip := if a[1] == '\n' then 2 else 1;
      LinesConcat(a[skip..], b);
      LinesConcatAfterReturn(a, b, skip);
    } else {
      LinesConcat(a[1..], b);
      LinesConcatCons(a, b);
    }
  }

  lemma LinesConcatAfterReturn(a: string, b: string, skip: nat)
    requires |a| > 1 && a[0] == '\r' && skip == (if a[1] == '\n' then 2 else 1)
    requires Lines(a[skip..] + "\n" + b) == Lines(a[skip..]) + Lines(b)
    ensures Lines(a + "\n" + b) == Lines(a) + Lines(b)
  {
    LinesReturnBefore(a, "\n" + b, skip);
    LinesReturn(a, skip);
    assert a + "\n" + b == a + ("\n" + b);
    assert a[skip..] + "\n" + b == a[skip..] + ("\n" + b);
    EmptyLineFirst(Lines(a + "\n" + b), Lines(a[skip..] + "\n" + b), Lines(a), Lines(a[skip..]), Lines(b));
  }

  lemma EmptyLineFirst(x: seq<string>, y: seq<string>, a: seq<string>, z: seq<string>, b: seq<string>)
    requires x == [[]] + y && a == [[]] + z && y == z + b
    ensures x == a + b
  {
  }

  /** A leading carriage return still ends an empty first line once text is appended. */
  lemma LinesReturnBefore(a: string, c: string, skip: nat)
    requires |a| > 1 && a[0] == '\r' && skip == (if a[1] == '\n' then 2 else 1)
    ensures Lines(a + c) == [[]] + Lines(a[skip..] + c)
  {
    var s := a + c;
    assert s[0] == '\r' && s[1] == a[1];
    assert s[skip..] == a[skip..] + c;
    LinesReturn(s, skip);
  }

  /** A carriage return, with the line feed that may follow it, ends an empty first line. */
  lemma LinesReturn(s: string, skip: nat)
    requires |s| > 1 && s[0] == '\r' && skip == (if s[1] == '\n' then 2 else 1)
    ensures Lines(s) == [[]] + Lines(s[skip..])
  {
  }

  lemma LinesConcatCons(a: string, b: string)
    requires a != [] && a[0] != '\n' && a[0] != '\r'
    requires Lines(a[1..] + "\n" + b) == Lines(a[1..]) + Lines(b)
    ensures Lines(a + "\n" + b) == Lines(a) + Lines(b)
  {
    var s := a + "\n" + b;
    assert s[0] == a[0] && s[1..] == a[1..] + "\n" + b;
    LinesCons(s);
    LinesCons(a);
    ConsLinesAppend(a[0], Lines(a[1..]), Lines(b));
  }

  /** A line not starting with a break begins the first line. */
  lemma LinesCons(s: string)
    requires s != [] && s[0] != '\n' && s[0] != '\r'
    ensures Lines(s) == [[s[0]] + Lines(s[1..])[0]] + Lines(s[1..])[1..]
  {
  }

  lemma ConsLinesAppend(c: char, rest: seq<string>, more: seq<string>)
    requires |rest| >= 1
    ensures [[c] + (rest + more)[0]] + (rest + more)[1..] == ([[c] + rest[0]] + rest[1..]) + more
  {
    assert (rest + more)[0] == rest[0] && (rest + more)[1..] == rest[1..] + more;
  }

  /** Whatever precedes a "\n", the lines after it are those of the rest. */
  lemma {:induction false} LinesEndWith(a: string, b: string) returns (p: seq<string>)
    ensures |p| >= 1 && Lines(a + "\n" + b) == p + Lines(b)
    decreases |a|
  {
    var s := a + "\n" + b;
    if a == [] {
      assert s == "\n" + b;
      LinesAfterBreak(b);
      p := [[]];
    } else if a[0] == '\n' {
      assert s == "\n" + (a[1..] + "\n" + b);
      var p' := LinesEndWith(a[1..], b);
      LinesAfterBreak(a[1..] + "\n" + b);
      p := EmptyLineBefore(Lines(s), p', Lines(b));
    } else if a[0] == '\r' {
      if |a| == 1 {
        assert s[1] == '\n' && s[2..] == b;
        LinesReturn(s, 2);
        p := [[]];
      } else if a[1] == '\n' {
        assert s[1] == '\n' && s[2..] == a[2..] + "\n" + b;
        var p' := LinesEndWith(a[2..], b);
        LinesReturn(s, 2);
        p := EmptyLineBefore(Lines(s), p', Lines(b));
      } else {
        assert s[1] == a[1] && s[1..] == a[1..] + "\n" + b;
        var p' := LinesEndWith(a[1..], b);
        LinesReturn(s, 1);
        p := EmptyLineBefore(Lines(s), p', Lines(b));
      }
    } else {
      assert s[0] == a[0] && s[1..] == a[1..] + "\n" + b;
      var p' := LinesEndWith(a[1..], b);
      LinesCons(s);
      p := CharBefore(Lines(s), a[0], p', Lines(b));
    }
  }

  /** An empty line in front of `p' + rest` keeps `rest` at the end. */
  lemma EmptyLineBefore(x: seq<string>, p': seq<string>, rest: seq<string>) returns (p: seq<string>)
    requires x == [[]] + (p' + rest)
    ensures |p| >= 1 && x == p + rest
  {
    p := [[]] + p';
  }

  /** A character in front of the first of `p' + rest` keeps `rest` at the end. */
  lemma CharBefore(x: seq<string>, c: char, p': seq<string>, rest: seq<string>) returns (p: seq<string>)
    requires |p'| >= 1 && x == [[c] + (p' + rest)[0]] + (p' + rest)[1..]
    ensures |p| >= 1 && x == p + rest
  {
    var line := [c] + p'[0];
    assert (p' + rest)[0] == p'[0];
    assert (p' + rest)[1..] == p'[1..] + rest;
    p := [line] + p'[1..];
    assert p + rest == [line] + (p'[1..] + rest);
  }

  /** The first line of `w + t` begins with `w` when `w` has no break. */
  lemma {:induction false} FirstLineStartsWith(w: string, t: string)
    requires OneLine(w)
    ensures StartsWith(Lines(w + t)[0], w)
    decreases |w|
  {
    if w != [] {
      var s := w + t;
      assert s[0] == w[0] && s[1..] == w[1..] + t;
      FirstLineStartsWith(w[1..], t);
      var rest := Lines(s[1..]);
      assert Lines(s)[0] == [w[0]] + rest[0];
      assert ([w[0]] + rest[0])[..|w|] == [w[0]] + rest[0][..|w| - 1];
      assert [w[0]] + w[1..] == w;
    }
  }

  /** `indentWidth()`: the length of the leading whitespace (all of a blank line). */
  function IndentWidth(line: string): (r: nat)
    ensures r <= |line|
    ensures forall i :: 0 <= i < r ==> IsWhitespace(line[i])
    ensures r < |line| ==> !IsWhitespace(line[r])
  {
    TrimStartIndex(line, 0)
  }

  /** `minCommonIndent`: the smallest indentation of the non-blank lines,
      `None` when every line is blank. */
  function MinWidth(lines: seq<string>): (r: Option<nat>)
    ensures r.None? <==> forall k :: 0 <= k < |lines| ==> IsBlank(lines[k])
    ensures r.Some? ==> forall k :: 0 <= k < |lines| && !IsBlank(lines[k]) ==> r.value <= IndentWidth(lines[k])
    ensures r.Some? ==> exists k :: 0 <= k < |lines| && !IsBlank(lines[k]) && r.value == IndentWidth(lines[k])
    decreases |lines|
  {
    if lines == [] then None
    else
      var rest := MinWidth(lines[1..]);
      assert forall k :: 1 <= k < |lines| ==> lines[k] == lines[1..][k - 1];
      if IsBlank(lines[0]) then rest
      else match rest
        case None => Some(IndentWidth(lines[0]))
        case Some(m) =>
          if IndentWidth(lines[0]) < m then Some(IndentWidth(lines[0]))
          else Some(m)
  }

  /** `drop(n)`: a line shorter than `n` becomes empty. */
  function Drop(line: string, n: nat): (r: string)
    ensures |r| == if n <= |line| then |line| - n else 0
    ensures n <= |line| ==> line == line[..n] + r
  {
    if n >= |line| then [] else line[n..]
  }

  /** `reindent`: from line `i` on, a blank first or last line is removed and
      every other line loses its first `n` characters. */
  function ReindentFrom(lines: seq<string>, n: nat, i: nat): seq<string>
    requires i <= |lines|
    decreases |lines| - i
  {
    if i == |lines| then []
    else if (i == 0 || i == |lines| - 1) && IsBlank(lines[i]) then ReindentFrom(lines, n, i + 1)
    else [Drop(lines[i], n)] + ReindentFrom(lines, n, i + 1)
  }

  /** `trimIndent()` */
  function TrimIndent(s: string): string {
    var lines := Lines(s);
    var n := match MinWidth(lines) case None => 0 case Some(m) => m;
    Join(ReindentFrom(lines, n, 0))
  }

  /** Every line loses its first `n` characters. */
  function DropAll(lines: seq<string>, n: nat): (r: seq<string>)
    ensures |r| == |lines|
    ensures forall j :: 0 <= j < |lines| ==> r[j] == Drop(lines[j], n)
    decreases |lines|
  {
    if lines == [] then [] else [Drop(lines[0], n)] + DropAll(lines[1..], n)
  }

  /** Between a blank first and a blank last line, every line loses `n` characters. */
  lemma {:induction false} ReindentMiddle(lines: seq<string>, n: nat, i: nat)
    requires 1 <= i < |lines|
    requires IsBlank(lines[|lines| - 1])
    ensures ReindentFrom(lines, n, i) == DropAll(lines[i..|lines| - 1], n)
    decreases |lines| - i
  {
    if i < |lines| - 1 {
      ReindentMiddle(lines, n, i + 1);
      assert lines[i..|lines| - 1][1..] == lines[i + 1..|lines| - 1];
    }
  }

  /** `minCommonIndent` is `m` when some non-blank line is indented by `m`
      and none by less. */
  lemma MinWidthIs(lines: seq<string>, m: nat, k: nat)
    requires k < |lines| && !IsBlank(lines[k]) && IndentWidth(lines[k]) == m
    requires forall j :: 0 <= j < |lines| && !IsBlank(lines[j]) ==> m <= IndentWidth(lines[j])
    ensures MinWidth(lines) == Some(m)
  {
    var r := MinWidth(lines);
    assert r.Some?;
    assert r.value <= m;
    var j :| 0 <= j < |lines| && !IsBlank(lines[j]) && r.value == IndentWidth(lines[j]);
    assert m <= r.value;
  }

  /** A text whose lines are `inner` between an empty first line and a blank
      last one loses the least indentation `m` of the non-blank lines of `inner`. */
  lemma TrimIndentFramed(s: string, inner: seq<string>, tail: string, m: nat, k: nat)
    requires Lines(s) == [[]] + inner + [tail] && IsBlank(tail)
    requires k < |inner| && !IsBlank(inner[k]) && IndentWidth(inner[k]) == m
    requires forall j :: 0 <= j < |inner| && !IsBlank(inner[j]) ==> m <= IndentWidth(inner[j])
    ensures TrimIndent(s) == Join(DropAll(inner, m))
  {
    var lines := Lines(s);
    assert lines[k + 1] == inner[k];
    forall j | 0 <= j < |lines| && !IsBlank(lines[j]) ensures m <= IndentWidth(lines[j]) {
      assert 0 < j < |lines| - 1;
      assert lines[j] == inner[j - 1];
    }
    MinWidthIs(lines, m, k + 1);
    ReindentMiddle(lines, m, 1);
    assert lines[1..|lines| - 1] == inner;
    assert ReindentFrom(lines, m, 0) == ReindentFrom(lines, m, 1);
  }

  /** The least indentation of a framed text is that of its inner lines. */
  lemma MinWidthFramed(s: string, inner: seq<string>, tail: string, m: nat, k: nat)
    requires Lines(s) == [[]] + inner + [tail] && IsBlank(tail)
    requires k < |inner| && !IsBlank(inner[k]) && IndentWidth(inner[k]) == m
    requires forall j :: 0 <= j < |inner| && !IsBlank(inner[j]) ==> m <= IndentWidth(inner[j])
    ensures MinWidth(Lines(s)) == Some(m)
  {
    var lines := Lines(s);
    assert lines[k + 1] == inner[k];
    forall j | 0 <= j < |lines| && !IsBlank(lines[j]) ensures m <= IndentWidth(lines[j]) {
      assert 0 < j < |lines| - 1;
      assert lines[j] == inner[j - 1];
    }
    MinWidthIs(lines, m, k + 1);
  }

  /** Lines that share one whitespace indentation, one of them starting right
      after it, have exactly that indentation in common. */
  lemma MinWidthOfIndented(indent: string, body: seq<string>, tail: string, k: nat)
    requires IsBlank(indent) && OneLine(indent)
    requires |body| >= 1 && forall j :: 0 <= j < |body| ==> OneLine(body[j])
    requires OneLine(tail) && IsBlank(tail)
    requires k < |body| && body[k] != [] && !IsWhitespace(body[k][0])
    ensures MinWidth(Lines("\n" + Join(Indented(indent, body)) + "\n" + tail)) == Some(|indent|)
  {
    var ind := Indented(indent, body);
    FramedLines(indent, body, tail);
    IndentedWidths(indent, body, k);
    MinWidthFramed("\n" + Join(ind) + "\n" + tail, ind, tail, |indent|, k);
  }

  /** A framed text one of whose lines starts at column 0 has no common indentation. */
  lemma MinWidthColumnZero(x: string, tail: string, k: nat)
    requires x != [] && x[|x| - 1] != '\r'
    requires OneLine(tail) && IsBlank(tail)
    requires k < |Lines(x)| && !IsBlank(Lines(x)[k]) && IndentWidth(Lines(x)[k]) == 0
    ensures MinWidth(Lines("\n" + x + "\n" + tail)) == Some(0)
  {
    LinesBetweenBreaks(x, tail);
    MinWidthFramed("\n" + x + "\n" + tail, Lines(x), tail, 0, k);
  }

  /** A text between a line break and a blank last line, one of whose lines
      starts at column 0, comes out of `trimIndent` with its lines unchanged:
      only its line breaks are rewritten as "\n". */
  lemma TrimIndentKeepsColumnZero(x: string, tail: string, k: nat)
    requires x != [] && x[|x| - 1] != '\r'
    requires OneLine(tail) && IsBlank(tail)
    requires k < |Lines(x)| && !IsBlank(Lines(x)[k]) && IndentWidth(Lines(x)[k]) == 0
    ensures TrimIndent("\n" + x + "\n" + tail) == Join(Lines(x))
  {
    var s := "\n" + x + "\n" + tail;
    LinesBetweenBreaks(x, tail);
    TrimIndentFramed(s, Lines(x), tail, 0, k);
    DropNothing(Lines(x));
  }

  /** A text between a leading break and a last line splits into an empty
      first line, its own lines and that last line. */
  lemma LinesBetweenBreaks(x: string, tail: string)
    requires x == [] || x[|x| - 1] != '\r'
    requires OneLine(tail)
    ensures Lines("\n" + x + "\n" + tail) == [[]] + Lines(x) + [tail]
  {
    assert "\n" + x + "\n" + tail == "\n" + (x + "\n" + tail);
    LinesAfterBreak(x + "\n" + tail);
    LinesConcat(x, tail);
    LinesOfOneLine(tail);
    EmptyLineFirst(Lines("\n" + x + "\n" + tail), Lines(x + "\n" + tail), [[]] + Lines(x), Lines(x), [tail]);
  }

  lemma LinesAfterBreak(t: string)
    ensures Lines("\n" + t) == [[]] + Lines(t)
  {
    assert ("\n" + t)[0] == '\n' && ("\n" + t)[1..] == t;
  }

  lemma DropNothing(lines: seq<string>)
    ensures DropAll(lines, 0) == lines
  {
  }

  /** A line after a whitespace indentation is at least that far in. */
  lemma IndentWidthAfter(indent: string, t: string)
    requires IsBlank(indent)
    ensures !IsBlank(t) ==> |indent| <= IndentWidth(indent + t)
    ensures t != [] && !IsWhitespace(t[0]) ==> IndentWidth(indent + t) == |indent|
    ensures IsBlank(t) ==> IsBlank(indent + t)
  {
    var s := indent + t;
    forall j | 0 <= j < |indent| ensures IsWhitespace(s[j]) {
      assert s[j] == indent[j];
    }
    if !IsBlank(t) {
      var i :| 0 <= i < |t| && !IsWhitespace(t[i]);
      assert s[|indent| + i] == t[i];
    }
    if t != [] && !IsWhitespace(t[0]) {
      assert s[|indent|] == t[0];
    }
    if IsBlank(t) {
      BlankConcat(indent, t);
    }
  }

  /** Every line prefixed with `indent`. */
  function Indented(indent: string, lines: seq<string>): (r: seq<string>)
    ensures |r| == |lines|
    ensures forall i :: 0 <= i < |lines| ==> r[i] == indent + lines[i]
  {
    seq(|lines|, i requires 0 <= i < |lines| => indent + lines[i])
  }

  /** The lines of an indented text framed by an empty first and a blank
      last line. */
  lemma FramedLines(indent: string, body: seq<string>, tail: string)
    requires OneLine(indent) && OneLine(tail)
    requires |body| >= 1 && forall j :: 0 <= j < |body| ==> OneLine(body[j])
    ensures Lines("\n" + Join(Indented(indent, body)) + "\n" + tail) == [[]] + Indented(indent, body) + [tail]
  {
    var ind := Indented(indent, body);
    var lines := [[]] + ind + [tail];
    forall j | 0 <= j < |lines| ensures OneLine(lines[j]) {
      if 1 <= j < |lines| - 1 {
        OneLineConcat(indent, body[j - 1]);
      }
    }
    JoinFramed(ind, tail);
    SplitJoin(lines);
    JoinNoCarriageReturn(lines);
    LinesAreSplit(Join(lines));
  }

  /** Lines without breaks, each after the same whitespace indentation, one of
      them starting right after it, come out of `trimIndent` as they were
      before the indentation. */
  lemma TrimIndentRemovesIndent(indent: string, body: seq<string>, tail: string, k: nat)
    requires IsBlank(indent) && OneLine(indent)
    requires |body| >= 1 && forall j :: 0 <= j < |body| ==> OneLine(body[j])
    requires OneLine(tail) && IsBlank(tail)
    requires k < |body| && body[k] != [] && !IsWhitespace(body[k][0])
    ensures TrimIndent("\n" + Join(Indented(indent, body)) + "\n" + tail) == Join(body)
  {
    var ind := Indented(indent, body);
    FramedLines(indent, body, tail);
    IndentedWidths(indent, body, k);
    TrimIndentFramed("\n" + Join(ind) + "\n" + tail, ind, tail, |indent|, k);
    DropIndent(indent, body);
  }

  /** Every non-blank indented line is indented at least by `indent`, and
      line `k`, which starts right after it, by exactly that. */
  lemma IndentedWidths(indent: string, body: seq<string>, k: nat)
    requires IsBlank(indent)
    requires k < |body| && body[k] != [] && !IsWhitespace(body[k][0])
    ensures var ind := Indented(indent, body);
      !IsBlank(ind[k]) && IndentWidth(ind[k]) == |indent| &&
      forall j :: 0 <= j < |ind| && !IsBlank(ind[j]) ==> |indent| <= IndentWidth(ind[j])
  {
    var ind := Indented(indent, body);
    forall j | 0 <= j < |ind| && !IsBlank(ind[j]) ensures |indent| <= IndentWidth(ind[j]) {
      IndentWidthAfter(indent, body[j]);
    }
    IndentWidthAfter(indent, body[k]);
    assert ind[k][|indent|] == body[k][0];
  }

  /** Dropping the indentation gives the lines back. */
  lemma DropIndent(indent: string, body: seq<string>)
    ensures DropAll(Indented(indent, body), |indent|) == body
  {
    forall j | 0 <= j < |body| ensures Drop(indent + body[j], |indent|) == body[j] {
      assert (indent + body[j])[|indent|..] == body[j];
    }
  }

  lemma JoinFramed(mid: seq<string>, tail: string)
    requires |mid| >= 1
    ensures Join([[]] + mid + [tail]) == "\n" + Join(mid) + "\n" + tail
  {
    var front := [[]] + mid;
    JoinSnoc(front, tail);
    JoinCons([], mid);
  }

  /** A first line is followed by a line break and the rest. */
  lemma JoinCons(first: string, rest: seq<string>)
    requires |rest| >= 1
    ensures Join([first] + rest) == first + "\n" + Join(rest)
  {
    assert ([first] + rest)[1..] == rest;
  }

  /** Joining one more line appends a line break and that line. */
  lemma {:induction false} JoinSnoc(init: seq<string>, l: string)
    requires |init| > 0
    ensures Join(init + [l]) == Join(init) + "\n" + l
    decreases |init|
  {
    if |init| > 1 {
      assert (init + [l])[1..] == init[1..] + [l];
      JoinSnoc(init[1..], l);
    }
  }

  /** Joining lines free of carriage returns adds none. */
  lemma {:induction false} JoinNoCarriageReturn(lines: seq<string>)
    requires forall j :: 0 <= j < |lines| ==> NoCarriageReturn(lines[j])
    ensures NoCarriageReturn(Join(lines))
    decreases |lines|
  {
    if |lines| > 1 {
      JoinNoCarriageReturn(lines[1..]);
      NoCarriageReturnConcat(lines[0], "\n");
      NoCarriageReturnConcat(lines[0] + "\n", Join(lines[1..]));
    }
  }

  /** Joined lines end with the last line's last character. */
  lemma JoinEndsWithLastLine(lines: seq<string>)
    requires |lines| >= 1 && lines[|lines| - 1] != []
    ensures var j, l := Join(lines), lines[|lines| - 1]; j != [] && j[|j| - 1] == l[|l| - 1]
  {
    if |lines| > 1 {
      var init := lines[..|lines| - 1];
      assert lines == init + [lines[|lines| - 1]];
      JoinSnoc(init, lines[|lines| - 1]);
    }
  }

  /** An infix splits the text around it. */
  lemma InfixSplits(t: string, s: string, k: nat)
    requires InfixAt(t, s, k)
    ensures s == s[..k] + t + s[k + |t|..]
  {
  }

  /** A text holding "\n" followed by a word has a line that starts with
      that word. */
  lemma LineStartingWith(w: string, x: string, k: nat) returns (n: nat)
    requires OneLine(w) && InfixAt("\n" + w, x, k)
    ensures n < |Lines(x)| && StartsWith(Lines(x)[n], w)
  {
    var b := x[k + 1 + |w|..];
    InfixSplits("\n" + w, x, k);
    assert x == x[..k] + "\n" + (w + b);
    var p := LinesEndWith(x[..k], w + b);
    FirstLineStartsWith(w, b);
    n := |p|;
    assert Lines(x)[n] == Lines(w + b)[0];
  }
}
