/**
 * `parseQuestions`: turns the generated text into the ordered list of
 * questions, one per non-blank line, with a leading `<digits>.` removed.
 * Nothing here compares the result with the requested question count.
 */
module QuestionParser {
  import opened Text
  import opened Model

  /** Whole-string match of `^\d+\..*`: a digit run, a dot, and a rest in which
      `.` can match every character (no line terminator).  Yields that rest,
      which is also what `substringAfter(".")` keeps, since the digits hold no dot. */
  function NumberedRest(t: string): (r: Option<string>)
    ensures r.Some? ==> var n := |t| - |r.value| - 1;
                        1 <= n && AllDigits(t[..n]) && t[n] == '.' && r.value == t[n + 1..]
                        && NoLineTerminator(r.value)
    ensures r.None? ==> forall k :: 1 <= k < |t| && AllDigits(t[..k]) && t[k] == '.' ==>
                          !NoLineTerminator(t[k + 1..])
  {
    var n := DigitRun(t);
    if 1 <= n < |t| && t[n] == '.' && NoLineTerminator(t[n + 1..]) then
      Some(t[n + 1..])
    else
      assert forall k :: 1 <= k < |t| && AllDigits(t[..k]) && t[k] == '.' ==> k == n by {
        forall k | 1 <= k < |t| && AllDigits(t[..k]) && t[k] == '.' ensures k == n {
          forall i | 0 <= i < k ensures IsDigit(t[i]) { assert t[..k][i] == t[i]; }
          forall i | 0 <= i < n ensures IsDigit(t[i]) { assert t[..n][i] == t[i]; }
        }
      }
      None
  }

  predicate NoLineTerminator(s: string) {
    forall i :: 0 <= i < |s| ==> !IsLineTerminator(s[i])
  }

  /** The `mapNotNull` step on one line: a numbered line gives the text after
      its first `.`, trimmed; any other non-empty line gives itself, trimmed;
      an empty one gives `null` (`None`).  Only a blank line gives `null`, and
      whatever comes out is trimmed. */
  function CleanLineOrNull(line: string): (r: Option<string>)
    ensures r.None? <==> IsBlank(line)
    ensures r.Some? ==> IsTrimmed(r.value)
    ensures NumberedRest(Trim(line)).Some? ==> r == Some(Trim(NumberedRest(Trim(line)).value))
    ensures !IsBlank(line) && NumberedRest(Trim(line)).None? ==> r == Some(Trim(line))
  {
    var t := Trim(line);
    TrimEmptyIffBlank(line);
    TrimIsTrimmed(line);
    match NumberedRest(t)
    case Some(rest) =>
      TrimIsTrimmed(rest);
      Some(Trim(rest))
    case None => if t != [] then Some(t) else None
  }

  /** `mapNotNull`: the cleaned lines, in order, the `null`s dropped. */
  function MapNotNull(lines: seq<string>): (r: seq<string>)
    ensures |r| <= |lines|
    ensures forall k :: 0 <= k < |r| ==> IsTrimmed(r[k])
    decreases |lines|
  {
    if lines == [] then []
    else
      match CleanLineOrNull(lines[0])
      case Some(q) => [q] + MapNotNull(lines[1..])
      case None => MapNotNull(lines[1..])
  }

  /** `filter { it.trim().isNotEmpty() }` */
  function NonBlankLines(lines: seq<string>): (r: seq<string>)
    ensures |r| <= |lines|
    ensures forall k :: 0 <= k < |r| ==> !IsBlank(r[k])
    decreases |lines|
  {
    if lines == [] then []
    else
      TrimEmptyIffBlank(lines[0]);
      if Trim(lines[0]) != [] then [lines[0]] + NonBlankLines(lines[1..])
      else NonBlankLines(lines[1..])
  }

  /** `parseQuestions(questionsText)`; `None` stands for a null string. */
  function ParseQuestions(text: Option<string>): (r: seq<string>)
    ensures text.None? || IsBlank(text.value) ==> r == []
    ensures text.Some? ==> |r| <= |Split(text.value)|
    ensures forall k :: 0 <= k < |r| ==> IsTrimmed(r[k])
  {
    if text.None? || IsBlank(text.value) then []
    else MapNotNull(NonBlankLines(Split(text.value)))
  }

  /** Exactly one question per non-blank line, in input order: the k-th
      question is what the k-th non-blank line cleans to, so the `null`
      branch never drops a line that passed the filter. */
  lemma OneQuestionPerNonBlankLine(s: string)
    requires !IsBlank(s)
    ensures var lines, r := NonBlankLines(Split(s)), ParseQuestions(Some(s));
      |r| == |lines| && forall k :: 0 <= k < |r| ==> CleanLineOrNull(lines[k]) == Some(r[k])
  {
    MapNotNullKeepsAll(NonBlankLines(Split(s)));
  }

  /** On non-blank lines `mapNotNull` maps every line. */
  lemma {:induction false} MapNotNullKeepsAll(lines: seq<string>)
    requires forall k :: 0 <= k < |lines| ==> !IsBlank(lines[k])
    ensures |MapNotNull(lines)| == |lines|
    ensures forall k :: 0 <= k < |lines| ==> CleanLineOrNull(lines[k]) == Some(MapNotNull(lines)[k])
    decreases |lines|
  {
    if lines != [] {
      MapNotNullKeepsAll(lines[1..]);
      var r := MapNotNull(lines);
      var q := CleanLineOrNull(lines[0]).value;
      assert r == [q] + MapNotNull(lines[1..]);
      forall k | 0 <= k < |lines| ensures CleanLineOrNull(lines[k]) == Some(r[k]) {
        if k > 0 {
          assert lines[k] == lines[1..][k - 1];
        }
      }
    }
  }

  /** The result is empty exactly when the input is null or blank: a non-blank
      text always yields at least one question. */
  lemma EmptyIffBlank(text: Option<string>)
    ensures ParseQuestions(text) == [] <==> text.None? || IsBlank(text.value)
  {
    if text.Some? && !IsBlank(text.value) {
      BlankIffLinesBlank(text.value);
      var lines := Split(text.value);
      var k :| 0 <= k < |lines| && !IsBlank(lines[k]);
      NonBlankKept(lines, k);
    }
  }

  lemma {:induction false} NonBlankKept(lines: seq<string>, k: nat)
    requires k < |lines| && !IsBlank(lines[k])
    ensures NonBlankLines(lines) != []
    decreases k
  {
    TrimEmptyIffBlank(lines[0]);
    if k > 0 && Trim(lines[0]) == [] {
      NonBlankKept(lines[1..], k - 1);
    }
  }

  lemma NumberedRestOf(ds: string, t: string)
    requires ds != [] && AllDigits(ds)
    requires NoLineTerminator(t)
    ensures NumberedRest(ds + "." + t) == Some(t)
  {
    var m := ds + "." + t;
    assert m == ds + ("." + t);
    DigitRunOf(ds, "." + t);
    assert m[|ds|] == '.';
    assert m[|ds| + 1..] == t;
  }

  /** A numbered line gives back the text after its dot, trimmed. */
  lemma CleanNumberedLine(a: string, ds: string, rest: string, b: string)
    requires IsBlank(a) && IsBlank(b)
    requires ds != [] && AllDigits(ds)
    requires NoLineTerminator(rest)
    ensures CleanLineOrNull(a + ds + "." + rest + b) == Some(Trim(rest))
  {
    var e := TrimEndIndex(rest, 0, |rest|);
    var t := rest[..e];
    var w := rest[e..];
    assert rest == t + w;
    assert IsBlank(w) by {
      forall k | 0 <= k < |w| ensures IsWhitespace(w[k]) { assert w[k] == rest[e + k]; }
    }
    var m := ds + "." + t;
    assert IsTrimmed(m) by {
      RegexSpaceIsWhitespace(ds[0]);
      assert m[0] == ds[0];
    }
    BlankConcat(w, b);
    assert a + ds + "." + rest + b == a + m + (w + b);
    TrimUnique(a, m, w + b);
    assert NoLineTerminator(t) by {
      forall i | 0 <= i < |t| ensures !IsLineTerminator(t[i]) {
        assert t[i] == rest[i];
      }
    }
    NumberedRestOf(ds, t);
    TrimIgnoresBlankTail(t, w);
  }

  /** The enumerated layout the question prompt asks for: `1. q1`, `2. q2`, ... */
  function NumberedLines(qs: seq<string>, first: nat): (r: seq<string>)
    ensures |r| == |qs|
    ensures forall i :: 0 <= i < |qs| ==> r[i] == NatToString(first + i) + ". " + qs[i]
    decreases |qs|
  {
    if qs == [] then [] else [NatToString(first) + ". " + qs[0]] + NumberedLines(qs[1..], first + 1)
  }

  predicate WellFormedQuestion(q: string) {
    IsTrimmed(q) && NoLineTerminator(q)
  }

  /** A numbered line holds no line feed. */
  lemma NumberedLineOneLine(ds: string, q: string)
    requires AllDigits(ds) && NoLineTerminator(q)
    ensures '\n' !in ds + ". " + q
  {
    var line := ds + ". " + q;
    forall i | 0 <= i < |line| ensures line[i] != '\n' {
      if i < |ds| { assert line[i] == ds[i]; }
      else if i >= |ds| + 2 { assert line[i] == q[i - |ds| - 2]; }
    }
  }

  /** The cleaned form of a numbered line is its question. */
  lemma NumberedLineCleans(ds: string, q: string)
    requires ds != [] && AllDigits(ds) && WellFormedQuestion(q)
    ensures CleanLineOrNull(ds + ". " + q) == Some(q)
  {
    var line := ds + ". " + q;
    assert line == [] + ds + "." + (" " + q) + [];
    RegexSpaceIsWhitespace(ds[0]);
    assert NoLineTerminator(" " + q) by {
      forall i | 0 <= i < |" " + q| ensures !IsLineTerminator((" " + q)[i]) {
        if i > 0 { assert (" " + q)[i] == q[i - 1]; }
      }
    }
    CleanNumberedLine([], ds, " " + q, []);
    TrimUnique(" ", q, []);
    assert " " + q + [] == " " + q;
  }

  lemma NumberedLineParts(q: string, n: nat)
    requires WellFormedQuestion(q)
    ensures '\n' !in NatToString(n) + ". " + q
    ensures !IsBlank(NatToString(n) + ". " + q)
    ensures CleanLineOrNull(NatToString(n) + ". " + q) == Some(q)
  {
    var ds := NatToString(n);
    NumberedLineOneLine(ds, q);
    NumberedLineCleans(ds, q);
    RegexSpaceIsWhitespace(ds[0]);
    assert (ds + ". " + q)[0] == ds[0];
  }

  lemma {:induction false} NumberedLinesShape(qs: seq<string>, first: nat)
    requires forall k :: 0 <= k < |qs| ==> WellFormedQuestion(qs[k])
    ensures forall k :: 0 <= k < |qs| ==> '\n' !in NumberedLines(qs, first)[k] && !IsBlank(NumberedLines(qs, first)[k])
    ensures forall k :: 0 <= k < |qs| ==> CleanLineOrNull(NumberedLines(qs, first)[k]) == Some(qs[k])
  {
    var ls := NumberedLines(qs, first);
    forall k | 0 <= k < |qs|
      ensures '\n' !in ls[k] && !IsBlank(ls[k])
      ensures CleanLineOrNull(ls[k]) == Some(qs[k])
    {
      NumberedLineAt(qs, first, k);
    }
  }

  lemma NumberedLineAt(qs: seq<string>, first: nat, k: nat)
    requires k < |qs| && WellFormedQuestion(qs[k])
    ensures var l := NumberedLines(qs, first)[k];
      '\n' !in l && !IsBlank(l) && CleanLineOrNull(l) == Some(qs[k])
  {
    NumberedLineParts(qs[k], first + k);
  }

  lemma {:induction false} NonBlankLinesKeepsAll(lines: seq<string>)
    requires forall k :: 0 <= k < |lines| ==> !IsBlank(lines[k])
    ensures NonBlankLines(lines) == lines
    decreases |lines|
  {
    if lines != [] {
      TrimEmptyIffBlank(lines[0]);
      NonBlankLinesKeepsAll(lines[1..]);
      assert [lines[0]] + lines[1..] == lines;
    }
  }

  /** A well-formed enumerated response of any length parses back to exactly
      its questions, in order: no padding, truncation or reordering against
      the requested count. */
  lemma {:induction false} ParseNumberedResponse(qs: seq<string>)
    requires forall k :: 0 <= k < |qs| ==> WellFormedQuestion(qs[k])
    ensures ParseQuestions(Some(Join(NumberedLines(qs, 1)))) == qs
  {
    var ls := NumberedLines(qs, 1);
    var text := Join(ls);
    if qs == [] {
      assert text == [];
    } else {
      NumberedLinesShape(qs, 1);
      NonBlankLinesKeepsAll(ls);
      SplitJoin(ls);
      BlankIffLinesBlank(text);
      assert !IsBlank(text);
      MapNotNullKeepsAll(ls);
      var r := MapNotNull(ls);
      assert ParseQuestions(Some(text)) == r;
      assert |r| == |qs|;
      assert forall k :: 0 <= k < |qs| ==> r[k] == qs[k];
    }
  }

  /** Lines without line feeds, none blank, that clean to `out` one by one,
      are parsed to exactly `out`. */
  lemma {:induction false} ParseCleanLines(ls: seq<string>, out: seq<string>)
    requires ls != [] && |out| == |ls|
    requires forall k :: 0 <= k < |ls| ==> '\n' !in ls[k] && !IsBlank(ls[k])
    requires forall k :: 0 <= k < |ls| ==> CleanLineOrNull(ls[k]) == Some(out[k])
    ensures ParseQuestions(Some(Join(ls))) == out
  {
    var text := Join(ls);
    NonBlankLinesKeepsAll(ls);
    SplitJoin(ls);
    BlankIffLinesBlank(text);
    assert !IsBlank(text) by {
      assert Split(text)[0] == ls[0];
    }
    MapNotNullKeepsAll(ls);
    var r := MapNotNull(ls);
    assert ParseQuestions(Some(text)) == r;
    assert forall k :: 0 <= k < |ls| ==> r[k] == out[k];
  }

  /** A single-line, trimmed, unnumbered line cleans to itself. */
  lemma PlainLineKept(p: string)
    requires WellFormedQuestion(p) && p != [] && NumberedRest(p).None?
    ensures '\n' !in p && !IsBlank(p) && CleanLineOrNull(p) == Some(p)
  {
    assert '\n' !in p by {
      forall i | 0 <= i < |p| ensures p[i] != '\n' {
        assert !IsLineTerminator(p[i]);
      }
    }
    TrimUnique([], p, []);
    assert [] + p + [] == p;
    TrimEmptyIffBlank(p);
  }

  /** A line before the numbered ones that is not itself numbered, such as a
      preamble, is kept as one more question: the parser does not hold the
      list to the requested count. */
  lemma PreambleKept(p: string, qs: seq<string>)
    requires qs != [] && forall k :: 0 <= k < |qs| ==> WellFormedQuestion(qs[k])
    requires WellFormedQuestion(p) && p != [] && NumberedRest(p).None?
    ensures ParseQuestions(Some(p + "\n" + Join(NumberedLines(qs, 1)))) == [p] + qs
  {
    var nl := NumberedLines(qs, 1);
    var ls := [p] + nl;
    assert ls[1..] == nl;
    assert Join(ls) == p + "\n" + Join(nl);
    NumberedLinesShape(qs, 1);
    PlainLineKept(p);
    forall k | 0 <= k < |ls|
      ensures '\n' !in ls[k] && !IsBlank(ls[k]) && CleanLineOrNull(ls[k]) == Some(([p] + qs)[k])
    {
      if k > 0 { assert ls[k] == nl[k - 1]; }
    }
    ParseCleanLines(ls, [p] + qs);
  }

  /** A concrete reply with a preamble line: two numbered questions give three. */
  lemma PreambleExample()
    ensures ParseQuestions(Some("Here are 2:" + "\n" + ("1. " + "a" + "\n" + "2. " + "b")))
         == ["Here are 2:", "a", "b"]
  {
    var p, a, b := "Here are 2:", "a", "b";
    ExamplePreambleShape();
    PreambleKept(p, [a, b]);
    TwoNumberedLines(a, b);
    assert [p] + [a, b] == [p, a, b];
  }

  lemma ExamplePreambleShape()
    ensures WellFormedQuestion("Here are 2:") && NumberedRest("Here are 2:").None?
    ensures WellFormedQuestion("a") && WellFormedQuestion("b")
  {
    assert DigitRun("Here are 2:") == 0;
  }

  lemma TwoNumberedLines(q1: string, q2: string)
    ensures Join(NumberedLines([q1, q2], 1)) == "1. " + q1 + "\n" + "2. " + q2
  {
    assert NatToString(1) == "1" && NatToString(2) == "2";
    assert "1" + ". " == "1. " && "2" + ". " == "2. ";
    var l1, l2 := "1. " + q1, "2. " + q2;
    assert NumberedLines([q2], 2) == [l2] + NumberedLines([], 3) by {
      assert [q2][1..] == [];
    }
    assert NumberedLines([q1, q2], 1) == [l1] + NumberedLines([q2], 2) by {
      assert [q1, q2][1..] == [q2];
    }
    assert [l1] + ([l2] + []) == [l1, l2];
    assert Join([l1, l2]) == l1 + "\n" + Join([l2]) by {
      assert [l1, l2][1..] == [l2];
    }
  }

  lemma ThreeNumberedLines(q1: string, q2: string, q3: string)
    ensures Join(NumberedLines([q1, q2, q3], 1)) == "1. " + q1 + "\n" + "2. " + q2 + "\n" + "3. " + q3
  {
    assert NatToString(1) == "1" && NatToString(2) == "2" && NatToString(3) == "3";
    assert "1" + ". " == "1. " && "2" + ". " == "2. " && "3" + ". " == "3. ";
    var l1, l2, l3 := "1. " + q1, "2. " + q2, "3. " + q3;
    assert NumberedLines([], 4) == [];
    assert NumberedLines([q3], 3) == [l3] + NumberedLines([], 4) by {
      assert [q3][1..] == [];
    }
    assert NumberedLines([q2, q3], 2) == [l2] + NumberedLines([q3], 3) by {
      assert [q2, q3][1..] == [q3];
    }
    assert NumberedLines([q1, q2, q3], 1) == [l1] + NumberedLines([q2, q3], 2) by {
      assert [q1, q2, q3][1..] == [q2, q3];
    }
    assert [l1] + ([l2] + ([l3] + [])) == [l1, l2, l3];
    assert Join([l3]) == l3;
    assert Join([l2, l3]) == l2 + "\n" + Join([l3]) by {
      assert [l2, l3][1..] == [l3];
    }
    assert Join([l1, l2, l3]) == l1 + "\n" + Join([l2, l3]) by {
      assert [l1, l2, l3][1..] == [l2, l3];
    }
  }

  /** The worked example: a three-line numbered response gives those three
      questions, in order. */
  lemma ThreeQuestionExample()
    ensures ParseQuestions(Some("1. " + "Explain indexing." + "\n" + "2. " + "What is a race condition?" + "\n"
                                + "3. " + "Describe CAP theorem."))
         == ["Explain indexing.", "What is a race condition?", "Describe CAP theorem."]
  {
    var q1, q2, q3 := "Explain indexing.", "What is a race condition?", "Describe CAP theorem.";
    ExampleQuestionsWellFormed();
    ParseNumberedResponse([q1, q2, q3]);
    ThreeNumberedLines(q1, q2, q3);
  }

  lemma ExampleQuestionsWellFormed()
    ensures WellFormedQuestion("Explain indexing.")
    ensures WellFormedQuestion("What is a race condition?")
    ensures WellFormedQuestion("Describe CAP theorem.")
  {
  }
}
