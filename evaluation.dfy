/**
 * `parseEvaluation`: reads the score, the three bullet lists and the detailed
 * feedback out of the evaluation text.  Each of the five regular expressions
 * is modelled by what `Regex.find` does with it: the leftmost position where
 * the whole pattern matches, with the section header as an alternation tried
 * English first, greedy `\s*` that gives characters back until the following
 * `\n` (or `\d`) can match, and a lazy group that stops at the first blank line.
 */
module EvaluationParser {
  import opened Text
  import opened Model

  /** The five section patterns. */
  datatype Pattern = Score | Strengths | Weaknesses | Recommendations | Feedback

  /** The section names, in both languages the evaluation prompt uses. */
  function Marker(p: Pattern, lang: Language): string {
    match (p, lang)
    case (Score, English) => "SCORE"
    case (Score, Turkish) => "PUAN"
    case (Strengths, English) => "STRENGTHS"
    case (Strengths, Turkish) => "GÜÇLÜ_YÖNLER"
    case (Weaknesses, English) => "WEAKNESSES"
    case (Weaknesses, Turkish) => "ZAYIF_YÖNLER"
    case (Recommendations, English) => "RECOMMENDATIONS"
    case (Recommendations, Turkish) => "ÖNERİLER"
    case (Feedback, English) => "DETAILED_FEEDBACK"
    case (Feedback, Turkish) => "DETAYLI_GERİBİLDİRİM"
  }

  /** A section name followed by its colon. */
  function Header(p: Pattern, lang: Language): string {
    Marker(p, lang) + ":"
  }

  const FallbackFeedback: string := "Değerlendirme başarısız"

  /** What a null or blank text yields. */
  const Fallback: InterviewEvaluation := InterviewEvaluation(0, [], [], [], FallbackFeedback)

  /** `(English|Turkish):` at position `k`, English tried first; yields the
      position just after the colon. */
  function HeaderEnd(p: Pattern, text: string, k: nat): (r: Option<nat>)
    ensures r.Some? <==> InfixAt(Header(p, English), text, k) || InfixAt(Header(p, Turkish), text, k)
    ensures r.Some? ==> k < r.value <= |text| && text[r.value - 1] == ':'
  {
    var e := Header(p, English);
    var t := Header(p, Turkish);
    if InfixAt(e, text, k) then
      HeaderEndsWithColon(p, English);
      assert text[k..k + |e|][|e| - 1] == ':';
      Some(k + |e|)
    else if InfixAt(t, text, k) then
      HeaderEndsWithColon(p, Turkish);
      assert text[k..k + |t|][|t| - 1] == ':';
      Some(k + |t|)
    else None
  }

  lemma HeaderEndsWithColon(p: Pattern, lang: Language)
    ensures |Header(p, lang)| > 1 && Header(p, lang)[|Header(p, lang)| - 1] == ':'
  {
    var m := Marker(p, lang);
    assert m != [];
    assert Header(p, lang) == m + ":";
  }

  /** `\s*(\d+)` from position `q`: the digits after the whitespace run (a
      whitespace character is never a digit, so giving some back never helps). */
  function ScoreDigits(text: string, q: nat): (r: Option<string>)
    requires q <= |text|
    ensures r.Some? ==> r.value != [] && AllDigits(r.value)
  {
    var w := RegexSpaceRun(text[q..]);
    var d := DigitRun(text[q + w..]);
    if d == 0 then None
    else
      assert text[q + w..q + w + d] == text[q + w..][..d];
      Some(text[q + w..q + w + d])
  }

  /** A blank line starts at `j`: two newlines in a row. */
  predicate BlankLineAt(text: string, j: int) {
    0 <= j && j + 1 < |text| && text[j] == '\n' && text[j + 1] == '\n'
  }

  /** No two newlines in a row anywhere in `s`. */
  predicate NoBlankLine(s: string) {
    forall j :: 0 <= j < |s| ==> !BlankLineAt(s, j)
  }

  /** The lazy `([\s\S]*?)\n\n` from position `g`: the first blank line at or after `g`. */
  function FirstBlankLine(text: string, g: nat): (r: Option<nat>)
    requires g <= |text|
    ensures r.Some? ==> g <= r.value && BlankLineAt(text, r.value)
    ensures r.Some? ==> forall j :: g <= j < r.value ==> !BlankLineAt(text, j)
    ensures r.None? ==> forall j :: g <= j ==> !BlankLineAt(text, j)
    decreases |text| - g
  {
    if g + 1 >= |text| then None
    else if text[g] == '\n' && text[g + 1] == '\n' then Some(g)
    else FirstBlankLine(text, g + 1)
  }

  /** A newline ends at `p` and a blank line follows somewhere after it. */
  predicate OpensSection(text: string, p: nat)
    requires p <= |text|
  {
    0 < p && text[p - 1] == '\n' && FirstBlankLine(text, p).Some?
  }

  /** Where `\s*\n` leaves the lazy group to start, after the colon at `q`
      with a whitespace run of `k` characters: greedy `\s*` gives characters
      back one at a time until the next one is a newline after which a blank
      line follows, so the group starts after the last such newline. */
  function SectionStart(text: string, q: nat, k: nat): (r: Option<nat>)
    requires q + k <= |text|
    ensures r.Some? ==> q < r.value <= q + k && OpensSection(text, r.value)
    ensures r.Some? ==> forall p :: r.value < p <= q + k ==> !OpensSection(text, p)
    ensures r.None? <==> forall p :: q < p <= q + k ==> !OpensSection(text, p)
    decreases k
  {
    if k == 0 then None
    else if OpensSection(text, q + k) then Some(q + k)
    else SectionStart(text, q, k - 1)
  }

  /** `\s*\n([\s\S]*?)\n\n` after the colon at `q` with a whitespace run of
      `k` characters: the group runs from the last newline among those `k`
      characters that has a blank line after it, to the first blank line. */
  function LazySection(text: string, q: nat, k: nat): (r: Option<string>)
    requires q + k <= |text|
    ensures r.Some? ==> NoBlankLine(r.value)
    ensures r.Some? ==> exists j :: BlankLineAt(text, j)
    ensures r.Some? ==> exists p :: (q < p <= q + k && OpensSection(text, p)
      && r.value == text[p..FirstBlankLine(text, p).value]
      && forall p' :: p < p' <= q + k ==> !OpensSection(text, p'))
    ensures r.None? <==> forall p :: q < p <= q + k ==> !OpensSection(text, p)
  {
    match SectionStart(text, q, k)
    case None => None
    case Some(p) =>
      var j := FirstBlankLine(text, p).value;
      var s := text[p..j];
      assert forall i :: BlankLineAt(s, i) ==> BlankLineAt(text, p + i);
      Some(s)
  }

  /** `\s*\n([\s\S]*)` after the colon at `q`: the group is everything after the
      last newline among the first `k` whitespace characters. */
  function GreedySection(text: string, q: nat, k: nat): (r: Option<string>)
    requires q + k <= |text|
    ensures r.Some? ==> exists j :: (q <= j < q + k && text[j] == '\n' && r.value == text[j + 1..]
      && forall j' :: j < j' < q + k ==> text[j'] != '\n')
    ensures r.None? <==> forall j :: q <= j < q + k ==> text[j] != '\n'
    decreases k
  {
    if k == 0 then None
    else if text[q + k - 1] == '\n' then Some(text[q + k..])
    else GreedySection(text, q, k - 1)
  }

  /** What the rest of pattern `p` captures after a header ending at `q`. */
  function GroupAfter(p: Pattern, text: string, q: nat): (r: Option<string>)
    requires q <= |text|
  {
    var w := RegexSpaceRun(text[q..]);
    match p
    case Score => ScoreDigits(text, q)
    case Feedback => GreedySection(text, q, w)
    case _ => LazySection(text, q, w)
  }

  /** Pattern `p` matched at position `k`: the captured group, if any. */
  function MatchAt(p: Pattern, text: string, k: nat): (r: Option<string>)
    ensures r.Some? ==> HeaderEnd(p, text, k).Some?
  {
    match HeaderEnd(p, text, k)
    case None => None
    case Some(q) => GroupAfter(p, text, q)
  }

  /** The leftmost position at or after `k` where `p` matches. */
  function FindFrom(p: Pattern, text: string, k: nat): (r: Option<nat>)
    requires k <= |text|
    ensures r.Some? ==> k <= r.value <= |text| && MatchAt(p, text, r.value).Some?
    ensures r.Some? ==> forall j :: k <= j < r.value ==> MatchAt(p, text, j).None?
    ensures r.None? ==> forall j :: k <= j <= |text| ==> MatchAt(p, text, j).None?
    decreases |text| - k
  {
    if MatchAt(p, text, k).Some? then Some(k)
    else if k == |text| then None
    else
      var r := FindFrom(p, text, k + 1);
      assert forall j :: k <= j < k + 1 ==> MatchAt(p, text, j).None?;
      r
  }

  /** `regex.find(text)?.groupValues?.get(2)`. */
  function Find(p: Pattern, text: string): (r: Option<string>)
    ensures r.None? <==> forall j :: 0 <= j <= |text| ==> MatchAt(p, text, j).None?
  {
    match FindFrom(p, text, 0)
    case None => None
    case Some(k) => MatchAt(p, text, k)
  }

  /** Kotlin's `toIntOrNull()` on a run of decimal digits: the value, or null
      when it does not fit in an `Int`. */
  function ToIntOrNull(ds: string): (r: Option<int>)
    ensures r.Some? <==> ds != [] && AllDigits(ds) && DigitsValue(ds) <= IntMax
    ensures r.Some? ==> r.value == DigitsValue(ds)
  {
    if ds != [] && AllDigits(ds) && DigitsValue(ds) <= IntMax then Some(DigitsValue(ds)) else None
  }

  /** `?.toIntOrNull() ?: 0` */
  function ScoreOf(g: Option<string>): (r: int)
    ensures 0 <= r <= IntMax
    ensures g.Some? && g.value != [] && AllDigits(g.value) ==>
              r == (if DigitsValue(g.value) <= IntMax then DigitsValue(g.value) else 0)
    ensures g.None? ==> r == 0
  {
    if g.None? then 0
    else match ToIntOrNull(g.value)
      case None => 0
      case Some(n) => n
  }

  /** `filter { it.trim().startsWith("-") }.map { it.trim().removePrefix("-").trim() }` */
  function BulletItems(lines: seq<string>): (r: seq<string>)
    ensures |r| <= |lines|
    ensures forall i :: 0 <= i < |r| ==> IsTrimmed(r[i])
    decreases |lines|
  {
    if lines == [] then []
    else
      var t := Trim(lines[0]);
      var rest := BulletItems(lines[1..]);
      if StartsWith(t, "-") then
        TrimIsTrimmed(t[1..]);
        [Trim(t[1..])] + rest
      else rest
  }

  /** A section's items: the group split at newlines, bullets only; an absent
      group is the empty string, which holds no bullet. */
  function SectionItems(g: Option<string>): (r: seq<string>)
    ensures forall i :: 0 <= i < |r| ==> IsTrimmed(r[i])
    ensures g.None? ==> r == []
  {
    match g
    case None => []
    case Some(s) => BulletItems(Split(s))
  }

  /** `?.trim() ?: ""` */
  function FeedbackOf(g: Option<string>): (r: string)
    ensures IsTrimmed(r)
    ensures g.None? ==> r == []
  {
    match g
    case None => []
    case Some(s) => TrimIsTrimmed(s); Trim(s)
  }

  /** `parseEvaluation(evaluationText)`; `None` stands for a null string. */
  function ParseEvaluation(text: Option<string>): (r: InterviewEvaluation)
    ensures text.None? || IsBlank(text.value) ==> r == Fallback
    ensures 0 <= r.overallScore <= IntMax
    ensures forall i :: 0 <= i < |r.strengths| ==> IsTrimmed(r.strengths[i])
    ensures forall i :: 0 <= i < |r.weaknesses| ==> IsTrimmed(r.weaknesses[i])
    ensures forall i :: 0 <= i < |r.recommendations| ==> IsTrimmed(r.recommendations[i])
    ensures text.Some? && !IsBlank(text.value) ==> IsTrimmed(r.detailedFeedback)
  {
    if text.None? || IsBlank(text.value) then Fallback
    else
      var t := Trim(text.value);
      InterviewEvaluation(
        ScoreOf(Find(Score, t)),
        SectionItems(Find(Strengths, t)),
        SectionItems(Find(Weaknesses, t)),
        SectionItems(Find(Recommendations, t)),
        FeedbackOf(Find(Feedback, t)))
  }
}
