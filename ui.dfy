/** The pure helpers of the view layer: threshold classifiers for grades and
    colours, and constant-table lookups for skill names, answer letters and
    difficulty classes. */
module Ui {

  // ----- Colours -----

  const Green := "#10B981"
  const Amber := "#F59E0B"
  const Red := "#EF4444"

  /** Severity of a colour: 0 green, 1 amber, 2 red. */
  function Severity(colour: string): nat
  {
    if colour == Green then 0 else if colour == Amber then 1 else 2
  }

  /** Mastery colour: green from 80, amber from 50, red below. */
  function MasteryColor(val: int): (r: string)
    ensures r == Green <==> val >= 80
    ensures r == Amber <==> 50 <= val < 80
    ensures r == Red <==> val < 50
  {
    if val >= 80 then Green
    else if val >= 50 then Amber
    else Red
  }

  /** Score colour: green from 80, amber from 60, red below. */
  function ScoreColor(pct: int): (r: string)
    ensures r == Green <==> pct >= 80
    ensures r == Amber <==> 60 <= pct < 80
    ensures r == Red <==> pct < 60
  {
    if pct >= 80 then Green
    else if pct >= 60 then Amber
    else Red
  }

  /** A higher value never gets a more severe colour, for either scale. */
  lemma ColoursMonotone(v: int, v': int)
    requires v <= v'
    ensures Severity(MasteryColor(v')) <= Severity(MasteryColor(v))
    ensures Severity(ScoreColor(v')) <= Severity(ScoreColor(v))
  {
  }

  /** The two scales differ only on 50..59, where a mastery is amber and a
      score is red. */
  lemma ColourScalesAgree(v: int)
    ensures MasteryColor(v) != ScoreColor(v) <==> 50 <= v < 60
  {
  }

  // ----- Grade -----

  const Excellent := "ممتاز"
  const VeryGood := "جيد جدًا"
  const Good := "جيد"
  const Pass := "مقبول"
  const NeedsWork := "يحتاج تحسين"

  /** Rank of a grade, 4 for the best and 0 for the lowest. */
  function GradeOrder(g: string): nat
  {
    if g == Excellent then 4
    else if g == VeryGood then 3
    else if g == Good then 2
    else if g == Pass then 1
    else 0
  }

  /** Letter grade of an average percentage, in bands of ten from 60 up. */
  function Grade(pct: int): (r: string)
    ensures r == Excellent <==> pct >= 90
    ensures r == VeryGood <==> 80 <= pct < 90
    ensures r == Good <==> 70 <= pct < 80
    ensures r == Pass <==> 60 <= pct < 70
    ensures r == NeedsWork <==> pct < 60
  {
    if pct >= 90 then Excellent
    else if pct >= 80 then VeryGood
    else if pct >= 70 then Good
    else if pct >= 60 then Pass
    else NeedsWork
  }

  /** The five grades are distinct and a higher percentage never gets a lower grade. */
  lemma GradeMonotone(pct: int, pct': int)
    requires pct <= pct'
    ensures GradeOrder(Grade(pct)) <= GradeOrder(Grade(pct'))
    ensures GradeOrder(Grade(pct)) == GradeOrder(Grade(pct')) ==> Grade(pct) == Grade(pct')
  {
  }

  // ----- Difficulty -----

  const Easy := "سهل"
  const Medium := "متوسط"

  /** CSS class of a difficulty tier; anything unrecognised is styled as hard. */
  function DiffClass(diff: string): (r: string)
    ensures r == "diff-easy" <==> diff == Easy
    ensures r == "diff-medium" <==> diff == Medium
    ensures r == "diff-hard" <==> diff != Easy && diff != Medium
  {
    if diff == Easy then "diff-easy"
    else if diff == Medium then "diff-medium"
    else "diff-hard"
  }

  // ----- Answer letters -----

  const Letters: seq<string> := ["أ", "ب", "ج", "د"]

  /** The Arabic letter labelling answer `i`; any other index gets ''. */
  function LetterFromIndex(i: int): (r: string)
    ensures 0 <= i < 4 ==> r == Letters[i] && |r| == 1
    ensures !(0 <= i < 4) ==> r == ""
  {
    if 0 <= i < |Letters| then Letters[i] else ""
  }

  /** The four answer positions get four different letters. */
  lemma LettersDistinct(i: int, j: int)
    requires 0 <= i < 4 && 0 <= j < 4 && i != j
    ensures LetterFromIndex(i) != LetterFromIndex(j)
  {
  }

  // ----- Skill names -----

  const SkillNames: seq<string> := [
    "مرادفات المفردات", "المفردات المتشابهة", "المترادفات والأضداد",
    "توظيف المفردات", "الفهم المباشر", "المقارنة والتحليل",
    "الأفكار الرئيسة والفرعية", "الشخصيات والأحداث", "الربط بالواقع",
    "التعبيرات الجمالية", "وضوح المعلومات", "القيم والاتجاهات",
    "العنوان والصياغة البديلة", "الإقناع والتعليل", "توظيف المغزى"]

  const FallbackPrefix := "مهارة "

  /** Display name of a skill: the table entry for 1..15, otherwise the word
      for "skill" followed by the number in decimal. */
  function SkillName(id: int): (r: string)
    ensures 1 <= id <= 15 ==> r == SkillNames[id - 1]
    ensures !(1 <= id <= 15) ==> r == FallbackPrefix + IntToString(id)
  {
    if 1 <= id <= |SkillNames| then SkillNames[id - 1] else FallbackPrefix + IntToString(id)
  }

  // ----- Decimal rendering of numbers (JavaScript's String(n) for integers) -----

  predicate IsDigit(c: char) { '0' <= c <= '9' }

  function DigitChar(d: int): (c: char)
    requires 0 <= d < 10
    ensures IsDigit(c)
  {
    "0123456789"[d]
  }

  function DigitValue(c: char): int
    requires IsDigit(c)
  {
    c as int - '0' as int
  }

  function NatToString(n: nat): (s: string)
    ensures |s| > 0 && forall i :: 0 <= i < |s| ==> IsDigit(s[i])
    ensures n > 0 ==> s[0] != '0'
  {
    if n < 10 then [DigitChar(n)] else NatToString(n / 10) + [DigitChar(n % 10)]
  }

  function IntToString(n: int): string
  {
    if n < 0 then "-" + NatToString(-n) else NatToString(n)
  }

  /** Reads a string of decimal digits back. */
  function ParseDigits(s: string): nat
    requires forall i :: 0 <= i < |s| ==> IsDigit(s[i])
  {
    if s == [] then 0 else 10 * ParseDigits(s[..|s| - 1]) + DigitValue(s[|s| - 1])
  }

  lemma {:induction false} ParseNatToString(n: nat)
    ensures ParseDigits(NatToString(n)) == n
  {
    var s := NatToString(n);
    if n >= 10 {
      ParseNatToString(n / 10);
      assert s[..|s| - 1] == NatToString(n / 10);
    }
  }

  /** Distinct numbers are rendered as distinct strings. */
  lemma IntToStringInjective(a: int, b: int)
    requires IntToString(a) == IntToString(b)
    ensures a == b
  {
    var sa, sb := IntToString(a), IntToString(b);
    if a < 0 && b < 0 {
      var x, y: nat := -a, -b;
      var na, nb := NatToString(x), NatToString(y);
      assert sa == "-" + na && sa[1..] == na;
      assert sb == "-" + nb && sb[1..] == nb;
      ParseNatToString(x);
      ParseNatToString(y);
    } else if a >= 0 && b >= 0 {
      ParseNatToString(a);
      ParseNatToString(b);
    }
  }

  lemma TableNamesDistinct(i: int, j: int)
    requires 0 <= i < j < 15
    ensures SkillNames[i] != SkillNames[j]
  {
  }

  lemma TableNameNotFallback(i: int, n: string)
    requires 0 <= i < 15
    ensures SkillNames[i] != FallbackPrefix + n
  {
    assert (FallbackPrefix + n)[1] == FallbackPrefix[1];
  }

  /** No two skills share a display name. */
  lemma SkillNameInjective(a: int, b: int)
    requires SkillName(a) == SkillName(b)
    ensures a == b
  {
    if 1 <= a <= 15 && 1 <= b <= 15 {
      if a < b { TableNamesDistinct(a - 1, b - 1); }
      if b < a { TableNamesDistinct(b - 1, a - 1); }
    } else if 1 <= a <= 15 {
      TableNameNotFallback(a - 1, IntToString(b));
    } else if 1 <= b <= 15 {
      TableNameNotFallback(b - 1, IntToString(a));
    } else {
      var p := FallbackPrefix;
      assert IntToString(a) == SkillName(a)[|p|..];
      assert IntToString(b) == SkillName(b)[|p|..];
      IntToStringInjective(a, b);
    }
  }
}
