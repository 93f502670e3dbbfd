/** The progression and mastery engine: question shuffling, the per-day
    passage and tip rotation with its streak, skill drills, answer and
    completion bookkeeping (mastery, XP, level), badges, certificate
    eligibility, verification identifiers and CSV cell escaping.
    `Math.random` is modelled as a nondeterministic choice (`:|`), and the
    current day and time are parameters. */
module Engine {
  import opened Common
  import opened Catalog
  import opened Storage

  // ----- Shuffling -----

  /** Fisher–Yates over a copy of the input: from the last position down to
      1, swap with a random position at or below it. */
  method ShuffleArray<T>(arr: seq<T>) returns (r: seq<T>)
    ensures |r| == |arr|
    ensures multiset(r) == multiset(arr)
  {
    var a := new T[|arr|](k requires 0 <= k < |arr| => arr[k]);
    assert a[..] == arr;
    var i := a.Length - 1;
    while i > 0
      invariant i < a.Length
      invariant multiset(a[..]) == multiset(arr)
    {
      var j :| 0 <= j <= i;
      ghost var before := a[..];
      a[i], a[j] := a[j], a[i];
      assert a[..] == before[i := before[j]][j := before[i]];
      SwapMultiset(before, i, j);
      i := i - 1;
    }
    r := a[..];
  }

  /** Swapping two positions keeps the elements. */
  lemma SwapMultiset<T>(s: seq<T>, i: int, j: int)
    requires 0 <= i < |s| && 0 <= j < |s|
    ensures multiset(s[i := s[j]][j := s[i]]) == multiset(s)
  {
  }

  /** A shuffled order of the four answer positions. */
  predicate IsIndexShuffle(perm: seq<int>)
  {
    |perm| == 4 && multiset(perm) == multiset([0, 1, 2, 3])
  }

  lemma IndexShuffleInRange(perm: seq<int>)
    requires IsIndexShuffle(perm)
    ensures forall k :: 0 <= k < |perm| ==> 0 <= perm[k] < 4
    ensures forall x :: x in perm <==> 0 <= x < 4
  {
    forall k | 0 <= k < |perm| ensures 0 <= perm[k] < 4 {
      assert perm[k] in multiset(perm);
    }
    forall x ensures x in perm <==> 0 <= x < 4 {
      assert x in perm <==> x in multiset(perm);
      assert x in multiset([0, 1, 2, 3]) <==> x in [0, 1, 2, 3];
    }
  }

  /** `s[i]`, or '' for a position outside `s`. */
  function At(s: seq<string>, i: int): string
  {
    if 0 <= i < |s| then s[i] else ""
  }
  /** The elements of `s` at the positions listed in `idx`, in that order
      (`idx.map(i => s[i])`). */
  function Pick(s: seq<string>, idx: seq<int>): (r: seq<string>)
    ensures |r| == |idx|
  {
    if idx == [] then [] else [At(s, idx[0])] + Pick(s, idx[1..])
  }
  lemma {:induction false} PickConcat(s: seq<string>, a: seq<int>, b: seq<int>)
    ensures Pick(s, a + b) == Pick(s, a) + Pick(s, b)
  {
    if a != [] {
      assert (a + b)[1..] == a[1..] + b;
      PickConcat(s, a[1..], b);
      assert Pick(s, a + b) == [At(s, a[0])] + Pick(s, a[1..] + b);
    } else {
      assert a + b == b;
    }
  }
  /** Picking all but position `p`, plus the element there. */
  lemma PickRemove(s: seq<string>, jdx: seq<int>, p: int)
    requires 0 <= p < |jdx|
    ensures multiset(Pick(s, jdx)) == multiset(Pick(s, jdx[..p] + jdx[p + 1..])) + multiset{At(s, jdx[p])}
  {
    var before, after := jdx[..p], jdx[p + 1..];
    assert jdx == before + ([jdx[p]] + after);
    PickConcat(s, before, [jdx[p]] + after);
    PickConcat(s, [jdx[p]], after);
    PickConcat(s, before, after);
  }
  /** Picking the four positions in order gives the four elements back. */
  lemma PickIdentity(s: seq<string>)
    requires |s| == 4
    ensures Pick(s, [0, 1, 2, 3]) == s
  {
    assert [0, 1, 2, 3][1..] == [1, 2, 3];
    assert [1, 2, 3][1..] == [2, 3];
    assert [2, 3][1..] == [3];
    assert [3][1..] == [];
    assert Pick(s, [3]) == [s[3]];
    assert Pick(s, [2, 3]) == [s[2], s[3]];
    assert Pick(s, [1, 2, 3]) == [s[1], s[2], s[3]];
    assert Pick(s, [0, 1, 2, 3]) == [s[0], s[1], s[2], s[3]];
  }
  /** Removing the element at `p` removes one occurrence of it. */
  lemma RemoveAt(s: seq<int>, p: int)
    requires 0 <= p < |s|
    ensures multiset(s[..p] + s[p + 1..]) == multiset(s) - multiset{s[p]}
  {
    assert s == s[..p] + [s[p]] + s[p + 1..];
  }
  lemma TailRest(idx: seq<int>, jdx: seq<int>, p: int)
    requires multiset(idx) == multiset(jdx) && idx != [] && 0 <= p < |jdx| && jdx[p] == idx[0]
    ensures multiset(idx[1..]) == multiset(jdx[..p] + jdx[p + 1..])
  {
    RemoveAt(idx, 0);
    RemoveAt(jdx, p);
    assert idx[..0] + idx[1..] == idx[1..];
  }
  /** Picking along two position lists that are permutations of each other
      picks the same elements. */
  lemma {:induction false} PickSameMultiset(s: seq<string>, idx: seq<int>, jdx: seq<int>)
    requires multiset(idx) == multiset(jdx)
    ensures multiset(Pick(s, idx)) == multiset(Pick(s, jdx))
  {
    if idx != [] {
      var x := idx[0];
      assert x in jdx by {
        assert x in multiset(idx);
      }
      var p :| 0 <= p < |jdx| && jdx[p] == x;
      TailRest(idx, jdx, p);
      PickSameMultiset(s, idx[1..], jdx[..p] + jdx[p + 1..]);
      PickRemove(s, jdx, p);
      PickRemove(s, idx, 0);
      assert idx[..0] + idx[1..] == idx[1..];
    }
  }
  lemma {:induction false} PickAt(s: seq<string>, idx: seq<int>, k: int)
    requires 0 <= k < |idx|
    ensures Pick(s, idx)[k] == At(s, idx[k])
  {
    if k > 0 {
      PickAt(s, idx[1..], k - 1);
    }
  }

  /** First position of `x` in `s`, or -1 (`Array.prototype.indexOf`). */
  function IndexOf(s: seq<int>, x: int): (i: int)
    ensures -1 <= i < |s|
    ensures i >= 0 ==> s[i] == x && x !in s[..i]
    ensures i == -1 <==> x !in s
  {
    if |s| == 0 then -1
    else if s[0] == x then 0
    else
      var j := IndexOf(s[1..], x);
      assert s[1..][..if j >= 0 then j else 0] == s[1..1 + if j >= 0 then j else 0];
      if j >= 0 then j + 1 else -1
  }

  /** The question with its choices rearranged along `perm`, the correct
      index moved with its choice, and the permutation recorded. */
  function Rearranged(q: Question, perm: seq<int>): (r: Question)
    requires |q.choices| == 4 && IsIndexShuffle(perm)
    ensures |r.choices| == 4 && multiset(r.choices) == multiset(q.choices)
    ensures 0 <= q.correctIndex < 4 ==> 0 <= r.correctIndex < 4 && r.choices[r.correctIndex] == q.choices[q.correctIndex]
    ensures !(0 <= q.correctIndex < 4) ==> r.correctIndex == -1
    ensures r.(choices := q.choices, correctIndex := q.correctIndex, shuffleMap := q.shuffleMap) == q
  {
    IndexShuffleInRange(perm);
    PickSameMultiset(q.choices, perm, [0, 1, 2, 3]);
    PickIdentity(q.choices);
    var i := IndexOf(perm, q.correctIndex);
    assert i >= 0 ==> Pick(q.choices, perm)[i] == At(q.choices, perm[i]) by {
      if i >= 0 { PickAt(q.choices, perm, i); }
    }
    q.(choices := Pick(q.choices, perm), correctIndex := IndexOf(perm, q.correctIndex), shuffleMap := Some(perm))
  }

  /** `q2` is `q` with its choices shuffled. */
  ghost predicate ShuffledFrom(q2: Question, q: Question)
  {
    |q.choices| == 4 && exists perm :: IsIndexShuffle(perm) && q2 == Rearranged(q, perm)
  }

  /** Shuffles the four choices of a question and moves the correct index with them. */
  method ShuffleQuestion(q: Question) returns (r: Question)
    requires |q.choices| == 4
    ensures ShuffledFrom(r, q)
    ensures multiset(r.choices) == multiset(q.choices)
    ensures 0 <= q.correctIndex < 4 ==> 0 <= r.correctIndex < 4 && r.choices[r.correctIndex] == q.choices[q.correctIndex]
    ensures r.id == q.id && r.skillId == q.skillId && r.stem == q.stem
    ensures r.explanation == q.explanation && r.provenance == q.provenance
  {
    var perm := ShuffleArray([0, 1, 2, 3]);
    r := Rearranged(q, perm);
  }

  // ----- Per-day selection -----

  /** One step of the string hash: `((h << 5) - h) + code`, then `| 0`. */
  function HashStep(h: int, c: char): (r: int)
    ensures -Two31 <= r < Two31
  {
    Wrap32(Wrap32(h * 32) - h + c as int)
  }

  /** The 32-bit hash of a string before `Math.abs`. */
  function HashOf(s: string): (h: int)
    ensures -Two31 <= h < Two31
  {
    if s == [] then 0 else HashStep(HashOf(s[..|s| - 1]), s[|s| - 1])
  }

  /** The date hash: the string hash folded character by character, then its
      absolute value. */
  method DateHash(dateStr: string) returns (h: nat)
    ensures h == Abs(HashOf(dateStr))
    ensures h <= Two31
  {
    var acc := 0;
    for i := 0 to |dateStr|
      invariant acc == HashOf(dateStr[..i])
    {
      assert dateStr[..i + 1][..i] == dateStr[..i];
      acc := Wrap32(Wrap32(acc * 32) - acc + dateStr[i] as int);
    }
    assert dateStr[..|dateStr|] == dateStr;
    h := Abs(acc);
  }

  /** The position a day selects among `n` items. */
  function DayIndex(iso: string, n: int): (i: int)
    requires n > 0
    ensures 0 <= i < n
  {
    Abs(HashOf(iso)) % n
  }

  /** The tip of the day: '' without tips, otherwise a tip selected by the day. */
  function DailyTip(tips: seq<string>, today: Day): (tip: string)
    ensures |tips| == 0 ==> tip == ""
    ensures |tips| > 0 ==> tip in tips && tip == tips[DayIndex(today.iso, |tips|)]
  {
    if |tips| == 0 then "" else tips[DayIndex(today.iso, |tips|)]
  }

  /** The first passage with the given id (`Array.prototype.find`). */
  function FindText(texts: seq<Passage>, id: string): (r: Option<Passage>)
    ensures r.Some? ==> r.value in texts && r.value.id == id
    ensures r.None? <==> forall t :: t in texts ==> t.id != id
  {
    if |texts| == 0 then None
    else if texts[0].id == id then Some(texts[0])
    else FindText(texts[1..], id)
  }

  predicate UniqueTextIds(texts: seq<Passage>)
  {
    forall i, j :: 0 <= i < j < |texts| ==> texts[i].id != texts[j].id
  }

  lemma {:induction false} FindUnique(texts: seq<Passage>, t: Passage)
    requires UniqueTextIds(texts) && t in texts
    ensures FindText(texts, t.id) == Some(t)
  {
    if texts[0] != t {
      assert texts[0].id != t.id by {
        var j :| 0 <= j < |texts| && texts[j] == t;
        assert j > 0;
      }
      assert t in texts[1..];
      FindUnique(texts[1..], t);
    }
  }

  /** The daily record already names today's passage. */
  predicate Memoised(d: DailyState, today: Day)
  {
    d.lastDate.Some? && d.lastDate.value.iso == today.iso && d.todayTextId.Some? && d.todayTextId.value != ""
  }

  /** The streak carried into a new day's record. */
  function NextStreak(d: DailyState, today: Day): (s: int)
    ensures s == d.streak || s == d.streak + 1 || s == 0
  {
    if d.lastDate.None? then d.streak
    else
      var gap := today.ordinal - d.lastDate.value.ordinal;
      if gap == 1 && d.todayDone then d.streak + 1
      else if gap > 1 then 0
      else d.streak
  }

  /** The streak grows by one exactly after a completed previous day, drops to
      0 exactly after a gap of more than one day, and otherwise stays. */
  lemma StreakRules(d: DailyState, today: Day)
    ensures var gap := if d.lastDate.Some? then today.ordinal - d.lastDate.value.ordinal else 0;
      && (d.lastDate.Some? && gap == 1 && d.todayDone ==> NextStreak(d, today) == d.streak + 1)
      && (d.lastDate.Some? && gap > 1 ==> NextStreak(d, today) == 0)
      && (d.lastDate.None? || gap < 1 || (gap == 1 && !d.todayDone) ==> NextStreak(d, today) == d.streak)
    ensures d.streak >= 0 ==> 0 <= NextStreak(d, today) <= d.streak + 1
    ensures NextStreak(d, today) < d.streak ==> NextStreak(d, today) == 0
  {
  }

  /** The passage `getDailyText` returns for the stored record `d`. */
  function DailyChoice(d: DailyState, texts: seq<Passage>, today: Day): (t: Passage)
    requires |texts| > 0
    ensures t in texts
    ensures !Memoised(d, today) ==> t == texts[DayIndex(today.iso, |texts|)]
  {
    if Memoised(d, today) then
      match FindText(texts, d.todayTextId.value)
      case Some(p) => p
      case None => texts[0]
    else texts[DayIndex(today.iso, |texts|)]
  }

  /** The store after `getDailyText`: untouched when memoised, otherwise a new
      record for today naming the chosen passage, not yet done. */
  function DailyRecorded(data: Data, texts: seq<Passage>, today: Day): Data
    requires |texts| > 0
  {
    var d := ReadDaily(data);
    if Memoised(d, today) then data
    else data[DailyKey := DailySlot(DailyState(Some(today), NextStreak(d, today), false, Some(DailyChoice(d, texts, today).id)))]
  }

  /** The daily passage is stable for the whole day: once recorded, asking
      again on the same day returns the same passage and writes nothing
      (passage ids are unique and non-empty). */
  lemma DailyStable(data: Data, texts: seq<Passage>, today: Day)
    requires |texts| > 0 && UniqueTextIds(texts)
    requires forall t :: t in texts ==> t.id != ""
    ensures var data' := DailyRecorded(data, texts, today);
      && DailyChoice(ReadDaily(data'), texts, today) == DailyChoice(ReadDaily(data), texts, today)
      && DailyRecorded(data', texts, today) == data'
  {
    var d := ReadDaily(data);
    if !Memoised(d, today) {
      var t := DailyChoice(d, texts, today);
      var data' := DailyRecorded(data, texts, today);
      assert ReadDaily(data') == DailyState(Some(today), NextStreak(d, today), false, Some(t.id));
      FindUnique(texts, t);
    }
  }

  /** Selects the passage of the day. A record already naming today's
      passage is reused (falling back on the first passage when that id is
      gone); otherwise the day's hash selects a passage, the streak is
      carried over, and a fresh record for today is written. */
  method GetDailyText(store: Store, texts: seq<Passage>, today: Day) returns (text: Passage)
    requires |texts| > 0
    modifies store
    ensures text == DailyChoice(ReadDaily(old(store.data)), texts, today)
    ensures store.data == DailyRecorded(old(store.data), texts, today)
    ensures !Memoised(ReadDaily(old(store.data)), today) ==>
      ReadDaily(store.data) == DailyState(Some(today), NextStreak(ReadDaily(old(store.data)), today), false, Some(text.id))
  {
    var daily := store.GetDailyData();
    if daily.lastDate.Some? && daily.lastDate.value.iso == today.iso && daily.todayTextId.Some? && daily.todayTextId.value != "" {
      var found := FindText(texts, daily.todayTextId.value);
      text := if found.Some? then found.value else texts[0];
      return;
    }
    var newStreak := daily.streak;
    if daily.lastDate.Some? {
      var diffDays := today.ordinal - daily.lastDate.value.ordinal;
      if diffDays == 1 && daily.todayDone {
        newStreak := daily.streak + 1;
      } else if diffDays > 1 {
        newStreak := 0;
      }
    }
    var h := DateHash(today.iso);
    text := texts[h % |texts|];
    store.SetDailyData(DailyState(Some(today), newStreak, false, Some(text.id)));
  }

  // ----- Next passage -----

  predicate IsCompleted(completed: seq<CompletedText>, id: string)
  {
    exists c :: c in completed && c.id == id
  }

  /** The passages not yet completed, in catalogue order. */
  function Unseen(texts: seq<Passage>, completed: seq<CompletedText>): (r: seq<Passage>)
    ensures forall t :: t in r <==> t in texts && !IsCompleted(completed, t.id)
    ensures |r| <= |texts|
  {
    if |texts| == 0 then []
    else
      var rest := Unseen(texts[..|texts| - 1], completed);
      var t := texts[|texts| - 1];
      assert texts == texts[..|texts| - 1] + [t];
      if IsCompleted(completed, t.id) then rest else rest + [t]
  }

  /** Picks a random passage not yet completed, or any passage once all are
      completed; None for an empty catalogue. */
  method GetNextText(store: Store, texts: seq<Passage>) returns (t: Option<Passage>)
    ensures t.None? <==> |texts| == 0
    ensures t.Some? ==> t.value in texts
    ensures |Unseen(texts, ReadCompleted(store.data))| > 0 ==> t.Some? && !IsCompleted(ReadCompleted(store.data), t.value.id)
  {
    var completed := store.GetCompletedTexts();
    var unseen := Unseen(texts, completed);
    if |unseen| > 0 {
      var k :| 0 <= k < |unseen|;
      assert unseen[k] in unseen;
      return Some(unseen[k]);
    }
    if |texts| == 0 {
      return None;
    }
    var k :| 0 <= k < |texts|;
    return Some(texts[k]);
  }

  // ----- Skill drills -----

  /** A drill question tagged with the passage it was gathered from. */
  function Tagged(t: Passage, q: Question): Question
  {
    q.(provenance := Some(Provenance(t.id, t.title, t.body)))
  }

  /** The questions among `qs` (of passage `t`) on skill `skillId`, tagged, in order. */
  function GatherFrom(t: Passage, qs: seq<Question>, skillId: int): (r: seq<Question>)
    ensures forall q :: q in r <==> exists q0 :: q0 in qs && q0.skillId == skillId && q == Tagged(t, q0)
    ensures |r| <= |qs|
  {
    if |qs| == 0 then []
    else
      var q := qs[|qs| - 1];
      assert qs == qs[..|qs| - 1] + [q];
      var rest := GatherFrom(t, qs[..|qs| - 1], skillId);
      if q.skillId == skillId then rest + [Tagged(t, q)] else rest
  }

  /** Every question of the catalogue on skill `skillId`, tagged with its
      passage, passage by passage in catalogue order. */
  function Gather(texts: seq<Passage>, skillId: int): (r: seq<Question>)
    ensures forall q :: q in r <==> exists t, q0 :: t in texts && q0 in t.questions && q0.skillId == skillId && q == Tagged(t, q0)
    ensures forall q :: q in r ==> q.skillId == skillId && q.provenance.Some?
    ensures FourChoices(texts) ==> forall q :: q in r ==> |q.choices| == 4
  {
    if |texts| == 0 then []
    else
      var t := texts[|texts| - 1];
      assert texts == texts[..|texts| - 1] + [t];
      Gather(texts[..|texts| - 1], skillId) + GatherFrom(t, t.questions, skillId)
  }

  /** `questions.filter(q => q.skill_id === skillId)`. */
  function MatchingOnly(qs: seq<Question>, skillId: int): (r: seq<Question>)
    ensures forall q :: q in r <==> q in qs && q.skillId == skillId
    ensures multiset(r) <= multiset(qs)
  {
    if |qs| == 0 then []
    else
      var q := qs[|qs| - 1];
      assert qs == qs[..|qs| - 1] + [q];
      var rest := MatchingOnly(qs[..|qs| - 1], skillId);
      if q.skillId == skillId then rest + [q] else rest
  }

  lemma {:induction false} MatchingOnlyKeepsAll(qs: seq<Question>, skillId: int)
    requires forall k :: 0 <= k < |qs| ==> qs[k].skillId == skillId
    ensures MatchingOnly(qs, skillId) == qs
  {
    if |qs| > 0 {
      var init := qs[..|qs| - 1];
      assert forall k :: 0 <= k < |init| ==> init[k] == qs[k];
      MatchingOnlyKeepsAll(init, skillId);
      SnocSplit(qs);
    }
  }

  lemma SnocSplit<T>(s: seq<T>)
    requires |s| > 0
    ensures s == s[..|s| - 1] + [s[|s| - 1]]
  {
  }

  /** The defensive re-filter of a drill never finds a stray question: the
      rejection branch of `getQuestionsForSkill` cannot be taken. */
  lemma DrillValidationPasses(texts: seq<Passage>, skillId: int)
    ensures |MatchingOnly(Gather(texts, skillId), skillId)| == |Gather(texts, skillId)|
  {
    var g := Gather(texts, skillId);
    forall k | 0 <= k < |g|
      ensures g[k].skillId == skillId
    {
      assert g[k] in g;
    }
    MatchingOnlyKeepsAll(g, skillId);
  }

  /** The position `slice(0, end)` stops at in a sequence of length `len`. */
  function SliceEnd(len: int, end: int): (e: int)
    requires len >= 0
    ensures 0 <= e <= len
    ensures end >= 0 ==> e == Min(end, len)
  {
    if end < 0 then Max(len + end, 0) else Min(end, len)
  }

  /** The result of `getQuestionsForSkill`: a drill with the number of
      matching questions, or the validation error. */
  datatype Drill = Drill(questions: seq<Question>, count: int) | Rejected(error: string)

  const ValidationError := "فشل التحقق: وجدت أسئلة لا تتطابق مع المهارة المختارة."

  lemma PrefixSubMultiset(s: seq<Question>, e: int)
    requires 0 <= e <= |s|
    ensures multiset(s[..e]) <= multiset(s)
  {
    assert s == s[..e] + s[e..];
  }

  /** The gathering loops of `getQuestionsForSkill`: passage by passage,
      question by question, every question on the skill, tagged. */
  method GatherQuestions(texts: seq<Passage>, skillId: int) returns (questions: seq<Question>)
    ensures questions == Gather(texts, skillId)
  {
    questions := [];
    for i := 0 to |texts|
      invariant questions == Gather(texts[..i], skillId)
    {
      var found := GatherFromPassage(texts[i], skillId);
      GatherStep(texts, i, skillId);
      questions := questions + found;
    }
    assert texts[..|texts|] == texts;
  }

  /** The inner loop of the gathering: the questions of one passage on the
      skill, tagged, in order. */
  method GatherFromPassage(t: Passage, skillId: int) returns (found: seq<Question>)
    ensures found == GatherFrom(t, t.questions, skillId)
  {
    found := [];
    for j := 0 to |t.questions|
      invariant found == GatherFrom(t, t.questions[..j], skillId)
    {
      var q := t.questions[j];
      GatherFromStep(t, t.questions, j, skillId);
      if q.skillId == skillId {
        found := found + [Tagged(t, q)];
      }
    }
    assert t.questions[..|t.questions|] == t.questions;
  }

  lemma GatherStep(texts: seq<Passage>, i: int, skillId: int)
    requires 0 <= i < |texts|
    ensures Gather(texts[..i + 1], skillId) == Gather(texts[..i], skillId) + GatherFrom(texts[i], texts[i].questions, skillId)
  {
    assert texts[..i + 1][..i] == texts[..i];
  }

  lemma GatherFromStep(t: Passage, qs: seq<Question>, j: int, skillId: int)
    requires 0 <= j < |qs|
    ensures GatherFrom(t, qs[..j + 1], skillId)
      == GatherFrom(t, qs[..j], skillId) + (if qs[j].skillId == skillId then [Tagged(t, qs[j])] else [])
  {
    assert qs[..j + 1][..j] == qs[..j];
  }

  /** Appending the shuffle of question `k` extends a pointwise shuffle of
      the first `k` questions to the first `k + 1`. */
  lemma ShuffledAppend(prev: seq<Question>, sq: Question, qs: seq<Question>, k: int)
    requires 0 <= k < |qs| && |prev| == k
    requires forall m :: 0 <= m < k ==> ShuffledFrom(prev[m], qs[m])
    requires forall m :: 0 <= m < k ==> prev[m].skillId == qs[m].skillId && prev[m].provenance == qs[m].provenance
    requires ShuffledFrom(sq, qs[k]) && sq.skillId == qs[k].skillId && sq.provenance == qs[k].provenance
    ensures forall m :: 0 <= m < k + 1 ==> ShuffledFrom((prev + [sq])[m], qs[m])
    ensures forall m :: 0 <= m < k + 1 ==>
      (prev + [sq])[m].skillId == qs[m].skillId && (prev + [sq])[m].provenance == qs[m].provenance
  {
    forall m | 0 <= m < k + 1
      ensures ShuffledFrom((prev + [sq])[m], qs[m])
      ensures (prev + [sq])[m].skillId == qs[m].skillId && (prev + [sq])[m].provenance == qs[m].provenance
    {
      if m < k {
        assert (prev + [sq])[m] == prev[m];
      } else {
        assert (prev + [sq])[m] == sq;
      }
    }
  }

  /** Shuffles the choices of each question, keeping the order of the questions. */
  method ShuffleEach(qs: seq<Question>) returns (result: seq<Question>)
    requires forall q :: q in qs ==> |q.choices| == 4
    ensures |result| == |qs|
    ensures forall m :: 0 <= m < |qs| ==> ShuffledFrom(result[m], qs[m])
    ensures forall m :: 0 <= m < |qs| ==> result[m].skillId == qs[m].skillId && result[m].provenance == qs[m].provenance
  {
    result := [];
    for k := 0 to |qs|
      invariant |result| == k
      invariant forall m :: 0 <= m < k ==> ShuffledFrom(result[m], qs[m])
      invariant forall m :: 0 <= m < k ==> result[m].skillId == qs[m].skillId && result[m].provenance == qs[m].provenance
    {
      var sq := ShuffleQuestion(qs[k]);
      ShuffledAppend(result, sq, qs, k);
      result := result + [sq];
    }
  }

  lemma SubMultisetMembers(s: seq<Question>, t: seq<Question>)
    requires multiset(s) <= multiset(t)
    ensures forall q :: q in s ==> q in t
  {
    forall q | q in s
      ensures q in t
    {
      assert q in multiset(s);
    }
  }

  lemma ShuffledKeepsTags(result: seq<Question>, qs: seq<Question>, skillId: int)
    requires |result| == |qs|
    requires forall m :: 0 <= m < |qs| ==> result[m].skillId == qs[m].skillId && result[m].provenance == qs[m].provenance
    requires forall q :: q in qs ==> q.skillId == skillId && q.provenance.Some?
    ensures forall q :: q in result ==> q.skillId == skillId && q.provenance.Some?
  {
    forall q | q in result
      ensures q.skillId == skillId && q.provenance.Some?
    {
      var m :| 0 <= m < |result| && result[m] == q;
      assert qs[m] in qs;
    }
  }

  /** Each question of `drill` is a choice-shuffled copy of a distinct
      question of `pool`. */
  ghost predicate DrawnFrom(drill: seq<Question>, pool: seq<Question>)
  {
    exists chosen: seq<Question> ::
      && |chosen| == |drill|
      && multiset(chosen) <= multiset(pool)
      && forall k :: 0 <= k < |chosen| ==> ShuffledFrom(drill[k], chosen[k])
  }

  lemma DrawnFromWitness(drill: seq<Question>, chosen: seq<Question>, pool: seq<Question>)
    requires |chosen| == |drill| && multiset(chosen) <= multiset(pool)
    requires forall k :: 0 <= k < |chosen| ==> ShuffledFrom(drill[k], chosen[k])
    ensures DrawnFrom(drill, pool)
  {
  }

  /** Builds a skill drill: gathers every question on the skill from every
      passage (tagged with its passage), re-checks the skill of each, shuffles
      them, keeps the first `maxQuestions || 15`, and shuffles the choices of
      each kept question. */
  method GetQuestionsForSkill(texts: seq<Passage>, skillId: int, maxQuestions: int) returns (r: Drill)
    requires FourChoices(texts)
    ensures r.Rejected? <==> |MatchingOnly(Gather(texts, skillId), skillId)| != |Gather(texts, skillId)|
    ensures r.Rejected? ==> r.error == ValidationError
    ensures r.Drill? ==> r.count == |Gather(texts, skillId)|
    ensures r.Drill? ==> |r.questions| == SliceEnd(r.count, OrDefault(maxQuestions, 15))
    ensures r.Drill? ==> forall q :: q in r.questions ==> q.skillId == skillId && q.provenance.Some?
    ensures r.Drill? ==> DrawnFrom(r.questions, Gather(texts, skillId))
  {
    var questions := GatherQuestions(texts, skillId);
    var validated := MatchingOnly(questions, skillId);
    if |validated| != |questions| {
      return Rejected(ValidationError);
    }
    var shuffled := ShuffleArray(validated);
    var end := SliceEnd(|shuffled|, OrDefault(maxQuestions, 15));
    var selected := shuffled[..end];
    PrefixSubMultiset(shuffled, end);
    assert multiset(selected) <= multiset(questions);
    SubMultisetMembers(selected, questions);
    var result := ShuffleEach(selected);
    ShuffledKeepsTags(result, selected, skillId);
    DrawnFromWitness(result, selected, questions);
    r := Drill(result, |validated|);
  }

  // ----- Answers: per-skill history and mastery -----

  /** Number of correct outcomes. */
  function CountTrue(s: seq<bool>): (n: nat)
    ensures n <= |s|
  {
    if s == [] then 0 else CountTrue(s[..|s| - 1]) + (if s[|s| - 1] then 1 else 0)
  }

  lemma {:induction false} CountTrueExtremes(s: seq<bool>)
    ensures CountTrue(s) == |s| <==> forall k :: 0 <= k < |s| ==> s[k]
    ensures CountTrue(s) == 0 <==> forall k :: 0 <= k < |s| ==> !s[k]
  {
    if s != [] {
      CountTrueExtremes(s[..|s| - 1]);
      assert forall k :: 0 <= k < |s| - 1 ==> s[..|s| - 1][k] == s[k];
    }
  }

  /** `slice(-n)` for n > 0: the newest `n` outcomes, or all of them. */
  function Newest(s: seq<bool>, n: nat): (r: seq<bool>)
    ensures |r| == Min(|s|, n) && r == s[|s| - |r|..]
  {
    if |s| > n then s[|s| - n..] else s
  }

  /** The mastery of a history: the rounded percentage of correct outcomes
      among the newest three. */
  function MasteryOf(attempts: seq<bool>): int
    requires |attempts| > 0
  {
    var last := Newest(attempts, 3);
    RoundPercent(CountTrue(last), |last|)
  }

  /** Mastery is a percentage; it is 100 exactly when each of the newest
      (up to) three outcomes is correct and 0 exactly when none is. */
  lemma MasteryRange(attempts: seq<bool>)
    requires |attempts| > 0
    ensures 0 <= MasteryOf(attempts) <= 100
    ensures var n := |attempts|;
      && (MasteryOf(attempts) == 100 <==> forall k :: n - Min(n, 3) <= k < n ==> attempts[k])
      && (MasteryOf(attempts) == 0 <==> forall k :: n - Min(n, 3) <= k < n ==> !attempts[k])
  {
    var last := Newest(attempts, 3);
    var n := |attempts|;
    RoundPercentRange(CountTrue(last), |last|);
    RoundPercentExtremes(CountTrue(last), |last|);
    CountTrueExtremes(last);
    assert forall k :: n - |last| <= k < n ==> attempts[k] == last[k - (n - |last|)];
  }

  /** With at most three outcomes counted, mastery is one of 0, 33, 50, 67, 100. */
  lemma MasteryValues(attempts: seq<bool>)
    requires |attempts| > 0
    ensures MasteryOf(attempts) in {0, 33, 50, 67, 100}
  {
    var last := Newest(attempts, 3);
    SmallPercent(CountTrue(last), |last|);
  }

  lemma SmallPercent(a: int, b: int)
    requires 1 <= b <= 3 && 0 <= a <= b
    ensures RoundPercent(a, b) in {0, 33, 50, 67, 100}
  {
    if a == 0 {
      assert RoundPercent(0, b) == b / (2 * b) == 0;
    } else if a == b {
      assert RoundPercent(b, b) == 201 * b / (2 * b) == 100;
    } else if b == 2 {
      assert RoundPercent(1, 2) == 50;
    } else if a == 1 {
      assert RoundPercent(1, 3) == 33;
    } else {
      assert RoundPercent(2, 3) == 67;
    }
  }

  /** The skill record after one more outcome: the history keeps the newest
      ten, the counters grow, and mastery is recomputed from the newest three. */
  function RecordAnswer(rec: SkillRecord, isCorrect: bool): (r: SkillRecord)
  {
    var attempts := Newest(rec.attempts + [isCorrect], 10);
    SkillRecord(attempts, MasteryOf(attempts),
                if isCorrect then rec.totalCorrect + 1 else rec.totalCorrect,
                rec.totalAnswered + 1)
  }

  /** One answer appends its outcome to the history and keeps its last ten
      (so a stored history of any length is cut back to ten); the answered
      counter grows by one and the correct counter exactly when the answer is
      correct. */
  lemma RecordAnswerSpec(rec: SkillRecord, isCorrect: bool)
    ensures var r := RecordAnswer(rec, isCorrect);
      && |r.attempts| == Min(|rec.attempts| + 1, 10)
      && r.attempts[|r.attempts| - 1] == isCorrect
      && r.attempts[..|r.attempts| - 1] == Newest(rec.attempts, 9)
      && r.totalAnswered == rec.totalAnswered + 1
      && (r.totalCorrect == rec.totalCorrect + 1 <==> isCorrect)
      && (!isCorrect ==> r.totalCorrect == rec.totalCorrect)
      && 0 <= r.mastery <= 100
  {
    WindowAfter(rec.attempts, isCorrect);
    MasteryRange(RecordAnswer(rec, isCorrect).attempts);
  }

  /** The ten-answer window after one more outcome: the newest nine before
      it, then the outcome. */
  lemma WindowAfter(a: seq<bool>, c: bool)
    ensures var w := Newest(a + [c], 10);
      && |w| == Min(|a| + 1, 10)
      && w[|w| - 1] == c
      && w[..|w| - 1] == Newest(a, 9)
  {
    var h := a + [c];
    var w := Newest(h, 10);
    assert w[..|w| - 1] == h[|h| - |w|..|h| - 1];
    assert h[|h| - |w|..|h| - 1] == a[|a| - (|w| - 1)..];
  }

  /** Keeping the newest ten then appending then keeping ten again is the
      same as appending to the full history. */
  lemma NewestSlide(h: seq<bool>, c: bool)
    ensures Newest(Newest(h, 10) + [c], 10) == Newest(h + [c], 10)
  {
    if |h| > 10 {
      var tail := h[|h| - 9..];
      assert Newest(h, 10) + [c] == [h[|h| - 10]] + tail + [c];
      assert Newest(h + [c], 10) == (h + [c])[|h| - 9..];
      assert (h + [c])[|h| - 9..] == tail + [c];
      assert ([h[|h| - 10]] + tail + [c])[1..] == tail + [c];
    }
  }

  lemma NewestNewest(h: seq<bool>)
    ensures Newest(Newest(h, 10), 3) == Newest(h, 3)
  {
  }

  /** The record after answering `outcomes` in order. */
  function Replay(rec: SkillRecord, outcomes: seq<bool>): SkillRecord
  {
    if outcomes == [] then rec
    else RecordAnswer(Replay(rec, outcomes[..|outcomes| - 1]), outcomes[|outcomes| - 1])
  }

  /** From a fresh record, any answer sequence leaves the newest ten outcomes
      as history, counts every answer and every correct one, and a mastery
      computed from the newest three outcomes of the whole sequence. */
  lemma {:induction false} ReplayFromFresh(outcomes: seq<bool>)
    ensures var r := Replay(SkillRecord([], 0, 0, 0), outcomes);
      && r.attempts == Newest(outcomes, 10)
      && r.totalAnswered == |outcomes|
      && r.totalCorrect == CountTrue(outcomes)
      && (|outcomes| > 0 ==> r.mastery == MasteryOf(outcomes))
  {
    if outcomes != [] {
      var h := outcomes[..|outcomes| - 1];
      var c := outcomes[|outcomes| - 1];
      assert outcomes == h + [c];
      ReplayFromFresh(h);
      NewestSlide(h, c);
      NewestNewest(outcomes);
    }
  }

  // ----- Answers and completions: XP and level -----

  /** `Math.floor(xp / (xp_per_level || 200)) + 1`. */
  function LevelFor(xp: int, cfg: Config): (l: int)
    ensures XpPerLevel(cfg) > 0 && xp >= 0 ==> l >= 1
  {
    FloorDiv(xp, XpPerLevel(cfg)) + 1
  }

  /** With a positive level size, level L spans the XP range
      [(L-1)·size, L·size); so it never decreases as XP grows. */
  lemma LevelBand(xp: int, xp': int, cfg: Config)
    requires XpPerLevel(cfg) > 0
    ensures var per, l := XpPerLevel(cfg), LevelFor(xp, cfg);
      per * (l - 1) <= xp < per * l
    ensures xp <= xp' ==> LevelFor(xp, cfg) <= LevelFor(xp', cfg)
  {
    var per := XpPerLevel(cfg);
    var q, q' := FloorDiv(xp, per), FloorDiv(xp', per);
    assert per * (LevelFor(xp, cfg) - 1) == per * q;
    assert per * LevelFor(xp, cfg) == per * q + per;
    if xp <= xp' && q > q' {
      MulLt(per, q', q);
    }
  }

  function ProgressAfterAnswer(p: Progress, isCorrect: bool, cfg: Config): Progress
  {
    var xp := if isCorrect then p.xp + XpPerCorrect(cfg) else p.xp;
    p.(xp := xp, level := LevelFor(xp, cfg),
       totalCorrect := if isCorrect then p.totalCorrect + 1 else p.totalCorrect,
       totalAnswered := p.totalAnswered + 1)
  }

  function ProgressAfterCompletion(p: Progress, cfg: Config): Progress
  {
    var xp := p.xp + XpPerTextComplete(cfg);
    p.(xp := xp, level := LevelFor(xp, cfg), textsCompleted := p.textsCompleted + 1)
  }

  /** An answer earns `xp_per_correct || 10` only when correct, a completion
      earns `xp_per_text_complete || 50`; the counters grow by one; the level
      afterwards is always the level of the new XP; and with non-negative
      rewards neither XP nor (for a positive level size) the level decreases. */
  lemma ProgressRules(p: Progress, isCorrect: bool, cfg: Config)
    ensures var a := ProgressAfterAnswer(p, isCorrect, cfg);
      && a.xp == p.xp + (if isCorrect then XpPerCorrect(cfg) else 0)
      && a.level == LevelFor(a.xp, cfg)
      && a.totalAnswered == p.totalAnswered + 1
      && a.totalCorrect == p.totalCorrect + (if isCorrect then 1 else 0)
      && a.textsCompleted == p.textsCompleted
    ensures var c := ProgressAfterCompletion(p, cfg);
      && c.xp == p.xp + XpPerTextComplete(cfg)
      && c.level == LevelFor(c.xp, cfg)
      && c.textsCompleted == p.textsCompleted + 1
      && c.totalAnswered == p.totalAnswered && c.totalCorrect == p.totalCorrect
    ensures XpPerCorrect(cfg) >= 0 ==> ProgressAfterAnswer(p, isCorrect, cfg).xp >= p.xp
    ensures XpPerTextComplete(cfg) >= 0 ==> ProgressAfterCompletion(p, cfg).xp >= p.xp
    ensures XpPerCorrect(cfg) >= 0 && XpPerLevel(cfg) > 0 && p.level == LevelFor(p.xp, cfg) ==>
      ProgressAfterAnswer(p, isCorrect, cfg).level >= p.level
  {
    if XpPerCorrect(cfg) >= 0 && XpPerLevel(cfg) > 0 {
      LevelBand(p.xp, ProgressAfterAnswer(p, isCorrect, cfg).xp, cfg);
    }
  }

  /** Progress after answering `outcomes` in order. */
  function ReplayProgress(p: Progress, outcomes: seq<bool>, cfg: Config): Progress
  {
    if outcomes == [] then p
    else ProgressAfterAnswer(ReplayProgress(p, outcomes[..|outcomes| - 1], cfg), outcomes[|outcomes| - 1], cfg)
  }

  lemma MulSucc(n: int, x: int)
    ensures (n + 1) * x == n * x + x
  {
  }

  /** From the default progress, XP is the reward times the number of correct
      answers, and the level is the level of that XP. */
  lemma {:induction false} ReplayProgressFromDefault(outcomes: seq<bool>, cfg: Config)
    ensures var r := ReplayProgress(Progress(0, 1, 0, 0, 0), outcomes, cfg);
      && r.xp == CountTrue(outcomes) * XpPerCorrect(cfg)
      && r.totalCorrect == CountTrue(outcomes)
      && r.totalAnswered == |outcomes|
      && r.level == LevelFor(r.xp, cfg)
  {
    if outcomes != [] {
      var h := outcomes[..|outcomes| - 1];
      var c := outcomes[|outcomes| - 1];
      ReplayProgressFromDefault(h, cfg);
      var r0 := ReplayProgress(Progress(0, 1, 0, 0, 0), h, cfg);
      assert ReplayProgress(Progress(0, 1, 0, 0, 0), outcomes, cfg) == ProgressAfterAnswer(r0, c, cfg);
      assert CountTrue(outcomes) == CountTrue(h) + (if c then 1 else 0);
      MulSucc(CountTrue(h), XpPerCorrect(cfg));
    } else {
      assert FloorDiv(0, XpPerLevel(cfg)) == 0;
    }
  }

  /** The store after `processAnswer`: the skill's record (created empty when
      missing, whatever the id) takes the outcome, and progress is updated. */
  function AnswerEffect(data: Data, skillId: int, isCorrect: bool, cfg: Config): Data
  {
    data[SkillsKey := SkillsSlot(AnsweredSkills(ReadSkills(data), skillId, isCorrect))]
        [ProgressKey := ProgressSlot(ProgressAfterAnswer(ReadProgress(data), isCorrect, cfg))]
  }

  /** The skill map after one answer on `skillId`. */
  function AnsweredSkills(skills: map<int, SkillRecord>, skillId: int, isCorrect: bool): map<int, SkillRecord>
  {
    var rec := if skillId in skills then skills[skillId] else SkillRecord([], 0, 0, 0);
    skills[skillId := RecordAnswer(rec, isCorrect)]
  }

  lemma TwoWritesFrame(data: Data, s: map<int, SkillRecord>, p: Progress)
    ensures var d := data[SkillsKey := SkillsSlot(s)][ProgressKey := ProgressSlot(p)];
      && ReadSkills(d) == s && ReadProgress(d) == p
      && (forall k :: k != SkillsKey && k != ProgressKey ==> (k in d <==> k in data) && (k in data ==> d[k] == data[k]))
  {
    var d1 := data[SkillsKey := SkillsSlot(s)];
    WriteThenRead(d1, p, s, DailyState(None, 0, false, None), []);
    WriteThenRead(data, p, s, DailyState(None, 0, false, None), []);
    assert Get(d1[ProgressKey := ProgressSlot(p)], SkillsKey) == Get(d1, SkillsKey);
  }

  /** Answering adds the skill's record when missing, changes no other
      skill's record and counts the answer on the skill's record. */
  lemma AnsweredSkillsSpec(skills: map<int, SkillRecord>, skillId: int, isCorrect: bool)
    ensures var r := AnsweredSkills(skills, skillId, isCorrect);
      && r.Keys == skills.Keys + {skillId}
      && (forall s :: s in skills && s != skillId ==> r[s] == skills[s])
      && r[skillId].totalAnswered == (if skillId in skills then skills[skillId].totalAnswered else 0) + 1
  {
    var rec := if skillId in skills then skills[skillId] else SkillRecord([], 0, 0, 0);
    var updated := RecordAnswer(rec, isCorrect);
    assert updated.totalAnswered == rec.totalAnswered + 1;
    assert AnsweredSkills(skills, skillId, isCorrect) == skills[skillId := updated];
  }

  lemma AnswerEffectSpec(data: Data, skillId: int, isCorrect: bool, cfg: Config)
    ensures var d := AnswerEffect(data, skillId, isCorrect, cfg);
      && ReadSkills(d).Keys == ReadSkills(data).Keys + {skillId}
      && (forall s :: s in ReadSkills(data) && s != skillId ==> ReadSkills(d)[s] == ReadSkills(data)[s])
      && ReadSkills(d)[skillId].totalAnswered == (if skillId in ReadSkills(data) then ReadSkills(data)[skillId].totalAnswered else 0) + 1
      && ReadProgress(d).totalAnswered == ReadProgress(data).totalAnswered + 1
      && (forall k :: k != SkillsKey && k != ProgressKey ==> (k in d <==> k in data) && (k in data ==> d[k] == data[k]))
  {
    var skills := AnsweredSkills(ReadSkills(data), skillId, isCorrect);
    TwoWritesFrame(data, skills, ProgressAfterAnswer(ReadProgress(data), isCorrect, cfg));
    AnsweredSkillsSpec(ReadSkills(data), skillId, isCorrect);
  }

  /** The in-place update of one skill record: push the outcome, drop the
      oldest beyond ten, bump the counters, recompute mastery. */
  method UpdateRecord(rec: SkillRecord, isCorrect: bool) returns (r: SkillRecord)
    ensures r == RecordAnswer(rec, isCorrect)
  {
    var attempts := rec.attempts + [isCorrect];
    if |attempts| > 10 {
      attempts := attempts[|attempts| - 10..];
    }
    assert attempts == Newest(rec.attempts + [isCorrect], 10);
    var totalAnswered := rec.totalAnswered + 1;
    var totalCorrect := rec.totalCorrect;
    if isCorrect {
      totalCorrect := totalCorrect + 1;
    }
    var mastery := rec.mastery;
    var last := if |attempts| > 3 then attempts[|attempts| - 3..] else attempts;
    assert last == Newest(attempts, 3);
    if |last| > 0 {
      mastery := RoundPercent(CountTrue(last), |last|);
    }
    r := SkillRecord(attempts, mastery, totalCorrect, totalAnswered);
  }

  /** The in-place update of progress: XP and the correct counter on a
      correct answer, the answered counter, and the level of the new XP. */
  method UpdateProgress(p: Progress, isCorrect: bool, cfg: Config) returns (r: Progress)
    ensures r == ProgressAfterAnswer(p, isCorrect, cfg)
  {
    r := p;
    if isCorrect {
      r := r.(xp := r.xp + XpPerCorrect(cfg), totalCorrect := r.totalCorrect + 1);
    }
    r := r.(totalAnswered := r.totalAnswered + 1);
    r := r.(level := FloorDiv(r.xp, XpPerLevel(cfg)) + 1);
  }

  /** Records one answer: appends the outcome to the skill's history (kept to
      the newest ten), bumps its counters, recomputes its mastery from the
      newest three outcomes, and adds XP, counters and level to progress. */
  method ProcessAnswer(store: Store, skillId: int, isCorrect: bool, cfg: Config)
    returns (skills: map<int, SkillRecord>, progress: Progress)
    modifies store
    ensures store.data == AnswerEffect(old(store.data), skillId, isCorrect, cfg)
    ensures skills == ReadSkills(store.data) && progress == ReadProgress(store.data)
  {
    skills := store.GetSkillData();
    progress := store.GetProgress();
    skills := AnswerSkill(skills, skillId, isCorrect);
    progress := UpdateProgress(progress, isCorrect, cfg);
    store.SetSkillData(skills);
    store.SetProgress(progress);
    TwoWritesFrame(old(store.data), skills, progress);
  }

  /** The skill-map part of `processAnswer`: an empty record is created for
      a skill not seen before, then the record takes the outcome. */
  method AnswerSkill(skills: map<int, SkillRecord>, skillId: int, isCorrect: bool) returns (r: map<int, SkillRecord>)
    ensures r == AnsweredSkills(skills, skillId, isCorrect)
  {
    var rec := if skillId in skills then skills[skillId] else SkillRecord([], 0, 0, 0);
    var updated := UpdateRecord(rec, isCorrect);
    r := skills[skillId := updated];
  }

  /** The store after `completeText`: progress gains the completion, the
      passage's record is updated, the roster snapshot is saved and badges are
      checked. */
  function CompletionEffect(data: Data, textId: string, score: int, cfg: Config, now: string): Data
  {
    var withProgress := data[ProgressKey := ProgressSlot(ProgressAfterCompletion(ReadProgress(data), cfg))];
    BadgesAwarded(SnapshotSaved(CompletionAdded(withProgress, textId, score, now), now))
  }

  /** Finishes a passage: completion bonus XP, completed count and level,
      then the passage record, the roster snapshot and the badge check. */
  method CompleteText(store: Store, textId: string, score: int, cfg: Config, now: string) returns (progress: Progress)
    modifies store
    ensures progress == ProgressAfterCompletion(ReadProgress(old(store.data)), cfg)
    ensures store.data == CompletionEffect(old(store.data), textId, score, cfg, now)
  {
    progress := store.GetProgress();
    progress := CompletionProgress(progress, cfg);
    store.SetProgress(progress);
    store.AddCompletedText(textId, score, now);
    store.SaveStudentSnapshot(now);
    var _ := CheckBadges(store);
  }

  /** The progress part of `completeText`: one more passage, the bonus XP
      and the level of the new XP. */
  method CompletionProgress(p: Progress, cfg: Config) returns (r: Progress)
    ensures r == ProgressAfterCompletion(p, cfg)
  {
    r := p.(textsCompleted := p.textsCompleted + 1);
    r := r.(xp := r.xp + XpPerTextComplete(cfg));
    r := r.(level := FloorDiv(r.xp, XpPerLevel(cfg)) + 1);
  }

  // ----- Badges -----

  datatype Badge = Badge(id: string, name: string, icon: string, skills: seq<int>)

  /** The ten badges, each for a group of skills. */
  function BadgeDefinitions(): (defs: seq<Badge>)
    ensures |defs| == 10
  {
    [ Badge("vocab", "بطل المفردات", "📚", [1, 2, 3, 4]),
      Badge("direct", "بطل الفهم المباشر", "🎯", [5]),
      Badge("analysis", "بطل التحليل والمقارنة", "🔍", [6, 7]),
      Badge("narrative", "بطل السرد", "📖", [8]),
      Badge("reality", "بطل الربط بالواقع", "🌍", [9]),
      Badge("taste", "بطل الذائقة", "✨", [10]),
      Badge("opinion", "بطل الرأي والنقد", "💬", [11, 12]),
      Badge("creative", "بطل الإبداع", "🎨", [13]),
      Badge("persuade", "بطل الإقناع", "🎤", [14]),
      Badge("solutions", "بطل الحلول", "💡", [15]) ]
  }

  /** The ten badges split the skills 1..15 between them: every skill of a
      badge is in 1..15, and each of 1..15 belongs to exactly one badge. */
  lemma BadgePartition(s: int)
    ensures var defs := BadgeDefinitions();
      && ((exists i :: 0 <= i < |defs| && s in defs[i].skills) <==> s in SkillIds)
      && (forall i, j :: 0 <= i < j < |defs| && s in defs[i].skills ==> s !in defs[j].skills)
  {
    var defs := BadgeDefinitions();
    if s in SkillIds {
      var i := if s <= 4 then 0 else if s == 5 then 1 else if s <= 7 then 2 else if s <= 10 then s - 5
               else if s <= 12 then 6 else s - 6;
      assert s in defs[i].skills;
    }
  }

  /** No two badges share an identifier. */
  lemma BadgeIdsDistinct()
    ensures var defs := BadgeDefinitions();
      forall i, j :: 0 <= i < j < |defs| ==> defs[i].id != defs[j].id
  {
  }

  /** Every listed skill exists with mastery at least 80. */
  predicate AllMastered(skills: map<int, SkillRecord>, ids: seq<int>)
  {
    forall s :: s in ids ==> s in skills && skills[s].mastery >= 80
  }

  /** Ids of the badges of `defs` whose skills are all mastered and that are
      not yet held, in definition order. */
  function NewBadges(defs: seq<Badge>, skills: map<int, SkillRecord>, held: seq<string>): (r: seq<string>)
    ensures |r| <= |defs|
    ensures forall id :: id in r ==> id !in held
  {
    if defs == [] then []
    else
      var d := defs[|defs| - 1];
      NewBadges(defs[..|defs| - 1], skills, held) + (if AllMastered(skills, d.skills) && d.id !in held then [d.id] else [])
  }

  /** A badge is newly earned exactly when it is defined, all its skills are
      mastered, and it is not already held. */
  lemma {:induction false} NewBadgesMembers(defs: seq<Badge>, skills: map<int, SkillRecord>, held: seq<string>, id: string)
    ensures id in NewBadges(defs, skills, held) <==>
      exists d :: d in defs && d.id == id && AllMastered(skills, d.skills) && id !in held
  {
    if defs != [] {
      var init := defs[..|defs| - 1];
      NewBadgesMembers(init, skills, held, id);
      assert defs == init + [defs[|defs| - 1]];
    }
  }

  lemma {:induction false} NoneQualify(defs: seq<Badge>, skills: map<int, SkillRecord>, held: seq<string>)
    requires forall d :: d in defs ==> !AllMastered(skills, d.skills) || d.id in held
    ensures NewBadges(defs, skills, held) == []
  {
    if defs != [] {
      assert defs[|defs| - 1] in defs;
      assert forall d :: d in defs[..|defs| - 1] ==> d in defs;
      NoneQualify(defs[..|defs| - 1], skills, held);
    }
  }

  /** Checking again right after awarding finds nothing new. */
  lemma NewBadgesIdempotent(defs: seq<Badge>, skills: map<int, SkillRecord>, held: seq<string>)
    ensures NewBadges(defs, skills, held + NewBadges(defs, skills, held)) == []
  {
    var earned := NewBadges(defs, skills, held);
    forall d | d in defs
      ensures !AllMastered(skills, d.skills) || d.id in held + earned
    {
      NewBadgesMembers(defs, skills, held, d.id);
    }
    NoneQualify(defs, skills, held + earned);
  }

  /** The store after `checkBadges`: newly earned badges appended to the held list. */
  function BadgesAwarded(data: Data): (d: Data)
    ensures forall k :: k != BadgesKey ==> (k in d <==> k in data) && (k in data ==> d[k] == data[k])
  {
    var earned := NewBadges(BadgeDefinitions(), ReadSkills(data), ReadBadges(data));
    if |earned| > 0 then data[BadgesKey := BadgesSlot(ReadBadges(data) + earned)] else data
  }

  /** Awarding keeps every held badge (the held list is a prefix of the new
      one), changes nothing but the badge list, and a second check right
      after awards nothing and changes nothing. */
  lemma BadgesAwardedSpec(data: Data)
    ensures var d := BadgesAwarded(data);
      && ReadBadges(data) <= ReadBadges(d)
      && ReadSkills(d) == ReadSkills(data)
      && (forall k :: k != BadgesKey ==> (k in d <==> k in data) && (k in data ==> d[k] == data[k]))
      && NewBadges(BadgeDefinitions(), ReadSkills(d), ReadBadges(d)) == []
      && BadgesAwarded(d) == d
  {
    var earned := NewBadges(BadgeDefinitions(), ReadSkills(data), ReadBadges(data));
    NewBadgesIdempotent(BadgeDefinitions(), ReadSkills(data), ReadBadges(data));
    if |earned| == 0 {
      assert ReadBadges(data) + earned == ReadBadges(data);
    } else {
      BadgesWriteFrame(data, ReadBadges(data) + earned);
    }
  }

  /** Writing the badge list is read back and leaves the skills as they were. */
  lemma BadgesWriteFrame(data: Data, b: seq<string>)
    ensures ReadBadges(data[BadgesKey := BadgesSlot(b)]) == b
    ensures ReadSkills(data[BadgesKey := BadgesSlot(b)]) == ReadSkills(data)
  {
    assert Get(data[BadgesKey := BadgesSlot(b)], SkillsKey) == Get(data, SkillsKey);
  }

  /** Awards every defined badge whose skills are all mastered (80 or more)
      and that is not yet held; returns the newly earned ids. */
  method CheckBadges(store: Store) returns (earned: seq<string>)
    modifies store
    ensures earned == NewBadges(BadgeDefinitions(), ReadSkills(old(store.data)), ReadBadges(old(store.data)))
    ensures store.data == BadgesAwarded(old(store.data))
  {
    var skills := store.GetSkillData();
    var badges := store.GetBadges();
    var defs := BadgeDefinitions();
    earned := [];
    for i := 0 to |defs|
      invariant earned == NewBadges(defs[..i], skills, badges)
    {
      var bd := defs[i];
      assert defs[..i + 1][..i] == defs[..i];
      if AllMastered(skills, bd.skills) && bd.id !in badges {
        earned := earned + [bd.id];
      }
    }
    assert defs[..|defs|] == defs;
    if |earned| > 0 {
      store.SetBadges(badges + earned);
    }
  }

  // ----- Certificate eligibility -----

  function MinTexts(cfg: Config): int { OrDefault(cfg.certificate.minTexts, 10) }
  function MinAvgPercent(cfg: Config): int { OrDefault(cfg.certificate.minAvgPercent, 80) }
  function MasteryThreshold(cfg: Config): int { OrDefault(cfg.certificate.masteryThreshold, 80) }

  /** The overall average, rounded: 0 when nothing has been answered. */
  function AveragePercent(correct: int, answered: int): (pct: int)
    ensures answered <= 0 ==> pct == 0
    ensures 0 <= correct <= answered ==> 0 <= pct <= 100
  {
    if answered <= 0 then 0
    else
      assert 0 <= correct <= answered ==> 0 <= RoundPercent(correct, answered) <= 100 by {
        if 0 <= correct <= answered {
          RoundPercentRange(correct, answered);
        }
      }
      RoundPercent(correct, answered)
  }

  datatype Eligibility = Eligibility(
    eligible: bool, allMastered: bool, enoughTexts: bool, goodAvg: bool,
    textsCompleted: int, minTexts: int, avgPercent: int, minAvg: int,
    masteryDetails: map<int, SkillRecord>)

  /** The certificate report: every skill present in the skill map at the
      mastery threshold, enough passages, and a high enough average. */
  function CertificateEligibility(data: Data, cfg: Config): (e: Eligibility)
    ensures e.eligible <==> e.allMastered && e.enoughTexts && e.goodAvg
    ensures e.allMastered <==> forall k :: k in ReadSkills(data) ==> ReadSkills(data)[k].mastery >= MasteryThreshold(cfg)
    ensures e.enoughTexts <==> ReadProgress(data).textsCompleted >= e.minTexts
    ensures e.goodAvg <==> e.avgPercent >= e.minAvg
    ensures e.minTexts == MinTexts(cfg) && e.minAvg == MinAvgPercent(cfg)
    ensures e.avgPercent == AveragePercent(ReadProgress(data).totalCorrect, ReadProgress(data).totalAnswered)
    ensures e.textsCompleted == ReadProgress(data).textsCompleted && e.masteryDetails == ReadSkills(data)
  {
    var progress := ReadProgress(data);
    var skills := ReadSkills(data);
    var threshold := MasteryThreshold(cfg);
    var allMastered := forall k :: k in skills ==> skills[k].mastery >= threshold;
    var enoughTexts := progress.textsCompleted >= MinTexts(cfg);
    var avg := AveragePercent(progress.totalCorrect, progress.totalAnswered);
    var goodAvg := avg >= MinAvgPercent(cfg);
    Eligibility(allMastered && enoughTexts && goodAvg, allMastered, enoughTexts, goodAvg,
                progress.textsCompleted, MinTexts(cfg), avg, MinAvgPercent(cfg), skills)
  }

  /** Without certificate settings the thresholds are 10 passages, 80% average
      and mastery 80. */
  lemma EligibilityDefaults(data: Data, cfg: Config)
    requires cfg.certificate == CertificateConfig(0, 0, 0)
    ensures var e := CertificateEligibility(data, cfg);
      e.minTexts == 10 && e.minAvg == 80 && MasteryThreshold(cfg) == 80
  {
  }

  /** Under any settings, a student who has answered nothing has average 0,
      and so is not eligible while the average threshold is positive. */
  lemma NothingAnsweredNotEligible(data: Data, cfg: Config)
    requires ReadProgress(data).totalAnswered <= 0
    ensures CertificateEligibility(data, cfg).avgPercent == 0
    ensures MinAvgPercent(cfg) > 0 ==> !CertificateEligibility(data, cfg).eligible
  {
  }

  /** A fresh student is never eligible: the default skill map holds all
      fifteen skills at mastery 0, which fails any positive threshold. */
  lemma FreshStudentNotEligible(data: Data, cfg: Config)
    requires forall k :: Unusable(data, k)
    requires MasteryThreshold(cfg) > 0
    ensures !CertificateEligibility(data, cfg).eligible
    ensures !CertificateEligibility(data, cfg).allMastered
  {
    FreshStartDefaults(data);
    assert 1 in SkillIds;
    assert ReadSkills(data)[1].mastery == 0;
  }

  /** The check only looks at skills present in the stored map: a stored map
      without any skill counts as all mastered. */
  lemma EmptySkillMapCountsAsMastered(data: Data, cfg: Config)
    requires Get(data, SkillsKey) == Some(SkillsSlot(map[]))
    ensures CertificateEligibility(data, cfg).allMastered
  {
  }

  // ----- Verification identifiers -----

  /** 32 symbols: the capital letters without I and O, and the digits 2..9. */
  const IdAlphabet := "ABCDEFGHJKLMNPQRSTUVWXYZ23456789"

  predicate IsVerificationId(id: string)
  {
    |id| == 11 && id[..3] == "RH-" && forall k :: 3 <= k < 11 ==> id[k] in IdAlphabet
  }

  /** A symbol the verification alphabet allows: a capital letter other
      than I and O, or a digit from 2 to 9 (the look-alikes I, O, 0 and 1 are
      left out). */
  predicate Unambiguous(c: char)
  {
    ('A' <= c <= 'Z' && c != 'I' && c != 'O') || ('2' <= c <= '9')
  }

  /** The alphabet has 32 symbols, exactly the unambiguous ones. */
  lemma IdAlphabetFacts()
    ensures |IdAlphabet| == 32
    ensures forall c :: c in IdAlphabet <==> Unambiguous(c)
  {
    assert forall k :: 0 <= k < |IdAlphabet| ==> Unambiguous(IdAlphabet[k]);
  }

  /** "RH-" followed by eight random symbols of the alphabet. */
  method GenerateVerificationId() returns (id: string)
    ensures IsVerificationId(id)
  {
    id := "RH-";
    for i := 0 to 8
      invariant |id| == 3 + i && id[..3] == "RH-"
      invariant forall k :: 3 <= k < |id| ==> id[k] in IdAlphabet
    {
      var k :| 0 <= k < |IdAlphabet|;
      id := id + [IdAlphabet[k]];
    }
  }

  // ----- CSV cells -----

  /** Characters that make a spreadsheet read a cell as a formula. */
  predicate IsFormulaLead(c: char)
  {
    c == '=' || c == '+' || c == '-' || c == '@' || c == '\t' || c == '\r'
  }

  /** The cell text with a leading apostrophe when it would start a formula. */
  function Defused(s: string): string
  {
    if |s| > 0 && IsFormulaLead(s[0]) then "'" + s else s
  }

  /** Every '"' doubled. */
  function DoubleQuotes(s: string): (r: string)
    ensures |r| >= |s|
  {
    if s == [] then [] else (if s[0] == '"' then "\"\"" else [s[0]]) + DoubleQuotes(s[1..])
  }

  predicate NeedsQuoting(s: string)
  {
    '"' in s || ',' in s || '\n' in s
  }

  /** Escapes a value for a CSV export: a formula lead is neutralised with an
      apostrophe, and a value holding a quote, comma or line break is quoted
      with its quotes doubled. */
  function SanitizeCsvCell(s: string): (r: string)
    ensures |r| > 0 ==> !IsFormulaLead(r[0])
    ensures |r| == 0 <==> |s| == 0
    ensures NeedsQuoting(r) ==> |r| >= 2 && r[0] == '"' && r[|r| - 1] == '"'
  {
    var d := Defused(s);
    if NeedsQuoting(d) then "\"" + DoubleQuotes(d) + "\"" else d
  }

  /** Reads doubled quotes back as single ones. */
  function UndoubleQuotes(s: string): string
  {
    if |s| >= 2 && s[0] == '"' && s[1] == '"' then "\"" + UndoubleQuotes(s[2..])
    else if s == [] then []
    else [s[0]] + UndoubleQuotes(s[1..])
  }

  /** How a spreadsheet reads one field: a quoted field loses its enclosing
      quotes and has its doubled quotes undone; any other field is taken as is. */
  function ReadCsvField(f: string): string
  {
    if |f| >= 2 && f[0] == '"' && f[|f| - 1] == '"' then UndoubleQuotes(f[1..|f| - 1]) else f
  }

  lemma {:induction false} UndoubleDouble(s: string)
    ensures UndoubleQuotes(DoubleQuotes(s)) == s
  {
    if s != [] {
      UndoubleDouble(s[1..]);
      if s[0] == '"' {
        assert DoubleQuotes(s) == "\"\"" + DoubleQuotes(s[1..]);
      } else {
        assert DoubleQuotes(s) == [s[0]] + DoubleQuotes(s[1..]);
      }
    }
  }

  /** A sanitised cell reads back as the (defused) value. */
  lemma CsvRoundTrip(s: string)
    ensures ReadCsvField(SanitizeCsvCell(s)) == Defused(s)
  {
    var d := Defused(s);
    if NeedsQuoting(d) {
      var f := "\"" + DoubleQuotes(d) + "\"";
      assert f[1..|f| - 1] == DoubleQuotes(d);
      UndoubleDouble(d);
    } else {
      assert !(|d| >= 2 && d[0] == '"');
    }
  }
}
