/** The application layer without its views: the play session (a state
    machine over the current game), the end-of-game report aggregation, the
    dashboard's weakest-skills pick, and the certificate page's reuse and
    verification rules. */
module App {
  import opened Common
  import opened Catalog
  import opened Storage
  import opened Engine
  import Ui
  import Cert

  // ----- Certificate verification -----

  /** The characters `String.prototype.trim` removes: white space and line
      terminators. */
  predicate IsJsSpace(c: char)
  {
    c == '\t' || c == '\n' || c == '\U{000B}' || c == '\U{000C}' || c == '\r' || c == ' '
    || c == '\U{00A0}' || c == '\U{1680}' || ('\U{2000}' <= c <= '\U{200A}')
    || c == '\U{2028}' || c == '\U{2029}' || c == '\U{202F}' || c == '\U{205F}'
    || c == '\U{3000}' || c == '\U{FEFF}'
  }

  function TrimStart(s: string): (r: string)
    ensures |r| <= |s| && r == s[|s| - |r|..]
    ensures forall k :: 0 <= k < |s| - |r| ==> IsJsSpace(s[k])
    ensures |r| > 0 ==> !IsJsSpace(r[0])
  {
    if |s| > 0 && IsJsSpace(s[0]) then TrimStart(s[1..]) else s
  }

  function TrimEnd(s: string): (r: string)
    ensures |r| <= |s| && r == s[..|r|]
    ensures forall k :: |r| <= k < |s| ==> IsJsSpace(s[k])
    ensures |r| > 0 ==> !IsJsSpace(r[|r| - 1])
  {
    if |s| > 0 && IsJsSpace(s[|s| - 1]) then TrimEnd(s[..|s| - 1]) else s
  }

  /** `String.prototype.trim`. */
  function Trim(s: string): string
  {
    TrimEnd(TrimStart(s))
  }

  /** Trimming removes exactly the surrounding white space: a text that
      neither starts nor ends with white space comes back from any padding. */
  lemma TrimPadding(pre: string, x: string, post: string)
    requires forall k :: 0 <= k < |pre| ==> IsJsSpace(pre[k])
    requires forall k :: 0 <= k < |post| ==> IsJsSpace(post[k])
    requires |x| > 0 ==> !IsJsSpace(x[0]) && !IsJsSpace(x[|x| - 1])
    ensures Trim(pre + x + post) == x
  {
    if |x| == 0 {
      assert pre + x + post == (pre + post) + x;
      TrimStartPadding(pre + post, x);
    } else {
      assert pre + x + post == pre + (x + post);
      TrimStartPadding(pre, x + post);
      TrimEndPadding(x, post);
    }
  }

  lemma {:induction false} TrimStartPadding(pre: string, s: string)
    requires forall k :: 0 <= k < |pre| ==> IsJsSpace(pre[k])
    requires |s| > 0 ==> !IsJsSpace(s[0])
    ensures TrimStart(pre + s) == s
  {
    if |pre| > 0 {
      assert (pre + s)[1..] == pre[1..] + s;
      TrimStartPadding(pre[1..], s);
    }
  }

  lemma {:induction false} TrimEndPadding(s: string, post: string)
    requires forall k :: 0 <= k < |post| ==> IsJsSpace(post[k])
    requires |s| > 0 ==> !IsJsSpace(s[|s| - 1])
    ensures TrimEnd(s + post) == s
  {
    if |post| > 0 {
      var p := post[..|post| - 1];
      assert (s + post)[..|s + post| - 1] == s + p;
      TrimEndPadding(s, p);
    } else {
      assert s + post == s;
    }
  }

  /** The verification page accepts an input exactly when a certificate is
      stored and its identifier equals the input without surrounding
      white space. */
  function VerifyCertificate(data: Data, input: string): (ok: bool)
    ensures ReadCert(data).None? ==> !ok
    ensures ok ==> Trim(input) == ReadCert(data).value.verificationId
  {
    ReadCert(data).Some? && ReadCert(data).value.verificationId == Trim(input)
  }

  /** An issued identifier is accepted however it is padded with white
      space, and nothing is accepted while no certificate is stored. */
  lemma VerifyIssued(data: Data, pre: string, post: string, input: string)
    requires ReadCert(data).Some? && IsVerificationId(ReadCert(data).value.verificationId)
    requires forall k :: 0 <= k < |pre| ==> IsJsSpace(pre[k])
    requires forall k :: 0 <= k < |post| ==> IsJsSpace(post[k])
    ensures VerifyCertificate(data, pre + ReadCert(data).value.verificationId + post)
    ensures VerifyCertificate(data, input) ==> Trim(input) == ReadCert(data).value.verificationId
  {
    var vid := ReadCert(data).value.verificationId;
    assert vid[0] == "RH-"[0];
    IdAlphabetFacts();
    assert vid[10] in IdAlphabet;
    TrimPadding(pre, vid, post);
  }

  lemma VerifyNeedsCertificate(data: Data, input: string)
    requires ReadCert(data).None?
    ensures !VerifyCertificate(data, input)
  {
  }

  // ----- Certificate page -----

  /** What the certificate page shows: the certificate, or the checklist of
      unmet requirements; `Broken` is the page failing for want of a profile. */
  datatype CertificatePage = Shown(cert: Certificate) | Pending(report: Eligibility) | Broken

  /** Storing a certificate does not change eligibility. */
  lemma EligibilityIgnoresCertificate(data: Data, c: Certificate, cfg: Config)
    ensures CertificateEligibility(data[CertKey := CertSlot(c)], cfg) == CertificateEligibility(data, cfg)
  {
    var d := data[CertKey := CertSlot(c)];
    assert Get(d, ProgressKey) == Get(data, ProgressKey);
    assert Get(d, SkillsKey) == Get(data, SkillsKey);
  }

  /** The certificate page: an eligible student sees the stored certificate
      if there is one, and only otherwise is a certificate issued (and
      stored, so the next visit shows the same one); a student not yet
      eligible sees the report. */
  method RenderCertificate(store: Store, cfg: Config, now: string) returns (page: CertificatePage)
    modifies store
    ensures var e := CertificateEligibility(old(store.data), cfg);
      !e.eligible ==> page == Pending(e) && store.data == old(store.data)
    ensures CertificateEligibility(old(store.data), cfg).eligible && ReadCert(old(store.data)).Some? ==>
      page == Shown(ReadCert(old(store.data)).value) && store.data == old(store.data)
    ensures CertificateEligibility(old(store.data), cfg).eligible && ReadCert(old(store.data)).None? ==>
      if ReadProfile(old(store.data)).None? then page == Broken && store.data == old(store.data)
      else
        && page.Shown?
        && IsVerificationId(page.cert.verificationId)
        && page.cert == Cert.CertificateFor(ReadProfile(old(store.data)).value, ReadProgress(old(store.data)),
                                            page.cert.verificationId, now)
        && ReadCert(store.data) == Some(page.cert)
        && CertificateEligibility(store.data, cfg).eligible
  {
    var eligibility := CertificateEligibility(store.data, cfg);
    if !eligibility.eligible {
      return Pending(eligibility);
    }
    var certData := store.GetCertData();
    if certData.None? {
      certData := Cert.GenerateCertificate(store, now);
      if certData.None? {
        return Broken;
      }
      Cert.StoredCertificateReadBack(old(store.data), certData.value);
      EligibilityIgnoresCertificate(old(store.data), certData.value, cfg);
    }
    page := Shown(certData.value);
  }

  // ----- Report: per-skill tallies -----

  /** One answer of a session: the question's skill, the chosen and the
      correct choice, and whether they agree. */
  datatype Answer = Answer(skillId: int, selected: int, correct: int, isCorrect: bool)

  datatype Tally = Tally(correct: int, total: int)

  /** Number of answers on skill `sid`. */
  function CountSkill(answers: seq<Answer>, sid: int): nat
  {
    if answers == [] then 0
    else CountSkill(answers[..|answers| - 1], sid) + (if answers[|answers| - 1].skillId == sid then 1 else 0)
  }

  /** Number of correct answers on skill `sid`. */
  function CountSkillCorrect(answers: seq<Answer>, sid: int): nat
  {
    if answers == [] then 0
    else
      var a := answers[|answers| - 1];
      CountSkillCorrect(answers[..|answers| - 1], sid) + (if a.skillId == sid && a.isCorrect then 1 else 0)
  }

  /** Builds the report's skill map: for every skill answered in the session,
      how many of its answers were correct out of how many. */
  method AggregateBySkill(answers: seq<Answer>) returns (skillMap: map<int, Tally>)
    ensures forall sid :: sid in skillMap <==> CountSkill(answers, sid) > 0
    ensures forall sid :: sid in skillMap ==>
      skillMap[sid] == Tally(CountSkillCorrect(answers, sid), CountSkill(answers, sid))
  {
    skillMap := map[];
    for i := 0 to |answers|
      invariant forall sid :: sid in skillMap <==> CountSkill(answers[..i], sid) > 0
      invariant forall sid :: sid in skillMap ==>
        skillMap[sid] == Tally(CountSkillCorrect(answers[..i], sid), CountSkill(answers[..i], sid))
    {
      var a := answers[i];
      CountStep(answers, i);
      TallyFacts(answers[..i], a.skillId);
      if a.skillId !in skillMap {
        skillMap := skillMap[a.skillId := Tally(0, 0)];
      }
      var t := skillMap[a.skillId];
      t := t.(total := t.total + 1);
      if a.isCorrect {
        t := t.(correct := t.correct + 1);
      }
      skillMap := skillMap[a.skillId := t];
    }
    assert answers[..|answers|] == answers;
  }

  lemma CountStep(answers: seq<Answer>, i: int)
    requires 0 <= i < |answers|
    ensures forall sid :: CountSkill(answers[..i + 1], sid) == CountSkill(answers[..i], sid) + (if answers[i].skillId == sid then 1 else 0)
    ensures forall sid :: CountSkillCorrect(answers[..i + 1], sid)
                          == CountSkillCorrect(answers[..i], sid) + (if answers[i].skillId == sid && answers[i].isCorrect then 1 else 0)
  {
    assert answers[..i + 1][..i] == answers[..i];
  }

  /** A skill has a tally exactly when some answer is on it, and its correct
      count never exceeds its total. */
  lemma {:induction false} TallyFacts(answers: seq<Answer>, sid: int)
    ensures CountSkillCorrect(answers, sid) <= CountSkill(answers, sid)
    ensures CountSkill(answers, sid) > 0 <==> exists k :: 0 <= k < |answers| && answers[k].skillId == sid
  {
    if answers != [] {
      var init := answers[..|answers| - 1];
      TallyFacts(init, sid);
      assert forall k :: 0 <= k < |init| ==> init[k] == answers[k];
    }
  }

  predicate Distinct(ids: seq<int>)
  {
    forall i, j :: 0 <= i < j < |ids| ==> ids[i] != ids[j]
  }

  /** The totals of the skills listed in `ids`, added up. */
  function SumTotals(answers: seq<Answer>, ids: seq<int>): int
  {
    if ids == [] then 0 else SumTotals(answers, ids[..|ids| - 1]) + CountSkill(answers, ids[|ids| - 1])
  }

  /** How often `x` occurs in `ids`. */
  function Hits(ids: seq<int>, x: int): nat
  {
    if ids == [] then 0 else Hits(ids[..|ids| - 1], x) + (if ids[|ids| - 1] == x then 1 else 0)
  }

  lemma {:induction false} HitsDistinct(ids: seq<int>, x: int)
    requires Distinct(ids)
    ensures Hits(ids, x) == (if x in ids then 1 else 0)
  {
    if ids != [] {
      var init := ids[..|ids| - 1];
      assert Distinct(init);
      HitsDistinct(init, x);
      assert ids == init + [ids[|ids| - 1]];
      if ids[|ids| - 1] == x {
        assert x !in init;
      }
    }
  }

  lemma {:induction false} SumTotalsStep(answers: seq<Answer>, a: Answer, ids: seq<int>)
    ensures SumTotals(answers + [a], ids) == SumTotals(answers, ids) + Hits(ids, a.skillId)
  {
    if ids != [] {
      SumTotalsStep(answers, a, ids[..|ids| - 1]);
      assert (answers + [a])[..|answers|] == answers;
    }
  }

  /** The per-skill totals add up to the number of answers: every answer is
      counted under exactly one skill. */
  lemma {:induction false} TotalsSum(answers: seq<Answer>, ids: seq<int>)
    requires Distinct(ids)
    requires forall k :: 0 <= k < |answers| ==> answers[k].skillId in ids
    ensures SumTotals(answers, ids) == |answers|
  {
    if answers == [] {
      TotalsOfNothing(ids);
    } else {
      var init := answers[..|answers| - 1];
      var a := answers[|answers| - 1];
      TotalsSum(init, ids);
      assert answers == init + [a];
      SumTotalsStep(init, a, ids);
      HitsDistinct(ids, a.skillId);
    }
  }

  lemma {:induction false} TotalsOfNothing(ids: seq<int>)
    ensures SumTotals([], ids) == 0
  {
    if ids != [] {
      TotalsOfNothing(ids[..|ids| - 1]);
    }
  }

  /** The skills the report suggests practising: those answered correctly
      less than half the time. */
  function WeakSkills(skillMap: map<int, Tally>): (weak: set<int>)
    ensures weak <= skillMap.Keys
    ensures forall sid :: sid in skillMap && skillMap[sid].total <= 0 && skillMap[sid].correct >= 0 ==> sid !in weak
    ensures forall sid :: sid in skillMap && 0 <= skillMap[sid].total <= skillMap[sid].correct ==> sid !in weak
  {
    set sid | sid in skillMap && 2 * skillMap[sid].correct < skillMap[sid].total
  }

  /** The suggestion agrees with the report's colours: a suggested skill
      never shows green, and one not suggested never shows red. */
  lemma WeakSkillColours(skillMap: map<int, Tally>, sid: int)
    requires sid in skillMap
    requires 0 <= skillMap[sid].correct <= skillMap[sid].total && skillMap[sid].total > 0
    ensures var t := skillMap[sid];
      && (sid in WeakSkills(skillMap) ==> Ui.MasteryColor(RoundPercent(t.correct, t.total)) != Ui.Green)
      && (sid !in WeakSkills(skillMap) ==> Ui.MasteryColor(RoundPercent(t.correct, t.total)) != Ui.Red)
  {
    var t := skillMap[sid];
    var r := RoundPercent(t.correct, t.total);
    if 2 * t.correct < t.total {
      if r >= 51 {
        MulLe(2 * t.total, 51, r);
      }
    } else {
      if r <= 49 {
        MulLe(2 * t.total, r + 1, 50);
      }
    }
  }

  // ----- Dashboard: the weakest skills -----

  /** A skill with the mastery the dashboard ranks it by. */
  datatype Entry = Entry(id: int, m: int)

  /** `skills[i]?.mastery || 0`: a skill without a record ranks as 0. */
  function MasteryOrZero(skills: map<int, SkillRecord>, i: int): int
  {
    if i in skills then OrDefault(skills[i].mastery, 0) else 0
  }

  predicate SortedByMastery(s: seq<Entry>)
  {
    forall i, j :: 0 <= i < j < |s| ==> s[i].m <= s[j].m
  }

  /** The dashboard's rank order: lower mastery first, and among equal
      mastery the lower id first (the ids enter the stable sort in order). */
  predicate Before(a: Entry, b: Entry)
  {
    a.m < b.m || (a.m == b.m && a.id < b.id)
  }

  /** Every entry ranks strictly ahead of the ones after it; in particular
      no skill appears twice. */
  predicate StrictlyRanked(s: seq<Entry>)
  {
    forall i, j :: 0 <= i < j < |s| ==> Before(s[i], s[j])
  }

  /** Inserts `e` after every entry of no greater mastery. */
  function Insert(e: Entry, s: seq<Entry>): (r: seq<Entry>)
    ensures multiset(r) == multiset(s) + multiset{e}
    ensures |r| == |s| + 1
  {
    if s == [] then [e]
    else if e.m < s[0].m then [e] + s
    else
      assert s == [s[0]] + s[1..];
      [s[0]] + Insert(e, s[1..])
  }

  lemma {:induction false} InsertSorted(e: Entry, s: seq<Entry>)
    requires SortedByMastery(s)
    ensures SortedByMastery(Insert(e, s))
  {
    if s != [] && e.m >= s[0].m {
      var t := s[1..];
      InsertSorted(e, t);
      var r := Insert(e, t);
      forall k | 0 <= k < |r|
        ensures s[0].m <= r[k].m
      {
        assert r[k] in multiset(t) + multiset{e};
        if r[k] != e {
          assert r[k] in t;
        }
      }
    }
  }

  /** Inserting an entry whose id is above every id present keeps the rank
      order strict: it lands after the entries of equal mastery. */
  lemma {:induction false} InsertStrict(e: Entry, s: seq<Entry>)
    requires StrictlyRanked(s)
    requires forall x :: x in s ==> x.id < e.id
    ensures StrictlyRanked(Insert(e, s))
  {
    if s != [] && e.m >= s[0].m {
      var t := s[1..];
      assert StrictlyRanked(t) by {
        forall i, j | 0 <= i < j < |t| ensures Before(t[i], t[j]) {
          assert t[i] == s[i + 1] && t[j] == s[j + 1];
        }
      }
      InsertStrict(e, t);
      var r := Insert(e, t);
      forall k | 0 <= k < |r|
        ensures Before(s[0], r[k])
      {
        assert r[k] in multiset(t) + multiset{e};
        if r[k] != e {
          assert r[k] in t;
          var j :| 0 <= j < |t| && t[j] == r[k];
          assert s[j + 1] == r[k];
        }
      }
      assert Insert(e, s) == [s[0]] + r;
    }
  }

  /** The stable sort by ascending mastery (`sort((a, b) => a.m - b.m)`). */
  function SortByMastery(s: seq<Entry>): (r: seq<Entry>)
    ensures multiset(r) == multiset(s) && |r| == |s|
    ensures SortedByMastery(r)
  {
    if s == [] then []
    else
      assert s == s[..|s| - 1] + [s[|s| - 1]];
      InsertSorted(s[|s| - 1], SortByMastery(s[..|s| - 1]));
      Insert(s[|s| - 1], SortByMastery(s[..|s| - 1]))
  }

  predicate IdsIncreasing(s: seq<Entry>)
  {
    forall i, j :: 0 <= i < j < |s| ==> s[i].id < s[j].id
  }

  /** Sorting entries that arrive in increasing id order yields the strict
      rank order: ties in mastery keep their id order. */
  lemma {:induction false} SortStrict(s: seq<Entry>)
    requires IdsIncreasing(s)
    ensures StrictlyRanked(SortByMastery(s))
  {
    if s != [] {
      var n := |s| - 1;
      IdsBelowLast(s);
      SortStrict(s[..n]);
      SortedIdsBelow(s[..n], s[n].id);
      InsertStrict(s[n], SortByMastery(s[..n]));
    }
  }

  /** In a list of increasing ids, the entries before the last have
      increasing ids and lower ids than the last one. */
  lemma IdsBelowLast(s: seq<Entry>)
    requires s != [] && IdsIncreasing(s)
    ensures IdsIncreasing(s[..|s| - 1])
    ensures forall x :: x in s[..|s| - 1] ==> x.id < s[|s| - 1].id
  {
    var init := s[..|s| - 1];
    forall x | x in init
      ensures x.id < s[|s| - 1].id
    {
      var k :| 0 <= k < |init| && init[k] == x;
      assert s[k] == x;
    }
  }

  /** Sorting does not bring in any id that was not below the bound. */
  lemma SortedIdsBelow(s: seq<Entry>, bound: int)
    requires forall x :: x in s ==> x.id < bound
    ensures forall x :: x in SortByMastery(s) ==> x.id < bound
  {
    forall x | x in SortByMastery(s)
      ensures x.id < bound
    {
      assert x in multiset(s);
    }
  }

  /** The entries below 80, in order. */
  function BelowMastered(s: seq<Entry>): (r: seq<Entry>)
    ensures forall x :: x in r <==> x in s && x.m < 80
    ensures |r| <= |s|
    ensures (forall x :: x in s ==> x.m < 80) ==> r == s
  {
    if s == [] then []
    else
      assert s == [s[0]] + s[1..];
      (if s[0].m < 80 then [s[0]] else []) + BelowMastered(s[1..])
  }

  /** Filtering keeps the rank order. */
  lemma {:induction false} BelowStrict(s: seq<Entry>)
    requires StrictlyRanked(s)
    ensures StrictlyRanked(BelowMastered(s))
  {
    if s != [] {
      var t := s[1..];
      assert StrictlyRanked(t) by {
        forall i, j | 0 <= i < j < |t| ensures Before(t[i], t[j]) {
          assert t[i] == s[i + 1] && t[j] == s[j + 1];
        }
      }
      BelowStrict(t);
      var rest := BelowMastered(t);
      forall y | y in rest
        ensures Before(s[0], y)
      {
        var j :| 0 <= j < |t| && t[j] == y;
        assert s[j + 1] == y;
      }
    }
  }

  /** `ordered` ranks all fifteen skills, each with its mastery, by
      ascending mastery. */
  ghost predicate Ranking(skills: map<int, SkillRecord>, ordered: seq<Entry>)
  {
    && |ordered| == 15 && SortedByMastery(ordered) && StrictlyRanked(ordered)
    && (forall x :: x in ordered ==> x.id in SkillIds && x.m == MasteryOrZero(skills, x.id))
    && (forall i :: i in SkillIds ==> Entry(i, MasteryOrZero(skills, i)) in ordered)
  }

  lemma ListedRanksLower(skills: map<int, SkillRecord>, ordered: seq<Entry>, e: Entry, i: int)
    requires Ranking(skills, ordered)
    requires e in BelowMastered(ordered[..3])
    requires i in SkillIds && Entry(i, MasteryOrZero(skills, i)) !in BelowMastered(ordered[..3])
    ensures Before(e, Entry(i, MasteryOrZero(skills, i)))
  {
    var top := ordered[..3];
    var x := Entry(i, MasteryOrZero(skills, i));
    var p :| 0 <= p < 3 && top[p] == e;
    var q :| 0 <= q < 15 && ordered[q] == x;
    if q < 3 {
      assert x in top;
    } else {
      assert Before(ordered[p], ordered[q]);
    }
  }

  lemma ShortListRestMastered(skills: map<int, SkillRecord>, ordered: seq<Entry>, i: int)
    requires Ranking(skills, ordered)
    requires |BelowMastered(ordered[..3])| < 3
    requires i in SkillIds && Entry(i, MasteryOrZero(skills, i)) !in BelowMastered(ordered[..3])
    ensures MasteryOrZero(skills, i) >= 80
  {
    var top := ordered[..3];
    BelowShort(top);
    assert ordered[0].m <= ordered[2].m && ordered[1].m <= ordered[2].m;
    var x := Entry(i, MasteryOrZero(skills, i));
    var q :| 0 <= q < 15 && ordered[q] == x;
    if q < 3 {
      assert x in top;
    } else {
      assert ordered[2].m <= ordered[q].m;
    }
  }

  /** Three entries of which fewer than three are listed as below 80: one
      of them is at 80 or above. */
  lemma BelowShort(top: seq<Entry>)
    requires |top| == 3 && |BelowMastered(top)| < 3
    ensures top[0].m >= 80 || top[1].m >= 80 || top[2].m >= 80
  {
    assert top[1..][1..][1..] == [];
  }

  /** The listed entries of a strict ranking are themselves in rank order. */
  lemma TopStrict(ordered: seq<Entry>)
    requires |ordered| >= 3 && StrictlyRanked(ordered)
    ensures StrictlyRanked(BelowMastered(ordered[..3]))
  {
    var top := ordered[..3];
    assert StrictlyRanked(top) by {
      forall i, j | 0 <= i < j < 3 ensures Before(top[i], top[j]) {
        assert top[i] == ordered[i] && top[j] == ordered[j];
      }
    }
    BelowStrict(top);
  }

  /** What the pick guarantees of a ranking of all fifteen skills. */
  lemma WeakestOfRanking(skills: map<int, SkillRecord>, ordered: seq<Entry>)
    requires Ranking(skills, ordered)
    ensures var weakest := BelowMastered(ordered[..3]);
      && |weakest| <= 3
      && (forall e :: e in weakest ==> e.id in SkillIds && e.m == MasteryOrZero(skills, e.id) && e.m < 80)
      && StrictlyRanked(weakest)
      && (forall e, i :: e in weakest && i in SkillIds && Entry(i, MasteryOrZero(skills, i)) !in weakest ==>
            Before(e, Entry(i, MasteryOrZero(skills, i))))
      && (|weakest| < 3 ==> forall i :: i in SkillIds && Entry(i, MasteryOrZero(skills, i)) !in weakest ==>
            MasteryOrZero(skills, i) >= 80)
  {
    var top := ordered[..3];
    var weakest := BelowMastered(top);
    forall e | e in weakest
      ensures e.id in SkillIds && e.m == MasteryOrZero(skills, e.id)
    {
      assert e in ordered;
    }
    TopStrict(ordered);
    forall e, i | e in weakest && i in SkillIds && Entry(i, MasteryOrZero(skills, i)) !in weakest
      ensures Before(e, Entry(i, MasteryOrZero(skills, i)))
    {
      ListedRanksLower(skills, ordered, e, i);
    }
    if |weakest| < 3 {
      forall i | i in SkillIds && Entry(i, MasteryOrZero(skills, i)) !in weakest
        ensures MasteryOrZero(skills, i) >= 80
      {
        ShortListRestMastered(skills, ordered, i);
      }
    }
  }

  lemma SortedMembers(skills: map<int, SkillRecord>, ranking: seq<Entry>, x: Entry)
    requires |ranking| == 15
    requires forall k :: 0 <= k < 15 ==> ranking[k] == Entry(k + 1, MasteryOrZero(skills, k + 1))
    requires x in SortByMastery(ranking)
    ensures x.id in SkillIds && x.m == MasteryOrZero(skills, x.id)
  {
    assert x in multiset(ranking);
    var k :| 0 <= k < 15 && ranking[k] == x;
    SkillIdsRange(k + 1);
  }

  lemma SortedCovers(skills: map<int, SkillRecord>, ranking: seq<Entry>, i: int)
    requires |ranking| == 15
    requires forall k :: 0 <= k < 15 ==> ranking[k] == Entry(k + 1, MasteryOrZero(skills, k + 1))
    requires i in SkillIds
    ensures Entry(i, MasteryOrZero(skills, i)) in SortByMastery(ranking)
  {
    SkillIdsRange(i);
    assert ranking[i - 1] == Entry(i, MasteryOrZero(skills, i));
    assert Entry(i, MasteryOrZero(skills, i)) in multiset(SortByMastery(ranking));
  }

  lemma IdOrderedStrict(skills: map<int, SkillRecord>, ranking: seq<Entry>)
    requires |ranking| == 15
    requires forall k :: 0 <= k < 15 ==> ranking[k] == Entry(k + 1, MasteryOrZero(skills, k + 1))
    ensures StrictlyRanked(SortByMastery(ranking))
  {
    forall i, j | 0 <= i < j < 15
      ensures ranking[i].id < ranking[j].id
    {
      assert ranking[i].id == i + 1 && ranking[j].id == j + 1;
    }
    SortStrict(ranking);
  }

  /** Sorting the fifteen entries in id order gives a ranking. */
  lemma SortedRanking(skills: map<int, SkillRecord>, ranking: seq<Entry>)
    requires |ranking| == 15
    requires forall k :: 0 <= k < 15 ==> ranking[k] == Entry(k + 1, MasteryOrZero(skills, k + 1))
    ensures Ranking(skills, SortByMastery(ranking))
  {
    IdOrderedStrict(skills, ranking);
    forall x | x in SortByMastery(ranking)
      ensures x.id in SkillIds && x.m == MasteryOrZero(skills, x.id)
    {
      SortedMembers(skills, ranking, x);
    }
    forall i | i in SkillIds
      ensures Entry(i, MasteryOrZero(skills, i)) in SortByMastery(ranking)
    {
      SortedCovers(skills, ranking, i);
    }
  }

  /** The dashboard's "needs work" list: the (at most three) lowest-ranked
      skills, keeping only those below 80. The list holds distinct skills in
      rank order (mastery, then id), every listed skill ranks ahead of every
      unlisted one, and a short list means every other skill is at 80 or
      more; together these fix the list completely. */
  method WeakestSkills(skills: map<int, SkillRecord>) returns (weakest: seq<Entry>)
    ensures |weakest| <= 3
    ensures forall e :: e in weakest ==> e.id in SkillIds && e.m == MasteryOrZero(skills, e.id) && e.m < 80
    ensures StrictlyRanked(weakest)
    ensures forall e, i :: e in weakest && i in SkillIds && Entry(i, MasteryOrZero(skills, i)) !in weakest ==>
      Before(e, Entry(i, MasteryOrZero(skills, i)))
    ensures |weakest| < 3 ==> forall i :: i in SkillIds && Entry(i, MasteryOrZero(skills, i)) !in weakest ==>
      MasteryOrZero(skills, i) >= 80
  {
    var ranking: seq<Entry> := [];
    for i := 1 to 16
      invariant |ranking| == i - 1
      invariant forall k :: 0 <= k < |ranking| ==> ranking[k] == Entry(k + 1, MasteryOrZero(skills, k + 1))
    {
      ranking := ranking + [Entry(i, MasteryOrZero(skills, i))];
    }
    var ordered := SortByMastery(ranking);
    SortedRanking(skills, ranking);
    WeakestOfRanking(skills, ordered);
    weakest := BelowMastered(ordered[..3]);
  }

  // ----- The play session -----

  const PracticeMode := "practice"
  const DailyMode := "daily"
  const NafsMode := "nafs"
  const SkillMode := "skill"

  /** Number of correct answers. */
  function CountCorrect(answers: seq<Answer>): (n: nat)
    ensures n <= |answers|
  {
    if answers == [] then 0
    else CountCorrect(answers[..|answers| - 1]) + (if answers[|answers| - 1].isCorrect then 1 else 0)
  }

  lemma {:induction false} CountCorrectAll(answers: seq<Answer>)
    ensures CountCorrect(answers) == |answers| <==> forall k :: 0 <= k < |answers| ==> answers[k].isCorrect
  {
    if answers != [] {
      var init := answers[..|answers| - 1];
      CountCorrectAll(init);
      assert forall k :: 0 <= k < |init| ==> init[k] == answers[k];
    }
  }

  /** The keys a finished game leaves alone: the student's profile, skill
      records and certificate. */
  predicate KeepsStudent(before: Data, after: Data)
  {
    && Get(after, ProfileKey) == Get(before, ProfileKey)
    && Get(after, SkillsKey) == Get(before, SkillsKey)
    && Get(after, CertKey) == Get(before, CertKey)
  }

  /** The store after `finishGame`, before its own badge check: a passage
      game completes its passage, a skill drill only refreshes the roster
      snapshot, and a daily game marks the day done. None of it touches the
      profile, the skill records or the certificate. */
  function FinishWrites(data: Data, mode: string, textId: string, pct: int, cfg: Config, now: string): Data
  {
    var d := if mode != SkillMode then CompletionEffect(data, textId, pct, cfg, now) else SnapshotSaved(data, now);
    if mode == DailyMode then d[DailyKey := DailySlot(ReadDaily(d).(todayDone := true))] else d
  }

  /** The store after `finishGame`: its writes, then its own badge check. */
  function FinishEffect(data: Data, mode: string, textId: string, pct: int, cfg: Config, now: string): Data
  {
    BadgesAwarded(FinishWrites(data, mode, textId, pct, cfg, now))
  }

  /** Finishing a game, in any mode and whether or not it was finished
      before, leaves the profile, the skill records and the certificate
      alone, both before and after its own badge check. */
  lemma FinishKeepsStudent(data: Data, mode: string, textId: string, pct: int, cfg: Config, now: string)
    ensures KeepsStudent(data, FinishWrites(data, mode, textId, pct, cfg, now))
    ensures KeepsStudent(data, FinishEffect(data, mode, textId, pct, cfg, now))
  {
    var d := if mode != SkillMode then CompletionEffect(data, textId, pct, cfg, now) else SnapshotSaved(data, now);
    if mode != SkillMode {
      CompletionFrame(data, textId, pct, cfg, now);
    } else {
      SnapshotKeepsStudent(data, now);
    }
    if mode == DailyMode {
      DailyKeepsStudent(d, ReadDaily(d).(todayDone := true));
    }
    BadgesKeepStudent(FinishWrites(data, mode, textId, pct, cfg, now));
  }

  /** Saving the snapshot leaves the student's own keys alone. */
  lemma SnapshotKeepsStudent(data: Data, now: string)
    ensures KeepsStudent(data, SnapshotSaved(data, now))
  {
    assert Get(SnapshotSaved(data, now), ProfileKey) == Get(data, ProfileKey);
  }

  /** Marking the day leaves the student's own keys alone. */
  lemma DailyKeepsStudent(d: Data, v: DailyState)
    ensures KeepsStudent(d, d[DailyKey := DailySlot(v)])
  {
    assert Get(d[DailyKey := DailySlot(v)], ProfileKey) == Get(d, ProfileKey);
  }

  /** The badge check leaves the student's own keys alone. */
  lemma BadgesKeepStudent(w: Data)
    ensures KeepsStudent(w, BadgesAwarded(w))
  {
    assert Get(BadgesAwarded(w), ProfileKey) == Get(w, ProfileKey);
  }

  /** Completing a passage writes the progress, the passage record, the
      roster and the badges only: the daily record, the profile, the skill
      records and the certificate stay as they were. */
  lemma CompletionFrame(data: Data, textId: string, pct: int, cfg: Config, now: string)
    ensures Get(CompletionEffect(data, textId, pct, cfg, now), DailyKey) == Get(data, DailyKey)
    ensures KeepsStudent(data, CompletionEffect(data, textId, pct, cfg, now))
  {
    var d0 := data[ProgressKey := ProgressSlot(ProgressAfterCompletion(ReadProgress(data), cfg))];
    var d1 := CompletionAdded(d0, textId, pct, now);
    var d2 := SnapshotSaved(d1, now);
    forall k | k == DailyKey || k == ProfileKey || k == SkillsKey || k == CertKey
      ensures Get(BadgesAwarded(d2), k) == Get(data, k)
    {
      assert Get(d0, k) == Get(data, k);
      CompletedFrame(d0, textId, pct, now, k);
      SnapshotFrame(d1, now, k);
      assert Get(BadgesAwarded(d2), k) == Get(d2, k);
    }
  }

  /** Recording a completion writes the passage records only. */
  lemma CompletedFrame(d: Data, textId: string, pct: int, now: string, k: Key)
    requires k != CompletedKey
    ensures Get(CompletionAdded(d, textId, pct, now), k) == Get(d, k)
  { }

  /** Saving the snapshot writes the roster only. */
  lemma SnapshotFrame(d: Data, now: string, k: Key)
    requires k != StudentsKey
    ensures Get(SnapshotSaved(d, now), k) == Get(d, k)
  { }

  /** Writing the daily record leaves the skills and badges as they were and
      is read back. */
  lemma DailyWriteFrame(d: Data, v: DailyState)
    ensures ReadSkills(d[DailyKey := DailySlot(v)]) == ReadSkills(d)
    ensures ReadBadges(d[DailyKey := DailySlot(v)]) == ReadBadges(d)
    ensures ReadDaily(d[DailyKey := DailySlot(v)]) == v
  {
    assert Get(d[DailyKey := DailySlot(v)], SkillsKey) == Get(d, SkillsKey);
    assert Get(d[DailyKey := DailySlot(v)], BadgesKey) == Get(d, BadgesKey);
  }

  /** In every mode but the skill drill, the passage completion has already
      awarded the badges, so the badge check of `finishGame` finds none. */
  lemma FinishNoNewBadges(data: Data, mode: string, textId: string, pct: int, cfg: Config, now: string)
    requires mode != SkillMode
    ensures var w := FinishWrites(data, mode, textId, pct, cfg, now);
      NewBadges(BadgeDefinitions(), ReadSkills(w), ReadBadges(w)) == []
  {
    var b := SnapshotSaved(CompletionAdded(data[ProgressKey := ProgressSlot(ProgressAfterCompletion(ReadProgress(data), cfg))], textId, pct, now), now);
    var d := CompletionEffect(data, textId, pct, cfg, now);
    assert d == BadgesAwarded(b);
    BadgesAwardedSpec(b);
    if mode == DailyMode {
      DailyWriteFrame(d, ReadDaily(d).(todayDone := true));
    }
  }

  /** A daily game ends with the day marked done and the rest of the daily
      record (day, streak, passage) kept. */
  lemma FinishMarksDaily(data: Data, mode: string, textId: string, pct: int, cfg: Config, now: string)
    requires mode == DailyMode
    ensures ReadDaily(FinishEffect(data, mode, textId, pct, cfg, now)) == ReadDaily(data).(todayDone := true)
  {
    var d := CompletionEffect(data, textId, pct, cfg, now);
    var w := FinishWrites(data, mode, textId, pct, cfg, now);
    assert w == d[DailyKey := DailySlot(ReadDaily(d).(todayDone := true))];
    DailyWriteFrame(d, ReadDaily(d).(todayDone := true));
    CompletionFrame(data, textId, pct, cfg, now);
    BadgesAwardedSpec(w);
    assert Get(BadgesAwarded(w), DailyKey) == Get(w, DailyKey);
  }

  /** The final score of a game is a percentage, and (for fewer than 200
      questions, where rounding cannot reach 100 otherwise) it is 100 exactly
      when every question was answered and every answer was correct. */
  lemma FinishScore(answers: seq<Answer>, n: int)
    requires 0 < n && |answers| <= n
    ensures 0 <= RoundPercent(CountCorrect(answers), n) <= 100
    ensures n < 200 ==>
      (RoundPercent(CountCorrect(answers), n) == 100 <==> |answers| == n && forall k :: 0 <= k < |answers| ==> answers[k].isCorrect)
  {
    RoundPercentRange(CountCorrect(answers), n);
    if n < 200 {
      RoundPercentExtremes(CountCorrect(answers), n);
      CountCorrectAll(answers);
    }
  }

  /** The store side of `finishGame`: a passage game completes its passage,
      a skill drill refreshes the roster snapshot, a daily game marks the day
      done, then badges are checked; only a skill drill can earn any here. */
  method RecordFinish(store: Store, mode: string, textId: string, pct: int, cfg: Config, now: string)
    returns (newBadges: seq<string>)
    modifies store
    ensures store.data == FinishEffect(old(store.data), mode, textId, pct, cfg, now)
    ensures var w := FinishWrites(old(store.data), mode, textId, pct, cfg, now);
      newBadges == NewBadges(BadgeDefinitions(), ReadSkills(w), ReadBadges(w))
    ensures mode != SkillMode ==> newBadges == []
    ensures mode == DailyMode ==> ReadDaily(store.data) == ReadDaily(old(store.data)).(todayDone := true)
  {
    if mode != SkillMode {
      var _ := CompleteText(store, textId, pct, cfg, now);
    } else {
      store.SaveStudentSnapshot(now);
    }
    if mode == DailyMode {
      var daily := store.GetDailyData();
      daily := daily.(todayDone := true);
      store.SetDailyData(daily);
    }
    newBadges := CheckBadges(store);
    if mode != SkillMode {
      FinishNoNewBadges(old(store.data), mode, textId, pct, cfg, now);
    }
    if mode == DailyMode {
      FinishMarksDaily(old(store.data), mode, textId, pct, cfg, now);
    }
  }

  /** The current game: its mode and passage, the (shuffled) questions, the
      position, the answers so far and the score, and the countdown of a
      timed exam. */
  class Game {
    var mode: string
    var skillId: int
    var text: Passage
    var questions: seq<Question>
    var currentQ: int
    var answers: seq<Answer>
    var score: int
    var timerSeconds: int
    var timerRunning: bool
    var finished: bool

    /** The position never passes the end; each question up to the current
        one is answered at most once, in order; the score counts the correct
        answers. */
    ghost predicate Valid()
      reads this
    {
      && |questions| > 0
      && 0 <= currentQ <= |questions|
      && currentQ <= |answers| <= currentQ + 1
      && |answers| <= |questions|
      && score == CountCorrect(answers)
      && (forall k :: 0 <= k < |answers| ==>
            answers[k].skillId == questions[k].skillId && answers[k].correct == questions[k].correctIndex)
    }

    /** A new game at its first question, with no answers, score 0 and no countdown. */
    constructor (mode: string, skillId: int, text: Passage, questions: seq<Question>)
      requires |questions| > 0
      ensures this.mode == mode && this.skillId == skillId && this.text == text && this.questions == questions
      ensures currentQ == 0 && answers == [] && score == 0
      ensures timerSeconds == 0 && !timerRunning && !finished
      ensures Valid()
    {
      this.mode := mode;
      this.skillId := skillId;
      this.text := text;
      this.questions := questions;
      currentQ := 0;
      answers := [];
      score := 0;
      timerSeconds := 0;
      timerRunning := false;
      finished := false;
    }

    /** Answers the current question with choice `idx`: the answer is
        correct exactly when `idx` is the correct index; it is recorded, the
        score follows, and the engine records the outcome. */
    method HandleAnswer(store: Store, idx: int, cfg: Config) returns (isCorrect: bool)
      requires Valid() && !finished && currentQ < |questions| && |answers| == currentQ
      modifies this, store
      ensures Valid()
      ensures questions == old(questions) && currentQ == old(currentQ)
      ensures isCorrect <==> idx == questions[currentQ].correctIndex
      ensures answers == old(answers) + [Answer(questions[currentQ].skillId, idx, questions[currentQ].correctIndex, isCorrect)]
      ensures score == old(score) + (if isCorrect then 1 else 0)
      ensures store.data == AnswerEffect(old(store.data), questions[currentQ].skillId, isCorrect, cfg)
      ensures mode == old(mode) && skillId == old(skillId) && text == old(text)
      ensures timerSeconds == old(timerSeconds) && timerRunning == old(timerRunning) && finished == old(finished)
    {
      var q := questions[currentQ];
      var _, _ := ProcessAnswer(store, q.skillId, idx == q.correctIndex, cfg);
      isCorrect := RecordChoice(idx);
    }

    /** The game's own part of answering: the answer is appended and the
        score follows. */
    method RecordChoice(idx: int) returns (isCorrect: bool)
      requires Valid() && !finished && currentQ < |questions| && |answers| == currentQ
      modifies this
      ensures Valid()
      ensures questions == old(questions) && currentQ == old(currentQ)
      ensures isCorrect <==> idx == questions[currentQ].correctIndex
      ensures answers == old(answers) + [Answer(questions[currentQ].skillId, idx, questions[currentQ].correctIndex, isCorrect)]
      ensures score == old(score) + (if isCorrect then 1 else 0)
      ensures mode == old(mode) && skillId == old(skillId) && text == old(text)
      ensures timerSeconds == old(timerSeconds) && timerRunning == old(timerRunning) && finished == old(finished)
    {
      var q := questions[currentQ];
      isCorrect := idx == q.correctIndex;
      var a := Answer(q.skillId, idx, q.correctIndex, isCorrect);
      assert (answers + [a])[..|answers|] == answers;
      answers := answers + [a];
      if isCorrect {
        score := score + 1;
      }
    }

    /** Ends the game: stops the countdown, scores it as the rounded
        percentage of correct answers over all questions (so unanswered
        questions count as wrong), records it, and checks badges. Nothing
        stops it from running on a game that has already ended: it records
        the passage again. */
    method FinishGame(store: Store, cfg: Config, now: string) returns (pct: int, newBadges: seq<string>)
      requires Valid()
      modifies this, store
      ensures Valid() && finished && !timerRunning
      ensures pct == RoundPercent(CountCorrect(answers), |questions|) && 0 <= pct <= 100
      ensures |questions| < 200 ==>
        (pct == 100 <==> |answers| == |questions| && forall k :: 0 <= k < |answers| ==> answers[k].isCorrect)
      ensures store.data == FinishEffect(old(store.data), mode, text.id, pct, cfg, now)
      ensures var w := FinishWrites(old(store.data), mode, text.id, pct, cfg, now);
        newBadges == NewBadges(BadgeDefinitions(), ReadSkills(w), ReadBadges(w))
      ensures mode != SkillMode ==> newBadges == []
      ensures mode == DailyMode ==> ReadDaily(store.data) == ReadDaily(old(store.data)).(todayDone := true)
      ensures mode == old(mode) && skillId == old(skillId) && text == old(text) && questions == old(questions)
      ensures currentQ == old(currentQ) && answers == old(answers) && score == old(score)
      ensures timerSeconds == old(timerSeconds)
    {
      pct := RoundPercent(score, |questions|);
      FinishScore(answers, |questions|);
      newBadges := RecordFinish(store, mode, text.id, pct, cfg, now);
      timerRunning := false;
      finished := true;
    }

    /** Moves to the next question after the current one is answered; moving
        past the last question ends the game. */
    method NextQuestion(store: Store, cfg: Config, now: string) returns (ended: bool)
      requires Valid() && !finished && currentQ < |questions| && |answers| == currentQ + 1
      modifies this, store
      ensures Valid()
      ensures currentQ == old(currentQ) + 1
      ensures ended <==> currentQ >= |questions|
      ensures ended ==> finished
      ensures ended ==> store.data == FinishEffect(old(store.data), mode, text.id, RoundPercent(score, |questions|), cfg, now)
      ensures !ended ==> !finished && store.data == old(store.data) && timerRunning == old(timerRunning)
      ensures mode == old(mode) && text == old(text) && questions == old(questions)
      ensures answers == old(answers) && score == old(score) && timerSeconds == old(timerSeconds)
    {
      currentQ := currentQ + 1;
      ended := currentQ >= |questions|;
      if ended {
        var _, _ := FinishGame(store, cfg, now);
      }
    }

    /** One firing of a one-second interval on this game, whichever game
        started the interval: the countdown drops by one, and at zero or
        below the game's own interval is stopped and the game is finished,
        even if it was finished before or never had a countdown. */
    method Tick(store: Store, cfg: Config, now: string) returns (ended: bool)
      requires Valid()
      modifies this, store
      ensures Valid()
      ensures timerSeconds == old(timerSeconds) - 1
      ensures ended <==> timerSeconds <= 0
      ensures ended ==> finished && !timerRunning
      ensures ended ==> store.data == FinishEffect(old(store.data), mode, text.id, RoundPercent(score, |questions|), cfg, now)
      ensures !ended ==> finished == old(finished) && timerRunning == old(timerRunning)
      ensures !ended ==> store.data == old(store.data)
      ensures mode == old(mode) && text == old(text) && questions == old(questions)
      ensures currentQ == old(currentQ) && answers == old(answers) && score == old(score)
    {
      timerSeconds := timerSeconds - 1;
      ended := timerSeconds <= 0;
      if ended {
        timerRunning := false;
        var _, _ := FinishGame(store, cfg, now);
      }
    }
  }

  /** The progress after `finishGame` in any mode but the skill drill: one
      more passage completed and the completion bonus, whatever the game's
      state (finished before or not). */
  lemma FinishCountsCompletion(data: Data, mode: string, textId: string, pct: int, cfg: Config, now: string)
    requires mode != SkillMode
    ensures ReadProgress(FinishEffect(data, mode, textId, pct, cfg, now)) == ProgressAfterCompletion(ReadProgress(data), cfg)
  {
    CompletionCounts(data, textId, pct, cfg, now);
    var w := FinishWrites(data, mode, textId, pct, cfg, now);
    assert Get(w, ProgressKey) == Get(CompletionEffect(data, textId, pct, cfg, now), ProgressKey);
    BadgesAwardedSpec(w);
    assert Get(BadgesAwarded(w), ProgressKey) == Get(w, ProgressKey);
  }

  /** Completing a passage stores the progress with the completion counted. */
  lemma CompletionCounts(data: Data, textId: string, pct: int, cfg: Config, now: string)
    ensures Get(CompletionEffect(data, textId, pct, cfg, now), ProgressKey)
         == Some(ProgressSlot(ProgressAfterCompletion(ReadProgress(data), cfg)))
  {
    var d0 := data[ProgressKey := ProgressSlot(ProgressAfterCompletion(ReadProgress(data), cfg))];
    var d1 := CompletionAdded(d0, textId, pct, now);
    var d2 := SnapshotSaved(d1, now);
    assert Get(d0, ProgressKey) == Some(ProgressSlot(ProgressAfterCompletion(ReadProgress(data), cfg)));
    assert Get(d1, ProgressKey) == Get(d0, ProgressKey);
    assert Get(d2, ProgressKey) == Get(d1, ProgressKey);
    BadgesAwardedSpec(d2);
    assert Get(BadgesAwarded(d2), ProgressKey) == Get(d2, ProgressKey);
  }

  /** The store after `k` applications of the same change. */
  function Repeat(f: Data -> Data, data: Data, k: nat): Data
  {
    if k == 0 then data else f(Repeat(f, data, k - 1))
  }

  /** A change that completes one passage, applied `k` times, completes `k`
      passages and earns `k` completion bonuses. */
  lemma {:induction false} RepeatCounts(f: Data -> Data, data: Data, cfg: Config, k: nat)
    requires forall d :: ReadProgress(f(d)) == ProgressAfterCompletion(ReadProgress(d), cfg)
    ensures ReadProgress(Repeat(f, data, k)).textsCompleted == ReadProgress(data).textsCompleted + k
    ensures ReadProgress(Repeat(f, data, k)).xp == ReadProgress(data).xp + k * XpPerTextComplete(cfg)
  {
    if k > 0 {
      RepeatCounts(f, data, cfg, k - 1);
      var bonus := XpPerTextComplete(cfg);
      assert k * bonus == (k - 1) * bonus + bonus;
    }
  }

  /** The store after the same game is finished `k` times in a row. */
  function FinishedTimes(data: Data, mode: string, textId: string, pct: int, cfg: Config, now: string, k: nat): Data
  {
    Repeat(d => FinishEffect(d, mode, textId, pct, cfg, now), data, k)
  }

  lemma FinishedTwice(data: Data, mode: string, textId: string, pct: int, cfg: Config, now: string)
    ensures FinishedTimes(data, mode, textId, pct, cfg, now, 2)
         == FinishEffect(FinishEffect(data, mode, textId, pct, cfg, now), mode, textId, pct, cfg, now)
  {
    var f := d => FinishEffect(d, mode, textId, pct, cfg, now);
    assert Repeat(f, data, 1) == f(data);
  }

  /** Finishing a passage game `k` times counts `k` completed passages and
      `k` completion bonuses. */
  lemma RepeatedFinishCounts(data: Data, mode: string, textId: string, pct: int, cfg: Config, now: string, k: nat)
    requires mode != SkillMode
    ensures var p := ReadProgress(FinishedTimes(data, mode, textId, pct, cfg, now, k));
      && p.textsCompleted == ReadProgress(data).textsCompleted + k
      && p.xp == ReadProgress(data).xp + k * XpPerTextComplete(cfg)
  {
    var f := d => FinishEffect(d, mode, textId, pct, cfg, now);
    forall d
      ensures ReadProgress(f(d)) == ProgressAfterCompletion(ReadProgress(d), cfg)
    {
      FinishCountsCompletion(d, mode, textId, pct, cfg, now);
    }
    RepeatCounts(f, data, cfg, k);
  }

  /** The app's game state: the current game, which every running interval
      acts on and which is never reset once set, and the number of intervals
      left running by games that are no longer current. Nothing can stop
      those: the only handle to an interval is the `timer` field of the game
      that started it. */
  class Player {
    var current: Game?
    var orphans: nat

    ghost predicate Valid()
      reads this, current
    {
      && (current != null ==> current.Valid())
      && (orphans > 0 ==> current != null)
    }

    /** The number of one-second intervals still firing. */
    function Live(): nat
      reads this, current
    {
      orphans + (if current != null && current.timerRunning then 1 else 0)
    }

    /** No game yet, and no interval. */
    constructor ()
      ensures current == null && orphans == 0 && Valid() && Live() == 0
    {
      current := null;
      orphans := 0;
    }

    /** `currentGame = {...}` in `startGame` and in `startSkillTraining`:
        makes `g` the current game without stopping the current game's
        interval, so a running one becomes an orphan and the number of live
        intervals only grows. */
    method Replace(g: Game)
      requires Valid() && g.Valid()
      modifies this
      ensures Valid() && current == g
      ensures orphans == old(orphans) + (if old(current != null && current.timerRunning) then 1 else 0)
      ensures Live() == old(Live()) + (if g.timerRunning then 1 else 0)
    {
      if current != null && current.timerRunning {
        orphans := orphans + 1;
      }
      current := g;
    }

    /** `startGame` as it runs: the new game replaces the current one without
        stopping its interval, so a timed exam left unfinished keeps its
        interval firing, now on the new game. Every exam started adds one
        live interval, and none is removed. */
    method Play(store: Store, texts: seq<Passage>, mode: string, textId: string, cfg: Config, today: Day)
      requires Valid()
      requires Loaded(texts)
      requires forall t :: t in texts ==> |t.questions| > 0
      modifies this, store
      ensures Valid() && fresh(current)
      ensures current.mode == mode && current.currentQ == 0 && current.answers == [] && current.score == 0
      ensures !current.finished && current.text in texts
      ensures mode == NafsMode ==> current.timerRunning && current.timerSeconds == OrDefault(cfg.nafsTotalMinutes, 30) * 60
      ensures mode != NafsMode ==> !current.timerRunning && current.timerSeconds == 0
      ensures mode != DailyMode ==> store.data == old(store.data)
      ensures orphans == old(orphans) + (if old(current != null && current.timerRunning) then 1 else 0)
      ensures Live() == old(Live()) + (if mode == NafsMode then 1 else 0)
    {
      var g := StartGame(store, texts, mode, textId, cfg, today);
      Replace(g);
    }

    /** One firing of any live interval: it ticks the current game, which
        need not be the game that started it. */
    method Fire(store: Store, cfg: Config, now: string) returns (ended: bool)
      requires Valid() && Live() > 0
      modifies current, store
      ensures Valid() && current == old(current) && orphans == old(orphans)
      ensures current.timerSeconds == old(current.timerSeconds) - 1
      ensures ended <==> current.timerSeconds <= 0
      ensures ended ==> current.finished && !current.timerRunning
      ensures ended ==> store.data == FinishEffect(old(store.data), current.mode, current.text.id,
                                                   RoundPercent(current.score, |current.questions|), cfg, now)
      ensures !ended ==> current.finished == old(current.finished) && current.timerRunning == old(current.timerRunning)
      ensures !ended ==> store.data == old(store.data)
      ensures current.mode == old(current.mode) && current.text == old(current.text)
      ensures current.questions == old(current.questions) && current.score == old(current.score)
    {
      ended := current.Tick(store, cfg, now);
    }

    /** `startGame` with the current game's interval stopped first (the
        evidently intended behaviour): no new orphan interval is left
        behind, so a player driven only by this method has at most one live
        interval, and it belongs to the current game. */
    method PlayClearing(store: Store, texts: seq<Passage>, mode: string, textId: string, cfg: Config, today: Day)
      requires Valid()
      requires Loaded(texts)
      requires forall t :: t in texts ==> |t.questions| > 0
      modifies this, current, store
      ensures Valid() && fresh(current)
      ensures current.mode == mode && current.currentQ == 0 && current.answers == [] && current.score == 0
      ensures !current.finished && current.text in texts
      ensures mode == NafsMode ==> current.timerRunning && current.timerSeconds == OrDefault(cfg.nafsTotalMinutes, 30) * 60
      ensures mode != NafsMode ==> !current.timerRunning && current.timerSeconds == 0
      ensures mode != DailyMode ==> store.data == old(store.data)
      ensures orphans == old(orphans)
      ensures Live() == orphans + (if mode == NafsMode then 1 else 0)
      ensures old(orphans) == 0 ==> Live() <= 1
    {
      if current != null && current.timerRunning {
        current.timerRunning := false;
      }
      var g := StartGame(store, texts, mode, textId, cfg, today);
      current := g;
    }
  }

  /** Leaving a timed exam and starting a practice game, as the app runs:
      the exam's interval goes on firing on the practice game, whose
      countdown starts at 0, so each second finishes the practice game again
      and records its passage once more. After two seconds it has been
      finished twice, and the interval is still live. */
  method LeftExamScenario(store: Store, texts: seq<Passage>, cfg: Config, today: Day, now: string)
    returns (p: Player)
    requires Loaded(texts)
    requires forall t :: t in texts ==> |t.questions| > 0
    modifies store
    ensures p.Valid() && p.current != null && p.current.mode == PracticeMode
    ensures p.current.finished && p.current.timerSeconds == -2 && p.Live() == 1
    ensures store.data == FinishedTimes(old(store.data), PracticeMode, p.current.text.id,
                                        RoundPercent(0, |p.current.questions|), cfg, now, 2)
    ensures ReadProgress(store.data).textsCompleted == ReadProgress(old(store.data)).textsCompleted + 2
  {
    p := new Player();
    p.Play(store, texts, NafsMode, "", cfg, today);
    p.Play(store, texts, PracticeMode, "", cfg, today);
    var g := p.current;
    var d0 := store.data;
    var first := p.Fire(store, cfg, now);
    var second := p.Fire(store, cfg, now);
    FinishedTwice(d0, PracticeMode, g.text.id, RoundPercent(0, |g.questions|), cfg, now);
    RepeatedFinishCounts(d0, PracticeMode, g.text.id, RoundPercent(0, |g.questions|), cfg, now, 2);
  }

  /** Leaving a timed exam and starting another, as the app runs: both
      intervals fire on the second exam, so each second takes two seconds
      off its countdown. */
  method SecondExamScenario(store: Store, texts: seq<Passage>, cfg: Config, today: Day, now: string)
    returns (p: Player)
    requires Loaded(texts)
    requires forall t :: t in texts ==> |t.questions| > 0
    requires OrDefault(cfg.nafsTotalMinutes, 30) > 0
    modifies store
    ensures p.Valid() && p.current != null && p.current.mode == NafsMode && p.Live() == 2
    ensures !p.current.finished && p.current.timerSeconds == OrDefault(cfg.nafsTotalMinutes, 30) * 60 - 2
    ensures store.data == old(store.data)
  {
    p := new Player();
    p.Play(store, texts, NafsMode, "", cfg, today);
    p.Play(store, texts, NafsMode, "", cfg, today);
    var first := p.Fire(store, cfg, now);
    var second := p.Fire(store, cfg, now);
  }

  /** The same steps with the interval stopped when the exam is replaced:
      no interval is left, so nothing fires on the practice game and the
      store is untouched. */
  method ClearedScenario(store: Store, texts: seq<Passage>, cfg: Config, today: Day) returns (p: Player)
    requires Loaded(texts)
    requires forall t :: t in texts ==> |t.questions| > 0
    modifies store
    ensures p.Valid() && p.current != null && p.current.mode == PracticeMode
    ensures !p.current.finished && p.current.timerSeconds == 0 && p.Live() == 0
    ensures store.data == old(store.data)
  {
    p := new Player();
    p.PlayClearing(store, texts, NafsMode, "", cfg, today);
    p.PlayClearing(store, texts, PracticeMode, "", cfg, today);
  }

  /** `SKILLS.find(s => s.id === id)`. */
  function FindSkill(catalogue: seq<SkillInfo>, id: int): (r: Option<SkillInfo>)
    ensures r.Some? ==> r.value in catalogue && r.value.id == id
    ensures r.None? <==> forall s :: s in catalogue ==> s.id != id
  {
    if catalogue == [] then None
    else if catalogue[0].id == id then Some(catalogue[0])
    else FindSkill(catalogue[1..], id)
  }

  /** The title of a skill drill: the catalogue's name for the skill when it
      has a non-empty one, otherwise the built-in name. */
  function SkillTitle(catalogue: seq<SkillInfo>, id: int): (r: string)
    ensures FindSkill(catalogue, id).Some? && FindSkill(catalogue, id).value.name != "" ==> r == FindSkill(catalogue, id).value.name
    ensures FindSkill(catalogue, id).None? || FindSkill(catalogue, id).value.name == "" ==> r == Ui.SkillName(id)
    ensures r != ""
  {
    var found := FindSkill(catalogue, id);
    if found.Some? && found.value.name != "" then found.value.name
    else
      assert Ui.SkillName(id) != "" by {
        if 1 <= id <= 15 {
          assert Ui.SkillNames[id - 1] != "";
        } else {
          assert |Ui.FallbackPrefix + Ui.IntToString(id)| > 0;
        }
      }
      Ui.SkillName(id)
  }

  /** The stand-in passage of a skill drill: no body, no questions of its
      own, titled with the skill's name and identified by the skill. */
  function SkillPassage(catalogue: seq<SkillInfo>, skillId: int): (t: Passage)
    ensures t.id == "SKILL_" + Ui.IntToString(skillId) && t.title == SkillTitle(catalogue, skillId)
    ensures t.title != "" && t.body == "" && t.questions == []
  {
    Passage("SKILL_" + Ui.IntToString(skillId), SkillTitle(catalogue, skillId), "", "", "", [])
  }

  /** The run-time check that every question of a drill is on its skill:
      the scan stops at the first one that is not. */
  method AllOnSkill(qs: seq<Question>, skillId: int) returns (ok: bool)
    ensures ok <==> forall q :: q in qs ==> q.skillId == skillId
  {
    for k := 0 to |qs|
      invariant forall j :: 0 <= j < k ==> qs[j].skillId == skillId
    {
      if qs[k].skillId != skillId {
        return false;
      }
    }
    return true;
  }

  /** Starts a skill drill of up to 15 questions. It refuses (no game) when
      the skill has fewer than three questions in the whole catalogue;
      otherwise every question of the drill is on the skill, and the session
      starts at the first question with no answers and score 0. */
  method StartSkillTraining(texts: seq<Passage>, catalogue: seq<SkillInfo>, skillId: int) returns (g: Game?)
    requires FourChoices(texts)
    ensures g != null <==> |Gather(texts, skillId)| >= 3
    ensures g != null ==> fresh(g) && g.Valid()
    ensures g != null ==> g.mode == SkillMode && g.skillId == skillId && g.text == SkillPassage(catalogue, skillId)
    ensures g != null ==> g.currentQ == 0 && g.answers == [] && g.score == 0 && !g.timerRunning && !g.finished
    ensures g != null ==> g.timerSeconds == 0
    ensures g != null ==> |g.questions| == Min(|Gather(texts, skillId)|, 15)
    ensures g != null ==> forall q :: q in g.questions ==> q.skillId == skillId && q.provenance.Some?
    ensures g != null ==> DrawnFrom(g.questions, Gather(texts, skillId))
  {
    var result := GetQuestionsForSkill(texts, skillId, 15);
    if result.Rejected? {
      DrillValidationPasses(texts, skillId);
      assert false;
    }
    if |result.questions| < 3 {
      return null;
    }
    var tagged := AllOnSkill(result.questions, skillId);
    if !tagged {
      assert false;
    }
    g := new Game(SkillMode, skillId, SkillPassage(catalogue, skillId), result.questions);
  }

  /** The passage a game plays. A daily game takes the day's passage (and
      records the day); otherwise a given id is looked up, and without one,
      or when it is not found, the next unseen passage is taken. */
  method ChoosePassage(store: Store, texts: seq<Passage>, mode: string, textId: string, today: Day)
    returns (text: Passage)
    requires |texts| > 0
    modifies store
    ensures text in texts
    ensures mode == DailyMode ==>
      text == DailyChoice(ReadDaily(old(store.data)), texts, today) &&
      store.data == DailyRecorded(old(store.data), texts, today)
    ensures mode != DailyMode ==> store.data == old(store.data)
    ensures mode != DailyMode && textId != "" && FindText(texts, textId).Some? ==> text == FindText(texts, textId).value
    ensures mode != DailyMode && (textId == "" || FindText(texts, textId).None?)
              && |Unseen(texts, ReadCompleted(old(store.data)))| > 0
            ==> !IsCompleted(ReadCompleted(old(store.data)), text.id)
  {
    var chosen: Option<Passage> := None;
    if mode == DailyMode {
      var t := GetDailyText(store, texts, today);
      chosen := Some(t);
    } else if textId != "" {
      chosen := FindText(texts, textId);
    }
    if chosen.None? {
      chosen := GetNextText(store, texts);
    }
    text := chosen.value;
  }

  /** Starts a passage game on the chosen passage: the choices of every
      question are shuffled, the session starts at the first question with
      no answers and score 0, and a timed exam starts its countdown at the
      configured minutes (30 by default; a configured 0 also means 30). */
  method StartGame(store: Store, texts: seq<Passage>, mode: string, textId: string, cfg: Config, today: Day)
    returns (g: Game)
    requires Loaded(texts)
    requires forall t :: t in texts ==> |t.questions| > 0
    modifies store
    ensures fresh(g) && g.Valid()
    ensures g.mode == mode && g.currentQ == 0 && g.answers == [] && g.score == 0 && !g.finished
    ensures g.text in texts
    ensures mode == DailyMode ==>
      g.text == DailyChoice(ReadDaily(old(store.data)), texts, today) &&
      store.data == DailyRecorded(old(store.data), texts, today)
    ensures mode != DailyMode ==> store.data == old(store.data)
    ensures mode != DailyMode && textId != "" && FindText(texts, textId).Some? ==> g.text == FindText(texts, textId).value
    ensures mode != DailyMode && (textId == "" || FindText(texts, textId).None?)
              && |Unseen(texts, ReadCompleted(old(store.data)))| > 0
            ==> !IsCompleted(ReadCompleted(old(store.data)), g.text.id)
    ensures |g.questions| == |g.text.questions|
    ensures forall k :: 0 <= k < |g.questions| ==> ShuffledFrom(g.questions[k], g.text.questions[k])
    ensures mode == NafsMode ==> g.timerRunning && g.timerSeconds == OrDefault(cfg.nafsTotalMinutes, 30) * 60
    ensures mode != NafsMode ==> !g.timerRunning && g.timerSeconds == 0
  {
    var text := ChoosePassage(store, texts, mode, textId, today);
    var questions := ShuffleEach(text.questions);
    g := new Game(mode, 0, text, questions);
    if mode == NafsMode {
      g.timerSeconds := OrDefault(cfg.nafsTotalMinutes, 30) * 60;
      g.timerRunning := true;
    }
  }
}
