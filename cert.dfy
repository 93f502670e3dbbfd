/** Certificate issuing: the certificate record is built from the stored
    profile and progress, given a fresh verification identifier and the
    issue time, and written to the store. */
module Cert {
  import opened Common
  import opened Storage
  import opened Engine
  import Ui

  /** The record issued to `p` with progress `progress`, identifier `vid`
      and issue time `now`. */
  function CertificateFor(p: Profile, progress: Progress, vid: string, now: string): (c: Certificate)
    ensures c.name == p.name && c.className == p.className && c.verificationId == vid
    ensures 0 <= progress.totalCorrect <= progress.totalAnswered ==> 0 <= c.avgPercent <= 100
    ensures progress.totalAnswered <= 0 ==> c.avgPercent == 0
  {
    var avg := AveragePercent(progress.totalCorrect, progress.totalAnswered);
    Certificate(p.name, p.className, now, avg, Ui.Grade(avg), vid, progress.xp, progress.textsCompleted)
  }

  /** The issued record copies the student's name and class and the XP and
      passage count; its average is the rounded percentage of correct
      answers (0, graded "needs work", when nothing has been answered) and
      lies in 0..100; a student with every answer correct is graded
      "excellent". */
  lemma CertificateContents(p: Profile, progress: Progress, vid: string, now: string)
    ensures var c := CertificateFor(p, progress, vid, now);
      && c.name == p.name && c.className == p.className
      && c.xp == progress.xp && c.textsCompleted == progress.textsCompleted
      && c.date == now && c.verificationId == vid
      && (progress.totalAnswered <= 0 ==> c.avgPercent == 0 && c.grade == Ui.NeedsWork)
      && (progress.totalAnswered > 0 ==> c.avgPercent == RoundPercent(progress.totalCorrect, progress.totalAnswered))
      && (0 <= progress.totalCorrect <= progress.totalAnswered ==> 0 <= c.avgPercent <= 100)
      && (0 < progress.totalCorrect == progress.totalAnswered ==> c.avgPercent == 100 && c.grade == Ui.Excellent)
  {
    var n := progress.totalAnswered;
    if 0 < progress.totalCorrect == n {
      var r := RoundPercent(n, n);
      assert 2 * n * r <= 201 * n < 2 * n * r + 2 * n;
      if r < 100 {
        MulLt(2 * n, r, 100);
      } else if r > 100 {
        MulLt(2 * n, 100, r);
      }
    }
  }

  /** Issues a certificate. Without a stored profile the record cannot be
      built and nothing is written; otherwise the record is stored (replacing
      any earlier one) and returned, with a fresh verification identifier. */
  method GenerateCertificate(store: Store, now: string) returns (cert: Option<Certificate>)
    modifies store
    ensures ReadProfile(old(store.data)).None? ==> cert.None? && store.data == old(store.data)
    ensures ReadProfile(old(store.data)).Some? ==>
      && cert.Some?
      && IsVerificationId(cert.value.verificationId)
      && cert.value == CertificateFor(ReadProfile(old(store.data)).value, ReadProgress(old(store.data)),
                                      cert.value.verificationId, now)
      && store.data == old(store.data)[CertKey := CertSlot(cert.value)]
  {
    var profile := store.GetProfile();
    var progress := store.GetProgress();
    var avgPercent := if progress.totalAnswered > 0 then RoundPercent(progress.totalCorrect, progress.totalAnswered) else 0;
    var grade := Ui.Grade(avgPercent);
    var vid := GenerateVerificationId();
    if profile.None? {
      return None;
    }
    var c := Certificate(profile.value.name, profile.value.className, now, avgPercent, grade,
                         vid, progress.xp, progress.textsCompleted);
    store.SetCertData(c);
    cert := Some(c);
  }

  /** The record written is the one read back. */
  lemma StoredCertificateReadBack(data: Data, c: Certificate)
    ensures ReadCert(data[CertKey := CertSlot(c)]) == Some(c)
  {
    assert Get(data[CertKey := CertSlot(c)], CertKey) == Some(CertSlot(c));
  }

  /** A student who meets the certificate requirements with an average
      threshold of at least 80 is issued a grade of "very good" or better. */
  lemma EligibleGrade(data: Data, cfg: Catalog.Config, vid: string, now: string)
    requires CertificateEligibility(data, cfg).eligible
    requires MinAvgPercent(cfg) >= 80
    requires ReadProfile(data).Some?
    ensures Ui.GradeOrder(CertificateFor(ReadProfile(data).value, ReadProgress(data), vid, now).grade) >= 3
  {
    var e := CertificateEligibility(data, cfg);
    assert e.avgPercent >= 80;
  }
}
