/** The content catalogue and the configuration, as loaded once at start-up:
    passages with their multiple-choice questions, and the reward and
    certificate settings. Nothing in here changes after loading. */
module Catalog {
  import opened Common

  /** The fifteen skill identifiers. */
  const SkillIds: set<int> := {1, 2, 3, 4, 5, 6, 7, 8, 9, 10, 11, 12, 13, 14, 15}

  /** The skill identifiers are the numbers 1 to 15. */
  lemma SkillIdsRange(i: int)
    ensures i in SkillIds <==> 1 <= i <= 15
  {
  }

  /** Where a skill-drill question came from: the passage it was gathered from. */
  datatype Provenance = Provenance(textId: string, textTitle: string, textBody: string)

  /** A question. `provenance` is filled in when a skill drill gathers it, and
      `shuffleMap` records the choice permutation once it has been shuffled. */
  datatype Question = Question(
    id: string,
    skillId: int,
    stem: string,
    choices: seq<string>,
    correctIndex: int,
    explanation: string,
    provenance: Option<Provenance>,
    shuffleMap: Option<seq<int>>)

  datatype Passage = Passage(
    id: string,
    title: string,
    genre: string,
    difficulty: string,
    body: string,
    questions: seq<Question>)

  /** Every question of the catalogue offers exactly four choices. */
  ghost predicate FourChoices(texts: seq<Passage>)
  {
    forall t, q :: t in texts && q in t.questions ==> |q.choices| == 4
  }

  /** The catalogue is loaded: at least one passage, four choices everywhere.
      (Loading refuses an empty passage list before anything else runs.) */
  ghost predicate Loaded(texts: seq<Passage>)
  {
    |texts| > 0 && FourChoices(texts)
  }

  /** Certificate thresholds; 0 stands for "not configured". */
  datatype CertificateConfig = CertificateConfig(minTexts: int, minAvgPercent: int, masteryThreshold: int)

  /** Reward magnitudes, certificate thresholds and the timed-exam length;
      0 stands for "not configured" (and, as in the source, a configured 0
      also falls back to the default). */
  datatype Config = Config(
    xpPerCorrect: int,
    xpPerTextComplete: int,
    xpPerLevel: int,
    certificate: CertificateConfig,
    nafsTotalMinutes: int)

  function XpPerCorrect(cfg: Config): int { OrDefault(cfg.xpPerCorrect, 10) }
  function XpPerTextComplete(cfg: Config): int { OrDefault(cfg.xpPerTextComplete, 50) }
  function XpPerLevel(cfg: Config): (r: int)
    ensures r != 0
  {
    OrDefault(cfg.xpPerLevel, 200)
  }

  /** A calendar day in the reference time zone: its ISO text `YYYY-MM-DD`
      (hashed and compared) and its day number (for the gap between days). */
  datatype Day = Day(iso: string, ordinal: int)

  /** An entry of the skill catalogue (skills.json): id and display name. */
  datatype SkillInfo = SkillInfo(id: int, name: string)
}
