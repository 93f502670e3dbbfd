/** The persisted state of one student, kept in the browser's key-value
    store under eleven fixed keys. The store is modelled as a map from those
    keys to slots; a slot that is an empty string or does not parse reads as
    the documented default of its entity. */
module Storage {
  import opened Common
  import opened Catalog

  /** The eleven keys, in the order of their declaration. */
  datatype Key =
    | ProfileKey | ProgressKey | SkillsKey | CompletedKey | DailyKey | BadgesKey | CertKey
    | SettingsKey | AdminHashKey | AdminSaltKey | StudentsKey

  const AllKeys: seq<Key> := [ProfileKey, ProgressKey, SkillsKey, CompletedKey, DailyKey, BadgesKey,
                              CertKey, SettingsKey, AdminHashKey, AdminSaltKey, StudentsKey]

  lemma KeyListed(k: Key)
    ensures k in AllKeys
  {
    match k
    case ProfileKey =>
    case ProgressKey =>
    case SkillsKey =>
    case CompletedKey =>
    case DailyKey =>
    case BadgesKey =>
    case CertKey =>
    case SettingsKey =>
    case AdminHashKey =>
    case AdminSaltKey =>
    case StudentsKey =>
  }

  /** The keys a student's reset removes. */
  const StudentKeys: seq<Key> := [ProfileKey, ProgressKey, SkillsKey, CompletedKey, DailyKey, BadgesKey, CertKey]

  datatype Profile = Profile(name: string, className: string)

  datatype Progress = Progress(xp: int, level: int, textsCompleted: int, totalCorrect: int, totalAnswered: int)

  /** Per-skill record: the recent outcomes (true = correct), the derived
      mastery percentage and the lifetime counters. */
  datatype SkillRecord = SkillRecord(attempts: seq<bool>, mastery: int, totalCorrect: int, totalAnswered: int)

  datatype CompletedText = CompletedText(id: string, score: int, attempts: int, lastDate: string)

  datatype DailyState = DailyState(lastDate: Option<Day>, streak: int, todayDone: bool, todayTextId: Option<string>)

  datatype Certificate = Certificate(
    name: string, className: string, date: string, avgPercent: int, grade: string,
    verificationId: string, xp: int, textsCompleted: int)

  datatype Settings = Settings(soundEnabled: bool, darkMode: bool)

  /** A roster entry of the instructor view. */
  datatype Snapshot = Snapshot(
    name: string, className: string, xp: int, level: int, textsCompleted: int,
    totalCorrect: int, totalAnswered: int, skills: map<int, int>, lastActive: string)

  /** What a key holds: an empty string, text that does not parse, or a value. */
  datatype Slot =
    | Blank
    | Garbage
    | ProfileSlot(profile: Profile)
    | ProgressSlot(progress: Progress)
    | SkillsSlot(skills: map<int, SkillRecord>)
    | CompletedSlot(completed: seq<CompletedText>)
    | DailySlot(daily: DailyState)
    | BadgesSlot(badges: seq<string>)
    | CertSlot(cert: Certificate)
    | SettingsSlot(settings: Settings)
    | TextSlot(text: string)
    | StudentsSlot(students: seq<Snapshot>)

  type Data = map<Key, Slot>

  // ----- Reading with fallback -----

  /** The stored value under `k`, or None when the key is absent, holds an
      empty string, or does not parse: in those cases the caller's fallback
      applies. */
  function Get(data: Data, k: Key): Option<Slot>
  {
    if k in data && data[k] != Blank && data[k] != Garbage then Some(data[k]) else None
  }

  /** A slot yields nothing exactly when it is absent, empty or
      unparsable, and otherwise the stored value itself. */
  lemma GetUsable(data: Data, k: Key)
    ensures Get(data, k).None? <==> Unusable(data, k)
    ensures Get(data, k).Some? ==> k in data && Get(data, k).value == data[k]
    ensures Get(data, k).Some? ==> Get(data, k).value != Blank && Get(data, k).value != Garbage
  { }

  const DefaultProgress := Progress(0, 1, 0, 0, 0)
  const EmptyRecord := SkillRecord([], 0, 0, 0)
  const DefaultDaily := DailyState(None, 0, false, None)

  /** The skill map of a fresh student: skills 1..15, nothing attempted. */
  function InitialSkills(): map<int, SkillRecord>
  {
    map i | i in SkillIds :: EmptyRecord
  }

  function ReadProfile(data: Data): Option<Profile>
  {
    match Get(data, ProfileKey)
    case Some(ProfileSlot(p)) => Some(p)
    case _ => None
  }

  function ReadProgress(data: Data): Progress
  {
    match Get(data, ProgressKey)
    case Some(ProgressSlot(p)) => p
    case _ => DefaultProgress
  }

  function ReadSkills(data: Data): map<int, SkillRecord>
  {
    match Get(data, SkillsKey)
    case Some(SkillsSlot(s)) => s
    case _ => InitialSkills()
  }

  function ReadCompleted(data: Data): seq<CompletedText>
  {
    match Get(data, CompletedKey)
    case Some(CompletedSlot(c)) => c
    case _ => []
  }

  function ReadDaily(data: Data): DailyState
  {
    match Get(data, DailyKey)
    case Some(DailySlot(d)) => d
    case _ => DefaultDaily
  }

  function ReadBadges(data: Data): seq<string>
  {
    match Get(data, BadgesKey)
    case Some(BadgesSlot(b)) => b
    case _ => []
  }

  function ReadCert(data: Data): Option<Certificate>
  {
    match Get(data, CertKey)
    case Some(CertSlot(c)) => Some(c)
    case _ => None
  }

  function ReadStudents(data: Data): seq<Snapshot>
  {
    match Get(data, StudentsKey)
    case Some(StudentsSlot(s)) => s
    case _ => []
  }

  /** A key that is absent, empty or unparsable. */
  predicate Unusable(data: Data, k: Key)
  {
    k !in data || data[k] == Blank || data[k] == Garbage
  }

  /** With nothing usable stored, every reader yields its documented default:
      no profile, xp 0 at level 1 with all counters 0, skills 1..15 each with
      no attempts, mastery 0 and counters 0, nothing completed, no daily
      challenge yet, no badges, no certificate, an empty roster. */
  lemma FreshStartDefaults(data: Data)
    requires forall k :: Unusable(data, k)
    ensures ReadProfile(data) == None
    ensures ReadProgress(data) == Progress(0, 1, 0, 0, 0)
    ensures ReadSkills(data).Keys == SkillIds
    ensures forall i :: i in SkillIds ==> ReadSkills(data)[i] == SkillRecord([], 0, 0, 0)
    ensures ReadCompleted(data) == [] && ReadBadges(data) == [] && ReadStudents(data) == []
    ensures ReadDaily(data) == DailyState(None, 0, false, None)
    ensures ReadCert(data) == None
  {
    assert Unusable(data, ProfileKey) && Unusable(data, ProgressKey) && Unusable(data, SkillsKey);
    assert Unusable(data, CompletedKey) && Unusable(data, BadgesKey) && Unusable(data, StudentsKey);
    assert Unusable(data, DailyKey) && Unusable(data, CertKey);
  }

  /** Every reader returns the value stored under its key when there is a
      usable one, and its fallback when the key is absent, empty or does not
      parse. */
  lemma StoredOrFallback(data: Data)
    ensures Unusable(data, ProfileKey) ==> ReadProfile(data) == None
    ensures !Unusable(data, ProfileKey) && data[ProfileKey].ProfileSlot? ==> ReadProfile(data) == Some(data[ProfileKey].profile)
    ensures Unusable(data, ProgressKey) ==> ReadProgress(data) == DefaultProgress
    ensures !Unusable(data, ProgressKey) && data[ProgressKey].ProgressSlot? ==> ReadProgress(data) == data[ProgressKey].progress
    ensures Unusable(data, SkillsKey) ==> ReadSkills(data) == InitialSkills()
    ensures !Unusable(data, SkillsKey) && data[SkillsKey].SkillsSlot? ==> ReadSkills(data) == data[SkillsKey].skills
    ensures Unusable(data, CompletedKey) ==> ReadCompleted(data) == []
    ensures !Unusable(data, CompletedKey) && data[CompletedKey].CompletedSlot? ==> ReadCompleted(data) == data[CompletedKey].completed
    ensures Unusable(data, DailyKey) ==> ReadDaily(data) == DefaultDaily
    ensures !Unusable(data, DailyKey) && data[DailyKey].DailySlot? ==> ReadDaily(data) == data[DailyKey].daily
    ensures Unusable(data, BadgesKey) ==> ReadBadges(data) == []
    ensures !Unusable(data, BadgesKey) && data[BadgesKey].BadgesSlot? ==> ReadBadges(data) == data[BadgesKey].badges
    ensures Unusable(data, CertKey) ==> ReadCert(data) == None
    ensures !Unusable(data, CertKey) && data[CertKey].CertSlot? ==> ReadCert(data) == Some(data[CertKey].cert)
    ensures Unusable(data, StudentsKey) ==> ReadStudents(data) == []
    ensures !Unusable(data, StudentsKey) && data[StudentsKey].StudentsSlot? ==> ReadStudents(data) == data[StudentsKey].students
  {
  }

  /** A value written under its key is what the reader returns next. */
  lemma WriteThenRead(data: Data, p: Progress, s: map<int, SkillRecord>, d: DailyState, b: seq<string>)
    ensures ReadProgress(data[ProgressKey := ProgressSlot(p)]) == p
    ensures ReadSkills(data[SkillsKey := SkillsSlot(s)]) == s
    ensures ReadDaily(data[DailyKey := DailySlot(d)]) == d
    ensures ReadBadges(data[BadgesKey := BadgesSlot(b)]) == b
  {
  }

  /** Builds the default skill map the way the storage layer does, one skill
      at a time. */
  method DefaultSkillData() returns (init: map<int, SkillRecord>)
    ensures init.Keys == SkillIds
    ensures forall i :: i in init ==> init[i] == SkillRecord([], 0, 0, 0)
    ensures init == InitialSkills()
  {
    init := map[];
    for i := 1 to 16
      invariant forall j :: j in init <==> j in SkillIds && j < i
      invariant forall j :: j in init ==> init[j] == EmptyRecord
    {
      init := init[i := EmptyRecord];
    }
    assert forall j :: j in init.Keys <==> j in SkillIds;
  }

  // ----- Completed passages -----

  /** Position of the first record for passage `id`, or -1. */
  function IndexOfText(arr: seq<CompletedText>, id: string): (i: int)
    ensures -1 <= i < |arr|
    ensures i >= 0 ==> arr[i].id == id && forall j :: 0 <= j < i ==> arr[j].id != id
    ensures i == -1 ==> forall j :: 0 <= j < |arr| ==> arr[j].id != id
  {
    if |arr| == 0 then -1
    else if arr[|arr| - 1].id != id then IndexOfText(arr[..|arr| - 1], id)
    else
      var k := IndexOfText(arr[..|arr| - 1], id);
      if k >= 0 then k else |arr| - 1
  }

  /** The completed-passages list after finishing passage `id` with `score`. */
  function RecordCompletion(arr: seq<CompletedText>, id: string, score: int, now: string): seq<CompletedText>
  {
    var i := IndexOfText(arr, id);
    if i >= 0 then
      var ex := arr[i];
      arr[i := ex.(score := Max(ex.score, score), attempts := OrDefault(ex.attempts, 1) + 1, lastDate := now)]
    else
      arr + [CompletedText(id, score, 1, now)]
  }

  predicate UniqueIds(arr: seq<CompletedText>)
  {
    forall i, j :: 0 <= i < j < |arr| ==> arr[i].id != arr[j].id
  }

  /** Finishing a passage keeps one record per passage, never lowers a best
      score, and touches no other passage's record. */
  lemma RecordCompletionSpec(arr: seq<CompletedText>, id: string, score: int, now: string)
    requires UniqueIds(arr)
    ensures var r := RecordCompletion(arr, id, score, now);
      && UniqueIds(r)
      && (exists i :: 0 <= i < |r| && r[i].id == id && r[i].score >= score && r[i].lastDate == now)
      && (forall i :: 0 <= i < |arr| && arr[i].id != id ==> r[i] == arr[i])
      && (forall i :: 0 <= i < |arr| ==> r[i].id == arr[i].id && r[i].score >= arr[i].score)
      && (IndexOfText(arr, id) >= 0 ==> |r| == |arr|)
      && (IndexOfText(arr, id) == -1 ==> r == arr + [CompletedText(id, score, 1, now)])
    ensures var r, k := RecordCompletion(arr, id, score, now), IndexOfText(arr, id);
      k >= 0 ==> r == arr[k := CompletedText(id, Max(arr[k].score, score), OrDefault(arr[k].attempts, 1) + 1, now)]
  {
    var r := RecordCompletion(arr, id, score, now);
    var k := IndexOfText(arr, id);
    if k >= 0 {
      assert r[k].id == id && r[k].score >= score;
    } else {
      assert r[|arr|].id == id;
    }
  }

  // ----- Roster snapshots -----

  /** The mastery per skill 1..15 recorded in a snapshot (0 when the skill has no record). */
  function SnapshotMastery(skills: map<int, SkillRecord>): map<int, int>
  {
    map i | i in SkillIds :: if i in skills then skills[i].mastery else 0
  }

  /** Builds the snapshot's skill map one skill at a time. */
  method SnapshotSkills(skills: map<int, SkillRecord>) returns (m: map<int, int>)
    ensures m.Keys == SkillIds
    ensures forall i :: i in SkillIds && i in skills ==> m[i] == skills[i].mastery
    ensures forall i :: i in SkillIds && i !in skills ==> m[i] == 0
    ensures m == SnapshotMastery(skills)
  {
    m := map[];
    for i := 1 to 16
      invariant forall j :: j in m <==> j in SkillIds && j < i
      invariant forall j :: j in m ==> m[j] == if j in skills then skills[j].mastery else 0
    {
      m := m[i := if i in skills then skills[i].mastery else 0];
    }
    assert forall j :: j in m.Keys <==> j in SkillIds;
  }

  /** Position of the roster entry of (name, className), or -1. */
  function IndexOfStudent(students: seq<Snapshot>, name: string, className: string): (i: int)
    ensures -1 <= i < |students|
    ensures i >= 0 ==> students[i].name == name && students[i].className == className
    ensures i >= 0 ==> forall j :: 0 <= j < i ==> !(students[j].name == name && students[j].className == className)
    ensures i == -1 ==> forall j :: 0 <= j < |students| ==> !(students[j].name == name && students[j].className == className)
  {
    if |students| == 0 then -1
    else
      var k := IndexOfStudent(students[..|students| - 1], name, className);
      if k >= 0 then k
      else if students[|students| - 1].name == name && students[|students| - 1].className == className then |students| - 1
      else -1
  }

  /** The roster after saving `snap`: the entry of the same pair is replaced, or `snap` is appended. */
  function UpsertSnapshot(students: seq<Snapshot>, snap: Snapshot): seq<Snapshot>
  {
    var i := IndexOfStudent(students, snap.name, snap.className);
    if i >= 0 then
      students[i := snap]
    else
      students + [snap]
  }

  predicate SamePair(a: Snapshot, b: Snapshot)
  {
    a.name == b.name && a.className == b.className
  }

  predicate OnePerPair(students: seq<Snapshot>)
  {
    forall i, j :: 0 <= i < j < |students| ==> !SamePair(students[i], students[j])
  }

  /** Saving keeps at most one entry per (name, class), the saved snapshot is
      the entry of its pair, and every other pair's entry is unchanged. */
  lemma UpsertSnapshotSpec(students: seq<Snapshot>, snap: Snapshot)
    requires OnePerPair(students)
    ensures var r := UpsertSnapshot(students, snap);
      && OnePerPair(r)
      && snap in r
      && (forall i :: 0 <= i < |students| && !SamePair(students[i], snap) ==> r[i] == students[i])
      && |r| == |students| + (if IndexOfStudent(students, snap.name, snap.className) >= 0 then 0 else 1)
  {
    var r := UpsertSnapshot(students, snap);
    var k := IndexOfStudent(students, snap.name, snap.className);
    if k >= 0 {
      assert r[k] == snap;
    } else {
      assert r[|students|] == snap;
    }
  }

  function MakeSnapshot(profile: Profile, progress: Progress, skills: map<int, SkillRecord>, now: string): Snapshot
  {
    Snapshot(profile.name, profile.className, progress.xp, progress.level, progress.textsCompleted,
             progress.totalCorrect, progress.totalAnswered, SnapshotMastery(skills), now)
  }

  /** The store after a snapshot save: unchanged without a profile, else the
      roster with the current snapshot upserted. */
  function SnapshotSaved(data: Data, now: string): Data
  {
    match ReadProfile(data)
    case None => data
    case Some(profile) =>
      data[StudentsKey := StudentsSlot(UpsertSnapshot(ReadStudents(data),
        MakeSnapshot(profile, ReadProgress(data), ReadSkills(data), now)))]
  }

  /** The store after `addCompletedText`. */
  function CompletionAdded(data: Data, id: string, score: int, now: string): Data
  {
    data[CompletedKey := CompletedSlot(RecordCompletion(ReadCompleted(data), id, score, now))]
  }

  // ----- The store itself -----

  class Store {
    var data: Data

    constructor (saved: Data)
      ensures data == saved
    {
      data := saved;
    }

    function GetProfile(): Option<Profile> reads this { ReadProfile(data) }
    function GetProgress(): Progress reads this { ReadProgress(data) }
    function GetSkillData(): map<int, SkillRecord> reads this { ReadSkills(data) }
    function GetCompletedTexts(): seq<CompletedText> reads this { ReadCompleted(data) }
    function GetDailyData(): DailyState reads this { ReadDaily(data) }
    function GetBadges(): seq<string> reads this { ReadBadges(data) }
    function GetCertData(): Option<Certificate> reads this { ReadCert(data) }
    function GetStudents(): seq<Snapshot> reads this { ReadStudents(data) }

    method SetProfile(p: Profile)
      modifies this
      ensures data == old(data)[ProfileKey := ProfileSlot(p)]
    {
      data := data[ProfileKey := ProfileSlot(p)];
    }

    method SetProgress(p: Progress)
      modifies this
      ensures data == old(data)[ProgressKey := ProgressSlot(p)]
    {
      data := data[ProgressKey := ProgressSlot(p)];
    }

    method SetSkillData(s: map<int, SkillRecord>)
      modifies this
      ensures data == old(data)[SkillsKey := SkillsSlot(s)]
    {
      data := data[SkillsKey := SkillsSlot(s)];
    }

    method SetDailyData(d: DailyState)
      modifies this
      ensures data == old(data)[DailyKey := DailySlot(d)]
    {
      data := data[DailyKey := DailySlot(d)];
    }

    method SetBadges(b: seq<string>)
      modifies this
      ensures data == old(data)[BadgesKey := BadgesSlot(b)]
    {
      data := data[BadgesKey := BadgesSlot(b)];
    }

    method SetCertData(c: Certificate)
      modifies this
      ensures data == old(data)[CertKey := CertSlot(c)]
    {
      data := data[CertKey := CertSlot(c)];
    }

    /** Records a finished passage: raises its best score and attempt count,
        or appends a first record. */
    method AddCompletedText(textId: string, score: int, now: string)
      modifies this
      ensures data == CompletionAdded(old(data), textId, score, now)
    {
      var arr := ReadCompleted(data);
      var i := 0;
      while i < |arr| && arr[i].id != textId
        invariant 0 <= i <= |arr|
        invariant forall j :: 0 <= j < i ==> arr[j].id != textId
      {
        i := i + 1;
      }
      if i < |arr| {
        var ex := arr[i];
        arr := arr[i := ex.(score := Max(ex.score, score), attempts := OrDefault(ex.attempts, 1) + 1, lastDate := now)];
      } else {
        arr := arr + [CompletedText(textId, score, 1, now)];
      }
      data := data[CompletedKey := CompletedSlot(arr)];
    }

    /** Upserts the current student's roster entry; does nothing without a profile. */
    method SaveStudentSnapshot(now: string)
      modifies this
      ensures data == SnapshotSaved(old(data), now)
    {
      var profile := ReadProfile(data);
      if profile.None? {
        return;
      }
      var progress := ReadProgress(data);
      var skills := ReadSkills(data);
      var students := ReadStudents(data);
      var existing := -1;
      var i := 0;
      while i < |students| && existing < 0
        invariant 0 <= i <= |students|
        invariant existing == -1 || (existing == i - 1 && existing == IndexOfStudent(students, profile.value.name, profile.value.className))
        invariant existing == -1 ==> forall j :: 0 <= j < i ==>
          !(students[j].name == profile.value.name && students[j].className == profile.value.className)
      {
        if students[i].name == profile.value.name && students[i].className == profile.value.className {
          existing := i;
        }
        i := i + 1;
      }
      var snapSkills := SnapshotSkills(skills);
      var snapshot := Snapshot(profile.value.name, profile.value.className, progress.xp, progress.level,
                               progress.textsCompleted, progress.totalCorrect, progress.totalAnswered,
                               snapSkills, now);
      if existing >= 0 {
        students := students[existing := snapshot];
      } else {
        students := students + [snapshot];
      }
      data := data[StudentsKey := StudentsSlot(students)];
    }

    /** Removes the student's own keys; settings, the instructor credentials
        and the roster stay. */
    method ClearStudentData()
      modifies this
      ensures data.Keys == old(data).Keys - set k | k in StudentKeys
      ensures forall k :: k in data ==> data[k] == old(data)[k]
      ensures forall k :: k in old(data) && k in {SettingsKey, AdminHashKey, AdminSaltKey, StudentsKey} ==> k in data
    {
      for i := 0 to |StudentKeys|
        invariant data.Keys == old(data).Keys - set k | k in StudentKeys[..i]
        invariant forall k :: k in data ==> data[k] == old(data)[k]
      {
        data := data - {StudentKeys[i]};
      }
    }

    /** Removes every key of the store. */
    method ClearAllData()
      modifies this
      ensures data == map[]
    {
      for i := 0 to |AllKeys|
        invariant data.Keys == old(data).Keys - set k | k in AllKeys[..i]
      {
        data := data - {AllKeys[i]};
      }
      forall k: Key ensures k !in data {
        KeyListed(k);
      }
      assert data.Keys == {};
    }
  }
}
