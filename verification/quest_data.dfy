/**
 * The fixed tables NIRD Quest starts from: three companions, six achievements
 * and the three distributions, with lookup, recruitment and unlocking by id.
 */
module QuestData {
  datatype Companion = Companion(id: string, recruited: bool)

  datatype Achievement = Achievement(id: string, unlocked: bool)

  datatype Distribution = Distribution(key: string, attack: int, defense: int, hp: int)

  const Technician: string := "technician"
  const Eco: string := "eco"
  const Teacher: string := "teacher"

  const FirstBlood: string := "first_blood"
  const Level5: string := "level_5"
  const AllCompanions: string := "all_companions"
  const Rich: string := "rich"
  const Hero: string := "hero"
  const Pacifist: string := "pacifist"

  function InitialCompanions(): seq<Companion> {
    [Companion(Technician, false), Companion(Eco, false), Companion(Teacher, false)]
  }

  function InitialAchievements(): seq<Achievement> {
    [ Achievement(FirstBlood, false), Achievement(Level5, false), Achievement(AllCompanions, false),
      Achievement(Rich, false), Achievement(Hero, false), Achievement(Pacifist, false) ]
  }

  /** The distribution cards of the menu; the starting stats do not come from them. */
  function Distributions(): seq<Distribution> {
    [ Distribution("ubuntu", 10, 8, 120),
      Distribution("debian", 8, 12, 140),
      Distribution("arch", 15, 5, 100) ]
  }

  /** The position of the first entry with `id`, as `find` picks it, or -1. */
  function IndexOf(ids: seq<string>, id: string): (k: int)
    ensures -1 <= k < |ids|
    ensures k >= 0 ==> ids[k] == id && forall j :: 0 <= j < k ==> ids[j] != id
    ensures k == -1 <==> id !in ids
  {
    if |ids| == 0 then -1
    else if ids[0] == id then 0
    else
      var k := IndexOf(ids[1..], id);
      if k == -1 then -1 else k + 1
  }

  /** The ids of a table in order, as `find(x => x.id === id)` scans them. */
  function Ids<T>(xs: seq<T>, id: T -> string): (ids: seq<string>)
    ensures |ids| == |xs| && forall i :: 0 <= i < |xs| ==> ids[i] == id(xs[i])
  {
    seq(|xs|, i requires 0 <= i < |xs| => id(xs[i]))
  }

  function CompanionId(c: Companion): string { c.id }

  function AchievementId(a: Achievement): string { a.id }

  function CompanionIds(cs: seq<Companion>): seq<string> {
    Ids(cs, CompanionId)
  }

  function AchievementIds(a: seq<Achievement>): seq<string> {
    Ids(a, AchievementId)
  }

  /** `companions.find(c => c.id === id)?.recruited`, with a missing companion read as not recruited. */
  predicate IsRecruited(cs: seq<Companion>, id: string) {
    var k := IndexOf(CompanionIds(cs), id);
    k >= 0 && cs[k].recruited
  }

  predicate IsUnlocked(a: seq<Achievement>, id: string) {
    var k := IndexOf(AchievementIds(a), id);
    k >= 0 && a[k].unlocked
  }

  /** Sets `recruited` on the companion `find` returns; nothing when there is none. */
  function Recruit(cs: seq<Companion>, id: string): (r: seq<Companion>)
    ensures CompanionIds(r) == CompanionIds(cs)
    ensures forall i :: 0 <= i < |cs| ==> r[i].recruited == (cs[i].recruited || i == IndexOf(CompanionIds(cs), id))
  {
    var k := IndexOf(CompanionIds(cs), id);
    if k >= 0 then cs[k := cs[k].(recruited := true)] else cs
  }

  /** Sets `unlocked` on the achievement `find` returns; nothing when there is none. */
  function Unlock(a: seq<Achievement>, id: string): (r: seq<Achievement>)
    ensures AchievementIds(r) == AchievementIds(a)
    ensures forall i :: 0 <= i < |a| ==> r[i].unlocked == (a[i].unlocked || i == IndexOf(AchievementIds(a), id))
  {
    var k := IndexOf(AchievementIds(a), id);
    if k >= 0 then a[k := a[k].(unlocked := true)] else a
  }

  /** `companions.every(c => c.recruited)`. */
  predicate AllRecruited(cs: seq<Companion>) {
    forall i :: 0 <= i < |cs| ==> cs[i].recruited
  }

  /** Recruitment only ever goes from false to true, over the same companions. */
  predicate CompanionsGrow(before: seq<Companion>, after: seq<Companion>) {
    && CompanionIds(after) == CompanionIds(before)
    && forall i :: 0 <= i < |before| ==> before[i].recruited ==> after[i].recruited
  }

  /** Unlocking only ever goes from false to true, over the same achievements. */
  predicate AchievementsGrow(before: seq<Achievement>, after: seq<Achievement>) {
    && AchievementIds(after) == AchievementIds(before)
    && forall i :: 0 <= i < |before| ==> before[i].unlocked ==> after[i].unlocked
  }

  predicate DistinctIds(ids: seq<string>) {
    forall i, j :: 0 <= i < j < |ids| ==> ids[i] != ids[j]
  }

  /** The companion table: three distinct ids, nobody recruited. */
  lemma InitialCompanionsFacts()
    ensures CompanionIds(InitialCompanions()) == [Technician, Eco, Teacher]
    ensures DistinctIds(CompanionIds(InitialCompanions()))
    ensures forall i :: 0 <= i < 3 ==> !InitialCompanions()[i].recruited
  {
    assert CompanionIds(InitialCompanions()) == [Technician, Eco, Teacher];
  }

  /** Over the companion table, all are recruited exactly when Alex, Luna and the teacher each are. */
  lemma AllRecruitedIff(cs: seq<Companion>)
    requires CompanionIds(cs) == CompanionIds(InitialCompanions())
    ensures AllRecruited(cs) <==> IsRecruited(cs, Technician) && IsRecruited(cs, Eco) && IsRecruited(cs, Teacher)
  {
    InitialCompanionsFacts();
    var ids := CompanionIds(cs);
    assert IndexOf(ids, Technician) == 0;
    assert IndexOf(ids, Eco) == 1;
    assert IndexOf(ids, Teacher) == 2;
  }

  /** The achievement table: six distinct ids, nothing unlocked. */
  lemma InitialAchievementsFacts()
    ensures AchievementIds(InitialAchievements()) == [FirstBlood, Level5, AllCompanions, Rich, Hero, Pacifist]
    ensures DistinctIds(AchievementIds(InitialAchievements()))
    ensures forall i :: 0 <= i < 6 ==> !InitialAchievements()[i].unlocked
  {
    var ids := AchievementIds(InitialAchievements());
    assert ids == [FirstBlood, Level5, AllCompanions, Rich, Hero, Pacifist];
    assert ids[0][0] == 'f' && ids[1][0] == 'l' && ids[2][0] == 'a'
      && ids[3][0] == 'r' && ids[4][0] == 'h' && ids[5][0] == 'p';
  }

  /** The distribution table: keys ubuntu, debian and arch, every stat positive. */
  lemma DistributionsFacts()
    ensures |Distributions()| == 3
    ensures Distributions()[0].key == "ubuntu" && Distributions()[1].key == "debian" && Distributions()[2].key == "arch"
    ensures forall i :: 0 <= i < 3 ==>
      Distributions()[i].attack > 0 && Distributions()[i].defense > 0 && Distributions()[i].hp > 0
  {
  }

  /** After recruiting `id` it reads as recruited exactly when present, and recruitment only grows. */
  lemma RecruitSets(cs: seq<Companion>, id: string)
    ensures IsRecruited(Recruit(cs, id), id) <==> id in CompanionIds(cs)
    ensures CompanionsGrow(cs, Recruit(cs, id))
  {
  }

  /** Recruiting `id` changes no other companion. */
  lemma RecruitEffect(cs: seq<Companion>, id: string, other: string)
    requires other != id
    ensures IsRecruited(Recruit(cs, id), other) == IsRecruited(cs, other)
  {
  }

  /** After unlocking `id` it reads as unlocked exactly when present, and unlocking only grows. */
  lemma UnlockSets(a: seq<Achievement>, id: string)
    ensures IsUnlocked(Unlock(a, id), id) <==> id in AchievementIds(a)
    ensures AchievementsGrow(a, Unlock(a, id))
  {
  }

  /** Unlocking `id` changes no other achievement. */
  lemma UnlockEffect(a: seq<Achievement>, id: string, other: string)
    requires other != id
    ensures IsUnlocked(Unlock(a, id), other) == IsUnlocked(a, other)
  {
  }

  lemma CompanionsGrowTransitive(a: seq<Companion>, b: seq<Companion>, c: seq<Companion>)
    requires CompanionsGrow(a, b) && CompanionsGrow(b, c)
    ensures CompanionsGrow(a, c)
  {
    assert |a| == |CompanionIds(a)| == |CompanionIds(b)| == |b|;
  }

  lemma AchievementsGrowTransitive(a: seq<Achievement>, b: seq<Achievement>, c: seq<Achievement>)
    requires AchievementsGrow(a, b) && AchievementsGrow(b, c)
    ensures AchievementsGrow(a, c)
  {
    assert |a| == |AchievementIds(a)| == |AchievementIds(b)| == |b|;
  }

  /** Growth keeps an achievement unlocked once it is. */
  lemma GrowKeepsUnlocked(a: seq<Achievement>, b: seq<Achievement>, id: string)
    requires AchievementsGrow(a, b) && IsUnlocked(a, id)
    ensures IsUnlocked(b, id)
  {
  }
}
