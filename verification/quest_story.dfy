/**
 * NIRD Quest's screens and story: the five chapters with their offers,
 * fights and rewards, the dispatch that resumes a saved game or continues
 * after a victory, and the invariants a session keeps. Every handler runs as
 * one atomic step, its timed follow-ups included, up to the next screen that
 * waits for the player.
 */
module QuestStory {
  import opened Wrappers
  import opened QuestData
  import opened QuestCombat

  /** The story screens that wait for a choice. */
  datatype Offer =
    | MissionOffer(explained: bool)
    | AlexOffer
    | LunaOffer
    | PrincipalOffer

  datatype Argument = BudgetArgument | EcoArgument | TechArgument

  datatype Choice = Accept | Explain | Refuse | Welcome | Decline | Argue(argument: Argument)

  datatype Action = UseAttack | UseSpecial | UseFirewall | UsePatch

  datatype Screen =
    | Menu
    | Story(offer: Offer)
    | Combat(fight: Fight)
    | VictoryScreen
    | GameOver
    | AchievementsScreen

  datatype Session = Session(screen: Screen, game: Option<Game>)

  /** The player's clicks; a load delivers the record the save holds. */
  datatype Event =
    | StartNewGame
    | LoadSave(saved: Game)
    | ShowSavedAchievements(saved: Game)
    | Choose(choice: Choice)
    | Act(action: Action)
    | ContinueAfterVictory
    | BackToMenu

  const UsbKey: string := "Cl\U{E9} USB Ubuntu"

  const VirusXp: Enemy := Enemy("Virus Windows XP", 50, 50, 8, 2, 50, 100)
  const SystemBug: Enemy := Enemy("Bug Syst\U{E8}me", 80, 80, 12, 4, 100, 200)
  const CorruptDefender: Enemy := Enemy("Microsoft Defender (corrompu)", 120, 120, 18, 8, 200, 500)
  const MegaBug: Enemy := Enemy("MEGA-BUG BLUESCREEN", 200, 200, 25, 10, 500, 1000)
  const BigTechCeo: Enemy := Enemy("CEO BigTech", 300, 300, 35, 15, 1000, 10000)

  function Opening(): Session {
    Session(Menu, None)
  }

  function AddMoral(g: Game, n: int): Game {
    g.(resources := g.resources.(moral := g.resources.moral + n))
  }

  function AddBudget(g: Game, n: int): Game {
    g.(resources := g.resources.(budget := g.resources.budget + n))
  }

  function ToChapter(g: Game, c: int): Game {
    g.(chapter := c)
  }

  function RecruitIn(g: Game, id: string): (r: Game)
    ensures r == g.(companions := r.companions)
    ensures CompanionsGrow(g.companions, r.companions)
    ensures forall other :: other != id ==> (IsRecruited(r.companions, other) <==> IsRecruited(g.companions, other))
    ensures id in CompanionIds(g.companions) ==> IsRecruited(r.companions, id)
  {
    var r := g.(companions := Recruit(g.companions, id));
    forall other | other != id
      ensures IsRecruited(r.companions, other) <==> IsRecruited(g.companions, other)
    {
      RecruitEffect(g.companions, id, other);
    }
    RecruitSets(g.companions, id);
    r
  }

  function UnlockIn(g: Game, id: string): (r: Game)
    ensures r == g.(achievements := r.achievements)
    ensures AchievementsGrow(g.achievements, r.achievements)
    ensures forall other :: other != id ==> (IsUnlocked(r.achievements, other) <==> IsUnlocked(g.achievements, other))
    ensures id in AchievementIds(g.achievements) ==> IsUnlocked(r.achievements, id)
  {
    var r := g.(achievements := Unlock(g.achievements, id));
    forall other | other != id
      ensures IsUnlocked(r.achievements, other) <==> IsUnlocked(g.achievements, other)
    {
      UnlockEffect(g.achievements, id, other);
    }
    UnlockSets(g.achievements, id);
    r
  }

  /** The enemy each chapter's fight is against; chapter 3's fight only happens after a convincing argument. */
  function BossOf(chapter: int): Enemy {
    match chapter
    case 1 => VirusXp
    case 2 => SystemBug
    case 3 => CorruptDefender
    case 4 => MegaBug
    case _ => BigTechCeo
  }

  /** A record the story can go on from: well formed, player standing. */
  predicate Playable(g: Game) {
    WellFormed(g) && g.player.hp > 0
  }

  /** A fight against the chapter's enemy, as the page starts it and as rounds leave it. */
  predicate FightOk(g: Game, f: Fight) {
    && Fighting(g, f)
    && f.enemy == BossOf(g.chapter).(hp := f.enemy.hp)
  }

  /** The chapter each offer belongs to. */
  predicate OfferOk(g: Game, o: Offer) {
    match o
    case MissionOffer(_) => g.chapter == 1
    case AlexOffer => g.chapter == 1
    case LunaOffer => g.chapter == 2
    case PrincipalOffer => g.chapter == 3
  }

  /** The sessions the page can be in. */
  predicate Valid(s: Session) {
    && (s.game.Some? ==> WellFormed(s.game.value))
    && (!s.screen.Menu? ==> s.game.Some?)
    && (s.screen.Story? || s.screen.Combat? || s.screen.VictoryScreen? ==> s.game.value.player.hp > 0)
    && (s.screen.Story? ==> OfferOk(s.game.value, s.screen.offer))
    && (s.screen.Combat? ==> FightOk(s.game.value, s.screen.fight))
  }

  /** A load hands over a record the game itself saved, which is never one of a fallen player. */
  predicate LoadOk(e: Event) {
    (e.LoadSave? || e.ShowSavedAchievements?) ==> Playable(e.saved)
  }

  function Fights(g: Game, e: Enemy): (r: Session)
    ensures Playable(g) && e == BossOf(g.chapter) ==> Valid(r)
  {
    Session(Combat(StartFight(e)), Some(g))
  }

  /** Where each chapter starts: the first offer, a fight, or the principal's question. */
  function StartChapter(g: Game): (r: Option<Session>)
    ensures r.Some? <==> 1 <= g.chapter <= 5
    ensures r.Some? ==> r.value.game == Some(g)
    ensures r.Some? && Playable(g) ==> Valid(r.value)
  {
    match g.chapter
    case 1 => Some(Session(Story(MissionOffer(false)), Some(g)))
    case 2 => Some(Fights(g, SystemBug))
    case 3 => Some(Session(Story(PrincipalOffer), Some(g)))
    case 4 => Some(Fights(g, MegaBug))
    case 5 => Some(Fights(g, BigTechCeo))
    case _ => None
  }

  /**
   * Resuming as the page is written: chapter 3's opening sets the story text
   * and the principal's choices but never switches the screen, so the page
   * stays on the menu, where no choice is rendered.
   */
  function StartChapterAsWritten(g: Game): (r: Option<Session>)
    ensures r.Some? <==> 1 <= g.chapter <= 5
    ensures r.Some? ==> r.value.game == Some(g)
    ensures r.Some? && Playable(g) ==> Valid(r.value)
    ensures g.chapter != 3 ==> r == StartChapter(g)
  {
    if g.chapter == 3 then Some(Session(Menu, Some(g))) else StartChapter(g)
  }

  /** Chapter 1's mission accepted: +10 moral and the first fight. */
  function AcceptMission(g: Game): (r: Session)
    ensures Playable(g) && g.chapter == 1 ==> Valid(r)
  {
    Fights(AddMoral(g, 10), VirusXp)
  }

  /** The end of chapter 1: +2000 budget, +20 moral, on to chapter 2 and its fight. */
  function ContinueChapter1(g: Game): (r: Session)
    ensures Playable(g) && g.chapter == 1 ==> Valid(r)
  {
    Fights(ToChapter(AddMoral(AddBudget(g, 2000), 20), 2), SystemBug)
  }

  /** The end of chapter 2: on to chapter 3 and the principal's question. */
  function FinishChapter2(g: Game): (r: Session)
    ensures Playable(g) && g.chapter == 2 ==> Valid(r)
  {
    Session(Story(PrincipalOffer), Some(ToChapter(g, 3)))
  }

  /** The end of chapter 3: on to chapter 4 and its fight. */
  function FinishChapter3(g: Game): (r: Session)
    ensures Playable(g) && g.chapter == 3 ==> Valid(r)
  {
    Fights(ToChapter(g, 4), MegaBug)
  }

  /** Which arguments convince the principal: the budget always, the others only with the matching companion. */
  predicate Convinces(g: Game, a: Argument) {
    match a
    case BudgetArgument => true
    case EcoArgument => IsRecruited(g.companions, Eco)
    case TechArgument => IsRecruited(g.companions, Technician)
  }

  /** The principal convinced: +25 moral, +1000 budget and the fight; otherwise -20 moral, -30 time and chapter 4. */
  function ConvincePrincipal(g: Game, a: Argument): (r: Session)
    ensures Playable(g) && g.chapter == 3 ==> Valid(r)
    ensures Convinces(g, a) ==> r.game == Some(g.(resources := g.resources.(
      moral := g.resources.moral + 25, budget := g.resources.budget + 1000)))
    ensures !Convinces(g, a) ==> r.game == Some(g.(chapter := 4, resources := g.resources.(
      moral := g.resources.moral - 20, time := g.resources.time - 30)))
  {
    if Convinces(g, a) then Fights(AddBudget(AddMoral(g, 25), 1000), CorruptDefender)
    else FinishChapter3(g.(resources := g.resources.(moral := g.resources.moral - 20, time := g.resources.time - 30)))
  }

  /** The chapter 4 finale's record: +5000 budget, full moral, chapter 5, the teacher joins, `all_companions` when all have. */
  function Chapter4Rewards(g: Game): (r: Game)
    ensures r.player == g.player && r.inventory == g.inventory && r.chapter == 5
    ensures r.resources == Resources(g.resources.budget + 5000, g.resources.time, 100)
    ensures CompanionsGrow(g.companions, r.companions) && AchievementsGrow(g.achievements, r.achievements)
    ensures Teacher in CompanionIds(g.companions) ==> IsRecruited(r.companions, Teacher)
    ensures forall id :: id != Teacher ==> (IsRecruited(r.companions, id) <==> IsRecruited(g.companions, id))
    ensures forall id :: id != AllCompanions ==> (IsUnlocked(r.achievements, id) <==> IsUnlocked(g.achievements, id))
    ensures IsUnlocked(r.achievements, AllCompanions)
      <==> IsUnlocked(g.achievements, AllCompanions) || (AllRecruited(r.companions) && AllCompanions in AchievementIds(g.achievements))
  {
    var g1 := RecruitIn(g, Teacher);
    var g2 := g1.(resources := Resources(g.resources.budget + 5000, g.resources.time, 100), chapter := 5);
    if AllRecruited(g2.companions) then UnlockIn(g2, AllCompanions) else g2
  }

  function FinishChapter4(g: Game): (r: Session)
    ensures Playable(g) && g.chapter == 4 ==> Valid(r)
  {
    Fights(Chapter4Rewards(g), BigTechCeo)
  }

  /** The end of the game: `hero` unlocked and the achievements screen. */
  function FinishGame(g: Game): (r: Session)
    ensures WellFormed(g) ==> Valid(r)
  {
    Session(AchievementsScreen, Some(UnlockIn(g, Hero)))
  }

  /** The victory screen's button: what comes next depends on the chapter; outside 1 to 5 nothing happens. */
  function AfterVictory(g: Game): (r: Option<Session>)
    ensures r.Some? <==> 1 <= g.chapter <= 5
    ensures r.Some? && Playable(g) ==> Valid(r.value)
    ensures r.Some? ==> r.value.game.Some?
    ensures r.Some? && g.chapter != 4 && g.chapter != 5 ==> r.value.game.value.achievements == g.achievements
    ensures r.Some? && g.chapter == 4 ==> r.value.game.value.achievements == Chapter4Rewards(g).achievements
    ensures r.Some? && g.chapter == 5 ==> r.value.game.value.achievements == UnlockIn(g, Hero).achievements
  {
    match g.chapter
    case 1 => Some(Session(Story(AlexOffer), Some(g.(inventory := g.inventory + [UsbKey]))))
    case 2 => Some(Session(Story(LunaOffer), Some(g)))
    case 3 => Some(FinishChapter3(g))
    case 4 => Some(FinishChapter4(g))
    case 5 => Some(FinishGame(g))
    case _ => None
  }

  /**
   * The victory screen's button as the page is written: in chapter 2 it sets
   * Luna's text and choices but never switches the screen, so the victory
   * screen stays, with the record unchanged.
   */
  function AfterVictoryAsWritten(g: Game): (r: Option<Session>)
    ensures r.Some? <==> 1 <= g.chapter <= 5
    ensures r.Some? && Playable(g) ==> Valid(r.value)
    ensures g.chapter != 2 ==> r == AfterVictory(g)
  {
    if g.chapter == 2 then Some(Session(VictoryScreen, Some(g))) else AfterVictory(g)
  }

  /** A choice on a story screen; a choice the screen does not offer changes nothing. */
  function OnChoice(offer: Offer, c: Choice, g: Game): (r: Option<Session>)
    ensures Playable(g) && OfferOk(g, offer) && r.Some? ==> Valid(r.value)
    ensures r.Some? ==> r.value.game.Some? && r.value.game.value.achievements == g.achievements
  {
    match offer
    case MissionOffer(explained) =>
      (match c
       case Accept => Some(AcceptMission(g))
       case Explain => if explained then None else Some(Session(Story(MissionOffer(true)), Some(g)))
       case Refuse => Some(Session(Menu, Some(g)))
       case _ => None)
    case AlexOffer =>
      (match c
       case Welcome => Some(ContinueChapter1(AddMoral(RecruitIn(g, Technician), 15)))
       case Decline => Some(ContinueChapter1(g))
       case _ => None)
    case LunaOffer =>
      (match c
       case Welcome => Some(FinishChapter2(AddMoral(RecruitIn(g, Eco), 20)))
       case Decline => Some(FinishChapter2(g))
       case _ => None)
    case PrincipalOffer =>
      (match c
       case Argue(a) => Some(ConvincePrincipal(g, a))
       case _ => None)
  }

  /**
   * What every combat round keeps: the companions and the chapter, the
   * achievements except those a victory unlocks, and, from a fight of the
   * chapter, a well-formed record and a fight still of the chapter.
   */
  ghost predicate RoundKeeps(g: Game, f: Fight, r: Round) {
    && r.game.companions == g.companions && r.game.chapter == g.chapter
    && AchievementsGrow(g.achievements, r.game.achievements)
    && (forall id :: id != FirstBlood && id != Rich && id != Level5 ==>
          (IsUnlocked(r.game.achievements, id) <==> IsUnlocked(g.achievements, id)))
    && (FightOk(g, f) ==> WellFormed(r.game))
    && (FightOk(g, f) && r.Ongoing? ==> FightOk(r.game, r.fight))
    && (FightOk(g, f) && r.Won? ==> r.game.player.hp > 0)
  }

  /** The round a combat button plays. */
  function RoundOf(g: Game, f: Fight, a: Action): (r: Round)
    requires g.player.xpToNext >= 1
    ensures RoundKeeps(g, f, r)
  {
    match a
    case UseAttack => StrikeKeeps(g, f, false); Strike(g, f, false)
    case UseSpecial => StrikeKeeps(g, f, true); Strike(g, f, true)
    case UseFirewall => DefendKeeps(g, f); Defend(g, f)
    case UsePatch => HealKeeps(g, f); Heal(g, f)
  }

  lemma StrikeKeeps(g: Game, f: Fight, special: bool)
    requires g.player.xpToNext >= 1
    ensures RoundKeeps(g, f, Strike(g, f, special))
  {
    if Strike(g, f, special).Won? {
      WinKeeps(g, f, special);
    } else {
      assert AchievementsGrow(g.achievements, g.achievements);
    }
  }

  /** A winning strike hands the record to the victory handler, which keeps the chapter's invariants. */
  lemma WinKeeps(g: Game, f: Fight, special: bool)
    requires g.player.xpToNext >= 1 && Strike(g, f, special).Won?
    ensures RoundKeeps(g, f, Strike(g, f, special))
  {
    var r := Strike(g, f, special);
    var g1 := g.(resources := g.resources.(time := r.game.resources.time));
    assert r.game == HandleVictory(g1, f.enemy);
    assert FightOk(g, f) ==> f.enemy.xpReward >= 0 && WellFormed(g1);
  }

  lemma DefendKeeps(g: Game, f: Fight)
    ensures RoundKeeps(g, f, Defend(g, f))
  {
    assert AchievementsGrow(g.achievements, g.achievements);
  }

  lemma HealKeeps(g: Game, f: Fight)
    ensures RoundKeeps(g, f, Heal(g, f))
  {
    assert AchievementsGrow(g.achievements, g.achievements);
  }

  /** One combat round and the screen it leads to. */
  function PlayRound(g: Game, f: Fight, a: Action): (r: Session)
    requires g.player.xpToNext >= 1
    ensures FightOk(g, f) ==> Valid(r)
    ensures r.game.Some? && r.game.value.companions == g.companions && r.game.value.chapter == g.chapter
    ensures AchievementsGrow(g.achievements, r.game.value.achievements)
    ensures forall id :: id != FirstBlood && id != Rich && id != Level5 ==>
      (IsUnlocked(r.game.value.achievements, id) <==> IsUnlocked(g.achievements, id))
  {
    match RoundOf(g, f, a)
    case Ongoing(g1, f1) => Session(Combat(f1), Some(g1))
    case Won(g1, _) => Session(VictoryScreen, Some(g1))
    case Defeated(g1, _) => Session(GameOver, Some(g1))
  }

  /** One click. Screens ignore the clicks they have no button for. */
  function Step(s: Session, e: Event): (r: Session)
    requires Valid(s) && LoadOk(e)
    ensures Valid(r)
  {
    match e
    case StartNewGame =>
      if s.screen.Menu? || s.screen.GameOver? then
        NewGameFacts();
        Session(Story(MissionOffer(false)), Some(NewGame()))
      else s
    case LoadSave(saved) =>
      if s.screen.Menu? then StartChapter(saved).GetOr(Session(Menu, Some(saved))) else s
    case ShowSavedAchievements(saved) =>
      if s.screen.Menu? then Session(AchievementsScreen, Some(saved)) else s
    case Choose(c) =>
      if s.screen.Story? then OnChoice(s.screen.offer, c, s.game.value).GetOr(s) else s
    case Act(a) =>
      if s.screen.Combat? then PlayRound(s.game.value, s.screen.fight, a) else s
    case ContinueAfterVictory =>
      if s.screen.VictoryScreen? then AfterVictory(s.game.value).GetOr(s) else s
    case BackToMenu =>
      if s.screen.Story? || s.screen.GameOver? || s.screen.AchievementsScreen? then s.(screen := Menu) else s
  }

  /** A sequence of clicks. */
  function Run(s: Session, es: seq<Event>): (r: Session)
    requires Valid(s) && forall i :: 0 <= i < |es| ==> LoadOk(es[i])
    ensures Valid(r)
    decreases |es|
  {
    if |es| == 0 then s else Run(Step(s, es[0]), es[1..])
  }

  /** Whether the session's record has achievement `id` unlocked. */
  predicate Has(s: Session, id: string) {
    s.game.Some? && IsUnlocked(s.game.value.achievements, id)
  }

  /** A click that does not replace the record: everything but a new game and the two loads. */
  predicate InPlay(e: Event) {
    !e.StartNewGame? && !e.LoadSave? && !e.ShowSavedAchievements?
  }

  /** A new game, then accepting the mission: +10 moral and the fight against the first virus. */
  lemma NewGameThenAccept()
    ensures Run(Opening(), [StartNewGame, Choose(Accept)])
      == Session(Combat(StartFight(VirusXp)), Some(AddMoral(NewGame(), 10)))
  {
    NewGameFacts();
    var s1 := Step(Opening(), StartNewGame);
    assert [StartNewGame, Choose(Accept)][1..] == [Choose(Accept)];
    assert Run(s1, [Choose(Accept)]) == Run(Step(s1, Choose(Accept)), []);
  }

  /**
   * The principal's question: the budget argument always convinces, the
   * ecological one only with Luna and the technical one only with Alex; a
   * convinced principal leads to the fight of chapter 3, an unconvinced one
   * costs 20 moral and 30 time and skips to chapter 4.
   */
  lemma PrincipalConvincedIff(g: Game, a: Argument)
    requires Playable(g) && g.chapter == 3
    ensures var r := Step(Session(Story(PrincipalOffer), Some(g)), Choose(Argue(a)));
      && (r.screen == Combat(StartFight(CorruptDefender)) <==>
            a == BudgetArgument
            || (a == EcoArgument && IsRecruited(g.companions, Eco))
            || (a == TechArgument && IsRecruited(g.companions, Technician)))
      && (r.screen != Combat(StartFight(CorruptDefender)) ==>
            && r.screen == Combat(StartFight(MegaBug))
            && r.game.value.chapter == 4
            && r.game.value.resources == g.resources.(moral := g.resources.moral - 20, time := g.resources.time - 30))
      && (r.screen == Combat(StartFight(CorruptDefender)) ==>
            r.game == Some(g.(resources := g.resources.(moral := g.resources.moral + 25, budget := g.resources.budget + 1000))))
  {
    assert StartFight(CorruptDefender) != StartFight(MegaBug) by {
      assert CorruptDefender.hp != MegaBug.hp;
    }
  }

  /**
   * A click in play never moves the chapter back and moves it forward by at
   * most one; recruitment and achievements only ever grow.
   */
  lemma StepProgress(s: Session, e: Event)
    requires Valid(s) && LoadOk(e) && s.game.Some? && InPlay(e)
    ensures Step(s, e).game.Some?
    ensures var g, h := s.game.value, Step(s, e).game.value;
      && g.chapter <= h.chapter <= g.chapter + 1
      && CompanionsGrow(g.companions, h.companions)
      && AchievementsGrow(g.achievements, h.achievements)
  {
    var g := s.game.value;
    assert CompanionsGrow(g.companions, g.companions);
    assert AchievementsGrow(g.achievements, g.achievements);
    match e
    case Choose(c) => ChoiceProgress(s, c);
    case ContinueAfterVictory => VictoryProgress(s);
    case Act(_) =>
    case BackToMenu =>
  }

  /** A story choice moves the chapter forward by at most one, and only ever recruits. */
  lemma ChoiceProgress(s: Session, c: Choice)
    requires Valid(s) && s.game.Some?
    ensures Step(s, Choose(c)).game.Some?
    ensures var g, h := s.game.value, Step(s, Choose(c)).game.value;
      && g.chapter <= h.chapter <= g.chapter + 1
      && CompanionsGrow(g.companions, h.companions)
      && h.achievements == g.achievements
  {
    var g := s.game.value;
    assert CompanionsGrow(g.companions, g.companions);
  }

  /** The victory screen's button moves the chapter forward by at most one and only ever recruits and unlocks. */
  lemma VictoryProgress(s: Session)
    requires Valid(s) && s.game.Some?
    ensures Step(s, ContinueAfterVictory).game.Some?
    ensures var g, h := s.game.value, Step(s, ContinueAfterVictory).game.value;
      && g.chapter <= h.chapter <= g.chapter + 1
      && CompanionsGrow(g.companions, h.companions)
      && AchievementsGrow(g.achievements, h.achievements)
  {
    var g := s.game.value;
    assert CompanionsGrow(g.companions, g.companions);
    assert AchievementsGrow(g.achievements, g.achievements);
  }

  /** No click unlocks `pacifist` (unless a load brings a save that has it). */
  lemma StepNeverUnlocksPacifist(s: Session, e: Event)
    requires Valid(s) && LoadOk(e) && !Has(s, Pacifist)
    requires e.LoadSave? || e.ShowSavedAchievements? ==> !IsUnlocked(e.saved.achievements, Pacifist)
    ensures !Has(Step(s, e), Pacifist)
  {
    match e
    case StartNewGame => NewGameFacts();
    case LoadSave(_) =>
    case ShowSavedAchievements(_) =>
    case Choose(c) => NotUnlockedByChoice(s, c, Pacifist);
    case Act(a) => NotUnlockedByRound(s, a, Pacifist);
    case ContinueAfterVictory => NotUnlockedAfterVictory(s, Pacifist);
    case BackToMenu =>
  }

  /** Whatever the player does, `pacifist` stays locked: no handler ever unlocks it. */
  lemma {:induction false} PacifistNeverUnlocked(s: Session, es: seq<Event>)
    requires Valid(s) && !Has(s, Pacifist)
    requires forall i :: 0 <= i < |es| ==> LoadOk(es[i])
    requires forall i :: 0 <= i < |es| ==>
      es[i].LoadSave? || es[i].ShowSavedAchievements? ==> !IsUnlocked(es[i].saved.achievements, Pacifist)
    ensures !Has(Run(s, es), Pacifist)
    decreases |es|
  {
    if |es| > 0 {
      StepNeverUnlocksPacifist(s, es[0]);
      PacifistNeverUnlocked(Step(s, es[0]), es[1..]);
    }
  }

  /** `hero` is unlocked by the victory of chapter 5 and by nothing else in play. */
  lemma HeroOnlyAtTheEnd(s: Session, e: Event)
    requires Valid(s) && LoadOk(e) && InPlay(e) && !Has(s, Hero)
    ensures Has(Step(s, e), Hero) <==> e == ContinueAfterVictory && s.screen == VictoryScreen && s.game.value.chapter == 5
  {
    match e
    case ContinueAfterVictory => HeroAfterVictory(s);
    case Choose(c) => NotUnlockedByChoice(s, c, Hero);
    case Act(a) => NotUnlockedByRound(s, a, Hero);
    case BackToMenu =>
  }

  lemma HeroAfterVictory(s: Session)
    requires Valid(s) && !Has(s, Hero)
    ensures Has(Step(s, ContinueAfterVictory), Hero) <==> s.screen == VictoryScreen && s.game.value.chapter == 5
  {
    if s.screen.VictoryScreen? {
      var g := s.game.value;
      if g.chapter == 5 {
        assert Hero in AchievementIds(g.achievements) by {
          InitialAchievementsFacts();
        }
      } else if g.chapter == 4 {
        assert Hero != AllCompanions;
      }
    }
  }

  /** Story choices never unlock anything. */
  lemma NotUnlockedByChoice(s: Session, c: Choice, id: string)
    requires Valid(s) && !Has(s, id)
    ensures !Has(Step(s, Choose(c)), id)
  {
  }

  /** A combat round unlocks only what a victory or a level-up does. */
  lemma NotUnlockedByRound(s: Session, a: Action, id: string)
    requires Valid(s) && !Has(s, id) && id != FirstBlood && id != Rich && id != Level5
    ensures !Has(Step(s, Act(a)), id)
  {
  }

  /** The victory screen's button unlocks only `all_companions` or `hero`. */
  lemma NotUnlockedAfterVictory(s: Session, id: string)
    requires Valid(s) && !Has(s, id) && id != AllCompanions && id != Hero
    ensures !Has(Step(s, ContinueAfterVictory), id)
  {
  }

  /**
   * `all_companions` is unlocked at the end of chapter 4 exactly when Alex and
   * Luna were both recruited, since the teacher joins then.
   */
  lemma AllCompanionsIff(g: Game)
    requires WellFormed(g)
    ensures IsUnlocked(Chapter4Rewards(g).achievements, AllCompanions)
      <==> IsUnlocked(g.achievements, AllCompanions)
           || (IsRecruited(g.companions, Technician) && IsRecruited(g.companions, Eco))
  {
    assert Teacher in CompanionIds(g.companions) by {
      InitialCompanionsFacts();
    }
    assert AllCompanions in AchievementIds(g.achievements) by {
      InitialAchievementsFacts();
    }
    AllRecruitedIff(Chapter4Rewards(g).companions);
  }

  /**
   * With the intended resume, each chapter's end lands where resuming a save
   * of the next chapter lands, so a save taken at a chapter change resumes
   * the same story. As written, the save taken at the end of chapter 2
   * resumes on the menu instead of the principal's question.
   */
  lemma ResumeMatchesAdvance(g: Game)
    ensures g.chapter == 1 ==> Some(ContinueChapter1(g)) == StartChapter(ToChapter(AddMoral(AddBudget(g, 2000), 20), 2))
    ensures g.chapter == 2 ==> Some(FinishChapter2(g)) == StartChapter(ToChapter(g, 3))
    ensures g.chapter == 2 ==> Some(FinishChapter2(g)) != StartChapterAsWritten(ToChapter(g, 3))
    ensures g.chapter == 3 ==> AfterVictory(g) == StartChapter(ToChapter(g, 4))
    ensures g.chapter == 4 ==> AfterVictory(g) == StartChapter(Chapter4Rewards(g))
  {
  }

  /**
   * As written, resuming a chapter-3 save leaves the page on the menu, and no
   * click short of another load or a new game moves it: the principal's
   * question is never shown. The intended resume shows it at once.
   */
  lemma {:induction false} ChapterThreeResumeAsWritten(g: Game, es: seq<Event>)
    requires Playable(g) && g.chapter == 3
    requires forall i :: 0 <= i < |es| ==> InPlay(es[i]) && LoadOk(es[i])
    ensures StartChapterAsWritten(g) == Some(Session(Menu, Some(g)))
    ensures Run(Session(Menu, Some(g)), es) == Session(Menu, Some(g))
    ensures StartChapter(g) == Some(Session(Story(PrincipalOffer), Some(g)))
    decreases |es|
  {
    if |es| > 0 {
      ChapterThreeResumeAsWritten(g, es[1..]);
    }
  }

  /**
   * As written, the victory screen's button in chapter 2 gives back the very
   * session it was pressed on, so pressing it again does the same and Luna's
   * offer never shows; the intended continuation shows it.
   */
  lemma ChapterTwoVictoryAsWritten(g: Game)
    requires g.chapter == 2
    ensures AfterVictoryAsWritten(g) == Some(Session(VictoryScreen, Some(g)))
    ensures AfterVictory(g) == Some(Session(Story(LunaOffer), Some(g)))
  {
  }
}
