/**
 * NIRD Quest's game record and combat rules: damage with the technician's
 * bonus, the player's attack, special attack, firewall and patch, the enemy's
 * answer, and the victory handler with its level-up loop. Each player action
 * is one round: the action, then, unless the enemy fell, the enemy's attack.
 */
module QuestCombat {
  import opened Num
  import opened QuestData

  datatype Player = Player(
    level: int,
    xp: int,
    xpToNext: int,
    hp: int,
    maxHp: int,
    attack: int,
    defense: int,
    distribution: string)

  datatype Resources = Resources(budget: int, time: int, moral: int)

  datatype Game = Game(
    player: Player,
    resources: Resources,
    companions: seq<Companion>,
    chapter: int,
    achievements: seq<Achievement>,
    inventory: seq<string>)

  datatype Enemy = Enemy(
    name: string,
    hp: int,
    maxHp: int,
    attack: int,
    defense: int,
    xpReward: int,
    budgetReward: int)

  /** The combat log, one entry per line the page appends. */
  datatype LogEntry =
    | Appears(who: string)
    | Used(special: bool)
    | Dealt(amount: int)
    | NotEnoughTime
    | NotEnoughBudget
    | Firewall
    | Patched(amount: int)
    | EnemyAttacks(who: string)
    | Lost(amount: int)

  datatype Fight = Fight(enemy: Enemy, log: seq<LogEntry>)

  /** Where a round leaves the fight: still going, enemy down (victory handled), or player down. */
  datatype Round =
    | Ongoing(game: Game, fight: Fight)
    | Won(game: Game, fight: Fight)
    | Defeated(game: Game, fight: Fight)

  const SpecialCost: int := 10
  const HealCost: int := 20
  const FirewallBonus: int := 5
  const RichThreshold: int := 5000

  /** The record a new game starts from. */
  function NewGame(): Game {
    Game(
      Player(1, 0, 100, 100, 100, 10, 5, "ubuntu"),
      Resources(1000, 100, 50),
      InitialCompanions(),
      1,
      InitialAchievements(),
      [])
  }

  /** The invariants every game record the page builds keeps. */
  predicate WellFormed(g: Game) {
    && CompanionIds(g.companions) == CompanionIds(InitialCompanions())
    && AchievementIds(g.achievements) == AchievementIds(InitialAchievements())
    && 1 <= g.chapter <= 5
    && g.player.level >= 1
    && 1 <= g.player.xpToNext
    && 0 <= g.player.xp < g.player.xpToNext
    && 0 <= g.player.hp <= g.player.maxHp
  }

  /** A fight the page shows: the enemy still standing. */
  predicate Fighting(g: Game, f: Fight) {
    WellFormed(g) && g.player.hp > 0 && f.enemy.hp > 0
  }

  function StartFight(e: Enemy): (f: Fight)
    ensures f.enemy == e && |f.log| == 1
  {
    Fight(e, [Appears(e.name)])
  }

  /** `Math.floor(d * 1.15)`, read as exact integer arithmetic. */
  function TechnicianBoost(d: int): (r: int)
    ensures 100 * r <= 115 * d < 100 * r + 100
  {
    115 * d / 100
  }

  /** The player's damage before the enemy's defence: the technician's bonus, then at least 1. */
  function CalculateDamage(base: int, companions: seq<Companion>): (r: int)
    ensures r >= 1
    ensures base >= 1 && !IsRecruited(companions, Technician) ==> r == base
    ensures base >= 1 && IsRecruited(companions, Technician) ==> 100 * r <= 115 * base < 100 * r + 100
    ensures base >= 0 ==> r >= base
  {
    var d := if IsRecruited(companions, Technician) then TechnicianBoost(base) else base;
    Max(1, d)
  }

  /** The special attack: `Math.floor(attack * 1.8)`, read as exact integer arithmetic. */
  function SpecialDamage(attack: int): (r: int)
    ensures 10 * r <= 18 * attack < 10 * r + 10
  {
    18 * attack / 10
  }

  /** A hit after defence: never less than 1. */
  function Hit(attack: int, defense: int): (r: int)
    ensures r >= 1 && r >= attack - defense
    ensures attack - defense >= 1 ==> r == attack - defense
  {
    Max(1, attack - defense)
  }

  /** Hit points after a hit: never below 0. */
  function AfterHit(hp: int, damage: int): (r: int)
    requires damage >= 1
    ensures r >= 0
    ensures hp >= 0 ==> r < hp || hp == 0
    ensures r == 0 <==> hp <= damage
    ensures r > 0 ==> r == hp - damage
  {
    Max(0, hp - damage)
  }

  /** The patch: `Math.floor(maxHp * 0.3)`, read as exact integer arithmetic. */
  function HealAmount(maxHp: int): (r: int)
    ensures 10 * r <= 3 * maxHp < 10 * r + 10
  {
    3 * maxHp / 10
  }

  /** The teacher's XP bonus: `Math.floor(xp * 1.2)`, read as exact integer arithmetic. */
  function TeacherBoost(xp: int): (r: int)
    ensures 5 * r <= 6 * xp < 5 * r + 5
  {
    6 * xp / 5
  }

  /** The XP a victory brings: the teacher adds a fifth, rounded down, only once recruited. */
  function XpGain(reward: int, companions: seq<Companion>): (r: int)
    ensures !IsRecruited(companions, Teacher) ==> r == reward
    ensures IsRecruited(companions, Teacher) ==> 5 * r <= 6 * reward < 5 * r + 5
  {
    if IsRecruited(companions, Teacher) then TeacherBoost(reward) else reward
  }

  /** The threshold after `k` level-ups from threshold `x`: each one multiplies by 1.5, rounded down. */
  function ThresholdAfter(x: int, k: nat): int
    decreases k
  {
    if k == 0 then x else ThresholdAfter(3 * x / 2, k - 1)
  }

  /** The XP `k` level-ups from threshold `x` consume. */
  function XpConsumed(x: int, k: nat): int
    decreases k
  {
    if k == 0 then 0 else x + XpConsumed(3 * x / 2, k - 1)
  }

  /** One pass of the level-up loop. */
  function LevelOnce(p: Player): (q: Player)
    ensures q.level == p.level + 1 && q.xp == p.xp - p.xpToNext
    ensures q.maxHp == p.maxHp + 20 && q.hp == q.maxHp
    ensures q.attack == p.attack + 3 && q.defense == p.defense + 2
    ensures p.xpToNext >= 1 ==> p.xpToNext <= q.xpToNext
    ensures 2 * q.xpToNext <= 3 * p.xpToNext < 2 * q.xpToNext + 2
  {
    p.(xp := p.xp - p.xpToNext,
       level := p.level + 1,
       xpToNext := 3 * p.xpToNext / 2,
       maxHp := p.maxHp + 20,
       hp := p.maxHp + 20,
       attack := p.attack + 3,
       defense := p.defense + 2)
  }

  /**
   * The level-up loop of the victory handler: while the XP reaches the
   * threshold, spend it and level up; reaching level 5 unlocks `level_5`.
   */
  function LevelUp(p: Player, a: seq<Achievement>): (r: (Player, seq<Achievement>))
    requires p.xpToNext >= 1
    ensures var (q, b) := r; var k := q.level - p.level;
      && k >= 0
      && q.xp < q.xpToNext
      && q.xpToNext == ThresholdAfter(p.xpToNext, k) >= p.xpToNext
      && p.xp == q.xp + XpConsumed(p.xpToNext, k)
      && q.maxHp == p.maxHp + 20 * k
      && q.attack == p.attack + 3 * k
      && q.defense == p.defense + 2 * k
      && (k == 0 ==> q == p && b == a)
      && (k > 0 ==> q.hp == q.maxHp)
      && (p.xp >= 0 ==> q.xp >= 0)
      && AchievementsGrow(a, b)
      && (forall id :: id != Level5 ==> (IsUnlocked(b, id) <==> IsUnlocked(a, id)))
      && (Level5 in AchievementIds(a) ==>
            (IsUnlocked(b, Level5) <==> IsUnlocked(a, Level5) || p.level < 5 <= q.level))
    decreases p.xp
  {
    if p.xp < p.xpToNext then (p, a)
    else
      var p1 := LevelOnce(p);
      var a1 := if p1.level == 5 then Unlock(a, Level5) else a;
      var r := LevelUp(p1, a1);
      LevelPlayerStep(p, r.0);
      LevelFiveStep(a, a1, r.1, p.level, r.0.level);
      r
  }

  /** One pass of the level-up loop composes with the rest of the loop's level-ups. */
  lemma LevelPlayerStep(p: Player, q: Player)
    requires p.xpToNext >= 1 && p.xp >= p.xpToNext
    requires var p1 := LevelOnce(p); var k := q.level - p1.level;
      && k >= 0
      && q.xpToNext == ThresholdAfter(p1.xpToNext, k) >= p1.xpToNext
      && p1.xp == q.xp + XpConsumed(p1.xpToNext, k)
      && q.maxHp == p1.maxHp + 20 * k
      && q.attack == p1.attack + 3 * k
      && q.defense == p1.defense + 2 * k
      && (k == 0 ==> q == p1)
      && (k > 0 ==> q.hp == q.maxHp)
    ensures var k := q.level - p.level;
      && k >= 1
      && q.xpToNext == ThresholdAfter(p.xpToNext, k) >= p.xpToNext
      && p.xp == q.xp + XpConsumed(p.xpToNext, k)
      && q.maxHp == p.maxHp + 20 * k
      && q.attack == p.attack + 3 * k
      && q.defense == p.defense + 2 * k
      && q.hp == q.maxHp
  {
    var p1 := LevelOnce(p);
    var k := q.level - p1.level;
    assert ThresholdAfter(p.xpToNext, k + 1) == ThresholdAfter(p1.xpToNext, k);
    assert XpConsumed(p.xpToNext, k + 1) == p.xpToNext + XpConsumed(p1.xpToNext, k);
  }

  /** One pass of the level-up loop from level `before`, which leaves `a1`, composes with the rest of the loop. */
  lemma LevelFiveStep(a: seq<Achievement>, a1: seq<Achievement>, b: seq<Achievement>, before: int, after: int)
    requires a1 == if before + 1 == 5 then Unlock(a, Level5) else a
    requires before + 1 <= after
    requires AchievementsGrow(a1, b)
    requires forall id :: id != Level5 ==> (IsUnlocked(b, id) <==> IsUnlocked(a1, id))
    requires Level5 in AchievementIds(a1) ==>
      (IsUnlocked(b, Level5) <==> IsUnlocked(a1, Level5) || before + 1 < 5 <= after)
    ensures AchievementsGrow(a, b)
    ensures forall id :: id != Level5 ==> (IsUnlocked(b, id) <==> IsUnlocked(a, id))
    ensures Level5 in AchievementIds(a) ==> (IsUnlocked(b, Level5) <==> IsUnlocked(a, Level5) || before < 5 <= after)
  {
    if before + 1 == 5 {
      UnlockSets(a, Level5);
      forall id | id != Level5
        ensures IsUnlocked(a1, id) <==> IsUnlocked(a, id)
      {
        UnlockEffect(a, Level5, id);
      }
      AchievementsGrowTransitive(a, a1, b);
    } else {
      assert AchievementsGrow(a, a1);
    }
  }

  /** The same loop, written as the page writes it. */
  method LevelUpLoop(p: Player, a: seq<Achievement>) returns (q: Player, b: seq<Achievement>)
    requires p.xpToNext >= 1
    ensures (q, b) == LevelUp(p, a)
  {
    q, b := p, a;
    while q.xp >= q.xpToNext
      invariant q.xpToNext >= 1
      invariant LevelUp(q, b) == LevelUp(p, a)
      decreases q.xp
    {
      q := LevelOnce(q);
      if q.level == 5 {
        b := Unlock(b, Level5);
      }
    }
  }

  /** The achievements a victory unlocks: `first_blood` always, `rich` from 5000 budget. */
  function VictoryUnlocks(a: seq<Achievement>, budget: int): (b: seq<Achievement>)
    ensures AchievementsGrow(a, b)
    ensures FirstBlood in AchievementIds(a) ==> IsUnlocked(b, FirstBlood)
    ensures IsUnlocked(b, Rich) <==> IsUnlocked(a, Rich) || (budget >= RichThreshold && Rich in AchievementIds(a))
    ensures forall id :: id != FirstBlood && id != Rich ==> (IsUnlocked(b, id) <==> IsUnlocked(a, id))
  {
    var a1 := Unlock(a, FirstBlood);
    UnlockSets(a, FirstBlood);
    UnlockEffect(a, FirstBlood, Rich);
    var a2 := if budget >= RichThreshold then Unlock(a1, Rich) else a1;
    UnlockSets(a1, Rich);
    UnlockEffect(a1, Rich, FirstBlood);
    AchievementsGrowTransitive(a, a1, a2);
    a2
  }

  /**
   * The XP half of the victory handler: the reward, with the teacher's bonus,
   * is added and spent by the level-up loop, which may unlock `level_5`.
   */
  function GainXp(g: Game, reward: int): (r: Game)
    requires g.player.xpToNext >= 1
    ensures r == g.(player := r.player, achievements := r.achievements)
    ensures r.player.level >= g.player.level
    ensures r.player.xp < r.player.xpToNext
    ensures r.player.xp + XpConsumed(g.player.xpToNext, r.player.level - g.player.level)
      == g.player.xp + XpGain(reward, g.companions)
    ensures r.player.xpToNext == ThresholdAfter(g.player.xpToNext, r.player.level - g.player.level)
    ensures r.player.maxHp == g.player.maxHp + 20 * (r.player.level - g.player.level)
    ensures r.player.attack == g.player.attack + 3 * (r.player.level - g.player.level)
    ensures r.player.defense == g.player.defense + 2 * (r.player.level - g.player.level)
    ensures g.player.hp <= g.player.maxHp ==> g.player.hp <= r.player.hp <= r.player.maxHp
    ensures g.player.xp + XpGain(reward, g.companions) >= 0 ==> r.player.xp >= 0
    ensures AchievementsGrow(g.achievements, r.achievements)
    ensures forall id :: id != Level5 ==> (IsUnlocked(r.achievements, id) <==> IsUnlocked(g.achievements, id))
    ensures Level5 in AchievementIds(g.achievements) ==> (IsUnlocked(r.achievements, Level5)
      <==> IsUnlocked(g.achievements, Level5) || g.player.level < 5 <= r.player.level)
  {
    var p0 := g.player.(xp := g.player.xp + XpGain(reward, g.companions));
    var levelled := LevelUp(p0, g.achievements);
    assert p0 == g.player.(xp := p0.xp);
    g.(player := levelled.0, achievements := levelled.1)
  }

  /**
   * The victory handler: the XP half, the budget reward, then the victory's
   * achievements.
   */
  function HandleVictory(g: Game, e: Enemy): (r: Game)
    requires g.player.xpToNext >= 1
    ensures r.companions == g.companions && r.chapter == g.chapter && r.inventory == g.inventory
    ensures r.resources == g.resources.(budget := g.resources.budget + e.budgetReward)
    ensures r.player == GainXp(g, e.xpReward).player
    ensures r.player.level >= g.player.level
    ensures r.player.xp < r.player.xpToNext
    ensures r.player.xp + XpConsumed(g.player.xpToNext, r.player.level - g.player.level)
      == g.player.xp + XpGain(e.xpReward, g.companions)
    ensures g.player.hp <= g.player.maxHp ==> r.player.hp >= g.player.hp
    ensures AchievementsGrow(g.achievements, r.achievements)
    ensures WellFormed(g) ==> IsUnlocked(r.achievements, FirstBlood)
    ensures WellFormed(g) ==> (IsUnlocked(r.achievements, Rich)
      <==> IsUnlocked(g.achievements, Rich) || r.resources.budget >= RichThreshold)
    ensures WellFormed(g) ==> (IsUnlocked(r.achievements, Level5)
      <==> IsUnlocked(g.achievements, Level5) || g.player.level < 5 <= r.player.level)
    ensures forall id :: id != FirstBlood && id != Rich && id != Level5 ==>
      (IsUnlocked(r.achievements, id) <==> IsUnlocked(g.achievements, id))
    ensures WellFormed(g) && e.xpReward >= 0 ==> WellFormed(r)
  {
    var g1 := GainXp(g, e.xpReward);
    var budget := g.resources.budget + e.budgetReward;
    var a := VictoryUnlocks(g1.achievements, budget);
    AchievementsGrowTransitive(g.achievements, g1.achievements, a);
    assert WellFormed(g) ==>
      FirstBlood in AchievementIds(g.achievements) && Rich in AchievementIds(g.achievements)
      && Level5 in AchievementIds(g.achievements) by {
      InitialAchievementsFacts();
    }
    g1.(resources := g.resources.(budget := budget), achievements := a)
  }

  /** The enemy's attack on the player: `Defeated` exactly when the player's HP reaches 0. */
  function EnemyResponse(g: Game, f: Fight): (r: Round)
    ensures !r.Won?
    ensures r.fight == f.(log := f.log + [EnemyAttacks(f.enemy.name), Lost(Hit(f.enemy.attack, g.player.defense))])
    ensures r.game == g.(player := g.player.(hp := r.game.player.hp))
    ensures r.game.player.hp == AfterHit(g.player.hp, Hit(f.enemy.attack, g.player.defense))
    ensures r.Defeated? <==> r.game.player.hp == 0
  {
    var damage := Hit(f.enemy.attack, g.player.defense);
    var hp := AfterHit(g.player.hp, damage);
    var g1 := g.(player := g.player.(hp := hp));
    var f1 := f.(log := f.log + [EnemyAttacks(f.enemy.name), Lost(damage)]);
    if hp <= 0 then Defeated(g1, f1) else Ongoing(g1, f1)
  }

  /** Whether the page refuses the attack: a special attack needs 10 time. */
  predicate StrikeRefused(g: Game, special: bool) {
    special && g.resources.time < SpecialCost
  }

  /** The damage the player's attack deals after the enemy's defence. */
  function StrikeDamage(g: Game, f: Fight, special: bool): (r: int)
    ensures r >= 1
  {
    var base := if special then SpecialDamage(g.player.attack) else g.player.attack;
    Hit(CalculateDamage(base, g.companions), f.enemy.defense)
  }

  /**
   * Attack or special attack. A refused special attack only adds a log line
   * and leaves the player's turn open; otherwise the time cost is paid, the
   * enemy is hit, and either the victory is handled or the enemy answers.
   */
  function Strike(g: Game, f: Fight, special: bool): (r: Round)
    requires g.player.xpToNext >= 1
    ensures StrikeRefused(g, special) ==> r == Ongoing(g, f.(log := f.log + [NotEnoughTime]))
    ensures !StrikeRefused(g, special) ==>
      && r.fight.enemy == f.enemy.(hp := AfterHit(f.enemy.hp, StrikeDamage(g, f, special)))
      && r.game.resources.time == g.resources.time - (if special then SpecialCost else 0)
      && (r.Won? <==> r.fight.enemy.hp == 0)
    ensures r.Won? ==> r.game == HandleVictory(g.(resources := g.resources.(time := r.game.resources.time)), f.enemy)
    ensures !r.Won? ==> r.game == g.(player := r.game.player, resources := r.game.resources)
    ensures r.Defeated? ==> r.game.player.hp == 0
    ensures Fighting(g, f) && r.Ongoing? ==> Fighting(r.game, r.fight)
    ensures Fighting(g, f) && r.Won? ==> r.game.player.hp > 0
    ensures WellFormed(g) && f.enemy.xpReward >= 0 ==> WellFormed(r.game)
  {
    if StrikeRefused(g, special) then Ongoing(g, f.(log := f.log + [NotEnoughTime]))
    else
      var cost := if special then SpecialCost else 0;
      var actual := StrikeDamage(g, f, special);
      var enemyHp := AfterHit(f.enemy.hp, actual);
      var f1 := Fight(f.enemy.(hp := enemyHp), f.log + [Used(special), Dealt(actual)]);
      var g1 := g.(resources := g.resources.(time := g.resources.time - cost));
      if enemyHp <= 0 then Won(HandleVictory(g1, f.enemy), f1)
      else EnemyResponse(g1, f1)
  }

  /** The firewall: defence +5 for the enemy's attack, then back to what it was. */
  function Defend(g: Game, f: Fight): (r: Round)
    ensures !r.Won? && r.fight.enemy == f.enemy
    ensures r.game == g.(player := g.player.(hp := r.game.player.hp))
    ensures r.game.player.hp == AfterHit(g.player.hp, Hit(f.enemy.attack, g.player.defense + FirewallBonus))
    ensures r.Defeated? <==> r.game.player.hp == 0
    ensures Fighting(g, f) && r.Ongoing? ==> Fighting(r.game, r.fight)
    ensures WellFormed(g) ==> WellFormed(r.game)
  {
    var shielded := g.(player := g.player.(defense := g.player.defense + FirewallBonus));
    var answered := EnemyResponse(shielded, f.(log := f.log + [Firewall]));
    var restore := answered.game.(player := answered.game.player.(defense := answered.game.player.defense - FirewallBonus));
    if answered.Defeated? then Defeated(restore, answered.fight) else Ongoing(restore, answered.fight)
  }

  /** Whether the page refuses the patch: it costs 20 budget. */
  predicate HealRefused(g: Game) {
    g.resources.budget < HealCost
  }

  /** HP after the patch: 30 % of the maximum, never above it. */
  function HealedHp(p: Player): (r: int)
    ensures r <= p.maxHp || r == p.hp
    ensures p.hp <= p.maxHp && p.maxHp >= 0 ==> p.hp <= r <= p.maxHp
  {
    Min(p.maxHp, p.hp + HealAmount(p.maxHp))
  }

  /** The patch: refused below 20 budget (log only); otherwise pay 20, heal, and take the enemy's attack. */
  function Heal(g: Game, f: Fight): (r: Round)
    ensures HealRefused(g) ==> r == Ongoing(g, f.(log := f.log + [NotEnoughBudget]))
    ensures !HealRefused(g) ==>
      && r.game.resources == g.resources.(budget := g.resources.budget - HealCost)
      && r.game.player == g.player.(hp := AfterHit(HealedHp(g.player), Hit(f.enemy.attack, g.player.defense)))
    ensures !r.Won? && r.fight.enemy == f.enemy
    ensures r.game == g.(player := r.game.player, resources := r.game.resources)
    ensures !HealRefused(g) ==> (r.Defeated? <==> r.game.player.hp == 0)
    ensures Fighting(g, f) && r.Ongoing? ==> Fighting(r.game, r.fight)
    ensures WellFormed(g) ==> WellFormed(r.game)
  {
    if HealRefused(g) then Ongoing(g, f.(log := f.log + [NotEnoughBudget]))
    else
      var healed := g.(player := g.player.(hp := HealedHp(g.player)),
                       resources := g.resources.(budget := g.resources.budget - HealCost));
      EnemyResponse(healed, f.(log := f.log + [Patched(HealAmount(g.player.maxHp))]))
  }

  // The three rounds as the page runs them: the enemy's attack and the victory
  // handler are scheduled with a timer and read the game record as it was when
  // the player clicked, then write their result over the newer record.

  /** The patch as written: the enemy's attack recomputes HP from the pre-patch value. */
  function HealAsWritten(g: Game, f: Fight): (r: Round)
    ensures HealRefused(g) ==> r == Heal(g, f)
  {
    if HealRefused(g) then Ongoing(g, f.(log := f.log + [NotEnoughBudget]))
    else
      var paid := g.(resources := g.resources.(budget := g.resources.budget - HealCost));
      var stale := EnemyResponse(g, f.(log := f.log + [Patched(HealAmount(g.player.maxHp))]));
      var written := paid.(player := paid.player.(hp := stale.game.player.hp));
      if stale.Defeated? then Defeated(written, stale.fight) else Ongoing(written, stale.fight)
  }

  /** The firewall as written: the enemy's attack reads the defence from before the +5. */
  function DefendAsWritten(g: Game, f: Fight): (r: Round) {
    var stale := EnemyResponse(g, f.(log := f.log + [Firewall]));
    if stale.Defeated? then Defeated(stale.game, stale.fight) else Ongoing(stale.game, stale.fight)
  }

  /** The attack as written: the victory handler starts from the record before the time cost. */
  function StrikeAsWritten(g: Game, f: Fight, special: bool): (r: Round)
    requires g.player.xpToNext >= 1
  {
    match Strike(g, f, special)
    case Won(_, f1) => Won(HandleVictory(g, f.enemy), f1)
    case other => other
  }

  /** As written, the patch costs 20 budget and leaves HP exactly where the enemy's attack alone would. */
  lemma HealAsWrittenIsLost(g: Game, f: Fight)
    requires !HealRefused(g)
    ensures HealAsWritten(g, f).game.player.hp == EnemyResponse(g, f).game.player.hp
    ensures HealAsWritten(g, f).game.resources.budget == g.resources.budget - HealCost
  {
  }

  /** Concretely: at 50/100 HP against the first virus, the patch should leave 77 HP; as written it leaves 47. */
  lemma HealAsWrittenExample()
    ensures var g := NewGame().(player := NewGame().player.(hp := 50));
      var f := StartFight(Enemy("Virus Windows XP", 50, 50, 8, 2, 50, 100));
      && Heal(g, f).game.player.hp == 77
      && HealAsWritten(g, f).game.player.hp == 47
  {
  }

  /** The corrected patch never leaves less HP than the written one, and more whenever it heals anything. */
  lemma HealCorrectedHelps(g: Game, f: Fight)
    requires !HealRefused(g) && 0 <= g.player.hp <= g.player.maxHp
    ensures Heal(g, f).game.player.hp >= HealAsWritten(g, f).game.player.hp
    ensures HealedHp(g.player) > g.player.hp && HealAsWritten(g, f).game.player.hp > 0 ==>
      Heal(g, f).game.player.hp > HealAsWritten(g, f).game.player.hp
  {
  }

  /** As written, the firewall protects nothing: the outcome is the enemy's plain attack. */
  lemma DefendAsWrittenIsUseless(g: Game, f: Fight)
    ensures DefendAsWritten(g, f).game == EnemyResponse(g, f).game
  {
  }

  /** The corrected firewall takes 5 off every hit that is above 5, and never makes a hit worse. */
  lemma DefendCorrectedProtects(g: Game, f: Fight)
    ensures Defend(g, f).game.player.hp >= DefendAsWritten(g, f).game.player.hp
    ensures f.enemy.attack - g.player.defense > 5 && g.player.hp > f.enemy.attack - g.player.defense ==>
      Defend(g, f).game.player.hp == DefendAsWritten(g, f).game.player.hp + 5
  {
  }

  /** As written, a special attack that ends the fight costs no time; corrected, it costs 10. */
  lemma FinishingSpecialIsFree(g: Game, f: Fight)
    requires g.player.xpToNext >= 1 && !StrikeRefused(g, true)
    requires Strike(g, f, true).Won?
    ensures StrikeAsWritten(g, f, true).game.resources.time == g.resources.time
    ensures Strike(g, f, true).game.resources.time == g.resources.time - SpecialCost
  {
  }

  /** Concretely: a fresh game's special attack on a 1-HP enemy. */
  lemma FinishingSpecialExample()
    ensures var e := Enemy("Virus Windows XP", 1, 50, 8, 2, 50, 100);
      && Strike(NewGame(), StartFight(e), true).Won?
      && Strike(NewGame(), StartFight(e), true).game.resources.time == 90
      && StrikeAsWritten(NewGame(), StartFight(e), true).game.resources.time == 100
  {
  }

  /** A new game: the stats of the page, the untouched tables, and a well-formed record. */
  lemma NewGameFacts()
    ensures var g := NewGame();
      && g.player.level == 1 && g.player.xp == 0 && g.player.xpToNext == 100
      && g.player.hp == 100 && g.player.maxHp == 100
      && g.player.attack == 10 && g.player.defense == 5
      && g.resources == Resources(1000, 100, 50)
      && g.chapter == 1
      && WellFormed(g)
      && !IsUnlocked(g.achievements, Pacifist)
      && !IsRecruited(g.companions, Technician) && !IsRecruited(g.companions, Teacher)
  {
    InitialCompanionsFacts();
    InitialAchievementsFacts();
  }

  /** The first levels: thresholds 100, 150, 225, 337, then 505; 812 XP take a new player to level 5. */
  lemma LevelThresholdsExample()
    ensures ThresholdAfter(100, 4) == 505
    ensures XpConsumed(100, 4) == 812
  {
    assert XpConsumed(100, 1) == 100 && ThresholdAfter(100, 1) == 150;
    assert XpConsumed(100, 2) == 250 && ThresholdAfter(100, 2) == 225;
    assert XpConsumed(100, 3) == 475 && ThresholdAfter(100, 3) == 337;
  }

  lemma FifthLevelExample()
    ensures LevelUp(NewGame().player.(xp := 812), InitialAchievements()).0.level == 5
  {
    var p := NewGame().player.(xp := 812);
    assert p.level == 1 && p.xpToNext == 100;
    LevelThresholdsExample();
    ConsumedStep(100, 4);
    LevelFromXp(p, InitialAchievements(), 4);
  }

  /**
   * The level the loop reaches is fixed by the XP alone: `k` level-ups exactly
   * when the XP covers the first `k` thresholds and not the next one.
   */
  lemma LevelFromXp(p: Player, a: seq<Achievement>, k: nat)
    requires p.xpToNext >= 1
    requires XpConsumed(p.xpToNext, k) <= p.xp < XpConsumed(p.xpToNext, k + 1)
    ensures LevelUp(p, a).0.level == p.level + k
  {
    var x := p.xpToNext;
    var q := LevelUp(p, a).0;
    var j: nat := q.level - p.level;
    assert p.xp == q.xp + XpConsumed(x, j) && q.xp < ThresholdAfter(x, j);
    ConsumedStep(x, j);
    ConsumedStep(x, k);
    if j < k {
      ConsumedGrows(x, j + 1, k);
    } else if j > k {
      ConsumedGrows(x, k + 1, j);
    }
  }

  /** More level-ups consume more XP, from a positive threshold. */
  lemma {:induction false} ConsumedGrows(x: int, j: nat, k: nat)
    requires x >= 1 && j <= k
    ensures XpConsumed(x, j) <= XpConsumed(x, k)
    decreases k
  {
    if j < k {
      ConsumedGrows(x, j, k - 1);
      ConsumedStep(x, k - 1);
    }
  }

  /** One more level-up consumes the threshold it starts from, which is positive. */
  lemma {:induction false} ConsumedStep(x: int, k: nat)
    requires x >= 1
    ensures XpConsumed(x, k + 1) == XpConsumed(x, k) + ThresholdAfter(x, k)
    ensures ThresholdAfter(x, k) >= 1
    decreases k
  {
    if k > 0 {
      ConsumedStep(3 * x / 2, k - 1);
    }
  }

  /** The technician's bonus only ever helps, and only once recruited. */
  lemma TechnicianBonusMonotone(base: int, cs: seq<Companion>)
    requires base >= 1
    ensures CalculateDamage(base, cs) >= CalculateDamage(base, Recruit(cs, Technician)) - (15 * base / 100) - 1
    ensures CalculateDamage(base, Recruit(cs, Technician)) >= CalculateDamage(base, cs)
  {
    if IsRecruited(cs, Technician) {
      RecruitSets(cs, Technician);
    }
  }
}
