/**
 * The PC repair mini-game: broken PCs appear on a 3x3 grid; clicking one
 * repairs it for 10 points plus twice the new combo; a click beside the PCs,
 * or a PC left to expire, breaks the combo; a one-second timer counts the 60
 * seconds down. Spawn counts and positions are random and arrive as event
 * parameters.
 */
module PcRepair {
  const GridSize: int := 9
  const GameDuration: int := 60

  datatype Pc = Pc(id: int, position: int, broken: bool)

  datatype Game = Game(
    pcs: seq<Pc>,
    score: int,
    timeLeft: int,
    started: bool,
    finished: bool,
    combo: int,
    maxCombo: int,
    clicks: int)

  datatype Event =
    | Start
    | Spawn(spawned: seq<Pc>)
    | Expire(ids: seq<int>)
    | RepairClick(id: int)
    | MissedClick
    | Tick
    | Reset

  function Initial(): (g: Game)
    ensures g.timeLeft == GameDuration && g.score == 0 && g.combo == 0 && g.maxCombo == 0
    ensures g.clicks == 0 && |g.pcs| == 0 && !g.started && !g.finished
  {
    Game([], 0, GameDuration, false, false, 0, 0, 0)
  }

  /** The game grid is on screen: started and not over. */
  predicate Playing(g: Game) {
    g.started && !g.finished
  }

  predicate Valid(g: Game) {
    && 0 <= g.timeLeft <= GameDuration
    && 0 <= g.combo <= g.maxCombo
    && 0 <= g.clicks
    && 12 * g.clicks <= g.score
    && !(g.started && g.finished)
    && (g.finished <==> g.timeLeft == 0)
  }

  /** `pcs.find(p => p.id === id)`: the position of the first PC with `id`, or -1. */
  function FindPc(pcs: seq<Pc>, id: int): (k: int)
    ensures -1 <= k < |pcs|
    ensures k >= 0 ==> pcs[k].id == id && forall j :: 0 <= j < k ==> pcs[j].id != id
    ensures k == -1 <==> forall j :: 0 <= j < |pcs| ==> pcs[j].id != id
  {
    if |pcs| == 0 then -1
    else if pcs[0].id == id then 0
    else
      var k := FindPc(pcs[1..], id);
      if k == -1 then -1 else k + 1
  }

  /** `pcs.filter(p => p.id !== id)`. */
  function Without(pcs: seq<Pc>, id: int): (r: seq<Pc>)
    ensures |r| <= |pcs|
    ensures forall p :: p in r <==> p in pcs && p.id != id
  {
    if |pcs| == 0 then []
    else if pcs[0].id == id then Without(pcs[1..], id)
    else [pcs[0]] + Without(pcs[1..], id)
  }

  /** The PCs whose id is not among `ids`. */
  function WithoutAll(pcs: seq<Pc>, ids: seq<int>): (r: seq<Pc>)
    ensures forall p :: p in r <==> p in pcs && p.id !in ids
  {
    if |pcs| == 0 then []
    else if pcs[0].id in ids then WithoutAll(pcs[1..], ids)
    else [pcs[0]] + WithoutAll(pcs[1..], ids)
  }

  /** The spawned PCs whose cell was free before the spawn; cells are not rechecked among themselves. */
  function FreeCells(pcs: seq<Pc>, spawned: seq<Pc>): (r: seq<Pc>)
    ensures forall p :: p in r <==> p in spawned && forall q :: q in pcs ==> q.position != p.position
  {
    if |spawned| == 0 then []
    else
      var rest := FreeCells(pcs, spawned[1..]);
      if exists q :: q in pcs && q.position == spawned[0].position then rest else [spawned[0]] + rest
  }

  /** `pcs.find(p => p.position === cell)`: the position in `pcs` of the PC drawn in grid cell `cell`, or -1. */
  function CellPc(pcs: seq<Pc>, cell: int): (k: int)
    ensures -1 <= k < |pcs|
    ensures k >= 0 ==> pcs[k].position == cell && forall j :: 0 <= j < k ==> pcs[j].position != cell
    ensures k == -1 <==> forall j :: 0 <= j < |pcs| ==> pcs[j].position != cell
  {
    if |pcs| == 0 then -1
    else if pcs[0].position == cell then 0
    else
      var k := CellPc(pcs[1..], cell);
      if k == -1 then -1 else k + 1
  }

  /**
   * The grid draws, in each of its nine cells, a button for the first PC at
   * that cell when it is broken: `id` can be clicked only when it names one.
   */
  predicate Shown(pcs: seq<Pc>, id: int) {
    exists cell :: 0 <= cell < GridSize && ButtonIn(pcs, cell, id)
  }

  /** Cell `cell` draws the button of a broken PC with `id`. */
  predicate ButtonIn(pcs: seq<Pc>, cell: int, id: int) {
    var k := CellPc(pcs, cell);
    k >= 0 && pcs[k].id == id && pcs[k].broken
  }

  /** Whether `id` names a PC that can be repaired. */
  predicate Repairable(g: Game, id: int) {
    var k := FindPc(g.pcs, id);
    k >= 0 && g.pcs[k].broken
  }

  /** The points a repair brings when it takes the combo to `newCombo`. */
  function Points(newCombo: int): (r: int)
    ensures newCombo >= 1 ==> r >= 12
  {
    10 + 2 * newCombo
  }

  /** A repair: the PC is removed, the combo grows, 10 + 2 x combo points, one more click. */
  function Repair(g: Game, id: int): (r: Game)
    ensures !Repairable(g, id) ==> r == g
    ensures Repairable(g, id) ==>
      && r.pcs == Without(g.pcs, id)
      && r.combo == g.combo + 1
      && r.maxCombo == (if g.combo + 1 > g.maxCombo then g.combo + 1 else g.maxCombo)
      && r.score == g.score + 10 + 2 * (g.combo + 1)
      && r.clicks == g.clicks + 1
      && r.timeLeft == g.timeLeft && r.started == g.started && r.finished == g.finished
  {
    if !Repairable(g, id) then g
    else
      var combo := g.combo + 1;
      g.(pcs := Without(g.pcs, id),
         combo := combo,
         maxCombo := if combo > g.maxCombo then combo else g.maxCombo,
         score := g.score + Points(combo),
         clicks := g.clicks + 1)
  }

  /** One second of the countdown: the game ends on the tick that would reach 0. */
  function TickDown(g: Game): (r: Game)
    ensures g.timeLeft <= 1 ==> r.timeLeft == 0 && r.finished && !r.started
    ensures g.timeLeft > 1 ==> r == g.(timeLeft := g.timeLeft - 1)
  {
    if g.timeLeft <= 1 then g.(timeLeft := 0, finished := true, started := false)
    else g.(timeLeft := g.timeLeft - 1)
  }

  /**
   * One event. The grid, and with it repairs and missed clicks, exists only
   * while playing; the timers run only while playing, except the expiry of
   * PCs already spawned. The start button shows before a game, the reset
   * button after one.
   */
  function Step(g: Game, e: Event): (r: Game)
    requires Valid(g)
    ensures Valid(r)
    ensures !e.Reset? ==> r.maxCombo >= g.maxCombo && r.score >= g.score
    ensures (e.MissedClick? && Playing(g)) || e.Expire? ==> r.combo == 0 && r.score == g.score
  {
    match e
    case Start => if !g.started && !g.finished then g.(started := true, finished := false) else g
    case Spawn(spawned) => if Playing(g) then g.(pcs := g.pcs + FreeCells(g.pcs, spawned)) else g
    case Expire(ids) => g.(pcs := WithoutAll(g.pcs, ids), combo := 0)
    case RepairClick(id) => if Playing(g) && Shown(g.pcs, id) then Repair(g, id) else g
    case MissedClick => if Playing(g) then g.(combo := 0) else g
    case Tick => if Playing(g) then TickDown(g) else g
    case Reset => if g.finished then Initial() else g
  }

  /** Running repairs of the PCs `ids`, in order. */
  function Repairs(g: Game, ids: seq<int>): Game
    decreases |ids|
  {
    if |ids| == 0 then g else Repairs(Repair(g, ids[0]), ids[1..])
  }

  /** Every PC on the grid is broken: the game only ever spawns broken ones. */
  predicate AllBroken(pcs: seq<Pc>) {
    forall p :: p in pcs ==> p.broken
  }

  predicate OnGrid(pcs: seq<Pc>, id: int) {
    exists p :: p in pcs && p.id == id
  }

  /** On a grid of broken PCs, a PC is repairable exactly when one with its id is on the grid. */
  lemma RepairableIff(g: Game, id: int)
    requires AllBroken(g.pcs)
    ensures Repairable(g, id) <==> OnGrid(g.pcs, id)
  {
    var k := FindPc(g.pcs, id);
    if k >= 0 {
      assert g.pcs[k] in g.pcs;
    }
  }

  /** The PC at index `k` has `id`, is broken, lies inside the grid, and no earlier PC shares its cell. */
  predicate FrontOfCell(pcs: seq<Pc>, k: int, id: int) {
    && 0 <= k < |pcs| && pcs[k].id == id && pcs[k].broken && 0 <= pcs[k].position < GridSize
    && forall j :: 0 <= j < k ==> pcs[j].position != pcs[k].position
  }

  /** A PC is shown exactly when it is broken, inside the grid, and no earlier PC shares its cell. */
  lemma ShownIff(pcs: seq<Pc>, id: int)
    ensures Shown(pcs, id) <==> exists k :: FrontOfCell(pcs, k, id)
  {
    if k :| FrontOfCell(pcs, k, id) {
      assert CellPc(pcs, pcs[k].position) == k;
      assert ButtonIn(pcs, pcs[k].position, id);
    }
    if Shown(pcs, id) {
      var cell :| 0 <= cell < GridSize && ButtonIn(pcs, cell, id);
      assert FrontOfCell(pcs, CellPc(pcs, cell), id);
    }
  }

  /** On a grid of broken PCs, a click on a shown PC repairs it; a click on a hidden or absent one does nothing. */
  lemma ClickRepairsIffShown(g: Game, id: int)
    requires Valid(g) && Playing(g) && AllBroken(g.pcs)
    ensures Shown(g.pcs, id) ==> Repairable(g, id) && Step(g, RepairClick(id)) == Repair(g, id)
    ensures !Shown(g.pcs, id) ==> Step(g, RepairClick(id)) == g
  {
    if Shown(g.pcs, id) {
      var cell :| 0 <= cell < GridSize && ButtonIn(g.pcs, cell, id);
      var k := CellPc(g.pcs, cell);
      assert g.pcs[k] in g.pcs;
      RepairableIff(g, id);
    }
  }

  /** Two PCs of one spawn in the same cell: only the first is drawn, so only it can be clicked. */
  lemma HiddenBehindFirst()
    ensures var g := Game([Pc(1000, 4, true), Pc(1001, 4, true)], 0, 60, true, false, 0, 0, 0);
      && Step(g, RepairClick(1001)) == g
      && Step(g, RepairClick(1000)).score == 12
  {
    var pcs := [Pc(1000, 4, true), Pc(1001, 4, true)];
    forall cell | 0 <= cell < GridSize
      ensures !ButtonIn(pcs, cell, 1001)
    {
      assert CellPc(pcs, cell) == (if cell == 4 then 0 else -1);
    }
    assert ButtonIn(pcs, 4, 1000);
  }

  /** Every id names a distinct PC on a grid of broken PCs. */
  predicate AllRepairable(g: Game, ids: seq<int>) {
    && AllBroken(g.pcs)
    && (forall i :: 0 <= i < |ids| ==> OnGrid(g.pcs, ids[i]))
    && (forall i, j :: 0 <= i < j < |ids| ==> ids[i] != ids[j])
  }

  /** Repairing one PC leaves the others on the grid. */
  lemma RepairKeepsOthers(g: Game, id: int, other: int)
    requires AllBroken(g.pcs) && OnGrid(g.pcs, id) && OnGrid(g.pcs, other) && other != id
    ensures AllBroken(Repair(g, id).pcs) && OnGrid(Repair(g, id).pcs, other)
  {
    RepairableIff(g, id);
    var p :| p in g.pcs && p.id == other;
    assert p in Repair(g, id).pcs;
  }

  /**
   * A streak of `n` repairs starting at combo `c` adds 10n + 2nc + n(n+1)
   * points: from combo 0, exactly 10n + n(n+1).
   */
  lemma {:induction false} StreakScore(g: Game, ids: seq<int>)
    requires AllRepairable(g, ids)
    ensures var n := |ids|; var r := Repairs(g, ids);
      && r.score == g.score + 10 * n + 2 * n * g.combo + n * (n + 1)
      && r.combo == g.combo + n
      && r.clicks == g.clicks + n
    decreases |ids|
  {
    if |ids| > 0 {
      var c := g.combo;
      var g1 := Repair(g, ids[0]);
      var rest := ids[1..];
      FirstRepairOfStreak(g, ids);
      StreakScore(g1, rest);
      var r := Repairs(g1, rest);
      assert Repairs(g, ids) == r;
      StreakArithmetic(g.score, g1.score, r.score, c, g1.combo, |rest|, |ids|);
    }
  }

  /** The first repair of a streak scores 12 + 2c and leaves the rest of the streak repairable. */
  lemma FirstRepairOfStreak(g: Game, ids: seq<int>)
    requires AllRepairable(g, ids) && |ids| > 0
    ensures var g1 := Repair(g, ids[0]);
      && g1.score == g.score + 12 + 2 * g.combo && g1.combo == g.combo + 1 && g1.clicks == g.clicks + 1
      && AllRepairable(g1, ids[1..])
  {
    RepairableIff(g, ids[0]);
    var g1 := Repair(g, ids[0]);
    var rest := ids[1..];
    forall i | 0 <= i < |rest|
      ensures OnGrid(g1.pcs, rest[i])
    {
      assert rest[i] == ids[i + 1];
      RepairKeepsOthers(g, ids[0], rest[i]);
    }
    assert g1.pcs == Without(g.pcs, ids[0]);
  }

  /** The score of a streak of `n` is the first repair's score plus that of the remaining `m = n - 1`. */
  lemma StreakArithmetic(s0: int, s1: int, s2: int, c: int, c1: int, m: int, n: int)
    requires c1 == c + 1 && n == m + 1
    requires s1 == s0 + 12 + 2 * c
    requires s2 == s1 + 10 * m + 2 * m * c1 + m * (m + 1)
    ensures s2 == s0 + 10 * n + 2 * n * c + n * (n + 1)
  {
  }

  /** Spawning and expiring keep every PC on the grid broken. */
  lemma GridStaysBroken(g: Game, e: Event)
    requires Valid(g) && AllBroken(g.pcs)
    requires e.Spawn? ==> AllBroken(e.spawned)
    ensures AllBroken(Step(g, e).pcs)
  {
  }

  /** A reset after a finished game restores the starting record. */
  lemma ResetRestores(g: Game)
    requires Valid(g) && g.finished
    ensures Step(g, Reset) == Initial()
  {
  }

  /** The record after `n` timer ticks. */
  function Ticks(g: Game, n: nat): (r: Game)
    requires Valid(g)
    ensures Valid(r)
    decreases n
  {
    if n == 0 then g else Step(Ticks(g, n - 1), Tick)
  }

  /** Each tick takes one second off; the game is still on until the tick that reaches 0, which ends it. */
  lemma {:induction false} TicksToEnd(g: Game, n: nat)
    requires Valid(g) && Playing(g) && n <= g.timeLeft
    ensures Ticks(g, n).timeLeft == g.timeLeft - n
    ensures Playing(Ticks(g, n)) <==> n < g.timeLeft
    ensures n == g.timeLeft ==> Ticks(g, n).finished
    decreases n
  {
    if n > 0 {
      TicksToEnd(g, n - 1);
      var h := Ticks(g, n - 1);
      assert Ticks(g, n) == Step(h, Tick);
      assert Playing(h) && h.timeLeft == g.timeLeft - n + 1;
    }
  }
}
