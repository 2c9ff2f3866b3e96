/**
 * The free-or-proprietary sorting game: fifteen programs start in a shuffled
 * pile and are dragged into the "libre" or the "proprietary" bin (or from one
 * bin to the other); once the pile is empty the bins are scored: 100 per
 * program in its right bin, minus 50 per mistake, plus a bonus for speed.
 * Programs are their catalogue ids; odd ids are the free programs. The
 * shuffle and `Date.now()` arrive as event parameters.
 */
module SoftwareSort {
  import opened Wrappers
  import opened Num

  const CatalogueSize: nat := 15
  const PointsPerRight: int := 100
  const PenaltyPerMistake: int := 50
  const MaxTimeBonus: int := 500

  /** The catalogue ids 1..15, in catalogue order. */
  function Catalogue(): (c: seq<int>)
    ensures |c| == CatalogueSize && forall i :: 0 <= i < |c| ==> c[i] == i + 1
  {
    seq(CatalogueSize, i requires 0 <= i => i + 1)
  }

  /** Firefox, GIMP, LibreOffice, VLC, Blender, Audacity, Linux and Inkscape: the odd ids. */
  predicate IsLibre(id: int) {
    id % 2 == 1
  }

  /** Where a program sits. */
  datatype Place = Pile | LibreBin | ProprietaryBin

  /** Where a program can be dropped. */
  datatype Bin = Libre | Proprietary

  function PlaceOf(b: Bin): (p: Place)
    ensures p != Pile
  {
    match b
    case Libre => LibreBin
    case Proprietary => ProprietaryBin
  }

  datatype Game = Game(
    pile: seq<int>,
    libre: seq<int>,
    proprietary: seq<int>,
    dragged: Option<(int, Place)>,
    finished: bool,
    score: int,
    mistakes: int,
    start: int,
    end: int)

  /** `order` is the shuffle's outcome, `now` the clock reading of the handler. */
  datatype Event =
    | DragStart(id: int, from: Place)
    | Drop(target: Bin, now: int)
    | Finish(now: int)
    | Reset(order: seq<int>, now: int)

  function Get(g: Game, p: Place): seq<int> {
    match p
    case Pile => g.pile
    case LibreBin => g.libre
    case ProprietaryBin => g.proprietary
  }

  function Put(g: Game, p: Place, xs: seq<int>): (r: Game)
    ensures Get(r, p) == xs
    ensures forall q :: q != p ==> Get(r, q) == Get(g, q)
    ensures r.dragged == g.dragged && r.finished == g.finished && r.start == g.start
  {
    match p
    case Pile => g.(pile := xs)
    case LibreBin => g.(libre := xs)
    case ProprietaryBin => g.(proprietary := xs)
  }

  /** Every program, wherever it sits. */
  function Programs(g: Game): multiset<int> {
    multiset(g.pile) + multiset(g.libre) + multiset(g.proprietary)
  }

  /** A shuffle of the catalogue. */
  predicate IsShuffle(order: seq<int>) {
    multiset(order) == multiset(Catalogue())
  }

  predicate Valid(g: Game) {
    && Programs(g) == multiset(Catalogue())
    && (g.dragged.Some? ==> g.dragged.value.0 in Get(g, g.dragged.value.1))
  }

  /** The preconditions of the event parameters: a reset deals a shuffle of the catalogue. */
  predicate EventOk(e: Event) {
    e.Reset? ==> IsShuffle(e.order)
  }

  /** `resetGame`: the shuffled pile, empty bins, the clock started. */
  function Deal(order: seq<int>, now: int): (g: Game)
    requires IsShuffle(order)
    ensures Valid(g) && g.pile == order && g.libre == [] && g.proprietary == []
    ensures !g.finished && g.score == 0 && g.mistakes == 0 && g.start == now
  {
    Game(order, [], [], None, false, 0, 0, now, 0)
  }

  /** `xs.filter(s => s.id !== id)`. */
  function Remove(xs: seq<int>, id: int): (r: seq<int>)
    ensures multiset(r) == multiset(xs)[id := 0]
    ensures |r| == |xs| - multiset(xs)[id]
    ensures forall x :: x in r <==> x in xs && x != id
  {
    if |xs| == 0 then []
    else if xs[0] == id then
      assert xs == [xs[0]] + xs[1..];
      Remove(xs[1..], id)
    else
      assert xs == [xs[0]] + xs[1..];
      [xs[0]] + Remove(xs[1..], id)
  }

  /** The programs of `xs` that belong in the bin: free ones in the free bin, the others in the other. */
  function RightCount(xs: seq<int>, libre: bool): (n: nat)
    ensures n <= |xs|
    ensures n == |xs| <==> forall i :: 0 <= i < |xs| ==> IsLibre(xs[i]) == libre
  {
    if |xs| == 0 then 0
    else (if IsLibre(xs[0]) == libre then 1 else 0) + RightCount(xs[1..], libre)
  }

  /** `Math.max(0, 500 - Math.floor(seconds / 2))` for a time given in milliseconds. */
  function TimeBonus(elapsedMs: int): (b: int)
    ensures 0 <= b <= MaxTimeBonus || elapsedMs < 0
    ensures b >= 0
    ensures elapsedMs < 1_000_000 ==> b > 0
    ensures elapsedMs >= 1_000_000 ==> b == 0
  {
    Max(0, MaxTimeBonus - elapsedMs / 2000)
  }

  /** The right placements and the mistakes of two bins. */
  function Tally(libre: seq<int>, proprietary: seq<int>): (t: (nat, nat))
    ensures t.0 + t.1 == |libre| + |proprietary|
  {
    var right := RightCount(libre, true) + RightCount(proprietary, false);
    (right, |libre| + |proprietary| - right)
  }

  /** `finishGame` scoring the bins `libre` and `proprietary` at time `now`. */
  function FinishWith(g: Game, libre: seq<int>, proprietary: seq<int>, now: int): (r: Game)
    ensures r.finished && r.end == now
    ensures r.pile == g.pile && r.libre == g.libre && r.proprietary == g.proprietary && r.dragged == g.dragged
    ensures r.score >= 0 && r.mistakes == Tally(libre, proprietary).1
    ensures r.score >= PointsPerRight * Tally(libre, proprietary).0 - PenaltyPerMistake * r.mistakes
  {
    var t := Tally(libre, proprietary);
    var total := PointsPerRight * t.0 + TimeBonus(now - g.start) - PenaltyPerMistake * t.1;
    g.(end := now, score := Max(0, total), mistakes := t.1, finished := true)
  }

  /** The dragged program moves from where it was to the end of the target bin. */
  function Move(g: Game, target: Bin): (r: Game)
    requires Valid(g) && g.dragged.Some?
    ensures Valid(r) && r.dragged.None? && r.finished == g.finished && r.start == g.start
    ensures var (id, from) := g.dragged.value;
      && (from == Pile ==> |r.pile| == |g.pile| - 1)
      && (from != Pile ==> r.pile == g.pile)
      && id in Get(r, PlaceOf(target))
      && (from != PlaceOf(target) ==> id !in Get(r, from))
    ensures var (id, from) := g.dragged.value; var to := PlaceOf(target);
      && (from != to ==> Get(r, from) == Remove(Get(g, from), id) && Get(r, to) == Get(g, to) + [id])
      && (from == to ==> Get(r, to) == Remove(Get(g, to), id) + [id])
      && (forall p :: p != from && p != to ==> Get(r, p) == Get(g, p))
  {
    var (id, from) := g.dragged.value;
    var g1 := Put(g, from, Remove(Get(g, from), id));
    var to := PlaceOf(target);
    var g2 := Put(g1, to, Get(g1, to) + [id]);
    var r := g2.(dragged := None);
    assert id in multiset(Catalogue());
    CatalogueOnce(id);
    OnlyOnce(g, id, from);
    MoveKeepsPrograms(g, id, from, to, g1, g2);
    r
  }

  /**
   * One event, each handler in one step; the automatic check that follows a
   * drop scores the bins once the pile is empty. The board takes drags and
   * drops and shows the finish button once the pile is empty; the results
   * screen has the retry button.
   */
  function Step(g: Game, e: Event): (r: Game)
    requires Valid(g) && EventOk(e)
    ensures Valid(r)
  {
    match e
    case DragStart(id, from) =>
      if !g.finished && id in Get(g, from) then g.(dragged := Some((id, from))) else g
    case Drop(target, now) =>
      if g.finished || g.dragged.None? then g
      else
        var m := Move(g, target);
        if |m.pile| == 0 then FinishWith(m, m.libre, m.proprietary, now) else m
    case Finish(now) =>
      if !g.finished && |g.pile| == 0 then FinishWith(g, g.libre, g.proprietary, now) else g
    case Reset(order, now) =>
      if g.finished then Deal(order, now) else g
  }

  /** A program counted once in `Programs` sits in exactly one list, once. */
  lemma OnlyOnce(g: Game, id: int, p: Place)
    requires Programs(g)[id] == 1 && id in Get(g, p)
    ensures multiset(Get(g, p))[id] == 1
  {
  }

  /** Replacing one list changes the programs by exactly the lists' difference. */
  lemma PutPrograms(g: Game, p: Place, xs: seq<int>)
    ensures Programs(Put(g, p, xs)) + multiset(Get(g, p)) == Programs(g) + multiset(xs)
  {
  }

  lemma RestoreOne(ms: multiset<int>, id: int)
    requires ms[id] == 1
    ensures ms[id := 0] + multiset{id} == ms
  {
    forall x ensures (ms[id := 0] + multiset{id})[x] == ms[x] {
    }
  }

  /** Taking a program out of one list and appending it to another keeps the set of programs. */
  lemma MoveKeepsPrograms(g: Game, id: int, from: Place, to: Place, g1: Game, g2: Game)
    requires multiset(Get(g, from))[id] == 1
    requires g1 == Put(g, from, Remove(Get(g, from), id))
    requires g2 == Put(g1, to, Get(g1, to) + [id])
    ensures Programs(g2) == Programs(g)
  {
    var ms := multiset(Get(g, from));
    var rest := Remove(Get(g, from), id);
    RestoreOne(ms, id);
    PutPrograms(g, from, rest);
    var a := Get(g1, to);
    PutPrograms(g1, to, a + [id]);
    assert multiset(a + [id]) == multiset(a) + multiset{id};
  }

  /** Counting right placements distributes over concatenation. */
  lemma {:induction false} RightCountAppend(xs: seq<int>, ys: seq<int>, libre: bool)
    ensures RightCount(xs + ys, libre) == RightCount(xs, libre) + RightCount(ys, libre)
    decreases |xs|
  {
    if |xs| > 0 {
      assert (xs + ys)[1..] == xs[1..] + ys;
      RightCountAppend(xs[1..], ys, libre);
    } else {
      assert xs + ys == ys;
    }
  }

  /** Ids 1 to n in order hold (n + 1) / 2 libre programs, the odd ids, and n / 2 proprietary ones. */
  lemma {:induction false} CountOdds(c: seq<int>)
    requires forall i :: 0 <= i < |c| ==> c[i] == i + 1
    ensures RightCount(c, true) == (|c| + 1) / 2
    ensures RightCount(c, false) == |c| / 2
    decreases |c|
  {
    if |c| > 0 {
      var init := c[..|c| - 1];
      assert c == init + [|c|];
      CountOdds(init);
      RightCountAppend(init, [|c|], true);
      RightCountAppend(init, [|c|], false);
    }
  }

  /** The catalogue holds 8 libre programs and 7 proprietary ones. */
  lemma CatalogueSplit()
    ensures RightCount(Catalogue(), true) == 8
    ensures RightCount(Catalogue(), false) == 7
  {
    CountOdds(Catalogue());
  }

  /** Each catalogue id appears once in the catalogue. */
  lemma CatalogueOnce(id: int)
    requires id in multiset(Catalogue())
    ensures multiset(Catalogue())[id] == 1
  {
    DistinctOnce(Catalogue(), id);
  }

  /** In a sequence without repeats every element is counted once. */
  lemma {:induction false} DistinctOnce(s: seq<int>, x: int)
    requires forall i, j :: 0 <= i < j < |s| ==> s[i] != s[j]
    ensures multiset(s)[x] <= 1
    decreases |s|
  {
    if |s| > 0 {
      assert s == [s[0]] + s[1..];
      DistinctOnce(s[1..], x);
      if s[0] == x {
        assert x !in s[1..];
      }
    }
  }

  /** Fifteen programs in all: a pile of one leaves fourteen in the bins. */
  lemma BinsHoldAllButOne(g: Game)
    requires Valid(g) && |g.pile| == 1
    ensures |g.libre| + |g.proprietary| == CatalogueSize - 1
  {
    assert |Programs(g)| == |multiset(Catalogue())| == CatalogueSize;
  }

  /** An empty pile means all fifteen programs are in the bins. */
  lemma BinsHoldAll(g: Game)
    requires Valid(g) && |g.pile| == 0
    ensures |g.libre| + |g.proprietary| == CatalogueSize
  {
    assert |Programs(g)| == |multiset(Catalogue())| == CatalogueSize;
  }

  /**
   * The score of a finished game in terms of the sorting: with `k` programs
   * in the wrong bin out of fifteen, 100 (15 - k) - 50 k plus the time bonus,
   * and never below 0.
   */
  lemma FinishScore(g: Game, now: int)
    requires Valid(g) && !g.finished && |g.pile| == 0
    ensures var r := Step(g, Finish(now)); var k := r.mistakes;
      && r.finished && 0 <= k <= CatalogueSize
      && r.score == Max(0, PointsPerRight * (CatalogueSize - k) + TimeBonus(now - g.start) - PenaltyPerMistake * k)
  {
    BinsHoldAll(g);
  }

  /** A perfect sort scores 1500 plus the time bonus, and only a perfect sort has no mistakes. */
  lemma PerfectSort(g: Game, now: int)
    requires Valid(g) && !g.finished && |g.pile| == 0
    ensures var r := Step(g, Finish(now));
      r.mistakes == 0 <==>
        (forall i :: 0 <= i < |g.libre| ==> IsLibre(g.libre[i]))
        && (forall i :: 0 <= i < |g.proprietary| ==> !IsLibre(g.proprietary[i]))
    ensures var r := Step(g, Finish(now));
      r.mistakes == 0 ==> r.score == PointsPerRight * CatalogueSize + TimeBonus(now - g.start)
  {
    BinsHoldAll(g);
  }

  /** Emptying the pile ends the game at once, scoring all fifteen programs. */
  lemma LastDropFinishes(g: Game, target: Bin, now: int)
    requires Valid(g) && !g.finished && |g.pile| == 1 && g.dragged == Some((g.pile[0], Pile))
    ensures var r := Step(g, Drop(target, now));
      && r.finished && |r.pile| == 0
      && Tally(r.libre, r.proprietary).0 + Tally(r.libre, r.proprietary).1 == CatalogueSize
  {
    var r := Step(g, Drop(target, now));
    BinsHoldAll(r);
  }

  /** A drop that leaves programs in the pile does not end the game. */
  lemma DropKeepsPlaying(g: Game, target: Bin, now: int)
    requires Valid(g) && !g.finished && g.dragged.Some?
    requires |g.pile| >= 2 || (g.dragged.value.1 != Pile && |g.pile| >= 1)
    ensures !Step(g, Drop(target, now)).finished
  {
  }

  /** Slower is never better: the time bonus does not grow with the time taken. */
  lemma BonusShrinks(a: int, b: int)
    requires 0 <= a <= b
    ensures TimeBonus(b) <= TimeBonus(a) <= MaxTimeBonus
  {
  }

  /** Retrying after the results deals a fresh board. */
  lemma ResetDeals(g: Game, order: seq<int>, now: int)
    requires Valid(g) && g.finished && IsShuffle(order)
    ensures Step(g, Reset(order, now)) == Deal(order, now)
  {
  }

  // The automatic check as the component schedules it: a timeout queued by
  // the drop calls the `checkGameFinished` of the render that handled the
  // drop, so both the test and the scoring read the lists as they were
  // before the drop.

  /** The drop handler followed by that check, as written. */
  function DropAsWritten(g: Game, target: Bin, now: int): (r: Game)
    requires Valid(g) && !g.finished && g.dragged.Some?
    ensures Valid(r)
  {
    var m := Move(g, target);
    if |g.pile| == 1 || |g.libre| + |g.proprietary| == CatalogueSize - 1 then
      FinishWith(m, g.libre, g.proprietary, now)
    else m
  }

  /** As written, the finishing drop's program is missing from the tally: fourteen programs are scored, not fifteen. */
  lemma AsWrittenMissesLast(g: Game, target: Bin, now: int)
    requires Valid(g) && !g.finished && |g.pile| == 1 && g.dragged == Some((g.pile[0], Pile))
    ensures var r := DropAsWritten(g, target, now);
      r.finished && Tally(g.libre, g.proprietary).0 + r.mistakes == CatalogueSize - 1
  {
    assert |Programs(g)| == |multiset(Catalogue())| == CatalogueSize;
  }

  /**
   * As written, a perfect sort scores 1400 plus the time bonus: the last
   * program, dropped into its right bin, earns nothing. The game as intended
   * scores it: 1500 plus the bonus.
   */
  lemma PerfectSortAsWritten(g: Game, target: Bin, now: int)
    requires Valid(g) && !g.finished && |g.pile| == 1 && g.dragged == Some((g.pile[0], Pile))
    requires IsLibre(g.pile[0]) <==> target == Libre
    requires forall i :: 0 <= i < |g.libre| ==> IsLibre(g.libre[i])
    requires forall i :: 0 <= i < |g.proprietary| ==> !IsLibre(g.proprietary[i])
    ensures DropAsWritten(g, target, now).score == 1400 + TimeBonus(now - g.start)
    ensures Step(g, Drop(target, now)).score == 1500 + TimeBonus(now - g.start)
  {
    LastDropSorted(g, target);
  }

  /** Bins holding only right placements score every program in them. */
  lemma AllRightTally(libre: seq<int>, proprietary: seq<int>)
    requires forall i :: 0 <= i < |libre| ==> IsLibre(libre[i])
    requires forall i :: 0 <= i < |proprietary| ==> !IsLibre(proprietary[i])
    ensures Tally(libre, proprietary) == (|libre| + |proprietary|, 0)
  {
  }

  /** The last program dropped into its right bin: fourteen right before the drop, fifteen after. */
  lemma LastDropSorted(g: Game, target: Bin)
    requires Valid(g) && !g.finished && |g.pile| == 1 && g.dragged == Some((g.pile[0], Pile))
    requires IsLibre(g.pile[0]) <==> target == Libre
    requires forall i :: 0 <= i < |g.libre| ==> IsLibre(g.libre[i])
    requires forall i :: 0 <= i < |g.proprietary| ==> !IsLibre(g.proprietary[i])
    ensures Tally(g.libre, g.proprietary) == (CatalogueSize - 1, 0)
    ensures var m := Move(g, target); |m.pile| == 0 && Tally(m.libre, m.proprietary) == (CatalogueSize, 0)
  {
    BinsHoldAllButOne(g);
    AllRightTally(g.libre, g.proprietary);
    var m := Move(g, target);
    var x := g.pile[0];
    if target == Libre {
      assert Get(m, LibreBin) == g.libre + [x] && Get(m, ProprietaryBin) == g.proprietary;
      forall i | 0 <= i < |m.libre| ensures IsLibre(m.libre[i]) {
        if i < |g.libre| { assert m.libre[i] == g.libre[i]; }
      }
    } else {
      assert Get(m, ProprietaryBin) == g.proprietary + [x] && Get(m, LibreBin) == g.libre;
      forall i | 0 <= i < |m.proprietary| ensures !IsLibre(m.proprietary[i]) {
        if i < |g.proprietary| { assert m.proprietary[i] == g.proprietary[i]; }
      }
    }
    AllRightTally(m.libre, m.proprietary);
  }

  /** As written, moving a program between the bins while one is left in the pile ends the game with it unsorted. */
  lemma StrayFinish(g: Game, target: Bin, now: int)
    requires Valid(g) && !g.finished && |g.pile| == 1 && g.dragged.Some? && g.dragged.value.1 != Pile
    ensures DropAsWritten(g, target, now).finished && |DropAsWritten(g, target, now).pile| == 1
    ensures !Step(g, Drop(target, now)).finished
  {
  }
}
