/**
 * The badge board shown with the results: nine badges in three categories of
 * three tiers each, unlocked by thresholds on the calculator's output.
 */
module Badges {
  import opened Num
  import Calculations

  datatype Badge = Badge(id: string, tier: int, unlocked: bool)

  /** The autonomy score the board assumes: always full. */
  const AutonomyScore: int := 100

  const BadgeCount: int := 9

  /** The id prefixes of the three categories; each badge id is a prefix, a dash and a tier name. */
  const EcoPrefix: string := "eco"
  const GreenPrefix: string := "green"
  const AutonomyPrefix: string := "autonomy"

  /** The number of PCs saved, read back from the CO2 figure (600 kg per PC). */
  function PcSauves(totalCO2Saved: int): (r: int)
    ensures 600 * r <= totalCO2Saved < 600 * r + 600
  {
    totalCO2Saved / 600
  }

  /**
   * The nine badges, economic first, then green, then autonomy, each category
   * in tier order. Economic and green thresholds are strict ("more than").
   */
  function BadgesFor(annualSavings: int, pcSauves: int): (r: seq<Badge>)
    ensures |r| == BadgeCount
    ensures forall i :: 0 <= i < |r| ==> r[i].tier == i % 3 + 1
  {
    [ Badge(EcoPrefix + "-bronze", 1, annualSavings > 5000),
      Badge(EcoPrefix + "-silver", 2, annualSavings > 15000),
      Badge(EcoPrefix + "-gold", 3, annualSavings > 30000),
      Badge(GreenPrefix + "-bronze", 1, pcSauves > 10),
      Badge(GreenPrefix + "-silver", 2, pcSauves > 30),
      Badge(GreenPrefix + "-gold", 3, pcSauves > 50),
      Badge(AutonomyPrefix + "-bronze", 1, AutonomyScore >= 50),
      Badge(AutonomyPrefix + "-silver", 2, AutonomyScore >= 75),
      Badge(AutonomyPrefix + "-gold", 3, AutonomyScore >= 90) ]
  }

  /** The board for a calculator result. */
  function BadgesOf(r: Calculations.Results): seq<Badge> {
    BadgesFor(r.economiesFinancieres.annualSavings, PcSauves(r.impactEcologique.totalCO2Saved))
  }

  function UnlockedCount(bs: seq<Badge>): (n: nat)
    ensures n <= |bs|
  {
    if |bs| == 0 then 0 else UnlockedCount(bs[..|bs| - 1]) + (if bs[|bs| - 1].unlocked then 1 else 0)
  }

  /** The completion shown on the board: `Math.round(unlocked / total * 100)`. */
  function CompletionPercent(bs: seq<Badge>): int
    requires |bs| > 0
  {
    RoundDiv(100 * UnlockedCount(bs), |bs|)
  }

  /** The congratulation message appears when every badge is unlocked. */
  predicate ShowsCongratulations(bs: seq<Badge>) {
    UnlockedCount(bs) == |bs|
  }

  predicate StartsWith(s: string, prefix: string) {
    |prefix| <= |s| && s[..|prefix|] == prefix
  }

  /** The badges whose id starts with `prefix`, in board order: one category section. */
  function WithPrefix(bs: seq<Badge>, prefix: string): (r: seq<Badge>)
    ensures |r| <= |bs|
  {
    if |bs| == 0 then []
    else WithPrefix(bs[..|bs| - 1], prefix) + (if StartsWith(bs[|bs| - 1].id, prefix) then [bs[|bs| - 1]] else [])
  }

  /** Pcs saved, as the board reads them, are exactly the PCs the calculator keeps out of the bin. */
  lemma PcSauvesIsPcsToReplace(q: Calculations.QuestionnaireData)
    ensures PcSauves(Calculations.CalculateImpact(q).impactEcologique.totalCO2Saved)
      == Calculations.PcsToReplace(q.nbPCs, q.pcAge)
  {
  }

  /** Within a category a higher tier is only ever unlocked together with the tier below it. */
  lemma TiersNested(annualSavings: int, pcSauves: int)
    ensures var bs := BadgesFor(annualSavings, pcSauves);
      forall i :: 0 <= i < |bs| && bs[i].tier > 1 && bs[i].unlocked ==> bs[i - 1].unlocked
  {
  }

  /** The economic thresholds are strict: 5000 a year unlocks no economic badge. */
  lemma EconomicThresholdStrict(pcSauves: int)
    ensures var bs := BadgesFor(5000, pcSauves);
      !bs[0].unlocked && !bs[1].unlocked && !bs[2].unlocked
  {
  }

  /** Counting from the end: the last badge adds one when it is unlocked. */
  lemma UnlockedCountStep(bs: seq<Badge>, k: int)
    requires 0 < k <= |bs|
    ensures UnlockedCount(bs[..k]) == UnlockedCount(bs[..k - 1]) + (if bs[k - 1].unlocked then 1 else 0)
  {
    assert bs[..k][..k - 1] == bs[..k - 1];
  }

  /** The count reaches the length exactly when every badge is unlocked. */
  lemma {:induction false} UnlockedCountFull(bs: seq<Badge>)
    ensures UnlockedCount(bs) == |bs| <==> forall i :: 0 <= i < |bs| ==> bs[i].unlocked
    decreases |bs|
  {
    if |bs| > 0 {
      var init := bs[..|bs| - 1];
      UnlockedCountFull(init);
      assert forall i :: 0 <= i < |init| ==> init[i] == bs[i];
    }
  }

  /** The autonomy badges are always unlocked, so at least three of the nine are. */
  lemma AtLeastThreeUnlocked(annualSavings: int, pcSauves: int)
    ensures var bs := BadgesFor(annualSavings, pcSauves);
      && bs[6].unlocked && bs[7].unlocked && bs[8].unlocked
      && UnlockedCount(bs) >= 3
  {
    var bs := BadgesFor(annualSavings, pcSauves);
    UnlockedCountStep(bs, 9);
    UnlockedCountStep(bs, 8);
    UnlockedCountStep(bs, 7);
    assert bs[..9] == bs;
  }

  /** Every badge is unlocked exactly when the savings pass 30000 and more than 50 PCs are saved. */
  lemma AllUnlockedIff(annualSavings: int, pcSauves: int)
    ensures ShowsCongratulations(BadgesFor(annualSavings, pcSauves))
      <==> annualSavings > 30000 && pcSauves > 50
  {
    var bs := BadgesFor(annualSavings, pcSauves);
    UnlockedCountFull(bs);
    if annualSavings > 30000 && pcSauves > 50 {
      assert forall i :: 0 <= i < |bs| ==> bs[i].unlocked;
    } else if annualSavings <= 30000 {
      assert !bs[2].unlocked;
    } else {
      assert !bs[5].unlocked;
    }
  }

  /** The completion reads 100 % exactly when all nine badges are unlocked. */
  lemma CompletionFullIff(bs: seq<Badge>)
    requires |bs| == BadgeCount
    ensures 0 <= CompletionPercent(bs) <= 100
    ensures CompletionPercent(bs) == 100 <==> ShowsCongratulations(bs)
  {
    var u := UnlockedCount(bs);
    var c := CompletionPercent(bs);
    assert 9 * (2 * c - 1) <= 200 * u < 9 * (2 * c + 1);
    if u < 9 {
      assert c < 100;
    }
  }

  lemma {:induction false} WithPrefixConcat(a: seq<Badge>, b: seq<Badge>, prefix: string)
    ensures WithPrefix(a + b, prefix) == WithPrefix(a, prefix) + WithPrefix(b, prefix)
    decreases |b|
  {
    if |b| == 0 {
      assert a + b == a;
    } else {
      var c := a + b;
      assert c[..|c| - 1] == a + b[..|b| - 1];
      assert c[|c| - 1] == b[|b| - 1];
      WithPrefixConcat(a, b[..|b| - 1], prefix);
    }
  }

  /** A section whose ids all carry the prefix is kept whole, in order. */
  lemma {:induction false} WithPrefixAll(bs: seq<Badge>, prefix: string)
    requires forall i :: 0 <= i < |bs| ==> StartsWith(bs[i].id, prefix)
    ensures WithPrefix(bs, prefix) == bs
    decreases |bs|
  {
    if |bs| > 0 {
      var init := bs[..|bs| - 1];
      assert forall i :: 0 <= i < |init| ==> init[i] == bs[i];
      WithPrefixAll(init, prefix);
      assert StartsWith(bs[|bs| - 1].id, prefix);
      assert init + [bs[|bs| - 1]] == bs;
    }
  }

  /** A section where no id carries the prefix contributes nothing. */
  lemma {:induction false} WithPrefixNone(bs: seq<Badge>, prefix: string)
    requires forall i :: 0 <= i < |bs| ==> !StartsWith(bs[i].id, prefix)
    ensures WithPrefix(bs, prefix) == []
    decreases |bs|
  {
    if |bs| > 0 {
      var init := bs[..|bs| - 1];
      assert forall i :: 0 <= i < |init| ==> init[i] == bs[i];
      WithPrefixNone(init, prefix);
      assert !StartsWith(bs[|bs| - 1].id, prefix);
    }
  }

  lemma PrefixOfConcat(prefix: string, rest: string)
    ensures StartsWith(prefix + rest, prefix)
  {
    assert (prefix + rest)[..|prefix|] == prefix;
  }

  lemma FirstCharMismatch(s: string, prefix: string)
    requires |s| > 0 && |prefix| > 0 && s[0] != prefix[0]
    ensures !StartsWith(s, prefix)
  {
    if |prefix| <= |s| {
      assert s[..|prefix|][0] == s[0];
    }
  }

  /** Which of the three category prefixes each board id carries. */
  lemma IdPrefixes(annualSavings: int, pcSauves: int)
    ensures var bs := BadgesFor(annualSavings, pcSauves);
      forall i :: 0 <= i < |bs| ==>
        && (StartsWith(bs[i].id, EcoPrefix) <==> i < 3)
        && (StartsWith(bs[i].id, GreenPrefix) <==> 3 <= i < 6)
        && (StartsWith(bs[i].id, AutonomyPrefix) <==> 6 <= i)
  {
    var bs := BadgesFor(annualSavings, pcSauves);
    forall i | 0 <= i < |bs|
      ensures StartsWith(bs[i].id, EcoPrefix) <==> i < 3
      ensures StartsWith(bs[i].id, GreenPrefix) <==> 3 <= i < 6
      ensures StartsWith(bs[i].id, AutonomyPrefix) <==> 6 <= i
    {
      var id := bs[i].id;
      var own := if i < 3 then EcoPrefix else if i < 6 then GreenPrefix else AutonomyPrefix;
      var rest := if i % 3 == 0 then "-bronze" else if i % 3 == 1 then "-silver" else "-gold";
      assert id == own + rest;
      PrefixOfConcat(own, rest);
      assert id[0] == own[0];
      assert EcoPrefix[0] == 'e' && GreenPrefix[0] == 'g' && AutonomyPrefix[0] == 'a';
      if i >= 3 { FirstCharMismatch(id, EcoPrefix); }
      if i < 3 || i >= 6 { FirstCharMismatch(id, GreenPrefix); }
      if i < 6 { FirstCharMismatch(id, AutonomyPrefix); }
    }
  }

  /** When the ids carrying a prefix form one contiguous block, filtering by it yields that block. */
  lemma {:induction false} SectionByPrefix(bs: seq<Badge>, lo: int, hi: int, prefix: string)
    requires 0 <= lo <= hi <= |bs|
    requires forall i :: 0 <= i < |bs| ==> (StartsWith(bs[i].id, prefix) <==> lo <= i < hi)
    ensures WithPrefix(bs, prefix) == bs[lo..hi]
    decreases |bs|
  {
    if |bs| > 0 {
      var n := |bs| - 1;
      var init := bs[..n];
      var last := bs[n];
      var carries := StartsWith(last.id, prefix);
      assert WithPrefix(bs, prefix) == WithPrefix(init, prefix) + (if carries then [last] else []);
      InitBlock(bs, lo, hi, prefix);
      var lo', hi' := if lo < n then lo else n, if hi < n then hi else n;
      SectionByPrefix(init, lo', hi', prefix);
      SliceOfInit(bs, lo', hi');
      if carries {
        assert bs[lo..n] + [last] == bs[lo..hi];
      }
    }
  }

  /** A stretch of the board short of its last badge reads the same without that badge. */
  lemma SliceOfInit(bs: seq<Badge>, lo: int, hi: int)
    requires 0 <= lo <= hi < |bs|
    ensures bs[..|bs| - 1][lo..hi] == bs[lo..hi]
  {
    var init := bs[..|bs| - 1];
    assert forall k :: 0 <= k < hi - lo ==> init[lo..hi][k] == init[lo + k] == bs[lo + k];
  }

  /** Dropping the last badge keeps the block, cut to the remaining length. */
  lemma InitBlock(bs: seq<Badge>, lo: int, hi: int, prefix: string)
    requires 0 <= lo <= hi <= |bs| && |bs| > 0
    requires forall i :: 0 <= i < |bs| ==> (StartsWith(bs[i].id, prefix) <==> lo <= i < hi)
    ensures StartsWith(bs[|bs| - 1].id, prefix) <==> lo <= |bs| - 1 < hi
    ensures var n := |bs| - 1; var lo', hi' := if lo < n then lo else n, if hi < n then hi else n;
      forall i :: 0 <= i < |bs[..n]| ==> (StartsWith(bs[..n][i].id, prefix) <==> lo' <= i < hi')
  {
    var n := |bs| - 1;
    assert StartsWith(bs[n].id, prefix) <==> lo <= n < hi;
    var init := bs[..n];
    forall i | 0 <= i < |init|
      ensures StartsWith(init[i].id, prefix) <==> lo <= i < hi
    {
      assert init[i] == bs[i];
    }
  }

  /** The three id prefixes split the board into three sections of three, each in tier order. */
  lemma CategoriesPartition(annualSavings: int, pcSauves: int)
    ensures var bs := BadgesFor(annualSavings, pcSauves);
      && WithPrefix(bs, EcoPrefix) == bs[0..3]
      && WithPrefix(bs, GreenPrefix) == bs[3..6]
      && WithPrefix(bs, AutonomyPrefix) == bs[6..9]
  {
    var bs := BadgesFor(annualSavings, pcSauves);
    IdPrefixes(annualSavings, pcSauves);
    SectionByPrefix(bs, 0, 3, EcoPrefix);
    SectionByPrefix(bs, 3, 6, GreenPrefix);
    SectionByPrefix(bs, 6, 9, AutonomyPrefix);
  }

  /**
   * For a school paying both licences, the economic badges need at least 26,
   * 62 and 117 PCs.
   */
  lemma EconomicBadgesForBothLicences(q: Calculations.QuestionnaireData)
    requires q.hasWindows && q.hasOffice
    ensures var bs := BadgesOf(Calculations.CalculateImpact(q));
      && (bs[0].unlocked <==> q.nbPCs >= 26)
      && (bs[1].unlocked <==> q.nbPCs >= 62)
      && (bs[2].unlocked <==> q.nbPCs >= 117)
  {
    Calculations.SavingsClosedForm(q);
  }

  /**
   * For a fleet younger than the replacement age only 30 % count as saved,
   * so the green badges need at least 37, 104 and 170 PCs.
   */
  lemma GreenBadgesForYoungFleet(q: Calculations.QuestionnaireData)
    requires q.pcAge < Calculations.ReplacementAge
    ensures var bs := BadgesOf(Calculations.CalculateImpact(q));
      && (bs[3].unlocked <==> q.nbPCs >= 37)
      && (bs[4].unlocked <==> q.nbPCs >= 104)
      && (bs[5].unlocked <==> q.nbPCs >= 170)
  {
    PcSauvesIsPcsToReplace(q);
  }
}
