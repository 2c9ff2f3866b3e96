/**
 * The impact calculator: five questionnaire answers in, a report out. The
 * report has an economic part (licence, support and Linux costs, savings), an
 * ecological part (PCs kept out of the bin, CO2 and e-waste avoided), a fixed
 * autonomy record and a four-phase migration roadmap.
 *
 * The source computes in JavaScript floating point. Every quantity here is an
 * integer, and the model reads each float operation as the integer operation it
 * stands for: `subtotal * 0.10` is `subtotal / 10` (the subtotal is always a
 * multiple of 50), `Math.floor(n * 0.3)` is `(3 * n) / 10` and
 * `Math.ceil(n * 0.1)` is `(n + 9) / 10`. Dafny's `/` by a positive divisor
 * rounds down, so these readings hold for negative inputs too.
 */
module Calculations {
  import opened Num
  import NumberText

  const WindowsCostPerPc: int := 150
  const OfficeCostPerPcAnnual: int := 100
  /** The support overhead is one tenth of the licence subtotal. */
  const SupportDivisor: int := 10
  const LinuxFormationCost: int := 500
  const LinuxMaintenanceCostAnnual: int := 2000
  const Co2PerPcThrown: int := 600
  const ElectronicWastePerPc: int := 60
  const PcLifeExtensionYears: int := 4
  /** From this average age on, the whole fleet counts as due for replacement. */
  const ReplacementAge: int := 5
  /** The pilot phase never migrates more machines than this. */
  const PilotCap: int := 5

  datatype QuestionnaireData = QuestionnaireData(
    nbPCs: int,
    hasOffice: bool,
    hasWindows: bool,
    pcAge: int,
    currentMaintenanceCost: int)

  datatype EconomicImpact = EconomicImpact(
    windowsCost: int,
    officeCost: int,
    supportCost: int,
    currentTotalCost: int,
    linuxFormationCost: int,
    linuxMaintenanceCost: int,
    linuxTotalCost: int,
    annualSavings: int,
    fiveYearSavings: int)

  datatype EcologicalImpact = EcologicalImpact(
    co2PerPC: int,
    totalCO2Saved: int,
    electronicWastePerPC: int,
    totalWasteSaved: int,
    pcLifeExtension: int)

  datatype Autonomy = Autonomy(
    dataControl: bool,
    vendorLockIn: bool,
    customization: bool,
    transparency: bool,
    communitySupport: bool)

  datatype RoadmapStep = RoadmapStep(
    phase: int,
    title: string,
    description: string,
    duration: string,
    actions: seq<string>)

  datatype Results = Results(
    economiesFinancieres: EconomicImpact,
    impactEcologique: EcologicalImpact,
    autonomie: Autonomy,
    roadmap: seq<RoadmapStep>)

  // ---------------------------------------------------------------------------
  // Economic impact
  // ---------------------------------------------------------------------------

  /** The support overhead on a licence subtotal; exact whenever the subtotal is a multiple of ten. */
  function SupportCost(subtotal: int): (r: int)
    ensures subtotal % SupportDivisor == 0 ==> SupportDivisor * r == subtotal
    ensures subtotal >= 0 ==> 0 <= r <= subtotal
  {
    subtotal / SupportDivisor
  }

  function EconomicImpactOf(q: QuestionnaireData): (r: EconomicImpact)
    ensures r.linuxFormationCost == 500 && r.linuxMaintenanceCost == 2000 && r.linuxTotalCost == 2500
  {
    var windowsCost := if q.hasWindows then q.nbPCs * WindowsCostPerPc else 0;
    var officeCost := if q.hasOffice then q.nbPCs * OfficeCostPerPcAnnual else 0;
    var subtotal := windowsCost + officeCost;
    var supportCost := SupportCost(subtotal);
    var currentTotalCost := subtotal + supportCost;
    var linuxTotalCost := LinuxFormationCost + LinuxMaintenanceCostAnnual;
    var annualSavings := currentTotalCost - LinuxMaintenanceCostAnnual;
    EconomicImpact(
      windowsCost, officeCost, supportCost, currentTotalCost,
      LinuxFormationCost, LinuxMaintenanceCostAnnual, linuxTotalCost,
      annualSavings, annualSavings * 5 - LinuxFormationCost)
  }

  /** 1 when the flag is set, 0 otherwise. */
  function Flag(b: bool): int {
    if b then 1 else 0
  }

  /**
   * The licence subtotal is always a multiple of 50, so the 10 % support
   * overhead loses nothing: support is exactly a tenth of the subtotal and the
   * current total exactly eleven tenths of it.
   */
  lemma SupportIsExactTenth(q: QuestionnaireData)
    ensures var e := EconomicImpactOf(q);
      && (e.windowsCost + e.officeCost) % 50 == 0
      && 10 * e.supportCost == e.windowsCost + e.officeCost
      && 10 * e.currentTotalCost == 11 * (e.windowsCost + e.officeCost)
  {
    var e := EconomicImpactOf(q);
    var n := q.nbPCs;
    var k := if q.hasWindows && q.hasOffice then 5 * n else if q.hasWindows then 3 * n else if q.hasOffice then 2 * n else 0;
    assert e.windowsCost + e.officeCost == 50 * k;
    FiftyFoldTenth(k);
  }

  lemma FiftyFoldTenth(k: int)
    ensures (50 * k) % 50 == 0 && (50 * k) / SupportDivisor == 5 * k
  {
  }

  /** The savings in closed form: what the licences and their support cost, minus the Linux figures. */
  lemma SavingsClosedForm(q: QuestionnaireData)
    ensures var e := EconomicImpactOf(q);
      var perPc := 165 * Flag(q.hasWindows) + 110 * Flag(q.hasOffice);
      && e.windowsCost == 150 * Flag(q.hasWindows) * q.nbPCs
      && e.officeCost == 100 * Flag(q.hasOffice) * q.nbPCs
      && e.currentTotalCost == perPc * q.nbPCs
      && e.annualSavings == perPc * q.nbPCs - 2000
      && e.fiveYearSavings == 5 * perPc * q.nbPCs - 10500
  {
    SupportIsExactTenth(q);
  }

  /** A school paying for neither licence loses money on the switch: nothing is clamped. */
  lemma NoLicencesMeansNegativeSavings(q: QuestionnaireData)
    requires !q.hasWindows && !q.hasOffice
    ensures EconomicImpactOf(q).currentTotalCost == 0
    ensures EconomicImpactOf(q).annualSavings == -2000
    ensures EconomicImpactOf(q).fiveYearSavings == -10500
  {
  }

  /** The smallest fleet whose annual savings are not negative, for each licence combination that costs something. */
  function BreakEvenFleet(hasWindows: bool, hasOffice: bool): nat
    requires hasWindows || hasOffice
  {
    if hasWindows && hasOffice then 8 else if hasWindows then 13 else 19
  }

  /** Annual savings are non-negative exactly from the break-even fleet size on. */
  lemma BreakEven(q: QuestionnaireData)
    requires q.hasWindows || q.hasOffice
    ensures EconomicImpactOf(q).annualSavings >= 0 <==> q.nbPCs >= BreakEvenFleet(q.hasWindows, q.hasOffice)
  {
    SavingsClosedForm(q);
  }

  /** A larger fleet never lowers the savings, and each licence flag never lowers them on a non-negative fleet. */
  lemma SavingsMonotone(q1: QuestionnaireData, q2: QuestionnaireData)
    requires 0 <= q1.nbPCs <= q2.nbPCs
    requires q1.hasWindows ==> q2.hasWindows
    requires q1.hasOffice ==> q2.hasOffice
    ensures EconomicImpactOf(q1).annualSavings <= EconomicImpactOf(q2).annualSavings
    ensures EconomicImpactOf(q1).fiveYearSavings <= EconomicImpactOf(q2).fiveYearSavings
  {
    SavingsClosedForm(q1);
    SavingsClosedForm(q2);
    var p1 := 165 * Flag(q1.hasWindows) + 110 * Flag(q1.hasOffice);
    var p2 := 165 * Flag(q2.hasWindows) + 110 * Flag(q2.hasOffice);
    assert 0 <= p1 <= p2;
    assert p1 * q1.nbPCs <= p2 * q1.nbPCs <= p2 * q2.nbPCs;
  }

  /** The worked example: 50 PCs with both licences. */
  lemma EconomicExample()
    ensures var e := EconomicImpactOf(QuestionnaireData(50, true, true, 3, 0));
      && e.windowsCost == 7500 && e.officeCost == 5000 && e.supportCost == 1250
      && e.currentTotalCost == 13750 && e.linuxTotalCost == 2500
      && e.annualSavings == 11750 && e.fiveYearSavings == 58250
  {
  }

  // ---------------------------------------------------------------------------
  // Ecological impact
  // ---------------------------------------------------------------------------

  /**
   * The PCs whose replacement the migration avoids: the whole fleet once the
   * average age reaches the replacement age, otherwise 30 % of it, rounded down.
   */
  function PcsToReplace(nbPCs: int, pcAge: int): (r: int)
    ensures pcAge >= ReplacementAge ==> r == nbPCs
    ensures pcAge < ReplacementAge ==> 10 * r <= 3 * nbPCs < 10 * r + 10
    ensures nbPCs >= 0 ==> 0 <= r <= nbPCs
  {
    if pcAge >= ReplacementAge then nbPCs else (3 * nbPCs) / 10
  }

  function EcologicalImpactOf(q: QuestionnaireData): (r: EcologicalImpact)
    ensures r.co2PerPC == 600 && r.electronicWastePerPC == 60 && r.pcLifeExtension == 4
  {
    var pcsToReplace := PcsToReplace(q.nbPCs, q.pcAge);
    EcologicalImpact(
      Co2PerPcThrown, pcsToReplace * Co2PerPcThrown,
      ElectronicWastePerPc, pcsToReplace * ElectronicWastePerPc,
      PcLifeExtensionYears)
  }

  /** CO2 and e-waste both count the same kept PCs, so CO2 is always ten times the e-waste, and neither is negative. */
  lemma Co2IsTenTimesWaste(q: QuestionnaireData)
    requires q.nbPCs >= 0
    ensures var e := EcologicalImpactOf(q);
      && e.totalCO2Saved == 10 * e.totalWasteSaved
      && e.totalCO2Saved == 600 * PcsToReplace(q.nbPCs, q.pcAge)
      && 0 <= e.totalWasteSaved <= 60 * q.nbPCs
  {
  }

  /** Older fleets never keep fewer PCs out of the bin than younger ones of the same size. */
  lemma PcsToReplaceMonotoneInAge(nbPCs: int, age1: int, age2: int)
    requires nbPCs >= 0 && age1 <= age2
    ensures PcsToReplace(nbPCs, age1) <= PcsToReplace(nbPCs, age2)
  {
  }

  /** The hard cut-off: with 100 PCs, an average age of 4 keeps 30 of them, an age of 5 keeps all 100. */
  lemma AgeThresholdExample()
    ensures PcsToReplace(100, 4) == 30
    ensures PcsToReplace(100, 5) == 100
  {
  }

  // ---------------------------------------------------------------------------
  // Autonomy
  // ---------------------------------------------------------------------------

  /** The autonomy record: a fixed statement of the benefits, not derived from any answer. */
  function AutonomyRecord(): Autonomy {
    Autonomy(dataControl := true, vendorLockIn := false, customization := true,
             transparency := true, communitySupport := true)
  }

  // ---------------------------------------------------------------------------
  // Roadmap
  // ---------------------------------------------------------------------------

  /** The number of pilot machines: a tenth of the fleet rounded up, at most five. */
  function PilotCount(nbPCs: int): (r: int)
    ensures r <= PilotCap
    ensures r == PilotCap <==> nbPCs > 40
    ensures r < PilotCap ==> 10 * (r - 1) < nbPCs <= 10 * r
    ensures nbPCs >= 1 ==> r >= 1
  {
    Min(PilotCap, (nbPCs + 9) / 10)
  }

  const PilotPrefix: string := "Migration de "
  const PilotSuffix: string := " postes test"

  /** The one action text that depends on the answers. */
  function PilotAction(nbPCs: int): string {
    PilotPrefix + NumberText.ShowInt(PilotCount(nbPCs)) + PilotSuffix
  }

  const AuditTitle: string := "Audit et préparation"
  const AuditDescription: string := "Évaluation de l'infrastructure et choix de la distribution Linux"
  const AuditDuration: string := "2-4 semaines"
  const AuditInventory: string := "Inventaire complet du matériel et logiciels"
  const AuditCriticalApps: string := "Identification des applications critiques"
  const AuditDistribution: string := "Sélection de la distribution Linux (Ubuntu, Debian, Fedora...)"
  const AuditHardwareTest: string := "Test de compatibilité matérielle"
  const PilotTitle: string := "Projet pilote"
  const PilotDescription: string := "Déploiement test sur un groupe restreint"
  const PilotDuration: string := "4-6 semaines"
  const PilotTraining: string := "Formation des utilisateurs pilotes"
  const PilotIssues: string := "Identification et résolution des problèmes"
  const PilotDocumentation: string := "Documentation des procédures"
  const RolloutTitle: string := "Déploiement progressif"
  const RolloutDescription: string := "Migration par vagues de l'ensemble du parc"
  const RolloutDuration: string := "3-6 mois"
  const RolloutByService: string := "Migration par services/départements"
  const RolloutTraining: string := "Formation continue des utilisateurs"
  const RolloutSupport: string := "Support technique renforcé"
  const RolloutData: string := "Migration des données et configurations"
  const SupportTitle: string := "Optimisation et support"
  const SupportDescription: string := "Stabilisation et amélioration continue"
  const SupportDuration: string := "Continu"
  const SupportMonitoring: string := "Monitoring des performances"
  const SupportTuning: string := "Optimisation des configurations"
  const SupportDocumentation: string := "Mise à jour de la documentation"
  const SupportTraining: string := "Formation avancée des équipes IT"

  function AuditPhase(): (s: RoadmapStep)
    ensures s.phase == 1 && |s.actions| == 4
  {
    RoadmapStep(1, AuditTitle,
      AuditDescription,
      AuditDuration,
      [AuditInventory,
       AuditCriticalApps,
       AuditDistribution,
       AuditHardwareTest])
  }

  /** The pilot phase: its first action names the number of pilot machines. */
  function PilotPhase(nbPCs: int): (s: RoadmapStep)
    ensures s.phase == 2 && |s.actions| == 4 && s.actions[0] == PilotAction(nbPCs)
  {
    RoadmapStep(2, PilotTitle,
      PilotDescription,
      PilotDuration,
      [PilotAction(nbPCs),
       PilotTraining,
       PilotIssues,
       PilotDocumentation])
  }

  function RolloutPhase(): (s: RoadmapStep)
    ensures s.phase == 3 && |s.actions| == 4
  {
    RoadmapStep(3, RolloutTitle,
      RolloutDescription,
      RolloutDuration,
      [RolloutByService,
       RolloutTraining,
       RolloutSupport,
       RolloutData])
  }

  function SupportPhase(): (s: RoadmapStep)
    ensures s.phase == 4 && |s.actions| == 4
  {
    RoadmapStep(4, SupportTitle,
      SupportDescription,
      SupportDuration,
      [SupportMonitoring,
       SupportTuning,
       SupportDocumentation,
       SupportTraining])
  }

  function GenerateRoadmap(q: QuestionnaireData): (r: seq<RoadmapStep>)
    ensures |r| == 4
    ensures forall i :: 0 <= i < |r| ==> r[i].phase == i + 1 && |r[i].actions| == 4
    ensures r[1].actions[0] == PilotAction(q.nbPCs)
  {
    [AuditPhase(), PilotPhase(q.nbPCs), RolloutPhase(), SupportPhase()]
  }

  /** Two roadmaps agree everywhere but phase 2's first action, and agree there exactly when the pilot counts agree. */
  lemma RoadmapOnlyPilotVaries(q1: QuestionnaireData, q2: QuestionnaireData)
    ensures var r1 := GenerateRoadmap(q1); var r2 := GenerateRoadmap(q2);
      && (forall i :: 0 <= i < 4 && i != 1 ==> r1[i] == r2[i])
      && r1[1].(actions := r1[1].actions[1..]) == r2[1].(actions := r2[1].actions[1..])
      && (r1 == r2 <==> PilotCount(q1.nbPCs) == PilotCount(q2.nbPCs))
  {
    var r1 := GenerateRoadmap(q1);
    var r2 := GenerateRoadmap(q2);
    if r1 == r2 {
      var a1 := NumberText.ShowInt(PilotCount(q1.nbPCs));
      var a2 := NumberText.ShowInt(PilotCount(q2.nbPCs));
      assert PilotPrefix + a1 + PilotSuffix == PilotPrefix + a2 + PilotSuffix;
      assert a1 == (PilotPrefix + a1 + PilotSuffix)[|PilotPrefix|..|PilotPrefix| + |a1|];
      assert |a1| == |a2|;
      assert a2 == (PilotPrefix + a2 + PilotSuffix)[|PilotPrefix|..|PilotPrefix| + |a2|];
      NumberText.ParseShowInt(PilotCount(q1.nbPCs));
      NumberText.ParseShowInt(PilotCount(q2.nbPCs));
    }
  }

  /** The interpolated count reads back: parsing the text after the prefix gives the pilot count. */
  lemma PilotActionReadsBack(nbPCs: int)
    requires nbPCs >= 0
    ensures var a := PilotAction(nbPCs);
      && a[..|PilotPrefix|] == PilotPrefix
      && NumberText.ParseIntOrZero(a[|PilotPrefix|..]) == PilotCount(nbPCs)
  {
    var p := PilotCount(nbPCs);
    var tail := NumberText.ShowNat(p) + PilotSuffix;
    assert NumberText.ShowInt(p) == NumberText.ShowNat(p);
    assert PilotAction(nbPCs) == PilotPrefix + tail;
    assert PilotSuffix[0] == ' ';
    NumberText.ParseShowNat(p, PilotSuffix);
  }

  /** Ten PCs pilot on one machine; a thousand are capped at five. */
  lemma PilotExamples()
    ensures PilotCount(10) == 1
    ensures PilotCount(1000) == 5
  {
  }

  // ---------------------------------------------------------------------------
  // The whole report
  // ---------------------------------------------------------------------------

  function CalculateImpact(q: QuestionnaireData): (r: Results)
    ensures r.economiesFinancieres.currentTotalCost - r.economiesFinancieres.annualSavings == LinuxMaintenanceCostAnnual
    ensures r.impactEcologique.totalCO2Saved == 10 * r.impactEcologique.totalWasteSaved
    ensures r.autonomie == AutonomyRecord()
    ensures |r.roadmap| == 4
  {
    Results(EconomicImpactOf(q), EcologicalImpactOf(q), AutonomyRecord(), GenerateRoadmap(q))
  }

  /**
   * What each part reads: the economic part only the fleet size and the two
   * licence flags, the ecological part only the fleet size and the age, the
   * roadmap only the fleet size.
   */
  lemma PartsReadOnlyTheirInputs(q1: QuestionnaireData, q2: QuestionnaireData)
    ensures q1.nbPCs == q2.nbPCs && q1.hasWindows == q2.hasWindows && q1.hasOffice == q2.hasOffice
      ==> CalculateImpact(q1).economiesFinancieres == CalculateImpact(q2).economiesFinancieres
    ensures q1.nbPCs == q2.nbPCs && q1.pcAge == q2.pcAge
      ==> CalculateImpact(q1).impactEcologique == CalculateImpact(q2).impactEcologique
    ensures q1.nbPCs == q2.nbPCs ==> CalculateImpact(q1).roadmap == CalculateImpact(q2).roadmap
    ensures CalculateImpact(q1).autonomie == CalculateImpact(q2).autonomie
  {
  }

  /** The current maintenance cost is collected but never read: two answers that differ only there give the same report. */
  lemma MaintenanceCostUnused(q: QuestionnaireData, maintenance: int)
    ensures CalculateImpact(q.(currentMaintenanceCost := maintenance)) == CalculateImpact(q)
  {
    var q' := q.(currentMaintenanceCost := maintenance);
    assert EconomicImpactOf(q') == EconomicImpactOf(q);
    assert EcologicalImpactOf(q') == EcologicalImpactOf(q);
    assert GenerateRoadmap(q') == GenerateRoadmap(q);
  }

  /**
   * Toggling the Windows flag changes only the Windows cost and the totals
   * built on it (by 150 and 165 per PC a year); the ecological part, the
   * autonomy record and the roadmap stay as they were.
   */
  lemma WindowsToggleScope(q: QuestionnaireData)
    ensures var a := CalculateImpact(q.(hasWindows := false));
      var b := CalculateImpact(q.(hasWindows := true));
      && b.impactEcologique == a.impactEcologique
      && b.autonomie == a.autonomie
      && b.roadmap == a.roadmap
      && b.economiesFinancieres.officeCost == a.economiesFinancieres.officeCost
      && b.economiesFinancieres.windowsCost - a.economiesFinancieres.windowsCost == 150 * q.nbPCs
      && b.economiesFinancieres.annualSavings - a.economiesFinancieres.annualSavings == 165 * q.nbPCs
      && b.economiesFinancieres.fiveYearSavings - a.economiesFinancieres.fiveYearSavings == 825 * q.nbPCs
  {
    SavingsClosedForm(q.(hasWindows := false));
    SavingsClosedForm(q.(hasWindows := true));
  }

  /** An empty fleet costs nothing and saves no PC. */
  lemma ZeroFleet(q: QuestionnaireData)
    requires q.nbPCs == 0
    ensures var r := CalculateImpact(q);
      && r.economiesFinancieres.windowsCost == 0 && r.economiesFinancieres.officeCost == 0
      && r.economiesFinancieres.currentTotalCost == 0
      && PcsToReplace(q.nbPCs, q.pcAge) == 0 && r.impactEcologique.totalCO2Saved == 0
  {
  }
}
