/**
 * Story mode ("histoire"): an intro, five scenes each asking one figure with a
 * slider, then a five-step epilogue whose dialogue reacts to the figures, and
 * finally the results page fed with the same answers the questionnaire
 * gathers.
 */
module Story {
  import opened Num
  import Calculations

  /** The figures the five scenes gather, licences counted rather than yes/no. */
  datatype StoryData = StoryData(
    nbPCs: int,
    windowsLicenses: int,
    officeLicenses: int,
    pcAge: int,
    maintenanceCost: int)

  /** A range slider: the positions it can take, and where it starts when its scene opens. */
  datatype Slider = Slider(min: int, max: int, step: int, default: int)

  const SceneCount: int := 5
  const EpilogueCount: int := 5

  /** The slider of each scene, in scene order. */
  function SceneSlider(i: int): (sl: Slider)
    requires 0 <= i < SceneCount
    ensures sl.step > 0 && sl.min <= sl.default <= sl.max
  {
    match i
    case 0 => Slider(10, 500, 10, 50)
    case 1 => Slider(0, 500, 10, 50)
    case 2 => Slider(0, 500, 10, 50)
    case 3 => Slider(1, 10, 1, 3)
    case _ => Slider(1000, 50000, 1000, 5000)
  }

  /** The values a slider can deliver. */
  predicate Allowed(sl: Slider, v: int) {
    sl.step > 0 && sl.min <= v <= sl.max && (v - sl.min) % sl.step == 0
  }

  /** Field `i` of the story data: the figure scene `i` sets. */
  function Field(d: StoryData, i: int): int
    requires 0 <= i < SceneCount
  {
    match i
    case 0 => d.nbPCs
    case 1 => d.windowsLicenses
    case 2 => d.officeLicenses
    case 3 => d.pcAge
    case _ => d.maintenanceCost
  }

  /** The partial update a scene hands back, merged over the data gathered so far. */
  function WithField(d: StoryData, i: int, v: int): (r: StoryData)
    requires 0 <= i < SceneCount
    ensures Field(r, i) == v
    ensures forall j :: 0 <= j < SceneCount && j != i ==> Field(r, j) == Field(d, j)
  {
    match i
    case 0 => d.(nbPCs := v)
    case 1 => d.(windowsLicenses := v)
    case 2 => d.(officeLicenses := v)
    case 3 => d.(pcAge := v)
    case _ => d.(maintenanceCost := v)
  }

  datatype Phase =
    | Intro
    | InScene(index: int, slider: int)
    | Epilogue(step: int)

  datatype StoryState = StoryState(phase: Phase, data: StoryData)

  datatype Event =
    | IntroComplete
    | Slide(value: int)
    | SubmitScene
    | EpilogueNext
    | EpilogueSkip

  datatype Outcome =
    | Playing(state: StoryState)
    | ToResults(answers: Calculations.QuestionnaireData)

  function Initial(): StoryState {
    StoryState(Intro, StoryData(0, 0, 0, 0, 0))
  }

  /** The questionnaire answers the results page receives: a licence count above 0 means "yes". */
  function ToCalculatorInput(d: StoryData): (q: Calculations.QuestionnaireData)
    ensures q.nbPCs == d.nbPCs && q.pcAge == d.pcAge && q.currentMaintenanceCost == d.maintenanceCost
    ensures q.hasWindows <==> d.windowsLicenses > 0
    ensures q.hasOffice <==> d.officeLicenses > 0
  {
    Calculations.QuestionnaireData(d.nbPCs, d.officeLicenses > 0, d.windowsLicenses > 0, d.pcAge, d.maintenanceCost)
  }

  /** How many scenes have handed back their figure. */
  function Completed(p: Phase): int {
    match p
    case Intro => 0
    case InScene(i, _) => i
    case Epilogue(_) => SceneCount
  }

  /** A field is a slider position once its scene is done, and still 0 before. */
  predicate FieldOk(s: StoryState, i: int)
    requires 0 <= i < SceneCount
  {
    if i < Completed(s.phase) then Allowed(SceneSlider(i), Field(s.data, i)) else Field(s.data, i) == 0
  }

  predicate Valid(s: StoryState) {
    && (match s.phase
        case Intro => true
        case InScene(i, v) => 0 <= i < SceneCount && Allowed(SceneSlider(i), v)
        case Epilogue(k) => 0 <= k < EpilogueCount)
    && FieldOk(s, 0) && FieldOk(s, 1) && FieldOk(s, 2) && FieldOk(s, 3) && FieldOk(s, 4)
  }

  /** Figures every scene has set. */
  predicate Gathered(d: StoryData) {
    forall i :: 0 <= i < SceneCount ==> Allowed(SceneSlider(i), Field(d, i))
  }

  /** Scene `i` hands back `v`: the figure is merged in and the next scene, or the epilogue, opens. */
  function AfterSubmit(s: StoryState, i: int, v: int): (t: StoryState)
    requires 0 <= i < SceneCount
    ensures Completed(t.phase) == i + 1
    ensures Valid(s) && s.phase == InScene(i, v) ==> Valid(t)
  {
    var d := WithField(s.data, i, v);
    var t := if i < SceneCount - 1 then StoryState(InScene(i + 1, SceneSlider(i + 1).default), d)
             else StoryState(Epilogue(0), d);
    if Valid(s) && s.phase == InScene(i, v) then
      SubmitKeepsFields(s, i, v, t);
      t
    else
      t
  }

  lemma SubmitKeepsFields(s: StoryState, i: int, v: int, t: StoryState)
    requires 0 <= i < SceneCount && Valid(s) && s.phase == InScene(i, v)
    requires t.data == WithField(s.data, i, v) && Completed(t.phase) == i + 1
    ensures forall j :: 0 <= j < SceneCount ==> FieldOk(t, j)
  {
    forall j | 0 <= j < SceneCount
      ensures FieldOk(t, j)
    {
      assert FieldOk(s, j) by {
        if j == 0 {} else if j == 1 {} else if j == 2 {} else if j == 3 {} else {}
      }
      if j != i {
        assert Field(t.data, j) == Field(s.data, j);
      }
    }
  }

  /**
   * One user action. A newly opened scene shows its slider at the default;
   * the skip button of the epilogue goes to the results from any step.
   */
  function Step(s: StoryState, e: Event): (r: Outcome)
    ensures Valid(s) && r.Playing? ==> Valid(r.state)
    ensures Valid(s) && r.ToResults? ==> s.phase.Epilogue? && Gathered(s.data)
    ensures r.ToResults? ==> r.answers == ToCalculatorInput(s.data)
  {
    match s.phase
    case Intro =>
      if e.IntroComplete? then Playing(OpenFirstScene(s)) else Playing(s)
    case InScene(i, v) => Playing(SceneStep(s, i, v, e))
    case Epilogue(k) => EpilogueStep(s, k, e)
  }

  /** The intro ends: the first scene opens with its slider at the default. */
  function OpenFirstScene(s: StoryState): (t: StoryState)
    ensures t.data == s.data && t.phase == InScene(0, SceneSlider(0).default)
    ensures Valid(s) && s.phase.Intro? ==> Valid(t)
  {
    s.(phase := InScene(0, SceneSlider(0).default))
  }

  /** An action inside scene `i` showing `v`: the slider moves to an allowed position, or the scene is submitted. */
  function SceneStep(s: StoryState, i: int, v: int, e: Event): (t: StoryState)
    ensures Valid(s) && s.phase == InScene(i, v) ==> Valid(t)
    ensures e.Slide? && 0 <= i < SceneCount && Allowed(SceneSlider(i), e.value) ==> t == s.(phase := InScene(i, e.value))
  {
    if !(0 <= i < SceneCount) then s
    else if e.Slide? then
      if Allowed(SceneSlider(i), e.value) then s.(phase := InScene(i, e.value)) else s
    else if e.SubmitScene? then AfterSubmit(s, i, v)
    else s
  }

  /** An action at epilogue step `k`: "next" moves on, and past the last step, or on "skip", the results open. */
  function EpilogueStep(s: StoryState, k: int, e: Event): (r: Outcome)
    ensures Valid(s) && s.phase == Epilogue(k) && r.Playing? ==> Valid(r.state)
    ensures Valid(s) && s.phase == Epilogue(k) && r.ToResults? ==> Gathered(s.data)
    ensures r.ToResults? ==> r.answers == ToCalculatorInput(s.data) && (e.EpilogueNext? || e.EpilogueSkip?)
  {
    if e.EpilogueNext? && k < EpilogueCount - 1 then Playing(s.(phase := Epilogue(k + 1)))
    else if e.EpilogueNext? || e.EpilogueSkip? then
      if Valid(s) && s.phase == Epilogue(k) then
        EpilogueGathered(s);
        ToResults(ToCalculatorInput(s.data))
      else
        ToResults(ToCalculatorInput(s.data))
    else Playing(s)
  }

  /** In the epilogue every scene has handed back its figure. */
  lemma EpilogueGathered(s: StoryState)
    requires Valid(s) && s.phase.Epilogue?
    ensures Gathered(s.data)
  {
    forall i | 0 <= i < SceneCount
      ensures Allowed(SceneSlider(i), Field(s.data, i))
    {
      assert FieldOk(s, i) by {
        if i == 0 {} else if i == 1 {} else if i == 2 {} else if i == 3 {} else {}
      }
    }
  }

  function Run(s: StoryState, events: seq<Event>): (r: Outcome)
    ensures Valid(s) && r.Playing? ==> Valid(r.state)
    ensures Valid(s) && r.ToResults? ==> exists d :: Gathered(d) && r.answers == ToCalculatorInput(d)
    decreases |events|
  {
    if |events| == 0 then Playing(s)
    else
      match Step(s, events[0])
      case Playing(t) => Run(t, events[1..])
      case other => other
  }

  /** The progress shown above a scene: `Math.round((i + 1) / 5 * 100)` percent. */
  function ProgressPercent(i: int): (p: int)
    requires 0 <= i < SceneCount
  {
    RoundDiv(100 * (i + 1), SceneCount)
  }

  /** The savings the epilogue announces: licence prices times counts, less the Linux maintenance. */
  function ApproximateSavings(d: StoryData): int {
    d.windowsLicenses * Calculations.WindowsCostPerPc
    + d.officeLicenses * Calculations.OfficeCostPerPcAnnual
    - Calculations.LinuxMaintenanceCostAnnual
  }

  /** Savings shown in thousands: `Math.round(savings / 1000)`. */
  function SavingsInThousands(d: StoryData): (k: int)
    ensures 1000 * (2 * k - 1) <= 2 * ApproximateSavings(d) < 1000 * (2 * k + 1)
  {
    RoundDiv(ApproximateSavings(d), 1000)
  }

  datatype EasterEgg = BigSchool | BigSavings | Survivors | NoEgg

  /** The epilogue's easter egg: the first condition that holds, in this order. */
  function EasterEggOf(d: StoryData): (egg: EasterEgg)
    ensures egg == BigSchool <==> d.nbPCs > 200
    ensures egg == BigSavings <==> d.nbPCs <= 200 && ApproximateSavings(d) > 20000
    ensures egg == Survivors <==> d.nbPCs <= 200 && ApproximateSavings(d) <= 20000 && d.pcAge > 6
  {
    if d.nbPCs > 200 then BigSchool
    else if ApproximateSavings(d) > 20000 then BigSavings
    else if d.pcAge > 6 then Survivors
    else NoEgg
  }

  /** The accountant's line quotes the amount when an egg shows and the savings pass 20000. */
  predicate EconomicDialogueQuotesAmount(d: StoryData) {
    EasterEggOf(d) != NoEgg && ApproximateSavings(d) > 20000
  }

  /** The number of PCs the pupil says were saved. */
  function SavedPcsClaim(d: StoryData): (n: int)
    ensures d.pcAge > 6 ==> n == d.nbPCs
    ensures d.pcAge <= 6 ==> n <= 30 && n <= d.nbPCs && (n == 30 || n == d.nbPCs)
  {
    if d.pcAge > 6 then d.nbPCs else Min(d.nbPCs, 30)
  }

  /** The verdict scene 4 shows under the age slider. */
  datatype AgeMessage = BrandNew | StillGood | Ageing | Dinosaurs

  function AgeMessageOf(age: int): AgeMessage {
    if age <= 2 then BrandNew else if age <= 4 then StillGood else if age <= 6 then Ageing else Dinosaurs
  }

  function AgeRank(m: AgeMessage): int {
    match m
    case BrandNew => 0
    case StillGood => 1
    case Ageing => 2
    case Dinosaurs => 3
  }

  /** Scene 4 promises a longer life with Linux from five years on. */
  predicate ProlongHint(age: int) {
    age >= 5
  }

  lemma InitialValid()
    ensures Valid(Initial())
  {
  }

  lemma RunStepAt(s: StoryState, es: seq<Event>, k: int, t: StoryState)
    requires 0 <= k < |es| && Step(s, es[k]) == Playing(t)
    ensures Run(s, es[k..]) == Run(t, es[k + 1..])
  {
    assert es[k..][1..] == es[k + 1..];
  }

  /** Slide then submit on scene `i`: the scene's figure is stored and the next scene (or the epilogue) opens. */
  lemma SceneAnswered(s: StoryState, es: seq<Event>, k: int, i: int, v: int)
    requires 0 <= i < SceneCount && Allowed(SceneSlider(i), v)
    requires s.phase.InScene? && s.phase.index == i
    requires 0 <= k && k + 1 < |es| && es[k] == Slide(v) && es[k + 1] == SubmitScene
    ensures var d := WithField(s.data, i, v);
      var next := if i < SceneCount - 1 then InScene(i + 1, SceneSlider(i + 1).default) else Epilogue(0);
      Run(s, es[k..]) == Run(StoryState(next, d), es[k + 2..])
  {
    var t := s.(phase := InScene(i, v));
    RunStepAt(s, es, k, t);
    var d := WithField(s.data, i, v);
    var next := if i < SceneCount - 1 then InScene(i + 1, SceneSlider(i + 1).default) else Epilogue(0);
    RunStepAt(t, es, k + 1, StoryState(next, d));
  }

  /** The actions that play the story through with figures `d`: slide and submit five times, then read the epilogue. */
  function StoryScript(d: StoryData): seq<Event> {
    [IntroComplete,
     Slide(d.nbPCs), SubmitScene,
     Slide(d.windowsLicenses), SubmitScene,
     Slide(d.officeLicenses), SubmitScene,
     Slide(d.pcAge), SubmitScene,
     Slide(d.maintenanceCost), SubmitScene,
     EpilogueNext, EpilogueNext, EpilogueNext, EpilogueNext, EpilogueNext]
  }

  /** The epilogue read through to the end hands its data to the results page. */
  lemma EpilogueToEnd(s: StoryState, es: seq<Event>, k: int)
    requires s.phase == Epilogue(0)
    requires 0 <= k <= |es| && es[k..] == [EpilogueNext, EpilogueNext, EpilogueNext, EpilogueNext, EpilogueNext]
    ensures Run(s, es[k..]) == ToResults(ToCalculatorInput(s.data))
  {
    RunStepAt(s, es, k, s.(phase := Epilogue(1)));
    RunStepAt(s.(phase := Epilogue(1)), es, k + 1, s.(phase := Epilogue(2)));
    RunStepAt(s.(phase := Epilogue(2)), es, k + 2, s.(phase := Epilogue(3)));
    RunStepAt(s.(phase := Epilogue(3)), es, k + 3, s.(phase := Epilogue(4)));
    assert es[k + 4] == EpilogueNext;
    assert es[k + 4..][0] == es[k + 4];
  }

  /** Scenes 1 to 3 of the script. */
  lemma ScriptFirstScenes(d: StoryData, es: seq<Event>)
    requires Gathered(d) && es == StoryScript(d)
    ensures Run(StoryState(InScene(0, 50), StoryData(0, 0, 0, 0, 0)), es[1..])
      == Run(StoryState(InScene(3, 3), StoryData(d.nbPCs, d.windowsLicenses, d.officeLicenses, 0, 0)), es[7..])
  {
    var z := StoryData(0, 0, 0, 0, 0);
    var d1 := z.(nbPCs := d.nbPCs);
    var d2 := d1.(windowsLicenses := d.windowsLicenses);
    assert Allowed(SceneSlider(0), Field(d, 0));
    assert Allowed(SceneSlider(1), Field(d, 1));
    assert Allowed(SceneSlider(2), Field(d, 2));
    SceneAnswered(StoryState(InScene(0, 50), z), es, 1, 0, d.nbPCs);
    SceneAnswered(StoryState(InScene(1, 50), d1), es, 3, 1, d.windowsLicenses);
    SceneAnswered(StoryState(InScene(2, 50), d2), es, 5, 2, d.officeLicenses);
  }

  /** Scenes 4 and 5 of the script. */
  lemma ScriptLastScenes(d: StoryData, es: seq<Event>)
    requires Gathered(d) && es == StoryScript(d)
    ensures Run(StoryState(InScene(3, 3), StoryData(d.nbPCs, d.windowsLicenses, d.officeLicenses, 0, 0)), es[7..])
      == Run(StoryState(Epilogue(0), d), es[11..])
  {
    var d3 := StoryData(d.nbPCs, d.windowsLicenses, d.officeLicenses, 0, 0);
    var d4 := d3.(pcAge := d.pcAge);
    assert Allowed(SceneSlider(3), Field(d, 3));
    assert Allowed(SceneSlider(4), Field(d, 4));
    SceneAnswered(StoryState(InScene(3, 3), d3), es, 7, 3, d.pcAge);
    SceneAnswered(StoryState(InScene(4, 5000), d4), es, 9, 4, d.maintenanceCost);
    assert d4.(maintenanceCost := d.maintenanceCost) == d;
  }

  /** Every figure set the sliders allow can be played through to the results, unchanged. */
  lemma ScriptReachesResults(d: StoryData)
    requires Gathered(d)
    ensures Run(Initial(), StoryScript(d)) == ToResults(ToCalculatorInput(d))
  {
    var es := StoryScript(d);
    RunStepAt(Initial(), es, 0, StoryState(InScene(0, 50), StoryData(0, 0, 0, 0, 0)));
    assert es[0..] == es;
    ScriptFirstScenes(d, es);
    ScriptLastScenes(d, es);
    assert es[11..] == [EpilogueNext, EpilogueNext, EpilogueNext, EpilogueNext, EpilogueNext];
    EpilogueToEnd(StoryState(Epilogue(0), d), es, 11);
  }

  /** The percentage above scene `i` is exactly 20 per scene reached. */
  lemma ProgressIsTwentyPerScene(i: int)
    requires 0 <= i < SceneCount
    ensures ProgressPercent(i) == 20 * (i + 1)
  {
  }

  /**
   * Only whether a licence count is positive reaches the calculator: two plays
   * that differ only in non-zero licence counts get the same results.
   */
  lemma LicenceCountsIrrelevant(d1: StoryData, d2: StoryData)
    requires d1.nbPCs == d2.nbPCs && d1.pcAge == d2.pcAge && d1.maintenanceCost == d2.maintenanceCost
    requires (d1.windowsLicenses > 0) == (d2.windowsLicenses > 0)
    requires (d1.officeLicenses > 0) == (d2.officeLicenses > 0)
    ensures Calculations.CalculateImpact(ToCalculatorInput(d1)) == Calculations.CalculateImpact(ToCalculatorInput(d2))
  {
    assert ToCalculatorInput(d1) == ToCalculatorInput(d2);
  }

  /**
   * When every PC carries both licences the epilogue's figure falls short of
   * the calculator's annual savings by exactly the 10 % support, 25 per PC.
   */
  lemma ApproximationOmitsSupport(d: StoryData)
    requires d.nbPCs >= 1 && d.windowsLicenses == d.nbPCs && d.officeLicenses == d.nbPCs
    ensures Calculations.CalculateImpact(ToCalculatorInput(d)).economiesFinancieres.annualSavings
      - ApproximateSavings(d) == 25 * d.nbPCs
  {
    Calculations.SavingsClosedForm(ToCalculatorInput(d));
  }

  /** An easter egg shows exactly when one of its three conditions holds. */
  lemma EggShownIff(d: StoryData)
    ensures EasterEggOf(d) != NoEgg <==> d.nbPCs > 200 || ApproximateSavings(d) > 20000 || d.pcAge > 6
  {
  }

  /** The amount is quoted exactly when the savings pass 20000: the egg test adds nothing. */
  lemma EconomicDialogueIff(d: StoryData)
    ensures EconomicDialogueQuotesAmount(d) <==> ApproximateSavings(d) > 20000
    ensures EconomicDialogueQuotesAmount(d) ==> SavingsInThousands(d) >= 20
  {
  }

  /** The age verdicts cover every age, one each, and never fall as the age grows. */
  lemma AgeMessageMonotone(a1: int, a2: int)
    requires a1 <= a2
    ensures AgeRank(AgeMessageOf(a1)) <= AgeRank(AgeMessageOf(a2))
  {
  }

  /**
   * The scene's "longer life" hint agrees with the calculator: from five
   * years on every PC counts as saved, below it fewer than all do.
   */
  lemma ProlongHintMatchesCalculator(nbPCs: int, age: int)
    requires nbPCs >= 1
    ensures ProlongHint(age) <==> Calculations.PcsToReplace(nbPCs, age) == nbPCs
  {
  }

  /**
   * The pupil's count agrees with the calculator for PCs older than six years;
   * at five or six years on a fleet above 30 it says 30 where the calculator
   * counts every PC.
   */
  lemma SavedClaimVersusCalculator(d: StoryData)
    requires d.nbPCs >= 1
    ensures d.pcAge > 6 ==> SavedPcsClaim(d) == Calculations.PcsToReplace(d.nbPCs, d.pcAge)
    ensures 5 <= d.pcAge <= 6 && d.nbPCs > 30 ==>
      SavedPcsClaim(d) == 30 < Calculations.PcsToReplace(d.nbPCs, d.pcAge)
  {
  }
}
