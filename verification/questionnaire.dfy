/**
 * The five-question questionnaire page: one question at a time, "Suivant"
 * enabled only once the current question is answered, "Retour" going back a
 * question or, from the first one, home. Submitting on the fifth question
 * hands the answers to the results page.
 */
module Questionnaire {
  import NumberText
  import Calculations

  type QuestionnaireData = Calculations.QuestionnaireData

  const TotalQuestions: int := 5

  /** The values the four age buttons of question 4 set. */
  const AgeOptions: seq<int> := [2, 3, 5, 7]

  /**
   * The page's user actions. The two number inputs deliver their raw text;
   * the buttons deliver the value they set.
   */
  datatype Event =
    | Next
    | Previous
    | TypeNbPCs(text: string)
    | ChooseWindows(windows: bool)
    | ChooseOffice(office: bool)
    | ChoosePcAge(age: int)
    | TypeMaintenance(text: string)

  datatype QState = QState(current: int, answers: QuestionnaireData)

  /** Where a user action leaves the page. */
  datatype Outcome =
    | Asking(state: QState)
    | Submitted(data: QuestionnaireData)
    | LeftToHome

  /** Question 1, with every answer at its default. */
  function Initial(): QState {
    QState(1, Calculations.QuestionnaireData(0, false, false, 0, 0))
  }

  /** Whether "Suivant" is enabled on the current question. */
  predicate IsAnswered(s: QState) {
    match s.current
    case 1 => s.answers.nbPCs > 0
    case 2 => true
    case 3 => true
    case 4 => s.answers.pcAge >= 0
    case 5 => s.answers.currentMaintenanceCost >= 0
    case _ => false
  }

  /** Age as stored: never touched (0) or one of the four button values. */
  predicate KnownAge(age: int) {
    age == 0 || age in AgeOptions
  }

  /** The state the page can be in. */
  predicate Valid(s: QState) {
    && 1 <= s.current <= TotalQuestions
    && (s.current >= 2 ==> s.answers.nbPCs > 0)
    && KnownAge(s.answers.pcAge)
  }

  /** The answers the page can hand to the results page. */
  predicate Submittable(d: QuestionnaireData) {
    && d.nbPCs >= 1
    && d.currentMaintenanceCost >= 0
    && KnownAge(d.pcAge)
  }

  /**
   * One user action. Inputs only exist on their own question, so an input
   * for another question changes nothing; a disabled "Suivant" does nothing.
   */
  function Step(s: QState, e: Event): (r: Outcome)
    ensures Valid(s) && r.Asking? ==> Valid(r.state)
    ensures Valid(s) && r.Submitted? ==> Submittable(r.data) && r.data == s.answers
    ensures r.Submitted? <==> e.Next? && s.current == TotalQuestions && IsAnswered(s)
    ensures r.LeftToHome? <==> e.Previous? && s.current <= 1
    ensures !e.Next? && !e.Previous? ==> r.Asking? && r.state.current == s.current
  {
    match e
    case Next =>
      if !IsAnswered(s) then Asking(s)
      else if s.current < TotalQuestions then Asking(s.(current := s.current + 1))
      else Submitted(s.answers)
    case Previous =>
      if s.current > 1 then Asking(s.(current := s.current - 1)) else LeftToHome
    case TypeNbPCs(text) =>
      if s.current == 1 then Asking(s.(answers := s.answers.(nbPCs := NumberText.ParseIntOrZero(text))))
      else Asking(s)
    case ChooseWindows(b) =>
      if s.current == 2 then Asking(s.(answers := s.answers.(hasWindows := b))) else Asking(s)
    case ChooseOffice(b) =>
      if s.current == 3 then Asking(s.(answers := s.answers.(hasOffice := b))) else Asking(s)
    case ChoosePcAge(age) =>
      if s.current == 4 && age in AgeOptions then Asking(s.(answers := s.answers.(pcAge := age)))
      else Asking(s)
    case TypeMaintenance(text) =>
      if s.current == 5 then
        Asking(s.(answers := s.answers.(currentMaintenanceCost := NumberText.ParseIntOrZero(text))))
      else Asking(s)
  }

  /** A sequence of actions; once the page has navigated away, later actions are not seen. */
  function Run(s: QState, events: seq<Event>): (r: Outcome)
    ensures Valid(s) && r.Asking? ==> Valid(r.state)
    ensures Valid(s) && r.Submitted? ==> Submittable(r.data)
    decreases |events|
  {
    if |events| == 0 then Asking(s)
    else
      match Step(s, events[0])
      case Asking(t) => Run(t, events[1..])
      case other => other
  }

  /** Question 1 of a script: type `nbText` as the fleet size, then "Suivant". */
  function FleetPart(nbText: string): seq<Event> {
    [TypeNbPCs(nbText), Next]
  }

  /** Questions 2 and 3: pick both licences, "Suivant" after each. */
  function LicencePart(d: QuestionnaireData): seq<Event> {
    [ChooseWindows(d.hasWindows), Next, ChooseOffice(d.hasOffice), Next]
  }

  /** The age button, left untouched when the age to submit is the default 0. */
  function AgePart(d: QuestionnaireData): seq<Event> {
    if d.pcAge == 0 then [] else [ChoosePcAge(d.pcAge)]
  }

  /** "Suivant" past question 4, then `costText` typed as the maintenance cost and submitted. */
  function LastPart(costText: string): seq<Event> {
    [Next, TypeMaintenance(costText), Next]
  }

  /** The actions a user performs to submit `d`: type, click, "Suivant", five times. */
  function AnswerScript(d: QuestionnaireData): seq<Event> {
    FleetPart(NumberText.ShowInt(d.nbPCs)) + LicencePart(d) + AgePart(d)
      + LastPart(NumberText.ShowInt(d.currentMaintenanceCost))
  }

  lemma InitialValid()
    ensures Valid(Initial())
    ensures !IsAnswered(Initial())
  {
  }

  lemma {:induction false} RunAppend(s: QState, a: seq<Event>, b: seq<Event>)
    ensures Run(s, a + b) == if Run(s, a).Asking? then Run(Run(s, a).state, b) else Run(s, a)
    decreases |a|
  {
    if |a| == 0 {
      assert a + b == b;
    } else {
      assert (a + b)[0] == a[0];
      assert (a + b)[1..] == a[1..] + b;
      match Step(s, a[0])
      case Asking(t) => RunAppend(t, a[1..], b);
      case _ =>
    }
  }

  /** Running from position `k` of a script: one step, then the rest. */
  lemma RunStepAt(s: QState, es: seq<Event>, k: int, t: QState)
    requires 0 <= k < |es| && Step(s, es[k]) == Asking(t)
    ensures Run(s, es[k..]) == Run(t, es[k + 1..])
  {
    assert es[k..][1..] == es[k + 1..];
  }

  /** The first question of a script, from the initial state. */
  lemma ScriptFleetPart(d: QuestionnaireData, nbText: string)
    requires d.nbPCs >= 1 && NumberText.ParseIntOrZero(nbText) == d.nbPCs
    ensures Run(Initial(), FleetPart(nbText))
      == Asking(QState(2, d.(hasWindows := false, hasOffice := false, pcAge := 0, currentMaintenanceCost := 0)))
  {
    var es := FleetPart(nbText);
    var a := d.(hasWindows := false, hasOffice := false, pcAge := 0, currentMaintenanceCost := 0);
    assert es[0] == TypeNbPCs(nbText) && es[1] == Next;
    assert Step(Initial(), TypeNbPCs(nbText)) == Asking(QState(1, a));
    assert Step(QState(1, a), Next) == Asking(QState(2, a));
    RunStepAt(Initial(), es, 0, QState(1, a));
    RunStepAt(QState(1, a), es, 1, QState(2, a));
    assert es[0..] == es;
  }

  /** Questions 2 and 3 of the script store both licence answers. */
  lemma ScriptLicencePart(d: QuestionnaireData)
    requires d.nbPCs >= 1
    ensures Run(QState(2, d.(hasWindows := false, hasOffice := false, pcAge := 0, currentMaintenanceCost := 0)), LicencePart(d))
      == Asking(QState(4, d.(pcAge := 0, currentMaintenanceCost := 0)))
  {
    var es := LicencePart(d);
    var a := d.(hasWindows := false, hasOffice := false, pcAge := 0, currentMaintenanceCost := 0);
    var b := a.(hasWindows := d.hasWindows);
    var c := b.(hasOffice := d.hasOffice);
    assert es[0] == ChooseWindows(d.hasWindows) && es[1] == Next && es[2] == ChooseOffice(d.hasOffice) && es[3] == Next;
    RunStepAt(QState(2, a), es, 0, QState(2, b));
    RunStepAt(QState(2, b), es, 1, QState(3, b));
    RunStepAt(QState(3, b), es, 2, QState(3, c));
    RunStepAt(QState(3, c), es, 3, QState(4, c));
    assert es[0..] == es;
    assert c == d.(pcAge := 0, currentMaintenanceCost := 0);
  }

  /** The age button, when there is one, stores the age to submit. */
  lemma ScriptAgePart(d: QuestionnaireData)
    requires Submittable(d)
    ensures Run(QState(4, d.(pcAge := 0, currentMaintenanceCost := 0)), AgePart(d))
      == Asking(QState(4, d.(currentMaintenanceCost := 0)))
  {
    if d.pcAge != 0 {
      assert AgePart(d)[1..] == [];
    }
  }

  /** The end of a script, from question 4 with the age already chosen. */
  lemma ScriptLastPart(d: QuestionnaireData, costText: string)
    requires Submittable(d) && NumberText.ParseIntOrZero(costText) == d.currentMaintenanceCost
    ensures Run(QState(4, d.(currentMaintenanceCost := 0)), LastPart(costText)) == Submitted(d)
  {
    var es := LastPart(costText);
    var s4 := QState(4, d.(currentMaintenanceCost := 0));
    var s5 := QState(5, d.(currentMaintenanceCost := 0));
    assert es[0] == Next && es[1] == TypeMaintenance(costText) && es[2] == Next;
    assert Step(s4, Next) == Asking(s5);
    assert Step(s5, TypeMaintenance(costText)) == Asking(QState(5, d));
    assert Step(QState(5, d), Next) == Submitted(d);
    RunStepAt(s4, es, 0, s5);
    RunStepAt(s5, es, 1, QState(5, d));
    assert es[0..] == es;
  }

  /**
   * Every submittable answer set can be submitted: the page accepts exactly
   * the answers `Submittable` describes.
   */
  lemma ScriptSubmits(d: QuestionnaireData)
    requires Submittable(d)
    ensures Run(Initial(), AnswerScript(d)) == Submitted(d)
  {
    var nbText := NumberText.ShowInt(d.nbPCs);
    var costText := NumberText.ShowInt(d.currentMaintenanceCost);
    NumberText.ParseShowInt(d.nbPCs);
    NumberText.ParseShowInt(d.currentMaintenanceCost);
    var s2 := QState(2, d.(hasWindows := false, hasOffice := false, pcAge := 0, currentMaintenanceCost := 0));
    ScriptFleetPart(d, nbText);
    ScriptLicencePart(d);
    ScriptAgePart(d);
    ScriptLastPart(d, costText);
    var p1 := FleetPart(nbText);
    var p2 := p1 + LicencePart(d);
    var p3 := p2 + AgePart(d);
    RunAppend(Initial(), p1, LicencePart(d));
    RunAppend(Initial(), p2, AgePart(d));
    RunAppend(Initial(), p3, LastPart(costText));
  }

  /** Going back a question and forward again returns to the same state: answers survive navigation. */
  lemma BackThenForward(s: QState)
    requires Valid(s) && s.current >= 2
    ensures Step(s, Previous).Asking?
    ensures Step(Step(s, Previous).state, Next) == Asking(s)
  {
  }

  /** The first "Suivant" needs a positive number of PCs: an empty or non-numeric entry keeps it disabled. */
  lemma FirstQuestionBlocksNonPositive(text: string)
    requires NumberText.ParseIntOrZero(text) <= 0
    ensures Step(Initial(), TypeNbPCs(text)) == Asking(QState(1, Initial().answers.(nbPCs := NumberText.ParseIntOrZero(text))))
    ensures Step(Step(Initial(), TypeNbPCs(text)).state, Next) == Step(Initial(), TypeNbPCs(text))
  {
  }
}
