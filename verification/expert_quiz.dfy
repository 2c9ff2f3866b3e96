/**
 * The twenty-question expert quiz: one answer per question, locked once
 * chosen; three single-use jokers (50/50, ask the audience, skip); a final
 * percentage and a certificate tier. The random picks of the 50/50 and the
 * audience's votes arrive as event parameters.
 */
module ExpertQuiz {
  import opened Wrappers
  import opened Num

  const QuestionCount: nat := 20
  const AnswerCount: nat := 4

  /** The index of the right answer of each question, in bank order. */
  const CorrectAnswers: seq<int> := [3, 2, 1, 1, 1, 0, 2, 1, 2, 2, 1, 2, 1, 1, 1, 1, 2, 1, 2, 1]

  datatype Joker = FiftyFifty | Audience | Skip

  datatype Quiz = Quiz(
    index: nat,
    selected: Option<int>,
    showExplanation: bool,
    score: nat,
    wrong: nat,
    finished: bool,
    usedJokers: set<Joker>,
    eliminated: seq<int>,
    votes: seq<int>)

  /**
   * The player's moves. `UseFiftyFifty(spared)` names, modulo 3, the wrong
   * answer the random draw leaves standing; `UseAudience(votes)` carries the
   * random percentages.
   */
  datatype Event =
    | Select(answer: int)
    | Next
    | UseFiftyFifty(spared: int)
    | UseAudience(votes: seq<int>)
    | UseSkip
    | Reset

  datatype Certificate = Master | Advanced | Confirmed | Beginner

  function Initial(): (q: Quiz)
    ensures q.index == 0 && q.selected.None? && q.score == 0 && q.wrong == 0 && !q.finished
    ensures q.usedJokers == {} && q.eliminated == [] && q.votes == []
  {
    Quiz(0, None, false, 0, 0, false, {}, [], [])
  }

  function Correct(index: nat): int
    requires index < QuestionCount
  {
    CorrectAnswers[index]
  }

  /** The wrong answers of a question, in answer order. */
  function WrongAnswers(index: nat): (w: seq<int>)
    requires index < QuestionCount
    ensures |w| == 3
    ensures forall a :: a in w <==> 0 <= a < AnswerCount && a != Correct(index)
    ensures w[0] < w[1] < w[2]
  {
    var c := Correct(index);
    if c == 0 then [1, 2, 3] else if c == 1 then [0, 2, 3] else if c == 2 then [0, 1, 3] else [0, 1, 2]
  }

  /** The two answers the 50/50 strikes out: every wrong answer but the spared one. */
  function Eliminate(index: nat, spared: int): (e: seq<int>)
    requires index < QuestionCount
    ensures |e| == 2 && e[0] != e[1]
    ensures forall a :: a in e ==> a in WrongAnswers(index)
    ensures WrongAnswers(index)[spared % 3] !in e
  {
    var w := WrongAnswers(index);
    var k := spared % 3;
    if k == 0 then [w[1], w[2]] else if k == 1 then [w[0], w[2]] else [w[0], w[1]]
  }

  function SkipsUsed(q: Quiz): nat {
    if Skip in q.usedJokers then 1 else 0
  }

  /** The questions dealt with so far: answered, or skipped. */
  function Answered(q: Quiz): nat {
    q.score + q.wrong + SkipsUsed(q)
  }

  predicate Valid(q: Quiz) {
    && q.index < QuestionCount
    && (q.selected.Some? <==> q.showExplanation)
    && (q.selected.Some? ==> 0 <= q.selected.value < AnswerCount && q.selected.value !in q.eliminated)
    && (q.eliminated == [] || (|q.eliminated| == 2 && q.eliminated[0] != q.eliminated[1]
          && q.eliminated[0] in WrongAnswers(q.index) && q.eliminated[1] in WrongAnswers(q.index)))
    && (q.finished ==> q.index == QuestionCount - 1 && Answered(q) == QuestionCount)
    && (!q.finished ==> Answered(q) == q.index + (if q.selected.Some? then 1 else 0))
  }

  /** An answer button can be pressed: the question is open and the answer not struck out. */
  predicate CanSelect(q: Quiz, answer: int) {
    && !q.finished && q.selected.None? && !q.showExplanation
    && 0 <= answer < AnswerCount && answer !in q.eliminated
  }

  /** A joker button can be pressed: not used yet, and no answer chosen. */
  predicate CanUse(q: Quiz, j: Joker) {
    !q.finished && j !in q.usedJokers && q.selected.None?
  }

  /** Choosing an answer: it is locked in and either the score or the mistakes go up by one. */
  function Choose(q: Quiz, answer: int): (r: Quiz)
    requires Valid(q) && CanSelect(q, answer)
    ensures Valid(r)
  {
    var q1 := q.(selected := Some(answer), showExplanation := true);
    if answer == Correct(q.index) then q1.(score := q.score + 1) else q1.(wrong := q.wrong + 1)
  }

  /** The next question with a clean slate, or the results after the last one. */
  function NextQuestion(q: Quiz): (r: Quiz)
    requires q.index < QuestionCount
    ensures q.index < QuestionCount - 1 ==>
      r.index == q.index + 1 && r.selected.None? && !r.showExplanation && r.eliminated == [] && r.votes == []
      && r.finished == q.finished
    ensures q.index == QuestionCount - 1 ==> r == q.(finished := true)
    ensures r.score == q.score && r.wrong == q.wrong && r.usedJokers == q.usedJokers
  {
    if q.index < QuestionCount - 1 then
      q.(index := q.index + 1, selected := None, showExplanation := false, eliminated := [], votes := [])
    else
      q.(finished := true)
  }

  /** The next button after an explanation: the next question, or the results. */
  function Advance(q: Quiz): (r: Quiz)
    requires Valid(q) && !q.finished && q.showExplanation
    ensures Valid(r) && r.score == q.score && r.wrong == q.wrong
  {
    NextQuestion(q)
  }

  /** The 50/50: two wrong answers struck out, the joker spent. */
  function StrikeOut(q: Quiz, spared: int): (r: Quiz)
    requires Valid(q) && CanUse(q, FiftyFifty)
    ensures Valid(r) && r.score == q.score && r.wrong == q.wrong
  {
    q.(eliminated := Eliminate(q.index, spared), usedJokers := q.usedJokers + {FiftyFifty})
  }

  /** Asking the audience: the votes shown, the joker spent. */
  function AskAudience(q: Quiz, votes: seq<int>): (r: Quiz)
    requires Valid(q) && CanUse(q, Audience)
    ensures Valid(r) && r.score == q.score && r.wrong == q.wrong
  {
    q.(votes := votes, usedJokers := q.usedJokers + {Audience})
  }

  /** The skip: the joker spent and the question counted as dealt with. */
  function SkipQuestion(q: Quiz): (r: Quiz)
    requires Valid(q) && CanUse(q, Skip)
    ensures Valid(r) && r.score == q.score && r.wrong == q.wrong
  {
    NextQuestion(q.(usedJokers := q.usedJokers + {Skip}))
  }

  /** The three joker buttons, each usable once and only before an answer is chosen. */
  function Joke(q: Quiz, e: Event): (r: Quiz)
    requires Valid(q) && (e.UseFiftyFifty? || e.UseAudience? || e.UseSkip?)
    ensures Valid(r) && r.score == q.score && r.wrong == q.wrong
  {
    match e
    case UseFiftyFifty(spared) => if CanUse(q, FiftyFifty) then StrikeOut(q, spared) else q
    case UseAudience(votes) => if CanUse(q, Audience) then AskAudience(q, votes) else q
    case UseSkip => if CanUse(q, Skip) then SkipQuestion(q) else q
  }

  /**
   * One event. Only the results screen has the retry button, only a shown
   * explanation has the next button, and the buttons of the question screen
   * are enabled under the handlers' own guards.
   */
  function Step(q: Quiz, e: Event): (r: Quiz)
    requires Valid(q)
    ensures Valid(r)
    ensures !e.Reset? ==> r.score >= q.score && r.wrong >= q.wrong
  {
    match e
    case Select(answer) => if CanSelect(q, answer) then Choose(q, answer) else q
    case Next => if !q.finished && q.showExplanation then Advance(q) else q
    case Reset => if q.finished then Initial() else q
    case _ => Joke(q, e)
  }

  /** `Math.round(score / 20 * 100)`. */
  function Percentage(score: nat): (p: int)
    requires score <= QuestionCount
    ensures 0 <= p <= 100
    ensures p == 5 * score
  {
    RoundDiv(100 * score, QuestionCount)
  }

  /** The tier the results screen awards for a percentage. */
  function CertificateFor(percentage: int): Certificate {
    if percentage >= 90 then Master
    else if percentage >= 75 then Advanced
    else if percentage >= 60 then Confirmed
    else Beginner
  }

  function Rank(c: Certificate): nat {
    match c
    case Beginner => 0
    case Confirmed => 1
    case Advanced => 2
    case Master => 3
  }

  /** The tiers in terms of right answers out of twenty: 18, 15 and 12. */
  lemma CertificateByScore(score: nat)
    requires score <= QuestionCount
    ensures CertificateFor(Percentage(score)) == Master <==> score >= 18
    ensures CertificateFor(Percentage(score)) == Advanced <==> 15 <= score < 18
    ensures CertificateFor(Percentage(score)) == Confirmed <==> 12 <= score < 15
    ensures CertificateFor(Percentage(score)) == Beginner <==> score < 12
  {
  }

  /** A better score never earns a lower tier. */
  lemma CertificateMonotone(a: nat, b: nat)
    requires a <= b <= QuestionCount
    ensures Rank(CertificateFor(Percentage(a))) <= Rank(CertificateFor(Percentage(b)))
  {
  }

  /** A chosen answer scores exactly one of right or wrong, right exactly when it is the bank's answer. */
  lemma SelectScores(q: Quiz, answer: int)
    requires Valid(q) && CanSelect(q, answer)
    ensures var r := Step(q, Select(answer));
      && r.selected == Some(answer) && r.showExplanation
      && r.score + r.wrong == q.score + q.wrong + 1
      && (r.score == q.score + 1 <==> answer == CorrectAnswers[q.index])
      && r.index == q.index && r.usedJokers == q.usedJokers
  {
  }

  /** Once an answer is chosen no other choice and no joker changes anything. */
  lemma AnswerLocked(q: Quiz, e: Event)
    requires Valid(q) && q.selected.Some?
    requires e.Select? || e.UseFiftyFifty? || e.UseAudience? || e.UseSkip?
    ensures Step(q, e) == q
  {
  }

  /** Each joker works once per game. */
  lemma JokerOnce(q: Quiz, e: Event)
    requires Valid(q)
    requires (e.UseFiftyFifty? && FiftyFifty in q.usedJokers) || (e.UseAudience? && Audience in q.usedJokers)
      || (e.UseSkip? && Skip in q.usedJokers)
    ensures Step(q, e) == q
  {
  }

  /** The 50/50 strikes out two wrong answers, never the right one, and leaves one wrong answer standing. */
  lemma FiftyFiftyKeepsRight(q: Quiz, spared: int)
    requires Valid(q) && CanUse(q, FiftyFifty)
    ensures var r := Step(q, UseFiftyFifty(spared));
      && |r.eliminated| == 2
      && CorrectAnswers[q.index] !in r.eliminated
      && (exists a :: a in WrongAnswers(q.index) && a !in r.eliminated)
      && CanSelect(r, CorrectAnswers[q.index])
  {
    var w := WrongAnswers(q.index);
    assert w[spared % 3] in w;
  }

  /** Skipping moves on without touching the score, and counts as a dealt-with question. */
  lemma SkipMovesOn(q: Quiz)
    requires Valid(q) && CanUse(q, Skip)
    ensures var r := Step(q, UseSkip);
      && r.score == q.score && r.wrong == q.wrong && Answered(r) == Answered(q) + 1
      && (r.finished <==> q.index == QuestionCount - 1)
  {
  }

  /** The retry button restores the opening state. */
  lemma ResetRestores(q: Quiz)
    requires Valid(q) && q.finished
    ensures Step(q, Reset) == Initial()
  {
  }

  /** Answering `answers` in turn, each followed by the next button. */
  function Play(q: Quiz, answers: seq<int>): (r: Quiz)
    requires Valid(q)
    ensures Valid(r)
    decreases |answers|
  {
    if |answers| == 0 then q else Play(Step(Step(q, Select(answers[0])), Next), answers[1..])
  }

  /** How many of `answers` match the bank from question `from` on. */
  function RightCount(from: nat, answers: seq<int>): (n: nat)
    requires from + |answers| <= QuestionCount
    ensures n <= |answers|
    decreases |answers|
  {
    if |answers| == 0 then 0
    else (if answers[0] == CorrectAnswers[from] then 1 else 0) + RightCount(from + 1, answers[1..])
  }

  predicate ValidAnswers(answers: seq<int>) {
    forall i :: 0 <= i < |answers| ==> 0 <= answers[i] < AnswerCount
  }

  /** The question screen, fresh: no answer chosen, nothing struck out. */
  predicate Fresh(q: Quiz) {
    Valid(q) && !q.finished && q.selected.None? && q.eliminated == []
  }

  /**
   * Answering without jokers: the score counts exactly the answers that match
   * the bank, the mistakes the rest, and the quiz ends after the twentieth.
   */
  lemma {:induction false} PlayCounts(q: Quiz, answers: seq<int>)
    requires Fresh(q) && ValidAnswers(answers) && q.index + |answers| <= QuestionCount
    ensures var r := Play(q, answers);
      && r.score == q.score + RightCount(q.index, answers)
      && r.wrong == q.wrong + |answers| - RightCount(q.index, answers)
      && (q.index + |answers| == QuestionCount ==> r.finished)
      && (q.index + |answers| < QuestionCount ==> Fresh(r) && r.index == q.index + |answers|)
    decreases |answers|
  {
    if |answers| > 0 {
      var rest := answers[1..];
      assert ValidAnswers(rest) by {
        forall i | 0 <= i < |rest| ensures 0 <= rest[i] < AnswerCount {
          assert rest[i] == answers[i + 1];
        }
      }
      var right := if answers[0] == CorrectAnswers[q.index] then 1 else 0;
      assert RightCount(q.index, answers) == right + RightCount(q.index + 1, rest);
      AnswerThenNext(q, answers[0]);
      var q1 := Step(Step(q, Select(answers[0])), Next);
      assert Play(q, answers) == Play(q1, rest);
      if |rest| == 0 {
        assert Play(q1, rest) == q1;
      } else {
        PlayCounts(q1, rest);
      }
    }
  }

  /** One answer and the next button, on a fresh question screen. */
  lemma AnswerThenNext(q: Quiz, answer: int)
    requires Fresh(q) && 0 <= answer < AnswerCount
    ensures var r := Step(Step(q, Select(answer)), Next);
      && r.score == q.score + (if answer == CorrectAnswers[q.index] then 1 else 0)
      && r.wrong == q.wrong + (if answer == CorrectAnswers[q.index] then 0 else 1)
      && (q.index == QuestionCount - 1 ==> r.finished)
      && (q.index < QuestionCount - 1 ==> Fresh(r) && r.index == q.index + 1)
  {
  }

  /** Twenty right answers in a row finish the quiz at 100% with the top certificate. */
  lemma PerfectRun(q: Quiz, answers: seq<int>)
    requires Fresh(q) && q.index == 0 && q.score == 0
    requires |answers| == QuestionCount && forall i :: 0 <= i < |answers| ==> answers[i] == CorrectAnswers[i]
    ensures var r := Play(q, answers);
      r.finished && r.score == QuestionCount && CertificateFor(Percentage(r.score)) == Master
  {
    BankAnswersValid();
    assert ValidAnswers(answers);
    AllRight(0, answers);
    PlayCounts(q, answers);
  }

  lemma BankAnswersValid()
    ensures forall i :: 0 <= i < QuestionCount ==> 0 <= CorrectAnswers[i] < AnswerCount
  {
  }

  /** Answers that each match the bank all count. */
  lemma {:induction false} AllRight(from: nat, answers: seq<int>)
    requires from + |answers| <= QuestionCount
    requires forall i :: 0 <= i < |answers| ==> answers[i] == CorrectAnswers[from + i]
    ensures RightCount(from, answers) == |answers|
    decreases |answers|
  {
    if |answers| > 0 {
      assert answers[0] == CorrectAnswers[from + 0];
      AllRight(from + 1, answers[1..]);
    }
  }
}
