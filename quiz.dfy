/** The adaptive quiz of quiz.js: a quiz's questions are selected by the current
    difficulty level and shuffled, answers are logged as they are clicked, and
    completing a quiz scores it and moves the difficulty level up or down. */
module Quiz {
  import opened Base
  import opened Text
  import opened Sorting
  import opened Shuffle
  import opened Clock

  datatype Question = Question(id: string, difficulty: int, correctAnswer: string)

  /** One entry of `userAnswers`. */
  datatype AnswerRecord = AnswerRecord(
    questionId: string, selectedOption: string, isCorrect: bool,
    timeSpent: int, questionDifficulty: int)

  datatype Breakdown = Breakdown(easy: int, medium: int, hard: int)

  datatype Results = Results(
    totalQuestions: int, answeredQuestions: int, correctAnswers: int,
    incorrectAnswers: int, unansweredQuestions: int, percentageScore: int,
    passed: bool, difficultyBreakdown: Breakdown)

  /** What `nextQuestion` leads to: the next question, the results, or the
      `TypeError` of reading `activeQuestions` without a current quiz. */
  datatype Step = Continue | Completed(results: Results) | TypeError

  // ---------------------------------------------------------------- question selection

  /** The filter of the easy level: difficulties 1 and 2. */
  predicate NotHard(q: Question)
  {
    q.difficulty <= 2
  }

  /** The comparator `(a, b) => b.difficulty - a.difficulty` returns at most 0. */
  predicate HarderFirst(a: Question, b: Question)
  {
    b.difficulty - a.difficulty <= 0
  }

  /** The list `prepareAdaptiveQuestions` hands to the shuffle: the easy questions
      at level 1, the questions themselves at level 2, and a copy sorted hardest
      first at any other level. */
  function SelectedQuestions(level: int, qs: seq<Question>): (r: seq<Question>)
    ensures |r| <= |qs|
  {
    if level == 1 then Filter(qs, NotHard)
    else if level == 2 then qs
    else SortBy(qs, HarderFirst)
  }

  /** The active questions after the shuffle. */
  function PreparedQuestions(level: int, qs: seq<Question>, picks: seq<int>): seq<Question>
    requires ValidPicks(picks, |qs|)
  {
    var s := SelectedQuestions(level, qs);
    assert ValidPicks(picks, |s|);
    Shuffled(s, picks)
  }

  /** Apart from the easy level, which drops the hard questions, preparing a
      quiz only reorders its questions. */
  lemma PreparedQuestionsPermutation(level: int, qs: seq<Question>, picks: seq<int>)
    requires ValidPicks(picks, |qs|)
    ensures level != 1 ==> multiset(PreparedQuestions(level, qs, picks)) == multiset(qs)
    ensures level == 1 ==>
      multiset(PreparedQuestions(level, qs, picks)) == multiset(Filter(qs, NotHard))
  {
    SortByPermutation(qs, HarderFirst);
  }

  /** At level 1 exactly the questions of difficulty at most 2 take part. */
  lemma PreparedEasyLevel(qs: seq<Question>, picks: seq<int>, q: Question)
    requires ValidPicks(picks, |qs|)
    ensures q in PreparedQuestions(1, qs, picks) <==> q in qs && q.difficulty <= 2
  {
    var f := Filter(qs, NotHard);
    PreparedQuestionsPermutation(1, qs, picks);
    assert q in PreparedQuestions(1, qs, picks) <==> q in multiset(f);
    if q in qs && q.difficulty <= 2 {
      var i :| 0 <= i < |qs| && qs[i] == q;
      assert NotHard(qs[i]);
    }
  }

  /** `HarderFirst` orders every pair of questions and is transitive. */
  lemma HarderFirstPreorder()
    ensures TotalPreorder(HarderFirst)
  {
  }

  /** Before the shuffle the hard level's copy is in order, hardest first; the
      shuffle then overwrites that order. */
  lemma HardLevelSortedBeforeShuffle(qs: seq<Question>)
    ensures var s := SelectedQuestions(3, qs);
      forall i, j :: 0 <= i < j < |s| ==> s[i].difficulty >= s[j].difficulty
  {
    HarderFirstPreorder();
    SortBySorted(qs, HarderFirst);
  }

  // ---------------------------------------------------------------- scoring

  function Tally(a: AnswerRecord): Breakdown
  {
    if !a.isCorrect then Breakdown(0, 0, 0)
    else if a.questionDifficulty == 1 then Breakdown(1, 0, 0)
    else if a.questionDifficulty == 2 then Breakdown(0, 1, 0)
    else Breakdown(0, 0, 1)
  }

  predicate IsCorrect(a: AnswerRecord)
  {
    a.isCorrect
  }

  function CorrectCount(answers: seq<AnswerRecord>): (n: int)
    ensures 0 <= n <= |answers|
  {
    |Filter(answers, IsCorrect)|
  }

  lemma CorrectCountCons(answers: seq<AnswerRecord>)
    requires answers != []
    ensures CorrectCount(answers)
         == (if answers[0].isCorrect then 1 else 0) + CorrectCount(answers[1..])
  {
  }

  /** The number of elements of `s` that satisfy `p`. */
  function CountWhere<T>(s: seq<T>, p: T -> bool): nat
  {
    if s == [] then 0 else (if p(s[0]) then 1 else 0) + CountWhere(s[1..], p)
  }

  /** The correct answers the breakdown counts under each heading: difficulty 1
      is easy, 2 is medium, and anything else is hard. */
  predicate CorrectEasy(a: AnswerRecord)
  {
    a.isCorrect && a.questionDifficulty == 1
  }

  predicate CorrectMedium(a: AnswerRecord)
  {
    a.isCorrect && a.questionDifficulty == 2
  }

  predicate CorrectHard(a: AnswerRecord)
  {
    a.isCorrect && a.questionDifficulty != 1 && a.questionDifficulty != 2
  }

  /** The correct answers counted by difficulty, one answer at a time. */
  function DifficultyBreakdown(answers: seq<AnswerRecord>): (b: Breakdown)
    ensures b.easy == CountWhere(answers, CorrectEasy)
    ensures b.medium == CountWhere(answers, CorrectMedium)
    ensures b.hard == CountWhere(answers, CorrectHard)
    ensures b.easy + b.medium + b.hard == CorrectCount(answers)
  {
    if answers == [] then Breakdown(0, 0, 0)
    else
      CorrectCountCons(answers);
      var t, rest := Tally(answers[0]), DifficultyBreakdown(answers[1..]);
      Breakdown(t.easy + rest.easy, t.medium + rest.medium, t.hard + rest.hard)
  }

  const NoResults := Results(0, 0, 0, 0, 0, 0, false, Breakdown(0, 0, 0))

  /** `calculateResults()`: all zeros without a quiz or without answers; otherwise
      counts over the answer log against the number of active questions. */
  function CalculateResults(hasQuiz: bool, total: int, passingScore: int,
                            answers: seq<AnswerRecord>): (r: Results)
    requires hasQuiz && answers != [] ==> total > 0
    ensures !hasQuiz || answers == [] ==> r == NoResults
    ensures hasQuiz && answers != [] ==>
      && r.totalQuestions == total
      && r.answeredQuestions == |answers|
      && r.correctAnswers == CorrectCount(answers)
      && r.incorrectAnswers == |answers| - r.correctAnswers >= 0
      && r.unansweredQuestions == total - |answers|
      && total * (2 * r.percentageScore - 1) <= 200 * r.correctAnswers
         < total * (2 * r.percentageScore + 1)
      && (r.passed <==> r.percentageScore >= passingScore)
      && (|answers| <= total ==> 0 <= r.percentageScore <= 100)
    ensures r.difficultyBreakdown.easy + r.difficultyBreakdown.medium
            + r.difficultyBreakdown.hard == r.correctAnswers
  {
    if !hasQuiz || answers == [] then NoResults
    else
      var correct := CorrectCount(answers);
      var b := DifficultyBreakdown(answers);
      var pct := Percent(correct, total);
      assert |answers| <= total ==> 0 <= pct <= 100 by {
        if |answers| <= total {
          PercentBounds(correct, total);
        }
      }
      Results(total, |answers|, correct, |answers| - correct, total - |answers|,
              pct, pct >= passingScore, b)
  }

  /** `adjustDifficulty(score)` as a function of the old level. */
  function AdjustedLevel(level: int, score: int): (r: int)
    ensures 1 <= level <= 3 ==> 1 <= r <= 3
    ensures 60 <= score <= 85 ==> r == level
    ensures score > 85 ==> (if level < 3 then r == level + 1 else r == Min(3, level + 1))
    ensures score < 60 ==> (if level > 1 then r == level - 1 else r == Max(1, level - 1))
  {
    if score > 85 then Min(3, level + 1)
    else if score < 60 then Max(1, level - 1)
    else level
  }

  /** From level 2, any run of scores keeps the level in 1..3. */
  lemma {:induction false} LevelStaysInRange(level: int, scores: seq<int>)
    requires 1 <= level <= 3
    ensures 1 <= LevelAfter(level, scores) <= 3
    decreases |scores|
  {
    if scores != [] {
      LevelStaysInRange(AdjustedLevel(level, scores[0]), scores[1..]);
    }
  }

  /** The level after completing quizzes with the given scores, in order. */
  function LevelAfter(level: int, scores: seq<int>): int
    decreases |scores|
  {
    if scores == [] then level else LevelAfter(AdjustedLevel(level, scores[0]), scores[1..])
  }

  /** `getDifficultyName(level)`. */
  function DifficultyName(level: int): (r: string)
    ensures r == "Easy" <==> level == 1
    ensures r == "Hard" <==> level == 3
    ensures r == "Medium" <==> level != 1 && level != 3
  {
    match level
    case 1 => "Easy"
    case 2 => "Medium"
    case 3 => "Hard"
    case _ => "Medium"
  }

  function DifficultySum(qs: seq<Question>): int
  {
    if qs == [] then 0 else qs[0].difficulty + DifficultySum(qs[1..])
  }

  /** `getDifficultyLabel(quiz)`: the average difficulty against 1.7 and 2.4,
      compared by cross-multiplication. An empty quiz averages `NaN`, fails
      both comparisons and is labelled "Hard". */
  function DifficultyLabel(qs: seq<Question>): (r: string)
    ensures qs == [] ==> r == "Hard"
  {
    var sum, n := DifficultySum(qs), |qs|;
    if 10 * sum < 17 * n then "Easy"
    else if 10 * sum < 24 * n then "Medium"
    else "Hard"
  }

  lemma {:induction false} DifficultySumUniform(qs: seq<Question>, d: int)
    requires forall i :: 0 <= i < |qs| ==> qs[i].difficulty == d
    ensures DifficultySum(qs) == d * |qs|
  {
    if qs != [] {
      DifficultySumUniform(qs[1..], d);
    }
  }

  /** A quiz whose questions all share one difficulty carries that difficulty's name. */
  lemma UniformLabel(qs: seq<Question>, d: int)
    requires qs != [] && 1 <= d <= 3
    requires forall i :: 0 <= i < |qs| ==> qs[i].difficulty == d
    ensures DifficultyLabel(qs) == DifficultyName(d)
  {
    DifficultySumUniform(qs, d);
  }

  /** For a non-empty quiz, the cross-multiplied comparisons are the source's
      comparisons of the average difficulty with 1.7 and 2.4. */
  lemma LabelByAverage(qs: seq<Question>)
    requires qs != []
    ensures var avg := (DifficultySum(qs) as real) / (|qs| as real);
      DifficultyLabel(qs) == (if avg < 1.7 then "Easy" else if avg < 2.4 then "Medium" else "Hard")
  {
    var sum, n := DifficultySum(qs), |qs|;
    ScaledBelow(sum, n, 17);
    ScaledBelow(sum, n, 24);
  }

  /** `10 * sum < k * n` says that the average `sum / n` is below `k / 10`. */
  lemma ScaledBelow(sum: int, n: int, k: int)
    requires n > 0
    ensures 10 * sum < k * n <==> (sum as real) / (n as real) < (k as real) / 10.0
  {
    var s, m := sum as real, n as real;
    assert (10 * sum) as real == 10.0 * s;
    assert (k * n) as real == (k as real) * m;
    assert s == (s / m) * m;
    assert (k as real) / 10.0 * m == (k as real) * m / 10.0;
  }

  // ---------------------------------------------------------------- state

  /** A quiz record; `prepareAdaptiveQuestions` assigns its `activeQuestions`
      and, at level 2, shuffles its own `questions` array. */
  class QuizRecord {
    const id: string
    const timeLimit: int
    const passingScore: int
    const questions: array<Question>
    /** `null` stands for the field before the quiz is first started. */
    var activeQuestions: array?<Question>

    constructor (id: string, timeLimit: int, passingScore: int, questions: array<Question>)
      ensures this.id == id && this.timeLimit == timeLimit
      ensures this.passingScore == passingScore && this.questions == questions
      ensures activeQuestions == null
    {
      this.id := id;
      this.timeLimit := timeLimit;
      this.passingScore := passingScore;
      this.questions := questions;
      activeQuestions := null;
    }
  }

  /** No two quiz records share a questions array, as records parsed from
      storage never do. */
  predicate SeparateQuestions(quizzes: seq<QuizRecord>)
  {
    forall r, t :: r in quizzes && t in quizzes && r != t ==> r.questions != t.questions
  }

  class QuizSystem {
    var quizzes: seq<QuizRecord>
    var currentQuiz: QuizRecord?
    var currentQuestionIndex: int
    var userAnswers: seq<AnswerRecord>
    var timeSpent: int
    var difficultyLevel: int
    /** The countdown of the running timer, and whether its interval is set. */
    var remainingTime: int
    var timerRunning: bool

    ghost predicate Valid()
      reads this, currentQuiz
    {
      && 1 <= difficultyLevel <= 3
      && currentQuestionIndex >= 0
      && (currentQuiz != null ==> currentQuiz.activeQuestions != null)
      && (currentQuiz != null && userAnswers != [] ==> currentQuiz.activeQuestions.Length > 0)
      && SeparateQuestions(quizzes)
    }

    function ActiveCount(): int
      reads this, currentQuiz
      requires Valid()
    {
      if currentQuiz == null then 0 else currentQuiz.activeQuestions.Length
    }

    /** `init` with the quizzes already loaded: the difficulty level starts at 2. */
    constructor (loaded: seq<QuizRecord>)
      requires SeparateQuestions(loaded)
      ensures quizzes == loaded && currentQuiz == null && currentQuestionIndex == 0
      ensures userAnswers == [] && timeSpent == 0 && difficultyLevel == 2
      ensures !timerRunning
      ensures Valid()
    {
      quizzes := loaded;
      currentQuiz := null;
      currentQuestionIndex := 0;
      userAnswers := [];
      timeSpent := 0;
      difficultyLevel := 2;
      remainingTime := 0;
      timerRunning := false;
    }

    /** `completeQuiz()`: stop the timer, score the log and adjust the level. */
    method CompleteQuiz() returns (r: Results)
      requires Valid()
      modifies this
      ensures Valid()
      ensures r == CalculateResults(currentQuiz != null, ActiveCount(),
                                    if currentQuiz == null then 0 else currentQuiz.passingScore,
                                    userAnswers)
      ensures difficultyLevel == AdjustedLevel(old(difficultyLevel), r.percentageScore)
      ensures !timerRunning
      ensures quizzes == old(quizzes) && currentQuiz == old(currentQuiz)
      ensures currentQuestionIndex == old(currentQuestionIndex)
      ensures userAnswers == old(userAnswers) && timeSpent == old(timeSpent)
      ensures remainingTime == old(remainingTime)
    {
      timerRunning := false;
      var passing := if currentQuiz == null then 0 else currentQuiz.passingScore;
      r := CalculateResults(currentQuiz != null, ActiveCount(), passing, userAnswers);
      difficultyLevel := AdjustedLevel(difficultyLevel, r.percentageScore);
    }

    /** `prepareAdaptiveQuestions()` for the quiz `q`. */
    method PrepareAdaptiveQuestions(q: QuizRecord, picks: seq<int>)
      requires ValidPicks(picks, q.questions.Length)
      modifies q, q.questions
      ensures q.activeQuestions != null
      ensures q.activeQuestions[..]
           == PreparedQuestions(difficultyLevel, old(q.questions[..]), picks)
      ensures difficultyLevel == 2 ==> q.activeQuestions == q.questions
      ensures difficultyLevel != 2 ==>
        fresh(q.activeQuestions) && q.questions[..] == old(q.questions[..])
    {
      var qs := q.questions[..];
      var selected := SelectedQuestions(difficultyLevel, qs);
      if difficultyLevel == 2 {
        q.activeQuestions := q.questions;
      } else {
        q.activeQuestions := new Question[|selected|](i requires 0 <= i < |selected| => selected[i]);
      }
      assert q.activeQuestions[..] == selected;
      ShuffleArray(q.activeQuestions, picks);
    }

    /** `startQuiz(quizId)`: select the quiz, reset the attempt, prepare its
        questions and start the timer; an unknown id leaves `currentQuiz`
        undefined and changes nothing else. The result lists the results of
        every `completeQuiz` the start triggers. */
    method StartQuiz(quizId: string, picks: seq<int>) returns (completions: seq<Results>)
      requires Valid()
      requires forall i :: 0 <= i < |quizzes| ==> ValidPicks(picks, quizzes[i].questions.Length)
      modifies this, set q | q in quizzes, set q | q in quizzes :: q.questions
      ensures Valid()
      ensures quizzes == old(quizzes)
      ensures var k := FindIndex(quizzes, (q: QuizRecord) => q.id == quizId);
        if k < 0 then
          && currentQuiz == null && completions == []
          && currentQuestionIndex == old(currentQuestionIndex)
          && userAnswers == old(userAnswers) && timeSpent == old(timeSpent)
          && difficultyLevel == old(difficultyLevel)
          && timerRunning == old(timerRunning) && remainingTime == old(remainingTime)
          && (forall r :: r in quizzes ==>
                r.activeQuestions == old(r.activeQuestions) && r.questions[..] == old(r.questions[..]))
        else
          && currentQuiz == quizzes[k]
          && currentQuestionIndex == 0 && userAnswers == [] && timeSpent == 0
          && remainingTime == currentQuiz.timeLimit
          && currentQuiz.activeQuestions[..]
             == PreparedQuestions(old(difficultyLevel), old(quizzes[k].questions[..]), picks)
          && (old(difficultyLevel) == 2 ==> currentQuiz.activeQuestions == currentQuiz.questions)
          && (old(difficultyLevel) != 2 ==> currentQuiz.questions[..] == old(quizzes[k].questions[..]))
          && (forall r :: r in quizzes && r != currentQuiz ==>
                r.activeQuestions == old(r.activeQuestions) && r.questions[..] == old(r.questions[..]))
          && var empty := currentQuiz.activeQuestions.Length == 0;
             && completions == (if empty then [NoResults, NoResults] else [])
             && difficultyLevel == LevelAfter(old(difficultyLevel), if empty then [0, 0] else [])
             && timerRunning == !empty
    {
      completions := [];
      var k := FindIndex(quizzes, (q: QuizRecord) => q.id == quizId);
      if k < 0 {
        currentQuiz := null;
        return;
      }
      completions := BeginQuiz(quizzes[k], picks);
    }

    /** The part of `startQuiz` after the quiz `q` is found. The first question
        is rendered twice, once by `showQuizInterface` and once more after the
        timer starts; when no question was selected, each render completes the
        quiz, so the level is adjusted twice and the restarted timer stopped. */
    method BeginQuiz(q: QuizRecord, picks: seq<int>) returns (completions: seq<Results>)
      requires Valid()
      requires q in quizzes
      requires ValidPicks(picks, q.questions.Length)
      modifies this, q, q.questions
      ensures Valid()
      ensures quizzes == old(quizzes)
      ensures currentQuiz == q
      ensures currentQuestionIndex == 0 && userAnswers == [] && timeSpent == 0
      ensures remainingTime == q.timeLimit
      ensures q.activeQuestions[..]
           == PreparedQuestions(old(difficultyLevel), old(q.questions[..]), picks)
      ensures old(difficultyLevel) == 2 ==> q.activeQuestions == q.questions
      ensures old(difficultyLevel) != 2 ==> q.questions[..] == old(q.questions[..])
      ensures forall r :: r in quizzes && r != q ==>
        r.activeQuestions == old(r.activeQuestions) && r.questions[..] == old(r.questions[..])
      ensures var empty := q.activeQuestions.Length == 0;
        && completions == (if empty then [NoResults, NoResults] else [])
        && difficultyLevel == LevelAfter(old(difficultyLevel), if empty then [0, 0] else [])
        && timerRunning == !empty
    {
      ghost var level := difficultyLevel;
      ResetAttempt(q, picks);
      completions := [];

      // showQuizInterface renders the first question
      var first := RenderCurrentQuestion();
      // startQuizTimer
      remainingTime := q.timeLimit;
      timerRunning := true;
      var second := RenderCurrentQuestion();
      if first.Some? {
        completions := [first.value, second.value];
        assert LevelAfter(level, [0, 0]) == AdjustedLevel(AdjustedLevel(level, 0), 0) by {
          assert [0, 0][1..] == [0];
        }
      }
    }

    /** The first steps of `startQuiz` for the found quiz `q`: reset the
        attempt and prepare the questions. */
    method ResetAttempt(q: QuizRecord, picks: seq<int>)
      requires Valid()
      requires q in quizzes
      requires ValidPicks(picks, q.questions.Length)
      modifies this, q, q.questions
      ensures Valid()
      ensures quizzes == old(quizzes) && currentQuiz == q
      ensures currentQuestionIndex == 0 && userAnswers == [] && timeSpent == 0
      ensures difficultyLevel == old(difficultyLevel)
      ensures timerRunning == old(timerRunning) && remainingTime == old(remainingTime)
      ensures q.activeQuestions[..]
           == PreparedQuestions(difficultyLevel, old(q.questions[..]), picks)
      ensures difficultyLevel == 2 ==> q.activeQuestions == q.questions
      ensures difficultyLevel != 2 ==> q.questions[..] == old(q.questions[..])
      ensures forall r :: r in quizzes && r != q ==>
        r.activeQuestions == old(r.activeQuestions) && r.questions[..] == old(r.questions[..])
    {
      currentQuiz := q;
      currentQuestionIndex := 0;
      userAnswers := [];
      timeSpent := 0;
      PrepareAdaptiveQuestions(q, picks);
    }

    /** `renderCurrentQuestion()`: without a current quiz or past its last
        question the quiz completes; otherwise the question is only drawn. */
    method RenderCurrentQuestion() returns (completed: Option<Results>)
      requires Valid()
      modifies this
      ensures Valid()
      ensures quizzes == old(quizzes) && currentQuiz == old(currentQuiz)
      ensures currentQuestionIndex == old(currentQuestionIndex)
      ensures userAnswers == old(userAnswers) && timeSpent == old(timeSpent)
      ensures remainingTime == old(remainingTime)
      ensures completed.Some? <==>
        currentQuiz == null || currentQuestionIndex >= currentQuiz.activeQuestions.Length
      ensures completed.Some? ==>
        && completed.value == CalculateResults(currentQuiz != null, ActiveCount(),
                                               if currentQuiz == null then 0 else currentQuiz.passingScore,
                                               userAnswers)
        && difficultyLevel == AdjustedLevel(old(difficultyLevel), completed.value.percentageScore)
        && !timerRunning
      ensures completed.None? ==>
        difficultyLevel == old(difficultyLevel) && timerRunning == old(timerRunning)
    {
      completed := None;
      if currentQuiz == null || currentQuestionIndex >= currentQuiz.activeQuestions.Length {
        var r := CompleteQuiz();
        completed := Some(r);
      }
    }

    /** `submitAnswer(optionId)`: log one answer to the current question and
        restart the per-question time; past the last question nothing happens. */
    method SubmitAnswer(optionId: string)
      requires Valid()
      modifies this
      ensures Valid()
      ensures currentQuiz == old(currentQuiz) && quizzes == old(quizzes)
      ensures currentQuestionIndex == old(currentQuestionIndex)
      ensures difficultyLevel == old(difficultyLevel)
      ensures timerRunning == old(timerRunning) && remainingTime == old(remainingTime)
      ensures currentQuiz == null || currentQuestionIndex >= currentQuiz.activeQuestions.Length ==>
        userAnswers == old(userAnswers) && timeSpent == old(timeSpent)
      ensures currentQuiz != null && currentQuestionIndex < currentQuiz.activeQuestions.Length ==>
        var q := currentQuiz.activeQuestions[currentQuestionIndex];
        && |userAnswers| == |old(userAnswers)| + 1
        && userAnswers[..|old(userAnswers)|] == old(userAnswers)
        && userAnswers[|old(userAnswers)|]
           == AnswerRecord(q.id, optionId, optionId == q.correctAnswer,
                           old(timeSpent), q.difficulty)
        && timeSpent == 0
    {
      if currentQuiz == null || currentQuestionIndex >= currentQuiz.activeQuestions.Length {
        return;
      }
      var q := currentQuiz.activeQuestions[currentQuestionIndex];
      userAnswers := userAnswers
        + [AnswerRecord(q.id, optionId, optionId == q.correctAnswer, timeSpent, q.difficulty)];
      timeSpent := 0;
    }

    /** `nextQuestion()`: move on by one, and complete the quiz once past the
        last active question. */
    method NextQuestion() returns (step: Step)
      requires Valid()
      modifies this
      ensures Valid()
      ensures currentQuestionIndex == old(currentQuestionIndex) + 1
      ensures currentQuiz == old(currentQuiz) && quizzes == old(quizzes)
      ensures userAnswers == old(userAnswers)
      ensures timeSpent == old(timeSpent) && remainingTime == old(remainingTime)
      ensures step.TypeError? <==> currentQuiz == null
      ensures step.Completed? <==>
        currentQuiz != null && currentQuestionIndex >= currentQuiz.activeQuestions.Length
      ensures step.Completed? ==>
        && step.results == CalculateResults(true, currentQuiz.activeQuestions.Length,
                                            currentQuiz.passingScore, userAnswers)
        && difficultyLevel == AdjustedLevel(old(difficultyLevel), step.results.percentageScore)
        && !timerRunning
      ensures !step.Completed? ==>
        difficultyLevel == old(difficultyLevel) && timerRunning == old(timerRunning)
    {
      currentQuestionIndex := currentQuestionIndex + 1;
      if currentQuiz == null {
        return TypeError;
      }
      if currentQuestionIndex >= currentQuiz.activeQuestions.Length {
        var r := CompleteQuiz();
        return Completed(r);
      }
      return Continue;
    }

    /** One firing of the timer's interval: a second passes; at zero the quiz
        completes. A cleared interval does not fire. */
    method TimerTick() returns (completed: Option<Results>)
      requires Valid()
      modifies this
      ensures Valid()
      ensures currentQuiz == old(currentQuiz) && quizzes == old(quizzes)
      ensures userAnswers == old(userAnswers)
      ensures currentQuestionIndex == old(currentQuestionIndex)
      ensures !old(timerRunning) ==>
        completed == None && remainingTime == old(remainingTime) && timeSpent == old(timeSpent)
        && difficultyLevel == old(difficultyLevel) && !timerRunning
      ensures old(timerRunning) ==>
        && remainingTime == old(remainingTime) - 1 && timeSpent == old(timeSpent) + 1
        && (completed.Some? <==> remainingTime <= 0)
        && (completed.Some? ==>
              && completed.value == CalculateResults(currentQuiz != null, ActiveCount(),
                                                     if currentQuiz == null then 0 else currentQuiz.passingScore,
                                                     userAnswers)
              && !timerRunning
              && difficultyLevel == AdjustedLevel(old(difficultyLevel), completed.value.percentageScore))
        && (completed.None? ==> timerRunning && difficultyLevel == old(difficultyLevel))
    {
      completed := None;
      if !timerRunning {
        return;
      }
      remainingTime := remainingTime - 1;
      timeSpent := timeSpent + 1;
      if remainingTime <= 0 {
        var r := CompleteQuiz();
        completed := Some(r);
      }
    }
  }
}
