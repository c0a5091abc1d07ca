/** Quiz grading as a retried background job: runs may die anywhere inside the answer loop. */
module Grading {
  import opened Common

  datatype AnswerOption = AnswerOption(id: string, isCorrect: bool)

  datatype QuizQuestion = QuizQuestion(id: string, options: seq<AnswerOption>)

  datatype QuizSet = QuizSet(passingScore: real, questions: seq<QuizQuestion>)

  datatype UserAnswer = UserAnswer(questionId: string, answerOptionId: string, isCorrect: bool)

  /** One row of the attempts table with its answer rows. */
  datatype Attempt = Attempt(
    score: real, isGraded: bool, isPassed: bool, isPublished: bool, answers: seq<UserAnswer>)

  /** Whether the chosen option is right; `None` when the question or the option is not in the quiz set,
      where the code reads a property of `undefined` and throws. */
  function Verdict(quiz: QuizSet, a: UserAnswer): Option<bool> {
    match Find(quiz.questions, (q: QuizQuestion) => q.id == a.questionId)
    case None => None
    case Some(q) =>
      match Find(q.options, (o: AnswerOption) => o.id == a.answerOptionId)
      case None => None
      case Some(o) => Some(o.isCorrect)
  }

  predicate Right(quiz: QuizSet, a: UserAnswer) {
    Verdict(quiz, a) == Some(true)
  }

  // Which answers are right

  /** The answer chose option `j` of question `i`: the first ones with the ids it names. */
  predicate Chose(quiz: QuizSet, a: UserAnswer, i: nat, j: nat) {
    && i < |quiz.questions| && quiz.questions[i].id == a.questionId
    && (forall k :: 0 <= k < i ==> quiz.questions[k].id != a.questionId)
    && var options := quiz.questions[i].options;
    && j < |options| && options[j].id == a.answerOptionId
    && forall k :: 0 <= k < j ==> options[k].id != a.answerOptionId
  }

  ghost predicate IsKnown(quiz: QuizSet, a: UserAnswer) {
    exists i: nat, j: nat :: Chose(quiz, a, i, j)
  }

  ghost predicate IsRight(quiz: QuizSet, a: UserAnswer) {
    exists i: nat, j: nat :: Chose(quiz, a, i, j) && quiz.questions[i].options[j].isCorrect
  }

  lemma ChoseOnce(quiz: QuizSet, a: UserAnswer, i: nat, j: nat, m: nat, n: nat)
    requires Chose(quiz, a, i, j) && Chose(quiz, a, m, n)
    ensures i == m && j == n
  {}

  lemma VerdictIs(quiz: QuizSet, a: UserAnswer)
    ensures Verdict(quiz, a).Some? <==> IsKnown(quiz, a)
    ensures Verdict(quiz, a) == Some(true) <==> IsRight(quiz, a)
  {
    var byId := (q: QuizQuestion) => q.id == a.questionId;
    var chosen := (o: AnswerOption) => o.id == a.answerOptionId;
    if Verdict(quiz, a).Some? {
      var i := FoundFirst(quiz.questions, byId);
      var j := FoundFirst(quiz.questions[i].options, chosen);
      assert Chose(quiz, a, i, j) && Verdict(quiz, a) == Some(quiz.questions[i].options[j].isCorrect);
      forall m: nat, n: nat | Chose(quiz, a, m, n)
        ensures m == i && n == j
      {
        ChoseOnce(quiz, a, i, j, m, n);
      }
    } else {
      forall m: nat, n: nat
        ensures !Chose(quiz, a, m, n)
      {
        NothingChosen(quiz, a, m, n);
      }
    }
  }

  lemma NothingChosen(quiz: QuizSet, a: UserAnswer, m: nat, n: nat)
    requires Verdict(quiz, a).None?
    ensures !Chose(quiz, a, m, n)
  {
    if m < |quiz.questions| && quiz.questions[m].id == a.questionId {
      assert quiz.questions[m] in quiz.questions;
      var i := FoundFirst(quiz.questions, (q: QuizQuestion) => q.id == a.questionId);
      if n < |quiz.questions[i].options| {
        assert quiz.questions[i].options[n] in quiz.questions[i].options;
      }
    }
  }

  /** No two questions and no two options of a question have the same id. */
  ghost predicate UniqueIds(quiz: QuizSet) {
    && (forall p, q :: p in quiz.questions && q in quiz.questions && p.id == q.id ==> p == q)
    && forall q, o, x :: q in quiz.questions && o in q.options && x in q.options && o.id == x.id ==> o == x
  }

  /** Some question with the id the answer names has a correct option with the id it names. */
  ghost predicate NamesCorrectOption(quiz: QuizSet, a: UserAnswer) {
    exists q, o :: q in quiz.questions && q.id == a.questionId
                   && o in q.options && o.id == a.answerOptionId && o.isCorrect
  }

  lemma RightByIds(quiz: QuizSet, a: UserAnswer)
    requires UniqueIds(quiz)
    ensures IsRight(quiz, a) <==> NamesCorrectOption(quiz, a)
  {
    VerdictIs(quiz, a);
  }

  /** The position of the first answer the loop throws on, or the number of answers. */
  function Reach(quiz: QuizSet, answers: seq<UserAnswer>): (n: nat)
    ensures n <= |answers|
    ensures forall i :: 0 <= i < n ==> Verdict(quiz, answers[i]).Some?
    ensures n < |answers| ==> Verdict(quiz, answers[n]).None?
  {
    if answers == [] || Verdict(quiz, answers[0]).None? then 0 else 1 + Reach(quiz, answers[1..])
  }

  /** The answer rows after the loop has gone through the first `n` of them: flags are only ever set. */
  function Marked(quiz: QuizSet, answers: seq<UserAnswer>, n: nat): (r: seq<UserAnswer>)
    ensures |r| == |answers|
  {
    seq(|answers|, i requires 0 <= i < |answers| =>
      if i < n && Right(quiz, answers[i]) then answers[i].(isCorrect := true) else answers[i])
  }

  function CountRight(quiz: QuizSet, answers: seq<UserAnswer>): (n: nat)
    ensures n <= |answers|
  {
    if answers == [] then 0
    else CountRight(quiz, answers[..|answers| - 1]) + if Right(quiz, answers[|answers| - 1]) then 1 else 0
  }

  function UnitScore(quiz: QuizSet): real {
    quiz.passingScore / 5.0
  }

  /** The running total of the loop: one unit for every right answer. */
  function Total(quiz: QuizSet, answers: seq<UserAnswer>, start: real): real {
    if answers == [] then start
    else
      var before := Total(quiz, answers[..|answers| - 1], start);
      if Right(quiz, answers[|answers| - 1]) then before + UnitScore(quiz) else before
  }

  /** An attempt graded by one undisturbed run. */
  function Graded(a: Attempt, quiz: QuizSet): Attempt {
    var score := Total(quiz, a.answers, a.score);
    a.(score := score, isGraded := true, isPassed := score == quiz.passingScore,
       answers := Marked(quiz, a.answers, |a.answers|))
  }

  /** Whether a run that dies after `cut` answers (never, if `cut` exceeds their number) gets to its last write. */
  predicate Finishes(a: Attempt, quiz: QuizSet, cut: nat) {
    Reach(quiz, a.answers) == |a.answers| < cut
  }

  /** `processQuizGrading`, cut off after `cut` answers. A graded or published attempt is not found, and the
      code then throws before writing anything. */
  function GradeRun(a: Attempt, quiz: QuizSet, cut: nat): Attempt {
    if a.isGraded || a.isPublished then a
    else if Finishes(a, quiz, cut) then Graded(a, quiz)
    else a.(answers := Marked(quiz, a.answers, Min(cut, Reach(quiz, a.answers))))
  }

  // What a run does, answer by answer

  /** The right ones of the first `n` answers are flagged, and nothing else has changed. */
  ghost predicate FlaggedUpTo(quiz: QuizSet, before: seq<UserAnswer>, after: seq<UserAnswer>, n: nat) {
    && |after| == |before|
    && forall i :: 0 <= i < |before| ==>
         after[i] == if i < n && IsRight(quiz, before[i]) then before[i].(isCorrect := true) else before[i]
  }

  ghost function RightPlaces(quiz: QuizSet, answers: seq<UserAnswer>): set<nat> {
    set i: nat | i < |answers| && IsRight(quiz, answers[i])
  }

  /** A fifth of the passing score for every right answer on top of the score, all of these flagged; passed if that is
      the passing score. */
  ghost predicate IsGradedBy(before: Attempt, after: Attempt, quiz: QuizSet) {
    && after.isGraded && after.isPublished == before.isPublished
    && after.score == before.score + |RightPlaces(quiz, before.answers)| as real * (quiz.passingScore / 5.0)
    && (after.isPassed <==> after.score == quiz.passingScore)
    && FlaggedUpTo(quiz, before.answers, after.answers, |before.answers|)
  }

  /** A run that dies at answer `n` leaves its first flags: it is cut off there, or the answer names no question or
      option of the quiz set. */
  ghost predicate IsStoppedAt(before: Attempt, after: Attempt, quiz: QuizSet, cut: nat, n: nat) {
    && n <= |before.answers| && n <= cut && (forall i :: 0 <= i < n ==> IsKnown(quiz, before.answers[i]))
    && (n < cut ==> n < |before.answers| && !IsKnown(quiz, before.answers[n]))
    && after == before.(answers := after.answers) && FlaggedUpTo(quiz, before.answers, after.answers, n)
  }

  ghost predicate IsStopped(before: Attempt, after: Attempt, quiz: QuizSet, cut: nat) {
    exists n :: IsStoppedAt(before, after, quiz, cut, n)
  }

  /** A run gets to its end if it is not cut off and knows every answer. */
  ghost predicate GetsThrough(a: Attempt, quiz: QuizSet, cut: nat) {
    |a.answers| < cut && forall answer :: answer in a.answers ==> IsKnown(quiz, answer)
  }

  ghost predicate IsRun(before: Attempt, after: Attempt, quiz: QuizSet, cut: nat) {
    if before.isGraded || before.isPublished then after == before
    else if GetsThrough(before, quiz, cut) then IsGradedBy(before, after, quiz)
    else IsStopped(before, after, quiz, cut)
  }

  lemma FinishesIs(a: Attempt, quiz: QuizSet, cut: nat)
    ensures Finishes(a, quiz, cut) <==> GetsThrough(a, quiz, cut)
  {
    hide Verdict, IsKnown, IsRight;
    forall answer
      ensures Verdict(quiz, answer).Some? <==> IsKnown(quiz, answer)
    {
      VerdictIs(quiz, answer);
    }
    assert forall i :: 0 <= i < |a.answers| ==> a.answers[i] in a.answers;
  }

  lemma MarkedIs(quiz: QuizSet, answers: seq<UserAnswer>, n: nat)
    ensures FlaggedUpTo(quiz, answers, Marked(quiz, answers, n), n)
  {
    hide Verdict, IsRight;
    forall i | 0 <= i < |answers|
      ensures Right(quiz, answers[i]) <==> IsRight(quiz, answers[i])
    {
      VerdictIs(quiz, answers[i]);
    }
  }

  lemma {:induction false} CountIs(quiz: QuizSet, answers: seq<UserAnswer>)
    ensures CountRight(quiz, answers) == |RightPlaces(quiz, answers)|
  {
    hide Verdict, IsRight;
    if answers == [] {
      assert RightPlaces(quiz, answers) == {};
    } else {
      var init, last := answers[..|answers| - 1], answers[|answers| - 1];
      CountIs(quiz, init);
      VerdictIs(quiz, last);
      assert RightPlaces(quiz, answers) == RightPlaces(quiz, init) + if IsRight(quiz, last) then {|init|} else {};
    }
  }

  lemma {:induction false} TotalIsCount(quiz: QuizSet, answers: seq<UserAnswer>, start: real)
    ensures Total(quiz, answers, start) == start + CountRight(quiz, answers) as real * UnitScore(quiz)
  {
    hide Verdict;
    if answers != [] {
      TotalIsCount(quiz, answers[..|answers| - 1], start);
    }
  }

  lemma GradedIs(a: Attempt, quiz: QuizSet)
    ensures IsGradedBy(a, Graded(a, quiz), quiz)
  {
    hide Marked, Total, CountRight, FlaggedUpTo, RightPlaces;
    TotalIsCount(quiz, a.answers, a.score);
    CountIs(quiz, a.answers);
    MarkedIs(quiz, a.answers, |a.answers|);
  }

  lemma GradeRunIs(a: Attempt, quiz: QuizSet, cut: nat)
    ensures IsRun(a, GradeRun(a, quiz, cut), quiz, cut)
  {
    hide Marked, Total, FlaggedUpTo, IsGradedBy, Verdict, IsKnown, GetsThrough;
    FinishesIs(a, quiz, cut);
    if Finishes(a, quiz, cut) {
      GradedIs(a, quiz);
    } else {
      var n := Min(cut, Reach(quiz, a.answers));
      MarkedIs(quiz, a.answers, n);
      forall answer
        ensures Verdict(quiz, answer).Some? <==> IsKnown(quiz, answer)
      {
        VerdictIs(quiz, answer);
      }
      assert a.isGraded || a.isPublished || IsStoppedAt(a, GradeRun(a, quiz, cut), quiz, cut, n);
    }
  }

  lemma MarkNone(quiz: QuizSet, answers: seq<UserAnswer>, start: real)
    ensures Marked(quiz, answers, 0) == answers && Total(quiz, answers[..0], start) == start
  {}

  lemma MarkNext(quiz: QuizSet, answers: seq<UserAnswer>, i: nat)
    requires i < |answers|
    ensures
      Marked(quiz, answers, i + 1)
      == if Right(quiz, answers[i]) then Marked(quiz, answers, i)[i := answers[i].(isCorrect := true)]
         else Marked(quiz, answers, i)
  {}

  lemma TotalNext(quiz: QuizSet, answers: seq<UserAnswer>, i: nat, start: real)
    requires i < |answers|
    ensures Total(quiz, answers[..i + 1], start)
         == Total(quiz, answers[..i], start) + if Right(quiz, answers[i]) then UnitScore(quiz) else 0.0
  {
    assert answers[..i + 1][..i] == answers[..i];
  }

  /** What the answer loop leaves and returns. */
  lemma AnswersGraded(a: Attempt, quiz: QuizSet, cut: nat)
    ensures
      var after := a.(answers := Marked(quiz, a.answers, Min(cut, Reach(quiz, a.answers))));
      && (Finishes(a, quiz, cut) <==> GetsThrough(a, quiz, cut))
      && if Finishes(a, quiz, cut) then
           && Total(quiz, a.answers, a.score)
              == a.score + |RightPlaces(quiz, a.answers)| as real * (quiz.passingScore / 5.0)
           && FlaggedUpTo(quiz, a.answers, after.answers, |a.answers|)
         else IsStopped(a, after, quiz, cut)
  {
    hide Marked, Total, CountRight, RightPlaces, FlaggedUpTo, Verdict, IsKnown, GetsThrough;
    FinishesIs(a, quiz, cut);
    TotalIsCount(quiz, a.answers, a.score);
    CountIs(quiz, a.answers);
    var n := Min(cut, Reach(quiz, a.answers));
    MarkedIs(quiz, a.answers, n);
    forall answer
      ensures Verdict(quiz, answer).Some? <==> IsKnown(quiz, answer)
    {
      VerdictIs(quiz, answer);
    }
    if !Finishes(a, quiz, cut) {
      assert IsStoppedAt(a, a.(answers := Marked(quiz, a.answers, n)), quiz, cut, n);
    }
  }

  class AttemptRecord {
    var score: real
    var isGraded: bool
    var isPassed: bool
    var isPublished: bool
    var answers: seq<UserAnswer>

    function State(): Attempt
      reads this
    {
      Attempt(score, isGraded, isPassed, isPublished, answers)
    }

    constructor (answers: seq<UserAnswer>)
      ensures State() == Attempt(0.0, false, false, false, answers)
    {
      this.score, this.isGraded, this.isPassed, this.isPublished := 0.0, false, false, false;
      this.answers := answers;
    }

    /** The two `find`s of the loop body. */
    method LookUp(quiz: QuizSet, userAnswer: UserAnswer) returns (verdict: Option<bool>)
      ensures verdict == Verdict(quiz, userAnswer)
      ensures verdict.Some? <==> IsKnown(quiz, userAnswer)
      ensures verdict == Some(true) <==> IsRight(quiz, userAnswer)
    {
      VerdictIs(quiz, userAnswer);
      verdict := None;
      var question := Find(quiz.questions, (q: QuizQuestion) => q.id == userAnswer.questionId);
      if question.Some? {
        var option := Find(question.value.options, (o: AnswerOption) => o.id == userAnswer.answerOptionId);
        if option.Some? {
          verdict := Some(option.value.isCorrect);
        }
      }
    }

    /** The answer loop: it either gets through, or dies having set some flags. */
    method GradeAnswers(quiz: QuizSet, cut: nat) returns (total: Option<real>)
      modifies this`answers
      ensures total.Some? <==> Finishes(old(State()), quiz, cut)
      ensures total.Some? ==> total.value == Total(quiz, old(answers), score)
      ensures total.Some? <==> GetsThrough(old(State()), quiz, cut)
      ensures total.Some? ==>
        && total.value == score + |RightPlaces(quiz, old(answers))| as real * (quiz.passingScore / 5.0)
        && FlaggedUpTo(quiz, old(answers), answers, |answers|)
      ensures total.None? ==> IsStopped(old(State()), State(), quiz, cut)
      ensures answers == Marked(quiz, old(answers), Min(cut, Reach(quiz, old(answers))))
    {
      hide Marked, Total, Verdict, IsKnown, IsRight, GetsThrough, RightPlaces, FlaggedUpTo, IsStopped;
      AnswersGraded(State(), quiz, cut);
      var userAnswers := answers;
      var questionUnitScore := UnitScore(quiz);
      var sum := score;
      MarkNone(quiz, userAnswers, score);
      for i := 0 to |userAnswers|
        invariant i <= cut && i <= Reach(quiz, userAnswers)
        invariant answers == Marked(quiz, userAnswers, i)
        invariant sum == Total(quiz, userAnswers[..i], score)
      {
        if i == cut {
          return None;
        }
        var verdict := LookUp(quiz, userAnswers[i]);
        if verdict.None? {
          return None;
        }
        MarkNext(quiz, userAnswers, i);
        TotalNext(quiz, userAnswers, i, score);
        if verdict.value {
          sum := sum + questionUnitScore;
          answers := answers[i := userAnswers[i].(isCorrect := true)];
        }
      }
      assert userAnswers[..|userAnswers|] == userAnswers;
      total := if cut == |userAnswers| then None else Some(sum);
    }

    method ProcessQuizGrading(quiz: QuizSet, cut: nat)
      modifies this
      ensures State() == GradeRun(old(State()), quiz, cut)
      ensures IsRun(old(State()), State(), quiz, cut)
    {
      hide IsRun, Marked, Total, Verdict, IsKnown, GetsThrough, RightPlaces, FlaggedUpTo, IsStopped;
      GradeRunIs(State(), quiz, cut);
      if isGraded || isPublished {
        return;
      }
      var total := GradeAnswers(quiz, cut);
      if total.Some? {
        score, isGraded, isPassed := total.value, true, total.value == quiz.passingScore;
      }
    }

    /** The publication step of `publishAllTodaysQuizAttempts`, for this attempt. */
    method Publish()
      modifies this
      ensures State() == Step(old(State()), Publication) && State() == old(State()).(isPublished := true)
    {
      isPublished := true;
    }
  }

  /** What can happen to an attempt: a grading run of the job queue, or the nightly publication. */
  datatype Event = Grading(quiz: QuizSet, cut: nat) | Publication

  function Step(a: Attempt, e: Event): Attempt {
    match e
    case Grading(quiz, cut) => GradeRun(a, quiz, cut)
    case Publication => a.(isPublished := true)
  }

  function Run(a: Attempt, events: seq<Event>): Attempt {
    if events == [] then a else Step(Run(a, events[..|events| - 1]), events[|events| - 1])
  }

  predicate Concerns(events: seq<Event>, quiz: QuizSet) {
    forall e :: e in events ==> e.Grading? ==> e.quiz == quiz
  }

  /** Some grading run gets to its last write while the attempt is not yet published. */
  ghost predicate ReachesLastWrite(a: Attempt, events: seq<Event>) {
    if events == [] then false
    else
      var (init, e) := (events[..|events| - 1], events[|events| - 1]);
      ReachesLastWrite(a, init)
      || (e.Grading? && GetsThrough(a, e.quiz, e.cut) && Publication !in init)
  }

  lemma MarkingKeepsVerdicts(quiz: QuizSet, answers: seq<UserAnswer>, n: nat)
    ensures forall i :: 0 <= i < |answers| ==>
              Verdict(quiz, Marked(quiz, answers, n)[i]) == Verdict(quiz, answers[i])
    ensures Reach(quiz, Marked(quiz, answers, n)) == Reach(quiz, answers)
  {}

  lemma {:induction false} SameVerdictsSameTotal(quiz: QuizSet, xs: seq<UserAnswer>, ys: seq<UserAnswer>, start: real)
    requires |xs| == |ys| && forall i :: 0 <= i < |xs| ==> Verdict(quiz, xs[i]) == Verdict(quiz, ys[i])
    ensures Total(quiz, xs, start) == Total(quiz, ys, start)
  {
    if xs != [] {
      SameVerdictsSameTotal(quiz, xs[..|xs| - 1], ys[..|ys| - 1], start);
    }
  }

  lemma MarkTwice(quiz: QuizSet, answers: seq<UserAnswer>, m: nat, n: nat)
    ensures Marked(quiz, Marked(quiz, answers, m), n) == Marked(quiz, answers, if m < n then n else m)
  {}

  /** A further run on top of the flags of a cut-off one. */
  lemma RunAgain(a: Attempt, quiz: QuizSet, m: nat, cut: nat) returns (k: nat)
    requires !a.isGraded && !a.isPublished && m <= |a.answers|
    ensures k <= |a.answers|
    ensures GradeRun(a.(answers := Marked(quiz, a.answers, m)), quiz, cut)
         == if Finishes(a, quiz, cut) then Graded(a, quiz) else a.(answers := Marked(quiz, a.answers, k))
  {
    var n := Min(cut, Reach(quiz, a.answers));
    k := if m < n then n else m;
    MarkingKeepsVerdicts(quiz, a.answers, m);
    SameVerdictsSameTotal(quiz, Marked(quiz, a.answers, m), a.answers, a.score);
    MarkTwice(quiz, a.answers, m, n);
    MarkTwice(quiz, a.answers, m, |a.answers|);
  }

  /** Whatever interleaving of cut-off runs, complete runs, repeated runs and publication an open attempt goes
      through, it ends either exactly as one undisturbed run leaves it, or ungraded with only the right ones of some
      first answers flagged. */
  lemma GradingIsExactlyOnce(a: Attempt, quiz: QuizSet, events: seq<Event>)
    requires !a.isGraded && !a.isPublished && Concerns(events, quiz)
    ensures Run(a, events).isPublished == (Publication in events)
    ensures
      var r := Run(a, events).(isPublished := false);
      if ReachesLastWrite(a, events) then r == Graded(a, quiz) && IsGradedBy(a, r, quiz)
      else
        r == a.(answers := r.answers)
        && exists marked :: 0 <= marked <= |a.answers| && FlaggedUpTo(quiz, a.answers, r.answers, marked)
  {
    hide Marked, IsGradedBy, FlaggedUpTo;
    var marked := EndsGradedOrMarked(a, quiz, events);
    GradedIs(a, quiz);
    MarkedIs(quiz, a.answers, marked);
  }

  lemma {:induction false} EndsGradedOrMarked(a: Attempt, quiz: QuizSet, events: seq<Event>) returns (marked: nat)
    requires !a.isGraded && !a.isPublished && Concerns(events, quiz)
    ensures marked <= |a.answers|
    ensures Run(a, events).isPublished == (Publication in events)
    ensures Run(a, events).(isPublished := false)
         == if ReachesLastWrite(a, events) then Graded(a, quiz) else a.(answers := Marked(quiz, a.answers, marked))
  {
    hide Marked, Verdict, Total, Reach, GetsThrough;
    marked := 0;
    if events == [] {
      MarkNone(quiz, a.answers, 0.0);
    } else {
      var init, e := events[..|events| - 1], events[|events| - 1];
      assert events == init + [e];
      marked := EndsGradedOrMarked(a, quiz, init);
      var before := Run(a, init);
      if e.Grading? {
        FinishesIs(a, quiz, e.cut);
      }
      if e.Grading? && !before.isGraded && !before.isPublished {
        marked := RunAgain(a, quiz, marked, e.cut);
      }
    }
  }

  lemma Cancel(x: real, y: real, unit: real)
    requires unit > 0.0 && x * unit == y * unit
    ensures x == y
  {}

  /** With no points beforehand and a positive passing score, passing means exactly five right answers. */
  lemma PassedIffFiveRight(a: Attempt, quiz: QuizSet)
    requires a.score == 0.0 && quiz.passingScore > 0.0
    ensures Graded(a, quiz).isPassed <==> |RightPlaces(quiz, a.answers)| == 5
  {
    hide Graded, FlaggedUpTo, RightPlaces;
    GradedIs(a, quiz);
    var c, unit := |RightPlaces(quiz, a.answers)| as real, quiz.passingScore / 5.0;
    assert quiz.passingScore == 5.0 * unit && Graded(a, quiz).score == c * unit;
    if c * unit == 5.0 * unit {
      Cancel(c, 5.0, unit);
    } else {
      assert c != 5.0;
    }
  }

  /** In a quiz set with unique ids a complete run flags exactly the answers that name a correct option of a question,
      and the attempt is passed exactly if these are five. */
  lemma FlagsAreTheCorrectOptions(a: Attempt, quiz: QuizSet)
    requires UniqueIds(quiz) && forall answer :: answer in a.answers ==> !answer.isCorrect
    ensures |Graded(a, quiz).answers| == |a.answers|
    ensures forall i :: 0 <= i < |a.answers| ==>
      (Graded(a, quiz).answers[i].isCorrect <==> NamesCorrectOption(quiz, a.answers[i]))
    ensures a.score == 0.0 && quiz.passingScore > 0.0 ==>
      (Graded(a, quiz).isPassed <==> |set i: nat | i < |a.answers| && NamesCorrectOption(quiz, a.answers[i])| == 5)
  {
    hide Graded, IsRight, NamesCorrectOption, UniqueIds;
    GradedIs(a, quiz);
    forall i | 0 <= i < |a.answers|
      ensures IsRight(quiz, a.answers[i]) <==> NamesCorrectOption(quiz, a.answers[i])
    {
      RightByIds(quiz, a.answers[i]);
    }
    assert RightPlaces(quiz, a.answers) == set i: nat | i < |a.answers| && NamesCorrectOption(quiz, a.answers[i]);
    if a.score == 0.0 && quiz.passingScore > 0.0 {
      PassedIffFiveRight(a, quiz);
    }
  }
}
