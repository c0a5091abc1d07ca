/** The cached progress, status and completion date of an enrollment agree with its lesson rows. */
module CourseProgress {
  import opened Common
  import opened Course
  import opened CourseEffects

  function Done(e: Enrollment): set<string> {
    WithStatus(e.lessons, LessonStatus.COMPLETED)
  }

  function Begun(e: Enrollment): set<string> {
    WithStatus(e.lessons, LessonStatus.IN_PROGRESS)
  }

  /** Twice the credit the lesson rows give. */
  function Work(e: Enrollment): nat {
    2 * |Done(e)| + |Begun(e)|
  }

  /** What `work` is worth in a course of `total` lessons: every unit is 50 / total percent. */
  function Worth(work: nat, total: nat): real {
    if total == 0 then 0.0 else work as real * (50.0 / total as real)
  }

  predicate RowOk(row: LessonRow) {
    (row.status.NOT_STARTED? <==> row.startedAt.None?) && (row.status.COMPLETED? <==> row.completedAt.Some?)
  }

  ghost predicate RowsOk(e: Enrollment, lessons: seq<string>) {
    forall l :: l in e.lessons ==> l in lessons && RowOk(e.lessons[l])
  }

  ghost predicate EnrollmentOk(e: Enrollment, lessons: seq<string>) {
    && RowsOk(e, lessons)
    && e.progress == Worth(Work(e), |lessons|)
    && (e.completedAt.Some? <==> e.status.COMPLETED?)
    && (e.status.COMPLETED? ==> |Done(e)| == |lessons| && |lessons| > 0)
    && (e.status.IN_PROGRESS? ==> |Done(e)| < |lessons|)
    && (e.status.ENROLLED? ==> Work(e) == 0)
  }

  ghost predicate CoursesOk(s: Store) {
    WellFormed(s) && forall k :: k in s.enrollments ==> EnrollmentOk(s.enrollments[k], s.courses[k.courseId].lessons)
  }

  function ToSet(lessons: seq<string>): set<string> {
    set l | l in lessons
  }

  lemma {:induction false} ToSetSize(lessons: seq<string>)
    requires NoDuplicates(lessons)
    ensures |ToSet(lessons)| == |lessons|
  {
    if lessons != [] {
      ToSetSize(lessons[1..]);
      assert ToSet(lessons) == {lessons[0]} + ToSet(lessons[1..]);
    }
  }

  /** Completed and begun lessons are different lessons of the course. */
  lemma CreditIsWithin(e: Enrollment, lessons: seq<string>)
    requires RowsOk(e, lessons) && NoDuplicates(lessons)
    ensures |Done(e)| + |Begun(e)| <= |lessons|
    ensures |Done(e)| == |lessons| ==> forall l :: l in lessons ==> l in Done(e)
  {
    ToSetSize(lessons);
    SubsetSize(Done(e) + Begun(e), ToSet(lessons));
    SubsetSize(Done(e), ToSet(lessons));
    assert |Done(e) + Begun(e)| == |Done(e)| + |Begun(e)| by {
      assert Done(e) * Begun(e) == {};
    }
  }

  lemma PercentageIsWorth(e: Enrollment, total: nat)
    requires 0 < total
    ensures Percentage(e.lessons, total) == Worth(Work(e), total)
  {}

  lemma StartedSets(e: Enrollment, total: nat, lesson: string, now: int)
    requires 0 < total && lesson !in Done(e)
    ensures
      var r := Started(e, total, lesson, now);
      Done(r) == Done(e) && Begun(r) == Begun(e) + {lesson} && r.progress == Percentage(r.lessons, total)
  {}

  /** What starting a lesson does to the sets of lessons. */
  lemma StartedCredit(e: Enrollment, total: nat, lesson: string, now: int)
    requires 0 < total && lesson !in Done(e)
    ensures
      var r := Started(e, total, lesson, now);
      && Done(r) == Done(e) && Begun(r) == Begun(e) + {lesson}
      && Work(r) == Work(e) + (if lesson in Begun(e) then 0 else 1)
      && r.progress == Worth(Work(r), total)
  {
    hide Percentage, Worth, Started, Done, Begun;
    StartedSets(e, total, lesson, now);
    PercentageIsWorth(Started(e, total, lesson, now), total);
    var begun := Begun(e);
    if lesson in begun {
      assert begun + {lesson} == begun;
    } else {
      assert |begun + {lesson}| == |begun| + 1;
    }
  }

  lemma FinishedCredit(e: Enrollment, total: nat, lesson: string, now: int)
    requires 0 < total && lesson in Begun(e)
    ensures
      var r := Finished(e, total, lesson, now);
      && Done(r) == Done(e) + {lesson} && Begun(r) == Begun(e) - {lesson}
      && Work(r) == Work(e) + 1
      && r.progress == Worth(Work(r), total)
  {
    hide Percentage, Worth;
    var r := Finished(e, total, lesson, now);
    assert Done(r) == Done(e) + {lesson} && Begun(r) == Begun(e) - {lesson};
    PercentageIsWorth(r, total);
  }

  lemma StartedRowsOk(e: Enrollment, lessons: seq<string>, lesson: string, now: int)
    requires RowsOk(e, lessons) && lesson in lessons && lesson !in Done(e)
    ensures RowsOk(Started(e, |lessons|, lesson, now), lessons)
  {}

  lemma StartedIsOk(e: Enrollment, lessons: seq<string>, lesson: string, now: int)
    requires EnrollmentOk(e, lessons) && NoDuplicates(lessons) && lesson in lessons && lesson !in Done(e)
    ensures EnrollmentOk(Started(e, |lessons|, lesson, now), lessons)
  {
    hide Worth, Percentage, RowsOk, Done, Begun;
    StartedCredit(e, |lessons|, lesson, now);
    StartedRowsOk(e, lessons, lesson, now);
    CreditIsWithin(e, lessons);
  }

  lemma FinishedIsOk(e: Enrollment, lessons: seq<string>, lesson: string, now: int)
    requires EnrollmentOk(e, lessons) && NoDuplicates(lessons) && lesson in lessons && lesson in Begun(e)
    ensures EnrollmentOk(Finished(e, |lessons|, lesson, now), lessons)
  {
    hide Worth, Credit;
    FinishedCredit(e, |lessons|, lesson, now);
    CreditIsWithin(Finished(e, |lessons|, lesson, now), lessons);
  }

  lemma NewIsOk(lessons: seq<string>)
    ensures EnrollmentOk(NewEnrollment(lessons), lessons)
  {}

  lemma DroppedIsOk(e: Enrollment, lessons: seq<string>, preserveHistory: bool)
    requires EnrollmentOk(e, lessons)
    ensures EnrollmentOk(Dropped(e, preserveHistory), lessons)
  {}

  lemma StepKeepsCourses(s: Store, step: Step)
    requires CoursesOk(s)
    ensures CoursesOk(Apply(s, step))
  {
    hide EnrollmentOk;
    AfterIsOk(s, step);
  }

  lemma AfterIsOk(s: Store, step: Step)
    requires CoursesOk(s)
    ensures Refusal(s, step).None? ==> EnrollmentOk(After(s, step), s.courses[step.key.courseId].lessons)
  {
    hide EnrollmentOk, Started, Finished, Dropped, NewEnrollment;
    if Refusal(s, step).None? {
      var lessons := s.courses[step.key.courseId].lessons;
      match step
      case Enroll(_, _) => NewIsOk(lessons);
      case Drop(key, preserveHistory) => DroppedIsOk(s.enrollments[key], lessons, preserveHistory);
      case Start(key, lesson, now) => StartedIsOk(s.enrollments[key], lessons, lesson, now);
      case Complete(key, lesson, now) => FinishedIsOk(s.enrollments[key], lessons, lesson, now);
    }
  }

  lemma {:induction false} RunsKeepCourses(s: Store, steps: seq<Step>)
    requires CoursesOk(s)
    ensures CoursesOk(Run(s, steps))
    decreases |steps|
  {
    hide CoursesOk;
    if steps != [] {
      StepKeepsCourses(s, steps[0]);
      assert WellFormed(Apply(s, steps[0]));
      RunsKeepCourses(Apply(s, steps[0]), steps[1..]);
    }
  }

  lemma WorthIsMonotonic(a: nat, b: nat, total: nat)
    requires a <= b
    ensures Worth(a, total) <= Worth(b, total)
  {}

  lemma WorthOfAll(total: nat)
    ensures 0 < total ==> Worth(2 * total, total) == 100.0
    ensures Worth(0, total) == 0.0 && Worth(2 * total, total) <= 100.0
  {}

  /** What holds of every enrollment in every state that operations one at a time can reach from a database
      without enrollments: the stored progress is the one its rows give, it is a percentage, the completion
      date is set exactly when the status is COMPLETED, and that status means all lessons are completed. */
  lemma EnrollmentsInEveryRun(start: Store, steps: seq<Step>, key: Key)
    requires WellFormed(start) && start.enrollments == map[] && key in Run(start, steps).enrollments
    ensures
      var s := Run(start, steps);
      var e, lessons := s.enrollments[key], s.courses[key.courseId].lessons;
      && IsShare(e.progress, e.lessons, |lessons|) && 0.0 <= e.progress <= 100.0
      && (e.completedAt.Some? <==> e.status.COMPLETED?)
      && (e.status.COMPLETED? ==>
            lessons != [] && forall l :: l in lessons ==> l in e.lessons && e.lessons[l].status.COMPLETED?)
      && (e.status.IN_PROGRESS? ==>
            exists l :: l in lessons && (l in e.lessons ==> !e.lessons[l].status.COMPLETED?))
      && (e.status.ENROLLED? ==> forall l :: l in e.lessons ==> e.lessons[l].status.NOT_STARTED?)
      && (forall l :: l in e.lessons && !e.lessons[l].status.NOT_STARTED? ==> e.lessons[l].startedAt.Some?)
  {
    RunsKeepCourses(start, steps);
    var s := Run(start, steps);
    hide EnrollmentOk, Run, IsShare;
    var e := s.enrollments[key];
    FactsOf(e, s.courses[key.courseId].lessons);
    DoneAndBegun(e);
  }

  lemma DoneAndBegun(e: Enrollment)
    ensures forall l :: l in Done(e) <==> l in e.lessons && e.lessons[l].status.COMPLETED?
    ensures forall l :: l in Begun(e) <==> l in e.lessons && e.lessons[l].status.IN_PROGRESS?
  {}

  lemma FactsOf(e: Enrollment, lessons: seq<string>)
    requires EnrollmentOk(e, lessons) && NoDuplicates(lessons)
    ensures IsShare(e.progress, e.lessons, |lessons|)
    ensures 0.0 <= e.progress <= 100.0
    ensures e.completedAt.Some? <==> e.status.COMPLETED?
    ensures e.status.COMPLETED? ==> lessons != [] && forall l :: l in lessons ==> l in Done(e)
    ensures e.status.IN_PROGRESS? ==> exists l :: l in lessons && l !in Done(e)
    ensures e.status.ENROLLED? ==> Done(e) == {} && Begun(e) == {}
    ensures forall l :: l in e.lessons && !e.lessons[l].status.NOT_STARTED? ==> e.lessons[l].startedAt.Some?
  {
    hide Worth, Percentage, Done, Begun, IsShare;
    CreditIsWithin(e, lessons);
    WorthIsMonotonic(0, Work(e), |lessons|);
    WorthIsMonotonic(Work(e), 2 * |lessons|, |lessons|);
    WorthOfAll(|lessons|);
    if lessons != [] {
      PercentageIsWorth(e, |lessons|);
      PercentageIsShare(e.lessons, |lessons|);
    } else {
      NoLessonsNoShare(e);
    }
    if e.status.IN_PROGRESS? {
      SomeLessonLeft(Done(e), lessons);
    }
  }

  lemma NoLessonsNoShare(e: Enrollment)
    requires RowsOk(e, []) && e.progress == 0.0
    ensures IsShare(e.progress, e.lessons, 0)
  {
    assert (set l | l in e.lessons && e.lessons[l].status.COMPLETED?) == {};
    assert (set l | l in e.lessons && e.lessons[l].status.IN_PROGRESS?) == {};
  }

  lemma SomeLessonLeft(done: set<string>, lessons: seq<string>)
    requires NoDuplicates(lessons) && |done| < |lessons|
    ensures exists l :: l in lessons && l !in done
  {
    ToSetSize(lessons);
    if ToSet(lessons) <= done {
      SubsetSize(ToSet(lessons), done);
    }
  }

  // Progress as a measure

  function WorkOf(s: Store, key: Key): nat {
    if key in s.enrollments then Work(s.enrollments[key]) else 0
  }

  function ProgressOf(s: Store, key: Key): real {
    if key in s.enrollments then s.enrollments[key].progress else 0.0
  }

  predicate Resets(step: Step, key: Key) {
    step.Drop? && step.key == key && !step.preserveHistory
  }

  /** One step raises the credit by nothing or by one unit, and by one exactly if it starts a lesson that was
      not in progress, or completes one. */
  lemma StepRaisesByOne(s: Store, step: Step, key: Key)
    requires CoursesOk(s) && !Resets(step, key)
    ensures WorkOf(s, key) <= WorkOf(Apply(s, step), key) <= WorkOf(s, key) + 1
    ensures WorkOf(Apply(s, step), key) == WorkOf(s, key) + 1 <==>
            step.key == key && Refusal(s, step).None?
            && (step.Complete? || (step.Start? && step.lesson !in Begun(s.enrollments[key])))
  {
    hide EnrollmentOk, Started, Finished, Worth, Percentage;
    if step.key == key && Refusal(s, step).None? {
      match step
      case Enroll(_, _) => NewHasNoWork(s.courses[key.courseId].lessons);
      case Drop(_, _) =>
      case Start(_, lesson, now) =>
        StartedCredit(s.enrollments[key], |s.courses[key.courseId].lessons|, lesson, now);
      case Complete(_, lesson, now) =>
        FinishedCredit(s.enrollments[key], |s.courses[key.courseId].lessons|, lesson, now);
    }
  }

  lemma NewHasNoWork(lessons: seq<string>)
    ensures Work(NewEnrollment(lessons)) == 0
  {}

  /** How many of the steps raise the stored progress of `key`. */
  function Raises(s: Store, steps: seq<Step>, key: Key): nat
    requires WellFormed(s)
    decreases |steps|
  {
    if steps == [] then 0
    else
      var r := Apply(s, steps[0]);
      (if ProgressOf(s, key) < ProgressOf(r, key) then 1 else 0) + Raises(r, steps[1..], key)
  }

  lemma ProgressIsWorth(s: Store, key: Key)
    requires CoursesOk(s) && key.courseId in s.courses
    ensures ProgressOf(s, key) == Worth(WorkOf(s, key), |s.courses[key.courseId].lessons|)
    ensures WorkOf(s, key) <= 2 * |s.courses[key.courseId].lessons|
  {
    hide Worth, Work;
    WorthOfAll(|s.courses[key.courseId].lessons|);
    if key in s.enrollments {
      WorkIsWithin(s.enrollments[key], s.courses[key.courseId].lessons);
    }
  }

  lemma WorkIsWithin(e: Enrollment, lessons: seq<string>)
    requires EnrollmentOk(e, lessons) && NoDuplicates(lessons)
    ensures Work(e) <= 2 * |lessons|
  {
    hide Worth, Done, Begun;
    CreditIsWithin(e, lessons);
  }

  lemma WorthIsStrict(work: nat, total: nat)
    ensures 0 < total ==> Worth(work + 1, total) == Worth(work, total) + 50.0 / total as real
    ensures 0 < total ==> Worth(work, total) < Worth(work + 1, total)
  {}

  lemma RaiseIsWork(s: Store, step: Step, key: Key)
    requires CoursesOk(s) && key.courseId in s.courses && !Resets(step, key)
    ensures
      var r := Apply(s, step);
      && ProgressOf(s, key) <= ProgressOf(r, key)
      && WorkOf(r, key) == WorkOf(s, key) + (if ProgressOf(s, key) < ProgressOf(r, key) then 1 else 0)
  {
    hide Worth, Work, EnrollmentOk, CoursesOk, Apply;
    CoursesAreWellFormed(s);
    StepKeepsCourses(s, step);
    StepRaisesByOne(s, step, key);
    ProgressIsWorth(s, key);
    ProgressIsWorth(Apply(s, step), key);
    WorthIsStrict(WorkOf(s, key), |s.courses[key.courseId].lessons|);
  }

  lemma {:induction false} RaisesAreWork(s: Store, steps: seq<Step>, key: Key)
    requires CoursesOk(s) && key.courseId in s.courses
    requires forall i :: 0 <= i < |steps| ==> !Resets(steps[i], key)
    ensures WorkOf(Run(s, steps), key) == WorkOf(s, key) + Raises(s, steps, key)
    decreases |steps|
  {
    hide CoursesOk, Apply, WorkOf, ProgressOf, Resets;
    CoursesAreWellFormed(s);
    if steps != [] {
      RaiseIsWork(s, steps[0], key);
      StepKeepsCourses(s, steps[0]);
      RaisesAreWork(Apply(s, steps[0]), steps[1..], key);
    }
  }

  lemma CoursesAreWellFormed(s: Store)
    requires CoursesOk(s)
    ensures WellFormed(s)
  {}

  /** Until the history of an enrollment is thrown away its progress never falls; every step that raises it
      adds 50 / total, and at most 2 * total steps do. */
  lemma ProgressIsAMeasure(start: Store, before: seq<Step>, after: seq<Step>, key: Key)
    requires WellFormed(start) && start.enrollments == map[] && key.courseId in start.courses
    requires forall i :: 0 <= i < |after| ==> !Resets(after[i], key)
    ensures
      var s, total := Run(start, before), |start.courses[key.courseId].lessons|;
      var r, n := Run(s, after), Raises(s, after, key);
      && n <= 2 * total
      && ProgressOf(s, key) <= ProgressOf(r, key)
      && ProgressOf(r, key) == ProgressOf(s, key) + Worth(n, total)
  {
    hide CoursesOk, EnrollmentOk, Resets, WorkOf, ProgressOf, Worth, Run;
    assert CoursesOk(start) by {
      EmptyIsOk(start);
    }
    RunsKeepCourses(start, before);
    var s := Run(start, before);
    RunsKeepCourses(s, after);
    RaisesAreWork(s, after, key);
    ProgressIsWorth(s, key);
    ProgressIsWorth(Run(s, after), key);
    var total := |start.courses[key.courseId].lessons|;
    WorthIsMonotonic(WorkOf(s, key), WorkOf(Run(s, after), key), total);
    WorthAdds(WorkOf(s, key), Raises(s, after, key), total);
  }

  lemma EmptyIsOk(start: Store)
    requires WellFormed(start) && start.enrollments == map[]
    ensures CoursesOk(start)
  {}

  lemma WorthAdds(a: nat, b: nat, total: nat)
    ensures Worth(a + b, total) == Worth(a, total) + Worth(b, total)
  {}

  // The report

  lemma {:induction false} EveryStatusIsCounted(details: seq<LessonStatus>)
    ensures CountOf(details, LessonStatus.COMPLETED) + CountOf(details, LessonStatus.IN_PROGRESS)
            + CountOf(details, LessonStatus.NOT_STARTED) == |details|
  {
    if details != [] {
      EveryStatusIsCounted(details[1..]);
    }
  }

  lemma CountOfFirst(lessons: seq<string>, rows: map<string, LessonRow>, status: LessonStatus)
    requires lessons != [] && status != NOT_STARTED
    ensures CountOf(Details(lessons, rows), status)
         == CountOf(Details(lessons[1..], rows), status) + if lessons[0] in WithStatus(rows, status) then 1 else 0
  {
    assert Details(lessons, rows)[1..] == Details(lessons[1..], rows);
  }

  lemma SizeOfFirst(have: set<string>, lessons: seq<string>)
    requires NoDuplicates(lessons) && lessons != []
    ensures |have * ToSet(lessons)| == |have * ToSet(lessons[1..])| + if lessons[0] in have then 1 else 0
  {
    var rest := ToSet(lessons[1..]);
    assert ToSet(lessons) == {lessons[0]} + rest && lessons[0] !in rest;
    if lessons[0] in have {
      assert have * ToSet(lessons) == {lessons[0]} + have * rest;
    } else {
      assert have * ToSet(lessons) == have * rest;
    }
  }

  lemma {:induction false} CountIsSize(lessons: seq<string>, rows: map<string, LessonRow>, status: LessonStatus)
    requires NoDuplicates(lessons) && status != NOT_STARTED
    ensures CountOf(Details(lessons, rows), status) == |WithStatus(rows, status) * ToSet(lessons)|
  {
    var have := WithStatus(rows, status);
    if lessons == [] {
      assert have * ToSet(lessons) == {};
    } else {
      hide Details, CountOf, ToSet, WithStatus;
      CountOfFirst(lessons, rows, status);
      SizeOfFirst(have, lessons);
      CountIsSize(lessons[1..], rows, status);
    }
  }

  /** In every reachable state the report's three counts are those of the lesson rows and cover the course, and its
      overall progress is the one its own counts give. */
  lemma ReportAgrees(start: Store, steps: seq<Step>, key: Key)
    requires WellFormed(start) && start.enrollments == map[] && key in Run(start, steps).enrollments
    ensures
      var s := Run(start, steps);
      var e, lessons := s.enrollments[key], s.courses[key.courseId].lessons;
      IsReport(Report(lessons, e), e, lessons)
  {
    hide Report, EnrollmentOk, IsReport;
    RunsKeepCourses(start, steps);
    var s := Run(start, steps);
    ReportOfOk(s.enrollments[key], s.courses[key.courseId].lessons);
  }

  /** The counts of the report are the sizes of the sets of lessons. */
  lemma ReportCounts(e: Enrollment, lessons: seq<string>)
    requires EnrollmentOk(e, lessons) && NoDuplicates(lessons)
    ensures
      var r := Report(lessons, e);
      && r.total == |lessons| && r.completed == |Done(e)| && r.inProgress == |Begun(e)|
      && r.completed + r.inProgress + r.notStarted == r.total && r.overallProgress == e.progress
  {
    hide Worth, CountOf;
    EveryStatusIsCounted(Details(lessons, e.lessons));
    CountIsSize(lessons, e.lessons, LessonStatus.COMPLETED);
    CountIsSize(lessons, e.lessons, LessonStatus.IN_PROGRESS);
    assert Done(e) * ToSet(lessons) == Done(e) && Begun(e) * ToSet(lessons) == Begun(e);
  }

  lemma ReportOfOk(e: Enrollment, lessons: seq<string>)
    requires EnrollmentOk(e, lessons) && NoDuplicates(lessons)
    ensures IsReport(Report(lessons, e), e, lessons)
  {
    hide EnrollmentOk, Report, Done, Begun;
    FactsOf(e, lessons);
    ReportCounts(e, lessons);
    SetsAre(e);
  }

  lemma SetsAre(e: Enrollment)
    ensures Done(e) == set l | l in e.lessons && e.lessons[l].status.COMPLETED?
    ensures Begun(e) == set l | l in e.lessons && e.lessons[l].status.IN_PROGRESS?
  {}

  // Dates

  /** The date a lesson of an enrollment was first started. */
  function StartDate(s: Store, key: Key, lesson: string): Option<int> {
    if key in s.enrollments && lesson in s.enrollments[key].lessons
    then s.enrollments[key].lessons[lesson].startedAt else None
  }

  lemma StepKeepsStartDate(s: Store, step: Step, key: Key, lesson: string)
    requires WellFormed(s) && StartDate(s, key, lesson).Some? && !Resets(step, key)
    ensures StartDate(Apply(s, step), key, lesson) == StartDate(s, key, lesson)
  {
    hide Percentage, WithStatus;
  }

  /** Starting a lesson again, completing it or dropping the course with its history does not move the date it
      was first started. */
  lemma {:induction false} StartDatesStay(s: Store, steps: seq<Step>, key: Key, lesson: string)
    requires WellFormed(s) && StartDate(s, key, lesson).Some?
    requires forall i :: 0 <= i < |steps| ==> !Resets(steps[i], key)
    ensures StartDate(Run(s, steps), key, lesson) == StartDate(s, key, lesson)
    decreases |steps|
  {
    hide Apply, StartDate, Resets;
    if steps != [] {
      StepKeepsStartDate(s, steps[0], key, lesson);
      StartDatesStay(Apply(s, steps[0]), steps[1..], key, lesson);
    }
  }
}
