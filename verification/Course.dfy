/** Course enrollments: the rows and the operations on them, one at a time. */
module Course {
  import opened Common

  datatype LessonStatus = NOT_STARTED | IN_PROGRESS | COMPLETED

  datatype LessonRow = LessonRow(
    status: LessonStatus, startedAt: Option<int>, completedAt: Option<int>, lastAccessedAt: Option<int>)

  datatype EnrollmentStatus = ENROLLED | IN_PROGRESS | COMPLETED | DROPPED

  datatype Enrollment = Enrollment(
    status: EnrollmentStatus, progress: real, completedAt: Option<int>, lessons: map<string, LessonRow>)

  /** A course; its lessons do not change. */
  datatype Course = Course(religion: string, lessons: seq<string>)

  datatype Key = Key(userId: string, courseId: string)

  datatype Store = Store(courses: map<string, Course>, enrollments: map<Key, Enrollment>)

  datatype Error =
    | CourseNotFound | AlreadyEnrolled | EnrollmentNotFound | LessonNotInCourse | LessonNotStarted | LessonCompleted

  datatype Step =
    | Enroll(key: Key, religion: string)
    | Drop(key: Key, preserveHistory: bool)
    | Start(key: Key, lesson: string, now: int)
    | Complete(key: Key, lesson: string, now: int)

  /** Enrollments are of existing courses, and a course has each of its lessons once. */
  ghost predicate WellFormed(s: Store) {
    && (forall c :: c in s.courses ==> NoDuplicates(s.courses[c].lessons))
    && forall k :: k in s.enrollments ==> k.courseId in s.courses
  }

  function WithStatus(rows: map<string, LessonRow>, status: LessonStatus): set<string> {
    set l | l in rows && rows[l].status == status
  }

  /** Lessons completed, and half credit for those in progress, in percent. */
  function Credit(completed: nat, inProgress: nat, total: nat): real
    requires 0 < total
  {
    (completed as real + inProgress as real * 0.5) / total as real * 100.0
  }

  /** The progress the rows of an enrollment give. */
  function Percentage(rows: map<string, LessonRow>, total: nat): real
    requires 0 < total
  {
    Credit(|WithStatus(rows, LessonStatus.COMPLETED)|, |WithStatus(rows, LessonStatus.IN_PROGRESS)|, total)
  }

  const UNTOUCHED := LessonRow(NOT_STARTED, None, None, None)

  function NewEnrollment(lessons: seq<string>): Enrollment {
    Enrollment(ENROLLED, 0.0, None, map l | l in lessons :: UNTOUCHED)
  }

  /** `dropCourseEnrollment` */
  function Dropped(e: Enrollment, preserveHistory: bool): Enrollment {
    if preserveHistory then e.(status := DROPPED, completedAt := None)
    else Enrollment(DROPPED, 0.0, None, map[])
  }

  function StartedRow(rows: map<string, LessonRow>, lesson: string, now: int): LessonRow {
    if lesson in rows then
      var row := rows[lesson];
      row.(status := LessonStatus.IN_PROGRESS,
           startedAt := if row.startedAt.Some? then row.startedAt else Some(now), lastAccessedAt := Some(now))
    else LessonRow(LessonStatus.IN_PROGRESS, Some(now), None, Some(now))
  }

  /** The transaction of `startLesson`. It leaves the enrollment's `completedAt` alone. */
  function Started(e: Enrollment, total: nat, lesson: string, now: int): Enrollment
    requires 0 < total
  {
    var rows := e.lessons[lesson := StartedRow(e.lessons, lesson, now)];
    e.(status := EnrollmentStatus.IN_PROGRESS, progress := Percentage(rows, total), lessons := rows)
  }

  /** The transaction of `completeLesson`. */
  function Finished(e: Enrollment, total: nat, lesson: string, now: int): Enrollment
    requires 0 < total && lesson in e.lessons
  {
    var rows := e.lessons[lesson := e.lessons[lesson].(
      status := LessonStatus.COMPLETED, completedAt := Some(now), lastAccessedAt := Some(now))];
    if |WithStatus(rows, LessonStatus.COMPLETED)| == total
    then Enrollment(EnrollmentStatus.COMPLETED, Percentage(rows, total), Some(now), rows)
    else Enrollment(EnrollmentStatus.IN_PROGRESS, Percentage(rows, total), None, rows)
  }

  /** A lesson without a row has not been started. */
  function StatusOf(e: Enrollment, lesson: string): LessonStatus {
    if lesson in e.lessons then e.lessons[lesson].status else NOT_STARTED
  }

  /** Why a step is refused, if it is. */
  function Refusal(s: Store, step: Step): Option<Error>
    requires WellFormed(s)
  {
    match step
    case Enroll(key, religion) =>
      if key.courseId !in s.courses || s.courses[key.courseId].religion != religion then Some(CourseNotFound)
      else if key in s.enrollments then Some(AlreadyEnrolled)
      else None
    case Drop(key, _) => if key in s.enrollments then None else Some(EnrollmentNotFound)
    case Start(key, lesson, _) =>
      if key !in s.enrollments then Some(EnrollmentNotFound)
      else if lesson !in s.courses[key.courseId].lessons then Some(LessonNotInCourse)
      else if StatusOf(s.enrollments[key], lesson).COMPLETED? then Some(LessonCompleted)
      else None
    case Complete(key, lesson, _) =>
      if key !in s.enrollments then Some(EnrollmentNotFound)
      else if lesson !in s.courses[key.courseId].lessons then Some(LessonNotInCourse)
      else if StatusOf(s.enrollments[key], lesson).NOT_STARTED? then Some(LessonNotStarted)
      else if StatusOf(s.enrollments[key], lesson).COMPLETED? then Some(LessonCompleted)
      else None
  }

  /** The enrollment a step that is not refused leaves. */
  function After(s: Store, step: Step): Enrollment
    requires WellFormed(s) && Refusal(s, step).None?
  {
    var lessons := s.courses[step.key.courseId].lessons;
    match step
    case Enroll(key, _) => NewEnrollment(lessons)
    case Drop(key, preserveHistory) => Dropped(s.enrollments[key], preserveHistory)
    case Start(key, lesson, now) => Started(s.enrollments[key], |lessons|, lesson, now)
    case Complete(key, lesson, now) => Finished(s.enrollments[key], |lessons|, lesson, now)
  }

  function Apply(s: Store, step: Step): (r: Store)
    requires WellFormed(s)
    ensures WellFormed(r) && r.courses == s.courses
  {
    if Refusal(s, step).Some? then s else s.(enrollments := s.enrollments[step.key := After(s, step)])
  }

  function Run(s: Store, steps: seq<Step>): (r: Store)
    requires WellFormed(s)
    ensures WellFormed(r) && r.courses == s.courses
    decreases |steps|
  {
    if steps == [] then s else Run(Apply(s, steps[0]), steps[1..])
  }

  // `getCourseProgress`

  datatype Stats = Stats(total: nat, completed: nat, inProgress: nat, notStarted: nat, overallProgress: real)

  /** The status of every lesson of the course, in its order. */
  function Details(lessons: seq<string>, rows: map<string, LessonRow>): seq<LessonStatus> {
    seq(|lessons|, i requires 0 <= i < |lessons| =>
      if lessons[i] in rows then rows[lessons[i]].status else NOT_STARTED)
  }

  function CountOf(details: seq<LessonStatus>, status: LessonStatus): nat {
    |Filter(details, (d: LessonStatus) => d == status)|
  }

  function Report(lessons: seq<string>, e: Enrollment): Stats {
    var details := Details(lessons, e.lessons);
    Stats(|lessons|,
          CountOf(details, LessonStatus.COMPLETED),
          CountOf(details, LessonStatus.IN_PROGRESS),
          CountOf(details, LessonStatus.NOT_STARTED),
          e.progress)
  }
}
