/** The course service as it is written: an object over the enrollments. Every operation keeps progress, status and
    completion date in agreement with the lesson rows. */
module CourseService {
  import opened Common
  import opened Course
  import opened CourseEffects
  import opened CourseProgress

  lemma RowsAreOk(s: Store, key: Key, lesson: string)
    requires CoursesOk(s) && key in s.enrollments && lesson in s.enrollments[key].lessons
    ensures RowOk(s.enrollments[key].lessons[lesson])
  {}

  class Service {
    const courses: map<string, Course>
    var enrollments: map<Key, Enrollment>

    constructor (courses: map<string, Course>)
      requires WellFormed(Store(courses, map[]))
      ensures Snapshot() == Store(courses, map[]) && CoursesOk(Snapshot())
    {
      this.courses := courses;
      enrollments := map[];
    }

    function Snapshot(): Store
      reads this
    {
      Store(courses, enrollments)
    }

    method EnrollInCourse(key: Key, religion: string) returns (refusal: Option<Error>)
      requires CoursesOk(Snapshot())
      modifies this`enrollments
      ensures refusal
           == if key.courseId !in courses || courses[key.courseId].religion != religion then Some(CourseNotFound)
              else if key in old(enrollments) then Some(AlreadyEnrolled)
              else None
      ensures
        if refusal.Some? then enrollments == old(enrollments)
        else OnlyChanges(old(enrollments), enrollments, key) && IsNew(enrollments[key], courses[key.courseId].lessons)
      ensures Snapshot() == Apply(old(Snapshot()), Enroll(key, religion)) && CoursesOk(Snapshot())
    {
      hide Percentage, WithStatus, CoursesOk, IsNew;
      CoursesAreWellFormed(Snapshot());
      StepKeepsCourses(Snapshot(), Enroll(key, religion));
      if key.courseId !in courses || courses[key.courseId].religion != religion {
        return Some(CourseNotFound);
      }
      if key in enrollments {
        return Some(AlreadyEnrolled);
      }
      var lessons := courses[key.courseId].lessons;
      EnrollIs(lessons);
      enrollments := enrollments[key := Enrollment(ENROLLED, 0.0, None, map l | l in lessons :: UNTOUCHED)];
      refusal := None;
    }

    method DropCourseEnrollment(key: Key, preserveHistory: bool) returns (refusal: Option<Error>)
      requires CoursesOk(Snapshot())
      modifies this`enrollments
      ensures refusal == if key in old(enrollments) then None else Some(EnrollmentNotFound)
      ensures
        if refusal.Some? then enrollments == old(enrollments)
        else
          && OnlyChanges(old(enrollments), enrollments, key)
          && enrollments[key].status.DROPPED? && enrollments[key].completedAt.None?
          && if preserveHistory then
               && enrollments[key].lessons == old(enrollments)[key].lessons
               && enrollments[key].progress == old(enrollments)[key].progress
             else enrollments[key].lessons == map[] && enrollments[key].progress == 0.0
      ensures Snapshot() == Apply(old(Snapshot()), Drop(key, preserveHistory)) && CoursesOk(Snapshot())
    {
      hide Percentage, WithStatus, CoursesOk;
      CoursesAreWellFormed(Snapshot());
      StepKeepsCourses(Snapshot(), Drop(key, preserveHistory));
      if key !in enrollments {
        return Some(EnrollmentNotFound);
      }
      var enrollment := enrollments[key];
      if !preserveHistory {
        enrollment := enrollment.(lessons := map[]);
      }
      enrollment := enrollment.(status := DROPPED, completedAt := None);
      if !preserveHistory {
        enrollment := enrollment.(progress := 0.0);
      }
      enrollments := enrollments[key := enrollment];
      refusal := None;
    }

    method StartLesson(key: Key, lesson: string, now: int) returns (refusal: Option<Error>)
      requires CoursesOk(Snapshot())
      modifies this`enrollments
      ensures refusal
           == if key !in old(enrollments) then Some(EnrollmentNotFound)
              else if lesson !in courses[key.courseId].lessons then Some(LessonNotInCourse)
              else if lesson in old(enrollments)[key].lessons && old(enrollments)[key].lessons[lesson].status.COMPLETED?
              then Some(Error.LessonCompleted)
              else None
      ensures
        if refusal.Some? then enrollments == old(enrollments)
        else
          && OnlyChanges(old(enrollments), enrollments, key)
          && IsStart(old(enrollments)[key], enrollments[key], |courses[key.courseId].lessons|, lesson, now)
      ensures Snapshot() == Apply(old(Snapshot()), Start(key, lesson, now)) && CoursesOk(Snapshot())
    {
      hide Percentage, WithStatus, CoursesOk, IsStart;
      CoursesAreWellFormed(Snapshot());
      StepKeepsCourses(Snapshot(), Start(key, lesson, now));
      if key !in enrollments {
        return Some(EnrollmentNotFound);
      }
      var enrollment, lessons := enrollments[key], courses[key.courseId].lessons;
      if lesson !in lessons {
        return Some(LessonNotInCourse);
      }
      if lesson in enrollment.lessons && enrollment.lessons[lesson].status.COMPLETED? {
        return Some(Error.LessonCompleted);
      }
      var row := LessonRow(LessonStatus.IN_PROGRESS, Some(now), None, Some(now));
      if lesson in enrollment.lessons {
        row := enrollment.lessons[lesson].(status := LessonStatus.IN_PROGRESS, lastAccessedAt := Some(now));
        if row.startedAt.None? {
          row := row.(startedAt := Some(now));
        }
      }
      StartIs(enrollment, |lessons|, lesson, now);
      var rows := enrollment.lessons[lesson := row];
      enrollments := enrollments[key := enrollment.(
        status := EnrollmentStatus.IN_PROGRESS, progress := Percentage(rows, |lessons|), lessons := rows)];
      refusal := None;
    }

    /** `startedAt` of the lesson is read without a check: the invariant says it is there. */
    method CompleteLesson(key: Key, lesson: string, now: int) returns (refusal: Option<Error>, millisSpent: int)
      requires CoursesOk(Snapshot())
      modifies this`enrollments
      ensures refusal
           == if key !in old(enrollments) then Some(EnrollmentNotFound)
              else if lesson !in courses[key.courseId].lessons then Some(LessonNotInCourse)
              else if lesson !in old(enrollments)[key].lessons then Some(LessonNotStarted)
              else if old(enrollments)[key].lessons[lesson].status.NOT_STARTED? then Some(LessonNotStarted)
              else if old(enrollments)[key].lessons[lesson].status.COMPLETED? then Some(Error.LessonCompleted)
              else None
      ensures
        if refusal.Some? then enrollments == old(enrollments)
        else
          && OnlyChanges(old(enrollments), enrollments, key)
          && IsCompletion(old(enrollments)[key], enrollments[key], |courses[key.courseId].lessons|, lesson, now)
      ensures Snapshot() == Apply(old(Snapshot()), Complete(key, lesson, now)) && CoursesOk(Snapshot())
      ensures refusal.None? ==> enrollments[key].lessons[lesson].startedAt == Some(now - millisSpent)
    {
      hide Worth, Percentage, WithStatus, CoursesOk, IsCompletion;
      CoursesAreWellFormed(Snapshot());
      StepKeepsCourses(Snapshot(), Complete(key, lesson, now));
      if key !in enrollments {
        return Some(EnrollmentNotFound), 0;
      }
      var enrollment, lessons := enrollments[key], courses[key.courseId].lessons;
      if lesson !in lessons {
        return Some(LessonNotInCourse), 0;
      }
      if lesson !in enrollment.lessons || enrollment.lessons[lesson].status.NOT_STARTED? {
        return Some(LessonNotStarted), 0;
      }
      var existing := enrollment.lessons[lesson];
      RowsAreOk(Snapshot(), key, lesson);
      if existing.status.COMPLETED? {
        return Some(Error.LessonCompleted), 0;
      }
      CompletionIs(enrollment, |lessons|, lesson, now);
      var rows := enrollment.lessons[lesson := existing.(
        status := LessonStatus.COMPLETED, completedAt := Some(now), lastAccessedAt := Some(now))];
      var allCompleted := |WithStatus(rows, LessonStatus.COMPLETED)| == |lessons|;
      var status := if allCompleted then EnrollmentStatus.COMPLETED else EnrollmentStatus.IN_PROGRESS;
      enrollments := enrollments[key := Enrollment(
        status, Percentage(rows, |lessons|), if allCompleted then Some(now) else None, rows)];
      refusal, millisSpent := None, now - existing.startedAt.value;
    }

    method GetCourseProgress(key: Key) returns (report: Option<Stats>)
      requires CoursesOk(Snapshot())
      ensures report.Some? <==> key in enrollments
      ensures report.Some? ==>
        IsReport(report.value, enrollments[key], courses[key.courseId].lessons)
    {
      if key !in enrollments {
        return None;
      }
      hide EnrollmentOk, IsReport, Report;
      ReportOfOk(enrollments[key], courses[key.courseId].lessons);
      report := Some(Report(courses[key.courseId].lessons, enrollments[key]));
    }
  }
}
