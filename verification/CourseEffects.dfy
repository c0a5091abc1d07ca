/** What each course operation does, column by column, and when it is refused. */
module CourseEffects {
  import opened Common
  import opened Course

  /** The share of the lessons that are completed, and half of those in progress, in percent. */
  ghost predicate IsShare(progress: real, rows: map<string, LessonRow>, total: nat) {
    var completed := set l | l in rows && rows[l].status.COMPLETED?;
    var begun := set l | l in rows && rows[l].status.IN_PROGRESS?;
    progress * total as real == 100.0 * |completed| as real + 50.0 * |begun| as real
  }

  /** A new enrollment has a row without dates for each lesson of the course. */
  ghost predicate IsNew(e: Enrollment, lessons: seq<string>) {
    && e.status.ENROLLED? && e.progress == 0.0 && e.completedAt.None?
    && (forall l :: l in e.lessons <==> l in lessons)
    && forall l :: l in e.lessons ==>
         && e.lessons[l].status.NOT_STARTED? && e.lessons[l].startedAt.None?
         && e.lessons[l].completedAt.None? && e.lessons[l].lastAccessedAt.None?
  }

  /** Dropping keeps rows and progress with the history, and neither without. */
  ghost predicate IsDrop(before: Enrollment, after: Enrollment, preserveHistory: bool) {
    && after.status.DROPPED? && after.completedAt.None?
    && (if preserveHistory then after.lessons == before.lessons && after.progress == before.progress
        else after.lessons == map[] && after.progress == 0.0)
  }

  /** Starting touches the row of the lesson, keeps the date of its first start, and recomputes the progress. */
  ghost predicate IsStart(before: Enrollment, after: Enrollment, total: nat, lesson: string, now: int) {
    && after.status.IN_PROGRESS? && after.completedAt == before.completedAt
    && after.lessons.Keys == before.lessons.Keys + {lesson}
    && (forall l :: l in before.lessons && l != lesson ==> after.lessons[l] == before.lessons[l])
    && IsShare(after.progress, after.lessons, total)
    && var row := after.lessons[lesson];
    && row.status.IN_PROGRESS? && row.lastAccessedAt == Some(now)
    && if lesson in before.lessons then
         && row.completedAt == before.lessons[lesson].completedAt
         && row.startedAt
            == if before.lessons[lesson].startedAt.Some? then before.lessons[lesson].startedAt else Some(now)
       else row.completedAt.None? && row.startedAt == Some(now)
  }

  /** Completing touches the row of the lesson and recomputes progress and status: the course is completed, now, when
      all its lessons are. */
  ghost predicate IsCompletion(before: Enrollment, after: Enrollment, total: nat, lesson: string, now: int) {
    && lesson in before.lessons && after.lessons.Keys == before.lessons.Keys
    && (forall l :: l in before.lessons && l != lesson ==> after.lessons[l] == before.lessons[l])
    && IsShare(after.progress, after.lessons, total)
    && (var row := after.lessons[lesson];
        && row.status.COMPLETED? && row.completedAt == Some(now) && row.lastAccessedAt == Some(now)
        && row.startedAt == before.lessons[lesson].startedAt)
    && var completed := set l | l in after.lessons && after.lessons[l].status.COMPLETED?;
    if |completed| == total then after.status.COMPLETED? && after.completedAt == Some(now)
    else after.status.IN_PROGRESS? && after.completedAt.None?
  }

  /** The report counts the lessons of the course by their rows; one without a row has not been started. */
  ghost predicate IsReport(r: Stats, e: Enrollment, lessons: seq<string>) {
    && r.total == |lessons| && r.completed + r.inProgress + r.notStarted == r.total
    && r.completed == (|set l | l in e.lessons && e.lessons[l].status.COMPLETED?|)
    && r.inProgress == (|set l | l in e.lessons && e.lessons[l].status.IN_PROGRESS?|)
    && r.overallProgress == e.progress
    && r.overallProgress * r.total as real == 100.0 * r.completed as real + 50.0 * r.inProgress as real
  }

  /** No enrollment but that of `key` changes. */
  ghost predicate OnlyChanges(before: map<Key, Enrollment>, after: map<Key, Enrollment>, key: Key) {
    after.Keys == before.Keys + {key} && forall k :: k in before && k != key ==> after[k] == before[k]
  }

  lemma PercentageIsShare(rows: map<string, LessonRow>, total: nat)
    requires 0 < total
    ensures IsShare(Percentage(rows, total), rows, total)
  {
    var completed := set l | l in rows && rows[l].status.COMPLETED?;
    var begun := set l | l in rows && rows[l].status.IN_PROGRESS?;
    assert completed == WithStatus(rows, LessonStatus.COMPLETED) && begun == WithStatus(rows, LessonStatus.IN_PROGRESS);
    CreditTimes(|completed| as real, |begun| as real, total as real);
  }

  lemma CreditTimes(completed: real, begun: real, total: real)
    requires 0.0 < total
    ensures (completed + begun * 0.5) / total * 100.0 * total == 100.0 * completed + 50.0 * begun
  {}

  lemma EnrollIs(lessons: seq<string>)
    ensures IsNew(NewEnrollment(lessons), lessons)
  {}

  lemma DropIs(e: Enrollment, preserveHistory: bool)
    ensures IsDrop(e, Dropped(e, preserveHistory), preserveHistory)
  {}

  lemma StartIs(e: Enrollment, total: nat, lesson: string, now: int)
    requires 0 < total
    ensures IsStart(e, Started(e, total, lesson, now), total, lesson, now)
  {
    hide Percentage, IsShare;
    PercentageIsShare(Started(e, total, lesson, now).lessons, total);
  }

  lemma CompletionIs(e: Enrollment, total: nat, lesson: string, now: int)
    requires 0 < total && lesson in e.lessons
    ensures IsCompletion(e, Finished(e, total, lesson, now), total, lesson, now)
  {
    hide Percentage, IsShare;
    var r := Finished(e, total, lesson, now);
    PercentageIsShare(r.lessons, total);
    assert WithStatus(r.lessons, LessonStatus.COMPLETED) == set l | l in r.lessons && r.lessons[l].status.COMPLETED?;
  }
}
