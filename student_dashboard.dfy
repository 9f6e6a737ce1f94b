/** What a signed-in student sees (screens/student/StudentDashboard.tsx): the
    own results, the exams available now, and the names shown beside them. */
module StudentDashboard {
  import opened Common
  import opened Types

  // ---------------------------------------------------------------------------
  // Time

  /** `new Date` reads a year from 0 to 99 as 1900 onwards. */
  function FullYear(y: int): int {
    if 0 <= y <= 99 then 1900 + y else y
  }

  /** `new Date(year, month - 1, day, hour, minute)` as a millisecond count on
      a calendar scale (months of 31 days, no time zone). For fields in their
      usual ranges this orders instants as the calendar does; it does not
      normalise out-of-range fields the way `Date` does. */
  function CalendarMs(year: int, month: int, day: int, hour: int, minute: int): int {
    ((((FullYear(year) * 12 + (month - 1)) * 31 + (day - 1)) * 24 + hour) * 60 + minute) * 60000
  }

  /** On the same day an earlier clock time is an earlier instant. */
  lemma EarlierClockIsEarlier(year: int, month: int, day: int, h1: int, m1: int, h2: int, m2: int)
    requires 0 <= m1 < 60 && 0 <= m2 < 60
    requires h1 < h2 || (h1 == h2 && m1 < m2)
    ensures CalendarMs(year, month, day, h1, m1) < CalendarMs(year, month, day, h2, m2)
  {
    var x := ((FullYear(year) * 12 + (month - 1)) * 31 + (day - 1)) * 24;
    if h1 < h2 {
      assert (x + h1) * 60 + m1 < (x + h1) * 60 + 60 <= (x + h2) * 60 <= (x + h2) * 60 + m2;
    }
  }

  /** Date `y-m-d` and time `h:m` as the dashboard reads them; `None` stands
      for an invalid date (a component that is missing or not a number). */
  function DateTime(tanggal: string, jam: string): Option<int> {
    var d := Split(tanggal, '-');
    var t := Split(jam, ':');
    if |d| < 3 || |t| < 2 then None
    else
      var y, mo, day, h, mi := JsNumber(d[0]), JsNumber(d[1]), JsNumber(d[2]), JsNumber(t[0]), JsNumber(t[1]);
      if y.Some? && mo.Some? && day.Some? && h.Some? && mi.Some? then
        Some(CalendarMs(y.value, mo.value, day.value, h.value, mi.value))
      else None
  }

  lemma JoinThree(a: string, b: string, c: string, sep: char)
    ensures Join([a, b, c], sep) == a + [sep] + b + [sep] + c
  {
    assert [a, b, c][1..] == [b, c] && [b, c][1..] == [c];
    assert Join([b, c], sep) == b + [sep] + c;
  }

  lemma JoinTwo(a: string, b: string, sep: char)
    ensures Join([a, b], sep) == a + [sep] + b
  {
    assert [a, b][1..] == [b];
  }

  lemma NoSeparatorInDigits(s: string, sep: char)
    requires AllDigits(s) && !IsDigit(sep)
    ensures sep !in s
  {
    forall k | 0 <= k < |s| ensures s[k] != sep {
      assert IsDigit(s[k]);
    }
  }

  /** The pieces of a date and of a time of digits. */
  lemma SplitDigits(ys: string, ms: string, ds: string, hs: string, mins: string)
    requires AllDigits(ys) && AllDigits(ms) && AllDigits(ds) && AllDigits(hs) && AllDigits(mins)
    ensures Split(ys + "-" + ms + "-" + ds, '-') == [ys, ms, ds]
    ensures Split(hs + ":" + mins, ':') == [hs, mins]
  {
    NoSeparatorInDigits(ys, '-');
    NoSeparatorInDigits(ms, '-');
    NoSeparatorInDigits(ds, '-');
    NoSeparatorInDigits(hs, ':');
    NoSeparatorInDigits(mins, ':');
    JoinThree(ys, ms, ds, '-');
    JoinTwo(hs, mins, ':');
    SplitJoin([ys, ms, ds], '-');
    SplitJoin([hs, mins], ':');
  }

  /** The date and time strings the form's date and time inputs produce read
      back as the instant they name. */
  lemma DateTimeOfDigits(ys: string, ms: string, ds: string, hs: string, mins: string)
    requires ys != [] && ms != [] && ds != [] && hs != [] && mins != []
    requires AllDigits(ys) && AllDigits(ms) && AllDigits(ds) && AllDigits(hs) && AllDigits(mins)
    ensures DateTime(ys + "-" + ms + "-" + ds, hs + ":" + mins)
            == Some(CalendarMs(DecimalValue(ys), DecimalValue(ms), DecimalValue(ds), DecimalValue(hs), DecimalValue(mins)))
  {
    SplitDigits(ys, ms, ds, hs, mins);
    DateTimeOfSplit(ys + "-" + ms + "-" + ds, hs + ":" + mins, ys, ms, ds, hs, mins);
  }

  lemma DateTimeOfSplit(tanggal: string, jam: string, ys: string, ms: string, ds: string, hs: string, mins: string)
    requires Split(tanggal, '-') == [ys, ms, ds] && Split(jam, ':') == [hs, mins]
    requires ys != [] && ms != [] && ds != [] && hs != [] && mins != []
    requires AllDigits(ys) && AllDigits(ms) && AllDigits(ds) && AllDigits(hs) && AllDigits(mins)
    ensures DateTime(tanggal, jam)
            == Some(CalendarMs(DecimalValue(ys), DecimalValue(ms), DecimalValue(ds), DecimalValue(hs), DecimalValue(mins)))
  {
    DigitsAreNumber(ys);
    DigitsAreNumber(ms);
    DigitsAreNumber(ds);
    DigitsAreNumber(hs);
    DigitsAreNumber(mins);
    DateTimeOfParts(tanggal, jam, ys, ms, ds, hs, mins,
                    DecimalValue(ys), DecimalValue(ms), DecimalValue(ds), DecimalValue(hs), DecimalValue(mins));
  }

  lemma DigitsAreNumber(s: string)
    requires s != [] && AllDigits(s)
    ensures JsNumber(s) == Some(DecimalValue(s))
  {
  }

  lemma DateTimeOfParts(tanggal: string, jam: string, ys: string, ms: string, ds: string, hs: string, mins: string,
                        y: int, mo: int, d: int, h: int, mi: int)
    requires Split(tanggal, '-') == [ys, ms, ds] && Split(jam, ':') == [hs, mins]
    requires JsNumber(ys) == Some(y) && JsNumber(ms) == Some(mo) && JsNumber(ds) == Some(d)
    requires JsNumber(hs) == Some(h) && JsNumber(mins) == Some(mi)
    ensures DateTime(tanggal, jam) == Some(CalendarMs(y, mo, d, h, mi))
  {
  }

  /** `now >= startTime && now <= endTime`: both ends included; an invalid
      date compares false. */
  predicate InWindow(exam: JadwalUjian, now: int) {
    var start := DateTime(exam.tanggal, exam.jamMulai);
    var end := DateTime(exam.tanggal, exam.jamSelesai);
    start.Some? && end.Some? && start.value <= now <= end.value
  }

  // ---------------------------------------------------------------------------
  // Lists

  function StudentById(userId: string): Siswa -> bool {
    (s: Siswa) => s.id == userId
  }

  function ResultOf(userId: string): HasilUjian -> bool {
    (r: HasilUjian) => r.siswaId == userId
  }

  /** `studentResults`: the user's own results, in stored order. */
  function StudentResults(results: seq<HasilUjian>, userId: string): (r: seq<HasilUjian>)
    ensures forall h :: h in r <==> h in results && h.siswaId == userId
    ensures IsSubsequence(r, results)
  {
    FilterIsSubsequence(results, ResultOf(userId));
    Filter(results, ResultOf(userId))
  }

  /** The student has a result for the schedule. */
  predicate Taken(results: seq<HasilUjian>, userId: string, jadwalId: string) {
    exists k :: 0 <= k < |results| && results[k].siswaId == userId && results[k].jadwalId == jadwalId
  }

  /** The rule an exam must pass to be listed. */
  predicate Eligible(exam: JadwalUjian, student: Siswa, results: seq<HasilUjian>, userId: string, now: int) {
    exam.kelasId == student.kelasId && !Taken(results, userId, exam.id) && InWindow(exam, now)
  }

  /** The filter callback of `availableExams`, over the user's own results. */
  function AvailabilityTest(student: Siswa, studentResults: seq<HasilUjian>, now: int): JadwalUjian -> bool {
    (s: JadwalUjian) =>
      s.kelasId == student.kelasId &&
      !(exists k :: 0 <= k < |studentResults| && studentResults[k].jadwalId == s.id) &&
      InWindow(s, now)
  }

  lemma AvailabilityTestIsEligible(student: Siswa, results: seq<HasilUjian>, userId: string, now: int, exam: JadwalUjian)
    ensures AvailabilityTest(student, StudentResults(results, userId), now)(exam)
            <==> Eligible(exam, student, results, userId, now)
  {
    TakenIffOwnResult(results, userId, exam.id);
  }

  /** An exam is taken exactly when one of the user's own results names it. */
  lemma TakenIffOwnResult(results: seq<HasilUjian>, userId: string, jadwalId: string)
    ensures var sr := StudentResults(results, userId);
            Taken(results, userId, jadwalId) <==> exists j :: 0 <= j < |sr| && sr[j].jadwalId == jadwalId
  {
    var sr := StudentResults(results, userId);
    if Taken(results, userId, jadwalId) {
      var k :| 0 <= k < |results| && results[k].siswaId == userId && results[k].jadwalId == jadwalId;
      var h := results[k];
      assert h in results;
      assert h in sr;
      var j :| 0 <= j < |sr| && sr[j] == h;
      assert sr[j].jadwalId == jadwalId;
    }
    if exists j :: 0 <= j < |sr| && sr[j].jadwalId == jadwalId {
      var j :| 0 <= j < |sr| && sr[j].jadwalId == jadwalId;
      var h := sr[j];
      assert h in sr;
      assert h in results && h.siswaId == userId;
      var k :| 0 <= k < |results| && results[k] == h;
      assert results[k].siswaId == userId && results[k].jadwalId == jadwalId;
    }
  }

  /** `availableExams`: nothing without the user's student record; otherwise
      exactly the schedules of the student's class not yet taken whose window
      contains `now`, in stored order. */
  function AvailableExams(userId: string, students: seq<Siswa>, schedules: seq<JadwalUjian>, results: seq<HasilUjian>, now: int)
    : (r: seq<JadwalUjian>)
    ensures Find(students, StudentById(userId)).None? ==> r == []
    ensures Find(students, StudentById(userId)).Some? ==>
              var student := Find(students, StudentById(userId)).value;
              (forall e :: e in r <==> e in schedules && Eligible(e, student, results, userId, now))
    ensures IsSubsequence(r, schedules)
  {
    match Find(students, StudentById(userId))
    case None =>
      EmptyIsSubsequence(schedules);
      []
    case Some(student) =>
      var test := AvailabilityTest(student, StudentResults(results, userId), now);
      var r := Filter(schedules, test);
      FilterIsSubsequence(schedules, test);
      forall e ensures test(e) <==> Eligible(e, student, results, userId, now) {
        AvailabilityTestIsEligible(student, results, userId, now, e);
      }
      r
  }

  // ---------------------------------------------------------------------------
  // Names shown

  function SubjectById(id: string): MataPelajaran -> bool {
    (m: MataPelajaran) => m.id == id
  }

  function ScheduleById(id: string): JadwalUjian -> bool {
    (j: JadwalUjian) => j.id == id
  }

  /** `getExamDetails`: the subject's name, or "N/A" when it is missing or empty. */
  function ExamSubjectName(exam: JadwalUjian, subjects: seq<MataPelajaran>): (name: string)
    ensures Find(subjects, SubjectById(exam.mapelId)).None? ==> name == "N/A"
    ensures Find(subjects, SubjectById(exam.mapelId)).Some? ==>
              var m := Find(subjects, SubjectById(exam.mapelId)).value;
              name == (if m.nama != "" then m.nama else "N/A")
  {
    match Find(subjects, SubjectById(exam.mapelId))
    case Some(m) => if m.nama != "" then m.nama else "N/A"
    case None => "N/A"
  }

  /** `getResultDetails`: exam and subject names, with "Ujian Dihapus" and
      "Mapel Dihapus" for a schedule or subject that no longer exists; a
      missing schedule also loses the subject. */
  function ResultDetails(result: HasilUjian, schedules: seq<JadwalUjian>, subjects: seq<MataPelajaran>)
    : (names: (string, string))
    ensures Find(schedules, ScheduleById(result.jadwalId)).None? ==> names == ("Ujian Dihapus", "Mapel Dihapus")
    ensures Find(schedules, ScheduleById(result.jadwalId)).Some? ==>
              var j := Find(schedules, ScheduleById(result.jadwalId)).value;
              && names.0 == (if j.nama != "" then j.nama else "Ujian Dihapus")
              && (Find(subjects, SubjectById(j.mapelId)).None? ==> names.1 == "Mapel Dihapus")
              && (Find(subjects, SubjectById(j.mapelId)).Some? ==>
                    var m := Find(subjects, SubjectById(j.mapelId)).value;
                    names.1 == (if m.nama != "" then m.nama else "Mapel Dihapus"))
  {
    match Find(schedules, ScheduleById(result.jadwalId))
    case None => ("Ujian Dihapus", "Mapel Dihapus")
    case Some(j) =>
      var examName := if j.nama != "" then j.nama else "Ujian Dihapus";
      match Find(subjects, SubjectById(j.mapelId))
      case None => (examName, "Mapel Dihapus")
      case Some(m) => (examName, if m.nama != "" then m.nama else "Mapel Dihapus")
  }
}
