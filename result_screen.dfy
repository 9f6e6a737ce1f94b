/** The screen after an exam (screens/student/ResultScreen.tsx): the score
    block when scores are published, the correct-answer line when the
    result has multiple-choice details, and an announcement otherwise. */
module ResultScreen {
  import opened Common
  import opened Types
  import StudentDashboard
  import ExamScreen

  /** `const { benar = 0, totalSoalPg = 0 } = result.detailNilai || {}`. */
  function Details(d: Option<DetailNilai>): (bt: (int, int))
    ensures d.None? ==> bt == (0, 0)
    ensures d.Some? ==> bt == (d.value.benar, d.value.totalSoalPg)
  {
    match d
    case None => (0, 0)
    case Some(n) => (n.benar, n.totalSoalPg)
  }

  /** `hasDetails`: details are present and count at least one question. */
  predicate HasDetails(result: HasilUjian) {
    result.detailNilai.Some? && Details(result.detailNilai).1 > 0
  }

  /** What the screen shows besides the heading and the back button. */
  datatype ResultView =
    | ScoreBlock(examName: Option<string>, nilai: real, subjectName: Option<string>, correctLine: Option<(int, int)>)
    | Announcement(examName: Option<string>)

  /** The schedule of the result, and its subject; with no schedule the
      subject lookup compares ids with `undefined` and finds none. */
  function ResultSubject(result: HasilUjian, schedules: seq<JadwalUjian>, subjects: seq<MataPelajaran>): (m: Option<MataPelajaran>)
    ensures Find(schedules, StudentDashboard.ScheduleById(result.jadwalId)).None? ==> m.None?
    ensures var j := Find(schedules, StudentDashboard.ScheduleById(result.jadwalId));
            j.Some? ==> (m.Some? <==> exists s :: s in subjects && s.id == j.value.mapelId)
    ensures var j := Find(schedules, StudentDashboard.ScheduleById(result.jadwalId));
            m.Some? ==> j.Some? && m.value.id == j.value.mapelId &&
                        exists i :: 0 <= i < |subjects| && subjects[i] == m.value &&
                                    forall k :: 0 <= k < i ==> subjects[k].id != j.value.mapelId
  {
    match Find(schedules, StudentDashboard.ScheduleById(result.jadwalId))
    case None => None
    case Some(j) =>
      var m := Find(subjects, StudentDashboard.SubjectById(j.mapelId));
      FirstSubject(subjects, j.mapelId);
      m
  }

  /** The subject lookup finds a subject exactly when one carries the id, and
      then the first that does. */
  lemma FirstSubject(subjects: seq<MataPelajaran>, id: string)
    ensures var m := Find(subjects, StudentDashboard.SubjectById(id));
            && (m.Some? <==> exists s :: s in subjects && s.id == id)
            && (m.Some? ==> m.value.id == id &&
                            exists i :: 0 <= i < |subjects| && subjects[i] == m.value &&
                                        forall k :: 0 <= k < i ==> subjects[k].id != id)
  {
    var p := StudentDashboard.SubjectById(id);
    var m := Find(subjects, p);
    if exists s :: s in subjects && s.id == id {
      var s :| s in subjects && s.id == id;
      var k :| 0 <= k < |subjects| && subjects[k] == s;
      assert p(subjects[k]);
    }
    if m.Some? {
      var i := FindIndex(subjects, p);
      forall k | 0 <= k < i ensures subjects[k].id != id {
        assert !p(subjects[k]);
      }
    }
  }

  function Render(result: HasilUjian, schedules: seq<JadwalUjian>, subjects: seq<MataPelajaran>, showScores: bool)
    : (v: ResultView)
    ensures v.ScoreBlock? <==> showScores
    ensures v.ScoreBlock? ==> v.nilai == result.nilai
    ensures var m := ResultSubject(result, schedules, subjects);
            v.ScoreBlock? ==> v.subjectName == (if m.Some? then Some(m.value.nama) else None)
    ensures v.ScoreBlock? ==> (v.correctLine.Some? <==> HasDetails(result))
    ensures v.ScoreBlock? && v.correctLine.Some? ==>
              v.correctLine.value == (result.detailNilai.value.benar, result.detailNilai.value.totalSoalPg)
    ensures var j := Find(schedules, StudentDashboard.ScheduleById(result.jadwalId));
            v.examName == (if j.Some? then Some(j.value.nama) else None)
  {
    var schedule := Find(schedules, StudentDashboard.ScheduleById(result.jadwalId));
    var examName := if schedule.Some? then Some(schedule.value.nama) else None;
    if showScores then
      var subject := ResultSubject(result, schedules, subjects);
      ScoreBlock(
        examName, result.nilai,
        if subject.Some? then Some(subject.value.nama) else None,
        if HasDetails(result) then Some(Details(result.detailNilai)) else None)
    else
      Announcement(examName)
  }

  /** A result whose score is its correct count as a percentage of its
      multiple-choice total shows that relation on screen. */
  lemma ScoredResultLine(result: HasilUjian, schedules: seq<JadwalUjian>, subjects: seq<MataPelajaran>, showScores: bool)
    requires result.detailNilai.Some? && result.detailNilai.value.benar >= 0 && result.detailNilai.value.totalSoalPg >= 0
    requires result.nilai == ExamScreen.ScorePercent(result.detailNilai.value.benar, result.detailNilai.value.totalSoalPg)
    ensures var v := Render(result, schedules, subjects, showScores);
            && (v.ScoreBlock? && v.correctLine.Some? <==> showScores && result.detailNilai.value.totalSoalPg > 0)
            && (v.ScoreBlock? && v.correctLine.Some? ==>
                  v.nilai * (v.correctLine.value.1 as real) == (v.correctLine.value.0 as real) * 100.0)
  {
  }

  /** A result as the exam screen grades it shows its correct-answer line
      exactly when scores are published and the exam had a multiple-choice
      question; the line shows the correct count over the multiple-choice
      total, and the score beside it is that count as a percentage. */
  lemma GradedResultLine(exam: JadwalUjian, studentId: string, questions: seq<Soal>, answers: seq<JawabanSiswa>,
                         now: string, id: string, schedules: seq<JadwalUjian>, subjects: seq<MataPelajaran>, showScores: bool)
    ensures var result := WithId(ExamScreen.Grade(exam, studentId, questions, answers, now), id);
            var v := Render(result, schedules, subjects, showScores);
            && (v.ScoreBlock? && v.correctLine.Some? <==> showScores && |ExamScreen.McQuestions(questions)| > 0)
            && (v.ScoreBlock? && v.correctLine.Some? ==>
                  && v.correctLine.value == (ExamScreen.CorrectCount(ExamScreen.McQuestions(questions), answers),
                                             |ExamScreen.McQuestions(questions)|)
                  && v.nilai == ExamScreen.ScorePercent(v.correctLine.value.0, v.correctLine.value.1))
  {
    var s := ExamScreen.Grade(exam, studentId, questions, answers, now);
    var result := WithId(s, id);
    assert result.detailNilai == s.detailNilai && result.nilai == s.nilai;
    assert result.detailNilai.value.totalSoalPg == |ExamScreen.McQuestions(questions)|;
    ScoredResultLine(result, schedules, subjects, showScores);
  }
}
