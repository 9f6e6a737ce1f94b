/** The results screen (screens/admin/HasilUjian.tsx): the results listed
    under a subject filter and a class filter, and the reset that deletes a
    result so that the student may take the exam again. */
module HasilUjianScreen {
  import opened Common
  import opened Types
  import App
  import StudentDashboard

  /** The filter callback of `filteredResults`: the result's schedule and
      student must both exist, and an empty filter matches everything. */
  function Shown(schedules: seq<JadwalUjian>, students: seq<Siswa>, filterSubject: string, filterClass: string)
    : HasilUjian -> bool
  {
    (h: HasilUjian) =>
      var schedule := Find(schedules, StudentDashboard.ScheduleById(h.jadwalId));
      var student := Find(students, StudentDashboard.StudentById(h.siswaId));
      && schedule.Some? && student.Some?
      && (filterSubject == "" || schedule.value.mapelId == filterSubject)
      && (filterClass == "" || student.value.kelasId == filterClass)
  }

  /** The rule in words: the first schedule with the result's id and the
      first student with its student id exist and pass the filters. */
  predicate Listed(h: HasilUjian, schedules: seq<JadwalUjian>, students: seq<Siswa>, filterSubject: string, filterClass: string) {
    && (exists j :: j in schedules && j.id == h.jadwalId)
    && (exists s :: s in students && s.id == h.siswaId)
    && (filterSubject == "" || Find(schedules, StudentDashboard.ScheduleById(h.jadwalId)).value.mapelId == filterSubject)
    && (filterClass == "" || Find(students, StudentDashboard.StudentById(h.siswaId)).value.kelasId == filterClass)
  }

  lemma ShownIsListed(schedules: seq<JadwalUjian>, students: seq<Siswa>, filterSubject: string, filterClass: string, h: HasilUjian)
    ensures Shown(schedules, students, filterSubject, filterClass)(h) <==> Listed(h, schedules, students, filterSubject, filterClass)
  {
    var schedule := Find(schedules, StudentDashboard.ScheduleById(h.jadwalId));
    var student := Find(students, StudentDashboard.StudentById(h.siswaId));
    if exists j :: j in schedules && j.id == h.jadwalId {
      var j :| j in schedules && j.id == h.jadwalId;
      var k :| 0 <= k < |schedules| && schedules[k] == j;
      assert StudentDashboard.ScheduleById(h.jadwalId)(schedules[k]);
    }
    if exists s :: s in students && s.id == h.siswaId {
      var s :| s in students && s.id == h.siswaId;
      var k :| 0 <= k < |students| && students[k] == s;
      assert StudentDashboard.StudentById(h.siswaId)(students[k]);
    }
  }

  /** `filteredResults`: exactly the listed results, in stored order. */
  function FilteredResults(results: seq<HasilUjian>, schedules: seq<JadwalUjian>, students: seq<Siswa>,
                           filterSubject: string, filterClass: string): (r: seq<HasilUjian>)
    ensures forall h :: h in r <==> h in results && Listed(h, schedules, students, filterSubject, filterClass)
    ensures IsSubsequence(r, results)
  {
    var test := Shown(schedules, students, filterSubject, filterClass);
    forall h ensures test(h) <==> Listed(h, schedules, students, filterSubject, filterClass) {
      ShownIsListed(schedules, students, filterSubject, filterClass, h);
    }
    FilterIsSubsequence(results, test);
    Filter(results, test)
  }

  /** Setting either filter never lists more: the filtered list is a
      subsequence of the one with that filter cleared. */
  lemma SettingAFilterNarrows(results: seq<HasilUjian>, schedules: seq<JadwalUjian>, students: seq<Siswa>,
                              filterSubject: string, filterClass: string)
    ensures IsSubsequence(FilteredResults(results, schedules, students, filterSubject, filterClass),
                          FilteredResults(results, schedules, students, "", filterClass))
    ensures IsSubsequence(FilteredResults(results, schedules, students, filterSubject, filterClass),
                          FilteredResults(results, schedules, students, filterSubject, ""))
  {
    var p := Shown(schedules, students, filterSubject, filterClass);
    FilterMonotone(results, p, Shown(schedules, students, "", filterClass));
    FilterMonotone(results, p, Shown(schedules, students, filterSubject, ""));
  }

  /** The reset button: deletes the result by id when the dialog is confirmed. */
  method ResetResult(store: App.Store, resultId: string, confirmed: bool)
    modifies store`results
    ensures confirmed ==> store.results == App.DeleteAction(old(store.results), resultId, (h: HasilUjian) => h.id)
    ensures !confirmed ==> store.results == old(store.results)
  {
    if confirmed {
      store.DeleteResult(resultId);
    }
  }

  /** Deleting the student's only result for a schedule makes the schedule
      untaken again, so that it is listed for the student once more whenever
      its class and time window allow. */
  lemma ResetReopensExam(results: seq<HasilUjian>, resultId: string, student: Siswa, userId: string,
                         exam: JadwalUjian, now: int)
    requires forall k :: 0 <= k < |results| && results[k].siswaId == userId && results[k].jadwalId == exam.id ==>
               results[k].id == resultId
    ensures var after := App.DeleteAction(results, resultId, (h: HasilUjian) => h.id);
            !StudentDashboard.Taken(after, userId, exam.id) &&
            (StudentDashboard.Eligible(exam, student, after, userId, now) <==>
               exam.kelasId == student.kelasId && StudentDashboard.InWindow(exam, now))
  {
    var after := App.DeleteAction(results, resultId, (h: HasilUjian) => h.id);
    forall k | 0 <= k < |after|
      ensures !(after[k].siswaId == userId && after[k].jadwalId == exam.id)
    {
      assert after[k] in results && after[k].id != resultId;
      var i :| 0 <= i < |results| && results[i] == after[k];
    }
  }
}
