/** The application shell (App.tsx): the shared store of lists with its
    generic add and delete actions, and the view state that decides which
    screen is shown. */
module App {
  import opened Common
  import opened Types

  // ---------------------------------------------------------------------------
  // createAction / deleteAction

  /** `setter(prev => [...prev, { ...item, id }])`: the caller has already put
      the fresh id into `item`. */
  function CreateAction<T>(prev: seq<T>, item: T): (r: seq<T>)
    ensures |r| == |prev| + 1 && r[..|prev|] == prev && r[|prev|] == item
  {
    prev + [item]
  }

  /** `setter(prev => prev.filter(item => item.id !== id))`. */
  function DeleteAction<T>(prev: seq<T>, id: string, idOf: T -> string): (r: seq<T>)
    ensures forall x :: x in r ==> idOf(x) != id
    ensures forall x :: x in prev && idOf(x) != id ==> x in r
    ensures |r| <= |prev|
  {
    Filter(prev, (x: T) => idOf(x) != id)
  }

  /** Deleting keeps the surviving elements in their original order. */
  lemma DeleteKeepsOrder<T>(prev: seq<T>, id: string, idOf: T -> string)
    ensures IsSubsequence(DeleteAction(prev, id, idOf), prev)
  {
    FilterIsSubsequence(prev, (x: T) => idOf(x) != id);
  }

  /** Deleting an id that no element carries changes nothing. */
  lemma DeleteUnknownIsNoOp<T>(prev: seq<T>, id: string, idOf: T -> string)
    requires forall x :: x in prev ==> idOf(x) != id
    ensures DeleteAction(prev, id, idOf) == prev
  {
    FilterAll(prev, (x: T) => idOf(x) != id);
  }

  /** Deleting twice is deleting once. */
  lemma DeleteIdempotent<T>(prev: seq<T>, id: string, idOf: T -> string)
    ensures DeleteAction(DeleteAction(prev, id, idOf), id, idOf) == DeleteAction(prev, id, idOf)
  {
    DeleteUnknownIsNoOp(DeleteAction(prev, id, idOf), id, idOf);
  }

  /** An element added under a fresh id is removed again by deleting that id,
      and nothing else is lost. */
  lemma {:induction false} DeleteUndoesCreate<T>(prev: seq<T>, item: T, idOf: T -> string)
    requires forall x :: x in prev ==> idOf(x) != idOf(item)
    ensures DeleteAction(CreateAction(prev, item), idOf(item), idOf) == prev
  {
    var p := (x: T) => idOf(x) != idOf(item);
    FilterAppend(prev, [item], p);
    FilterAll(prev, p);
    assert Filter([item], p) == [];
  }

  // ---------------------------------------------------------------------------
  // The store (AppProvider)

  /** The lists and settings every screen shares. Persistence in browser
      storage is not modelled: the constructor gives the defaults a fresh
      browser starts from. */
  class Store {
    var students: seq<Siswa>
    var classes: seq<Kelas>
    var subjects: seq<MataPelajaran>
    var questions: seq<Soal>
    var schedules: seq<JadwalUjian>
    var results: seq<HasilUjian>
    var showScores: bool
    var shuffleQuestions: bool

    constructor ()
      ensures students == [] && classes == [] && subjects == [] && questions == []
      ensures schedules == [] && results == []
      ensures showScores && shuffleQuestions
    {
      students, classes, subjects, questions, schedules, results := [], [], [], [], [], [];
      showScores, shuffleQuestions := true, true;
    }

    method AddStudent(s: Siswa, id: string)
      modifies this`students
      ensures students == CreateAction(old(students), s.(id := id))
    {
      students := CreateAction(students, s.(id := id));
    }

    method DeleteStudent(id: string)
      modifies this`students
      ensures students == DeleteAction(old(students), id, (s: Siswa) => s.id)
    {
      students := DeleteAction(students, id, (s: Siswa) => s.id);
    }

    /** `setStudents(prev => [...prev, ...added])`. */
    method AppendStudents(added: seq<Siswa>)
      modifies this`students
      ensures students == old(students) + added
    {
      students := students + added;
    }

    method AddClass(k: Kelas, id: string)
      modifies this`classes
      ensures classes == CreateAction(old(classes), k.(id := id))
    {
      classes := CreateAction(classes, k.(id := id));
    }

    method DeleteClass(id: string)
      modifies this`classes
      ensures classes == DeleteAction(old(classes), id, (k: Kelas) => k.id)
    {
      classes := DeleteAction(classes, id, (k: Kelas) => k.id);
    }

    method AddSubject(m: MataPelajaran, id: string)
      modifies this`subjects
      ensures subjects == CreateAction(old(subjects), m.(id := id))
    {
      subjects := CreateAction(subjects, m.(id := id));
    }

    method DeleteSubject(id: string)
      modifies this`subjects
      ensures subjects == DeleteAction(old(subjects), id, (m: MataPelajaran) => m.id)
    {
      subjects := DeleteAction(subjects, id, (m: MataPelajaran) => m.id);
    }

    method AddQuestion(q: Soal, id: string)
      modifies this`questions
      ensures questions == CreateAction(old(questions), q.(id := id))
    {
      questions := CreateAction(questions, q.(id := id));
    }

    method DeleteQuestion(id: string)
      modifies this`questions
      ensures questions == DeleteAction(old(questions), id, (q: Soal) => q.id)
    {
      questions := DeleteAction(questions, id, (q: Soal) => q.id);
    }

    /** `setQuestions(prev => [...prev, ...added])`. */
    method AppendQuestions(added: seq<Soal>)
      modifies this`questions
      ensures questions == old(questions) + added
    {
      questions := questions + added;
    }

    method AddSchedule(j: JadwalUjian, id: string)
      modifies this`schedules
      ensures schedules == CreateAction(old(schedules), j.(id := id))
    {
      schedules := CreateAction(schedules, j.(id := id));
    }

    method DeleteSchedule(id: string)
      modifies this`schedules
      ensures schedules == DeleteAction(old(schedules), id, (j: JadwalUjian) => j.id)
    {
      schedules := DeleteAction(schedules, id, (j: JadwalUjian) => j.id);
    }

    method AddResult(r: Submission, id: string)
      modifies this`results
      ensures results == CreateAction(old(results), WithId(r, id))
    {
      results := CreateAction(results, WithId(r, id));
    }

    method DeleteResult(id: string)
      modifies this`results
      ensures results == DeleteAction(old(results), id, (h: HasilUjian) => h.id)
    {
      results := DeleteAction(results, id, (h: HasilUjian) => h.id);
    }

    method SetShowScores(b: bool)
      modifies this`showScores
      ensures showScores == b
    {
      showScores := b;
    }

    method SetShuffleQuestions(b: bool)
      modifies this`shuffleQuestions
      ensures shuffleQuestions == b
    {
      shuffleQuestions := b;
    }
  }

  // ---------------------------------------------------------------------------
  // View state and routing (App)

  datatype View = Dashboard | Exam | Result

  /** What the application renders. */
  datatype Screen =
    | LoginPage
    | AdminPage
    | DashboardPage(user: User)
    | ExamPage(exam: JadwalUjian, studentId: string)
    | ResultPage(result: HasilUjian)
    | EmptyStudentPage   // a student view whose exam or result is missing renders nothing

  /** The rendering rule of App: no user shows the login screen, an admin the
      admin layout, and a student exactly the screen of the active view, the
      exam and result screens only when their record is present. */
  function Route(user: Option<User>, view: View, exam: Option<JadwalUjian>, last: Option<HasilUjian>): (s: Screen)
    ensures s == LoginPage <==> user.None?
    ensures s == AdminPage <==> user.Some? && user.value.role.Admin?
    ensures s.DashboardPage? <==> user.Some? && user.value.role.Student? && view.Dashboard?
    ensures s.ExamPage? <==> user.Some? && user.value.role.Student? && view.Exam? && exam.Some?
    ensures s.ResultPage? <==> user.Some? && user.value.role.Student? && view.Result? && last.Some?
    ensures s.DashboardPage? ==> s.user == user.value
    ensures s.ExamPage? ==> s.exam == exam.value && s.studentId == user.value.id
    ensures s.ResultPage? ==> s.result == last.value
  {
    match user
    case None => LoginPage
    case Some(u) =>
      if u.role.Admin? then AdminPage
      else match view
        case Dashboard => DashboardPage(u)
        case Exam => if exam.Some? then ExamPage(exam.value, u.id) else EmptyStudentPage
        case Result => if last.Some? then ResultPage(last.value) else EmptyStudentPage
  }

  class AppState {
    var currentUser: Option<User>
    var activeView: View
    var selectedExam: Option<JadwalUjian>
    var lastResult: Option<HasilUjian>

    /** The signed-in user is restored from browser storage. */
    constructor (stored: Option<User>)
      ensures currentUser == stored && activeView == Dashboard
      ensures selectedExam.None? && lastResult.None?
    {
      currentUser, activeView, selectedExam, lastResult := stored, Dashboard, None, None;
    }

    function Render(): Screen
      reads this
    {
      Route(currentUser, activeView, selectedExam, lastResult)
    }

    method HandleLogin(user: User)
      modifies this`currentUser
      ensures currentUser == Some(user)
    {
      currentUser := Some(user);
    }

    method HandleLogout()
      modifies this
      ensures currentUser.None? && activeView == Dashboard && selectedExam.None? && lastResult.None?
      ensures Render() == LoginPage
    {
      currentUser, activeView, selectedExam, lastResult := None, Dashboard, None, None;
    }

    method HandleStartExam(exam: JadwalUjian)
      modifies this`selectedExam, this`activeView
      ensures selectedExam == Some(exam) && activeView == Exam
      ensures currentUser.Some? && currentUser.value.role.Student? ==>
                Render() == ExamPage(exam, currentUser.value.id)
    {
      selectedExam, activeView := Some(exam), Exam;
    }

    /** `onFinishExam`: the result shown gets its own fresh id, generated apart
        from the one the store gave the stored copy. */
    method HandleFinishExam(result: Submission, id: string)
      modifies this`lastResult, this`activeView
      ensures lastResult == Some(WithId(result, id)) && activeView == Result
      ensures currentUser.Some? && currentUser.value.role.Student? ==>
                Render() == ResultPage(WithId(result, id))
    {
      lastResult, activeView := Some(WithId(result, id)), Result;
    }

    method HandleBackToDashboard()
      modifies this`activeView, this`selectedExam, this`lastResult
      ensures activeView == Dashboard && selectedExam.None? && lastResult.None?
      ensures currentUser.Some? && currentUser.value.role.Student? ==>
                Render() == DashboardPage(currentUser.value)
    {
      activeView, selectedExam, lastResult := Dashboard, None, None;
    }
  }
}
