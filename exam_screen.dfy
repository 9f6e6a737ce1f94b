/** The exam session (screens/student/ExamScreen.tsx): the questions of one
    exam are selected (and shuffled with Fisher–Yates when the setting is on),
    one answer slot is kept per question, a countdown submits automatically,
    and submission scores the multiple-choice questions. */
module ExamScreen {
  import opened Common
  import opened Types
  import App

  // ---------------------------------------------------------------------------
  // shuffleArray

  /** The indices `Math.floor(Math.random() * (i + 1))` can produce: entry `i`
      is the partner chosen for position `i`, somewhere in `[0, i]`. */
  predicate ValidOracle(oracle: seq<int>, n: nat) {
    |oracle| >= n && forall i :: 0 < i < n ==> 0 <= oracle[i] <= i
  }

  /** The destructuring swap `[a[i], a[j]] = [a[j], a[i]]`. */
  function Swap<T>(s: seq<T>, i: nat, j: nat): (r: seq<T>)
    requires i < |s| && j < |s|
    ensures |r| == |s| && r[i] == s[j] && r[j] == s[i]
    ensures forall k :: 0 <= k < |s| && k != i && k != j ==> r[k] == s[k]
    ensures multiset(r) == multiset(s)
  {
    s[i := s[j]][j := s[i]]
  }

  /** The pass of Fisher–Yates that still has positions `k - 1` down to 1 to
      visit; the whole shuffle is `ShuffleDown(s, oracle, |s|)`. */
  function ShuffleDown<T>(s: seq<T>, oracle: seq<int>, k: nat): (r: seq<T>)
    requires k <= |s| && ValidOracle(oracle, |s|)
    ensures |r| == |s| && multiset(r) == multiset(s)
    decreases k
  {
    if k <= 1 then s else ShuffleDown(Swap(s, k - 1, oracle[k - 1] as nat), oracle, k - 1)
  }

  /** One Fisher–Yates step: visiting position `i` is swapping it with its partner. */
  lemma ShuffleStep<T>(s: seq<T>, oracle: seq<int>, i: nat)
    requires 0 < i < |s| && ValidOracle(oracle, |s|)
    ensures ShuffleDown(s, oracle, i + 1) == ShuffleDown(Swap(s, i, oracle[i] as nat), oracle, i)
  {
  }

  /** `shuffleArray`: copy the input, then swap position `i` with the chosen
      partner for `i` from the last position down to 1. */
  method ShuffleArray<T>(items: seq<T>, oracle: seq<int>) returns (r: seq<T>)
    requires ValidOracle(oracle, |items|)
    ensures r == ShuffleDown(items, oracle, |items|)
    ensures |r| == |items| && multiset(r) == multiset(items)
  {
    var newArray := new T[|items|](k requires 0 <= k < |items| => items[k]);
    assert newArray[..] == items;
    var i: int := |items| - 1;
    while i > 0
      invariant -1 <= i < |items| && (|items| > 0 ==> 0 <= i)
      invariant |newArray[..]| == |items|
      invariant ShuffleDown(newArray[..], oracle, i + 1) == ShuffleDown(items, oracle, |items|)
    {
      var j := oracle[i];
      ghost var before := newArray[..];
      var tmp := newArray[i];
      newArray[i] := newArray[j];
      newArray[j] := tmp;
      assert newArray[..] == Swap(before, i, j);
      ShuffleStep(before, oracle, i);
      i := i - 1;
    }
    r := newArray[..];
  }

  // ---------------------------------------------------------------------------
  // examQuestions

  /** The end index `Array.prototype.slice(0, end)` uses: a negative end counts
      from the back. */
  function SliceEnd(len: nat, end: int): (e: nat)
    ensures e <= len
    ensures end >= 0 ==> e == Min(end, len)
    ensures end < 0 ==> e == Max(0, len + end)
  {
    if end < 0 then (if len + end < 0 then 0 else len + end)
    else if end < len then end else len
  }

  lemma MultisetOfPrefix<T>(s: seq<T>, k: nat)
    requires k <= |s|
    ensures multiset(s[..k]) <= multiset(s)
  {
    assert s == s[..k] + s[k..];
  }

  /** The questions of one exam: those of the exam's subject, shuffled when the
      setting is on, cut to `jumlahSoal`. Every one is of the exam's subject and
      none is repeated more often than in the repository; without shuffling they
      are the first `jumlahSoal` of the subject in stored order. */
  function ExamQuestions(questions: seq<Soal>, exam: JadwalUjian, shuffle: bool, oracle: seq<int>): (r: seq<Soal>)
    requires ValidOracle(oracle, |questions|)
    ensures forall q :: q in r ==> q in questions && q.mapelId == exam.mapelId
    ensures multiset(r) <= multiset(SubjectQuestions(questions, exam.mapelId))
    ensures exam.jumlahSoal >= 0 ==> |r| == Min(exam.jumlahSoal, |SubjectQuestions(questions, exam.mapelId)|)
    ensures !shuffle ==> r == SubjectQuestions(questions, exam.mapelId)[..SliceEnd(|SubjectQuestions(questions, exam.mapelId)|, exam.jumlahSoal)]
  {
    var pool := SubjectQuestions(questions, exam.mapelId);
    var ordered := if shuffle then ShuffleDown(pool, oracle, |pool|) else pool;
    var r := ordered[..SliceEnd(|ordered|, exam.jumlahSoal)];
    MultisetOfPrefix(ordered, SliceEnd(|ordered|, exam.jumlahSoal));
    assert forall q :: q in r ==> q in multiset(pool);
    r
  }

  /** `useMemo` of examQuestions, with the shuffle done in place on a copy. */
  method SelectQuestions(questions: seq<Soal>, exam: JadwalUjian, shuffle: bool, oracle: seq<int>) returns (r: seq<Soal>)
    requires ValidOracle(oracle, |questions|)
    ensures r == ExamQuestions(questions, exam, shuffle, oracle)
  {
    var pool := SubjectQuestions(questions, exam.mapelId);
    var questionsToUse := pool;
    if shuffle {
      questionsToUse := ShuffleArray(pool, oracle);
    }
    r := questionsToUse[..SliceEnd(|questionsToUse|, exam.jumlahSoal)];
  }

  // ---------------------------------------------------------------------------
  // Answers

  /** Index of the first answer slot for `soalId` (`answers.find`), or `|answers|`. */
  function AnswerIndex(answers: seq<JawabanSiswa>, soalId: string): (i: nat)
    ensures i <= |answers|
    ensures forall k :: 0 <= k < i ==> answers[k].soalId != soalId
    ensures i < |answers| ==> answers[i].soalId == soalId
  {
    if answers == [] || answers[0].soalId == soalId then 0 else 1 + AnswerIndex(answers[1..], soalId)
  }

  /** Two answer lists with the same question ids at every position find the
      same slot for every id. */
  lemma AnswerIndexSameIds(a: seq<JawabanSiswa>, b: seq<JawabanSiswa>, soalId: string)
    requires |a| == |b| && forall k :: 0 <= k < |a| ==> a[k].soalId == b[k].soalId
    ensures AnswerIndex(a, soalId) == AnswerIndex(b, soalId)
  {
  }

  /** `handleAnswerSelect`: every slot for `soalId` gets the new answer. */
  function ReplaceAnswer(answers: seq<JawabanSiswa>, soalId: string, jawaban: string): (r: seq<JawabanSiswa>)
    ensures |r| == |answers|
    ensures forall k :: 0 <= k < |r| ==> r[k].soalId == answers[k].soalId
    ensures forall k :: 0 <= k < |r| && answers[k].soalId == soalId ==> r[k].jawaban == Some(jawaban)
    ensures forall k :: 0 <= k < |r| && answers[k].soalId != soalId ==> r[k] == answers[k]
  {
    seq(|answers|, k requires 0 <= k < |answers| =>
      if answers[k].soalId == soalId then answers[k].(jawaban := Some(jawaban)) else answers[k])
  }

  /** Answering a question that has no slot changes nothing. */
  lemma ReplaceUnknownIsNoOp(answers: seq<JawabanSiswa>, soalId: string, jawaban: string)
    requires AnswerIndex(answers, soalId) == |answers|
    ensures ReplaceAnswer(answers, soalId, jawaban) == answers
  {
    var r := ReplaceAnswer(answers, soalId, jawaban);
    forall k | 0 <= k < |answers| ensures r[k] == answers[k] {
      assert answers[k].soalId != soalId;
    }
  }

  /** `isAnswered`: a question without a slot is unanswered; an essay needs an
      answer that is not blank after trimming, multiple choice any answer. */
  function IsAnswered(answers: seq<JawabanSiswa>, question: Soal): (b: bool)
    ensures AnswerIndex(answers, question.id) == |answers| ==> !b
    ensures AnswerIndex(answers, question.id) < |answers| ==>
              var v := answers[AnswerIndex(answers, question.id)].jawaban;
              (b <==> v.Some? && (question.tipe.Essay? ==> !Blank(v.value)))
  {
    var i := AnswerIndex(answers, question.id);
    if i == |answers| then false
    else
      var v := answers[i].jawaban;
      if question.tipe.Essay? then
        (if v.Some? then TrimEmptyIffBlank(v.value); true else true) &&
        v.Some? && Trim(v.value) != ""
      else v.Some?
  }

  /** After an answer is recorded for a question that has a slot, that question
      counts as answered: always for multiple choice, and for an essay exactly
      when the text is not blank. */
  lemma AnsweredAfterSelect(answers: seq<JawabanSiswa>, question: Soal, jawaban: string)
    requires AnswerIndex(answers, question.id) < |answers|
    ensures (IsAnswered(ReplaceAnswer(answers, question.id, jawaban), question)
             <==> (question.tipe.Essay? ==> !Blank(jawaban)))
  {
    AnswerIndexSameIds(answers, ReplaceAnswer(answers, question.id, jawaban), question.id);
  }

  // ---------------------------------------------------------------------------
  // Scoring

  function McQuestions(questions: seq<Soal>): (r: seq<Soal>)
    ensures forall q :: q in r ==> q in questions && q.tipe.PilihanGanda?
    ensures forall q :: q in questions && q.tipe.PilihanGanda? ==> q in r
  {
    Filter(questions, (q: Soal) => q.tipe.PilihanGanda?)
  }

  /** The recorded answer of the question's first slot equals its key exactly. */
  predicate IsCorrect(question: Soal, answers: seq<JawabanSiswa>) {
    var i := AnswerIndex(answers, question.id);
    i < |answers| && answers[i].jawaban == Some(KunciJawaban(question))
  }

  function CorrectTest(answers: seq<JawabanSiswa>): Soal -> bool {
    (q: Soal) => IsCorrect(q, answers)
  }

  function CorrectCount(questions: seq<Soal>, answers: seq<JawabanSiswa>): (n: nat)
    ensures n <= |questions|
  {
    |Filter(questions, CorrectTest(answers))|
  }

  lemma CorrectCountSnoc(questions: seq<Soal>, q: Soal, answers: seq<JawabanSiswa>)
    ensures CorrectCount(questions + [q], answers)
            == CorrectCount(questions, answers) + (if IsCorrect(q, answers) then 1 else 0)
  {
    FilterAppend(questions, [q], CorrectTest(answers));
  }

  /** `(correct / total) * 100`, or 0 when there is no multiple-choice question;
      the score lies in [0, 100] when `correct <= total`. */
  function ScorePercent(correct: nat, total: nat): (score: real)
    ensures total == 0 ==> score == 0.0
    ensures total > 0 ==> score * (total as real) == (correct as real) * 100.0
    ensures correct <= total ==> 0.0 <= score <= 100.0
  {
    if total > 0 then (correct as real) / (total as real) * 100.0 else 0.0
  }

  /** One step of the counting loop: the prefix grows by its next question. */
  lemma CountStep(mc: seq<Soal>, k: nat, answers: seq<JawabanSiswa>)
    requires k < |mc|
    ensures CorrectCount(mc[..k + 1], answers) == CorrectCount(mc[..k], answers) + (if IsCorrect(mc[k], answers) then 1 else 0)
  {
    assert mc[..k + 1] == mc[..k] + [mc[k]];
    CorrectCountSnoc(mc[..k], mc[k], answers);
  }

  /** The loop of `handleSubmit` that counts the correct multiple-choice answers. */
  method CountCorrect(questions: seq<Soal>, answers: seq<JawabanSiswa>) returns (correct: nat, total: nat)
    ensures total == |McQuestions(questions)|
    ensures correct == CorrectCount(McQuestions(questions), answers)
    ensures correct <= total
  {
    var mc := McQuestions(questions);
    total := |mc|;
    correct := 0;
    for k := 0 to |mc|
      invariant correct == CorrectCount(mc[..k], answers)
    {
      CountStep(mc, k, answers);
      if IsCorrect(mc[k], answers) {
        correct := correct + 1;
      }
    }
    assert mc[..|mc|] == mc;
  }

  /** The result `handleSubmit` hands over: the answers verbatim, the score of
      the multiple-choice questions alone, and the counts behind it. */
  function Grade(exam: JadwalUjian, studentId: string, questions: seq<Soal>, answers: seq<JawabanSiswa>, now: string): (s: Submission)
    ensures s.siswaId == studentId && s.jadwalId == exam.id
    ensures s.jawaban == answers && s.selesaiPada == now
    ensures s.detailNilai.Some?
    ensures s.detailNilai.value.totalSoalPg == |McQuestions(questions)|
    ensures s.detailNilai.value.benar == CorrectCount(McQuestions(questions), answers)
    ensures 0 <= s.detailNilai.value.benar <= s.detailNilai.value.totalSoalPg
    ensures s.nilai == ScorePercent(s.detailNilai.value.benar, s.detailNilai.value.totalSoalPg)
    ensures 0.0 <= s.nilai <= 100.0
  {
    var total := |McQuestions(questions)|;
    var correct := CorrectCount(McQuestions(questions), answers);
    Submission(studentId, exam.id, ScorePercent(correct, total), answers, now, Some(DetailNilai(correct, total)))
  }

  /** Essay answers never move the score: changing the answer of an essay
      question leaves the grade's numbers as they were. */
  lemma EssayAnswerDoesNotChangeScore(questions: seq<Soal>, answers: seq<JawabanSiswa>, essay: Soal, jawaban: string)
    requires essay in questions && essay.tipe.Essay?
    requires forall q :: q in questions && q.id == essay.id ==> q.tipe.Essay?
    ensures CorrectCount(McQuestions(questions), ReplaceAnswer(answers, essay.id, jawaban))
            == CorrectCount(McQuestions(questions), answers)
  {
    var after := ReplaceAnswer(answers, essay.id, jawaban);
    var mc := McQuestions(questions);
    forall q | q in mc ensures IsCorrect(q, after) == IsCorrect(q, answers) {
      AnswerIndexSameIds(answers, after, q.id);
      assert q.id != essay.id;
    }
    FilterSameTest(mc, CorrectTest(after), CorrectTest(answers));
  }

  lemma {:induction false} FilterSameTest<T>(s: seq<T>, p: T -> bool, q: T -> bool)
    requires forall x :: x in s ==> p(x) == q(x)
    ensures Filter(s, p) == Filter(s, q)
  {
    if s != [] {
      FilterSameTest(s[1..], p, q);
    }
  }

  // ---------------------------------------------------------------------------
  // Timer display

  /** JavaScript's `%`: the remainder takes the sign of the dividend. */
  function JsRem(a: int, b: int): int
    requires b > 0
  {
    if a >= 0 then a % b else -((-a) % b)
  }

  /** The minutes `Math.floor(timeLeft / 60)` and seconds `timeLeft % 60` shown;
      for a non-negative time they recompose it, with seconds below 60. */
  function Clock(timeLeft: int): (mmss: (int, int))
    ensures timeLeft >= 0 ==> mmss.0 >= 0 && 0 <= mmss.1 < 60 && mmss.0 * 60 + mmss.1 == timeLeft
    ensures timeLeft < 0 ==> mmss.0 < 0 && -60 < mmss.1 <= 0
  {
    (timeLeft / 60, JsRem(timeLeft, 60))
  }

  // ---------------------------------------------------------------------------
  // The session

  class Session {
    const exam: JadwalUjian
    const studentId: string
    /** The materialised question list; it is fixed for the session. */
    const questions: seq<Soal>
    var answers: seq<JawabanSiswa>
    var timeLeft: int
    var currentIndex: int

    /** One answer slot per question, in question order; the current index is on a
        question (or 0 while there is none). */
    ghost predicate Valid()
      reads this
    {
      && |answers| == |questions|
      && (forall k :: 0 <= k < |answers| ==> answers[k].soalId == questions[k].id)
      && 0 <= currentIndex
      && (currentIndex == 0 || currentIndex < |questions|)
    }

    constructor (exam: JadwalUjian, studentId: string, pool: seq<Soal>, shuffle: bool, oracle: seq<int>)
      requires ValidOracle(oracle, |pool|)
      ensures Valid()
      ensures this.exam == exam && this.studentId == studentId
      ensures questions == ExamQuestions(pool, exam, shuffle, oracle)
      ensures forall k :: 0 <= k < |answers| ==> answers[k] == JawabanSiswa(questions[k].id, None)
      ensures timeLeft == exam.durasi * 60 && currentIndex == 0
    {
      this.exam := exam;
      this.studentId := studentId;
      var examQuestions := SelectQuestions(pool, exam, shuffle, oracle);
      questions := examQuestions;
      answers := seq(|examQuestions|, k requires 0 <= k < |examQuestions| => JawabanSiswa(examQuestions[k].id, None));
      timeLeft := exam.durasi * 60;
      currentIndex := 0;
    }

    method HandleAnswerSelect(soalId: string, jawaban: string)
      requires Valid()
      modifies this`answers
      ensures Valid()
      ensures answers == ReplaceAnswer(old(answers), soalId, jawaban)
    {
      answers := ReplaceAnswer(answers, soalId, jawaban);
    }

    /** `handleSubmit`: count, score, build the result and store it under a
        fresh id; the result is also handed to the application. */
    method HandleSubmit(store: App.Store, now: string, resultId: string) returns (result: Submission)
      modifies store`results
      ensures result == Grade(exam, studentId, questions, answers, now)
      ensures store.results == old(store.results) + [WithId(result, resultId)]
    {
      var correctAnswers, totalMcQuestions := CountCorrect(questions, answers);
      var score := ScorePercent(correctAnswers, totalMcQuestions);
      result := Submission(studentId, exam.id, score, answers, now,
                           Some(DetailNilai(correctAnswers, totalMcQuestions)));
      store.AddResult(result, resultId);
    }

    /** The timer effect submits as soon as the time left is not positive. */
    predicate TimeUp()
      reads this
    {
      timeLeft <= 0
    }

    /** One interval tick: the time left drops by one second, and the effect
        that follows submits exactly when it has reached zero. */
    method Tick(store: App.Store, now: string, resultId: string) returns (auto: Option<Submission>)
      requires !TimeUp()
      modifies this`timeLeft, store`results
      ensures timeLeft == old(timeLeft) - 1
      ensures auto.Some? <==> TimeUp()
      ensures auto.Some? ==> auto.value == Grade(exam, studentId, questions, answers, now)
      ensures store.results == old(store.results) + (if auto.Some? then [WithId(auto.value, resultId)] else [])
    {
      timeLeft := timeLeft - 1;
      if timeLeft <= 0 {
        var result := HandleSubmit(store, now, resultId);
        auto := Some(result);
      } else {
        auto := None;
      }
    }

    /** Left alone, the countdown ticks exactly `timeLeft` times and submits
        once, on the last tick, storing exactly one result. */
    method RunOut(store: App.Store, now: string, resultId: string) returns (ticks: nat, result: Submission)
      requires !TimeUp()
      modifies this`timeLeft, store`results
      ensures ticks == old(timeLeft) && timeLeft == 0
      ensures result == Grade(exam, studentId, questions, answers, now)
      ensures store.results == old(store.results) + [WithId(result, resultId)]
    {
      ticks := 0;
      var auto: Option<Submission> := None;
      while auto.None?
        invariant ticks + timeLeft == old(timeLeft) && timeLeft >= 0
        invariant auto.None? ==> timeLeft > 0 && store.results == old(store.results)
        invariant auto.Some? ==> timeLeft == 0 && auto.value == Grade(exam, studentId, questions, answers, now)
        invariant auto.Some? ==> store.results == old(store.results) + [WithId(auto.value, resultId)]
        decreases timeLeft
      {
        auto := Tick(store, now, resultId);
        ticks := ticks + 1;
      }
      result := auto.value;
    }

    /** Back: one question earlier, never before the first. */
    method Back()
      requires Valid() && |questions| > 0
      modifies this`currentIndex
      ensures Valid() && 0 <= currentIndex < |questions|
      ensures currentIndex == Max(0, old(currentIndex) - 1)
      ensures old(currentIndex) == 0 ==> currentIndex == 0
      ensures old(currentIndex) > 0 ==> currentIndex == old(currentIndex) - 1
    {
      currentIndex := Max(0, currentIndex - 1);
    }

    /** Next: one question later, never past the last. */
    method Next()
      requires Valid() && |questions| > 0
      modifies this`currentIndex
      ensures Valid() && 0 <= currentIndex < |questions|
      ensures currentIndex == Min(|questions| - 1, old(currentIndex) + 1)
      ensures old(currentIndex) == |questions| - 1 ==> currentIndex == |questions| - 1
      ensures old(currentIndex) < |questions| - 1 ==> currentIndex == old(currentIndex) + 1
    {
      currentIndex := Min(|questions| - 1, currentIndex + 1);
    }

    /** A navigator button jumps straight to its question. */
    method Jump(index: nat)
      requires Valid() && index < |questions|
      modifies this`currentIndex
      ensures Valid() && currentIndex == index
    {
      currentIndex := index;
    }
  }
}
