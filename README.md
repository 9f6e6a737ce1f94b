# A verified model of the CBT exam application

This project models the logic of a small browser-only exam application
written in React and TypeScript. Administrators keep:

- classes (*kelas*) and subjects (*mata pelajaran*);
- students (*siswa*), entered by hand or imported from a spreadsheet;
- a question bank (*bank soal*) of multiple-choice and essay questions,
  with a bulk upload that pairs numbered images with an answer-key file;
- exam schedules (*jadwal ujian*) and the results (*hasil ujian*).

A student signs in and sees the exams open to their class right now. They
take an exam with a countdown and a question navigator, and get a
multiple-choice score at the end.

The project has one Dafny module per source file, plus two shared modules:

- `Common` holds the JavaScript string, number and list built-ins the
  screens rely on, written out in Dafny.
- `Types` holds the records of `types.ts`.

A question is a tagged variant. It is either multiple choice, with five
options and a key in A..E, or an essay with a reference text.

State that React keeps becomes a Dafny `class`, whose methods change the
fields they name in `modifies`. These classes are:

- `App.Store`, the shared application context;
- `App.AppState`, the view state;
- `ExamScreen.Session`;
- one form class per admin screen.

Each method is tied by its `ensures` to a pure function, and the
properties are proved about those functions.

The proper-loop pieces of the source stay loops:

- the Fisher–Yates shuffle, on a copied `array`;
- the correct-answer counter of the submit handler;
- the key-file parser that fills a map;
- the image matcher that pushes new questions.

Inputs the program gets from the outside world are parameters of the model:

- fresh ids (`Date.now()`);
- the shuffle's random indices, as an oracle sequence with `0 <= oracle[i] <= i`;
- the current time;
- values read from browser storage;
- the text of uploaded files and the rows of a spreadsheet;
- confirmation dialogs.

## Model

| member | source | states |
|---|---|---|
| Types.LabelText | types.ts:43-45 | a multiple-choice key is stored as one upper-case letter from A to E |
| Types.LetterLabelOfText | types.ts:43-45 | reading a key's stored letter gives the key back |
| Types.SubjectQuestions | screens/student/ExamScreen.tsx:29 | the questions of a subject are exactly the stored questions with that `mapelId`, none taken more often than it is stored |
| Types.WithId | App.tsx:70 | `{ ...item, id }` keeps every field of the submission and sets the id |
| Common.Lower | screens/LoginScreen.tsx:21 | `toLowerCase` keeps the length and lowers each ASCII letter |
| Common.TrimEmptyIffBlank | screens/admin/DataKelas.tsx:14 | `trim()` gives the empty string exactly when the text is all white space |
| Common.TrimIdempotent | screens/admin/DataKelas.tsx:15 | trimming a trimmed name changes nothing |
| Common.Utf16Length | screens/admin/AdminLayout.tsx:59 | `length` counts UTF-16 code units, between one and two per character |
| Common.ParseInt | screens/admin/JadwalUjian.tsx:19 | `parseInt(value, 10)` is `NaN` exactly when no digit follows the leading white space and optional sign |
| Common.ParseIntOfNatToString | screens/admin/JadwalUjian.tsx:19 | `parseInt` reads back every numeral |
| Common.Filter | screens/student/ExamScreen.tsx:29 | `filter` keeps exactly the elements that pass the test, never more of any element than the input has |
| Common.Find | screens/LoginScreen.tsx:26 | `find` gives nothing iff no element passes, and otherwise the first element that passes |
| Common.JsNumber | screens/student/StudentDashboard.tsx:29-31 | `Number` gives 0 for blank text and the decimal value of a digit string |
| Common.Split | screens/student/StudentDashboard.tsx:29-31 | `split` gives at least one part and no part contains the separator |
| Common.JoinSplit | screens/admin/BankSoal.tsx:95 | splitting on a separator loses no text: joining the parts back gives the input |
| Common.SplitJoin | screens/student/StudentDashboard.tsx:29-31 | splitting parts joined by a separator none of them contains gives the parts back |
| App.CreateAction | App.tsx:68-71 | adding appends exactly the new item and keeps the earlier items in order |
| App.DeleteAction | App.tsx:73-76 | deleting removes every item with the id, keeps all the others, and never lengthens the list |
| App.DeleteKeepsOrder | App.tsx:75 | the items left after a delete are a subsequence of the list: their order is kept |
| App.DeleteUnknownIsNoOp | App.tsx:75 | deleting an id that no item carries changes nothing |
| App.DeleteIdempotent | App.tsx:75 | deleting twice is the same as deleting once |
| App.DeleteUndoesCreate | App.tsx:68-76 | deleting the fresh id of an added item restores the list exactly |
| App.Store.constructor | App.tsx:59-66 | every list starts empty, and both settings flags start true |
| App.Store.AddStudent | App.tsx:79 | the student list becomes the create action applied to it |
| App.Store.DeleteStudent | App.tsx:79 | the student list becomes the delete action applied to it |
| App.Store.AppendStudents | screens/admin/DataPeserta.tsx:56 | imported students are appended after the unchanged existing ones |
| App.Store.AddClass | App.tsx:80 | the class list becomes the create action applied to it |
| App.Store.DeleteClass | App.tsx:80 | the class list becomes the delete action applied to it |
| App.Store.AddSubject | App.tsx:81 | the subject list becomes the create action applied to it |
| App.Store.DeleteSubject | App.tsx:81 | the subject list becomes the delete action applied to it |
| App.Store.AddQuestion | App.tsx:82 | the question list becomes the create action applied to it |
| App.Store.DeleteQuestion | App.tsx:82 | the question list becomes the delete action applied to it |
| App.Store.AppendQuestions | screens/admin/BankSoal.tsx:140 | bulk-created questions are appended after the unchanged existing ones |
| App.Store.AddSchedule | App.tsx:83 | the schedule list becomes the create action applied to it |
| App.Store.DeleteSchedule | App.tsx:83 | the schedule list becomes the delete action applied to it |
| App.Store.AddResult | App.tsx:84 | the result list becomes the create action applied to it |
| App.Store.DeleteResult | App.tsx:84 | the result list becomes the delete action applied to it |
| App.Store.SetShowScores | App.tsx:85 | the show-scores flag takes the given value |
| App.Store.SetShuffleQuestions | App.tsx:86 | the shuffle flag takes the given value |
| App.Route | App.tsx:127-155 | no user shows the login screen and an admin the admin layout; a student sees exactly the screen of the active view, the exam screen only with a selected exam and the result screen only with a last result; each screen gets the right record |
| App.AppState.constructor | App.tsx:94-97 | the user is restored from storage, the view is the dashboard, and no exam or result is selected |
| App.AppState.HandleLogin | App.tsx:99-101 | the given user becomes the current user |
| App.AppState.HandleLogout | App.tsx:103-108 | the user, selected exam and last result are cleared, the view returns to the dashboard, and login is shown |
| App.AppState.HandleStartExam | App.tsx:110-113 | the exam is selected and the view switches to it; a student then sees that exam's screen |
| App.AppState.HandleFinishExam | App.tsx:115-119 | the result is kept under its own fresh id and the result view shows it |
| App.AppState.HandleBackToDashboard | App.tsx:121-125 | the view returns to the dashboard and both selections are cleared |
| ExamScreen.Swap | screens/student/ExamScreen.tsx:17 | the destructuring swap exchanges two positions, leaves the rest alone, and keeps the multiset |
| ExamScreen.ShuffleDown | screens/student/ExamScreen.tsx:15-18 | the remaining passes of Fisher–Yates keep the length and the multiset |
| ExamScreen.ShuffleStep | screens/student/ExamScreen.tsx:15-18 | one pass of the loop swaps position `i` with its chosen partner |
| ExamScreen.ShuffleArray | screens/student/ExamScreen.tsx:12-20 | the in-place shuffle of a copy computes the Fisher–Yates permutation of the input: same length and same multiset; the input, a value, is untouched |
| ExamScreen.SliceEnd | screens/student/ExamScreen.tsx:31 | the end index of `slice(0, n)` is `min(n, length)` for a non-negative `n` and counts from the back for a negative one |
| ExamScreen.MultisetOfPrefix | screens/student/ExamScreen.tsx:31 | a prefix takes nothing that is not in the list |
| ExamScreen.ExamQuestions | screens/student/ExamScreen.tsx:28-32 | every exam question is a stored question of the exam's subject, none taken more often than the subject holds it; the count is `min(jumlahSoal, available)`; without shuffling they are the first `jumlahSoal` subject questions in stored order |
| ExamScreen.SelectQuestions | screens/student/ExamScreen.tsx:28-32 | shuffling the filtered list on an array and slicing it gives the question selection |
| ExamScreen.AnswerIndex | screens/student/ExamScreen.tsx:46 | `answers.find` finds the first slot with the question id, or none |
| ExamScreen.AnswerIndexSameIds | screens/student/ExamScreen.tsx:46 | two answer lists with the same ids find the same slot |
| ExamScreen.ReplaceAnswer | screens/student/ExamScreen.tsx:80-86 | every slot for the question gets the new answer; the length, the ids and every other slot are unchanged |
| ExamScreen.ReplaceUnknownIsNoOp | screens/student/ExamScreen.tsx:80-86 | answering a question without a slot changes nothing |
| ExamScreen.IsAnswered | screens/student/ExamScreen.tsx:88-95 | with no slot the question is unanswered; an essay is answered iff its answer is present and not blank; multiple choice iff present |
| ExamScreen.AnsweredAfterSelect | screens/student/ExamScreen.tsx:80-95 | once answered, a multiple-choice question counts as answered, and an essay iff the text is not blank |
| ExamScreen.McQuestions | screens/student/ExamScreen.tsx:41 | exactly the multiple-choice questions are scored |
| ExamScreen.CorrectCount | screens/student/ExamScreen.tsx:44-50 | between 0 and the number of multiple-choice questions are correct |
| ExamScreen.CorrectCountSnoc | screens/student/ExamScreen.tsx:45-49 | visiting one more question adds one exactly when its recorded answer equals its key |
| ExamScreen.ScorePercent | screens/student/ExamScreen.tsx:52 | the score is 0 with no multiple-choice question, else it times the total is 100 times the correct count; it lies in [0, 100] |
| ExamScreen.CountCorrect | screens/student/ExamScreen.tsx:41-50 | the counting loop returns the correct count and the multiple-choice total |
| ExamScreen.Grade | screens/student/ExamScreen.tsx:40-63 | the result carries the student, the exam, the answers verbatim, the time, and `detailNilai` with the correct count and the total; its score is that count as a percentage, in [0, 100] |
| ExamScreen.EssayAnswerDoesNotChangeScore | screens/student/ExamScreen.tsx:41-50 | changing an essay's answer never changes the correct count |
| ExamScreen.FilterSameTest | screens/student/ExamScreen.tsx:41-50 | two tests that agree on a list's elements filter it alike |
| ExamScreen.Clock | screens/student/ExamScreen.tsx:175 | for a non-negative time the minutes and seconds shown recompose it, with seconds in [0, 60); a negative time shows a negative minute and a non-positive second |
| ExamScreen.Session.constructor | screens/student/ExamScreen.tsx:24-38 | the session holds the selected questions, one empty answer slot per question in the same order, `durasi * 60` seconds, and the first question |
| ExamScreen.Session.HandleAnswerSelect | screens/student/ExamScreen.tsx:80-86 | the answer list is replaced as `ReplaceAnswer` says, and one slot per question is kept |
| ExamScreen.Session.HandleSubmit | screens/student/ExamScreen.tsx:40-66 | the result is the grade of the current answers, and it is appended to the store's results under a fresh id |
| ExamScreen.Session.Tick | screens/student/ExamScreen.tsx:69-78 | a tick takes exactly one second off, and submits the graded answers, stored under a fresh id, exactly when the time reaches zero |
| ExamScreen.Session.RunOut | screens/student/ExamScreen.tsx:69-78 | left alone, the countdown ticks exactly `timeLeft` times and stores exactly one result |
| ExamScreen.Session.Back | screens/student/ExamScreen.tsx:153 | Back moves to `max(0, i - 1)`: one question earlier, staying on the first; the index stays within `[0, n - 1]` |
| ExamScreen.Session.Next | screens/student/ExamScreen.tsx:160 | Next moves to `min(n - 1, i + 1)`: one question later, staying on the last; the index stays within `[0, n - 1]` |
| ExamScreen.Session.Jump | screens/student/ExamScreen.tsx:185 | a navigator button sets the index directly |
| BankSoal.SplitLetter | screens/admin/BankSoal.tsx:96 | the tail of a key line is one letter A–E, in either case, then only white space |
| BankSoal.SplitAfterSep | screens/admin/BankSoal.tsx:96 | after the separator come optional white space and the letter tail |
| BankSoal.SplitAfterDigits | screens/admin/BankSoal.tsx:96 | after the digits come optional white space, `.` or `:`, and the rest |
| BankSoal.SplitKeyLine | screens/admin/BankSoal.tsx:96 | a line accepted by the pattern is made of exactly its parts |
| BankSoal.SplitAfterSepComplete | screens/admin/BankSoal.tsx:96 | the separator stage accepts every well-formed rest |
| BankSoal.SplitAfterDigitsComplete | screens/admin/BankSoal.tsx:96 | the digit stage accepts every well-formed rest |
| BankSoal.SplitKeyLineComplete | screens/admin/BankSoal.tsx:96 | every line of the form digits, spaces, `.`/`:`, spaces, letter, white space is accepted with those parts |
| BankSoal.ParseKeyLine | screens/admin/BankSoal.tsx:96-97 | a line gives an entry iff it matches the whole pattern; the number is the digits' value and the line's letter is the key's letter in upper or lower case |
| BankSoal.ParsedLines | screens/admin/BankSoal.tsx:95 | every line of the file is parsed on its own |
| BankSoal.KeysFrom | screens/admin/BankSoal.tsx:95-98 | `keysMap` after the `forEach` of `Map.set` over the parsed lines; its meaning is stated by `KeysFromLastWins`, `KeysFromSource` and `KeysFromEmpty` |
| BankSoal.KeysFromLastWins | screens/admin/BankSoal.tsx:97 | the last entry for a number is the one kept |
| BankSoal.KeysFromSource | screens/admin/BankSoal.tsx:97 | every key comes from an entry |
| BankSoal.KeysFromEmpty | screens/admin/BankSoal.tsx:100 | the map is empty exactly when no entry was produced |
| BankSoal.KeysOf | screens/admin/BankSoal.tsx:94-98 | the key map of the key file's text split on line feeds; its meaning is stated by `KeysOfLastWins`, `KeysOfFromLine` and `KeysOfEmpty` |
| BankSoal.KeysOfLastWins | screens/admin/BankSoal.tsx:94-98 | a later line with the same number overwrites an earlier one |
| BankSoal.KeysOfFromLine | screens/admin/BankSoal.tsx:94-98 | every key in the map comes from a matching line |
| BankSoal.KeysOfEmpty | screens/admin/BankSoal.tsx:94-100 | the key map is empty exactly when no line matches |
| BankSoal.ParseKeys | screens/admin/BankSoal.tsx:93-98 | the loop that fills the map computes the key map of the file's lines |
| BankSoal.FirstDigitIndex | screens/admin/BankSoal.tsx:108 | the digit run starts at the first digit of the name |
| BankSoal.FirstNumber | screens/admin/BankSoal.tsx:108-111 | a file name has a number exactly when it contains a digit |
| BankSoal.FirstNumberOf | screens/admin/BankSoal.tsx:108-111 | the number is the value of the first maximal run of digits |
| BankSoal.ReadImages | screens/admin/BankSoal.tsx:106-119 | any file name without a digit fails the whole upload and is named in the error; otherwise every image keeps its data with its number, in order |
| BankSoal.NewQuestion | screens/admin/BankSoal.tsx:125-133 | a created question is multiple choice with identity options A..E, the mapped key, the subject and the image |
| BankSoal.KeyedIndices | screens/admin/BankSoal.tsx:122-135 | the positions of the images whose number has a key, each once and in increasing order |
| BankSoal.Matched | screens/admin/BankSoal.tsx:122-135 | one question per image whose number has a key, in image order: the `j`-th question is built from the `j`-th such image with its id and key |
| BankSoal.MatchedMembers | screens/admin/BankSoal.tsx:122-135 | each new question comes from an image whose number has a key, and every such image gives its question |
| BankSoal.MatchImages | screens/admin/BankSoal.tsx:122-135 | the matching loop computes exactly those questions |
| BankSoal.CatchMessageAsWritten | screens/admin/BankSoal.tsx:106-145 | as written, a rejected image promise shows the generic message instead of its own |
| BankSoal.RejectionReasonIsLost | screens/admin/BankSoal.tsx:106-145 | for a file named `soal.jpg` the invalid-name message is not shown |
| BankSoal.CatchMessage | screens/admin/BankSoal.tsx:143-144 | the shown message is the thrown or rejected text, and the fallback only when there is none |
| BankSoal.BulkOutcome | screens/admin/BankSoal.tsx:83-146 | under either `catch`: a failure adds nothing and a success adds something; missing inputs, an empty key map and no matched image each give their own error; an unnumbered file shows the generic error text under the written `catch` and its own invalid-name message under the intended one; an upload with inputs, keys, numbered images and at least one match succeeds, appending exactly the matched questions and reporting how many; a success happens only then; every added question is multiple choice with identity options and the subject |
| BankSoal.BulkRejectionIsLost | screens/admin/BankSoal.tsx:106-145 | uploading the key line `1. A` with the image `soal.jpg` shows the generic error text as written, and the invalid-name message under the intended `catch` |
| BankSoal.BulkQuestionsFromKeyedImages | screens/admin/BankSoal.tsx:122-135 | every added question is built from one uploaded image whose number has a key, with that key |
| BankSoal.SwitchType | screens/admin/BankSoal.tsx:61-68 | switching to multiple choice sets the key to `A`, switching to essay sets it to empty; the text and the image stay |
| BankSoal.LabelOfText | screens/admin/BankSoal.tsx:43 | a key letter names its label |
| BankSoal.DraftToSoal | screens/admin/BankSoal.tsx:41-46 | the stored question keeps the draft's text, key and image under the subject; multiple choice gets identity options and an essay none |
| BankSoal.FilteredQuestions | screens/admin/BankSoal.tsx:33-36 | with no subject the list is empty; otherwise it holds exactly the questions of that subject |
| BankSoal.BankSoalScreen.constructor | screens/admin/BankSoal.tsx:19-31 | the draft starts as multiple choice with key `A`, and no subject, message or status is set |
| BankSoal.BankSoalScreen.SelectSubject | screens/admin/BankSoal.tsx:168 | the chosen subject drives the filter |
| BankSoal.BankSoalScreen.OpenModal | screens/admin/BankSoal.tsx:148-152 | opening resets the draft and the success message |
| BankSoal.BankSoalScreen.HandleTypeChange | screens/admin/BankSoal.tsx:61-68 | the type switch applies `SwitchType`, keeping a multiple-choice draft's key a letter |
| BankSoal.BankSoalScreen.HandleFieldChange | screens/admin/BankSoal.tsx:69-71 | any other field takes the typed value |
| BankSoal.BankSoalScreen.HandleImageUpload | screens/admin/BankSoal.tsx:74-81 | the picture read becomes the draft's image |
| BankSoal.BankSoalScreen.HandleAddQuestion | screens/admin/BankSoal.tsx:38-57 | with a subject and a question text the draft is appended under a fresh id, reset keeping its type, and the success message set; otherwise nothing changes |
| BankSoal.BankSoalScreen.HandleBulkUpload | screens/admin/BankSoal.tsx:83-146 | the status and the appended questions are those of `BulkOutcome` with the `catch` as written |
| LoginScreen.AdminPassword | screens/LoginScreen.tsx:20 | the admin password is the stored one, `admini` by default |
| LoginScreen.StudentUser | screens/LoginScreen.tsx:28 | a student signs in with their own id, nis and name in the student role |
| LoginScreen.IsAdminLogin | screens/LoginScreen.tsx:21 | the admin test: the lower-cased name is `admin` and the password is the admin password; `ResolveLogin` and `AdminWinsOverStudent` state what it decides |
| LoginScreen.Credentials | screens/LoginScreen.tsx:26 | the student lookup's test: exact `nis` and exact password; `ResolveLogin` states that the first student passing it logs in |
| LoginScreen.ResolveLogin | screens/LoginScreen.tsx:16-33 | admin credentials (case-insensitive name) win; otherwise the first student with exactly that nis and password signs in, exactly when one exists; else the error message is set |
| LoginScreen.LoginCaseRules | screens/LoginScreen.tsx:21-26 | the admin name ignores case while a student's nis does not |
| LoginScreen.AdminWinsOverStudent | screens/LoginScreen.tsx:21-31 | admin credentials sign in the admin even when a student has the same credentials |
| LoginScreen.LoginForm.constructor | screens/LoginScreen.tsx:9-12 | the form starts empty with no error |
| LoginScreen.LoginForm.HandleLogin | screens/LoginScreen.tsx:16-33 | the error is cleared first; `onLogin` gets the user the rules resolve, or is not called and the error is set |
| AdminLayout.MenuIdsDistinct | screens/admin/AdminLayout.tsx:27-35 | the menu ids are distinct |
| AdminLayout.ActiveMenuLabel | screens/admin/AdminLayout.tsx:91 | the header shows the caption of the menu item with the active id, `Dashboard` if there is none |
| AdminLayout.RenderContent | screens/admin/AdminLayout.tsx:78-89 | the `switch` on the active id: each listed id shows its own page and every other id the dashboard, as `DashboardForUnlisted` and `LabelAgreesWithContent` state |
| AdminLayout.DashboardForUnlisted | screens/admin/AdminLayout.tsx:78-88 | the dashboard is rendered exactly when no other menu item carries the active id |
| AdminLayout.LabelAgreesWithContent | screens/admin/AdminLayout.tsx:78-91 | the header says `Dashboard` exactly when the dashboard is rendered, which is for the dashboard id and every unknown one |
| AdminLayout.PasswordError | screens/admin/AdminLayout.tsx:55-66 | a wrong old password is reported first, then a new password shorter than 6 code units, then a mismatching confirmation; there is no error iff all three checks pass |
| AdminLayout.AdminLayoutState.constructor | screens/admin/AdminLayout.tsx:38-43 | the dashboard is active, the password is the stored one or `admini`, and the password form is empty and closed |
| AdminLayout.AdminLayoutState.SelectMenu | screens/admin/AdminLayout.tsx:124 | the chosen menu becomes active |
| AdminLayout.AdminLayoutState.OpenPasswordModal | screens/admin/AdminLayout.tsx:149 | the password form opens |
| AdminLayout.AdminLayoutState.ClosePasswordModal | screens/admin/AdminLayout.tsx:184 | "Batal" closes the password form and keeps what was typed |
| AdminLayout.AdminLayoutState.HandlePasswordChange | screens/admin/AdminLayout.tsx:46-49 | only the named field takes the typed value |
| AdminLayout.AdminLayoutState.HandlePasswordSubmit | screens/admin/AdminLayout.tsx:51-69 | a failing check shows its message and keeps the password; otherwise the new password is stored and success shown |
| AdminLayout.AdminLayoutState.CloseAfterSuccess | screens/admin/AdminLayout.tsx:70-74 | after success the form closes and is cleared |
| StudentDashboard.EarlierClockIsEarlier | screens/student/StudentDashboard.tsx:33-36 | on one day an earlier clock time is an earlier instant |
| StudentDashboard.JoinThree | screens/student/StudentDashboard.tsx:29 | three parts joined by a separator read as the date text |
| StudentDashboard.JoinTwo | screens/student/StudentDashboard.tsx:30-31 | two parts joined by a separator read as the time text |
| StudentDashboard.NoSeparatorInDigits | screens/student/StudentDashboard.tsx:29-31 | a digit string contains no `-` or `:` |
| StudentDashboard.SplitDigits | screens/student/StudentDashboard.tsx:29-31 | a `y-m-d` date and an `h:m` time of digits split into their fields |
| StudentDashboard.DateTime | screens/student/StudentDashboard.tsx:28-33 | the date and time split on `-` and `:` and converted with `Number`, invalid when a part is missing or not a number; `DateTimeOfParts` and `DateTimeOfDigits` state which instant it gives |
| StudentDashboard.DateTimeOfParts | screens/student/StudentDashboard.tsx:29-34 | date and time parts that convert to numbers give the instant those numbers name |
| StudentDashboard.DateTimeOfDigits | screens/student/StudentDashboard.tsx:29-34 | the date and time text a form produces reads back as the instant it names |
| StudentDashboard.StudentResults | screens/student/StudentDashboard.tsx:18 | the student's results are exactly their own, in stored order |
| StudentDashboard.TakenIffOwnResult | screens/student/StudentDashboard.tsx:17-26 | an exam counts as taken exactly when one of the user's own results names it |
| StudentDashboard.InWindow | screens/student/StudentDashboard.tsx:28-35 | `now >= startTime && now <= endTime`, both ends included, false for an invalid date; `EarlierClockIsEarlier` orders the ends within a day |
| StudentDashboard.Eligible | screens/student/StudentDashboard.tsx:23-35 | same class, no result of the student for the exam, and now inside the window; `AvailabilityTestIsEligible` proves the filter callback equals it |
| StudentDashboard.AvailabilityTestIsEligible | screens/student/StudentDashboard.tsx:23-37 | the filter over the student's own results tests eligibility: same class, not taken, now inside the window |
| StudentDashboard.AvailableExams | screens/student/StudentDashboard.tsx:16-38 | with no student record nothing is open; otherwise exactly the schedules of the student's class without a result of theirs, whose inclusive window contains now, are listed in stored order |
| StudentDashboard.ExamSubjectName | screens/student/StudentDashboard.tsx:40-45 | the subject's name, or `N/A` when the subject is missing or unnamed |
| StudentDashboard.ResultDetails | screens/student/StudentDashboard.tsx:47-54 | a missing schedule shows `Ujian Dihapus` and `Mapel Dihapus`; a missing subject or empty name falls back to `Mapel Dihapus` |
| JadwalUjianScreen.WithField | screens/admin/JadwalUjian.tsx:15-21 | the named field takes the value, run through `parseInt` for the two number inputs and raw otherwise |
| JadwalUjianScreen.NumberFieldStoresValue | screens/admin/JadwalUjian.tsx:19 | typing a numeral into a number input stores its value |
| JadwalUjianScreen.TextFieldKeepsNumbers | screens/admin/JadwalUjian.tsx:19 | a text field never touches the numbers |
| JadwalUjianScreen.InitialNeedsOnlyText | screens/admin/JadwalUjian.tsx:11-119 | the default form does not submit, but does once its six text fields are filled |
| JadwalUjianScreen.AvailableQuestions | screens/admin/JadwalUjian.tsx:25 | the available count is the number of questions of the subject |
| JadwalUjianScreen.ToSchedule | screens/admin/JadwalUjian.tsx:30 | the stored schedule has the form's fields and numbers |
| JadwalUjianScreen.AcceptedScheduleFillsExam | screens/admin/JadwalUjian.tsx:25-30 | an accepted schedule gives an exam with exactly `jumlahSoal` questions, shuffled or not |
| JadwalUjianScreen.JadwalUjianForm.constructor | screens/admin/JadwalUjian.tsx:10-13 | the form starts closed with empty text, 10 questions and 60 minutes |
| JadwalUjianScreen.JadwalUjianForm.OpenModal | screens/admin/JadwalUjian.tsx:41 | the form opens |
| JadwalUjianScreen.JadwalUjianForm.CloseModal | screens/admin/JadwalUjian.tsx:122 | the form closes |
| JadwalUjianScreen.JadwalUjianForm.HandleInputChange | screens/admin/JadwalUjian.tsx:15-21 | the input change applies `WithField` |
| JadwalUjianScreen.JadwalUjianForm.HandleAddSchedule | screens/admin/JadwalUjian.tsx:23-35 | a schedule is stored iff the form is valid and it asks for no more questions than the subject has; then the form resets to the defaults and closes; a schedule asking for more leaves everything but the alert unchanged |
| HasilUjianScreen.Shown | screens/admin/HasilUjian.tsx:11-19 | the filter callback of `filteredResults`; `ShownIsListed` proves it equals the rule in words |
| HasilUjianScreen.ShownIsListed | screens/admin/HasilUjian.tsx:11-19 | the filter callback passes a result iff its schedule and student exist and it meets both filters |
| HasilUjianScreen.FilteredResults | screens/admin/HasilUjian.tsx:10-21 | exactly the results with an existing schedule and student, meeting both filters (an empty filter matching all), in stored order |
| HasilUjianScreen.SettingAFilterNarrows | screens/admin/HasilUjian.tsx:16-19 | setting either filter never lists more: the list is a subsequence of the list without it |
| HasilUjianScreen.ResetResult | screens/admin/HasilUjian.tsx:76-81 | a confirmed reset deletes the result by id; a cancelled one changes nothing |
| HasilUjianScreen.ResetReopensExam | screens/admin/HasilUjian.tsx:78-79 | deleting a student's only result for a schedule makes the exam untaken, so it is open again when class and window allow |
| DataPeserta.Or | screens/admin/DataPeserta.tsx:46-51 | `a \|\| b` gives one of the two, and is truthy iff either is |
| DataPeserta.FieldText | screens/admin/DataPeserta.tsx:49-51 | a field is the text of the first truthy header, else of the second when present, else empty |
| DataPeserta.FirstHeaderWins | screens/admin/DataPeserta.tsx:49-51 | non-empty text under the template header is what is taken |
| DataPeserta.ClassIdOf | screens/admin/DataPeserta.tsx:46-52 | the class id is that of the first class whose name equals the cell case-insensitively, else empty; a non-empty id names an existing class |
| DataPeserta.RowToSiswa | screens/admin/DataPeserta.tsx:45-53 | a row maps to a student with its fields and the resolved class |
| DataPeserta.MappedRows | screens/admin/DataPeserta.tsx:45 | each row maps to a student with its own fresh id |
| DataPeserta.ImportedStudents | screens/admin/DataPeserta.tsx:45-54 | imported students have four non-empty fields and an existing class; no more are imported than rows; every complete row is imported; in row order |
| DataPeserta.ImportedIff | screens/admin/DataPeserta.tsx:46-54 | a row is imported iff its three text fields are non-empty and its class cell names an existing class |
| DataPeserta.NoClassNoImport | screens/admin/DataPeserta.tsx:46-54 | a row without a class cell is never imported |
| DataPeserta.HandleFileUpload | screens/admin/DataPeserta.tsx:32-64 | with no file nothing happens; an unreadable file gives the failure alert; otherwise the imported students are appended and the alert reports how many |
| DataPeserta.WithStudentField | screens/admin/DataPeserta.tsx:18-21 | only the named field takes the typed value |
| DataPeserta.DraftToSiswa | screens/admin/DataPeserta.tsx:26 | the stored student has the form's four fields |
| DataPeserta.ManualAddIsComplete | screens/admin/DataPeserta.tsx:25-54 | the manual form and the import apply the same completeness rule |
| DataPeserta.DataPesertaForm.constructor | screens/admin/DataPeserta.tsx:14-15 | the form starts empty and closed |
| DataPeserta.DataPesertaForm.OpenModal | screens/admin/DataPeserta.tsx:98 | the form opens |
| DataPeserta.DataPesertaForm.CloseModal | screens/admin/DataPeserta.tsx:157 | "Batal" closes the form and keeps what was typed |
| DataPeserta.DataPesertaForm.HandleInputChange | screens/admin/DataPeserta.tsx:18-21 | the input change applies `WithStudentField` |
| DataPeserta.DataPesertaForm.HandleAddStudent | screens/admin/DataPeserta.tsx:23-30 | with all four fields the student is stored and the form cleared and closed; otherwise nothing changes |
| ResultScreen.Details | screens/student/ResultScreen.tsx:16 | correct count and total default to 0 without details |
| ResultScreen.FirstSubject | screens/student/ResultScreen.tsx:14 | the subject lookup finds a subject iff one carries the id, and then the first that does |
| ResultScreen.ResultSubject | screens/student/ResultScreen.tsx:13-14 | without the schedule no subject is found; with it, a subject is found iff one carries the schedule's `mapelId`, and it is the first such subject |
| ResultScreen.Render | screens/student/ResultScreen.tsx:17-53 | the score block shows iff scores are published, with the score and the name of the result's subject, if found; its correct line shows iff there are details with a positive total, with those counts |
| ResultScreen.ScoredResultLine | screens/student/ResultScreen.tsx:30-46 | a shown correct line and score agree: score times total is 100 times correct |
| ResultScreen.GradedResultLine | screens/student/ResultScreen.tsx:16-46 | a graded exam shows its correct line iff scores are published and it had a multiple-choice question; the line and score are those of the grading |
| DataKelas.StudentCount | screens/admin/DataKelas.tsx:42 | a class's count is at most the student count, and 0 iff no student names the class |
| DataKelas.StudentCountAppend | screens/admin/DataKelas.tsx:42 | appending students adds their own count to each class |
| DataKelas.TrimmedNameIsClean | screens/admin/DataKelas.tsx:14-15 | a stored class name is non-empty with no white space at either end |
| DataKelas.DataKelasForm.constructor | screens/admin/DataKelas.tsx:9-10 | the form starts empty and closed |
| DataKelas.DataKelasForm.OpenModal | screens/admin/DataKelas.tsx:25 | the form opens |
| DataKelas.DataKelasForm.CloseModal | screens/admin/DataKelas.tsx:75 | "Batal" closes the form and keeps the typed name |
| DataKelas.DataKelasForm.SetNewClassName | screens/admin/DataKelas.tsx:69 | the input takes the typed name |
| DataKelas.DataKelasForm.HandleAddClass | screens/admin/DataKelas.tsx:12-19 | a name not all white space is stored trimmed and the form cleared and closed; an all-white name changes nothing |
| DataKelas.DataKelasForm.HandleDeleteClass | screens/admin/DataKelas.tsx:48 | deleting a class removes only the class; the students are untouched |
| DataMapel.DataMapelForm.constructor | screens/admin/DataMapel.tsx:9-10 | the form starts empty and closed |
| DataMapel.DataMapelForm.OpenModal | screens/admin/DataMapel.tsx:25 | the form opens |
| DataMapel.DataMapelForm.CloseModal | screens/admin/DataMapel.tsx:70 | "Batal" closes the form and keeps the typed name |
| DataMapel.DataMapelForm.SetNewSubjectName | screens/admin/DataMapel.tsx:64 | the input takes the typed name |
| DataMapel.DataMapelForm.HandleAddSubject | screens/admin/DataMapel.tsx:12-19 | a name not all white space is stored trimmed and the form cleared and closed; an all-white name changes nothing |
| DataMapel.DataMapelForm.HandleDeleteSubject | screens/admin/DataMapel.tsx:44 | deleting a subject removes only the subject; its questions and schedules stay |

## Left out

- File and library input: `FileReader`, data URLs, `File.text()`, `Promise.all` and the spreadsheet library. The model takes the key text, the file names with their data, and the parsed rows as inputs. The template download is not modelled.
- Persistence in browser storage: stored values are parameters, and the store starts from the defaults.
- `Date.now()` ids, `Math.random` and `new Date()` are parameters. The shuffle is proved a permutation; its uniformity is not.
- `StudentDashboard.DateTime`: only the string handling is modelled. The instant is a calendar count with 31-day months, 1900 added to years 0–99, and no time zone. `Date` normalising out-of-range fields, and the range limit of `Date`, are not modelled.
- `Common.JsNumber`: only blank text and digit strings are given their values. Signs, decimals, exponents and hexadecimal text give `None`, as `NaN`.
- `Common.Lower`: only ASCII letters are lowered, unlike full Unicode `toLowerCase`. This is exact for the comparison with `admin`; for class names with other letters it is weaker.
- `Common.ParseInt`: integers are unbounded, so values above 2^53 are not rounded.
- `BankSoal.ParseKeyLine`: the question number is the exact value of its digits. `parseInt` rounds numbers above 2^53, so two different long numerals can land on the same key in the source but not in the model.
- `BankSoal.FirstNumber`: the image number is the exact value of its first digit run, without the same rounding above 2^53. So a key and an image whose long numbers differ but round alike are not matched.
- `ExamScreen.ScorePercent` is an exact real. IEEE rounding and `toFixed(2)` display are not modelled.
- `setInterval` and `setTimeout`: the countdown is the `Tick` method. Delayed actions are separate methods (`AdminLayout.AdminLayoutState.CloseAfterSuccess`); the 3-second clear of the question success message is not modelled.
- React effect ordering, `useMemo` recomputation and unmounting are not modelled. The session fixes its questions when it starts. Nothing in the source stops a second submission, and the model adds no guard.
- The `info` status shown while the bulk upload works is not modelled: it is overwritten before the handler ends.
- `ExamScreen.Session.Back` and `ExamScreen.Session.Next` require at least one question. With none the screen shows only its loading text and no buttons.
- `JadwalUjianScreen.JadwalUjianForm.HandleAddSchedule`: the browser's `required` and `min="1"` checks are modelled as the `FormValid` predicate, under which the handler runs. Validation of `type="date"` and `type="time"` text is not modelled.
- BankSoal.BankSoalScreen.HandleFieldChange: requires a multiple-choice key to be one of `A`–`E`, because for multiple choice the key is picked from radio buttons labelled `A` to `E`; the `required` attributes of that form are not modelled.
- `alert`, `confirm` and `console.error` are inputs (a confirmation flag) or results (the alert text).
- `DataPeserta.CellValue`: spreadsheet cells are text, whole numbers or truth values. Fractional numbers and dates that the spreadsheet library may produce are not modelled.
- JSX rendering, CSS, icons, the sidebar and the admin dashboard page are not modelled. They show list lengths and toggles only.

## Findings

| source | as written | input that shows it | evidently intended | confidence | as-written member | corrected member |
|---|---|---|---|---|---|---|
| screens/admin/BankSoal.tsx:106-145 | an unnumbered image file rejects its promise with a plain string, and the `catch` shows the caught value's `message`, falling back to the generic error text; a string has no `message`, so the generic text is shown | bulk upload with a key file holding `1. A` and an image named `soal.jpg` | the status shows `Nama file tidak valid: soal.jpg. Harus mengandung nomor soal.` | high, not executed | BankSoal.CatchMessageAsWritten, BankSoal.RejectionReasonIsLost, BankSoal.BulkRejectionIsLost | BankSoal.CatchMessage, BankSoal.BulkOutcome |

`BankSoal.BulkOutcome` takes the `catch` as a `CatchRule`. `BankSoal.BankSoalScreen.HandleBulkUpload` models the handler as written (`AsWritten`), so an unnumbered file shows the generic error text. `BulkOutcome(Intended, …)` is the handler with the evident fix, which shows the file's own message.
