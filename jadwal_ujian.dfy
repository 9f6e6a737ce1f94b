/** The schedule screen (screens/admin/JadwalUjian.tsx): the form for a new
    exam schedule and the guard that refuses a schedule asking for more
    questions than its subject has. */
module JadwalUjianScreen {
  import opened Common
  import opened Types
  import App
  import ExamScreen

  /** The form's state. The two number inputs hold what `parseInt` made of
      the typed text; `None` is `NaN`. */
  datatype ScheduleDraft = ScheduleDraft(
    nama: string, mapelId: string, kelasId: string,
    tanggal: string, jamMulai: string, jamSelesai: string,
    jumlahSoal: Option<int>, durasi: Option<int>)

  /** Empty text fields, 10 questions, 60 minutes. */
  const InitialSchedule: ScheduleDraft := ScheduleDraft("", "", "", "", "", "", Some(10), Some(60))

  /** The inputs of the form, by their `name` attribute. */
  datatype ScheduleField = Nama | MapelId | KelasId | Tanggal | JamMulai | JamSelesai | JumlahSoal | Durasi

  /** Only `jumlahSoal` and `durasi` are `type="number"` inputs. */
  predicate IsNumberField(f: ScheduleField) {
    f.JumlahSoal? || f.Durasi?
  }

  /** `handleInputChange`: the named field takes the new value, read with
      `parseInt(value, 10)` for a number input and kept as typed otherwise. */
  function WithField(d: ScheduleDraft, field: ScheduleField, value: string): (r: ScheduleDraft)
    ensures field.Nama? ==> r == d.(nama := value)
    ensures field.MapelId? ==> r == d.(mapelId := value)
    ensures field.KelasId? ==> r == d.(kelasId := value)
    ensures field.Tanggal? ==> r == d.(tanggal := value)
    ensures field.JamMulai? ==> r == d.(jamMulai := value)
    ensures field.JamSelesai? ==> r == d.(jamSelesai := value)
    ensures field.JumlahSoal? ==> r == d.(jumlahSoal := ParseInt(value))
    ensures field.Durasi? ==> r == d.(durasi := ParseInt(value))
  {
    match field
    case Nama => d.(nama := value)
    case MapelId => d.(mapelId := value)
    case KelasId => d.(kelasId := value)
    case Tanggal => d.(tanggal := value)
    case JamMulai => d.(jamMulai := value)
    case JamSelesai => d.(jamSelesai := value)
    case JumlahSoal => d.(jumlahSoal := ParseInt(value))
    case Durasi => d.(durasi := ParseInt(value))
  }

  /** Typing a numeral into a number input stores its value. */
  lemma NumberFieldStoresValue(d: ScheduleDraft, field: ScheduleField, n: nat)
    requires IsNumberField(field)
    ensures var r := WithField(d, field, NatToString(n));
            (field.JumlahSoal? ==> r.jumlahSoal == Some(n) && r.durasi == d.durasi) &&
            (field.Durasi? ==> r.durasi == Some(n) && r.jumlahSoal == d.jumlahSoal)
  {
    ParseIntOfNatToString(n);
  }

  /** A text field never touches the numbers. */
  lemma TextFieldKeepsNumbers(d: ScheduleDraft, field: ScheduleField, value: string)
    requires !IsNumberField(field)
    ensures WithField(d, field, value).jumlahSoal == d.jumlahSoal
    ensures WithField(d, field, value).durasi == d.durasi
  {
  }

  /** What the browser checks before it lets the form submit: every field is
      `required`, and both numbers carry `min="1"`. */
  predicate FormValid(d: ScheduleDraft) {
    && d.nama != "" && d.mapelId != "" && d.kelasId != ""
    && d.tanggal != "" && d.jamMulai != "" && d.jamSelesai != ""
    && d.jumlahSoal.Some? && d.jumlahSoal.value >= 1
    && d.durasi.Some? && d.durasi.value >= 1
  }

  /** The form left by the defaults is valid once the six text fields are filled. */
  lemma InitialNeedsOnlyText()
    ensures !FormValid(InitialSchedule)
    ensures forall n, m, k, t, s, e ::
              n != "" && m != "" && k != "" && t != "" && s != "" && e != "" ==>
              FormValid(InitialSchedule.(nama := n, mapelId := m, kelasId := k, tanggal := t, jamMulai := s, jamSelesai := e))
  {
  }

  /** The count of questions the schedule's subject has. */
  function AvailableQuestions(questions: seq<Soal>, mapelId: string): (n: nat)
    ensures n <= |questions|
  {
    |SubjectQuestions(questions, mapelId)|
  }

  /** The alert that refuses a schedule. */
  function TooManyMessage(available: nat): string {
    "Jumlah soal yang tersedia untuk mata pelajaran ini hanya " + NatToString(available) + ". Harap kurangi jumlah soal."
  }

  /** The record `addSchedule` receives from a valid form. */
  function ToSchedule(d: ScheduleDraft, id: string): (j: JadwalUjian)
    requires FormValid(d)
    ensures j.id == id && j.nama == d.nama && j.mapelId == d.mapelId && j.kelasId == d.kelasId
    ensures j.tanggal == d.tanggal && j.jamMulai == d.jamMulai && j.jamSelesai == d.jamSelesai
    ensures Some(j.jumlahSoal) == d.jumlahSoal && Some(j.durasi) == d.durasi
  {
    JadwalUjian(id, d.nama, d.mapelId, d.kelasId, d.tanggal, d.jamMulai, d.jamSelesai, d.jumlahSoal.value, d.durasi.value)
  }

  /** An accepted schedule fits its subject, so at the time it is made an
      exam started from it gets exactly `jumlahSoal` questions, shuffled or not. */
  lemma AcceptedScheduleFillsExam(questions: seq<Soal>, d: ScheduleDraft, id: string, shuffle: bool, oracle: seq<int>)
    requires FormValid(d) && d.jumlahSoal.value <= AvailableQuestions(questions, d.mapelId)
    requires ExamScreen.ValidOracle(oracle, |questions|)
    ensures |ExamScreen.ExamQuestions(questions, ToSchedule(d, id), shuffle, oracle)| == d.jumlahSoal.value
  {
  }

  class JadwalUjianForm {
    var isModalOpen: bool
    var newSchedule: ScheduleDraft
    /** The last alert shown, if any. */
    var alert: Option<string>

    constructor ()
      ensures !isModalOpen && newSchedule == InitialSchedule && alert.None?
    {
      isModalOpen, newSchedule, alert := false, InitialSchedule, None;
    }

    /** "Buat Jadwal" opens the form as it was left. */
    method OpenModal()
      modifies this`isModalOpen
      ensures isModalOpen
    {
      isModalOpen := true;
    }

    /** "Batal" closes it and keeps what was typed. */
    method CloseModal()
      modifies this`isModalOpen
      ensures !isModalOpen
    {
      isModalOpen := false;
    }

    method HandleInputChange(field: ScheduleField, value: string)
      modifies this`newSchedule
      ensures newSchedule == WithField(old(newSchedule), field, value)
    {
      newSchedule := WithField(newSchedule, field, value);
    }

    /** `handleAddSchedule`. The browser runs it only for a valid form; then a
        schedule asking for more questions than its subject has is refused with
        an alert, and any other is stored under `id` and the form reset and
        closed. The result says whether a schedule was stored. */
    method HandleAddSchedule(store: App.Store, id: string) returns (added: bool)
      modifies store`schedules, this`newSchedule, this`isModalOpen, this`alert
      ensures added <==> FormValid(old(newSchedule)) &&
                         old(newSchedule).jumlahSoal.value <= AvailableQuestions(store.questions, old(newSchedule).mapelId)
      ensures added ==> && store.schedules == old(store.schedules) + [ToSchedule(old(newSchedule), id)]
                        && newSchedule == InitialSchedule && !isModalOpen && alert == old(alert)
      ensures !added ==> store.schedules == old(store.schedules) && newSchedule == old(newSchedule) &&
                         isModalOpen == old(isModalOpen)
      ensures !added && FormValid(old(newSchedule)) ==>
                alert == Some(TooManyMessage(AvailableQuestions(store.questions, old(newSchedule).mapelId)))
      ensures !FormValid(old(newSchedule)) ==> alert == old(alert)
      ensures added ==> store.schedules[|store.schedules| - 1].jumlahSoal <= AvailableQuestions(store.questions, store.schedules[|store.schedules| - 1].mapelId)
    {
      if !FormValid(newSchedule) {
        return false;
      }
      var availableQuestions := AvailableQuestions(store.questions, newSchedule.mapelId);
      if newSchedule.jumlahSoal.value > availableQuestions {
        alert := Some(TooManyMessage(availableQuestions));
        return false;
      }
      var schedule := ToSchedule(newSchedule, "");
      store.AddSchedule(schedule, id);
      assert schedule.(id := id) == ToSchedule(newSchedule, id);
      newSchedule := InitialSchedule;
      isModalOpen := false;
      return true;
    }
  }
}
