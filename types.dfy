/** The records of the exam application (types.ts). A question is a tagged
    variant: multiple choice with five options and a key in A..E, or essay
    with a free-text reference answer. */
module Types {
  import opened Common

  datatype Role = Admin | Student

  datatype User = User(id: string, nis: string, nama: string, role: Role)

  /** A student; `password` is optional in the record type. */
  datatype Siswa = Siswa(id: string, nis: string, nama: string, kelasId: string, password: Option<string>)

  datatype Kelas = Kelas(id: string, nama: string)

  datatype MataPelajaran = MataPelajaran(id: string, nama: string)

  /** The option labels of a multiple-choice question. */
  datatype Label = A | B | C | D | E

  /** The one-letter text of a label, as answers and keys store it. */
  function LabelText(l: Label): (s: string)
    ensures |s| == 1 && 'A' <= s[0] <= 'E'
  {
    match l
    case A => "A"
    case B => "B"
    case C => "C"
    case D => "D"
    case E => "E"
  }

  /** The label a letter names, in either case. */
  function LetterLabel(c: char): Option<Label> {
    if c == 'A' || c == 'a' then Some(A)
    else if c == 'B' || c == 'b' then Some(B)
    else if c == 'C' || c == 'c' then Some(C)
    else if c == 'D' || c == 'd' then Some(D)
    else if c == 'E' || c == 'e' then Some(E)
    else None
  }

  /** Reading a label's letter gives the label back. */
  lemma LetterLabelOfText(l: Label)
    ensures LetterLabel(LabelText(l)[0]) == Some(l)
  {
  }

  /** The option texts shown for A..E. */
  datatype Pilihan = Pilihan(a: string, b: string, c: string, d: string, e: string)

  /** Every creation path stores the options as the bare labels. */
  const IdentityPilihan: Pilihan := Pilihan("A", "B", "C", "D", "E")

  datatype Tipe =
    | PilihanGanda(pilihan: Pilihan, kunci: Label)
    | Essay(kunciEssay: string)

  datatype Soal = Soal(id: string, mapelId: string, pertanyaan: string, gambar: Option<string>, tipe: Tipe)

  /** The stored `kunciJawaban` string: the key's letter, or the essay's reference text. */
  function KunciJawaban(q: Soal): string {
    match q.tipe
    case PilihanGanda(_, k) => LabelText(k)
    case Essay(t) => t
  }

  /** The questions of one subject, in stored order. */
  function SubjectQuestions(questions: seq<Soal>, mapelId: string): (r: seq<Soal>)
    ensures forall q :: q in r ==> q in questions && q.mapelId == mapelId
    ensures forall q :: q in questions && q.mapelId == mapelId ==> q in r
    ensures multiset(r) <= multiset(questions)
  {
    Filter(questions, (q: Soal) => q.mapelId == mapelId)
  }

  datatype JadwalUjian = JadwalUjian(
    id: string, nama: string, mapelId: string, kelasId: string,
    tanggal: string, jamMulai: string, jamSelesai: string,
    jumlahSoal: int, durasi: int)

  /** One answer slot; `None` is `null`, not yet answered. */
  datatype JawabanSiswa = JawabanSiswa(soalId: string, jawaban: Option<string>)

  datatype DetailNilai = DetailNilai(benar: int, totalSoalPg: int)

  /** A result as the exam screen hands it over, before the store gives it an id. */
  datatype Submission = Submission(
    siswaId: string, jadwalId: string, nilai: real, jawaban: seq<JawabanSiswa>,
    selesaiPada: string, detailNilai: Option<DetailNilai>)

  datatype HasilUjian = HasilUjian(
    id: string, siswaId: string, jadwalId: string, nilai: real, jawaban: seq<JawabanSiswa>,
    selesaiPada: string, detailNilai: Option<DetailNilai>)

  /** `{ ...result, id }`. */
  function WithId(s: Submission, id: string): (h: HasilUjian)
    ensures h.id == id && h.siswaId == s.siswaId && h.jadwalId == s.jadwalId && h.nilai == s.nilai
    ensures h.jawaban == s.jawaban && h.selesaiPada == s.selesaiPada && h.detailNilai == s.detailNilai
  {
    HasilUjian(id, s.siswaId, s.jadwalId, s.nilai, s.jawaban, s.selesaiPada, s.detailNilai)
  }
}
