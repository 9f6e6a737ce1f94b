/** The student list (screens/admin/DataPeserta.tsx): the manual add form
    and the mapping of spreadsheet rows to students on import. */
module DataPeserta {
  import opened Common
  import opened Types
  import App

  // ---------------------------------------------------------------------------
  // Spreadsheet cells

  /** A cell as the spreadsheet reader hands it over: absent, text, a whole
      number or a truth value. */
  datatype CellValue = Missing | Text(s: string) | Number(n: int) | Flag(b: bool)

  /** JavaScript truthiness of a cell. */
  predicate Truthy(v: CellValue) {
    match v
    case Missing => false
    case Text(s) => s != ""
    case Number(n) => n != 0
    case Flag(b) => b
  }

  /** `a || b`: the first operand when it is truthy, else the second. */
  function Or(a: CellValue, b: CellValue): (r: CellValue)
    ensures r == a || r == b
    ensures Truthy(r) <==> Truthy(a) || Truthy(b)
  {
    if Truthy(a) then a else b
  }

  /** `String(v)` for a present cell. */
  function CellText(v: CellValue): string
    requires !v.Missing?
  {
    match v
    case Text(s) => s
    case Number(n) => IntToString(n)
    case Flag(b) => if b then "true" else "false"
  }

  /** `(a || b)?.toString() || ''`. */
  function FieldText(a: CellValue, b: CellValue): (s: string)
    ensures Or(a, b).Missing? ==> s == ""
    ensures !Or(a, b).Missing? ==> s == CellText(Or(a, b))
    ensures Truthy(a) ==> s == CellText(a)
  {
    var v := Or(a, b);
    if v.Missing? then "" else CellText(v)
  }

  /** A text cell under the first header wins over the second header. */
  lemma FirstHeaderWins(x: string, b: CellValue)
    requires x != ""
    ensures FieldText(Text(x), b) == x
  {
  }

  /** A row under the template's headers (`NIS`, `Nama Siswa`, `Kelas`,
      `Password`) and their lower-case alternatives. */
  datatype Row = Row(
    nisUpper: CellValue, nisLower: CellValue,
    namaSiswa: CellValue, nama: CellValue,
    kelasUpper: CellValue, kelasLower: CellValue,
    passwordUpper: CellValue, passwordLower: CellValue)

  // ---------------------------------------------------------------------------
  // Row to student

  /** The class lookup: a class whose lower-cased name equals the lower-cased
      cell text. An absent cell compares with `undefined` and matches none. */
  function ClassMatches(cell: CellValue): Kelas -> bool {
    (k: Kelas) => !cell.Missing? && Lower(k.nama) == Lower(CellText(cell))
  }

  /** The class id of the first matching class, or `''`. */
  function ClassIdOf(classes: seq<Kelas>, cell: CellValue): (id: string)
    ensures Find(classes, ClassMatches(cell)).None? ==> id == ""
    ensures Find(classes, ClassMatches(cell)).Some? ==> id == Find(classes, ClassMatches(cell)).value.id
    ensures id != "" ==> exists k :: k in classes && k.id == id
  {
    match Find(classes, ClassMatches(cell))
    case None => ""
    case Some(k) => k.id
  }

  /** The mapping callback of `handleFileUpload`. */
  function RowToSiswa(row: Row, classes: seq<Kelas>, id: string): (s: Siswa)
    ensures s.id == id
    ensures s.nis == FieldText(row.nisUpper, row.nisLower)
    ensures s.nama == FieldText(row.namaSiswa, row.nama)
    ensures s.password == Some(FieldText(row.passwordUpper, row.passwordLower))
    ensures s.kelasId == ClassIdOf(classes, Or(row.kelasUpper, row.kelasLower))
  {
    Siswa(
      id,
      FieldText(row.nisUpper, row.nisLower),
      FieldText(row.namaSiswa, row.nama),
      ClassIdOf(classes, Or(row.kelasUpper, row.kelasLower)),
      Some(FieldText(row.passwordUpper, row.passwordLower)))
  }

  /** The filter callback: all four fields non-empty. */
  predicate Complete(s: Siswa) {
    s.nis != "" && s.nama != "" && s.kelasId != "" && s.password.Some? && s.password.value != ""
  }

  /** Every row mapped, `ids[i]` being the fresh id of row `i`. */
  function MappedRows(rows: seq<Row>, classes: seq<Kelas>, ids: seq<string>): (r: seq<Siswa>)
    requires |ids| >= |rows|
    ensures |r| == |rows|
    ensures forall i :: 0 <= i < |rows| ==> r[i] == RowToSiswa(rows[i], classes, ids[i])
  {
    seq(|rows|, i requires 0 <= i < |rows| => RowToSiswa(rows[i], classes, ids[i]))
  }

  /** `newStudents`: the mapped rows with all four fields, in row order.
      Each carries the id of an existing class. */
  function ImportedStudents(rows: seq<Row>, classes: seq<Kelas>, ids: seq<string>): (r: seq<Siswa>)
    requires |ids| >= |rows|
    ensures |r| <= |rows|
    ensures forall s :: s in r ==> Complete(s) && exists k :: k in classes && k.id == s.kelasId
    ensures forall i :: 0 <= i < |rows| && Complete(RowToSiswa(rows[i], classes, ids[i])) ==>
              RowToSiswa(rows[i], classes, ids[i]) in r
    ensures forall s :: s in r ==> exists i :: 0 <= i < |rows| && s == RowToSiswa(rows[i], classes, ids[i])
    ensures IsSubsequence(r, MappedRows(rows, classes, ids))
  {
    var mapped := MappedRows(rows, classes, ids);
    FilterIsSubsequence(mapped, (s: Siswa) => Complete(s));
    var r := Filter(mapped, (s: Siswa) => Complete(s));
    assert forall i :: 0 <= i < |rows| ==> mapped[i] in mapped;
    r
  }

  /** A row is imported exactly when its three text fields are non-empty and
      its class cell names an existing class (with a non-empty id). */
  lemma ImportedIff(row: Row, classes: seq<Kelas>, id: string)
    ensures Complete(RowToSiswa(row, classes, id)) <==>
              && FieldText(row.nisUpper, row.nisLower) != ""
              && FieldText(row.namaSiswa, row.nama) != ""
              && FieldText(row.passwordUpper, row.passwordLower) != ""
              && Find(classes, ClassMatches(Or(row.kelasUpper, row.kelasLower))).Some?
              && Find(classes, ClassMatches(Or(row.kelasUpper, row.kelasLower))).value.id != ""
  {
  }

  /** A row whose class cells are both absent is never imported. */
  lemma NoClassNoImport(row: Row, classes: seq<Kelas>, id: string)
    requires row.kelasUpper.Missing? && row.kelasLower.Missing?
    ensures !Complete(RowToSiswa(row, classes, id))
  {
    assert Find(classes, ClassMatches(Missing)).None?;
  }

  /** The alert after an import. */
  function ImportedMessage(n: nat): string {
    NatToString(n) + " siswa berhasil diimpor."
  }

  const ImportFailedMessage: string :=
    "Gagal memproses file Excel. Pastikan formatnya benar dengan kolom: NIS, Nama Siswa, Kelas, Password."

  /** What the file input delivered: nothing chosen, a file the reader could
      not parse, or the rows of its first sheet. */
  datatype Upload = NoFile | Unreadable | Sheet(rows: seq<Row>)

  /** `handleFileUpload` once the file has been read; `ids[i]` is the fresh id
      for row `i`. Returns the alert shown, if any. */
  method HandleFileUpload(store: App.Store, upload: Upload, ids: seq<string>) returns (alert: Option<string>)
    requires upload.Sheet? ==> |ids| >= |upload.rows|
    modifies store`students
    ensures upload.NoFile? ==> alert.None? && store.students == old(store.students)
    ensures upload.Unreadable? ==> alert == Some(ImportFailedMessage) && store.students == old(store.students)
    ensures upload.Sheet? ==>
              var added := ImportedStudents(upload.rows, store.classes, ids);
              && store.students == old(store.students) + added
              && alert == Some(ImportedMessage(|added|))
  {
    match upload
    case NoFile =>
      alert := None;
    case Unreadable =>
      alert := Some(ImportFailedMessage);
    case Sheet(rows) =>
      var newStudents := ImportedStudents(rows, store.classes, ids);
      store.AppendStudents(newStudents);
      alert := Some(ImportedMessage(|newStudents|));
  }

  // ---------------------------------------------------------------------------
  // The manual form

  datatype StudentDraft = StudentDraft(nis: string, nama: string, kelasId: string, password: string)

  const EmptyStudent: StudentDraft := StudentDraft("", "", "", "")

  datatype StudentField = NisField | NamaField | KelasIdField | PasswordField

  function WithStudentField(d: StudentDraft, field: StudentField, value: string): (r: StudentDraft)
    ensures field.NisField? ==> r == d.(nis := value)
    ensures field.NamaField? ==> r == d.(nama := value)
    ensures field.KelasIdField? ==> r == d.(kelasId := value)
    ensures field.PasswordField? ==> r == d.(password := value)
  {
    match field
    case NisField => d.(nis := value)
    case NamaField => d.(nama := value)
    case KelasIdField => d.(kelasId := value)
    case PasswordField => d.(password := value)
  }

  /** The student record a draft becomes before the store gives it an id. */
  function DraftToSiswa(d: StudentDraft): (s: Siswa)
    ensures s.nis == d.nis && s.nama == d.nama && s.kelasId == d.kelasId && s.password == Some(d.password)
  {
    Siswa("", d.nis, d.nama, d.kelasId, Some(d.password))
  }

  predicate DraftComplete(d: StudentDraft) {
    d.nis != "" && d.nama != "" && d.kelasId != "" && d.password != ""
  }

  /** A manually added student passes the same completeness rule as an
      imported one. */
  lemma ManualAddIsComplete(d: StudentDraft, id: string)
    ensures DraftComplete(d) <==> Complete(DraftToSiswa(d).(id := id))
  {
  }

  class DataPesertaForm {
    var isModalOpen: bool
    var newStudent: StudentDraft

    constructor ()
      ensures !isModalOpen && newStudent == EmptyStudent
    {
      isModalOpen, newStudent := false, EmptyStudent;
    }

    method OpenModal()
      modifies this`isModalOpen
      ensures isModalOpen
    {
      isModalOpen := true;
    }

    /** "Batal" closes the form and keeps what was typed. */
    method CloseModal()
      modifies this`isModalOpen
      ensures !isModalOpen
    {
      isModalOpen := false;
    }

    method HandleInputChange(field: StudentField, value: string)
      modifies this`newStudent
      ensures newStudent == WithStudentField(old(newStudent), field, value)
    {
      newStudent := WithStudentField(newStudent, field, value);
    }

    /** `handleAddStudent`: with all four fields the student is stored under
        `id` and the form cleared and closed; otherwise nothing changes. */
    method HandleAddStudent(store: App.Store, id: string)
      modifies store`students, this`newStudent, this`isModalOpen
      ensures DraftComplete(old(newStudent)) ==>
                && store.students == old(store.students) + [DraftToSiswa(old(newStudent)).(id := id)]
                && newStudent == EmptyStudent && !isModalOpen
      ensures !DraftComplete(old(newStudent)) ==>
                store.students == old(store.students) && newStudent == old(newStudent) && isModalOpen == old(isModalOpen)
    {
      if DraftComplete(newStudent) {
        store.AddStudent(DraftToSiswa(newStudent), id);
        newStudent := EmptyStudent;
        isModalOpen := false;
      }
    }
  }
}
