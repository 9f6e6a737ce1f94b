/** The class list (screens/admin/DataKelas.tsx): adding a class under its
    trimmed name, the number of students in each class, and deletion. */
module DataKelas {
  import opened Common
  import opened Types
  import App

  /** `students.filter(s => s.kelasId === kelas.id).length`. */
  function StudentCount(students: seq<Siswa>, kelasId: string): (n: nat)
    ensures n <= |students|
    ensures n == 0 <==> forall s :: s in students ==> s.kelasId != kelasId
  {
    var ofClass := Filter(students, (s: Siswa) => s.kelasId == kelasId);
    assert ofClass != [] ==> ofClass[0] in ofClass;
    |ofClass|
  }

  /** Importing students adds to each class the number of imported students
      in it. */
  lemma StudentCountAppend(students: seq<Siswa>, added: seq<Siswa>, kelasId: string)
    ensures StudentCount(students + added, kelasId) == StudentCount(students, kelasId) + StudentCount(added, kelasId)
  {
    FilterAppend(students, added, (s: Siswa) => s.kelasId == kelasId);
  }

  /** The name kept for a class has no white space at either end and is not
      empty. */
  lemma TrimmedNameIsClean(name: string)
    requires !Blank(name)
    ensures Trim(name) != "" && Trim(Trim(name)) == Trim(name)
    ensures !IsSpace(Trim(name)[0]) && !IsSpace(Trim(name)[|Trim(name)| - 1])
  {
    TrimEmptyIffBlank(name);
    TrimIdempotent(name);
  }

  class DataKelasForm {
    var newClassName: string
    var isModalOpen: bool

    constructor ()
      ensures newClassName == "" && !isModalOpen
    {
      newClassName, isModalOpen := "", false;
    }

    method OpenModal()
      modifies this`isModalOpen
      ensures isModalOpen
    {
      isModalOpen := true;
    }

    /** "Batal" closes the form and keeps the typed name. */
    method CloseModal()
      modifies this`isModalOpen
      ensures !isModalOpen
    {
      isModalOpen := false;
    }

    method SetNewClassName(name: string)
      modifies this`newClassName
      ensures newClassName == name
    {
      newClassName := name;
    }

    /** `handleAddClass`: a name that is not all white space is stored trimmed
        under `id`, and the input cleared and the form closed; an all-white
        name changes nothing. */
    method HandleAddClass(store: App.Store, id: string)
      modifies store`classes, this`newClassName, this`isModalOpen
      ensures !Blank(old(newClassName)) ==>
                && store.classes == old(store.classes) + [Kelas(id, Trim(old(newClassName)))]
                && newClassName == "" && !isModalOpen
      ensures Blank(old(newClassName)) ==>
                store.classes == old(store.classes) && newClassName == old(newClassName) && isModalOpen == old(isModalOpen)
    {
      TrimEmptyIffBlank(newClassName);
      if Trim(newClassName) != "" {
        store.AddClass(Kelas("", Trim(newClassName)), id);
        newClassName := "";
        isModalOpen := false;
      }
    }

    /** The delete button removes the class alone; the students that named it
        keep their `kelasId`. */
    method HandleDeleteClass(store: App.Store, id: string)
      modifies store`classes
      ensures store.classes == App.DeleteAction(old(store.classes), id, (k: Kelas) => k.id)
      ensures unchanged(store`students)
    {
      store.DeleteClass(id);
    }
  }
}
