/** The subject list (screens/admin/DataMapel.tsx): adding a subject under
    its trimmed name, and deletion. */
module DataMapel {
  import opened Common
  import opened Types
  import App

  class DataMapelForm {
    var newSubjectName: string
    var isModalOpen: bool

    constructor ()
      ensures newSubjectName == "" && !isModalOpen
    {
      newSubjectName, isModalOpen := "", false;
    }

    method OpenModal()
      modifies this`isModalOpen
      ensures isModalOpen
    {
      isModalOpen := true;
    }

    /** "Batal" closes the form and keeps the typed name. */
    method CloseModal()
      modifies this`isModalOpen
      ensures !isModalOpen
    {
      isModalOpen := false;
    }

    method SetNewSubjectName(name: string)
      modifies this`newSubjectName
      ensures newSubjectName == name
    {
      newSubjectName := name;
    }

    /** `handleAddSubject`: a name that is not all white space is stored
        trimmed under `id`, and the input cleared and the form closed; an
        all-white name changes nothing. */
    method HandleAddSubject(store: App.Store, id: string)
      modifies store`subjects, this`newSubjectName, this`isModalOpen
      ensures !Blank(old(newSubjectName)) ==>
                && store.subjects == old(store.subjects) + [MataPelajaran(id, Trim(old(newSubjectName)))]
                && newSubjectName == "" && !isModalOpen
      ensures Blank(old(newSubjectName)) ==>
                store.subjects == old(store.subjects) && newSubjectName == old(newSubjectName) &&
                isModalOpen == old(isModalOpen)
    {
      TrimEmptyIffBlank(newSubjectName);
      if Trim(newSubjectName) != "" {
        store.AddSubject(MataPelajaran("", Trim(newSubjectName)), id);
        newSubjectName := "";
        isModalOpen := false;
      }
    }

    /** The delete button removes the subject alone; its questions and
        schedules stay in the store. */
    method HandleDeleteSubject(store: App.Store, id: string)
      modifies store`subjects
      ensures store.subjects == App.DeleteAction(old(store.subjects), id, (m: MataPelajaran) => m.id)
      ensures unchanged(store`questions, store`schedules)
    {
      store.DeleteSubject(id);
    }
  }
}
