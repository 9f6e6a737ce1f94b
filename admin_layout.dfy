/** The admin shell (screens/admin/AdminLayout.tsx): the menu with its header
    label and content, and the admin password change. */
module AdminLayout {
  import opened Common

  // ---------------------------------------------------------------------------
  // Menu

  datatype MenuItem = MenuItem(id: string, caption: string)

  const MenuItems: seq<MenuItem> := [
    MenuItem("dashboard", "Dashboard"),
    MenuItem("peserta", "Data Peserta"),
    MenuItem("kelas", "Data Kelas"),
    MenuItem("mapel", "Data Mapel"),
    MenuItem("bank_soal", "Bank Soal"),
    MenuItem("jadwal", "Jadwal Ujian"),
    MenuItem("hasil", "Hasil Ujian")
  ]

  /** The section `renderContent` picks. */
  datatype Content = DashboardContent | PesertaContent | KelasContent | MapelContent
                   | BankSoalContent | JadwalContent | HasilContent

  /** `renderContent`: an unknown menu falls back to the dashboard. */
  function RenderContent(activeMenu: string): Content
  {
    if activeMenu == "peserta" then PesertaContent
    else if activeMenu == "kelas" then KelasContent
    else if activeMenu == "mapel" then MapelContent
    else if activeMenu == "bank_soal" then BankSoalContent
    else if activeMenu == "jadwal" then JadwalContent
    else if activeMenu == "hasil" then HasilContent
    else DashboardContent
  }

  function MenuMatches(activeMenu: string): MenuItem -> bool {
    (item: MenuItem) => item.id == activeMenu
  }

  lemma MenuIdsDistinct()
    ensures forall i, j :: 0 <= i < j < |MenuItems| ==> MenuItems[i].id != MenuItems[j].id
  {
  }

  /** `activeMenuLabel`: the caption of the item with the active id, else "Dashboard". */
  function ActiveMenuLabel(activeMenu: string): (caption: string)
    ensures forall k :: 0 <= k < |MenuItems| && MenuItems[k].id == activeMenu ==> caption == MenuItems[k].caption
    ensures (forall k :: 0 <= k < |MenuItems| ==> MenuItems[k].id != activeMenu) ==> caption == "Dashboard"
  {
    var i := FindIndex(MenuItems, MenuMatches(activeMenu));
    FoundItem(activeMenu);
    if i < |MenuItems| && MenuItems[i].caption != "" then MenuItems[i].caption else "Dashboard"
  }

  /** With distinct ids, `find` returns the one item carrying the id, and
      finds nothing when no item carries it. */
  lemma FoundItem(activeMenu: string)
    ensures var i := FindIndex(MenuItems, MenuMatches(activeMenu));
            && (forall k :: 0 <= k < |MenuItems| && MenuItems[k].id == activeMenu ==> k == i)
            && ((forall k :: 0 <= k < |MenuItems| ==> MenuItems[k].id != activeMenu) ==> i == |MenuItems|)
            && (i < |MenuItems| ==> MenuItems[i].caption != "")
  {
    var i := FindIndex(MenuItems, MenuMatches(activeMenu));
    forall k | 0 <= k < |MenuItems| && MenuItems[k].id == activeMenu ensures k == i {
      FoundItemIsUnique(activeMenu, k);
    }
    if i < |MenuItems| {
      assert MenuMatches(activeMenu)(MenuItems[i]);
    }
  }

  /** With distinct ids, `find` returns the one item carrying the id. */
  lemma FoundItemIsUnique(activeMenu: string, k: nat)
    requires k < |MenuItems| && MenuItems[k].id == activeMenu
    ensures FindIndex(MenuItems, MenuMatches(activeMenu)) == k
  {
    MenuIdsDistinct();
    assert MenuMatches(activeMenu)(MenuItems[k]);
  }

  /** The index of the item with the given id, or 7 past the end. */
  function MenuIndexOf(activeMenu: string): (k: nat)
    ensures k <= |MenuItems|
    ensures k < |MenuItems| ==> MenuItems[k].id == activeMenu
  {
    if activeMenu == "dashboard" then 0
    else if activeMenu == "peserta" then 1
    else if activeMenu == "kelas" then 2
    else if activeMenu == "mapel" then 3
    else if activeMenu == "bank_soal" then 4
    else if activeMenu == "jadwal" then 5
    else if activeMenu == "hasil" then 6
    else 7
  }

  /** The dashboard is rendered exactly for an id no other menu item carries. */
  lemma DashboardForUnlisted(activeMenu: string)
    ensures RenderContent(activeMenu).DashboardContent? <==>
              forall k :: 1 <= k < |MenuItems| ==> MenuItems[k].id != activeMenu
  {
    var k := MenuIndexOf(activeMenu);
    if k == |MenuItems| {
      forall j | 0 <= j < |MenuItems| ensures MenuItems[j].id != activeMenu {
      }
    }
  }

  /** The header and the content always agree: the dashboard caption is
      shown exactly when the dashboard is rendered, which is for the
      dashboard id and for every id no menu item carries. */
  lemma LabelAgreesWithContent(activeMenu: string)
    ensures ActiveMenuLabel(activeMenu) == "Dashboard" <==> RenderContent(activeMenu).DashboardContent?
    ensures RenderContent(activeMenu).DashboardContent? <==>
              forall k :: 1 <= k < |MenuItems| ==> MenuItems[k].id != activeMenu
  {
    DashboardForUnlisted(activeMenu);
    var k := MenuIndexOf(activeMenu);
    if k < |MenuItems| {
      assert ActiveMenuLabel(activeMenu) == MenuItems[k].caption;
      assert RenderContent(activeMenu).DashboardContent? <==> k == 0;
    } else {
      forall j | 0 <= j < |MenuItems| ensures MenuItems[j].id != activeMenu {
      }
      assert ActiveMenuLabel(activeMenu) == "Dashboard";
    }
  }

  // ---------------------------------------------------------------------------
  // Password change

  const DefaultAdminPassword := "admini"

  datatype MessageType = NoMessage | ErrorMessage | SuccessMessage

  datatype PasswordMessage = PasswordMessage(kind: MessageType, text: string)

  const EmptyMessage := PasswordMessage(NoMessage, "")
  const WrongOldMessage := PasswordMessage(ErrorMessage, "Kata sandi lama salah.")
  const TooShortMessage := PasswordMessage(ErrorMessage, "Kata sandi baru minimal 6 karakter.")
  const MismatchMessage := PasswordMessage(ErrorMessage, "Konfirmasi kata sandi tidak cocok.")
  const ChangedMessage := PasswordMessage(SuccessMessage, "Kata sandi berhasil diubah.")

  datatype PasswordFields = PasswordFields(oldPassword: string, newPassword: string, confirmPassword: string)

  const EmptyFields := PasswordFields("", "", "")

  datatype PasswordField = OldPassword | NewPassword | ConfirmPassword

  /** The three checks in order; `None` when all pass. The length is counted
      in UTF-16 code units, as `String.prototype.length` does. */
  function PasswordError(fields: PasswordFields, current: string): (e: Option<PasswordMessage>)
    ensures fields.oldPassword != current ==> e == Some(WrongOldMessage)
    ensures fields.oldPassword == current && Utf16Length(fields.newPassword) < 6 ==> e == Some(TooShortMessage)
    ensures (fields.oldPassword == current && Utf16Length(fields.newPassword) >= 6 &&
             fields.newPassword != fields.confirmPassword) ==> e == Some(MismatchMessage)
    ensures e.None? <==> fields.oldPassword == current && Utf16Length(fields.newPassword) >= 6 &&
                         fields.newPassword == fields.confirmPassword
  {
    if fields.oldPassword != current then Some(WrongOldMessage)
    else if fields.newPassword == "" || Utf16Length(fields.newPassword) < 6 then Some(TooShortMessage)
    else if fields.newPassword != fields.confirmPassword then Some(MismatchMessage)
    else None
  }

  class AdminLayoutState {
    var activeMenu: string
    var adminPassword: string
    var passwordFields: PasswordFields
    var passwordMessage: PasswordMessage
    var isPasswordModalOpen: bool

    /** The stored admin password is restored from browser storage. */
    constructor (stored: Option<string>)
      ensures activeMenu == "dashboard" && adminPassword == stored.GetOr(DefaultAdminPassword)
      ensures passwordFields == EmptyFields && passwordMessage == EmptyMessage && !isPasswordModalOpen
    {
      activeMenu, adminPassword := "dashboard", stored.GetOr(DefaultAdminPassword);
      passwordFields, passwordMessage, isPasswordModalOpen := EmptyFields, EmptyMessage, false;
    }

    method SelectMenu(menu: string)
      modifies this`activeMenu
      ensures activeMenu == menu
    {
      activeMenu := menu;
    }

    method OpenPasswordModal()
      modifies this`isPasswordModalOpen
      ensures isPasswordModalOpen
    {
      isPasswordModalOpen := true;
    }

    /** "Batal" closes the password form and keeps what was typed. */
    method ClosePasswordModal()
      modifies this`isPasswordModalOpen
      ensures !isPasswordModalOpen
    {
      isPasswordModalOpen := false;
    }

    /** `handlePasswordChange`. */
    method HandlePasswordChange(field: PasswordField, value: string)
      modifies this`passwordFields
      ensures field.OldPassword? ==> passwordFields == old(passwordFields).(oldPassword := value)
      ensures field.NewPassword? ==> passwordFields == old(passwordFields).(newPassword := value)
      ensures field.ConfirmPassword? ==> passwordFields == old(passwordFields).(confirmPassword := value)
    {
      match field
      case OldPassword => passwordFields := passwordFields.(oldPassword := value);
      case NewPassword => passwordFields := passwordFields.(newPassword := value);
      case ConfirmPassword => passwordFields := passwordFields.(confirmPassword := value);
    }

    /** `handlePasswordSubmit`: the message is reset, then the first failing
        check reports and leaves the password alone; when all pass the new
        password is stored. */
    method HandlePasswordSubmit()
      modifies this`adminPassword, this`passwordMessage
      ensures PasswordError(passwordFields, old(adminPassword)).Some? ==>
                adminPassword == old(adminPassword) &&
                passwordMessage == PasswordError(passwordFields, old(adminPassword)).value
      ensures PasswordError(passwordFields, old(adminPassword)).None? ==>
                adminPassword == passwordFields.newPassword && passwordMessage == ChangedMessage
    {
      passwordMessage := EmptyMessage;
      if passwordFields.oldPassword != adminPassword {
        passwordMessage := WrongOldMessage;
        return;
      }
      if passwordFields.newPassword == "" || Utf16Length(passwordFields.newPassword) < 6 {
        passwordMessage := TooShortMessage;
        return;
      }
      if passwordFields.newPassword != passwordFields.confirmPassword {
        passwordMessage := MismatchMessage;
        return;
      }
      adminPassword := passwordFields.newPassword;
      passwordMessage := ChangedMessage;
    }

    /** The delayed callback after a successful change closes and clears the form. */
    method CloseAfterSuccess()
      modifies this`isPasswordModalOpen, this`passwordFields, this`passwordMessage
      ensures !isPasswordModalOpen && passwordFields == EmptyFields && passwordMessage == EmptyMessage
    {
      isPasswordModalOpen, passwordFields, passwordMessage := false, EmptyFields, EmptyMessage;
    }
  }
}
