/**
 * The admin's "add staff" screen (ui/staff/CreateStaffActivity.kt): four input checks, each
 * with its own error, then an account on the secondary Firebase app and a profile document.
 * The account-creation and profile-write outcomes are parameters.
 */
module CreateStaff {
  import opened Wrappers
  import opened Firestore
  import Text
  import UserMapper

  const NameRequired := "Nama wajib"
  const EmailRequired := "Email wajib"
  const PasswordTooShort := "Min 6 karakter"
  const ConfirmMismatch := "Tidak sama"
  const MinPassword := 6
  const StaffCreated := "Staff dibuat."
  const ProfileFailed := "Gagal menyimpan profil"
  const AccountFailed := "Gagal membuat akun"

  /** `message ?: fallback`: an exception without a message shows the fallback. */
  function MessageOr(message: string, fallback: string): string
  {
    if message == [] then fallback else message
  }

  /** The checked inputs: trimmed name and password, trimmed lowercased email, role defaulting to staff. */
  datatype StaffInput = StaffInput(name: string, email: string, role: string, password: string, confirm: string)

  function ReadInput(nameText: string, emailText: string, roleText: string, passText: string,
                     confText: string): StaffInput
  {
    StaffInput(Text.Trim(nameText), Text.Lower(Text.Trim(emailText)),
               Text.OrIfBlank(Some(Text.Trim(roleText)), "staff"), Text.Trim(passText), Text.Trim(confText))
  }

  /** A blank role field gives the staff role; any other role is kept, trimmed. */
  lemma RoleDefault(nameText: string, emailText: string, roleText: string, passText: string, confText: string)
    ensures var r := ReadInput(nameText, emailText, roleText, passText, confText).role;
      && (Text.IsBlank(roleText) ==> r == "staff")
      && (!Text.IsBlank(roleText) ==> r == Text.Trim(roleText) && r != [])
  {
    Text.TrimBlank(roleText);
    Text.TrimBlank(Text.Trim(roleText));
  }

  /** All four checks pass. */
  predicate InputOk(i: StaffInput)
  {
    !Text.IsBlank(i.name) && !Text.IsBlank(i.email) && |i.password| >= MinPassword && i.password == i.confirm
  }

  /** The profile document written for a new staff account. */
  function StaffProfile(uid: string, i: StaffInput, stamp: Value): Doc
  {
    map["uid" := Str(uid), "email" := Str(i.email), "name" := Str(i.name), "role" := Str(i.role),
        "isActive" := Bool(true), "createdAt" := stamp, "updatedAt" := stamp]
  }

  /** A new staff profile reads back as the active user the form described. */
  lemma StaffProfileReadsBack(uid: string, i: StaffInput, stamp: Value)
    ensures UserMapper.From(Some(StaffProfile(uid, i, stamp)), uid)
         == UserMapper.User(uid, i.email, i.name, i.role, true)
  {
    var d := StaffProfile(uid, i, stamp);
    assert d["uid"] == Str(uid) && d["email"] == Str(i.email) && d["name"] == Str(i.name);
    assert d["role"] == Str(i.role) && d["isActive"] == Bool(true);
  }

  /**
   * The toasts one submission shows once the checks pass: none when Firebase returns no user,
   * otherwise exactly one, never empty.
   */
  function SubmitToasts(created: Result<Option<string>>, writeError: Option<string>): (r: seq<string>)
    ensures |r| <= 1 && forall t :: t in r ==> t != []
    ensures r == [] <==> created.Success? && created.value.None?
    ensures created.Success? && created.value.Some? && writeError.None? ==> r == [StaffCreated]
  {
    if created.Failure? then [MessageOr(created.message, AccountFailed)]
    else if created.value.None? then []
    else if writeError.None? then [StaffCreated]
    else [MessageOr(writeError.value, ProfileFailed)]
  }

  class CreateStaffActivity {
    var nameError: Option<string>
    var emailError: Option<string>
    var passwordError: Option<string>
    var confirmError: Option<string>
    /** The `users` collection, by document id. */
    var users: map<string, Doc>
    /** Progress shown and the save button disabled. */
    var busy: bool
    var finished: bool
    /** The toasts shown, oldest first. */
    var toasts: seq<string>

    constructor(users: map<string, Doc>)
      ensures this.users == users && !busy && !finished && toasts == []
      ensures nameError.None? && emailError.None? && passwordError.None? && confirmError.None?
    {
      this.users := users;
      nameError, emailError, passwordError, confirmError := None, None, None, None;
      busy, finished := false, false;
      toasts := [];
    }

    /** The four checks of `createStaff()`, each setting or clearing its own error. */
    method CheckInput(i: StaffInput) returns (ok: bool)
      modifies this
      ensures ok <==> InputOk(i)
      ensures nameError == (if Text.IsBlank(i.name) then Some(NameRequired) else None)
      ensures emailError == (if Text.IsBlank(i.email) then Some(EmailRequired) else None)
      ensures passwordError == (if |i.password| < MinPassword then Some(PasswordTooShort) else None)
      ensures confirmError == (if i.password != i.confirm then Some(ConfirmMismatch) else None)
      ensures users == old(users) && busy == old(busy) && finished == old(finished) && toasts == old(toasts)
    {
      ok := true;
      if Text.IsBlank(i.name) { nameError := Some(NameRequired); ok := false; } else { nameError := None; }
      if Text.IsBlank(i.email) { emailError := Some(EmailRequired); ok := false; } else { emailError := None; }
      if |i.password| < MinPassword { passwordError := Some(PasswordTooShort); ok := false; } else { passwordError := None; }
      if i.password != i.confirm { confirmError := Some(ConfirmMismatch); ok := false; } else { confirmError := None; }
    }

    /**
     * The part of `createStaff()` after the inputs are read: the checks, then account creation
     * and the profile write. Returns the (email, password) the account is created with, or None
     * when a check failed. `created` is the outcome of account creation (the new uid, or None
     * when Firebase returns no user) and `writeError` that of the profile write. A created
     * account with its profile toasts "Staff dibuat."; a failure toasts its message, or a fallback.
     */
    method Submit(i: StaffInput, created: Result<Option<string>>, writeError: Option<string>, stamp: Value)
      returns (account: Option<(string, string)>)
      modifies this
      ensures nameError == (if Text.IsBlank(i.name) then Some(NameRequired) else None)
      ensures emailError == (if Text.IsBlank(i.email) then Some(EmailRequired) else None)
      ensures passwordError == (if |i.password| < MinPassword then Some(PasswordTooShort) else None)
      ensures confirmError == (if i.password != i.confirm then Some(ConfirmMismatch) else None)
      ensures account.Some? <==> InputOk(i)
      ensures account.Some? ==> account.value == (i.email, i.password)
      ensures account.None? ==> users == old(users) && busy == old(busy) && finished == old(finished)
      ensures account.None? ==> toasts == old(toasts)
      ensures account.Some? ==> toasts == old(toasts) + SubmitToasts(created, writeError)
      ensures account.Some? ==>
        if created.Success? && created.value.Some? && writeError.None? then
          users == old(users)[created.value.value := StaffProfile(created.value.value, i, stamp)] && finished
        else users == old(users) && finished == old(finished)
             && (busy <==> created.Success? && created.value.None?)
    {
      var ok := CheckInput(i);
      if !ok {
        return None;
      }
      account := Some((i.email, i.password));
      busy := true;
      if created.Failure? {
        toasts := toasts + [MessageOr(created.message, AccountFailed)];
        busy := false;
      } else if created.value.Some? {
        var uid := created.value.value;
        if writeError.None? {
          users := users[uid := StaffProfile(uid, i, stamp)];
          toasts := toasts + [StaffCreated];
          finished := true;
        } else {
          toasts := toasts + [MessageOr(writeError.value, ProfileFailed)];
          busy := false;
        }
      }
    }

    /** `createStaff()`: reads the five fields, then submits them; `input` is what was read. */
    method CreateStaff(nameText: string, emailText: string, roleText: string, passText: string,
                       confText: string, created: Result<Option<string>>, writeError: Option<string>,
                       stamp: Value)
      returns (input: StaffInput, account: Option<(string, string)>)
      modifies this
      ensures input == ReadInput(nameText, emailText, roleText, passText, confText)
      ensures account.Some? <==> InputOk(input)
      ensures account.Some? ==> account.value == (input.email, input.password)
      ensures nameError == (if Text.IsBlank(input.name) then Some(NameRequired) else None)
      ensures emailError == (if Text.IsBlank(input.email) then Some(EmailRequired) else None)
      ensures passwordError == (if |input.password| < MinPassword then Some(PasswordTooShort) else None)
      ensures confirmError == (if input.password != input.confirm then Some(ConfirmMismatch) else None)
      ensures account.None? ==> users == old(users) && busy == old(busy) && finished == old(finished)
      ensures account.None? ==> toasts == old(toasts)
      ensures account.Some? ==> toasts == old(toasts) + SubmitToasts(created, writeError)
      ensures account.Some? ==>
        if created.Success? && created.value.Some? && writeError.None? then
          users == old(users)[created.value.value := StaffProfile(created.value.value, input, stamp)] && finished
        else users == old(users) && finished == old(finished)
             && (busy <==> created.Success? && created.value.None?)
    {
      input := ReadInput(nameText, emailText, roleText, passText, confText);
      account := Submit(input, created, writeError, stamp);
    }
  }
}
