/**
 * The admin's "edit staff" form (ui/staff/StaffFormFragment.kt): it loads a profile into the
 * fields, checks the edited fields, changes the sign-in email or password on the secondary
 * Firebase app when needed, and merges a four-field patch into the profile document. The
 * outcomes of the secondary sign-in, the two account updates and the profile write are
 * parameters; the calls made on the secondary app are kept as a log.
 */
module StaffForm {
  import opened Wrappers
  import opened Firestore
  import Text
  import UserMapper

  const NameRequired := "Nama wajib diisi"
  const EmailRequired := "Email wajib diisi"
  const CurrentPasswordRequired := "Isi password saat ini untuk mengganti email/password"
  const NewPasswordTooShort := "Password baru minimal 6 karakter"
  const SecondaryUserNull := "User sekunder null"
  const MinPassword := 6

  /** The fields as `onSave` reads them: trimmed, the email lowercased, the role defaulting to staff. */
  datatype FormInput = FormInput(name: string, email: string, role: string, currentPass: string, newPass: string)

  function ReadForm(nameText: string, emailText: string, roleText: string, currentText: string,
                    newText: string): FormInput
  {
    FormInput(Text.Trim(nameText), Text.Lower(Text.Trim(emailText)),
              Text.OrIfBlank(Some(Text.Trim(roleText)), "staff"), Text.Trim(currentText), Text.Trim(newText))
  }

  /** `needAuthChange`: the email was edited or a new password was typed. */
  predicate NeedAuthChange(i: FormInput, originalEmail: string)
  {
    i.email != originalEmail || i.newPass != []
  }

  /** The edit passes every check of `onSave`. */
  predicate Accepted(i: FormInput, originalEmail: string)
  {
    && !Text.IsBlank(i.name) && !Text.IsBlank(i.email)
    && !(NeedAuthChange(i, originalEmail) && Text.IsBlank(i.currentPass))
    && !(i.newPass != [] && |i.newPass| < MinPassword)
  }

  /** A call made on the secondary Firebase app. */
  datatype AuthOp = SignIn(email: string, password: string) | UpdateEmail(newEmail: string)
                  | UpdatePassword(newPassword: string) | SignOut

  /**
   * `doAuthChange()`, given the outcome of the secondary sign-in (whether it returned a user)
   * and the errors of the email and password updates: the calls made, and the error that
   * ends it, if any.
   */
  function AuthChange(i: FormInput, originalEmail: string, signIn: Result<bool>,
                      emailUpdate: Option<string>, passwordUpdate: Option<string>)
    : (r: (seq<AuthOp>, Option<string>))
    ensures !NeedAuthChange(i, originalEmail) ==> r == ([], None)
    ensures NeedAuthChange(i, originalEmail) ==>
      && |r.0| >= 2 && r.0[0] == SignIn(originalEmail, i.currentPass) && r.0[|r.0| - 1] == SignOut
      && (forall k :: 0 < k < |r.0| - 1 ==> r.0[k].UpdateEmail? || r.0[k].UpdatePassword?)
    ensures forall op :: op in r.0 && op.UpdateEmail? ==> op.newEmail == i.email && i.email != originalEmail
    ensures forall op :: op in r.0 && op.UpdatePassword? ==> op.newPassword == i.newPass && i.newPass != []
    ensures signIn.Failure? && NeedAuthChange(i, originalEmail) ==> r.1 == Some(signIn.message)
    ensures signIn == Success(false) && NeedAuthChange(i, originalEmail) ==> r.1 == Some(SecondaryUserNull)
    ensures r.1.None? && NeedAuthChange(i, originalEmail) ==>
      && signIn == Success(true)
      && (i.email != originalEmail ==> UpdateEmail(i.email) in r.0)
      && (i.newPass != [] ==> UpdatePassword(i.newPass) in r.0)
  {
    if !NeedAuthChange(i, originalEmail) then ([], None)
    else
      var signInOp := SignIn(originalEmail, i.currentPass);
      if signIn.Failure? then ([signInOp, SignOut], Some(signIn.message))
      else if !signIn.value then ([signInOp, SignOut], Some(SecondaryUserNull))
      else
        var emailOps := if i.email != originalEmail then [UpdateEmail(i.email)] else [];
        if i.email != originalEmail && emailUpdate.Some? then ([signInOp] + emailOps + [SignOut], emailUpdate)
        else
          var passOps := if i.newPass != [] then [UpdatePassword(i.newPass)] else [];
          var ops := [signInOp] + emailOps + passOps + [SignOut];
          assert ops[1..|ops| - 1] == emailOps + passOps;
          (ops, if i.newPass != [] then passwordUpdate else None)
  }

  /** Every sign-in on the secondary app is followed by a sign-out, whatever fails in between. */
  lemma AuthChangeSignsOut(i: FormInput, originalEmail: string, signIn: Result<bool>,
                           emailUpdate: Option<string>, passwordUpdate: Option<string>)
    ensures var ops := AuthChange(i, originalEmail, signIn, emailUpdate, passwordUpdate).0;
      forall k :: 0 <= k < |ops| && ops[k].SignIn? ==> exists j :: k < j < |ops| && ops[j] == SignOut
  {
    var ops := AuthChange(i, originalEmail, signIn, emailUpdate, passwordUpdate).0;
    if ops != [] {
      assert ops[|ops| - 1] == SignOut;
    }
  }

  /** The patch written with merge: exactly name, email, role and the update time. */
  function Patch(i: FormInput, stamp: Value): (r: Doc)
    ensures r.Keys == {"name", "email", "role", "updatedAt"}
  {
    map["name" := Str(i.name), "email" := Str(i.email), "role" := Str(i.role), "updatedAt" := stamp]
  }

  /** The stored profile, or an empty one (a merge-set creates a missing document). */
  function Stored(users: map<string, Doc>, uid: string): Doc
  {
    if uid in users then users[uid] else map[]
  }

  /** The collection after the patch is merged into document uid. */
  function Patched(users: map<string, Doc>, uid: string, i: FormInput, stamp: Value): map<string, Doc>
  {
    users[uid := Merge(Stored(users, uid), Patch(i, stamp))]
  }

  /**
   * Merging the patch changes the user's email, name and role to the edited ones and nothing
   * else: the uid and, above all, the active flag stay as they were.
   */
  lemma PatchKeepsOtherFields(d: Doc, i: FormInput, stamp: Value, id: string)
    ensures var before, after := UserMapper.From(Some(d), id), UserMapper.From(Some(Merge(d, Patch(i, stamp))), id);
      after == before.(email := i.email, name := i.name, role := i.role)
  {
    var p := Patch(i, stamp);
    var m := Merge(d, p);
    assert m["name"] == Str(i.name) && m["email"] == Str(i.email) && m["role"] == Str(i.role);
    assert Field(m, "uid") == Field(d, "uid") && Field(m, "isActive") == Field(d, "isActive");
  }

  /** What `onSave` did. */
  datatype SaveOutcome = MissingUid | Invalid | Saved | Failed(message: string)

  class StaffFormFragment {
    var targetUid: Option<string>
    var originalEmail: string
    /** The `users` collection, by document id. */
    var users: map<string, Doc>
    var nameError: Option<string>
    var emailError: Option<string>
    var currentPasswordError: Option<string>
    var newPasswordError: Option<string>
    var loading: bool
    var saveEnabled: bool
    /** The calls made on the secondary app so far. */
    var authLog: seq<AuthOp>
    /** The fragment went back after a save. */
    var closed: bool

    constructor(targetUid: Option<string>, users: map<string, Doc>)
      ensures this.targetUid == targetUid && this.users == users && originalEmail == ""
      ensures nameError.None? && emailError.None? && currentPasswordError.None? && newPasswordError.None?
      ensures !loading && saveEnabled && authLog == [] && !closed
    {
      this.targetUid := targetUid;
      this.users := users;
      originalEmail := "";
      nameError, emailError, currentPasswordError, newPasswordError := None, None, None, None;
      loading, saveEnabled := false, true;
      authLog := [];
      closed := false;
    }

    /**
     * `loadUserSafe(uid)`: on success, the name, email and role put into the fields (None when
     * the read fails), and the lowercased stored email kept as the original email.
     */
    method LoadUser(uid: string, loadError: Option<string>) returns (shown: Option<(string, string, string)>)
      modifies this`loading, this`originalEmail
      ensures loadError.Some? ==> shown.None? && originalEmail == old(originalEmail)
      ensures loadError.None? ==>
        var d := Stored(users, uid);
        && shown.Some?
        && shown.value.0 == (if Field(d, "name").Some? then Text.Trim(ToText(d["name"]))
                             else Text.Trim(UserMapper.TextOr(d, "nama", "")))
        && shown.value.1 == Text.Lower(UserMapper.TextOr(d, "email", ""))
        && shown.value.2 == Text.OrIfBlank(StrField(d, "role"), "staff")
        && originalEmail == shown.value.1
      ensures !loading
    {
      loading := true;
      if loadError.Some? {
        shown := None;
      } else {
        var d := Stored(users, uid);
        var name := if Field(d, "name").Some? then Text.Trim(ToText(d["name"]))
                    else Text.Trim(UserMapper.TextOr(d, "nama", ""));
        var email := Text.Lower(UserMapper.TextOr(d, "email", ""));
        var role := Text.OrIfBlank(StrField(d, "role"), "staff");
        shown := Some((name, email, role));
        originalEmail := email;
      }
      loading := false;
    }

    /**
     * The field checks of `onSave()`, in order: name and email (both errors set before giving
     * up), then the current password when the account must change, then the new password's
     * length. A check that is not reached leaves its error as it was.
     */
    method CheckFields(i: FormInput) returns (ok: bool)
      modifies this`nameError, this`emailError, this`currentPasswordError, this`newPasswordError
      ensures ok <==> Accepted(i, originalEmail)
      ensures nameError == (if Text.IsBlank(i.name) then Some(NameRequired) else None)
      ensures emailError == (if Text.IsBlank(i.email) then Some(EmailRequired) else None)
      ensures Text.IsBlank(i.name) || Text.IsBlank(i.email) ==>
        currentPasswordError == old(currentPasswordError) && newPasswordError == old(newPasswordError)
      ensures !Text.IsBlank(i.name) && !Text.IsBlank(i.email) ==>
        && currentPasswordError == (if NeedAuthChange(i, originalEmail) && Text.IsBlank(i.currentPass)
                                    then Some(CurrentPasswordRequired) else None)
        && newPasswordError == (if currentPasswordError.Some? then old(newPasswordError)
                                else if i.newPass != [] && |i.newPass| < MinPassword then Some(NewPasswordTooShort)
                                else None)
    {
      ok := true;
      if Text.IsBlank(i.name) { nameError := Some(NameRequired); ok := false; } else { nameError := None; }
      if Text.IsBlank(i.email) { emailError := Some(EmailRequired); ok := false; } else { emailError := None; }
      if !ok {
        return;
      }
      var need := NeedAuthChange(i, originalEmail);
      if need && Text.IsBlank(i.currentPass) {
        currentPasswordError := Some(CurrentPasswordRequired);
        return false;
      }
      currentPasswordError := None;
      if i.newPass != [] && |i.newPass| < MinPassword {
        newPasswordError := Some(NewPasswordTooShort);
        return false;
      }
      newPasswordError := None;
    }

    /**
     * The part of `onSave()` after the checks pass, given the calls `doAuthChange()` made and
     * the error that ended it: the merge write of the patch into document uid.
     */
    method Commit(uid: string, i: FormInput, auth: (seq<AuthOp>, Option<string>), writeError: Option<string>,
                  stamp: Value)
      returns (outcome: SaveOutcome)
      modifies this`loading, this`saveEnabled, this`authLog, this`users, this`closed
      ensures outcome.Saved? || outcome.Failed?
      ensures authLog == old(authLog) + auth.0
      ensures outcome.Saved? <==> auth.1.None? && writeError.None?
      ensures outcome.Failed? ==> outcome.message == (if auth.1.Some? then auth.1.value else writeError.value)
      ensures outcome.Saved? ==>
        users == Patched(old(users), uid, i, stamp) && closed && loading && !saveEnabled
      ensures outcome.Failed? ==> users == old(users) && !loading && saveEnabled && closed == old(closed)
    {
      loading := true;
      saveEnabled := false;
      authLog := authLog + auth.0;
      if auth.1.None? && writeError.None? {
        users := Patched(users, uid, i, stamp);
        closed := true;
        return Saved;
      }
      loading := false;
      saveEnabled := true;
      outcome := Failed(if auth.1.Some? then auth.1.value else writeError.value);
    }

    /**
     * The part of `onSave()` after the fields are read. `signIn`, `emailUpdate` and
     * `passwordUpdate` are the outcomes of the secondary-app calls and `writeError` that of
     * the merge write; `stamp` stands for the server timestamp.
     */
    method Save(i: FormInput, signIn: Result<bool>, emailUpdate: Option<string>,
                passwordUpdate: Option<string>, writeError: Option<string>, stamp: Value)
      returns (outcome: SaveOutcome)
      modifies this`nameError, this`emailError, this`currentPasswordError, this`newPasswordError
      modifies this`loading, this`saveEnabled, this`authLog, this`users, this`closed
      ensures outcome == MissingUid <==> Text.IsNullOrBlank(targetUid)
      ensures outcome == MissingUid ==>
        && nameError == old(nameError) && emailError == old(emailError)
        && currentPasswordError == old(currentPasswordError) && newPasswordError == old(newPasswordError)
      ensures outcome != MissingUid ==>
        && nameError == (if Text.IsBlank(i.name) then Some(NameRequired) else None)
        && emailError == (if Text.IsBlank(i.email) then Some(EmailRequired) else None)
      ensures outcome == Invalid <==> !Text.IsNullOrBlank(targetUid) && !Accepted(i, originalEmail)
      ensures outcome.Saved? || outcome.Failed? ==> currentPasswordError.None? && newPasswordError.None?
      ensures outcome == MissingUid || outcome == Invalid ==>
        && users == old(users) && authLog == old(authLog) && loading == old(loading)
        && saveEnabled == old(saveEnabled) && closed == old(closed)
      ensures outcome.Saved? || outcome.Failed? ==>
        authLog == old(authLog) + AuthChange(i, originalEmail, signIn, emailUpdate, passwordUpdate).0
      ensures outcome.Saved? || outcome.Failed? ==>
        (outcome.Saved? <==> AuthChange(i, originalEmail, signIn, emailUpdate, passwordUpdate).1.None? && writeError.None?)
      ensures outcome.Failed? ==>
        outcome.message == AuthChange(i, originalEmail, signIn, emailUpdate, passwordUpdate).1.GetOr(writeError.GetOr(""))
      ensures outcome.Saved? ==>
        && users == Patched(old(users), targetUid.value, i, stamp)
        && closed
      ensures outcome.Failed? ==> users == old(users) && !loading && saveEnabled && closed == old(closed)
    {
      if targetUid.None? || Text.IsBlank(targetUid.value) {
        return MissingUid;
      }
      var ok := CheckFields(i);
      if !ok {
        return Invalid;
      }
      outcome := Commit(targetUid.value, i, AuthChange(i, originalEmail, signIn, emailUpdate, passwordUpdate),
                        writeError, stamp);
    }

    /** `onSave()`: reads the five fields, then saves them; `input` is what was read. */
    method OnSave(nameText: string, emailText: string, roleText: string, currentText: string, newText: string,
                  signIn: Result<bool>, emailUpdate: Option<string>, passwordUpdate: Option<string>,
                  writeError: Option<string>, stamp: Value)
      returns (input: FormInput, outcome: SaveOutcome)
      modifies this`nameError, this`emailError, this`currentPasswordError, this`newPasswordError
      modifies this`loading, this`saveEnabled, this`authLog, this`users, this`closed
      ensures input == ReadForm(nameText, emailText, roleText, currentText, newText)
      ensures outcome == MissingUid <==> Text.IsNullOrBlank(targetUid)
      ensures outcome == Invalid <==> !Text.IsNullOrBlank(targetUid) && !Accepted(input, originalEmail)
      ensures outcome.Saved? ==>
        && users == Patched(old(users), targetUid.value, input, stamp)
        && closed
      ensures !outcome.Saved? ==> users == old(users)
      ensures outcome.Saved? || outcome.Failed? ==>
        authLog == old(authLog) + AuthChange(input, originalEmail, signIn, emailUpdate, passwordUpdate).0
      ensures outcome == MissingUid || outcome == Invalid ==> authLog == old(authLog)
    {
      input := ReadForm(nameText, emailText, roleText, currentText, newText);
      outcome := Save(input, signIn, emailUpdate, passwordUpdate, writeError, stamp);
    }
  }

  /**
   * Saving the loaded email unchanged, with no new password, needs no account change, as long
   * as the stored email has no surrounding whitespace (which `onSave` would trim away).
   */
  lemma UnchangedEmailNeedsNoAuth(stored: string, nameText: string, roleText: string, currentText: string,
                                  newText: string)
    requires Text.Trim(stored) == stored && Text.IsBlank(newText)
    ensures var original := Text.Lower(stored);
      !NeedAuthChange(ReadForm(nameText, original, roleText, currentText, newText), original)
  {
    var l := Text.Lower(stored);
    assert l == [] || (!Text.IsWhitespace(l[0]) && !Text.IsWhitespace(l[|l| - 1]));
    Text.TrimOfTrimmed(l);
    Text.LowerIdempotent(stored);
    Text.TrimBlank(newText);
  }
}
