/**
 * The signed-in user's session (viewmodels/AuthViewModel.kt): reading a profile document into
 * a user, creating a minimal profile when none exists, and the rules that decide what the
 * current user is after a refresh, a login or a logout. Firebase Auth is reduced to the
 * signed-in account and the outcome of each sign-in or sign-up call, and the `users`
 * collection to an in-memory map from document id to fields.
 */
module AuthViewModel {
  import opened Wrappers
  import opened Firestore
  import Text
  import opened UserMapper

  /** `mapUser(uid, data, fallbackEmail)`: like `UserMapper.from`, with other defaults. */
  function MapUser(uid: string, data: Option<Doc>, fallbackEmail: Option<string>): (r: User)
    ensures var d := data.GetOr(map[]);
      && r.uid == uid
      && (Field(d, "email").None? ==> r.email == fallbackEmail.GetOr(""))
      && (StrField(d, "email").Some? ==> r.email == d["email"].s)
      && (StrField(d, "name").Some? ==> r.name == d["name"].s)
      && (Field(d, "name").None? && StrField(d, "nama").Some? ==> r.name == d["nama"].s)
      && (Field(d, "role").None? ==> r.role == "staff")
      && (StrField(d, "role").Some? ==> r.role == d["role"].s)
      && r.isActive == IsActiveOf(Field(d, "isActive"))
    ensures var d := data.GetOr(map[]);
      Field(d, "name").None? && Field(d, "nama").None? ==>
        && ('@' !in r.email ==> r.name == "Unknown User")
        && ('@' in r.email ==> '@' !in r.name && Text.StartsWith(r.email, r.name + "@"))
  {
    var d := data.GetOr(map[]);
    var email := match Field(d, "email")
      case Some(v) => ToText(v)
      case None => fallbackEmail.GetOr("");
    var name :=
      if Field(d, "name").Some? then TextOr(d, "name", "")
      else TextOr(d, "nama", Text.SubstringBefore(email, '@', "Unknown User"));
    User(uid, email, name, TextOr(d, "role", "staff"), IsActiveOf(Field(d, "isActive")))
  }

  /**
   * `mapUser` and `UserMapper.from` read role and activity the same way, and agree on email
   * and name whenever the document holds them.
   */
  lemma MapUserAgreesWithFrom(d: Doc, uid: string, fallbackEmail: Option<string>)
    ensures var a, b := MapUser(uid, Some(d), fallbackEmail), From(Some(d), uid);
      && a.role == b.role && a.isActive == b.isActive
      && (Field(d, "email").Some? ==> a.email == b.email)
      && (Field(d, "name").Some? || Field(d, "nama").Some? ==> a.name == b.name)
      && (Field(d, "uid").None? ==> a.uid == b.uid)
  {
  }

  /** The profile `ensureMinimumProfile(uid, email)` writes. */
  function MinimumProfile(uid: string, email: string): Doc
  {
    map["uid" := Str(uid), "email" := Str(email), "name" := Str(Text.SubstringBefore(email, '@', email)),
        "role" := Str("staff"), "isActive" := Bool(true)]
  }

  /** The profiles after a login of `u`: a missing profile is created from its email, else `email`. */
  function ProfilesAfterLogin(profiles: map<string, Doc>, u: AuthUser, email: string): (r: map<string, Doc>)
    ensures u.uid in r && r.Keys == profiles.Keys + {u.uid}
    ensures u.uid in profiles ==> r == profiles
    ensures u.uid !in profiles ==> r[u.uid] == MinimumProfile(u.uid, u.email.GetOr(email))
    ensures forall id :: id in profiles ==> id in r && r[id] == profiles[id]
  {
    if u.uid in profiles then profiles else profiles[u.uid := MinimumProfile(u.uid, u.email.GetOr(email))]
  }

  /** The user a login of `u` reads from its (possibly just created) profile. */
  function LoginUser(profiles: map<string, Doc>, u: AuthUser, email: string): (r: User)
    ensures r.uid == u.uid
    ensures u.uid in profiles ==> r == MapUser(u.uid, Some(profiles[u.uid]), u.email)
    ensures u.uid !in profiles ==>
      r == User(u.uid, u.email.GetOr(email), Text.SubstringBefore(u.email.GetOr(email), '@', u.email.GetOr(email)), "staff", true)
  {
    if u.uid in profiles then MapUser(u.uid, Some(profiles[u.uid]), u.email)
    else
      var e := u.email.GetOr(email);
      MinimumProfileReadsBack(u.uid, e, Some(e));
      MapUser(u.uid, Some(MinimumProfile(u.uid, e)), Some(e))
  }

  /** A minimal profile reads back as an active staff member named after the email's local part. */
  lemma MinimumProfileReadsBack(uid: string, email: string, fallbackEmail: Option<string>)
    ensures var u := MapUser(uid, Some(MinimumProfile(uid, email)), fallbackEmail);
      && u == User(uid, email, Text.SubstringBefore(email, '@', email), "staff", true)
      && ('@' !in email ==> u.name == email)
      && ('@' in email ==> Text.StartsWith(email, u.name + "@"))
  {
    var d := MinimumProfile(uid, email);
    assert "email" in d && d["email"] == Str(email);
    assert "name" in d && d["name"] == Str(Text.SubstringBefore(email, '@', email));
    assert "role" in d && d["role"] == Str("staff");
    assert "isActive" in d && d["isActive"] == Bool(true);
  }

  /** The account Firebase Auth has signed in. */
  datatype AuthUser = AuthUser(uid: string, email: Option<string>)

  /**
   * The outcomes of the Firestore calls made to load a profile that may be missing: the first
   * read, the minimum-profile write and the read after it, each None when it succeeds and
   * otherwise the error its `await()` throws.
   */
  datatype ProfileIo = ProfileIo(firstRead: Option<string>, write: Option<string>, secondRead: Option<string>)

  /**
   * The error loading a profile throws: the first read's; then, only for a missing profile,
   * the write's (when a write is made) and the second read's.
   */
  function LoadError(present: bool, writes: bool, io: ProfileIo): (r: Option<string>)
    ensures r.None? <==>
      io.firstRead.None? && (present || ((!writes || io.write.None?) && io.secondRead.None?))
    ensures io.firstRead.Some? ==> r == io.firstRead
    ensures io.firstRead.None? && present ==> r.None?
  {
    if io.firstRead.Some? then io.firstRead
    else if present then None
    else if writes && io.write.Some? then io.write
    else io.secondRead
  }

  /** The minimum profile gets written: the profile is missing, a write is made, and the calls up to it succeed. */
  predicate WritesMinimum(present: bool, writes: bool, io: ProfileIo)
  {
    !present && writes && io.firstRead.None? && io.write.None?
  }

  /**
   * A profile is written only when it was missing, after which only the second read can fail;
   * a load without error over a missing profile, when a write is made, wrote it.
   */
  lemma WritesMinimumCases(present: bool, writes: bool, io: ProfileIo)
    ensures WritesMinimum(present, writes, io) ==> !present && LoadError(present, writes, io) == io.secondRead
    ensures !present && writes && LoadError(present, writes, io).None? ==> WritesMinimum(present, writes, io)
    ensures present ==> !WritesMinimum(present, writes, io)
  {
  }

  /** `User(uid, fullName, email, role)` as `register` writes it: the arguments fill email, then name. */
  function RegisteredUserAsWritten(uid: string, fullName: string, email: string, role: string): User
  {
    User(uid, fullName, email, role, true)
  }

  /** Whenever the full name and the email differ, the registered user carries them swapped. */
  lemma RegisteredUserSwapsNameAndEmail(uid: string, fullName: string, email: string, role: string)
    requires fullName != email
    ensures var u := RegisteredUserAsWritten(uid, fullName, email, role);
      u.email != email && u.FullName() != fullName && u.email == fullName && u.name == email
  {
  }

  /** The user `register` evidently means to report: the given email, and the full name as name. */
  function RegisteredUser(uid: string, fullName: string, email: string, role: string): (r: User)
    ensures r.email == email && r.FullName() == fullName
    ensures r.uid == uid && r.role == role && r.isActive
  {
    User(uid, email, fullName, role, true)
  }

  /** The profile document `register` writes. */
  function RegisterDoc(uid: string, fullName: string, email: string, role: string, now: Value): Doc
  {
    map["uid" := Str(uid), "fullName" := Str(fullName), "email" := Str(email), "role" := Str(role),
        "status" := Str("active"), "createdAt" := now]
  }

  class AuthViewModel {
    /** `auth.currentUser`. */
    var authUser: Option<AuthUser>
    /** The `users` collection, by document id. */
    var profiles: map<string, Doc>
    var currentUser: Option<User>
    var loginResult: Option<Result<User>>
    var registerResult: Option<Result<User>>
    var loading: bool

    /** The current user is never an inactive profile. */
    ghost predicate Valid()
      reads this
    {
      currentUser.Some? ==> currentUser.value.isActive
    }

    constructor(authUser: Option<AuthUser>, profiles: map<string, Doc>)
      ensures Valid()
      ensures this.authUser == authUser && this.profiles == profiles
      ensures currentUser.None? && loginResult.None? && registerResult.None? && !loading
    {
      this.authUser := authUser;
      this.profiles := profiles;
      currentUser := None;
      loginResult := None;
      registerResult := None;
      loading := false;
    }

    /** `loadProfile(uid, email)`: the stored profile, or None when there is no document. */
    function LoadProfile(uid: string, email: Option<string>): (r: Option<User>)
      reads this
      ensures r.Some? <==> uid in profiles
      ensures r.Some? ==> r.value == MapUser(uid, Some(profiles[uid]), email)
    {
      if uid in profiles then Some(MapUser(uid, Some(profiles[uid]), email)) else None
    }

    /** `ensureMinimumProfile(uid, email)`, given the error its write throws, if any. */
    method EnsureMinimumProfile(uid: string, email: string, writeError: Option<string>) returns (error: Option<string>)
      modifies this
      ensures error == writeError
      ensures profiles == if writeError.None? then old(profiles)[uid := MinimumProfile(uid, email)] else old(profiles)
      ensures authUser == old(authUser) && currentUser == old(currentUser)
      ensures loginResult == old(loginResult) && registerResult == old(registerResult)
      ensures loading == old(loading)
    {
      error := writeError;
      if writeError.None? {
        profiles := profiles[uid := MinimumProfile(uid, email)];
      }
    }

    /** `logout()`: signs out and clears the current user. */
    method Logout()
      modifies this
      ensures authUser.None? && currentUser.None?
      ensures profiles == old(profiles) && loginResult == old(loginResult)
      ensures registerResult == old(registerResult) && loading == old(loading)
    {
      authUser := None;
      currentUser := None;
    }

    /**
     * `refreshCurrentUser()`: with nobody signed in, clears the current user; otherwise loads
     * the profile (creating a minimal one first when there is none and the account has an
     * email) and makes it current if it is active, logging out if it is missing or inactive.
     * Nothing catches a Firestore error here: it is returned as `error`, with the state as it
     * was when the call threw.
     */
    method RefreshCurrentUser(io: ProfileIo) returns (error: Option<string>)
      requires Valid()
      modifies this
      ensures Valid()
      ensures loginResult == old(loginResult) && registerResult == old(registerResult)
      ensures loading == old(loading)
      ensures old(authUser).None? ==>
        error.None? && currentUser.None? && authUser.None? && profiles == old(profiles)
      ensures old(authUser).Some? ==>
        var u := old(authUser).value;
        && error == LoadError(u.uid in old(profiles), u.email.Some?, io)
        && profiles == (if WritesMinimum(u.uid in old(profiles), u.email.Some?, io)
                        then old(profiles)[u.uid := MinimumProfile(u.uid, u.email.value)]
                        else old(profiles))
        && (error.Some? ==> currentUser == old(currentUser) && authUser == old(authUser))
        && (error.None? ==>
              var p := LoadProfile(u.uid, u.email);
              if p.Some? && p.value.isActive then currentUser == p && authUser == old(authUser)
              else currentUser.None? && authUser.None?)
    {
      if authUser.None? {
        currentUser := None;
        return None;
      }
      var u := authUser.value;
      error := io.firstRead;
      if error.Some? {
        return;
      }
      var profile := LoadProfile(u.uid, u.email);
      if profile.None? {
        if u.email.Some? {
          error := EnsureMinimumProfile(u.uid, u.email.value, io.write);
          if error.Some? {
            return;
          }
        }
        error := io.secondRead;
        if error.Some? {
          return;
        }
        profile := LoadProfile(u.uid, u.email);
      }
      if profile.Some? && profile.value.isActive {
        currentUser := profile;
      } else {
        Logout();
      }
    }

    /**
     * `login(email, password)`, given the outcome of the sign-in call and of the profile's
     * Firestore calls. Success needs an account with an active profile; every failure,
     * including an error thrown by a profile read or write, signs out and posts a failure.
     */
    method Login(email: string, signIn: Result<Option<AuthUser>>, io: ProfileIo)
      requires Valid()
      modifies this
      ensures Valid()
      ensures !loading && registerResult == old(registerResult)
      ensures signIn.Failure? ==>
        && authUser.None? && currentUser == old(currentUser) && profiles == old(profiles)
        && loginResult == Some(Failure(signIn.message))
      ensures signIn == Success(None) ==>
        && authUser.None? && currentUser == old(currentUser) && profiles == old(profiles)
        && loginResult == Some(Failure("Auth user null"))
      ensures signIn.Success? && signIn.value.Some? ==>
        var u := signIn.value.value;
        var error := LoadError(u.uid in old(profiles), true, io);
        && profiles == (if WritesMinimum(u.uid in old(profiles), true, io)
                        then old(profiles)[u.uid := MinimumProfile(u.uid, u.email.GetOr(email))]
                        else old(profiles))
        && (error.Some? ==>
              authUser.None? && currentUser == old(currentUser) && loginResult == Some(Failure(error.value)))
        && (error.None? ==> profiles == ProfilesAfterLogin(old(profiles), u, email))
      ensures signIn.Success? && signIn.value.Some? && LoadError(signIn.value.value.uid in old(profiles), true, io).None? &&
              LoginUser(old(profiles), signIn.value.value, email).isActive ==>
        && currentUser == Some(LoginUser(old(profiles), signIn.value.value, email))
        && loginResult == Some(Success(LoginUser(old(profiles), signIn.value.value, email)))
        && authUser == signIn.value
      ensures signIn.Success? && signIn.value.Some? && LoadError(signIn.value.value.uid in old(profiles), true, io).None? &&
              !LoginUser(old(profiles), signIn.value.value, email).isActive ==>
        currentUser == old(currentUser) && authUser.None? && loginResult == Some(Failure("Akun dinonaktifkan"))
    {
      loading := true;
      if signIn.Failure? {
        authUser := None;
        loginResult := Some(Failure(signIn.message));
      } else if signIn.value.None? {
        authUser := None;
        loginResult := Some(Failure("Auth user null"));
      } else {
        var u := signIn.value.value;
        authUser := Some(u);
        var error := io.firstRead;
        var prof: Option<User> := None;
        if error.None? {
          prof := LoadProfile(u.uid, u.email);
          if prof.None? {
            var e := u.email.GetOr(email);
            error := EnsureMinimumProfile(u.uid, e, io.write);
            if error.None? {
              error := io.secondRead;
              if error.None? {
                prof := LoadProfile(u.uid, Some(e));
              }
            }
          }
        }
        if error.Some? {
          authUser := None;
          loginResult := Some(Failure(error.value));
        } else {
          // The profile was just written, so the "Profil tidak ditemukan" failure cannot arise here.
          assert prof.Some?;
          var user := prof.value;
          if !user.isActive {
            authUser := None;
            loginResult := Some(Failure("Akun dinonaktifkan"));
          } else {
            currentUser := Some(user);
            loginResult := Some(Success(user));
          }
        }
      }
      loading := false;
    }

    /**
     * `register(fullName, email, password, role)`, given the outcome of account creation (the
     * new account's uid, None when Firebase returns no user) and of the profile write (None on
     * success, else the error message).
     */
    method Register(fullName: string, email: string, role: string, created: Result<Option<string>>,
                    writeError: Option<string>, now: Value)
      requires Valid()
      modifies this
      ensures Valid()
      ensures !loading
      ensures authUser == old(authUser) && currentUser == old(currentUser) && loginResult == old(loginResult)
      ensures created.Failure? ==> registerResult == Some(Failure(created.message)) && profiles == old(profiles)
      ensures created.Success? ==>
        var uid := created.value.GetOr("");
        if writeError.Some? then registerResult == Some(Failure(writeError.value)) && profiles == old(profiles)
        else && profiles == old(profiles)[uid := RegisterDoc(uid, fullName, email, role, now)]
             && registerResult == Some(Success(RegisteredUser(uid, fullName, email, role)))
    {
      loading := true;
      if created.Failure? {
        registerResult := Some(Failure(created.message));
      } else {
        var uid := created.value.GetOr("");
        if writeError.Some? {
          registerResult := Some(Failure(writeError.value));
        } else {
          profiles := profiles[uid := RegisterDoc(uid, fullName, email, role, now)];
          registerResult := Some(Success(RegisteredUser(uid, fullName, email, role)));
        }
      }
      loading := false;
    }
  }
}
