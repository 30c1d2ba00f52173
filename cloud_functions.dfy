/**
 * The two callable Cloud Functions (functions/index.js) that let an admin create and update
 * staff accounts, and the admin check they share. A call's arguments are JavaScript values
 * (a string, `null` or absent); the Admin SDK and Firestore calls are recorded in a log and
 * the `users` collection is an in-memory map. Whether each call rejects, the new account's uid
 * and the server timestamp are parameters.
 */
module CloudFunctions {
  import opened Wrappers
  import opened Firestore
  import Text
  import UserMapper

  /** A call argument: absent (`undefined`), `null`, or a string. */
  datatype JsArg = Undef | JsNull | JsStr(s: string)

  /** JavaScript truthiness of an argument: a non-empty string. */
  predicate Truthy(a: JsArg) { a.JsStr? && a.s != "" }

  /** A destructuring default: it applies only when the argument is absent. */
  function Defaulted(a: JsArg, default: string): (r: JsArg)
    ensures r != Undef
    ensures a != Undef ==> r == a
  {
    if a.Undef? then JsStr(default) else a
  }

  /** How an argument is stored in a document: a string as a string, anything else as null. */
  function Stored(a: JsArg): Value
  {
    if a.JsStr? then Str(a.s) else Null
  }

  /** `context.auth`: the caller's uid and the `role` claim of its token. */
  datatype CallerAuth = CallerAuth(uid: string, tokenRole: JsArg)

  /**
   * What a function throws: an `HttpsError` with its code and message, or the error an Admin SDK
   * or Firestore call rejected with, passed on unchanged.
   */
  datatype Thrown = HttpsError(code: string, message: string) | SdkError(message: string)

  const Unauthenticated := HttpsError("unauthenticated", "Login dulu.")
  const PermissionDenied := HttpsError("permission-denied", "Hanya admin.")
  const MissingCredentials := HttpsError("invalid-argument", "email & password wajib.")
  const MissingUid := HttpsError("invalid-argument", "uid wajib.")

  /** The caller's profile says admin: the stored `role` is exactly the string "admin". */
  predicate StoredAdmin(users: map<string, Doc>, uid: string)
  {
    uid in users && "role" in users[uid] && users[uid]["role"] == Str("admin")
  }

  /**
   * `assertAdmin(context)`: None when the caller may proceed, else the error thrown.
   * `readError` is the outcome of reading the caller's profile, which happens only when the
   * token carries no admin role.
   */
  function AssertAdmin(context: Option<CallerAuth>, users: map<string, Doc>, readError: Option<string>)
    : (r: Option<Thrown>)
    ensures context.None? ==> r == Some(Unauthenticated)
    ensures context.Some? && context.value.tokenRole == JsStr("admin") ==> r.None?
    ensures r.None? <==>
      context.Some? && (context.value.tokenRole == JsStr("admin") || (readError.None? && StoredAdmin(users, context.value.uid)))
    ensures (r.Some? && r.value.SdkError?) <==>
      context.Some? && context.value.tokenRole != JsStr("admin") && readError.Some?
    ensures r.Some? ==>
      r == Some(Unauthenticated) || r == Some(PermissionDenied) || (readError.Some? && r == Some(SdkError(readError.value)))
  {
    if context.None? then Some(Unauthenticated)
    else if context.value.tokenRole == JsStr("admin") then None
    else if readError.Some? then Some(SdkError(readError.value))
    else
      var uid := context.value.uid;
      var role := if uid in users && "role" in users[uid] then users[uid]["role"] else Null;
      if role != Str("admin") then Some(PermissionDenied) else None
  }

  /** A call made through the Admin SDK. */
  datatype AdminOp =
    | CreateAuthUser(email: string, password: string, displayName: JsArg)
    | SetClaims(uid: string, role: JsArg)
    | UpdateAuthUser(uid: string, newDisplayName: Option<string>, newPassword: Option<string>)
    | MergeProfile(uid: string, fields: Doc)

  /** A call's outcome: the returned value or the error, the calls made, and the collection after. */
  datatype Call<T> = Call(result: Result<T>, error: Option<Thrown>, ops: seq<AdminOp>, users: map<string, Doc>)

  /**
   * The position of the first awaited call that rejects, or |plan| when none does; `outcome`
   * gives the error each call rejects with, None when it succeeds.
   */
  function FirstRejected(plan: seq<AdminOp>, outcome: AdminOp -> Option<string>): (k: nat)
    ensures k <= |plan|
    ensures forall i :: 0 <= i < k ==> outcome(plan[i]).None?
    ensures k < |plan| ==> outcome(plan[k]).Some?
  {
    if plan == [] then 0
    else if outcome(plan[0]).Some? then 0
    else 1 + FirstRejected(plan[1..], outcome)
  }

  /** The calls a run of awaited calls makes: every one up to and including the first that rejects. */
  function Performed(plan: seq<AdminOp>, outcome: AdminOp -> Option<string>): seq<AdminOp>
  {
    var k := FirstRejected(plan, outcome);
    if k < |plan| then plan[..k + 1] else plan
  }

  /** Awaited calls stop at a rejection: a call is made only when every call before it succeeded. */
  lemma PerformedPrefix(plan: seq<AdminOp>, outcome: AdminOp -> Option<string>)
    ensures var r := Performed(plan, outcome);
      && r <= plan
      && (plan != [] ==> r != [])
      && (forall i :: 0 <= i < |r| - 1 ==> outcome(r[i]).None?)
      && (r == plan <==> (forall i :: 0 <= i < |plan| - 1 ==> outcome(plan[i]).None?))
  {
  }

  /** The error a rejected run leaves: that of the first call that rejected. */
  function RejectedWith(plan: seq<AdminOp>, outcome: AdminOp -> Option<string>): (e: Option<Thrown>)
    ensures e.None? <==> FirstRejected(plan, outcome) == |plan|
  {
    var k := FirstRejected(plan, outcome);
    if k < |plan| then Some(SdkError(outcome(plan[k]).value)) else None
  }

  /** `set(fields, { merge: true })` on document uid. */
  function MergeInto(users: map<string, Doc>, uid: string, fields: Doc): (r: map<string, Doc>)
    ensures r.Keys == users.Keys + {uid}
    ensures forall u :: u in users && u != uid ==> r[u] == users[u]
  {
    users[uid := Merge(if uid in users then users[uid] else map[], fields)]
  }

  /** The profile name: the given name when truthy, else the email's part before the first '@'. */
  function ProfileName(name: JsArg, email: string): (r: string)
    ensures Truthy(name) ==> r == name.s
    ensures !Truthy(name) ==> r == Text.SubstringBefore(email, '@', email) && '@' !in r
  {
    if Truthy(name) then name.s
    else
      Text.SplitFirst(email, '@');
      Text.Split(email, '@')[0]
  }

  /** The profile `adminCreateUser` writes for the new account uid. */
  function NewProfile(uid: string, email: string, name: JsArg, role: JsArg, stamp: Value): Doc
  {
    map["uid" := Str(uid), "email" := Str(email), "name" := Str(ProfileName(name, email)),
        "role" := Stored(role), "isActive" := Bool(true), "createdAt" := stamp, "updatedAt" := stamp]
  }

  /** The calls `adminCreateUser` awaits, in order: the account, its role claim, its profile. */
  function CreatePlan(email: string, password: string, name: JsArg, role: JsArg, newUid: string, stamp: Value)
    : seq<AdminOp>
  {
    [CreateAuthUser(email, password, name), SetClaims(newUid, role),
     MergeProfile(newUid, NewProfile(newUid, email, name, role, stamp))]
  }

  /**
   * `adminCreateUser(data)`: checks the caller, then requires a truthy email and password,
   * creates the account (whose uid is `newUid`), sets its role claim and writes its profile.
   * Arguments absent from `data` are `Undef`. The first call that rejects ends the function
   * with its error; the calls before it stay made.
   */
  function AdminCreateUser(context: Option<CallerAuth>, email: JsArg, password: JsArg, name: JsArg, role: JsArg,
                           users: map<string, Doc>, readError: Option<string>, outcome: AdminOp -> Option<string>,
                           newUid: string, stamp: Value): (c: Call<string>)
    ensures AssertAdmin(context, users, readError).Some? ==>
      c.error == AssertAdmin(context, users, readError) && c.ops == [] && c.users == users
    ensures AssertAdmin(context, users, readError).None? && !(Truthy(email) && Truthy(password)) ==>
      c.error == Some(MissingCredentials) && c.ops == [] && c.users == users
    ensures AssertAdmin(context, users, readError).None? && Truthy(email) && Truthy(password) ==>
      var plan := CreatePlan(email.s, password.s, Defaulted(name, ""), Defaulted(role, "staff"), newUid, stamp);
      && c.ops == Performed(plan, outcome)
      && c.error == RejectedWith(plan, outcome)
      && (c.error.None? ==> c.users == MergeInto(users, newUid, plan[2].fields))
      && (c.error.Some? ==> c.users == users)
    ensures c.error.None? <==> c.result == Success(newUid)
    ensures c.error.Some? ==> c.result == Failure(c.error.value.message)
  {
    var denied := AssertAdmin(context, users, readError);
    if denied.Some? then Call(Failure(denied.value.message), denied, [], users)
    else if !Truthy(email) || !Truthy(password) then
      Call(Failure(MissingCredentials.message), Some(MissingCredentials), [], users)
    else
      var plan := CreatePlan(email.s, password.s, Defaulted(name, ""), Defaulted(role, "staff"), newUid, stamp);
      var rejected := RejectedWith(plan, outcome);
      if rejected.Some? then Call(Failure(rejected.value.message), rejected, Performed(plan, outcome), users)
      else Call(Success(newUid), None, plan, MergeInto(users, newUid, plan[2].fields))
  }

  /**
   * A successful `adminCreateUser` made all three calls and wrote the profile; one rejected
   * after the account was created leaves that account in place without its profile.
   */
  lemma CreateOutcomes(context: Option<CallerAuth>, email: JsArg, password: JsArg, name: JsArg, role: JsArg,
                       users: map<string, Doc>, readError: Option<string>, outcome: AdminOp -> Option<string>,
                       newUid: string, stamp: Value)
    requires AssertAdmin(context, users, readError).None? && Truthy(email) && Truthy(password)
    ensures var c := AdminCreateUser(context, email, password, name, role, users, readError, outcome, newUid, stamp);
      var n, r := Defaulted(name, ""), Defaulted(role, "staff");
      && (c.error.None? ==>
            && c.ops == [CreateAuthUser(email.s, password.s, n), SetClaims(newUid, r),
                         MergeProfile(newUid, NewProfile(newUid, email.s, n, r, stamp))]
            && c.users == MergeInto(users, newUid, NewProfile(newUid, email.s, n, r, stamp)))
      && (c.error.Some? && outcome(CreateAuthUser(email.s, password.s, n)).None? ==>
            |c.ops| >= 2 && c.ops[0] == CreateAuthUser(email.s, password.s, n) && c.users == users)
      && (outcome(CreateAuthUser(email.s, password.s, n)).Some? ==>
            c.ops == [CreateAuthUser(email.s, password.s, n)] &&
            c.error == Some(SdkError(outcome(CreateAuthUser(email.s, password.s, n)).value)))
  {
    var plan := CreatePlan(email.s, password.s, Defaulted(name, ""), Defaulted(role, "staff"), newUid, stamp);
    var k := FirstRejected(plan, outcome);
    if outcome(plan[0]).None? {
      assert k >= 1;
    }
  }

  /** The role a stored role argument reads back as: the string itself, else the staff default. */
  function RoleRead(role: JsArg): string
  {
    if role.JsStr? then role.s else "staff"
  }

  /**
   * The profile of a created account reads back as an active user with the given email, the
   * profile name, and the given role (an absent or null role reads as "staff"), whatever the
   * document held before.
   */
  lemma CreatedProfileReadsBack(d: Doc, uid: string, email: string, name: JsArg, role: JsArg, stamp: Value)
    ensures UserMapper.From(Some(Merge(d, NewProfile(uid, email, Defaulted(name, ""), Defaulted(role, "staff"), stamp))), uid)
      == UserMapper.User(uid, email, ProfileName(Defaulted(name, ""), email), RoleRead(role), true)
  {
    var n, r := Defaulted(name, ""), Defaulted(role, "staff");
    var p := NewProfile(uid, email, n, r, stamp);
    MergedProfile(d, p, uid, email, ProfileName(n, email), r, stamp);
    ProfileReadsBack(Merge(d, p), uid, email, ProfileName(n, email), r);
    assert RoleRead(r) == RoleRead(role);
  }

  /** The fields the profile sets survive a merge into any document. */
  lemma MergedProfile(d: Doc, p: Doc, uid: string, email: string, profileName: string, role: JsArg, stamp: Value)
    requires p == map["uid" := Str(uid), "email" := Str(email), "name" := Str(profileName),
                      "role" := Stored(role), "isActive" := Bool(true), "createdAt" := stamp, "updatedAt" := stamp]
    ensures "uid" in Merge(d, p) && Merge(d, p)["uid"] == Str(uid)
    ensures "email" in Merge(d, p) && Merge(d, p)["email"] == Str(email)
    ensures "name" in Merge(d, p) && Merge(d, p)["name"] == Str(profileName)
    ensures "role" in Merge(d, p) && Merge(d, p)["role"] == Stored(role)
    ensures "isActive" in Merge(d, p) && Merge(d, p)["isActive"] == Bool(true)
  {
  }

  /** A document holding the profile's five read fields reads back as that user. */
  lemma ProfileReadsBack(m: Doc, uid: string, email: string, profileName: string, role: JsArg)
    requires "uid" in m && m["uid"] == Str(uid)
    requires "email" in m && m["email"] == Str(email)
    requires "name" in m && m["name"] == Str(profileName)
    requires "role" in m && m["role"] == Stored(role)
    requires "isActive" in m && m["isActive"] == Bool(true)
    ensures UserMapper.From(Some(m), uid) == UserMapper.User(uid, email, profileName, RoleRead(role), true)
  {
  }

  /** The patch `adminUpdateUser` merges: the update time, and name and role when truthy. */
  function UpdatePatch(name: JsArg, role: JsArg, stamp: Value): (r: Doc)
    ensures "updatedAt" in r && r["updatedAt"] == stamp
    ensures "name" in r <==> Truthy(name)
    ensures "role" in r <==> Truthy(role)
    ensures "name" in r ==> r["name"] == Str(name.s)
    ensures "role" in r ==> r["role"] == Str(role.s)
    ensures r.Keys <= {"updatedAt", "name", "role"}
  {
    var p := map["updatedAt" := stamp];
    var p := if Truthy(name) then p["name" := Str(name.s)] else p;
    if Truthy(role) then p["role" := Str(role.s)] else p
  }

  /** The Admin SDK calls `adminUpdateUser` makes on account uid before the write. */
  function UpdateOps(uid: string, name: JsArg, role: JsArg, password: JsArg): (r: seq<AdminOp>)
    ensures (exists op :: op in r && op.UpdateAuthUser?) <==> Truthy(name) || Truthy(password)
    ensures (exists op :: op in r && op.SetClaims?) <==> Truthy(role)
    ensures forall op :: op in r && op.UpdateAuthUser? ==>
      op == UpdateAuthUser(uid, if Truthy(name) then Some(name.s) else None,
                           if Truthy(password) then Some(password.s) else None)
    ensures forall op :: op in r && op.SetClaims? ==> op == SetClaims(uid, role)
    ensures forall op :: op in r ==> op.UpdateAuthUser? || op.SetClaims?
  {
    var upd := if Truthy(name) || Truthy(password) then
                 [UpdateAuthUser(uid, if Truthy(name) then Some(name.s) else None,
                                 if Truthy(password) then Some(password.s) else None)]
               else [];
    var claims := if Truthy(role) then [SetClaims(uid, role)] else [];
    var r := upd + claims;
    assert Truthy(name) || Truthy(password) ==> r[0] in r && r[0].UpdateAuthUser?;
    assert Truthy(role) ==> r[|r| - 1] in r && r[|r| - 1].SetClaims?;
    r
  }

  /** The calls `adminUpdateUser` awaits, in order: the account ones, then the profile merge. */
  function UpdatePlan(uid: string, name: JsArg, role: JsArg, password: JsArg, stamp: Value): (plan: seq<AdminOp>)
    ensures plan != [] && plan[|plan| - 1] == MergeProfile(uid, UpdatePatch(name, role, stamp))
  {
    UpdateOps(uid, name, role, password) + [MergeProfile(uid, UpdatePatch(name, role, stamp))]
  }

  /**
   * `adminUpdateUser(data)`: checks the caller, requires a truthy uid, updates the account's
   * display name and password when either is given, its role claim when a role is given, and
   * merges the patch into its profile. The first call that rejects ends the function with its
   * error; the calls before it stay made.
   */
  function AdminUpdateUser(context: Option<CallerAuth>, uid: JsArg, name: JsArg, role: JsArg, password: JsArg,
                           users: map<string, Doc>, readError: Option<string>, outcome: AdminOp -> Option<string>,
                           stamp: Value): (c: Call<bool>)
    ensures AssertAdmin(context, users, readError).Some? ==>
      c.error == AssertAdmin(context, users, readError) && c.ops == [] && c.users == users
    ensures AssertAdmin(context, users, readError).None? && !Truthy(uid) ==>
      c.error == Some(MissingUid) && c.ops == [] && c.users == users
    ensures AssertAdmin(context, users, readError).None? && Truthy(uid) ==>
      var plan := UpdatePlan(uid.s, name, role, password, stamp);
      && c.ops == Performed(plan, outcome)
      && c.error == RejectedWith(plan, outcome)
      && (c.error.None? ==> c.users == MergeInto(users, uid.s, UpdatePatch(name, role, stamp)))
      && (c.error.Some? ==> c.users == users)
    ensures c.error.None? <==> c.result == Success(true)
    ensures c.error.Some? ==> c.result == Failure(c.error.value.message)
  {
    var denied := AssertAdmin(context, users, readError);
    if denied.Some? then Call(Failure(denied.value.message), denied, [], users)
    else if !Truthy(uid) then Call(Failure(MissingUid.message), Some(MissingUid), [], users)
    else
      var plan := UpdatePlan(uid.s, name, role, password, stamp);
      var rejected := RejectedWith(plan, outcome);
      if rejected.Some? then Call(Failure(rejected.value.message), rejected, Performed(plan, outcome), users)
      else Call(Success(true), None, plan, MergeInto(users, uid.s, UpdatePatch(name, role, stamp)))
  }

  /** An update whose calls all succeed made them all and merged the patch, in that order. */
  lemma UpdateSucceeds(context: Option<CallerAuth>, uid: JsArg, name: JsArg, role: JsArg, password: JsArg,
                       users: map<string, Doc>, readError: Option<string>, outcome: AdminOp -> Option<string>,
                       stamp: Value)
    requires AssertAdmin(context, users, readError).None? && Truthy(uid)
    requires forall op :: outcome(op).None?
    ensures var c := AdminUpdateUser(context, uid, name, role, password, users, readError, outcome, stamp);
      && c.result == Success(true)
      && c.ops == UpdateOps(uid.s, name, role, password) + [MergeProfile(uid.s, UpdatePatch(name, role, stamp))]
      && c.users == MergeInto(users, uid.s, UpdatePatch(name, role, stamp))
  {
    AllSucceed(UpdatePlan(uid.s, name, role, password, stamp), outcome);
  }

  /** When no call rejects, every call is made. */
  lemma {:induction false} AllSucceed(plan: seq<AdminOp>, outcome: AdminOp -> Option<string>)
    requires forall op :: outcome(op).None?
    ensures FirstRejected(plan, outcome) == |plan|
  {
    if plan != [] {
      AllSucceed(plan[1..], outcome);
    }
  }

  /**
   * An update changes the stored user only where a truthy name or role was given, and never
   * touches the active flag, the email or the uid.
   */
  lemma UpdateKeepsOtherFields(d: Doc, id: string, name: JsArg, role: JsArg, stamp: Value)
    ensures UserMapper.From(Some(Merge(d, UpdatePatch(name, role, stamp))), id)
      == UpdatedUser(UserMapper.From(Some(d), id), name, role)
  {
    var d1 := d["updatedAt" := stamp];
    UserMapper.FromIgnoresOtherFields(d, id, "updatedAt", stamp);
    var d2 := if Truthy(name) then d1["name" := Str(name.s)] else d1;
    if Truthy(name) {
      UserMapper.FromSetName(d1, id, name.s);
    }
    var d3 := if Truthy(role) then d2["role" := Str(role.s)] else d2;
    if Truthy(role) {
      UserMapper.FromSetRole(d2, id, role.s);
    }
    PatchMerged(d, name, role, stamp);
  }

  /** The user an update leaves: a truthy name or role replaces the one read before. */
  function UpdatedUser(u: UserMapper.User, name: JsArg, role: JsArg): UserMapper.User
  {
    u.(name := if Truthy(name) then name.s else u.name, role := if Truthy(role) then role.s else u.role)
  }

  /** Merging the patch stores the stamp, then a truthy name, then a truthy role. */
  lemma PatchMerged(d: Doc, name: JsArg, role: JsArg, stamp: Value)
    ensures Merge(d, UpdatePatch(name, role, stamp)) ==
      (if Truthy(role) then (if Truthy(name) then d["updatedAt" := stamp]["name" := Str(name.s)] else d["updatedAt" := stamp])["role" := Str(role.s)]
       else (if Truthy(name) then d["updatedAt" := stamp]["name" := Str(name.s)] else d["updatedAt" := stamp]))
  {
  }
}
