/**
 * The staff list over the `users` collection (data/repository/StaffRepository.kt). The
 * collection is held in memory as the documents a query returns, in query order; the
 * repository lists the active users sorted by name, searches them, and deactivates one.
 */
module StaffRepository {
  import opened Wrappers
  import opened Firestore
  import Text
  import Lists
  import opened UserMapper

  /** A stored document: its id and its fields. */
  datatype StoredDoc = StoredDoc(id: string, data: Doc)

  /** Kotlin's `String.compareTo`: character by character, a proper prefix first. */
  predicate StringLe(a: string, b: string)
  {
    a == [] || (b != [] && (a[0] < b[0] || (a[0] == b[0] && StringLe(a[1..], b[1..]))))
  }

  lemma {:induction false} StringLeTotal(a: string, b: string)
    ensures StringLe(a, b) || StringLe(b, a)
  {
    if a != [] && b != [] && a[0] == b[0] {
      StringLeTotal(a[1..], b[1..]);
    }
  }

  lemma {:induction false} StringLeAntisymmetric(a: string, b: string)
    requires StringLe(a, b) && StringLe(b, a)
    ensures a == b
  {
    if a != [] && b != [] {
      StringLeAntisymmetric(a[1..], b[1..]);
      assert a == [a[0]] + a[1..] && b == [b[0]] + b[1..];
    }
  }

  lemma {:induction false} StringLeTransitive(a: string, b: string, c: string)
    requires StringLe(a, b) && StringLe(b, c)
    ensures StringLe(a, c)
  {
    if a != [] && b != [] && c != [] && a[0] == b[0] && b[0] == c[0] {
      StringLeTransitive(a[1..], b[1..], c[1..]);
    }
  }

  lemma StringLeTotalOrder()
    ensures Lists.TotalOrder(StringLe)
  {
    forall a, b ensures StringLe(a, b) || StringLe(b, a) {
      StringLeTotal(a, b);
    }
    forall a, b | StringLe(a, b) && StringLe(b, a) ensures a == b {
      StringLeAntisymmetric(a, b);
    }
    forall a, b, c | StringLe(a, b) && StringLe(b, c) ensures StringLe(a, c) {
      StringLeTransitive(a, b, c);
    }
  }

  /** The sort key of `fetchUsers`: the lowercased name. */
  function NameKey(u: User): string { Text.Lower(u.name) }

  /** `map { UserMapper.from(it) }.filter { it.isActive }`. */
  function ActiveUsers(docs: seq<StoredDoc>): (r: seq<User>)
    ensures |r| <= |docs|
    ensures forall u :: u in r ==> u.isActive
  {
    if docs == [] then []
    else
      var u := From(Some(docs[0].data), docs[0].id);
      (if u.isActive then [u] else []) + ActiveUsers(docs[1..])
  }

  /** The search predicate: the lowercased name or email contains the key. */
  predicate Matches(u: User, key: string)
  {
    Text.Contains(Text.Lower(u.name), key) || Text.Contains(Text.Lower(u.email), key)
  }

  /** The fields a soft delete writes: inactive, with deletion and update times. */
  function Deactivated(d: Doc, stamp: Value): Doc
  {
    d["isActive" := Bool(false)]["deletedAt" := stamp]["updatedAt" := stamp]
  }

  /** The collection after `update` of document uid with the soft-delete fields. */
  function SoftDelete(docs: seq<StoredDoc>, uid: string, stamp: Value): (r: seq<StoredDoc>)
    ensures |r| == |docs|
  {
    if docs == [] then []
    else
      [if docs[0].id == uid then StoredDoc(uid, Deactivated(docs[0].data, stamp)) else docs[0]]
      + SoftDelete(docs[1..], uid, stamp)
  }

  /** The collection without document uid. */
  function Without(docs: seq<StoredDoc>, uid: string): (r: seq<StoredDoc>)
    ensures forall d :: d in r <==> d in docs && d.id != uid
  {
    if docs == [] then []
    else (if docs[0].id == uid then [] else [docs[0]]) + Without(docs[1..], uid)
  }

  predicate HasId(docs: seq<StoredDoc>, uid: string)
  {
    exists i :: 0 <= i < |docs| && docs[i].id == uid
  }

  /** A deactivated document maps to an inactive user. */
  lemma DeactivatedInactive(d: Doc, stamp: Value, id: string)
    ensures !From(Some(Deactivated(d, stamp)), id).isActive
  {
    var e := Deactivated(d, stamp);
    assert e["isActive"] == Bool(false);
  }

  /**
   * Soft-deleting document uid takes its user out of the active list and leaves every other
   * user where it was.
   */
  lemma {:induction false} SoftDeleteRemovesUser(docs: seq<StoredDoc>, uid: string, stamp: Value)
    ensures ActiveUsers(SoftDelete(docs, uid, stamp)) == ActiveUsers(Without(docs, uid))
    decreases |docs|
  {
    if docs != [] {
      SoftDeleteRemovesUser(docs[1..], uid, stamp);
      var r := SoftDelete(docs, uid, stamp);
      assert r[1..] == SoftDelete(docs[1..], uid, stamp);
      if docs[0].id == uid {
        DeactivatedInactive(docs[0].data, stamp, uid);
        assert Without(docs, uid) == Without(docs[1..], uid);
      } else {
        var w := Without(docs, uid);
        assert w[0] == docs[0] && w[1..] == Without(docs[1..], uid);
      }
    }
  }

  /** The users collection, queried and updated in place. */
  class StaffRepository {
    var users: seq<StoredDoc>

    constructor(users: seq<StoredDoc>)
      ensures this.users == users
    {
      this.users := users;
    }

    /** `fetchUsers`: the active users, sorted stably by lowercased name. */
    function FetchUsers(): (r: seq<User>)
      reads this
      ensures forall u :: u in r ==> u.isActive
      ensures Lists.SortedBy(r, NameKey, StringLe)
      ensures multiset(r) == multiset(ActiveUsers(users))
      ensures forall k :: Lists.WithKey(r, NameKey, k) == Lists.WithKey(ActiveUsers(users), NameKey, k)
    {
      var all := ActiveUsers(users);
      StringLeTotalOrder();
      Lists.SortBySorted(all, NameKey, StringLe);
      Lists.SortByPermutes(all, NameKey, StringLe);
      Lists.SortByStableAll(all, NameKey, StringLe);
      assert forall u :: u in Lists.SortBy(all, NameKey, StringLe) ==> u in multiset(all);
      Lists.SortBy(all, NameKey, StringLe)
    }

    /** `searchUsers(q)`: every active user for a blank query, else those matching it. */
    function SearchUsers(q: string): (r: seq<User>)
      reads this
      ensures Text.IsBlank(Text.Trim(q)) ==> r == FetchUsers()
      ensures !Text.IsBlank(Text.Trim(q)) ==>
        && Lists.Subsequence(r, FetchUsers())
        && forall u :: u in r <==> u in FetchUsers() && Matches(u, Text.Lower(Text.Trim(q)))
    {
      var key := Text.Lower(Text.Trim(q));
      var all := FetchUsers();
      Text.LowerBlank(Text.Trim(q));
      if Text.IsBlank(key) then all
      else
        var r := Lists.Filter(all, u => Matches(u, key));
        Lists.FilterSubsequence(all, u => Matches(u, key));
        r
    }

    /**
     * `deleteUserProfile(uid)`, given the error the `update` throws for an existing document,
     * if any: marks document uid inactive and stamps it; the update fails, changing nothing,
     * when there is no such document or the write throws.
     */
    method DeleteUserProfile(uid: string, stamp: Value, writeError: Option<string>) returns (ok: bool)
      modifies this
      ensures ok <==> HasId(old(users), uid) && writeError.None?
      ensures users == if ok then SoftDelete(old(users), uid, stamp) else old(users)
      ensures ok ==> FetchUsers() == Lists.SortBy(ActiveUsers(Without(old(users), uid)), NameKey, StringLe)
    {
      ok := HasId(users, uid) && writeError.None?;
      if ok {
        SoftDeleteRemovesUser(users, uid, stamp);
        users := SoftDelete(users, uid, stamp);
      }
    }

    /** `claimInviteIfExists`: does nothing. */
    method ClaimInviteIfExists(uid: string, email: string)
    {
    }
  }
}
