/**
 * The user profile record and the mapping from a stored profile document to it
 * (data/mappers/UserMapper.kt). Every field has a default, so any document maps to a user.
 */
module UserMapper {
  import opened Wrappers
  import opened Firestore
  import Text

  datatype User = User(uid: string, email: string, name: string, role: string, isActive: bool)
  {
    /** `fullName`, an alias of the name kept for older screens. */
    function FullName(): string { name }
  }

  const TwoTo32: int := 0x1_0000_0000

  /** `Long.toInt()`: the low 32 bits of n read as a signed 32-bit number. */
  function ToInt32(n: int): (r: int)
    ensures Text.IntMin <= r <= Text.IntMax
    ensures (n - r) % TwoTo32 == 0
  {
    var m := n % TwoTo32;
    if m <= Text.IntMax then m else m - TwoTo32
  }

  lemma ToInt32InRange(n: int)
    requires Text.IntMin <= n <= Text.IntMax
    ensures ToInt32(n) == n
  {
  }

  /**
   * The `isActive` coercion: a Boolean is kept, a String is true when it is "true" in any case,
   * a Number is true when its `toInt()` is non-zero, and anything else (or nothing) is true.
   */
  function IsActiveOf(v: Option<Value>): (r: bool)
    ensures v.None? ==> r
    ensures v.Some? && v.value.Bool? ==> r == v.value.b
    ensures v.Some? && v.value.Str? ==> (r <==> Text.EqualsIgnoreCase(v.value.s, "true"))
    ensures v.Some? && v.value.Num? ==> (r <==> v.value.n % TwoTo32 != 0)
    ensures v.Some? && !(v.value.Bool? || v.value.Str? || v.value.Num?) ==> r
  {
    match v
    case None => true
    case Some(x) =>
      match x
      case Bool(b) => b
      case Str(s) => Text.EqualsIgnoreCase(s, "true")
      case Num(n) => ToInt32(n) != 0
      case _ => true
  }

  /** A whole multiple of 2^32 reads as 0 after `toInt()`, so such a number marks the user inactive. */
  lemma WrappedNumberInactive(k: int)
    ensures !IsActiveOf(Some(Num(k * TwoTo32)))
  {
  }

  /** `(d[key] ?: default).toString()`. */
  function TextOr(d: Doc, key: string, default: string): string
  {
    TextField(d, key).GetOr(default)
  }

  /** `UserMapper.from`: a missing document body reads as an empty map. */
  function From(data: Option<Doc>, docId: string): (r: User)
    ensures var d := data.GetOr(map[]);
      && (Field(d, "uid").None? ==> r.uid == docId)
      && (StrField(d, "uid").Some? ==> r.uid == d["uid"].s)
      && (Field(d, "email").None? ==> r.email == "")
      && (StrField(d, "email").Some? ==> r.email == d["email"].s)
      && (StrField(d, "name").Some? ==> r.name == d["name"].s)
      && (Field(d, "name").None? && StrField(d, "nama").Some? ==> r.name == d["nama"].s)
      && (Field(d, "name").None? && Field(d, "nama").None? ==> r.name == "Unknown")
      && (Field(d, "role").None? ==> r.role == "staff")
      && (StrField(d, "role").Some? ==> r.role == d["role"].s)
      && r.isActive == IsActiveOf(Field(d, "isActive"))
    ensures r.FullName() == r.name
  {
    var d := data.GetOr(map[]);
    var name := if Field(d, "name").Some? then TextOr(d, "name", "") else TextOr(d, "nama", "Unknown");
    User(TextOr(d, "uid", docId), TextOr(d, "email", ""), name, TextOr(d, "role", "staff"),
         IsActiveOf(Field(d, "isActive")))
  }

  /** The keys `from` reads. */
  const ReadKeys: set<string> := {"uid", "email", "name", "nama", "role", "isActive"}

  /** Only the six keys it reads decide the user; `createdAt`, `updatedAt` and the rest never do. */
  lemma FromIgnoresOtherFields(d: Doc, docId: string, key: string, v: Value)
    requires key !in ReadKeys
    ensures From(Some(d[key := v]), docId) == From(Some(d), docId)
  {
    var e := d[key := v];
    forall k | k in ReadKeys ensures Field(e, k) == Field(d, k) {
    }
  }

  /** Storing a string name changes only the name read back. */
  lemma FromSetName(d: Doc, docId: string, name: string)
    ensures From(Some(d["name" := Str(name)]), docId) == From(Some(d), docId).(name := name)
  {
    var e := d["name" := Str(name)];
    forall k | k in ReadKeys - {"name"} ensures Field(e, k) == Field(d, k) {
    }
  }

  /** Storing a string role changes only the role read back. */
  lemma FromSetRole(d: Doc, docId: string, role: string)
    ensures From(Some(d["role" := Str(role)]), docId) == From(Some(d), docId).(role := role)
  {
    var e := d["role" := Str(role)];
    forall k | k in ReadKeys - {"role"} ensures Field(e, k) == Field(d, k) {
    }
  }

  /** With no stored body every default applies. */
  lemma MissingDataDefaults(docId: string)
    ensures From(None, docId) == User(docId, "", "Unknown", "staff", true)
  {
  }
}
