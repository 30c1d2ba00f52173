/**
 * The deterministic helpers of `FirebaseUtils` (utils/FirebaseUtils.kt): building a map without
 * nulls, file naming and extension checks, collection names, error messages and the minimal
 * document check. The clock is a parameter.
 */
module FirebaseUtils {
  import opened Wrappers
  import opened Text
  import opened Models
  import opened Firestore
  import LinkedMap

  // ---------------------------------------------------------------------------
  // createMap
  // ---------------------------------------------------------------------------

  /** The pairs whose value is not null, in order. */
  function NonNullPairs(pairs: seq<(string, Value)>): (r: seq<(string, Value)>)
    ensures |r| <= |pairs|
    ensures forall i :: 0 <= i < |r| ==> r[i].1 != Null && r[i] in pairs
  {
    if pairs == [] then []
    else
      var rest := NonNullPairs(pairs[..|pairs| - 1]);
      var last := pairs[|pairs| - 1];
      assert forall p :: p in pairs[..|pairs| - 1] ==> p in pairs;
      rest + (if last.1 != Null then [last] else [])
  }

  /** `createMap(*pairs)`: a `buildMap` that puts each pair whose value is not null. */
  method CreateMap(pairs: seq<(string, Value)>) returns (m: LinkedMap.Entries<string, Value>)
    ensures m == LinkedMap.PutAll([], NonNullPairs(pairs))
  {
    m := [];
    var i := 0;
    while i < |pairs|
      invariant 0 <= i <= |pairs|
      invariant m == LinkedMap.PutAll([], NonNullPairs(pairs[..i]))
    {
      var (k, v) := (pairs[i].0, pairs[i].1);
      NonNullStep(pairs, i);
      if v != Null {
        LinkedMap.PutAllAppend([], NonNullPairs(pairs[..i]), [(k, v)]);
        m := LinkedMap.Put(m, k, v);
      } else {
        assert NonNullPairs(pairs[..i]) + [] == NonNullPairs(pairs[..i]);
      }
      i := i + 1;
    }
    assert pairs[..i] == pairs;
  }

  lemma NonNullStep(pairs: seq<(string, Value)>, i: nat)
    requires i < |pairs|
    ensures NonNullPairs(pairs[..i + 1])
         == NonNullPairs(pairs[..i]) + (if pairs[i].1 != Null then [pairs[i]] else [])
  {
    assert pairs[..i + 1][..i] == pairs[..i];
  }

  /**
   * The built map has each key once, holds no null, and maps a key to the value of its last
   * non-null pair; keys whose pairs are all null are absent.
   */
  lemma CreateMapContents(pairs: seq<(string, Value)>, k: string)
    ensures LinkedMap.DistinctKeys(LinkedMap.PutAll([], NonNullPairs(pairs)))
    ensures LinkedMap.Get(LinkedMap.PutAll([], NonNullPairs(pairs)), k) == LinkedMap.LastValue(NonNullPairs(pairs), k, None)
    ensures LinkedMap.Get(LinkedMap.PutAll([], NonNullPairs(pairs)), k) != Some(Null)
  {
    LinkedMap.PutAllDistinct([], NonNullPairs(pairs));
    LinkedMap.PutAllGet([], NonNullPairs(pairs), k);
    LastValueNotNull(NonNullPairs(pairs), k);
  }

  lemma {:induction false} LastValueNotNull(pairs: seq<(string, Value)>, k: string)
    requires forall i :: 0 <= i < |pairs| ==> pairs[i].1 != Null
    ensures LinkedMap.LastValue(pairs, k, None) != Some(Null)
  {
    if pairs != [] && pairs[|pairs| - 1].0 != k {
      LastValueNotNull(pairs[..|pairs| - 1], k);
    }
  }

  /** A null pair changes nothing: removing it gives the same map. */
  lemma NullPairIgnored(a: seq<(string, Value)>, k: string, b: seq<(string, Value)>)
    ensures NonNullPairs(a + [(k, Null)] + b) == NonNullPairs(a + b)
  {
    NonNullConcat(a + [(k, Null)], b);
    NonNullConcat(a, [(k, Null)]);
    NonNullConcat(a, b);
    assert NonNullPairs([(k, Null)]) == [];
  }

  lemma {:induction false} NonNullConcat(a: seq<(string, Value)>, b: seq<(string, Value)>)
    ensures NonNullPairs(a + b) == NonNullPairs(a) + NonNullPairs(b)
    decreases |b|
  {
    if b == [] {
      assert a + b == a;
    } else {
      var b' := b[..|b| - 1];
      NonNullConcat(a, b');
      assert (a + b)[..|a + b| - 1] == a + b';
    }
  }

  // ---------------------------------------------------------------------------
  // generateFileName, isValidImageFile, isValidDocumentFile
  // ---------------------------------------------------------------------------

  /** `generateFileName`: "<type>_<timestamp>", then ".<ext>" when the name has a non-empty extension. */
  function GenerateFileName(originalName: string, documentType: string, timestamp: int): (r: string)
    ensures var ext := SubstringAfterLast(originalName, '.', "");
      && StartsWith(r, documentType + "_" + IntToString(timestamp))
      && (ext == [] ==> r == documentType + "_" + IntToString(timestamp))
      && (ext != [] ==> r == documentType + "_" + IntToString(timestamp) + "." + ext)
  {
    var extension := SubstringAfterLast(originalName, '.', "");
    var base := documentType + "_" + IntToString(timestamp);
    if extension != [] then base + "." + extension else base
  }

  /** A name without a dot, or ending in one, gets no extension. */
  lemma NoExtensionName(originalName: string, documentType: string, timestamp: int)
    requires '.' !in originalName || originalName[|originalName| - 1] == '.'
    ensures GenerateFileName(originalName, documentType, timestamp) == documentType + "_" + IntToString(timestamp)
  {
    if '.' in originalName {
      LastIndexOfNone(originalName, '.');
      assert LastIndexOf(originalName, '.') == |originalName| - 1;
    }
  }

  const ValidImageExtensions: set<string> := {"jpg", "jpeg", "png", "gif", "webp", "bmp"}
  const ValidDocumentExtensions: set<string> := {"pdf", "doc", "docx", "txt", "rtf"}

  /** The lowercased text after the last '.', or "" without a dot. */
  function LowerSuffix(fileName: string): string
  {
    Lower(SubstringAfterLast(fileName, '.', ""))
  }

  predicate IsValidImageFile(fileName: string)
  {
    LowerSuffix(fileName) in ValidImageExtensions
  }

  predicate IsValidDocumentFile(fileName: string)
  {
    LowerSuffix(fileName) in ValidDocumentExtensions
  }

  /** A name without a dot is neither an image nor a document. */
  lemma NoDotIsInvalid(fileName: string)
    requires '.' !in fileName
    ensures !IsValidImageFile(fileName) && !IsValidDocumentFile(fileName)
  {
    assert LowerSuffix(fileName) == [];
  }

  /** The checks ignore case. */
  lemma FileChecksIgnoreCase(fileName: string)
    ensures IsValidImageFile(Lower(fileName)) == IsValidImageFile(fileName)
    ensures IsValidDocumentFile(Lower(fileName)) == IsValidDocumentFile(fileName)
  {
    LowerSuffixOfLower(fileName);
  }

  lemma LowerSuffixOfLower(fileName: string)
    ensures LowerSuffix(Lower(fileName)) == LowerSuffix(fileName)
  {
    var l := Lower(fileName);
    assert forall i :: 0 <= i < |l| ==> (l[i] == '.' <==> fileName[i] == '.');
    LastIndexOfNone(l, '.');
    LastIndexOfNone(fileName, '.');
    var k := LastIndexOf(fileName, '.');
    var kl := LastIndexOf(l, '.');
    assert k == kl;
    if k != -1 {
      assert SubstringAfterLast(l, '.', "") == l[k + 1..];
      assert SubstringAfterLast(fileName, '.', "") == fileName[k + 1..];
      LowerSlice(fileName, k + 1);
      LowerIdempotent(fileName[k + 1..]);
    }
  }

  lemma LowerSlice(s: string, i: nat)
    requires i <= |s|
    ensures Lower(s)[i..] == Lower(s[i..])
  {
  }

  // ---------------------------------------------------------------------------
  // getDocumentCollection, handleFirebaseError
  // ---------------------------------------------------------------------------

  /** The collection of each document kind. */
  function KindCollection(k: DocKind): string
  {
    match k
    case PembelianRumahKind => PembelianRumahCollection
    case RenovasiRumahKind => RenovasiRumahCollection
    case PemasanganAcKind => PemasanganAcCollection
    case PemasanganCctvKind => PemasanganCctvCollection
  }

  /** `getDocumentCollection(type)`: the kind's collection, or "documents" for other types. */
  function GetDocumentCollection(documentType: string): (r: string)
    ensures KindOfType(documentType).Some? ==> r == KindCollection(KindOfType(documentType).value)
    ensures KindOfType(documentType).None? ==> r == "documents"
  {
    if documentType == DocTypePembelianRumah then PembelianRumahCollection
    else if documentType == DocTypeRenovasiRumah then RenovasiRumahCollection
    else if documentType == DocTypePemasanganAc then PemasanganAcCollection
    else if documentType == DocTypePemasanganCctv then PemasanganCctvCollection
    else "documents"
  }

  /** Each type has its own collection, and none of them is the fallback. */
  lemma CollectionsDistinct(a: DocKind, b: DocKind)
    ensures a != b ==> KindCollection(a) != KindCollection(b)
    ensures KindCollection(a) != "documents"
  {
  }

  datatype FirestoreCode = PermissionDenied | Unavailable | NotFound | OtherCode

  /** The exceptions handleFirebaseError distinguishes. */
  datatype FirebaseError =
    | AuthError(errorCode: string, message: Option<string>)
    | FirestoreError(code: FirestoreCode, message: Option<string>)
    | OtherError(message: Option<string>)

  const AuthCodes: seq<string> :=
    ["ERROR_USER_NOT_FOUND", "ERROR_WRONG_PASSWORD", "ERROR_EMAIL_ALREADY_IN_USE",
     "ERROR_WEAK_PASSWORD", "ERROR_INVALID_EMAIL"]

  /** `handleFirebaseError`: a fixed message for the known codes, else the exception's own message. */
  function HandleFirebaseError(e: FirebaseError): string
  {
    match e
    case AuthError(code, msg) =>
      if code == "ERROR_USER_NOT_FOUND" then "User tidak ditemukan"
      else if code == "ERROR_WRONG_PASSWORD" then "Password salah"
      else if code == "ERROR_EMAIL_ALREADY_IN_USE" then "Email sudah digunakan"
      else if code == "ERROR_WEAK_PASSWORD" then "Password terlalu lemah"
      else if code == "ERROR_INVALID_EMAIL" then "Format email tidak valid"
      else msg.GetOr("Terjadi kesalahan autentikasi")
    case FirestoreError(code, msg) =>
      (match code
       case PermissionDenied => "Anda tidak memiliki izin untuk melakukan operasi ini"
       case Unavailable => "Layanan tidak tersedia, coba lagi nanti"
       case NotFound => "Data tidak ditemukan"
       case OtherCode => msg.GetOr("Terjadi kesalahan database"))
    case OtherError(msg) => msg.GetOr("Terjadi kesalahan tidak dikenal")
  }

  /** A known code decides the message whatever the exception's own message says. */
  lemma KnownCodesIgnoreMessage(e: FirebaseError, m: Option<string>)
    requires (e.AuthError? && e.errorCode in AuthCodes) || (e.FirestoreError? && e.code != OtherCode)
    ensures HandleFirebaseError(e.(message := m)) == HandleFirebaseError(e)
  {
  }

  /** Otherwise the exception's message is passed through, with a per-kind default. */
  lemma UnknownCodesUseMessage(e: FirebaseError)
    requires !((e.AuthError? && e.errorCode in AuthCodes) || (e.FirestoreError? && e.code != OtherCode))
    ensures e.message.Some? ==> HandleFirebaseError(e) == e.message.value
    ensures e.message.None? ==> HandleFirebaseError(e) != ""
  {
  }

  // ---------------------------------------------------------------------------
  // validateDocumentData
  // ---------------------------------------------------------------------------

  /** `data[key]?.toString().isNullOrBlank()`. */
  predicate FieldBlank(data: Doc, key: string)
  {
    IsNullOrBlank(TextField(data, key))
  }

  const NamaEmpty := "Nama tidak boleh kosong"
  const PhoneEmpty := "Nomor telepon tidak boleh kosong"

  /** `validateDocumentData`: the missing-name error, then the missing-phone error. */
  method ValidateDocumentData(data: Doc) returns (errors: seq<string>)
    ensures errors == [] <==> !FieldBlank(data, "nama") && !FieldBlank(data, "noTelepon")
    ensures NamaEmpty in errors <==> FieldBlank(data, "nama")
    ensures PhoneEmpty in errors <==> FieldBlank(data, "noTelepon")
    ensures |errors| == 2 ==> errors == [NamaEmpty, PhoneEmpty]
  {
    errors := [];
    if FieldBlank(data, "nama") {
      errors := errors + [NamaEmpty];
    }
    if FieldBlank(data, "noTelepon") {
      errors := errors + [PhoneEmpty];
    }
  }
}
