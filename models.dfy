/**
 * The four document records (the models package) and the application constants (utils/Constants.kt).
 * Every record carries an id, a unique code, a name, a phone number, audit fields, a status
 * and its attachments (display name to download URL, in iteration order).
 */
module Models {
  import opened Wrappers
  import LinkedMap
  import Lists

  const RoleAdmin := "admin"
  const RoleManager := "manager"
  const RoleStaff := "staff"

  const UsersCollection := "users"
  const PembelianRumahCollection := "pembelian_rumah"
  const RenovasiRumahCollection := "renovasi_rumah"
  const PemasanganAcCollection := "pemasangan_ac"
  const PemasanganCctvCollection := "pemasangan_cctv"

  const StorageDocuments := "documents"

  const DocTypePembelianRumah := "PEMBELIAN_RUMAH"
  const DocTypeRenovasiRumah := "RENOVASI_RUMAH"
  const DocTypePemasanganAc := "PEMASANGAN_AC"
  const DocTypePemasanganCctv := "PEMASANGAN_CCTV"

  const PrefixPembelianRumah := "PR"
  const PrefixRenovasiRumah := "RR"
  const PrefixPemasanganAc := "AC"
  const PrefixPemasanganCctv := "CC"

  const MinPasswordLength := 6
  const MaxFileSizeMb := 10
  const AllowedImageExtensions := ["jpg", "jpeg", "png", "gif", "webp", "bmp"]
  const AllowedDocumentExtensions := ["pdf", "doc", "docx", "txt", "rtf"]

  /** The four kinds of document, in the order every screen lists them. */
  datatype DocKind = PembelianRumahKind | RenovasiRumahKind | PemasanganAcKind | PemasanganCctvKind

  const AllKinds: seq<DocKind> := [PembelianRumahKind, RenovasiRumahKind, PemasanganAcKind, PemasanganCctvKind]

  function TypeName(k: DocKind): string
  {
    match k
    case PembelianRumahKind => DocTypePembelianRumah
    case RenovasiRumahKind => DocTypeRenovasiRumah
    case PemasanganAcKind => DocTypePemasanganAc
    case PemasanganCctvKind => DocTypePemasanganCctv
  }

  /** The kind named by a document-type string, if any. */
  function KindOfType(t: string): (r: Option<DocKind>)
    ensures r.Some? ==> TypeName(r.value) == t
    ensures forall k :: TypeName(k) == t ==> r == Some(k)
  {
    if t == DocTypePembelianRumah then Some(PembelianRumahKind)
    else if t == DocTypeRenovasiRumah then Some(RenovasiRumahKind)
    else if t == DocTypePemasanganAc then Some(PemasanganAcKind)
    else if t == DocTypePemasanganCctv then Some(PemasanganCctvKind)
    else None
  }

  type Attachments = LinkedMap.Entries<string, string>

  datatype Document =
    | PembelianRumah(
        id: string, uniqueCode: string, nama: string, alamatKTP: string, nik: string,
        npwp: string, noTelepon: string, statusPernikahan: string, namaPasangan: string,
        pekerjaan: string, gaji: string, kontakDarurat: string, tempatKerja: string,
        namaPerumahan: string, tipeRumah: string, jenisPembayaran: string,
        tipeRumahKategori: string,
        createdAt: int, updatedAt: int, createdBy: string, updatedBy: string,
        status: string, attachments: Attachments)
    | RenovasiRumah(
        id: string, uniqueCode: string, nama: string, alamat: string, noTelepon: string,
        deskripsiRenovasi: string,
        createdAt: int, updatedAt: int, createdBy: string, updatedBy: string,
        status: string, attachments: Attachments)
    | PemasanganAC(
        id: string, uniqueCode: string, nama: string, alamat: string, noTelepon: string,
        jenisTipeAC: string, jumlahUnit: int,
        createdAt: int, updatedAt: int, createdBy: string, updatedBy: string,
        status: string, attachments: Attachments)
    | PemasanganCCTV(
        id: string, uniqueCode: string, nama: string, alamat: string, noTelepon: string,
        jumlahUnit: int,
        createdAt: int, updatedAt: int, createdBy: string, updatedBy: string,
        status: string, attachments: Attachments)
  {
    function Kind(): DocKind
    {
      if PembelianRumah? then PembelianRumahKind
      else if RenovasiRumah? then RenovasiRumahKind
      else if PemasanganAC? then PemasanganAcKind
      else PemasanganCctvKind
    }
  }

  function CreatedAt(d: Document): int { d.createdAt }

  /** The order of `orderBy("createdAt", DESCENDING)` and `sortedByDescending { it.createdAt }`. */
  predicate NewerOrSame(a: int, b: int) { a >= b }

  lemma NewerOrSameTotalOrder()
    ensures Lists.TotalOrder(NewerOrSame)
  {
  }

  /** Documents newest first; documents created at the same time keep their order. */
  function NewestFirst(docs: seq<Document>): (r: seq<Document>)
    ensures |r| == |docs|
    ensures Lists.SortedBy(r, CreatedAt, NewerOrSame)
    ensures multiset(r) == multiset(docs)
    ensures forall t :: Lists.WithKey(r, CreatedAt, t) == Lists.WithKey(docs, CreatedAt, t)
  {
    NewerOrSameTotalOrder();
    Lists.SortBySorted(docs, CreatedAt, NewerOrSame);
    Lists.SortByPermutes(docs, CreatedAt, NewerOrSame);
    Lists.SortByStableAll(docs, CreatedAt, NewerOrSame);
    Lists.SortBy(docs, CreatedAt, NewerOrSame)
  }
}
