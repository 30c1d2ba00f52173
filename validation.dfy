/**
 * Input validation and normalisation for the document forms (utils/ValidationUtils.kt):
 * Indonesian NIK, NPWP and phone-number checks, the generic and per-document form error
 * lists, and the phone, NPWP, NIK and HTML-escaping formatters.
 *
 * `isValidEmail` rests on Android's e-mail pattern, which is not part of this model: it is
 * passed in as the predicate `emailOk`.
 */
module Validation {
  import opened Wrappers
  import opened Text
  import Models

  // ---------------------------------------------------------------------------
  // Single-value checks
  // ---------------------------------------------------------------------------

  predicate IsValidPassword(password: string) { |password| >= Models.MinPasswordLength }

  /** The text after the country or trunk prefix `+62`, `62` or `0`, if there is one. */
  function AfterPhonePrefix(s: string): (r: Option<string>)
    ensures r.Some? ==> exists p :: p in PhonePrefixes && s == p + r.value
  {
    if StartsWith(s, "+62") then assert s == "+62" + s[3..]; Some(s[3..])
    else if StartsWith(s, "62") then assert s == "62" + s[2..]; Some(s[2..])
    else if StartsWith(s, "0") then assert s == "0" + s[1..]; Some(s[1..])
    else None
  }

  const PhonePrefixes: seq<string> := ["+62", "62", "0"]

  /** `[\s-]`: a regex `\s` character or '-'. */
  predicate IsPhoneSeparator(c: char) { IsRegexSpace(c) || c == '-' }

  /** Drops one optional whitespace or '-' separator. */
  function AfterPhoneSeparator(t: string): string
  {
    if t != [] && IsPhoneSeparator(t[0]) then t[1..] else t
  }

  /** '8', a digit 1-9, then 6 to 9 digits. */
  predicate IsSubscriberPart(u: string)
  {
    |u| >= 2 && u[0] == '8' && '1' <= u[1] <= '9' && 6 <= |u| - 2 <= 9 && AllDigits(u[2..])
  }

  /**
   * `^(\+62|62|0)[\s-]?8[1-9][0-9]{6,9}$`. The three prefixes begin with different
   * characters and neither a separator can be '8', so the pattern matches without backtracking.
   */
  predicate IsValidPhoneNumber(phone: string)
  {
    match AfterPhonePrefix(phone)
    case None => false
    case Some(t) => IsSubscriberPart(AfterPhoneSeparator(t))
  }

  /** Every string of the pattern's language is accepted. */
  lemma PhoneNumberAccepts(prefix: string, sep: string, u: string)
    requires prefix in PhonePrefixes
    requires sep == [] || (|sep| == 1 && IsPhoneSeparator(sep[0]))
    requires IsSubscriberPart(u)
    ensures IsValidPhoneNumber(prefix + sep + u)
  {
    var s := prefix + sep + u;
    var t := sep + u;
    assert s == prefix + t;
    assert AfterPhonePrefix(s) == Some(t) by {
      assert s[0] == prefix[0];
    }
    if sep == [] {
      assert t == u;
      assert u == [] || !IsPhoneSeparator(u[0]);
    } else {
      assert t[0] == sep[0] && t[1..] == u;
    }
  }

  /** A file separator U+001C is not in `[\s-]`, so a number written with one is refused, though a space is allowed. */
  lemma FileSeparatorRejected(u: string)
    requires IsSubscriberPart(u)
    ensures !IsValidPhoneNumber("0" + "\U{001C}" + u)
    ensures IsValidPhoneNumber("0" + " " + u)
  {
    var s := "0" + "\U{001C}" + u;
    var t := "\U{001C}" + u;
    assert s == "0" + t;
    assert s[..3][0] == '0' && s[..2][0] == '0';
    assert s[..1] == "0" && s[1..] == t;
    assert AfterPhonePrefix(s) == Some(t);
    assert AfterPhoneSeparator(t) == t;
    PhoneNumberAccepts("0", " ", u);
  }

  lemma PrefixSplit(s: string) returns (prefix: string)
    requires AfterPhonePrefix(s).Some?
    ensures prefix in PhonePrefixes && s == prefix + AfterPhonePrefix(s).value
  {
    if StartsWith(s, "+62") {
      prefix := "+62";
    } else if StartsWith(s, "62") {
      prefix := "62";
    } else {
      prefix := "0";
    }
  }

  /** Every accepted string belongs to the pattern's language: a prefix, an optional separator and the subscriber part. */
  lemma PhoneNumberShape(phone: string) returns (prefix: string, sep: string, u: string)
    requires IsValidPhoneNumber(phone)
    ensures prefix in PhonePrefixes
    ensures sep == [] || (|sep| == 1 && IsPhoneSeparator(sep[0]))
    ensures IsSubscriberPart(u)
    ensures phone == prefix + sep + u
  {
    assert AfterPhonePrefix(phone).Some?;
    var t := AfterPhonePrefix(phone).value;
    assert IsSubscriberPart(AfterPhoneSeparator(t));
    prefix := PrefixSplit(phone);
    sep := SeparatorSplit(t);
    u := AfterPhoneSeparator(t);
    Concat3(prefix, sep, u);
  }

  lemma Concat3(a: string, b: string, c: string)
    ensures a + (b + c) == a + b + c
  {
  }

  lemma SeparatorSplit(t: string) returns (sep: string)
    ensures sep == [] || (|sep| == 1 && IsPhoneSeparator(sep[0]))
    ensures t == sep + AfterPhoneSeparator(t)
  {
    sep := if t != [] && IsPhoneSeparator(t[0]) then t[..1] else [];
  }

  /** `^[0-9]{16}$`. */
  predicate IsValidNik(nik: string) { |nik| == 16 && AllDigits(nik) }

  /** Fifteen digits once every other character is removed. */
  predicate IsValidNpwp(npwp: string) { |Filter(npwp, IsDigit)| == 15 }

  const MaxFileSizeBytes: int := Models.MaxFileSizeMb * 1024 * 1024

  predicate IsValidFileSize(sizeInBytes: int) { sizeInBytes <= MaxFileSizeBytes }

  /** `substringAfterLast(".", "")`. */
  function FileExtension(fileName: string): string
  {
    SubstringAfterLast(fileName, '.', "")
  }

  predicate IsValidImageFile(fileName: string)
  {
    Lower(FileExtension(fileName)) in Models.AllowedImageExtensions
  }

  predicate IsValidDocumentFile(fileName: string)
  {
    Lower(FileExtension(fileName)) in Models.AllowedDocumentExtensions
  }

  /** A name without '.' has no extension, so it is neither an image nor a document. */
  lemma NoDotNeverValid(fileName: string)
    requires '.' !in fileName
    ensures !IsValidImageFile(fileName) && !IsValidDocumentFile(fileName)
  {
  }

  /** A valid image or document name ends with '.' and the extension, in any letter case. */
  lemma ValidFileHasExtension(fileName: string)
    requires IsValidImageFile(fileName) || IsValidDocumentFile(fileName)
    ensures exists k :: 0 <= k < |fileName| && fileName[k] == '.' && '.' !in fileName[k + 1..]
              && (Lower(fileName[k + 1..]) in Models.AllowedImageExtensions
                  || Lower(fileName[k + 1..]) in Models.AllowedDocumentExtensions)
  {
    if '.' !in fileName {
      NoDotNeverValid(fileName);
    }
  }

  // ---------------------------------------------------------------------------
  // validateForm
  // ---------------------------------------------------------------------------

  /**
   * The error for one field of `validateForm`: blank values are reported first; otherwise the
   * first keyword of the lower-cased field name whose check FAILS decides the message. A
   * keyword whose check passes does not stop the later keywords from being tried.
   */
  function FieldError(name: string, value: string, emailOk: string -> bool): Option<string>
  {
    var n := Lower(name);
    if IsBlank(value) then Some(name + " tidak boleh kosong")
    else if Contains(n, "email") && !emailOk(value) then Some("Format email tidak valid")
    else if Contains(n, "password") && !IsValidPassword(value) then Some("Password minimal 6 karakter")
    else if Contains(n, "telepon") && !IsValidPhoneNumber(value) then Some("Format nomor telepon tidak valid")
    else if Contains(n, "nik") && !IsValidNik(value) then Some("NIK harus 16 digit angka")
    else if Contains(n, "npwp") && !IsValidNpwp(value) then Some("Format NPWP tidak valid")
    else None
  }

  /** The errors of the fields, in field order. */
  function FormErrors(fields: seq<(string, string)>, emailOk: string -> bool): seq<string>
  {
    if fields == [] then []
    else
      var last := fields[|fields| - 1];
      var e := FieldError(last.0, last.1, emailOk);
      FormErrors(fields[..|fields| - 1], emailOk) + (if e.Some? then [e.value] else [])
  }

  method ValidateForm(fields: seq<(string, string)>, emailOk: string -> bool) returns (errors: seq<string>)
    ensures errors == FormErrors(fields, emailOk)
  {
    errors := [];
    var i := 0;
    while i < |fields|
      invariant 0 <= i <= |fields|
      invariant errors == FormErrors(fields[..i], emailOk)
    {
      var e := FieldError(fields[i].0, fields[i].1, emailOk);
      if e.Some? {
        errors := errors + [e.value];
      }
      assert fields[..i + 1][..i] == fields[..i];
      i := i + 1;
    }
    assert fields[..|fields|] == fields;
  }

  /** At most one error per field. */
  lemma {:induction false} FormErrorsBound(fields: seq<(string, string)>, emailOk: string -> bool)
    ensures |FormErrors(fields, emailOk)| <= |fields|
  {
    if fields != [] {
      FormErrorsBound(fields[..|fields| - 1], emailOk);
    }
  }

  /** No field has an error. */
  predicate NoFieldError(fields: seq<(string, string)>, emailOk: string -> bool)
  {
    forall i :: 0 <= i < |fields| ==> FieldError(fields[i].0, fields[i].1, emailOk).None?
  }

  /** The form passes iff no field has an error. */
  lemma {:induction false} FormErrorsEmpty(fields: seq<(string, string)>, emailOk: string -> bool)
    ensures FormErrors(fields, emailOk) == [] <==> NoFieldError(fields, emailOk)
  {
    if fields != [] {
      var init := fields[..|fields| - 1];
      FormErrorsEmpty(init, emailOk);
      NoFieldErrorLast(fields, emailOk);
    }
  }

  /** No field has an error iff none of the fields before the last has one and the last has none. */
  lemma NoFieldErrorLast(fields: seq<(string, string)>, emailOk: string -> bool)
    requires fields != []
    ensures NoFieldError(fields, emailOk) <==>
      NoFieldError(fields[..|fields| - 1], emailOk)
      && FieldError(fields[|fields| - 1].0, fields[|fields| - 1].1, emailOk).None?
  {
    var init := fields[..|fields| - 1];
    assert forall i :: 0 <= i < |init| ==> init[i] == fields[i];
  }

  /** The errors are the per-field errors, field by field: a blank field contributes its "tidak boleh kosong" message. */
  lemma {:induction false} FormErrorsAppend(fields: seq<(string, string)>, more: seq<(string, string)>, emailOk: string -> bool)
    ensures FormErrors(fields + more, emailOk) == FormErrors(fields, emailOk) + FormErrors(more, emailOk)
    decreases |more|
  {
    if more != [] {
      var init := more[..|more| - 1];
      FormErrorsAppend(fields, init, emailOk);
      assert (fields + more)[..|fields + more| - 1] == fields + init;
      assert (fields + more)[|fields + more| - 1] == more[|more| - 1];
    } else {
      assert fields + more == fields;
    }
  }

  lemma BlankFieldReported(name: string, value: string, emailOk: string -> bool)
    requires IsBlank(value)
    ensures FormErrors([(name, value)], emailOk) == [name + " tidak boleh kosong"]
  {
    assert [(name, value)][..0] == [];
  }

  /**
   * The keyword checks do not stop at the first keyword that matches: a field whose name
   * mentions both "email" and "nik" and holds a valid e-mail still gets the NIK error.
   */
  lemma LaterKeywordStillChecked(name: string, value: string, emailOk: string -> bool)
    requires Contains(Lower(name), "email") && Contains(Lower(name), "nik")
    requires !Contains(Lower(name), "password") && !Contains(Lower(name), "telepon")
    requires !IsBlank(value) && emailOk(value) && !IsValidNik(value)
    ensures FieldError(name, value, emailOk) == Some("NIK harus 16 digit angka")
  {
  }

  // ---------------------------------------------------------------------------
  // validate*Form
  // ---------------------------------------------------------------------------

  /** "<label> wajib diisi" for every required (label, key) whose value is missing or blank, in order. */
  function MissingRequired(data: map<string, string>, required: seq<(string, string)>): (r: seq<string>)
    ensures |r| <= |required|
  {
    if required == [] then []
    else
      var last := required[|required| - 1];
      MissingRequired(data, required[..|required| - 1])
        + (if last.1 !in data || IsBlank(data[last.1]) then [last.0 + " wajib diisi"] else [])
  }

  lemma {:induction false} MissingRequiredEmpty(data: map<string, string>, required: seq<(string, string)>)
    ensures MissingRequired(data, required) == []
        <==> forall i :: 0 <= i < |required| ==> required[i].1 in data && !IsBlank(data[required[i].1])
  {
    if required != [] {
      var init := required[..|required| - 1];
      MissingRequiredEmpty(data, init);
      assert forall i :: 0 <= i < |init| ==> init[i] == required[i];
    }
  }

  method RequiredFieldErrors(data: map<string, string>, required: seq<(string, string)>) returns (errors: seq<string>)
    ensures errors == MissingRequired(data, required)
  {
    errors := [];
    var i := 0;
    while i < |required|
      invariant 0 <= i <= |required|
      invariant errors == MissingRequired(data, required[..i])
    {
      var name, key := required[i].0, required[i].1;
      if key !in data || IsBlank(data[key]) {
        errors := errors + [name + " wajib diisi"];
      }
      assert required[..i + 1][..i] == required[..i];
      i := i + 1;
    }
    assert required[..|required|] == required;
  }

  /** The error a present, non-blank value adds when `ok` fails. */
  function FormatError(data: map<string, string>, key: string, ok: string -> bool, message: string): seq<string>
  {
    if key in data && !IsBlank(data[key]) && !ok(data[key]) then [message] else []
  }

  const PhoneMessage := "Format nomor telepon tidak valid"
  const NikMessage := "NIK harus 16 digit angka"
  const NpwpMessage := "Format NPWP tidak valid"
  const UnitNotNumberMessage := "Jumlah unit harus berupa angka"
  const UnitNotPositiveMessage := "Jumlah unit harus lebih dari 0"

  const PembelianRumahRequired: seq<(string, string)> := [
    ("Nama", "nama"), ("Alamat KTP", "alamatKTP"), ("NIK", "nik"), ("Nomor Telepon", "noTelepon"),
    ("Status Pernikahan", "statusPernikahan"), ("Pekerjaan", "pekerjaan"), ("Gaji", "gaji"),
    ("Tempat Kerja", "tempatKerja"), ("Nama Perumahan", "namaPerumahan"), ("Tipe Rumah", "tipeRumah"),
    ("Jenis Pembayaran", "jenisPembayaran"), ("Kategori Rumah", "tipeRumahKategori")]

  const RenovasiRumahRequired: seq<(string, string)> := [
    ("Nama", "nama"), ("Alamat", "alamat"), ("Nomor Telepon", "noTelepon"),
    ("Deskripsi Renovasi", "deskripsiRenovasi")]

  const PemasanganAcRequired: seq<(string, string)> := [
    ("Nama", "nama"), ("Alamat", "alamat"), ("Nomor Telepon", "noTelepon"),
    ("Jenis AC", "jenisAC"), ("Jumlah Unit", "jumlahUnit")]

  const PemasanganCctvRequired: seq<(string, string)> := [
    ("Nama", "nama"), ("Alamat", "alamat"), ("Nomor Telepon", "noTelepon"),
    ("Jumlah Unit", "jumlahUnit")]

  /** The unit-count error: a non-integer, or an integer that is not positive. */
  function UnitError(data: map<string, string>): (r: seq<string>)
    ensures |r| <= 1
  {
    if "jumlahUnit" in data && !IsBlank(data["jumlahUnit"]) then
      match ParseInt(data["jumlahUnit"])
      case None => [UnitNotNumberMessage]
      case Some(n) => if n <= 0 then [UnitNotPositiveMessage] else []
    else []
  }

  function PembelianRumahErrors(data: map<string, string>): seq<string>
  {
    MissingRequired(data, PembelianRumahRequired)
      + FormatError(data, "nik", IsValidNik, NikMessage)
      + FormatError(data, "npwp", IsValidNpwp, NpwpMessage)
      + FormatError(data, "noTelepon", IsValidPhoneNumber, PhoneMessage)
  }

  function RenovasiRumahErrors(data: map<string, string>): seq<string>
  {
    MissingRequired(data, RenovasiRumahRequired)
      + FormatError(data, "noTelepon", IsValidPhoneNumber, PhoneMessage)
  }

  function PemasanganAcErrors(data: map<string, string>): seq<string>
  {
    MissingRequired(data, PemasanganAcRequired)
      + FormatError(data, "noTelepon", IsValidPhoneNumber, PhoneMessage)
      + UnitError(data)
  }

  function PemasanganCctvErrors(data: map<string, string>): seq<string>
  {
    MissingRequired(data, PemasanganCctvRequired)
      + FormatError(data, "noTelepon", IsValidPhoneNumber, PhoneMessage)
      + UnitError(data)
  }

  method ValidatePembelianRumahForm(data: map<string, string>) returns (errors: seq<string>)
    ensures errors == PembelianRumahErrors(data)
  {
    errors := RequiredFieldErrors(data, PembelianRumahRequired);
    ghost var missing := errors;
    if "nik" in data && !IsBlank(data["nik"]) && !IsValidNik(data["nik"]) {
      errors := errors + [NikMessage];
    }
    assert errors == missing + FormatError(data, "nik", IsValidNik, NikMessage);
    ghost var checked := errors;
    if "npwp" in data && !IsBlank(data["npwp"]) && !IsValidNpwp(data["npwp"]) {
      errors := errors + [NpwpMessage];
    }
    assert errors == checked + FormatError(data, "npwp", IsValidNpwp, NpwpMessage);
    if "noTelepon" in data && !IsBlank(data["noTelepon"]) && !IsValidPhoneNumber(data["noTelepon"]) {
      errors := errors + [PhoneMessage];
    }
  }

  method ValidateRenovasiRumahForm(data: map<string, string>) returns (errors: seq<string>)
    ensures errors == RenovasiRumahErrors(data)
  {
    errors := RequiredFieldErrors(data, RenovasiRumahRequired);
    if "noTelepon" in data && !IsBlank(data["noTelepon"]) && !IsValidPhoneNumber(data["noTelepon"]) {
      errors := errors + [PhoneMessage];
    }
  }

  method UnitErrors(data: map<string, string>) returns (errors: seq<string>)
    ensures errors == UnitError(data)
  {
    errors := [];
    if "jumlahUnit" in data && !IsBlank(data["jumlahUnit"]) {
      var parsed := ParseInt(data["jumlahUnit"]);
      if parsed.None? {
        errors := [UnitNotNumberMessage];
      } else if parsed.value <= 0 {
        errors := [UnitNotPositiveMessage];
      }
    }
  }

  method ValidatePemasanganAcForm(data: map<string, string>) returns (errors: seq<string>)
    ensures errors == PemasanganAcErrors(data)
  {
    errors := RequiredFieldErrors(data, PemasanganAcRequired);
    if "noTelepon" in data && !IsBlank(data["noTelepon"]) && !IsValidPhoneNumber(data["noTelepon"]) {
      errors := errors + [PhoneMessage];
    }
    var unit := UnitErrors(data);
    errors := errors + unit;
  }

  method ValidatePemasanganCctvForm(data: map<string, string>) returns (errors: seq<string>)
    ensures errors == PemasanganCctvErrors(data)
  {
    errors := RequiredFieldErrors(data, PemasanganCctvRequired);
    if "noTelepon" in data && !IsBlank(data["noTelepon"]) && !IsValidPhoneNumber(data["noTelepon"]) {
      errors := errors + [PhoneMessage];
    }
    var unit := UnitErrors(data);
    errors := errors + unit;
  }

  /** The purchase form passes iff every required field is filled and NIK, NPWP (when given) and phone are well formed. */
  lemma PembelianRumahValid(data: map<string, string>)
    ensures PembelianRumahErrors(data) == []
        <== (forall i :: 0 <= i < |PembelianRumahRequired| ==>
               PembelianRumahRequired[i].1 in data && !IsBlank(data[PembelianRumahRequired[i].1]))
            && "nik" in data && IsValidNik(data["nik"])
            && "noTelepon" in data && IsValidPhoneNumber(data["noTelepon"])
            && ("npwp" in data ==> IsBlank(data["npwp"]) || IsValidNpwp(data["npwp"]))
    ensures PembelianRumahErrors(data) == [] ==>
            (forall i :: 0 <= i < |PembelianRumahRequired| ==>
               PembelianRumahRequired[i].1 in data && !IsBlank(data[PembelianRumahRequired[i].1]))
            && "nik" in data && IsValidNik(data["nik"])
            && "noTelepon" in data && IsValidPhoneNumber(data["noTelepon"])
            && ("npwp" in data ==> IsBlank(data["npwp"]) || IsValidNpwp(data["npwp"]))
  {
    MissingRequiredEmpty(data, PembelianRumahRequired);
    assert PembelianRumahRequired[2].1 == "nik" && PembelianRumahRequired[3].1 == "noTelepon";
  }

  /** With the required fields filled and a valid phone, the unit count alone decides the CCTV errors. */
  lemma PemasanganCctvUnitRule(data: map<string, string>)
    requires forall i :: 0 <= i < |PemasanganCctvRequired| ==>
               PemasanganCctvRequired[i].1 in data && !IsBlank(data[PemasanganCctvRequired[i].1])
    requires "noTelepon" in data && "jumlahUnit" in data
    requires IsValidPhoneNumber(data["noTelepon"])
    ensures ParseInt(data["jumlahUnit"]).None? ==> PemasanganCctvErrors(data) == [UnitNotNumberMessage]
    ensures (ParseInt(data["jumlahUnit"]).Some? && ParseInt(data["jumlahUnit"]).value <= 0)
        ==> PemasanganCctvErrors(data) == [UnitNotPositiveMessage]
    ensures (ParseInt(data["jumlahUnit"]).Some? && ParseInt(data["jumlahUnit"]).value > 0)
        ==> PemasanganCctvErrors(data) == []
  {
    MissingRequiredEmpty(data, PemasanganCctvRequired);
    assert PemasanganCctvRequired[3].1 == "jumlahUnit";
  }

  /** A missing required field is reported by its label, exactly once per entry. */
  lemma {:induction false} MissingReported(data: map<string, string>, required: seq<(string, string)>, i: nat)
    requires i < |required|
    requires required[i].1 !in data || IsBlank(data[required[i].1])
    ensures required[i].0 + " wajib diisi" in MissingRequired(data, required)
    decreases |required|
  {
    if i < |required| - 1 {
      MissingReported(data, required[..|required| - 1], i);
    }
  }

  // ---------------------------------------------------------------------------
  // Formatters
  // ---------------------------------------------------------------------------

  predicate IsDigitOrPlus(c: char) { IsDigit(c) || c == '+' }

  /**
   * Keeps digits and '+', then turns a trunk prefix "0" into "+62" and a bare country code
   * "62" into "+62".
   */
  function CleanPhoneNumber(phone: string): (r: string)
    ensures forall i :: 0 <= i < |r| ==> IsDigitOrPlus(r[i])
  {
    var cleaned := Filter(phone, IsDigitOrPlus);
    if StartsWith(cleaned, "0") then "+62" + cleaned[1..]
    else if StartsWith(cleaned, "62") then "+" + cleaned
    else cleaned
  }

  /** The three cases: a leading '0' becomes "+62", a leading "62" gains a '+', anything else is only stripped. */
  lemma CleanPhoneNumberCases(phone: string)
    ensures var c := Filter(phone, IsDigitOrPlus);
      CleanPhoneNumber(phone) == (if c != [] && c[0] == '0' then "+62" + c[1..]
                                  else if |c| >= 2 && c[..2] == "62" then "+" + c
                                  else c)
  {
  }

  /** Normalising twice changes nothing more. */
  lemma CleanPhoneNumberIdempotent(phone: string)
    ensures CleanPhoneNumber(CleanPhoneNumber(phone)) == CleanPhoneNumber(phone)
  {
    var r := CleanPhoneNumber(phone);
    assert Filter(r, IsDigitOrPlus) == r;
    var c := Filter(phone, IsDigitOrPlus);
    if StartsWith(c, "0") || StartsWith(c, "62") {
      assert r[0] == '+';
    } else {
      assert r == c;
    }
  }

  lemma FilterPhonePrefix(prefix: string)
    requires prefix in PhonePrefixes
    ensures Filter(prefix, IsDigitOrPlus) == prefix
  {
    assert forall i :: 0 <= i < |prefix| ==> IsDigitOrPlus(prefix[i]) by {
      if prefix == "+62" {
        assert prefix[0] == '+' && prefix[1] == '6' && prefix[2] == '2';
      } else if prefix == "62" {
        assert prefix[0] == '6' && prefix[1] == '2';
      } else {
        assert prefix[0] == '0';
      }
    }
  }

  lemma FilterPhoneSeparator(sep: string)
    requires sep == [] || (|sep| == 1 && IsPhoneSeparator(sep[0]))
    ensures Filter(sep, IsDigitOrPlus) == []
  {
    if sep != [] {
      assert sep[1..] == [];
    }
  }

  lemma FilterPhoneParts(prefix: string, sep: string, u: string)
    requires prefix in PhonePrefixes
    requires sep == [] || (|sep| == 1 && IsPhoneSeparator(sep[0]))
    requires AllDigits(u)
    ensures Filter(prefix + sep + u, IsDigitOrPlus) == prefix + u
  {
    FilterPhonePrefix(prefix);
    FilterPhoneSeparator(sep);
    assert Filter(u, IsDigitOrPlus) == u;
    FilterConcat(prefix, sep, IsDigitOrPlus);
    FilterConcat(prefix + sep, u, IsDigitOrPlus);
    assert prefix + [] == prefix;
  }

  /** Whichever of the three prefixes a cleaned number starts with, it becomes "+62". */
  lemma NormalisePrefix(prefix: string, u: string)
    requires prefix in PhonePrefixes && IsSubscriberPart(u)
    ensures var c := prefix + u;
      (if StartsWith(c, "0") then "+62" + c[1..] else if StartsWith(c, "62") then "+" + c else c) == "+62" + u
  {
    var c := prefix + u;
    if prefix == "+62" {
      assert c[0] == '+';
      assert !StartsWith(c, "0") && !StartsWith(c, "62");
    } else if prefix == "62" {
      assert c[0] == '6' && c[1] == '2';
      assert !StartsWith(c, "0") && StartsWith(c, "62");
      assert "+" + c == "+62" + u;
    } else {
      assert c[0] == '0';
      assert StartsWith(c, "0");
      assert c[1..] == u;
    }
  }

  /** A number the validator accepts normalises to "+62" followed by its subscriber digits, which the validator also accepts. */
  lemma CleanValidPhoneNumber(phone: string)
    requires IsValidPhoneNumber(phone)
    ensures exists u :: CleanPhoneNumber(phone) == "+62" + u && EndsWith(phone, u) && IsSubscriberPart(u)
    ensures IsValidPhoneNumber(CleanPhoneNumber(phone))
  {
    var u := CleanedSubscriber(phone);
    PhoneNumberAccepts("+62", [], u);
    assert "+62" + [] + u == "+62" + u;
  }

  /** The subscriber part a valid number normalises to. */
  lemma CleanedSubscriber(phone: string) returns (u: string)
    requires IsValidPhoneNumber(phone)
    ensures CleanPhoneNumber(phone) == "+62" + u
    ensures EndsWith(phone, u) && IsSubscriberPart(u)
  {
    var prefix, sep;
    prefix, sep, u := PhoneNumberShape(phone);
    SubscriberDigits(u);
    FilterPhoneParts(prefix, sep, u);
    NormalisePrefix(prefix, u);
    assert phone[|phone| - |u|..] == u;
  }

  /** The subscriber part is digits only. */
  lemma SubscriberDigits(u: string)
    requires IsSubscriberPart(u)
    ensures AllDigits(u)
  {
    assert forall i :: 2 <= i < |u| ==> u[i] == u[2..][i - 2];
  }

  /** `XX.XXX.XXX.X-XXX.XXX` from fifteen digits; any other input is returned as given. */
  function FormatNpwp(npwp: string): (r: string)
  {
    var c := Filter(npwp, IsDigit);
    if |c| == 15 then NpwpLayout(c) else npwp
  }

  /** The fifteen digits with the separators of the NPWP layout put in. */
  function NpwpLayout(c: string): string
    requires |c| == 15
  {
    c[0..2] + ("." + (c[2..5] + ("." + (c[5..8] + ("." + (c[8..9] + ("-" + (c[9..12] + ("." + c[12..15])))))))))
  }

  lemma FilterDigitsThen(a: string, rest: string)
    requires AllDigits(a)
    ensures Filter(a + rest, IsDigit) == a + Filter(rest, IsDigit)
  {
    FilterConcat(a, rest, IsDigit);
  }

  lemma FilterSepThen(ch: char, rest: string)
    requires !IsDigit(ch)
    ensures Filter([ch] + rest, IsDigit) == Filter(rest, IsDigit)
  {
    assert ([ch] + rest)[1..] == rest;
  }

  /** One group of the layout: the digits c[i..j], a separator, then text that filters to c[j..]. */
  lemma NpwpGroup(c: string, i: nat, j: nat, sep: string, rest: string)
    requires i <= j <= |c| && AllDigits(c)
    requires |sep| == 1 && !IsDigit(sep[0])
    requires Filter(rest, IsDigit) == c[j..]
    ensures Filter(c[i..j] + (sep + rest), IsDigit) == c[i..]
  {
    assert AllDigits(c[i..j]) by {
      forall k | 0 <= k < j - i ensures IsDigit(c[i..j][k]) {
        assert c[i..j][k] == c[i + k];
      }
    }
    FilterDigitsThen(c[i..j], sep + rest);
    assert sep == [sep[0]];
    FilterSepThen(sep[0], rest);
    assert c[i..] == c[i..j] + c[j..];
  }

  /** Removing the separators from the layout gives back the digits. */
  lemma NpwpLayoutDigits(c: string)
    requires |c| == 15 && AllDigits(c)
    ensures Filter(NpwpLayout(c), IsDigit) == c
  {
    var t9 := c[12..15];
    assert t9 == c[12..];
    FilterDigitsThen(t9, []);
    assert t9 + [] == t9;
    var t8 := c[9..12] + ("." + t9);
    NpwpGroup(c, 9, 12, ".", t9);
    var t7 := c[8..9] + ("-" + t8);
    NpwpGroup(c, 8, 9, "-", t8);
    var t6 := c[5..8] + ("." + t7);
    NpwpGroup(c, 5, 8, ".", t7);
    var t5 := c[2..5] + ("." + t6);
    NpwpGroup(c, 2, 5, ".", t6);
    NpwpGroup(c, 0, 2, ".", t5);
    assert NpwpLayout(c) == c[0..2] + ("." + t5);
    assert c[0..] == c;
  }

  /** The separators of the layout stand at fixed places. */
  lemma NpwpLayoutPlaces(c: string)
    requires |c| == 15
    ensures var r := NpwpLayout(c);
      |r| == 20 && r[2] == '.' && r[6] == '.' && r[10] == '.' && r[12] == '-' && r[16] == '.'
  {
  }

  /** The formatted NPWP carries the same fifteen digits in order with the separators at fixed places, and it is itself valid. */
  lemma FormatNpwpShape(npwp: string)
    requires IsValidNpwp(npwp)
    ensures var r := FormatNpwp(npwp);
      |r| == 20 && Filter(r, IsDigit) == Filter(npwp, IsDigit) && IsValidNpwp(r)
      && r[2] == '.' && r[6] == '.' && r[10] == '.' && r[12] == '-' && r[16] == '.'
  {
    var c := Filter(npwp, IsDigit);
    NpwpLayoutDigits(c);
    NpwpLayoutPlaces(c);
  }

  lemma FormatNpwpOther(npwp: string)
    requires !IsValidNpwp(npwp)
    ensures FormatNpwp(npwp) == npwp
  {
  }

  /** `replace(Regex("[^0-9]"), "")`. */
  function FormatNik(nik: string): (r: string)
    ensures AllDigits(r)
  {
    Filter(nik, IsDigit)
  }

  lemma FormatNikProperties(nik: string)
    ensures FormatNik(FormatNik(nik)) == FormatNik(nik)
    ensures IsValidNik(FormatNik(nik)) <==> |Filter(nik, IsDigit)| == 16
    ensures AllDigits(nik) ==> FormatNik(nik) == nik
  {
  }

  // ---------------------------------------------------------------------------
  // sanitizeInput
  // ---------------------------------------------------------------------------

  /** The escapes of `sanitizeInput`, applied in this order. */
  const Escapes: seq<(char, string)> :=
    [('<', "&lt;"), ('>', "&gt;"), ('"', "&quot;"), ('\'', "&#x27;"), ('/', "&#x2F;")]

  predicate IsEscaped(c: char) { c == '<' || c == '>' || c == '"' || c == '\'' || c == '/' }

  /** Each replacement in turn: `s.replace(es[0].0, es[0].1)....`. */
  function ReplaceAll(s: string, es: seq<(char, string)>): string
    decreases |es|
  {
    if es == [] then s else ReplaceAll(ReplaceChar(s, es[0].0, es[0].1), es[1..])
  }

  /** Trims, then escapes `<`, `>`, `"`, `'` and `/` in that order. */
  function SanitizeInput(input: string): string
  {
    ReplaceAll(Trim(input), Escapes)
  }

  /** Empty, or beginning and ending with a non-blank character: what `trim()` leaves. */
  predicate EndsSolid(s: string)
  {
    s == [] || (!IsWhitespace(s[0]) && !IsWhitespace(s[|s| - 1]))
  }

  /** A replacement text that begins and ends with a non-blank character. */
  predicate SolidText(rep: string)
  {
    rep != [] && !IsWhitespace(rep[0]) && !IsWhitespace(rep[|rep| - 1])
  }

  /** Replacement texts that hold none of the escaped characters. */
  predicate SafeEscapes(es: seq<(char, string)>)
  {
    forall i :: 0 <= i < |es| ==> SolidText(es[i].1) && forall ch :: IsEscaped(ch) ==> ch !in es[i].1
  }

  lemma EscapesSafe()
    ensures SafeEscapes(Escapes)
    ensures forall i :: 0 <= i < |Escapes| ==> IsEscaped(Escapes[i].0)
    ensures forall ch :: IsEscaped(ch) ==> exists i :: 0 <= i < |Escapes| && Escapes[i].0 == ch
  {
    EntityTextSafe("&lt;");
    EntityTextSafe("&gt;");
    EntityTextSafe("&quot;");
    EntityTextSafe("&#x27;");
    EntityTextSafe("&#x2F;");
    assert Escapes[0].0 == '<' && Escapes[1].0 == '>' && Escapes[2].0 == '"';
    assert Escapes[3].0 == '\'' && Escapes[4].0 == '/';
  }

  /** An HTML entity `&...;` spelled with letters, digits and `#` holds no escaped character. */
  lemma EntityTextSafe(rep: string)
    requires |rep| >= 3 && rep[0] == '&' && rep[|rep| - 1] == ';'
    requires forall i :: 0 < i < |rep| - 1 ==> IsAsciiLetter(rep[i]) || IsDigit(rep[i]) || rep[i] == '#'
    ensures SolidText(rep) && forall ch :: IsEscaped(ch) ==> ch !in rep
  {
  }

  /** Replacing by text with non-blank ends keeps the ends non-blank. */
  lemma {:induction false} ReplaceKeepsEnds(s: string, c: char, rep: string)
    requires SolidText(rep)
    requires EndsSolid(s)
    ensures ReplaceChar(s, c, rep) == [] <==> s == []
    ensures EndsSolid(ReplaceChar(s, c, rep))
  {
    if |s| > 1 {
      var rest := ReplaceChar(s[1..], c, rep);
      LastOfReplace(s[1..], c, rep);
    }
  }

  lemma {:induction false} LastOfReplace(s: string, c: char, rep: string)
    requires rep != [] && s != []
    ensures var r := ReplaceChar(s, c, rep);
      r != [] && r[|r| - 1] == (if s[|s| - 1] == c then rep[|rep| - 1] else s[|s| - 1])
  {
    if |s| > 1 {
      LastOfReplace(s[1..], c, rep);
    } else {
      assert ReplaceChar(s[1..], c, rep) == [];
    }
  }

  lemma {:induction false} ReplaceAllKeepsEnds(s: string, es: seq<(char, string)>)
    requires SafeEscapes(es)
    requires EndsSolid(s)
    ensures EndsSolid(ReplaceAll(s, es))
    decreases |es|
  {
    if es != [] {
      ReplaceKeepsEnds(s, es[0].0, es[0].1);
      ReplaceAllKeepsEnds(ReplaceChar(s, es[0].0, es[0].1), es[1..]);
    }
  }

  lemma {:induction false} ReplaceCharKeepsAbsent(s: string, c: char, rep: string, d: char)
    requires d !in s && d !in rep
    ensures d !in ReplaceChar(s, c, rep)
  {
    if s != [] {
      assert d !in s[1..] by { assert forall x :: x in s[1..] ==> x in s; }
      ReplaceCharKeepsAbsent(s[1..], c, rep, d);
    }
  }

  /** A character found in no replacement text and not in s is not in the result. */
  lemma {:induction false} ReplaceAllKeepsAbsent(s: string, es: seq<(char, string)>, d: char)
    requires d !in s && forall i :: 0 <= i < |es| ==> d !in es[i].1
    ensures d !in ReplaceAll(s, es)
    decreases |es|
  {
    if es != [] {
      ReplaceCharKeepsAbsent(s, es[0].0, es[0].1, d);
      ReplaceAllKeepsAbsent(ReplaceChar(s, es[0].0, es[0].1), es[1..], d);
    }
  }

  /** After the replacement of d, d does not come back. */
  lemma {:induction false} ReplaceAllDrops(s: string, es: seq<(char, string)>, k: nat)
    requires k < |es| && forall i :: 0 <= i < |es| ==> es[k].0 !in es[i].1
    ensures es[k].0 !in ReplaceAll(s, es)
    decreases |es|
  {
    var d := es[k].0;
    var t := ReplaceChar(s, es[0].0, es[0].1);
    if k == 0 {
      ReplaceCharRemoves(s, d, es[0].1, d);
      ReplaceAllKeepsAbsent(t, es[1..], d);
    } else {
      ReplaceAllDrops(t, es[1..], k - 1);
    }
  }

  /** Replacements of absent characters change nothing. */
  lemma {:induction false} ReplaceAllAbsent(s: string, es: seq<(char, string)>)
    requires forall i :: 0 <= i < |es| ==> es[i].0 !in s
    ensures ReplaceAll(s, es) == s
    decreases |es|
  {
    if es != [] {
      ReplaceAllAbsent(s, es[1..]);
    }
  }

  /** The output is trimmed. */
  lemma SanitizeInputTrimmed(input: string)
    ensures EndsSolid(SanitizeInput(input))
  {
    EscapesSafe();
    ReplaceAllKeepsEnds(Trim(input), Escapes);
  }

  /** The output has none of the escaped characters. */
  lemma SanitizeInputEscaped(input: string)
    ensures forall ch :: IsEscaped(ch) ==> ch !in SanitizeInput(input)
  {
    EscapesSafe();
    forall ch | IsEscaped(ch) ensures ch !in SanitizeInput(input) {
      var k :| 0 <= k < |Escapes| && Escapes[k].0 == ch;
      ReplaceAllDrops(Trim(input), Escapes, k);
    }
  }

  /** Sanitising twice gives the same text as sanitising once. */
  lemma SanitizeInputIdempotent(input: string)
    ensures SanitizeInput(SanitizeInput(input)) == SanitizeInput(input)
  {
    var r := SanitizeInput(input);
    SanitizeInputTrimmed(input);
    SanitizeInputEscaped(input);
    TrimOfTrimmed(r);
    EscapesSafe();
    assert forall i :: 0 <= i < |Escapes| ==> Escapes[i].0 !in r;
    ReplaceAllAbsent(r, Escapes);
    assert SanitizeInput(r) == ReplaceAll(r, Escapes);
  }
}
