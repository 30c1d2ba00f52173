# DocumentManager, modelled in Dafny

DocumentManager is an Android app, with a small set of Firebase Cloud Functions, for recording four kinds of property documents: house purchases (Pembelian Rumah), renovations (Renovasi Rumah), AC installations (Pemasangan AC) and CCTV installations (Pemasangan CCTV). Staff fill in forms and attach files, admins manage staff accounts, and managers export monthly and yearly reports as PDF.

This project models the app's deterministic core and proves properties of it:

- the validators and formatters: NIK, NPWP and phone numbers, form error lists, document codes of the form `PR|RR|AC|CC-YYYYMM-NNNN`, and HTML-ish escaping;
- the file-name, extension and MIME rules used for uploads, downloads and exports;
- the mapping of loosely typed Firestore documents to user and report records, with their defaults;
- the repository transforms: upsert, soft delete, the fallback query chain, search, and the staff list;
- the shaping of the list, search and report screens;
- the page-break planning of the two PDF writers and the greedy word wrap;
- the save flow of the two form screens, with the guard flags that decide which results a form acts on;
- the staff create and edit screens, and the admin Cloud Functions.

Every source file is one Dafny module, and the shared helpers have their own modules:

- Text: Kotlin string functions over ASCII whitespace and case, and the regex class `\s` (`IsRegexSpace`), which is narrower than Kotlin's `isWhitespace`.
- Lists: `filter` and the stable sort.
- LinkedMap: an insertion-ordered map.
- Firestore: a document as `map<string, Value>`.
- Models: the four document records and the constants.
- Wrap: the word wrap.
- Wrappers: Option and Result.

Code that updates state in place is written as a class with `modifies` clauses. The view models' LiveData, the adapters, the form fragments, the PDF writers over a log of draw operations, and the repositories over an in-memory collection are all modelled this way. Loops in the source are methods with loop invariants, each proved against a function that specifies it.

Everything the app gets from outside is a parameter. That covers:

- Firestore, Storage, Auth and Admin SDK answers, MediaStore inserts and HTTP responses, including their errors;
- the clock and random choices;
- fresh ids and the signed-in uid;
- Android's `MimeTypeMap` and `measureText`.

Where the informal description of the app and its code differ, the model follows the code. One example is `validateForm` (utils/ValidationUtils.kt:60-80). A keyword in the field name picks a check only when that check fails. If the check passes, the next keyword is tried: a field named "email nik" with a valid email is still checked as a NIK.

## Model

| member | source | states |
|---|---|---|
| Validation.PhoneNumberAccepts | app/src/main/java/com/epic/documentmanager/utils/ValidationUtils.kt:19-22 | every string made of a prefix `+62`, `62` or `0`, an optional blank or '-', '8', a digit 1-9 and 6 to 9 digits is accepted |
| Validation.FileSeparatorRejected | app/src/main/java/com/epic/documentmanager/utils/ValidationUtils.kt:19-22 | a number whose separator is U+001C, which `[\s-]` does not match, is refused, while the same number with a space is accepted |
| Validation.PhoneNumberShape | app/src/main/java/com/epic/documentmanager/utils/ValidationUtils.kt:19-22 | every accepted phone number splits into exactly such a prefix, separator and subscriber part (the converse direction) |
| Validation.NoDotNeverValid | app/src/main/java/com/epic/documentmanager/utils/ValidationUtils.kt:42-54 | a name without '.' is neither a valid image nor a valid document file |
| Validation.ValidFileHasExtension | app/src/main/java/com/epic/documentmanager/utils/ValidationUtils.kt:42-54 | a valid image or document name has a last '.' followed by an allowed extension in some letter case |
| Validation.ValidateForm | app/src/main/java/com/epic/documentmanager/utils/ValidationUtils.kt:57-84 | the loop over the fields returns exactly the per-field errors in field order |
| Validation.FormErrorsBound | app/src/main/java/com/epic/documentmanager/utils/ValidationUtils.kt:57-84 | at most one error per field |
| Validation.FormErrorsEmpty | app/src/main/java/com/epic/documentmanager/utils/ValidationUtils.kt:57-84 | the form passes iff no single field has an error |
| Validation.FormErrorsAppend | app/src/main/java/com/epic/documentmanager/utils/ValidationUtils.kt:60-81 | the errors of two field lists joined are the errors of the first followed by those of the second |
| Validation.BlankFieldReported | app/src/main/java/com/epic/documentmanager/utils/ValidationUtils.kt:62-64 | a blank value gives exactly "<field> tidak boleh kosong" |
| Validation.LaterKeywordStillChecked | app/src/main/java/com/epic/documentmanager/utils/ValidationUtils.kt:65-76 | a field named after both "email" and "nik" holding a valid e-mail but no valid NIK still gets the NIK error |
| Validation.MissingRequired | app/src/main/java/com/epic/documentmanager/utils/ValidationUtils.kt:104-108 | at most one "wajib diisi" message per required field |
| Validation.MissingRequiredEmpty | app/src/main/java/com/epic/documentmanager/utils/ValidationUtils.kt:104-108 | no message iff every required key is present and non-blank |
| Validation.MissingReported | app/src/main/java/com/epic/documentmanager/utils/ValidationUtils.kt:104-108 | a missing or blank required key is reported by its label |
| Validation.RequiredFieldErrors | app/src/main/java/com/epic/documentmanager/utils/ValidationUtils.kt:104-108 | the forEach loop adds exactly the missing-field messages in order |
| Validation.UnitError | app/src/main/java/com/epic/documentmanager/utils/ValidationUtils.kt:178-189 | at most one unit error |
| Validation.UnitErrors | app/src/main/java/com/epic/documentmanager/utils/ValidationUtils.kt:178-189 | the try/catch block adds "harus berupa angka" for non-integers, "harus lebih dari 0" for integers ≤ 0, nothing otherwise |
| Validation.ValidatePembelianRumahForm | app/src/main/java/com/epic/documentmanager/utils/ValidationUtils.kt:87-130 | the twelve required-field messages, then the NIK, NPWP and phone format errors for present non-blank values |
| Validation.ValidateRenovasiRumahForm | app/src/main/java/com/epic/documentmanager/utils/ValidationUtils.kt:132-154 | the four required-field messages, then the phone format error |
| Validation.ValidatePemasanganAcForm | app/src/main/java/com/epic/documentmanager/utils/ValidationUtils.kt:156-192 | the five required-field messages, the phone format error, then the unit error |
| Validation.ValidatePemasanganCctvForm | app/src/main/java/com/epic/documentmanager/utils/ValidationUtils.kt:194-229 | the four required-field messages, the phone format error, then the unit error |
| Validation.PembelianRumahValid | app/src/main/java/com/epic/documentmanager/utils/ValidationUtils.kt:87-130 | the purchase form passes iff all required fields are filled, NIK and phone are valid and a given non-blank NPWP is valid |
| Validation.PemasanganCctvUnitRule | app/src/main/java/com/epic/documentmanager/utils/ValidationUtils.kt:215-226 | with the other fields valid, a non-integer unit count gives only "harus berupa angka", a non-positive one only "harus lebih dari 0", a positive one nothing |
| Validation.CleanPhoneNumber | app/src/main/java/com/epic/documentmanager/utils/ValidationUtils.kt:232-240 | the result holds only digits and '+' |
| Validation.CleanPhoneNumberCases | app/src/main/java/com/epic/documentmanager/utils/ValidationUtils.kt:232-240 | a leading '0' becomes "+62", a leading "62" gains '+', anything else is only stripped |
| Validation.CleanPhoneNumberIdempotent | app/src/main/java/com/epic/documentmanager/utils/ValidationUtils.kt:232-240 | cleaning twice equals cleaning once |
| Validation.CleanValidPhoneNumber | app/src/main/java/com/epic/documentmanager/utils/ValidationUtils.kt:19-22 | a valid number cleans to "+62" and its subscriber part, and the cleaned number is still valid |
| Validation.NpwpLayoutDigits | app/src/main/java/com/epic/documentmanager/utils/ValidationUtils.kt:245 | removing the separators from the layout gives the fifteen digits back |
| Validation.NpwpLayoutPlaces | app/src/main/java/com/epic/documentmanager/utils/ValidationUtils.kt:245 | the layout is 20 characters with '.', '.', '.', '-', '.' at places 2, 6, 10, 12, 16 |
| Validation.FormatNpwpShape | app/src/main/java/com/epic/documentmanager/utils/ValidationUtils.kt:242-249 | a valid NPWP formats to `XX.XXX.XXX.X-XXX.XXX` with the same digits in order, and the result is valid |
| Validation.FormatNpwpOther | app/src/main/java/com/epic/documentmanager/utils/ValidationUtils.kt:242-249 | an invalid NPWP is returned unchanged |
| Validation.FormatNik | app/src/main/java/com/epic/documentmanager/utils/ValidationUtils.kt:251-253 | the result is all digits |
| Validation.FormatNikProperties | app/src/main/java/com/epic/documentmanager/utils/ValidationUtils.kt:25-27 | formatNIK is idempotent, its result is a valid NIK iff the input holds 16 digits, and all-digit input is unchanged |
| Validation.EscapesSafe | app/src/main/java/com/epic/documentmanager/utils/ValidationUtils.kt:258-262 | the five replacements escape exactly `< > " ' /` and their texts contain none of them |
| Validation.SanitizeInputTrimmed | app/src/main/java/com/epic/documentmanager/utils/ValidationUtils.kt:256-263 | the output has no blank first or last character |
| Validation.SanitizeInputEscaped | app/src/main/java/com/epic/documentmanager/utils/ValidationUtils.kt:256-263 | the output contains none of `< > " ' /` |
| Validation.SanitizeInputIdempotent | app/src/main/java/com/epic/documentmanager/utils/ValidationUtils.kt:256-263 | sanitising twice equals sanitising once |
| CodeGenerator.Prefix | app/src/main/java/com/epic/documentmanager/utils/CodeGenerator.kt:15-41 | each kind's prefix is two characters without '-' |
| CodeGenerator.GenerateRandomCode | app/src/main/java/com/epic/documentmanager/utils/CodeGenerator.kt:56-61 | exactly `length` characters (none for a length below 1), all from A-Z0-9 |
| CodeGenerator.ExtractDateFromCode | app/src/main/java/com/epic/documentmanager/utils/CodeGenerator.kt:85-96 | both parts or neither; a present year has four characters and a present month two |
| CodeGenerator.GetDocumentTypeFromCode | app/src/main/java/com/epic/documentmanager/utils/CodeGenerator.kt:109-121 | a type exactly when the part before the first '-' is PR, RR, AC or CC, and then a known document type |
| CodeGenerator.GeneratedRandomPart | app/src/main/java/com/epic/documentmanager/utils/CodeGenerator.kt:47-51 | the random part of a code is four digits denoting a number in [1000, 9998] |
| CodeGenerator.GeneratedCodeIsValid | app/src/main/java/com/epic/documentmanager/utils/CodeGenerator.kt:15-51 | with a six-digit month, every generated code of every kind passes isValidDocumentCode |
| CodeGenerator.ValidCodeParts | app/src/main/java/com/epic/documentmanager/utils/CodeGenerator.kt:101-104 | a valid code splits into prefix, six-digit month and number, so both parsers recover them |
| CodeGenerator.ExtractDateRoundTrip | app/src/main/java/com/epic/documentmanager/utils/CodeGenerator.kt:85-96 | extractDateFromCode returns the year and month a code was generated with |
| CodeGenerator.DocumentTypeRoundTrip | app/src/main/java/com/epic/documentmanager/utils/CodeGenerator.kt:109-121 | getDocumentTypeFromCode inverts the prefix each generateCodeFor function uses |
| CodeGenerator.UnknownPrefixHasNoType | app/src/main/java/com/epic/documentmanager/utils/CodeGenerator.kt:117 | any other prefix gives no type |
| CodeGenerator.PaddedSequenceLength | app/src/main/java/com/epic/documentmanager/utils/CodeGenerator.kt:69 | for 0..9999 the padded sequence has four characters, larger values keep all their digits |
| CodeGenerator.SequentialCodeNumber | app/src/main/java/com/epic/documentmanager/utils/CodeGenerator.kt:67-71 | the sequential code ends in "-" and digits denoting the sequence, four of them up to 9999 |
| CodeGenerator.ReportCodeParts | app/src/main/java/com/epic/documentmanager/utils/CodeGenerator.kt:77-80 | a report code splits into "REPORT", year followed by month, and the random number |
| AttachmentExporter.Index2Value | app/src/main/java/com/epic/documentmanager/utils/AttachmentExporter.kt:90 | the label is all digits and denotes n |
| AttachmentExporter.Index2Length | app/src/main/java/com/epic/documentmanager/utils/AttachmentExporter.kt:90 | numbers up to 99 get exactly two characters |
| AttachmentExporter.Index2Injective | app/src/main/java/com/epic/documentmanager/utils/AttachmentExporter.kt:90 | different numbers get different labels |
| AttachmentExporter.InnerExtension | app/src/main/java/com/epic/documentmanager/utils/AttachmentExporter.kt:94-95 | Some exactly when the last '.' is neither first nor last; then the non-empty dot-free text after it |
| AttachmentExporter.GuessExt | app/src/main/java/com/epic/documentmanager/utils/AttachmentExporter.kt:92-100 | the extension is never empty and holds no '.' |
| AttachmentExporter.GuessExtSources | app/src/main/java/com/epic/documentmanager/utils/AttachmentExporter.kt:92-100 | the name's extension wins; otherwise the URL's before '?', otherwise "bin" |
| AttachmentExporter.MimeOfLowerFacts | app/src/main/java/com/epic/documentmanager/utils/AttachmentExporter.kt:102-118 | exactly the unlisted extensions get "application/octet-stream"; only image extensions get an image type |
| AttachmentExporter.GuessMimeIgnoresCase | app/src/main/java/com/epic/documentmanager/utils/AttachmentExporter.kt:102-118 | the type does not depend on letter case and is the generic one iff the extension is unlisted |
| AttachmentExporter.ImageMimeIsImageExt | app/src/main/java/com/epic/documentmanager/utils/AttachmentExporter.kt:102-123 | every extension typed "image/…" is an image extension |
| AttachmentExporter.TiffIsUntypedImage | app/src/main/java/com/epic/documentmanager/utils/AttachmentExporter.kt:120-123 | tif and tiff are image extensions typed "application/octet-stream" |
| AttachmentExporter.DownloadPlan | app/src/main/java/com/epic/documentmanager/utils/AttachmentExporter.kt:39-51 | one write per attachment; write i is attachment i under "<base>-<index2(i+1)>.<ext>" |
| AttachmentExporter.FetchError | app/src/main/java/com/epic/documentmanager/utils/AttachmentExporter.kt:160-174 | no exception exactly for a 2xx answer; any other code throws "HTTP <code> pada <url>", and an unreachable host throws its own message |
| AttachmentExporter.OpenError | app/src/main/java/com/epic/documentmanager/utils/AttachmentExporter.kt:128-137 | opening an output throws "Gagal membuat file <name>" exactly when MediaStore refuses the insert |
| AttachmentExporter.DownloadFailureCases | app/src/main/java/com/epic/documentmanager/utils/AttachmentExporter.kt:41-49 | a download goes through exactly when its output opens and its fetch answers 2xx; a refused output throws "Gagal membuat file <name>" before any fetch |
| AttachmentExporter.DownloadOriginals | app/src/main/java/com/epic/documentmanager/utils/AttachmentExporter.kt:39-51 | the files written are the download plan up to the first attachment that throws, every one before it passes, and the error is that attachment's exception; no error exactly when every attachment passes |
| AttachmentExporter.OutputNameLabel | app/src/main/java/com/epic/documentmanager/utils/AttachmentExporter.kt:46 | the two-digit label stands right after "<base>-" |
| AttachmentExporter.OutputNameShape | app/src/main/java/com/epic/documentmanager/utils/AttachmentExporter.kt:46 | an output name starts with "<base>-" and ends with ".<ext>" |
| AttachmentExporter.OutputNamesDistinct | app/src/main/java/com/epic/documentmanager/utils/AttachmentExporter.kt:46 | two positions below 99 never share an output name |
| AttachmentExporter.DownloadNamesDistinct | app/src/main/java/com/epic/documentmanager/utils/AttachmentExporter.kt:44-50 | with at most 99 attachments every written file has its own name |
| AttachmentExporter.WebLoadUrl | app/src/main/java/com/epic/documentmanager/utils/AttachmentExporter.kt:214-224 | the listed text types load directly; every other type goes through the viewer URL |
| AttachmentExporter.ExportFailureCases | app/src/main/java/com/epic/documentmanager/utils/AttachmentExporter.kt:58-84 | an export with an open output and a 2xx fetch never throws; one that goes through opened its output unless skipped and got a 2xx fetch for a PDF or image |
| AttachmentExporter.ExportOne | app/src/main/java/com/epic/documentmanager/utils/AttachmentExporter.kt:58-84 | the loop body throws exactly the attachment's export failure, otherwise produces exactly its export step (one action, or none for an image that does not decode), and adds nothing when it throws |
| AttachmentExporter.ExportAsPdf | app/src/main/java/com/epic/documentmanager/utils/AttachmentExporter.kt:53-86 | the actions are the export plan up to the position the loop stopped at, every attachment before it passes, the error is the exception of the attachment there; no error exactly when every attachment passes |
| AttachmentExporter.StepPdfTarget | app/src/main/java/com/epic/documentmanager/utils/AttachmentExporter.kt:58-84 | every step writes a PDF named after the base, and a step is dropped exactly for an image that does not decode |
| AttachmentExporter.ExportPlanShape | app/src/main/java/com/epic/documentmanager/utils/AttachmentExporter.kt:53-86 | every output is a PDF named after the base; when no attachment is an undecodable image every attachment gives one output |
| AttachmentExporter.PdfOutputName | app/src/main/java/com/epic/documentmanager/utils/AttachmentExporter.kt:59 | the target starts with "<base>-" and ends with ".pdf" |
| AttachmentExporter.PageCount | app/src/main/java/com/epic/documentmanager/utils/AttachmentExporter.kt:274 | at least one page, the pages cover the content, and one page fewer would not |
| AttachmentExporter.SlicePages | app/src/main/java/com/epic/documentmanager/utils/AttachmentExporter.kt:277-290 | the page loop numbers pages from 1 and page i shows the slice at i·pageHeightPx |
| AttachmentExporter.ExactParts | app/src/main/java/com/epic/documentmanager/utils/AttachmentExporter.kt:305-308 | the measure spec keeps the low 24 bits of px and carries mode bits 01 |
| AttachmentExporter.ExactValue | app/src/main/java/com/epic/documentmanager/utils/AttachmentExporter.kt:305-308 | the measure spec is the low 24 bits plus 0x40000000 |
| FileMeta.ExtFromMime | app/src/main/java/com/epic/documentmanager/utils/FileMeta.kt:60-63 | a null or blank type has no extension; any extension returned is the table's for that type |
| FileMeta.EnsureExt | app/src/main/java/com/epic/documentmanager/utils/FileMeta.kt:66-70 | the result starts with the name; a name with '.' is kept; otherwise "." and the type's extension are appended when the type has one, and nothing when it has none |
| FileMeta.EnsureExtIdempotent | app/src/main/java/com/epic/documentmanager/utils/FileMeta.kt:66-70 | adding the extension a second time changes nothing |
| FileMeta.EnsureExtKeepsExtension | app/src/main/java/com/epic/documentmanager/utils/FileMeta.kt:67 | once the name has a '.', no other type changes it |
| FileMeta.BlankMimeAddsNothing | app/src/main/java/com/epic/documentmanager/utils/FileMeta.kt:61 | a null or blank type leaves every name as it is |
| FileMeta.LowerSuffix | app/src/main/java/com/epic/documentmanager/utils/FileMeta.kt:55 | the suffix never contains '.', and is empty for a name without '.' |
| FileMeta.GuessMimeFromName | app/src/main/java/com/epic/documentmanager/utils/FileMeta.kt:54-58 | a blank suffix gives no guess; any other suffix gives the table's type for it |
| FileMeta.BlankSuffixNoLookup | app/src/main/java/com/epic/documentmanager/utils/FileMeta.kt:56 | a blank suffix is never looked up, so every table gives the same absent guess |
| FileMeta.NoDotNoGuess | app/src/main/java/com/epic/documentmanager/utils/FileMeta.kt:55-56 | a name without '.' gives no guess |
| FileMeta.GuessIgnoresCase | app/src/main/java/com/epic/documentmanager/utils/FileMeta.kt:55 | two names whose suffixes agree up to case get the same guess |
| FileMeta.ResolvedMime | app/src/main/java/com/epic/documentmanager/utils/FileMeta.kt:22-30 | a non-blank resolver type wins; otherwise a non-blank guess from the display name, or from the uri text when there is no name; otherwise the resolver's answer unchanged |
| FileMeta.ResolvedName | app/src/main/java/com/epic/documentmanager/utils/FileMeta.kt:24-36 | a non-blank display name wins; otherwise "file" without a last path segment, or a '/'-free tail of that segment |
| FileMeta.AfterLastSlash | app/src/main/java/com/epic/documentmanager/utils/FileMeta.kt:35 | the result has no '/' and is a suffix of the text |
| FileMeta.FromUri | app/src/main/java/com/epic/documentmanager/utils/FileMeta.kt:18-42 | the name starts with the resolved name; the type is the resolved type, or "application/octet-stream" when none was found; a non-blank resolver type is kept exactly |
| FileMeta.FromUriNameStable | app/src/main/java/com/epic/documentmanager/utils/FileMeta.kt:39-41 | with a type found, the returned name already carries that type's extension |
| FileMeta.DottedDisplayNameKept | app/src/main/java/com/epic/documentmanager/utils/FileMeta.kt:24-39 | a display name containing '.' is returned exactly |
| Downloads.MimeFromName | app/src/main/java/com/epic/documentmanager/utils/Downloads.kt:18-22 | the table's type for the lowercase suffix, looked up even when the suffix is empty, else "application/octet-stream" |
| Downloads.NoDotTypedByEmpty | app/src/main/java/com/epic/documentmanager/utils/Downloads.kt:19-21 | a name without '.' is typed by whatever the table has for the empty extension |
| Downloads.SaveBytesTarget | app/src/main/java/com/epic/documentmanager/utils/Downloads.kt:45-46 | the type is the given one or "application/octet-stream"; the name starts with the raw name, is kept when it has a '.', and otherwise gets that type's extension |
| Downloads.EnqueueTarget | app/src/main/java/com/epic/documentmanager/utils/Downloads.kt:76-77 | the type is the given one, else the one guessed from the raw name; the name starts with the raw name and gets that type's extension when it has no '.' |
| Downloads.TargetsStable | app/src/main/java/com/epic/documentmanager/utils/Downloads.kt:45-77 | storing a stored name again under its own type gives the same name and type |
| Downloads.GivenTypeAgrees | app/src/main/java/com/epic/documentmanager/utils/Downloads.kt:45-77 | when a type is given, both entry points store the file under the same name and type |
| DrawerVisibility.NormalizeIdempotent | app/src/main/java/com/epic/documentmanager/utils/DrawerVisiblity.kt:18 | normalising a role that is already normalised changes nothing |
| DrawerVisibility.Visibility | app/src/main/java/com/epic/documentmanager/utils/DrawerVisiblity.kt:17-29 | the staff item is shown exactly for admins, the monthly-report item for everyone but staff; an admin sees both; a missing role hides staff management and shows the report |
| DrawerVisibility.DrawerMenu.constructor | app/src/main/java/com/epic/documentmanager/utils/DrawerVisiblity.kt:17 | the menu starts with the items it was given, present or absent |
| DrawerVisibility.DrawerMenu.Apply | app/src/main/java/com/epic/documentmanager/utils/DrawerVisiblity.kt:17-29 | an absent item stays absent; a present staff item becomes visible iff the role is admin, a present report item iff the role is not staff |
| FileUtils.GuessExtension | app/src/main/java/com/epic/documentmanager/repositories/FileUtils.kt:47-69 | never empty; a MIME type in the table decides; otherwise the lowercase text after the name's last '.', or "bin" without a name or without such text |
| FileUtils.KnownExtensionsNonEmpty | app/src/main/java/com/epic/documentmanager/repositories/FileUtils.kt:49-59 | every extension in the MIME table is non-empty |
| FileUtils.MimeDecides | app/src/main/java/com/epic/documentmanager/repositories/FileUtils.kt:49-59 | once the MIME type is known the file name plays no part |
| FileUtils.JpegAliases | app/src/main/java/com/epic/documentmanager/repositories/FileUtils.kt:51-52 | both "image/jpeg" and "image/jpg", in any case, give "jpg" |
| FileUtils.MimeIgnoresCase | app/src/main/java/com/epic/documentmanager/repositories/FileUtils.kt:49 | the MIME type is matched regardless of case |
| FileUtils.LeadingDotName | app/src/main/java/com/epic/documentmanager/repositories/FileUtils.kt:61-66 | a name ".e" without a known type gives e lowercased |
| FileUtils.NoExtensionIsBin | app/src/main/java/com/epic/documentmanager/repositories/FileUtils.kt:61-68 | a name with no '.' or ending in '.' and no known type gives "bin" |
| FirebaseUtils.NonNullPairs | app/src/main/java/com/epic/documentmanager/utils/FirebaseUtils.kt:68-71 | the kept pairs are pairs of the input, none with a null value, and no more than the input |
| FirebaseUtils.CreateMap | app/src/main/java/com/epic/documentmanager/utils/FirebaseUtils.kt:68-71 | the map is the non-null pairs put in order into an empty map |
| FirebaseUtils.NonNullStep | app/src/main/java/com/epic/documentmanager/utils/FirebaseUtils.kt:69-70 | each further pair is kept exactly when its value is not null |
| FirebaseUtils.CreateMapContents | app/src/main/java/com/epic/documentmanager/utils/FirebaseUtils.kt:68-71 | the map has distinct keys, each key maps to its last non-null value, and no key maps to null |
| FirebaseUtils.LastValueNotNull | app/src/main/java/com/epic/documentmanager/utils/FirebaseUtils.kt:69 | over null-free pairs the last value of a key is never null |
| FirebaseUtils.NullPairIgnored | app/src/main/java/com/epic/documentmanager/utils/FirebaseUtils.kt:69 | inserting a null-valued pair anywhere changes nothing |
| FirebaseUtils.NonNullConcat | app/src/main/java/com/epic/documentmanager/utils/FirebaseUtils.kt:69 | filtering distributes over concatenation |
| FirebaseUtils.GenerateFileName | app/src/main/java/com/epic/documentmanager/utils/FirebaseUtils.kt:73-80 | the name starts with "<type>_<timestamp>" and is followed by "." and the original extension when there is one, and by nothing otherwise |
| FirebaseUtils.NoExtensionName | app/src/main/java/com/epic/documentmanager/utils/FirebaseUtils.kt:74-79 | an original name with no '.' or ending in '.' gives just "<type>_<timestamp>" |
| FirebaseUtils.NoDotIsInvalid | app/src/main/java/com/epic/documentmanager/utils/FirebaseUtils.kt:82-92 | a name without '.' is neither an image nor a document file |
| FirebaseUtils.FileChecksIgnoreCase | app/src/main/java/com/epic/documentmanager/utils/FirebaseUtils.kt:82-92 | both file checks ignore the case of the name |
| FirebaseUtils.LowerSuffixOfLower | app/src/main/java/com/epic/documentmanager/utils/FirebaseUtils.kt:83 | the lowercased extension of a lowercased name is the lowercased extension |
| FirebaseUtils.GetDocumentCollection | app/src/main/java/com/epic/documentmanager/utils/FirebaseUtils.kt:42-48 | each of the four document types has its own collection; any other type goes to "documents" |
| FirebaseUtils.CollectionsDistinct | app/src/main/java/com/epic/documentmanager/utils/FirebaseUtils.kt:42-48 | the four collections differ from each other and from "documents" |
| FirebaseUtils.KnownCodesIgnoreMessage | app/src/main/java/com/epic/documentmanager/utils/FirebaseUtils.kt:150-169 | for a known auth or Firestore code the message is fixed, whatever the exception's own message |
| FirebaseUtils.UnknownCodesUseMessage | app/src/main/java/com/epic/documentmanager/utils/FirebaseUtils.kt:150-169 | for any other exception the exception's own message is shown when present, and a non-empty fallback otherwise |
| FirebaseUtils.ValidateDocumentData | app/src/main/java/com/epic/documentmanager/utils/FirebaseUtils.kt:172-177 | no errors iff both name and phone are filled; each error appears iff its field is blank; with both, the name error comes first |
| StorageRepository.DestDirFor | app/src/main/java/com/epic/documentmanager/repositories/StorageRepository.kt:16-22 | the four document types go to "documents/<type>", any other text to "documents/OTHERS" |
| StorageRepository.DestDirUnderDocuments | app/src/main/java/com/epic/documentmanager/repositories/StorageRepository.kt:16-22 | every destination folder lies under "documents/" |
| StorageRepository.Sanitize | app/src/main/java/com/epic/documentmanager/repositories/StorageRepository.kt:24-25 | same length; each character outside letters, digits, '.', '_' and '-' becomes '_', the rest are kept, so only allowed characters remain |
| StorageRepository.SanitizeIdempotent | app/src/main/java/com/epic/documentmanager/repositories/StorageRepository.kt:24-25 | sanitising twice is sanitising once, and a name of allowed characters is kept as it is |
| StorageRepository.GuessExtFromUri | app/src/main/java/com/epic/documentmanager/repositories/StorageRepository.kt:27-31 | never empty and without '.'; "bin" without a last path segment; otherwise the lowercased text after the segment's last '.' when that dot is not the last character |
| StorageRepository.NoDotGivesBin | app/src/main/java/com/epic/documentmanager/repositories/StorageRepository.kt:29-30 | a segment with no '.', or ending in '.', gives "bin" |
| StorageRepository.PathsOf | app/src/main/java/com/epic/documentmanager/repositories/StorageRepository.kt:45-50 | one storage path per file, in the files' order |
| StorageRepository.UploadOutcomeFailure | app/src/main/java/com/epic/documentmanager/repositories/StorageRepository.kt:41-59 | the upload fails exactly when some file's upload fails, and then it stops at the first such file with that file's error |
| StorageRepository.ProgressReports | app/src/main/java/com/epic/documentmanager/repositories/StorageRepository.kt:110-111 | after the k-th upload the report is (k, total) |
| StorageRepository.ProgressIncreases | app/src/main/java/com/epic/documentmanager/repositories/StorageRepository.kt:99-111 | the uploaded counts strictly increase and end at the number of files |
| StorageRepository.PutEach | app/src/main/java/com/epic/documentmanager/repositories/StorageRepository.kt:101-112 | the files are put in order until one fails; on success their URLs come back in order; one progress report follows each successful upload |
| StorageRepository.UploadMultipleFiles | app/src/main/java/com/epic/documentmanager/repositories/StorageRepository.kt:36-60 | the file at index i is stored at "<dir>/<sanitised name or file_{i+1}>_<time>.<ext>"; on success one URL per file in input order, on the first failure that failure |
| StorageRepository.UploadFiles | app/src/main/java/com/epic/documentmanager/repositories/StorageRepository.kt:88-114 | nothing for no files; otherwise file i is stored at "<dir>/<sanitised prefix>_<time>_<i+1>.<ext>", URLs in order, progress (1, n) .. (n, n) |
| Uploader.CollapseWhitespace | app/src/main/java/com/epic/documentmanager/utils/Uploader.kt:146 | empty iff the input is; every run of whitespace becomes one space, so no two spaces are adjacent, and every other character is kept |
| Uploader.CleanedChars | app/src/main/java/com/epic/documentmanager/utils/Uploader.kt:143-146 | after replacement and collapsing only letters, digits, ' ', '_' and '-' remain |
| Uploader.CleanNamePart | app/src/main/java/com/epic/documentmanager/utils/Uploader.kt:143-148 | the cleaned name part is never empty, holds only allowed characters, has no doubled space and no leading or trailing space |
| Uploader.FileIsClean | app/src/main/java/com/epic/documentmanager/utils/Uploader.kt:148 | the fallback "file" is itself a clean name |
| Uploader.TrimmedCleanedFacts | app/src/main/java/com/epic/documentmanager/utils/Uploader.kt:143-147 | the trimmed result keeps only allowed characters and single spaces, and a non-blank one has no space at either end |
| Uploader.TrimmedOrFile | app/src/main/java/com/epic/documentmanager/utils/Uploader.kt:138 | the trimmed name, or "file" when blank, is never empty |
| Uploader.FilenameExtension | app/src/main/java/com/epic/documentmanager/utils/Uploader.kt:139-141 | the extension is empty or starts at the last '.' and has no other '.'; a non-empty one is a proper suffix of the trimmed name, so the dot is not the first character |
| Uploader.SanitizeFilename | app/src/main/java/com/epic/documentmanager/utils/Uploader.kt:137-151 | the result ends with the extension, what precedes it is a clean name, and a blank input gives "file" |
| Uploader.BlankIsFile | app/src/main/java/com/epic/documentmanager/utils/Uploader.kt:138-150 | a blank name has no extension and becomes "file" |
| Uploader.CollapseOfClean | app/src/main/java/com/epic/documentmanager/utils/Uploader.kt:146 | collapsing whitespace changes nothing in an already clean text |
| Uploader.CleanNameFixed | app/src/main/java/com/epic/documentmanager/utils/Uploader.kt:143-148 | cleaning a clean name gives the same name |
| Uploader.NoDotNoExtension | app/src/main/java/com/epic/documentmanager/utils/Uploader.kt:139-150 | a non-blank name without '.' has no extension and sanitises to a clean name |
| Uploader.Occurrences | app/src/main/java/com/epic/documentmanager/utils/Uploader.kt:178-181 | how many times a name occurs: at most the length, and zero iff it does not occur |
| Uploader.UniquePairs | app/src/main/java/com/epic/documentmanager/utils/Uploader.kt:175-184 | same length and the same URIs in the same order |
| Uploader.MakeDisplayNameUnique | app/src/main/java/com/epic/documentmanager/utils/Uploader.kt:175-184 | the loop over the names with its count map gives exactly UniquePairs: same length, same URIs |
| Uploader.UniquePairsAt | app/src/main/java/com/epic/documentmanager/utils/Uploader.kt:179-183 | entry i keeps its URI and gets the numbered name of position i |
| Uploader.FirstOccurrenceUnchanged | app/src/main/java/com/epic/documentmanager/utils/Uploader.kt:180-182 | the first occurrence of a name keeps that name |
| Uploader.RepeatGetsSuffix | app/src/main/java/com/epic/documentmanager/utils/Uploader.kt:180-182 | the k-th occurrence of a name (k at least 2) becomes "name (k)" |
| Uploader.ParseCountSuffixOf | app/src/main/java/com/epic/documentmanager/utils/Uploader.kt:182 | a " (k)" suffix can be read back as the name and k |
| Uploader.NumberedHasCountSuffix | app/src/main/java/com/epic/documentmanager/utils/Uploader.kt:182 | every renamed entry ends in a " (k)" suffix |
| Uploader.UniqueNamesDistinct | app/src/main/java/com/epic/documentmanager/utils/Uploader.kt:172-184 | when no input name already ends in " (k)", all resulting names are distinct |
| Uploader.NumberedInputCollides | app/src/main/java/com/epic/documentmanager/utils/Uploader.kt:172-184 | for ["a (2)", "a", "a"] the first and last names are both "a (2)", so uniqueness needs that precondition |
| Uploader.RawPair | app/src/main/java/com/epic/documentmanager/utils/Uploader.kt:56-58 | each file's pair keeps its URI |
| Uploader.Uploaded | app/src/main/java/com/epic/documentmanager/utils/Uploader.kt:67-81 | at most one entry per file |
| Uploader.ProgressCalls | app/src/main/java/com/epic/documentmanager/utils/Uploader.kt:65-69 | one progress call per entry, (i+1, total, name) in order |
| Uploader.UploadedKeysAreNames | app/src/main/java/com/epic/documentmanager/utils/Uploader.kt:67-81 | every recorded entry is an entry's name with the URL its own upload returned |
| Uploader.UploadedDistinct | app/src/main/java/com/epic/documentmanager/utils/Uploader.kt:64-81 | distinct names give distinct result keys |
| Uploader.UploadAllResult | app/src/main/java/com/epic/documentmanager/utils/Uploader.kt:64-83 | with distinct names the result map holds exactly the successful uploads in input order, nothing overwritten |
| Uploader.UploadAll | app/src/main/java/com/epic/documentmanager/utils/Uploader.kt:42-84 | nothing and no progress for an empty list; otherwise the progress calls are those of the numbered names in order and the result holds the successful uploads under their names |
| Uploader.UploadEach | app/src/main/java/com/epic/documentmanager/utils/Uploader.kt:64-83 | the loop reports progress before each upload and records each successful upload |
| Uploader.UploadSingleWithRetry | app/src/main/java/com/epic/documentmanager/utils/Uploader.kt:88-118 | at most maxRetry+1 attempts; every attempt before the last failed; a URL is the last attempt's result; no URL means every allowed attempt was made and failed |
| UserMapper.ToInt32 | app/src/main/java/com/epic/documentmanager/data/mappers/UserMapper.kt:27 | the 32-bit wrap of a number: in the Int range and equal to it modulo 2^32 |
| UserMapper.ToInt32InRange | app/src/main/java/com/epic/documentmanager/data/mappers/UserMapper.kt:27 | a number already in the Int range is kept |
| UserMapper.IsActiveOf | app/src/main/java/com/epic/documentmanager/data/mappers/UserMapper.kt:24-29 | missing or of another type gives true; a boolean is itself; a string is true iff it equals "true" ignoring case; a number is true iff its Int value is not 0 |
| UserMapper.WrappedNumberInactive | app/src/main/java/com/epic/documentmanager/data/mappers/UserMapper.kt:27 | a multiple of 2^32 reads as inactive, though it is not 0 |
| UserMapper.From | app/src/main/java/com/epic/documentmanager/data/mappers/UserMapper.kt:18-34 | uid from "uid" else the document id; email from "email" else ""; name from "name", else "nama", else "Unknown"; role else "staff"; the active flag as above; fullName is name |
| UserMapper.FromIgnoresOtherFields | app/src/main/java/com/epic/documentmanager/data/mappers/UserMapper.kt:30-33 | no key other than the six it reads changes the user |
| UserMapper.FromSetName | app/src/main/java/com/epic/documentmanager/data/mappers/UserMapper.kt:22 | storing a string under "name" changes only the name read back |
| UserMapper.FromSetRole | app/src/main/java/com/epic/documentmanager/data/mappers/UserMapper.kt:23 | storing a string under "role" changes only the role read back |
| UserMapper.MissingDataDefaults | app/src/main/java/com/epic/documentmanager/data/mappers/UserMapper.kt:19 | without stored data the user is (id, "", "Unknown", "staff", active) |
| AuthViewModel.MapUser | app/src/main/java/com/epic/documentmanager/viewmodels/AuthViewModel.kt:43-55 | email from "email", else the fallback, else ""; name from "name", else "nama", else the email before '@' or "Unknown User"; role defaults to "staff"; the active flag is coerced as UserMapper does |
| AuthViewModel.MapUserAgreesWithFrom | app/src/main/java/com/epic/documentmanager/viewmodels/AuthViewModel.kt:47-53 | mapUser and UserMapper.from agree on role and active flag, and on email and name whenever the document holds them |
| AuthViewModel.MinimumProfileReadsBack | app/src/main/java/com/epic/documentmanager/viewmodels/AuthViewModel.kt:63-73 | the minimum profile reads back as an active staff member named after the email's part before '@' |
| AuthViewModel.RegisteredUserSwapsNameAndEmail | app/src/main/java/com/epic/documentmanager/viewmodels/AuthViewModel.kt:142 | whenever name and email differ, the reported user has them swapped |
| AuthViewModel.RegisteredUser | app/src/main/java/com/epic/documentmanager/viewmodels/AuthViewModel.kt:131-142 | the corrected register result carries the given email, the full name as name, the uid, the role and the active flag |
| AuthViewModel.AuthViewModel.constructor | app/src/main/java/com/epic/documentmanager/viewmodels/AuthViewModel.kt:20-40 | starts with no current user, no results and not loading |
| AuthViewModel.AuthViewModel.LoadProfile | app/src/main/java/com/epic/documentmanager/viewmodels/AuthViewModel.kt:57-61 | None exactly when no profile document exists; otherwise mapUser of the document |
| AuthViewModel.LoadError | app/src/main/java/com/epic/documentmanager/viewmodels/AuthViewModel.kt:57-73 | loading a profile throws exactly when the first read throws, or, for a missing profile, the write (when one is made) or the second read throws; the first read's error comes first, and an existing profile needs only the first read |
| AuthViewModel.WritesMinimumCases | app/src/main/java/com/epic/documentmanager/viewmodels/AuthViewModel.kt:63-73 | the minimum profile is written only for a missing profile, and after it only the second read can fail; a missing profile loaded without error, when a write is made, was written |
| AuthViewModel.AuthViewModel.EnsureMinimumProfile | app/src/main/java/com/epic/documentmanager/viewmodels/AuthViewModel.kt:63-73 | the write's error is returned; without one the profile store changes only at uid, to the minimum profile, and with one it is unchanged |
| AuthViewModel.AuthViewModel.Logout | app/src/main/java/com/epic/documentmanager/viewmodels/AuthViewModel.kt:79-82 | signs out and clears the current user, nothing else |
| AuthViewModel.AuthViewModel.RefreshCurrentUser | app/src/main/java/com/epic/documentmanager/viewmodels/AuthViewModel.kt:84-99 | nobody signed in clears the user and reads nothing; a Firestore error from the first read, the minimum-profile write or the second read is returned uncaught, leaving the signed-in account and current user as they were and the profile store as written so far; otherwise a missing profile is created first when there is an email, an active profile becomes current, a missing or inactive one logs out; an inactive user is never current |
| AuthViewModel.ProfilesAfterLogin | app/src/main/java/com/epic/documentmanager/viewmodels/AuthViewModel.kt:107-111 | a login keeps an existing profile and every other profile, and creates the minimal profile of the account's email (else the typed email) only when the uid has none |
| AuthViewModel.LoginUser | app/src/main/java/com/epic/documentmanager/viewmodels/AuthViewModel.kt:107-112 | the logged-in user carries the account's uid; an existing profile is read by mapUser, a just-created one reads back as an active staff member named after the email's local part |
| AuthViewModel.AuthViewModel.Login | app/src/main/java/com/epic/documentmanager/viewmodels/AuthViewModel.kt:102-123 | a failed or userless sign-in, a Firestore error from a profile read or the minimum-profile write, and an inactive profile ("Akun dinonaktifkan") all sign out, keep the current user and post that failure; the profile store holds the minimum profile only if its write went through; success makes the active profile current and posts it; loading ends false. With reads that see the write just made, a profile still missing after it cannot occur, so "Profil tidak ditemukan" is never posted |
| AuthViewModel.AuthViewModel.Register | app/src/main/java/com/epic/documentmanager/viewmodels/AuthViewModel.kt:126-154 | either failure is posted as such; on success the profile document is written and the corrected user posted; loading ends false |
| DocumentRepository.IfEmpty | app/src/main/java/com/epic/documentmanager/repositories/DocumentRepository.kt:31 | the default for an empty text, else the text |
| DocumentRepository.Upserted | app/src/main/java/com/epic/documentmanager/repositories/DocumentRepository.kt:23-42 | a create iff the id is empty: fresh id, creation time when missing, author and "active" status when empty; an update changes only updatedAt and updatedBy |
| DocumentRepository.UpdateKeepsIdentity | app/src/main/java/com/epic/documentmanager/repositories/DocumentRepository.kt:36-42 | an update keeps id, code, creation fields, status and attachments |
| DocumentRepository.CreateIsActive | app/src/main/java/com/epic/documentmanager/repositories/DocumentRepository.kt:34 | a created record without a status is "active" |
| DocumentRepository.ReplaceById | app/src/main/java/com/epic/documentmanager/repositories/DocumentRepository.kt:44 | every record with the written id is replaced, the others kept in place |
| DocumentRepository.ReplaceByIdContents | app/src/main/java/com/epic/documentmanager/repositories/DocumentRepository.kt:44 | the written record and every record with another id are in the result |
| DocumentRepository.Written | app/src/main/java/com/epic/documentmanager/repositories/DocumentRepository.kt:44 | `set` replaces the record with that id or adds it at the end; nothing else changes |
| DocumentRepository.SoftDeleted | app/src/main/java/com/epic/documentmanager/repositories/DocumentRepository.kt:210 | the record gets status "deleted" and the new update time, and nothing else changes |
| DocumentRepository.DeleteIn | app/src/main/java/com/epic/documentmanager/repositories/DocumentRepository.kt:206-215 | the collection keeps all its records, the one with the id soft-deleted |
| DocumentRepository.ActiveDocs | app/src/main/java/com/epic/documentmanager/repositories/DocumentRepository.kt:157-166 | exactly the records with status "active" |
| DocumentRepository.GetAllWithFallback | app/src/main/java/com/epic/documentmanager/repositories/DocumentRepository.kt:148-189 | the first non-empty answer of the four queries in order, a failing query counting as empty; the result comes from the collection |
| DocumentRepository.FallbackShowsDeleted | app/src/main/java/com/epic/documentmanager/repositories/DocumentRepository.kt:170-173 | with every record deleted, the unfiltered third query lists deleted records |
| DocumentRepository.Matching | app/src/main/java/com/epic/documentmanager/repositories/DocumentRepository.kt:263-268 | exactly the records whose name or code contains the query ignoring case |
| DocumentRepository.KindIndex | app/src/main/java/com/epic/documentmanager/repositories/DocumentRepository.kt:260-295 | the four kinds are visited in a fixed order |
| DocumentRepository.CountInMonth | app/src/main/java/com/epic/documentmanager/repositories/DocumentRepository.kt:319-323 | no more than the records, and zero iff no active record was created in [start, end] |
| DocumentRepository.DocumentRepository.constructor | app/src/main/java/com/epic/documentmanager/repositories/DocumentRepository.kt:14 | the four collections as given |
| DocumentRepository.DocumentRepository.SetCollection | app/src/main/java/com/epic/documentmanager/repositories/DocumentRepository.kt:44 | one collection is replaced, the others kept |
| DocumentRepository.DocumentRepository.Save | app/src/main/java/com/epic/documentmanager/repositories/DocumentRepository.kt:20-142 | a failed write changes nothing and returns the failure; otherwise the upserted record is written to its kind's collection and its id returned; other collections are untouched |
| DocumentRepository.DocumentRepository.Delete | app/src/main/java/com/epic/documentmanager/repositories/DocumentRepository.kt:206-248 | succeeds iff a record has the id and the write does not throw, and then soft-deletes it; a failure changes nothing; other collections are untouched |
| DocumentRepository.DocumentRepository.SearchDocuments | app/src/main/java/com/epic/documentmanager/repositories/DocumentRepository.kt:254-304 | each kind's list holds its matching active records; the kinds from the first failing query on stay empty |
| DocumentRepository.DocumentRepository.GenerateMonthlyReport | app/src/main/java/com/epic/documentmanager/repositories/DocumentRepository.kt:309-356 | the total is the sum of the four counts, counts after a failure stay 0, and the month is zero-padded to two characters |
| StaffRepository.StringLeTotal | app/src/main/java/com/epic/documentmanager/data/repository/StaffRepository.kt:19 | the name order used for sorting relates every two names |
| StaffRepository.StringLeAntisymmetric | app/src/main/java/com/epic/documentmanager/data/repository/StaffRepository.kt:19 | two names each ordered before the other are equal |
| StaffRepository.StringLeTransitive | app/src/main/java/com/epic/documentmanager/data/repository/StaffRepository.kt:19 | the name order is transitive |
| StaffRepository.StringLeTotalOrder | app/src/main/java/com/epic/documentmanager/data/repository/StaffRepository.kt:19 | the name order is a total order, so sorting by it is well defined |
| StaffRepository.ActiveUsers | app/src/main/java/com/epic/documentmanager/data/repository/StaffRepository.kt:16-18 | only active users are kept, and no more users than documents |
| StaffRepository.SoftDelete | app/src/main/java/com/epic/documentmanager/data/repository/StaffRepository.kt:30-38 | the collection keeps its size after the update |
| StaffRepository.Without | app/src/main/java/com/epic/documentmanager/data/repository/StaffRepository.kt:30-38 | exactly the documents other than uid remain |
| StaffRepository.DeactivatedInactive | app/src/main/java/com/epic/documentmanager/data/repository/StaffRepository.kt:31-36 | a document written with the soft-delete fields maps to an inactive user |
| StaffRepository.SoftDeleteRemovesUser | app/src/main/java/com/epic/documentmanager/data/repository/StaffRepository.kt:14-38 | after the soft delete the active users are those of the collection without that document |
| StaffRepository.StaffRepository.constructor | app/src/main/java/com/epic/documentmanager/data/repository/StaffRepository.kt:9-12 | the repository starts over the given documents |
| StaffRepository.StaffRepository.FetchUsers | app/src/main/java/com/epic/documentmanager/data/repository/StaffRepository.kt:14-20 | only active users, sorted by lowercased name, a permutation of the active users that keeps the query order among equal names |
| StaffRepository.StaffRepository.SearchUsers | app/src/main/java/com/epic/documentmanager/data/repository/StaffRepository.kt:22-27 | a blank trimmed query gives every active user; any other query gives, in the same order, exactly the active users whose lowercased name or email contains the lowercased query |
| StaffRepository.StaffRepository.DeleteUserProfile | app/src/main/java/com/epic/documentmanager/data/repository/StaffRepository.kt:30-38 | the update happens iff the document exists and the write does not throw; afterwards the listed users are those of the collection without it, sorted |
| CloudFunctions.Defaulted | functions/index.js:27 | a destructuring default applies only to an absent argument |
| CloudFunctions.AssertAdmin | functions/index.js:7-22 | no caller gives "unauthenticated"; a caller without an admin token has its profile read, and a failed read is passed on; the caller passes iff the token role is "admin" or the read succeeds and the stored role is "admin"; every other caller gets "permission-denied" |
| CloudFunctions.FirstRejected | functions/index.js:33-50 | the awaited calls before the returned position all succeed and the call there, if any, rejects |
| CloudFunctions.PerformedPrefix | functions/index.js:33-50 | the calls made are a non-empty prefix of a non-empty plan, all but the last succeeded, and the whole plan is made iff no call before the last rejects |
| CloudFunctions.RejectedWith | functions/index.js:33-50 | no error exactly when no awaited call rejects |
| CloudFunctions.MergeInto | functions/index.js:50 | a merge write touches only the written document |
| CloudFunctions.ProfileName | functions/index.js:44 | the given name when truthy, else the email's part before the first '@' |
| CloudFunctions.AdminCreateUser | functions/index.js:25-53 | the caller check comes first, then a truthy email and password are required; then the account, role claim and profile calls are made in order up to the first that rejects, whose error is thrown; the profile is merged and the new uid returned only when none rejects |
| CloudFunctions.CreateOutcomes | functions/index.js:32-52 | a successful call made all three calls and merged the profile; a rejection after the account was created leaves that account made and the profiles unchanged; a rejected account creation makes no further call |
| CloudFunctions.CreatedProfileReadsBack | functions/index.js:41-50 | the created profile reads back as an active user with the given email, the profile name and the given role |
| CloudFunctions.UpdatePatch | functions/index.js:72-76 | the patch holds the update time, and name and role exactly when they are truthy |
| CloudFunctions.UpdateOps | functions/index.js:61-70 | the account is updated iff name or password is truthy, with exactly the truthy ones; the role claim is set iff role is truthy |
| CloudFunctions.UpdatePlan | functions/index.js:61-78 | the plan ends with the merge of the patch into the profile |
| CloudFunctions.AdminUpdateUser | functions/index.js:56-80 | the caller check comes first, then a truthy uid is required; then the account calls and the profile merge are made in order up to the first that rejects, whose error is thrown; the patch is merged and ok returned only when none rejects |
| CloudFunctions.UpdateSucceeds | functions/index.js:56-80 | when no call rejects, all account calls are made, then the patch is merged, and ok is returned |
| CloudFunctions.UpdateKeepsOtherFields | functions/index.js:72-78 | the user read back after an update is the user read before with a truthy name and a truthy role put in; uid, email and active flag are kept |
| CreateStaff.RoleDefault | app/src/main/java/com/epic/documentmanager/ui/staff/CreateStaffActivity.kt:67 | a blank role field gives "staff"; any other role is kept, trimmed and non-empty |
| CreateStaff.StaffProfileReadsBack | app/src/main/java/com/epic/documentmanager/ui/staff/CreateStaffActivity.kt:84-92 | the written profile reads back as an active user with the lowercased email, the name and the role |
| CreateStaff.SubmitToasts | app/src/main/java/com/epic/documentmanager/ui/staff/CreateStaffActivity.kt:94-106 | no toast exactly when Firebase returns no user, otherwise one non-empty toast: "Staff dibuat." when the account and its profile are written |
| CreateStaff.CreateStaffActivity.constructor | app/src/main/java/com/epic/documentmanager/ui/staff/CreateStaffActivity.kt:64-76 | starts with no errors, no toasts, not busy, not finished |
| CreateStaff.CreateStaffActivity.CheckInput | app/src/main/java/com/epic/documentmanager/ui/staff/CreateStaffActivity.kt:71-76 | all four checks run, each sets or clears its own error, and the result is true iff all pass |
| CreateStaff.CreateStaffActivity.Submit | app/src/main/java/com/epic/documentmanager/ui/staff/CreateStaffActivity.kt:71-111 | the account is requested only when all checks pass; a created account with a written profile finishes the screen; a failure re-enables the form; a userless result leaves it busy; the toasts shown are appended to the log |
| CreateStaff.CreateStaffActivity.CreateStaff | app/src/main/java/com/epic/documentmanager/ui/staff/CreateStaffActivity.kt:64-109 | the inputs are read trimmed, the email lowercased, then submitted as above |
| DocumentAdapter.GetString | app/src/main/java/com/epic/documentmanager/adapters/DocumentAdapter.kt:53-58 | a field's text exactly when it is present and not blank |
| DocumentAdapter.GetCreatedAt | app/src/main/java/com/epic/documentmanager/adapters/DocumentAdapter.kt:59-64 | the stored number, else the default |
| DocumentAdapter.FirstNonBlank | app/src/main/java/com/epic/documentmanager/adapters/DocumentAdapter.kt:85-88 | the first non-blank of the fields in order, None iff all are blank or missing |
| DocumentAdapter.Name | app/src/main/java/com/epic/documentmanager/adapters/DocumentAdapter.kt:67 | the record's name, else "Unknown"; never blank |
| DocumentAdapter.Code | app/src/main/java/com/epic/documentmanager/adapters/DocumentAdapter.kt:68 | the record's code, else "-"; never blank |
| DocumentAdapter.Phone | app/src/main/java/com/epic/documentmanager/adapters/DocumentAdapter.kt:69 | the record's phone, else "-"; never blank |
| DocumentAdapter.OriginalNameOf | app/src/main/java/com/epic/documentmanager/adapters/DocumentAdapter.kt:89-91 | originalName, else fileName, else the shown code, so always present and non-blank |
| DocumentAdapter.DownloadFileName | app/src/main/java/com/epic/documentmanager/adapters/DocumentAdapter.kt:98-100 | the name is kept iff there is no extension or it already has a '.'; otherwise ".<ext>" is added |
| DocumentAdapter.PdfBase | app/src/main/java/com/epic/documentmanager/adapters/DocumentAdapter.kt:121-125 | the code when not blank, else the original name before its last '.', else "dokumen" |
| DocumentAdapter.PdfName | app/src/main/java/com/epic/documentmanager/adapters/DocumentAdapter.kt:126 | the result ends with ".pdf" in some case and starts with the base, which is kept when it already ends so |
| DocumentAdapter.PdfNameIdempotent | app/src/main/java/com/epic/documentmanager/adapters/DocumentAdapter.kt:126 | naming twice equals naming once |
| DocumentAdapter.CardOf | app/src/main/java/com/epic/documentmanager/adapters/DocumentAdapter.kt:49-139 | a card shows name, code, phone and creation time with their fallbacks; the delete button follows canDelete; an absent optional button stays absent |
| DocumentAdapter.DownloadButtonShape | app/src/main/java/com/epic/documentmanager/adapters/DocumentAdapter.kt:96-115 | the download button is visible iff a storage path exists, with the path, the derived file name and the stored or name-guessed MIME type |
| DocumentAdapter.PrintButtonShape | app/src/main/java/com/epic/documentmanager/adapters/DocumentAdapter.kt:117-139 | the print button is visible iff a storage path exists, exporting to the PDF name of the shown code |
| DocumentAdapter.RecordCardsHaveNoFileButtons | app/src/main/java/com/epic/documentmanager/adapters/DocumentAdapter.kt:85-88 | the four document records have no storage-path field, so their cards never show a download or print button |
| DocumentAdapter.Adapter.constructor | app/src/main/java/com/epic/documentmanager/adapters/DocumentAdapter.kt:16-21 | the adapter holds the given documents and delete permission |
| DocumentAdapter.Adapter.UpdateDocuments | app/src/main/java/com/epic/documentmanager/adapters/DocumentAdapter.kt:144-147 | the list is replaced and the item count is its size |
| DocumentAdapter.Adapter.SetCanDelete | app/src/main/java/com/epic/documentmanager/adapters/DocumentAdapter.kt:149-152 | the flag is set and every card's delete button follows it |
| DocumentAdapter.Adapter.GetDocument | app/src/main/java/com/epic/documentmanager/adapters/DocumentAdapter.kt:154 | the document at the position |
| DocumentAdapter.Adapter.OnBindViewHolder | app/src/main/java/com/epic/documentmanager/adapters/DocumentAdapter.kt:49-140 | the bound card is the card of the document at the position |
| StaffForm.AuthChange | app/src/main/java/com/epic/documentmanager/ui/staff/StaffFormFragment.kt:119-131 | without an email or password change nothing is called; otherwise a sign-in with the original email and current password, only the needed updates, and always a sign-out last; a failed sign-in, a missing user or a failed update ends it with that error; with no error every needed update was made |
| StaffForm.AuthChangeSignsOut | app/src/main/java/com/epic/documentmanager/ui/staff/StaffFormFragment.kt:128-130 | every sign-in on the secondary app is followed by a sign-out, whatever fails in between |
| StaffForm.Patch | app/src/main/java/com/epic/documentmanager/ui/staff/StaffFormFragment.kt:112-117 | the patch holds exactly name, email, role and the update time |
| StaffForm.PatchKeepsOtherFields | app/src/main/java/com/epic/documentmanager/ui/staff/StaffFormFragment.kt:136-137 | merging the patch changes the user's email, name and role to the edited ones and nothing else, the active flag included |
| StaffForm.StaffFormFragment.constructor | app/src/main/java/com/epic/documentmanager/ui/staff/StaffFormFragment.kt:44-76 | the form starts with its target uid, no original email, no errors, not loading and the button enabled |
| StaffForm.StaffFormFragment.LoadUser | app/src/main/java/com/epic/documentmanager/ui/staff/StaffFormFragment.kt:149-169 | on success the fields show the trimmed name (from "name", else "nama"), the lowercased email and the role or "staff", and the original email becomes that email; on failure nothing is shown; loading ends either way |
| StaffForm.StaffFormFragment.CheckFields | app/src/main/java/com/epic/documentmanager/ui/staff/StaffFormFragment.kt:94-107 | passes iff name and email are filled, a current password is given whenever the email or password changes, and a new password has at least 6 characters; each field error is set exactly as its check fails |
| StaffForm.StaffFormFragment.Commit | app/src/main/java/com/epic/documentmanager/ui/staff/StaffFormFragment.kt:133-146 | the account calls are logged; the profile is patched and the screen closes iff the account change and the write both succeed; otherwise the first error is the message and the button comes back |
| StaffForm.StaffFormFragment.Save | app/src/main/java/com/epic/documentmanager/ui/staff/StaffFormFragment.kt:82-147 | a blank uid is refused first, then a failing check; an accepted edit logs its account calls, and saves the patch iff nothing fails; nothing changes on failure |
| StaffForm.StaffFormFragment.OnSave | app/src/main/java/com/epic/documentmanager/ui/staff/StaffFormFragment.kt:82-147 | the fields are read trimmed, the email lowercased and a blank role read as "staff", then saved as above |
| StaffForm.UnchangedEmailNeedsNoAuth | app/src/main/java/com/epic/documentmanager/ui/staff/StaffFormFragment.kt:85-99 | a loaded email typed back unchanged, with no new password, needs no account change |
| DocumentDetail.V | app/src/main/java/com/epic/documentmanager/activities/DocumentDetailActivity.kt:200 | a missing or blank text shows "-", any other the trimmed text; never blank |
| DocumentDetail.UnitText | app/src/main/java/com/epic/documentmanager/activities/DocumentDetailActivity.kt:422 | a unit count ≤ 0 shows "-", a positive one its decimal form |
| DocumentDetail.UnitTextNonBlank | app/src/main/java/com/epic/documentmanager/activities/DocumentDetailActivity.kt:429 | the unit text is never blank |
| DocumentDetail.Pair | app/src/main/java/com/epic/documentmanager/activities/DocumentDetailActivity.kt:391-433 | row i pairs label i with value i |
| DocumentDetail.Values | app/src/main/java/com/epic/documentmanager/activities/DocumentDetailActivity.kt:391-433 | one non-blank value per label of the document's kind |
| DocumentDetail.DetailRowsShape | app/src/main/java/com/epic/documentmanager/activities/DocumentDetailActivity.kt:391-433 | 15, 4, 5 and 4 rows for the four kinds and none without a document, labels in their fixed order, no blank value |
| DocumentDetail.UniqueCode | app/src/main/java/com/epic/documentmanager/activities/DocumentDetailActivity.kt:685-692 | "DOC" without a document or with a blank code, else the code |
| DocumentDetail.AttachmentsField | app/src/main/java/com/epic/documentmanager/activities/DocumentDetailActivity.kt:698-700 | a document's attachments field is a map with its (name, url) entries |
| DocumentDetail.FromEntries | app/src/main/java/com/epic/documentmanager/activities/DocumentDetailActivity.kt:701-705 | map entries with a blank or null url are dropped |
| DocumentDetail.FromItems | app/src/main/java/com/epic/documentmanager/activities/DocumentDetailActivity.kt:706 | list elements become nameless attachments |
| DocumentDetail.FromEntriesMembers | app/src/main/java/com/epic/documentmanager/activities/DocumentDetailActivity.kt:701-705 | an attachment is collected iff its (name, url) entry is there and the url is not blank |
| DocumentDetail.DocumentAttachments | app/src/main/java/com/epic/documentmanager/activities/DocumentDetailActivity.kt:695-712 | a document's collected attachments are exactly its named entries with a non-blank url |
| DocumentDetail.AttachmentLabel | app/src/main/java/com/epic/documentmanager/activities/DocumentDetailActivity.kt:473 | the name, else the URL after its last '/', else "lampiran_<i+1>" |
| DocumentDetail.ShortUrl | app/src/main/java/com/epic/documentmanager/activities/DocumentDetailActivity.kt:511-512 | a URL longer than 110 characters is cut to its first 110 plus "…"; others are unchanged |
| DocumentDetail.WrappedRejoins | app/src/main/java/com/epic/documentmanager/activities/DocumentDetailActivity.kt:610-636 | with single spaces, the drawn non-empty lines joined by ' ' give the text back, and an empty line is drawn only first, when the first word alone is too wide |
| DocumentDetail.WrappedShape | app/src/main/java/com/epic/documentmanager/activities/DocumentDetailActivity.kt:621-630 | every drawn line fits the width, is a single word, or is empty |
| DocumentDetail.LinesAtIndex | app/src/main/java/com/epic/documentmanager/activities/DocumentDetailActivity.kt:626-633 | line k is drawn k line steps below the start |
| DocumentDetail.ValueText | app/src/main/java/com/epic/documentmanager/activities/DocumentDetailActivity.kt:599 | a blank value is drawn as "-", so the value text is never blank |
| DocumentDetail.ColumnStaysInColumn | app/src/main/java/com/epic/documentmanager/activities/DocumentDetailActivity.kt:592-603 | every text of a column is drawn at its x and not above its start |
| DocumentDetail.ColumnsSplit | app/src/main/java/com/epic/documentmanager/activities/DocumentDetailActivity.kt:588-590 | the left (first (n+1)/2) and right rows concatenate to the input and differ in size by at most one |
| DocumentDetail.PdfCanvas.constructor | app/src/main/java/com/epic/documentmanager/activities/DocumentDetailActivity.kt:391 | a fresh page has nothing drawn |
| DocumentDetail.PdfCanvas.DrawMultiline | app/src/main/java/com/epic/documentmanager/activities/DocumentDetailActivity.kt:610-636 | the loop draws the greedy wrap's lines one line step apart and returns startY plus lines × 12 |
| DocumentDetail.PdfCanvas.DrawEntry | app/src/main/java/com/epic/documentmanager/activities/DocumentDetailActivity.kt:594-601 | one entry draws its label and its value and advances by 12 + 24 |
| DocumentDetail.PdfCanvas.DrawCol | app/src/main/java/com/epic/documentmanager/activities/DocumentDetailActivity.kt:592-603 | the loop draws the entries one under another and returns the start plus entries × 36 |
| DocumentDetail.PdfCanvas.DrawKeyValueColumn | app/src/main/java/com/epic/documentmanager/activities/DocumentDetailActivity.kt:572-608 | the left half at the margin, the rest in the right column, both from startY; the returned y is the left column's end, which is never above the right's |
| DocumentImageAdapter.SourceOf | app/src/main/java/com/epic/documentmanager/adapters/DocumentImageAdapter.kt:58-74 | a uri is loaded first, else a non-empty url, else the placeholder |
| DocumentImageAdapter.RemovedAt | app/src/main/java/com/epic/documentmanager/adapters/DocumentImageAdapter.kt:88-89 | the element at p is removed and the others keep their order |
| DocumentImageAdapter.RemovedAtMultiset | app/src/main/java/com/epic/documentmanager/adapters/DocumentImageAdapter.kt:88-89 | removal takes out exactly one element, the one at p |
| DocumentImageAdapter.ImageAdapter.constructor | app/src/main/java/com/epic/documentmanager/adapters/DocumentImageAdapter.kt:14-19 | the adapter holds the given images |
| DocumentImageAdapter.ImageAdapter.UpdateImages | app/src/main/java/com/epic/documentmanager/adapters/DocumentImageAdapter.kt:79-84 | the list is replaced wholesale and the item count is its size |
| DocumentImageAdapter.ImageAdapter.RemoveImage | app/src/main/java/com/epic/documentmanager/adapters/DocumentImageAdapter.kt:86-94 | a position inside the list removes exactly that element; a position past the end changes nothing |
| DocumentImageAdapter.ImageAdapter.AddImage | app/src/main/java/com/epic/documentmanager/adapters/DocumentImageAdapter.kt:96-101 | the image is appended and the count grows by one |
| DocumentImageAdapter.ImageAdapter.GetImage | app/src/main/java/com/epic/documentmanager/adapters/DocumentImageAdapter.kt:103-105 | the image at p when p is inside the list, else None |
| DocumentList.TaggedSnoc | app/src/main/java/com/epic/documentmanager/activities/DocumentListActivity.kt:121-123 | one forEach step appends the row of the next document, tagged with the list's type |
| DocumentList.NewestRowsFirst | app/src/main/java/com/epic/documentmanager/activities/DocumentListActivity.kt:133 | a permutation of the rows, sorted newest first, that keeps the order of rows created at the same time |
| DocumentList.Filtered | app/src/main/java/com/epic/documentmanager/activities/DocumentListActivity.kt:137-138 | ALL shows every row; any other filter shows exactly the rows of that type |
| DocumentList.FilteredKeepsOrder | app/src/main/java/com/epic/documentmanager/activities/DocumentListActivity.kt:138 | the filtered rows are a subsequence of all rows, all of the chosen type |
| DocumentList.FilterTagged | app/src/main/java/com/epic/documentmanager/activities/DocumentListActivity.kt:138 | the rows of one list pass a filter entirely when it names their type and not at all otherwise |
| DocumentList.TypeNameInjective | app/src/main/java/com/epic/documentmanager/activities/DocumentListActivity.kt:121-132 | different lists are tagged with different types |
| DocumentList.FilterAllRows | app/src/main/java/com/epic/documentmanager/activities/DocumentListActivity.kt:119-139 | before sorting, a type filter shows exactly that list's rows, one per document, in list order |
| DocumentList.FilterSortedRows | app/src/main/java/com/epic/documentmanager/activities/DocumentListActivity.kt:119-139 | after sorting, a type filter shows that list's documents, each as often as the list holds it, and nothing else |
| DocumentList.FilterOfLabel | app/src/main/java/com/epic/documentmanager/activities/DocumentListActivity.kt:100-116 | the five dropdown labels map to their filters and any other label to ALL |
| DocumentList.AppendTagged | app/src/main/java/com/epic/documentmanager/activities/DocumentListActivity.kt:121-123 | the forEach adds one tagged row per document at the end |
| DocumentList.AppendLoaded | app/src/main/java/com/epic/documentmanager/activities/DocumentListActivity.kt:121 | a list not yet loaded adds nothing |
| DocumentList.RowAdapter.constructor | app/src/main/java/com/epic/documentmanager/activities/DocumentListActivity.kt:164 | the adapter starts empty |
| DocumentList.RowAdapter.Submit | app/src/main/java/com/epic/documentmanager/activities/DocumentListActivity.kt:190-200 | the items become exactly the new list |
| DocumentList.DocumentListScreen.constructor | app/src/main/java/com/epic/documentmanager/activities/DocumentListActivity.kt:100-116 | no rows, the ALL filter, an empty adapter |
| DocumentList.DocumentListScreen.SelectLabel | app/src/main/java/com/epic/documentmanager/activities/DocumentListActivity.kt:113-116 | a dropdown pick only changes the filter |
| DocumentList.DocumentListScreen.ApplyFilterAndShow | app/src/main/java/com/epic/documentmanager/activities/DocumentListActivity.kt:137-141 | the adapter shows the filtered rows and the empty view is visible iff there are none |
| DocumentList.DocumentListScreen.RebuildRows | app/src/main/java/com/epic/documentmanager/activities/DocumentListActivity.kt:119-135 | all rows are the loaded lists' rows sorted newest first, then shown through the current filter |
| SearchDocument.ResultRowsShape | app/src/main/java/com/epic/documentmanager/activities/SearchDocumentActivity.kt:68-82 | an answer gives one row per document, sorted newest first, and a type filter keeps exactly the rows of that type's documents |
| SearchDocument.SwitchingTypesShowsNothing | app/src/main/java/com/epic/documentmanager/activities/SearchDocumentActivity.kt:104-108 | since picking a type narrows the rows already on screen, narrowing to one type and then to another shows nothing |
| SearchDocument.FilterAgain | app/src/main/java/com/epic/documentmanager/activities/SearchDocumentActivity.kt:104-121 | narrowing twice to the same type changes nothing, and picking "All" after a type keeps only that type's rows |
| SearchDocument.SearchScreen.constructor | app/src/main/java/com/epic/documentmanager/activities/SearchDocumentActivity.kt:39-40 | the screen starts with the "All" filter, an empty list, no toasts and no searches |
| SearchDocument.SearchScreen.PerformSearch | app/src/main/java/com/epic/documentmanager/activities/SearchDocumentActivity.kt:111-118 | an empty trimmed query only shows "Masukkan nama atau kode unik"; any other trimmed query is searched for |
| SearchDocument.SearchScreen.ApplyFilterAndShow | app/src/main/java/com/epic/documentmanager/activities/SearchDocumentActivity.kt:120-125 | the list shows the rows of the current filter; the empty view shows, and "Tidak ada hasil" is toasted, exactly when there are none |
| SearchDocument.SearchScreen.OnSearchResult | app/src/main/java/com/epic/documentmanager/activities/SearchDocumentActivity.kt:68-85 | the answer's rows, newest first, are shown through the current filter |
| SearchDocument.SearchScreen.SelectLabel | app/src/main/java/com/epic/documentmanager/activities/SearchDocumentActivity.kt:104-108 | the filter becomes the picked label's type, unknown labels giving "All", and the rows on screen are narrowed to it |
| MonthlyReport.NumEntry | app/src/main/java/com/epic/documentmanager/activities/MonthlyReportActivity.kt:240-242 | a value found is a numeric entry under the key; nothing is found only when no entry under the key before the first numeric one is numeric |
| MonthlyReport.ExtractMillisPriority | app/src/main/java/com/epic/documentmanager/activities/MonthlyReportActivity.kt:236-245 | a Timestamp createdAt is used first, then a numeric createdAt, then a numeric createdAtMillis, then _seconds of a map createdAt times 1000, else no time |
| MonthlyReport.StoredTimestampMillis | app/src/main/java/com/epic/documentmanager/activities/MonthlyReportActivity.kt:237 | a stored Timestamp reads back as a time within its own second |
| MonthlyReport.FirstText | app/src/main/java/com/epic/documentmanager/activities/MonthlyReportActivity.kt:249-251 | the text of the first present field among the keys, or "-" when none is present |
| MonthlyReport.MapRow | app/src/main/java/com/epic/documentmanager/activities/MonthlyReportActivity.kt:248-253 | the name, address and phone columns each come from their own three fields, in order |
| MonthlyReport.MapRowPriority | app/src/main/java/com/epic/documentmanager/activities/MonthlyReportActivity.kt:249-251 | each column takes its first present field and ignores later ones; with none present it reads "-" |
| MonthlyReport.Answered | app/src/main/java/com/epic/documentmanager/activities/MonthlyReportActivity.kt:191 | a failed query gives no rows; an answered one gives one row per document, a document without data read as an empty map |
| MonthlyReport.KeptRows | app/src/main/java/com/epic/documentmanager/activities/MonthlyReportActivity.kt:208-216 | a row is kept iff it comes from a document with data whose status is missing or active and whose creation time lies in the period |
| MonthlyReport.FetchedStopsAtFirstAnswer | app/src/main/java/com/epic/documentmanager/activities/MonthlyReportActivity.kt:185-231 | a later query matters only when every earlier one gave no rows |
| MonthlyReport.FetchedDistinct | app/src/main/java/com/epic/documentmanager/activities/MonthlyReportActivity.kt:191-233 | the result never holds two rows with the same key, and is drawn in order from the first query that gave rows |
| MonthlyReport.FallbackRowsInPeriod | app/src/main/java/com/epic/documentmanager/activities/MonthlyReportActivity.kt:205-231 | when both indexed queries give nothing, every row comes from a document in the period, and a server holding such a document yields a row |
| MonthlyReport.SubsequenceMembers | app/src/main/java/com/epic/documentmanager/activities/MonthlyReportActivity.kt:233 | every row of a subsequence is a row of the whole |
| MonthlyReport.KeyMergesDistinctRows | app/src/main/java/com/epic/documentmanager/activities/MonthlyReportActivity.kt:233 | the deduplication key joins the columns with "\|", so two different rows can share a key and one of them is dropped |
| MonthlyReport.AppendAnswered | app/src/main/java/com/epic/documentmanager/activities/MonthlyReportActivity.kt:191 | adds one row per answered document after the rows so far |
| MonthlyReport.AppendKept | app/src/main/java/com/epic/documentmanager/activities/MonthlyReportActivity.kt:208-216 | adds the rows of the documents that pass the hand-made filter after the rows so far |
| MonthlyReport.FetchCollection | app/src/main/java/com/epic/documentmanager/activities/MonthlyReportActivity.kt:182-234 | the result is the first non-empty of the Timestamp query, the millisecond query and the filtered cache read, else the filtered server read, whose failure alone is passed on; deduplicated keeping first occurrences |
| MonthlyReport.MonthlyReportActivity.constructor | app/src/main/java/com/epic/documentmanager/activities/MonthlyReportActivity.kt:49-63 | the screen starts with four empty sections and the picker texts |
| MonthlyReport.MonthlyReportActivity.TotalDocuments | app/src/main/java/com/epic/documentmanager/activities/MonthlyReportActivity.kt:260-261 | the total is the number of rows of the four sections together |
| MonthlyReport.MonthlyReportActivity.Reload | app/src/main/java/com/epic/documentmanager/activities/MonthlyReportActivity.kt:137-178 | the period is stored and each section holds its collection's rows exactly when its own fetch and every earlier one succeeded; the picker texts are kept |
| MonthlyReport.MonthlyReportActivity.Store | app/src/main/java/com/epic/documentmanager/activities/MonthlyReportActivity.kt:156-176 | the sections are cleared, then filled in order until the first fetch that failed |
| MonthlyReport.MonthlyReportActivity.OnClickDownload | app/src/main/java/com/epic/documentmanager/activities/MonthlyReportActivity.kt:289-315 | refused with "Tidak ada data laporan untuk periode ini" exactly when all four sections are empty; otherwise a request for "Laporan_Bulanan_<stamp>.pdf" titled "Laporan Bulanan" with the period subtitle and the four sections in order |
| YearlyReport.ClampYear | app/src/main/java/com/epic/documentmanager/activities/YearlyReportActivity.kt:90 | the year is moved into 2005..2027 and kept when already inside |
| YearlyReport.YearlyReportActivity.constructor | app/src/main/java/com/epic/documentmanager/activities/YearlyReportActivity.kt:88-90 | the selected year is the current year clamped into the picker's range; all sections start empty |
| YearlyReport.YearlyReportActivity.PickYear | app/src/main/java/com/epic/documentmanager/activities/YearlyReportActivity.kt:91-94 | picking entry pos selects year 2005 + pos and leaves the sections and the period alone |
| YearlyReport.YearlyReportActivity.Reload | app/src/main/java/com/epic/documentmanager/activities/YearlyReportActivity.kt:102-141 | the period is stored and the sections are filled as in the monthly report, the selected year unchanged |
| YearlyReport.YearlyReportActivity.Store | app/src/main/java/com/epic/documentmanager/activities/YearlyReportActivity.kt:118-130 | the sections are cleared, then filled in order until the first fetch that failed |
| YearlyReport.YearlyReportActivity.TotalDocuments | app/src/main/java/com/epic/documentmanager/activities/YearlyReportActivity.kt:220-227 | the total is the number of rows of the four sections together |
| YearlyReport.YearlyReportActivity.OnClickDownload | app/src/main/java/com/epic/documentmanager/activities/YearlyReportActivity.kt:252-277 | refused with "Tidak ada data untuk tahun ini" exactly when all four sections are empty; otherwise a request for "Laporan_Tahunan_<year>_<stamp>.pdf" titled "Laporan Tahunan" with subtitle "Periode: Tahun <year>" and the four sections in order |
| ReportPdfWriter.ColumnsFillContent | app/src/main/java/com/epic/documentmanager/utils/ReportPdfWriter.kt:29-34 | the three column widths (180, 254 and 97) are positive and add up to the content width |
| ReportPdfWriter.ContentAppend | app/src/main/java/com/epic/documentmanager/utils/ReportPdfWriter.kt:62-141 | the content of two runs of drawing is the first's followed by the second's |
| ReportPdfWriter.HeadingHasNoContent | app/src/main/java/com/epic/documentmanager/utils/ReportPdfWriter.kt:156-175 | the repeated title block and column header add nothing to the report's content |
| ReportPdfWriter.NoContent | app/src/main/java/com/epic/documentmanager/utils/ReportPdfWriter.kt:156-175 | ops that each contribute nothing contribute nothing together |
| ReportPdfWriter.CellRowsAppend | app/src/main/java/com/epic/documentmanager/utils/ReportPdfWriter.kt:82-116 | items that are not cells before a run do not change the rows read from it |
| ReportPdfWriter.CellRowsOfRows | app/src/main/java/com/epic/documentmanager/utils/ReportPdfWriter.kt:88-103 | the cells drawn for a list of rows read back as exactly those rows, in order |
| ReportPdfWriter.RowItemsFront | app/src/main/java/com/epic/documentmanager/utils/ReportPdfWriter.kt:99-101 | the first row contributes its name, address and phone cells, in that order, ahead of the rest |
| ReportPdfWriter.SectionCells | app/src/main/java/com/epic/documentmanager/utils/ReportPdfWriter.kt:72-117 | a section's cells read back as its rows |
| ReportPdfWriter.ReportRowsInOrder | app/src/main/java/com/epic/documentmanager/utils/ReportPdfWriter.kt:120-123 | the rows of the whole report read back as the house purchases, renovations, AC and CCTV rows, in that order |
| ReportPdfWriter.SectionsInOrder | app/src/main/java/com/epic/documentmanager/utils/ReportPdfWriter.kt:120-138 | four sections followed by non-cell items read back as the four row lists in order |
| ReportPdfWriter.ReportContentSections | app/src/main/java/com/epic/documentmanager/utils/ReportPdfWriter.kt:120-138 | the report's content is the four named sections then the grand total of all four counts |
| ReportPdfWriter.Regroup | app/src/main/java/com/epic/documentmanager/utils/ReportPdfWriter.kt:120-123 | the sections' content may be grouped either way |
| ReportPdfWriter.ReportPdfWriter.constructor | app/src/main/java/com/epic/documentmanager/utils/ReportPdfWriter.kt:12-20 | the writer holds its title, subtitle and four row lists, with the page counter at 0 and no pages |
| ReportPdfWriter.ReportPdfWriter.NewPage | app/src/main/java/com/epic/documentmanager/utils/ReportPdfWriter.kt:145-149 | the counter goes up by one and the new page gets the title block and column header, with y at the first content line |
| ReportPdfWriter.ReportPdfWriter.DrawTitle | app/src/main/java/com/epic/documentmanager/utils/ReportPdfWriter.kt:156-164 | draws the title, the subtitle and a rule at their fixed offsets and returns the y under them |
| ReportPdfWriter.ReportPdfWriter.DrawColumnHeader | app/src/main/java/com/epic/documentmanager/utils/ReportPdfWriter.kt:166-175 | draws the three column names at their column positions and a rule, and returns the y under them |
| ReportPdfWriter.ReportPdfWriter.FinishPage | app/src/main/java/com/epic/documentmanager/utils/ReportPdfWriter.kt:76 | the open page is appended under the current number and the earlier pages are kept |
| ReportPdfWriter.ReportPdfWriter.MakeRoom | app/src/main/java/com/epic/documentmanager/utils/ReportPdfWriter.kt:75-81 | afterwards the item fits above the bottom margin; a break happens exactly when needBreak holds, and adds only a new page's heading |
| ReportPdfWriter.ReportPdfWriter.MakeRoomKeeping | app/src/main/java/com/epic/documentmanager/utils/ReportPdfWriter.kt:75-81 | the same break check keeps the report's content unchanged and leaves room for the item |
| ReportPdfWriter.ReportPdfWriter.Put | app/src/main/java/com/epic/documentmanager/utils/ReportPdfWriter.kt:82 | a draw call above the bottom margin is appended to the open page and its text to the content |
| ReportPdfWriter.ReportPdfWriter.DrawSection | app/src/main/java/com/epic/documentmanager/utils/ReportPdfWriter.kt:72-117 | draws the section's name, its rows and "Total Dokumen: n", each after its break check |
| ReportPdfWriter.ReportPdfWriter.DrawSectionName | app/src/main/java/com/epic/documentmanager/utils/ReportPdfWriter.kt:74-85 | after its break check, draws the section's name |
| ReportPdfWriter.ReportPdfWriter.DrawRows | app/src/main/java/com/epic/documentmanager/utils/ReportPdfWriter.kt:88-103 | draws every row in order, each after its break check |
| ReportPdfWriter.ReportPdfWriter.DrawRow | app/src/main/java/com/epic/documentmanager/utils/ReportPdfWriter.kt:89-102 | after its break check, draws the row's name, address and phone |
| ReportPdfWriter.ReportPdfWriter.WriteTo | app/src/main/java/com/epic/documentmanager/utils/ReportPdfWriter.kt:62-141 | the pages it adds are numbered on consecutively from the counter, each starts with the title block and column header and draws nothing below the bottom margin, and together they draw the four sections and the grand total |
| ReportPdfWriter.ReportPdfWriter.DrawBody | app/src/main/java/com/epic/documentmanager/utils/ReportPdfWriter.kt:120-138 | draws exactly the four sections in order and then the grand total |
| ReportPdfWriter.ReportPdfWriter.Begin | app/src/main/java/com/epic/documentmanager/utils/ReportPdfWriter.kt:64-69 | the first page opens with its heading and the content is still empty |
| ReportPdfWriter.ReportPdfWriter.DrawGrandTotal | app/src/main/java/com/epic/documentmanager/utils/ReportPdfWriter.kt:126-138 | after its break check, draws "Total Dokumen (Semua): n" |
| ReportPdfWriter.StillOpen | app/src/main/java/com/epic/documentmanager/utils/ReportPdfWriter.kt:151-154 | a draw call above the bottom margin keeps the page headed and within the margin |
| Text.SplitKeepsFileSeparator | app/src/main/java/com/epic/documentmanager/utils/FormPdfWriter.kt:155 | `split(Regex("\\s+"))` keeps two words joined by U+001C together as one piece, since U+001C is not `\s` |
| Text.SplitOfWord | app/src/main/java/com/epic/documentmanager/utils/FormPdfWriter.kt:155 | a text without `\s` characters splits into itself alone |
| FormPdfWriter.ValueLinesShape | app/src/main/java/com/epic/documentmanager/utils/FormPdfWriter.kt:155-179 | every value line is non-empty and either fits the value column or is a single word too wide on its own |
| FormPdfWriter.LineItems | app/src/main/java/com/epic/documentmanager/utils/FormPdfWriter.kt:161-166 | one value item per drawn line, in order |
| FormPdfWriter.Keys | app/src/main/java/com/epic/documentmanager/utils/FormPdfWriter.kt:16 | the labels of the pairs, in order |
| FormPdfWriter.LabelsAppend | app/src/main/java/com/epic/documentmanager/utils/FormPdfWriter.kt:46-65 | the labels drawn by two runs of output are those of the first followed by those of the second |
| FormPdfWriter.ValueLinesHaveNoLabel | app/src/main/java/com/epic/documentmanager/utils/FormPdfWriter.kt:54-61 | value lines never count as labels |
| FormPdfWriter.FieldLabelsInOrder | app/src/main/java/com/epic/documentmanager/utils/FormPdfWriter.kt:46-65 | the drawn labels are exactly the pairs' labels, each once and in the given order |
| FormPdfWriter.Numbered | app/src/main/java/com/epic/documentmanager/utils/FormPdfWriter.kt:84-92 | one line per attachment, the i-th reading "i+1. name" |
| FormPdfWriter.NumberedStep | app/src/main/java/com/epic/documentmanager/utils/FormPdfWriter.kt:84-88 | each further attachment adds exactly its own numbered line |
| FormPdfWriter.FormPdfWriter.constructor | app/src/main/java/com/epic/documentmanager/utils/FormPdfWriter.kt:12-37 | the writer holds its title, subtitle, pairs, attachments and footer, with the page counter at 0 and no pages |
| FormPdfWriter.FormPdfWriter.NewPage | app/src/main/java/com/epic/documentmanager/utils/FormPdfWriter.kt:102-115 | the counter goes up by one and the new page holds only the header rule |
| FormPdfWriter.FormPdfWriter.FinishPage | app/src/main/java/com/epic/documentmanager/utils/FormPdfWriter.kt:117-119 | the open page is appended under the current number and the earlier pages are kept |
| FormPdfWriter.FormPdfWriter.EnsureSpace | app/src/main/java/com/epic/documentmanager/utils/FormPdfWriter.kt:122-135 | when the item fits above the bottom margin nothing changes; otherwise one page is finished, a fresh page started and y reset to the margin |
| FormPdfWriter.FormPdfWriter.Put | app/src/main/java/com/epic/documentmanager/utils/FormPdfWriter.kt:51-52 | one draw call is appended to the open page and its text to the section's content |
| FormPdfWriter.FormPdfWriter.DrawTitle | app/src/main/java/com/epic/documentmanager/utils/FormPdfWriter.kt:137-145 | draws the title and the subtitle, in that order, and returns the fixed y under the title block plus 6 |
| FormPdfWriter.FormPdfWriter.DrawMultiline | app/src/main/java/com/epic/documentmanager/utils/FormPdfWriter.kt:147-180 | draws the greedy packing of the whitespace-split words into lines that fit, one line height apart, and returns the y under the last line |
| FormPdfWriter.FormPdfWriter.Flush | app/src/main/java/com/epic/documentmanager/utils/FormPdfWriter.kt:161-167 | a non-empty line is drawn and y moves down one line; an empty line draws nothing |
| FormPdfWriter.FormPdfWriter.DrawField | app/src/main/java/com/epic/documentmanager/utils/FormPdfWriter.kt:47-64 | after the space check, draws the label, the colon and the wrapped value (or "-" when blank) |
| FormPdfWriter.FormPdfWriter.DrawPair | app/src/main/java/com/epic/documentmanager/utils/FormPdfWriter.kt:51-64 | draws the label, the colon, then the value lines, then a rule |
| FormPdfWriter.FormPdfWriter.DrawFields | app/src/main/java/com/epic/documentmanager/utils/FormPdfWriter.kt:46-65 | draws every pair in order, with page breaks only through the space check |
| FormPdfWriter.FormPdfWriter.DrawFooter | app/src/main/java/com/epic/documentmanager/utils/FormPdfWriter.kt:67-72 | draws the footer note exactly when there is one |
| FormPdfWriter.FormPdfWriter.DataSection | app/src/main/java/com/epic/documentmanager/utils/FormPdfWriter.kt:41-72 | from a new page, the section draws "Data <title>", the subtitle, the pairs and the footer |
| FormPdfWriter.FormPdfWriter.StartSection | app/src/main/java/com/epic/documentmanager/utils/FormPdfWriter.kt:41 | a section starts on a new page with nothing of its own drawn yet |
| FormPdfWriter.FormPdfWriter.AttachmentSection | app/src/main/java/com/epic/documentmanager/utils/FormPdfWriter.kt:77-95 | from a new page, draws "Lampiran <title>", the subtitle, then the no-attachments note, or the numbered list and its total |
| FormPdfWriter.FormPdfWriter.DrawAttachment | app/src/main/java/com/epic/documentmanager/utils/FormPdfWriter.kt:85-91 | after the space check, draws the attachment's numbered line |
| FormPdfWriter.FormPdfWriter.DrawAttachmentList | app/src/main/java/com/epic/documentmanager/utils/FormPdfWriter.kt:84-94 | draws every attachment's numbered line in order, then the total |
| FormPdfWriter.FormPdfWriter.DataPages | app/src/main/java/com/epic/documentmanager/utils/FormPdfWriter.kt:41-74 | the data section's pages are finished, numbered on from the counter, each headed, drawing exactly the data content |
| FormPdfWriter.FormPdfWriter.AttachmentPages | app/src/main/java/com/epic/documentmanager/utils/FormPdfWriter.kt:77-97 | the attachment section's pages are finished, numbered on, each headed, drawing exactly the attachment content |
| FormPdfWriter.FormPdfWriter.WriteTo | app/src/main/java/com/epic/documentmanager/utils/FormPdfWriter.kt:39-98 | at least two pages, numbered on consecutively and each headed; the data content comes first and the attachments start on a page of their own |
| FormPdfWriter.RunSnoc | app/src/main/java/com/epic/documentmanager/utils/FormPdfWriter.kt:102-105 | appending the next numbered, headed page keeps the page run consecutive |
| FormPdfWriter.RunAppend | app/src/main/java/com/epic/documentmanager/utils/FormPdfWriter.kt:102-105 | two consecutive page runs join into one |
| PembelianRumahFragment.MergeAttachments | app/src/main/java/com/epic/documentmanager/fragments/PembelianRumahFragment.kt:248-251 | the attachment map is the stored attachments put in list order, then each uploaded URL under its key |
| PembelianRumahFragment.PutPairs | app/src/main/java/com/epic/documentmanager/fragments/PembelianRumahFragment.kt:249-251 | putting the pairs one by one gives the map the pairs, in order, define |
| PembelianRumahFragment.MergedKeys | app/src/main/java/com/epic/documentmanager/fragments/PembelianRumahFragment.kt:248-251 | the merged map has one entry per key, and the stored attachments' keys come first and in their order |
| PembelianRumahFragment.UploadWins | app/src/main/java/com/epic/documentmanager/fragments/PembelianRumahFragment.kt:251 | uploaded URL i is stored under the name of the i-th local item (or "file_<i+1>") unless a later upload has the same key |
| PembelianRumahFragment.StoredKept | app/src/main/java/com/epic/documentmanager/fragments/PembelianRumahFragment.kt:249-251 | a key no upload uses keeps the url of the last stored item of that name, and is absent when none has one |
| PembelianRumahFragment.UnchangedEditKeepsAttachments | app/src/main/java/com/epic/documentmanager/fragments/PembelianRumahFragment.kt:204-251 | saving an edit without new files gives back the stored attachments, when all their urls are non-empty |
| PembelianRumahFragment.UploadRequestFor | app/src/main/java/com/epic/documentmanager/fragments/PembelianRumahFragment.kt:230-238 | the request holds the local items' uris and names, in the same order, under the given document type |
| PembelianRumahFragment.UploadKeyIsRequestName | app/src/main/java/com/epic/documentmanager/fragments/PembelianRumahFragment.kt:237-251 | the URL uploaded for request item i is filed under the name it was uploaded with |
| PembelianRumahFragment.ClipImages | app/src/main/java/com/epic/documentmanager/fragments/PembelianRumahFragment.kt:287-290 | one item per uri of the clip, in clip order, each named after the clock reading when it is added |
| PembelianRumahFragment.PickedImages | app/src/main/java/com/epic/documentmanager/fragments/PembelianRumahFragment.kt:286-292 | the clip's items when the clip is not empty, else one item for the single uri, else none; each is local and has no url |
| PembelianRumahFragment.PickedAreUploaded | app/src/main/java/com/epic/documentmanager/fragments/PembelianRumahFragment.kt:230-251 | picked items join the uploads in order and add nothing to the stored attachments |
| PembelianRumahFragment.AddAttachments | app/src/main/java/com/epic/documentmanager/fragments/PembelianRumahFragment.kt:204 | the stored attachments are appended as items with name and url and no uri |
| PembelianRumahFragment.AddPicked | app/src/main/java/com/epic/documentmanager/fragments/PembelianRumahFragment.kt:287-292 | the picked items are appended to the list |
| PembelianRumahFragment.BuildDocument | app/src/main/java/com/epic/documentmanager/fragments/PembelianRumahFragment.kt:253-278 | a house purchase whose fields are the trimmed texts and selected items of the form, updated now, with the merged attachments; an edit keeps id, code, creation time and user, updater and status; a new one gets an empty id, a fresh code, now as creation time and "active" |
| PembelianRumahFragment.EditsKeepIdentity | app/src/main/java/com/epic/documentmanager/fragments/PembelianRumahFragment.kt:253-276 | editing a document twice still keeps the identity it was first saved with |
| PembelianRumahFragment.Fragment.constructor | app/src/main/java/com/epic/documentmanager/fragments/PembelianRumahFragment.kt:73-88 | nothing is awaited, the button is enabled, no requests are made, and an edit starts with one item per stored attachment |
| PembelianRumahFragment.Fragment.OnSaveClicked | app/src/main/java/com/epic/documentmanager/fragments/PembelianRumahFragment.kt:208-220 | with a validation error the first one is shown and nothing else changes; otherwise the form claims the upload and disables the button, and either requests an upload of the local items or saves at once |
| PembelianRumahFragment.Fragment.SaveUnlessErrors | app/src/main/java/com/epic/documentmanager/fragments/PembelianRumahFragment.kt:214-219 | the same split, given the errors |
| PembelianRumahFragment.Fragment.SaveDocument | app/src/main/java/com/epic/documentmanager/fragments/PembelianRumahFragment.kt:222-242 | the upload is claimed and the progress shown; local items are sent for upload, otherwise the document is saved with no new URLs |
| PembelianRumahFragment.Fragment.SaveDocumentWithImages | app/src/main/java/com/epic/documentmanager/fragments/PembelianRumahFragment.kt:244-280 | the save is claimed and exactly one document, with the merged attachments, is handed over |
| PembelianRumahFragment.Fragment.OnUploadResult | app/src/main/java/com/epic/documentmanager/fragments/PembelianRumahFragment.kt:144-154 | ignored unless the form awaits an upload; a success saves the document with the returned URLs; a failure re-enables the button, drops the claim and shows "Upload gagal: <message>" |
| PembelianRumahFragment.Fragment.UploadFailed | app/src/main/java/com/epic/documentmanager/fragments/PembelianRumahFragment.kt:149-152 | the button comes back, the progress hides, the claim is dropped and the failure is shown |
| PembelianRumahFragment.Fragment.OnSaveResult | app/src/main/java/com/epic/documentmanager/fragments/PembelianRumahFragment.kt:156-169 | ignored unless the form awaits a save; otherwise both claims end and the button comes back; a success shows "Data tersimpan" and finishes the screen, a failure shows "Gagal simpan: <message>" |
| PembelianRumahFragment.Fragment.OnDeleteClicked | app/src/main/java/com/epic/documentmanager/fragments/PembelianRumahFragment.kt:125 | the item at the position leaves the list and the others keep their order |
| PembelianRumahFragment.Fragment.OnActivityResult | app/src/main/java/com/epic/documentmanager/fragments/PembelianRumahFragment.kt:284-294 | a picking result with RESULT_OK appends the picked items; any other result changes nothing |
| PemasanganCctvFragment.UnitCountValues | app/src/main/java/com/epic/documentmanager/fragments/PemasanganCCTVFragment.kt:166 | a 32-bit number written in decimal is read back as itself; text that does not parse counts as 0 |
| PemasanganCctvFragment.PaddedUnitCountIsZero | app/src/main/java/com/epic/documentmanager/fragments/PemasanganCCTVFragment.kt:166 | the text is parsed untrimmed, so a unit count with a leading space is saved as 0 |
| PemasanganCctvFragment.BuildDocument | app/src/main/java/com/epic/documentmanager/fragments/PemasanganCCTVFragment.kt:159-173 | a CCTV installation updated now with the merged attachments; an edit keeps id, code, creation time and user, updater and status; a new one gets an empty id, a fresh code, now as creation time and "active" |
| PemasanganCctvFragment.BuildDocumentFromForm | app/src/main/java/com/epic/documentmanager/fragments/PemasanganCCTVFragment.kt:163-166 | the saved record carries the form's trimmed name, address and phone and the parsed unit count |
| PemasanganCctvFragment.Fragment.constructor | app/src/main/java/com/epic/documentmanager/fragments/PemasanganCCTVFragment.kt:56-75 | nothing is awaited, the button is enabled, no requests are made, and an edit starts with one item per stored attachment |
| PemasanganCctvFragment.Fragment.OnSaveClicked | app/src/main/java/com/epic/documentmanager/fragments/PemasanganCCTVFragment.kt:131-136 | with a validation error the first one is shown and nothing else changes; otherwise the form claims the upload and disables the button, and either requests an upload of the local items or saves at once |
| PemasanganCctvFragment.Fragment.SaveUnlessErrors | app/src/main/java/com/epic/documentmanager/fragments/PemasanganCCTVFragment.kt:133-135 | the same split, given the errors |
| PemasanganCctvFragment.Fragment.SaveDocument | app/src/main/java/com/epic/documentmanager/fragments/PemasanganCCTVFragment.kt:138-148 | the upload is claimed and the progress shown; local items are sent for upload under the CCTV type, otherwise the document is saved with no new URLs |
| PemasanganCctvFragment.Fragment.SaveDocumentWithImages | app/src/main/java/com/epic/documentmanager/fragments/PemasanganCCTVFragment.kt:150-175 | the save is claimed and exactly one document, with the merged attachments, is handed over |
| PemasanganCctvFragment.Fragment.OnUploadResult | app/src/main/java/com/epic/documentmanager/fragments/PemasanganCCTVFragment.kt:88-98 | ignored unless the form awaits an upload; otherwise as UploadArrived |
| PemasanganCctvFragment.Fragment.UploadArrived | app/src/main/java/com/epic/documentmanager/fragments/PemasanganCCTVFragment.kt:90-97 | a success saves the document with the returned URLs; a failure re-enables the button, drops the claim and shows "Upload gagal: <message>" |
| PemasanganCctvFragment.Fragment.UploadFailed | app/src/main/java/com/epic/documentmanager/fragments/PemasanganCCTVFragment.kt:93-96 | the button comes back, the progress hides, the claim is dropped and the failure is shown |
| PemasanganCctvFragment.Fragment.OnSaveResult | app/src/main/java/com/epic/documentmanager/fragments/PemasanganCCTVFragment.kt:100-110 | ignored unless the form awaits a save; otherwise both claims end and the button comes back; a success shows "Data tersimpan" and finishes the screen, a failure shows "Gagal simpan: <message>" |
| PemasanganCctvFragment.Fragment.OnDeleteClicked | app/src/main/java/com/epic/documentmanager/fragments/PemasanganCCTVFragment.kt:81 | the item at the position leaves the list and the others keep their order |
| PemasanganCctvFragment.Fragment.OnActivityResult | app/src/main/java/com/epic/documentmanager/fragments/PemasanganCCTVFragment.kt:177-185 | a picking result with RESULT_OK for request 4001 appends the picked items; any other result changes nothing |
| SimpleReportAdapter.RowsOf | app/src/main/java/com/epic/documentmanager/activities/SimpleReportAdapter.kt:15-28 | one row per document in the list's order, its code above "<category> • <name>" |
| SimpleReportAdapter.RowsLayout | app/src/main/java/com/epic/documentmanager/activities/SimpleReportAdapter.kt:15-28 | the rows are the house purchases, then the renovations, AC and CCTV installations, each at its offset, and their number is the sum |
| SimpleReportAdapter.Adapter.constructor | app/src/main/java/com/epic/documentmanager/activities/SimpleReportAdapter.kt:11-12 | the adapter starts with no rows |
| SimpleReportAdapter.Adapter.Submit | app/src/main/java/com/epic/documentmanager/activities/SimpleReportAdapter.kt:15-28 | the old rows are replaced by the four lists' rows in order; the count is the sum of the lengths |
| SimpleReportAdapter.Adapter.OnBindViewHolder | app/src/main/java/com/epic/documentmanager/activities/SimpleReportAdapter.kt:33-37 | the bound title and subtitle are the row at that position |
| Models.KindOfType | app/src/main/java/com/epic/documentmanager/utils/Constants.kt:23-26 | a type string names a kind exactly when it is that kind's constant, and then only that kind |
| Models.NewestFirst | app/src/main/java/com/epic/documentmanager/activities/DocumentListActivity.kt:133 | the documents sorted newest first: same length, a permutation, and documents created at the same time keep their order |
| Wrap.LinesShape | app/src/main/java/com/epic/documentmanager/utils/FormPdfWriter.kt:155-180 | every drawn line fits the width or is one word too wide on its own; the form writer never draws an empty line |
| Wrap.PackEmptyFirst | app/src/main/java/com/epic/documentmanager/activities/DocumentDetailActivity.kt:621-630 | without empty words an empty line is drawn at most once, first, and only when the first word alone is too wide |
| Wrap.LinesRejoin | app/src/main/java/com/epic/documentmanager/activities/DocumentDetailActivity.kt:618-634 | the non-empty drawn lines joined by spaces give back the words: none lost, split or reordered |

## Left out

- Cloud Functions: an Admin SDK error thrown from a callable reaches the app as the framework's "internal" error; the model keeps the error the function throws, not that translation. Function arguments that are neither strings, `null` nor absent are not modelled.
- Firebase I/O: Firestore, Storage and Auth calls are reduced to their outcomes, passed in as parameters, and `toObject` to the record it yields; listeners, `await` and retries inside the SDK are not modelled. Reads see the writes made before them.
- StaffRepository.StaffRepository.FetchUsers, StaffRepository.StaffRepository.SearchUsers: they read an in-memory collection that always answers; a failing `get()`, whose error the staff screen's view model posts, is not modelled. StaffViewModel is not part of this model.
- Concurrency: the `async` fan-out of the report screens, the upload counters of the document view model and callback timing are not modelled; results arrive one at a time, in the order the model's methods are called, and `postValue` takes effect at once.
- The view model's `init` refresh is not modelled; `RefreshCurrentUser` is the step it runs, and an error it returns is thrown out of the coroutine with nothing to catch it; what the coroutine's default handler then does to the app is not modelled.
- AuthViewModel.Register: account creation also signs the new account in on Firebase; the model keeps the signed-in account unchanged.
- AuthViewModel `changePassword` (re-authentication and password update) is not modelled: it is only Auth calls and a posted result.
- Floating point: fractional column offsets of the form writer, bitmap scaling, WebView density scaling and the `textSize` fields; the integer line heights derived from them are parameters or constants.
- AttachmentExporter.DownloadOriginals, AttachmentExporter.ExportAsPdf: an output opened before its fetch fails stays behind as an empty (or pending) file in Downloads; the model records only completed writes. Read errors during `copyTo`, `FileOutputStream` errors before Android 10 and bitmap or PDF encoding errors are not modelled.
- AttachmentExporter.ExportOne: the web branch fails only when its output is refused; WebView load failures, a page that never finishes loading and rendering errors are not modelled.
- Regex `\s` (Text.IsRegexSpace, used by Validation.IsPhoneSeparator for `[\s-]` and by Text.SplitWhitespace for `\s+`) follows the Java platform's definition: space and U+0009..U+000D. Android's ICU-based regex engine documents `\s` as `[\t\n\f\r\p{Z}]` instead: it also matches the Unicode space separators, such as U+00A0 and U+2000..U+200A, and not the vertical tab U+000B. The model does not follow that definition; this affects PhoneNumberAccepts, PhoneNumberShape, CleanValidPhoneNumber, the four form validators and their validity lemmas, and ValueLinesShape, DrawMultiline, DrawField and DrawPair of the form writer.
- Text.Trim, Text.IsBlank, Text.Lower, Text.ParseInt are ASCII-only. Their white space is space, U+0009..U+000D and U+001C..U+001F; Kotlin's `trim`/`isBlank`/`isWhitespace` also treat Unicode spaces such as U+00A0, U+1680, U+2000..U+200A and U+2028 as white space; `lowercase(Locale.ROOT)` also folds non-ASCII letters; `toIntOrNull` also accepts non-ASCII decimal digits such as "٣". Every member built on them inherits this, among them Uploader.SanitizeFilename, Validation.SanitizeInput, PemasanganCctvFragment.UnitCount, CreateStaff.ReadInput, the form checks and the search filter.
- Canvas, Bitmap, PdfDocument, WebView rendering, MediaStore, DownloadManager and file writes are represented only by a log of draw or write operations, or left out where nothing is computed from them.
- `measureText` and font metrics are parameters; no property depends on their values.
- `MimeTypeMap` is a parameter table; `Patterns.EMAIL_ADDRESS` is the predicate `emailOk`.
- `Normalizer` NFD diacritic stripping in `sanitizeFilename` is not modelled: names are taken as already normalised.
- `URLEncoder`, `SimpleDateFormat`, `Calendar` and `DateUtils`: the values they produce (the `yyyyMM` text, month and year boundaries, the current year, formatted dates) are parameters, and the month and year range computations are left out.
- `Random`: a random choice is given by its value.
- Timestamps are whole seconds and nanoseconds; doubles stored by Firestore are not modelled, and numbers are the Long values it stores for integers.
- Reflection over record fields is reduced to the fields it asks for, each a String or absent.
- Query order: a collection is held in the order the backend returns it; `orderBy` is a stable sort on that order, so ties keep backend order.
- The list and search screens declare separate but identical `Row` and `RowAdapter` types; the model has one of each. DiffUtil's change notifications are not modelled: `submit` replaces the items.
- `RowAdapter.onBindViewHolder` of the list and search screens (the "—" shown for a blank name or phone, the DateUtils date line) is not modelled.
- FormPdfWriter.FormPdfWriter.DrawMultiline: the horizontal positions of text are not modelled; as in the source, the lines of one long value are not broken across pages.
- The detail PDF's header block and its attachments page are not modelled beyond the attachment labels and URL truncation; the column gap `dp()` is a parameter.
- Toasts: the two form fragments, the search screen and CreateStaffActivity keep the toasts they show as a log. StaffForm's save and load and the report screens' download step return the message as a value (a `SaveOutcome`, a `Result` failure or None). The report screens' load-failure and storage-permission toasts and the detail screen's toasts are not modelled.
- Navigation, view lookups and progress views are not modelled.
- The forms' `populateFields` writes into text fields and spinners are not modelled (a spinner given a value it does not list gets `setSelection(-1)`); the model keeps only the attachment items it builds.
- An exception without a message: FirebaseUtils.HandleFirebaseError keeps it apart, as a `None` message. Everywhere else a failed `Result` and a Cloud Functions error carry a plain string, and a missing message is the empty string. So CreateStaff.MessageOr (`message ?: fallback`) shows the fallback for an empty message too; and the "Upload gagal: " and "Gagal simpan: " toasts of PembelianRumahFragment.Fragment and PemasanganCctvFragment.Fragment end in "" where the source's string template prints "null".
- Adapter positions are natural numbers: negative positions are not modelled.
- The file-upload internals of the document view model, request and result codes of activity results, and an activity's finishing (a flag) are reduced to the values the fragments receive.
- DocumentAdapter's click callbacks, OriginalDownloader and PdfExporter (metadata fetches and toasts) are not part of this model.
- Uploader: `queryDisplayName` failing or returning nothing is the same None; `takePersistableIfPossible` is I/O and is left out.
- StorageRepository `uploadDocument`, the single-file variant, is not modelled; it follows the same naming rule as `uploadMultipleFiles`.
- DocumentAdapter's optional buttons are modelled by whether the layout has them (`hasDownload`, `hasPrint`).
- StaffRepository.StaffRepository.ClaimInviteIfExists does nothing, as in the source, so it has no contract.
- The storage permission requests (WRITE_EXTERNAL_STORAGE) before saving a PDF, and the ReportSaver save step, are I/O and are left out.
- Navigation-only and lifecycle code (login, dashboard, main and upload activities, the staff list, the trivial `replaceAll` adapters), commented-out legacy code and the unused data classes in data/model are outside this model.

## Findings

| source | as written | input that shows it | evidently intended | confidence | as-written member | corrected member |
|---|---|---|---|---|---|---|
| app/src/main/java/com/epic/documentmanager/viewmodels/AuthViewModel.kt:142 | register reports `User(uid, fullName, email, role)`, but that constructor takes the email second and the name third, so name and email are swapped | any full name that differs from the email | the reported user has the given email as email and the full name as name | not executed | AuthViewModel.RegisteredUserSwapsNameAndEmail | AuthViewModel.RegisteredUser |
| app/src/main/java/com/epic/documentmanager/utils/Uploader.kt:172-184 | makeDisplayNameUnique numbers repeats "name (k)" without checking that name is free, and uploadAll (lines 64-81) keys its result by name, so one upload's URL is overwritten | names ["a (2)", "a", "a"] (after sanitising, files named "x.b (2)", "x.b", "x.b" give the same pattern) | every file gets its own display name and every successful upload keeps its URL | not executed | Uploader.NumberedInputCollides | Uploader.UniqueNamesDistinct |
