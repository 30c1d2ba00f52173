/**
 * The house-purchase form (fragments/PembelianRumahFragment.kt). Saving uploads the newly
 * picked files, merges their download URLs with the attachments already stored, and hands the
 * document to the view model. The view model is shared by all the forms of the activity, so
 * an upload or save result may answer another form's request: two flags, awaitingUpload and
 * awaitingSave, decide which results this form acts on.
 *
 * The form's list of selected items is the very list its image adapter shows, so the model
 * keeps it in one place, the adapter's `images`.
 */
module PembelianRumahFragment {
  import opened Wrappers
  import Text
  import Lists
  import LinkedMap
  import Models
  import Validation
  import CodeGenerator
  import DocumentImageAdapter

  type DocumentImage = DocumentImageAdapter.DocumentImage

  const RequestImagePick := 1001
  /** `Activity.RESULT_OK`. */
  const ResultOk := -1
  const SavedMessage := "Data tersimpan"
  const UploadFailedPrefix := "Upload gagal: "
  const SaveFailedPrefix := "Gagal simpan: "
  const StatusActive := "active"
  const PickedNamePrefix := "Document_"
  const UploadFallbackPrefix := "file_"

  /**
   * What the form's views hold when they are read. A text field is None when the layout has
   * no such view; a spinner holds its selected item, None when it is missing or has none.
   */
  datatype Form = Form(
    nama: Option<string>, alamatKTP: Option<string>, nik: Option<string>, npwp: Option<string>,
    noTelepon: Option<string>, namaPasangan: Option<string>, pekerjaan: Option<string>,
    gaji: Option<string>, kontakDarurat: Option<string>, tempatKerja: Option<string>,
    namaPerumahan: Option<string>, tipeRumah: Option<string>,
    statusPernikahan: Option<string>, jenisPembayaran: Option<string>,
    tipeRumahKategori: Option<string>)

  /** `et?.text?.toString()?.trim() ?: ""`. */
  function TextOf(view: Option<string>): string
  {
    if view.None? then "" else Text.Trim(view.value)
  }

  /** `spinner?.selectedItem?.toString() ?: ""`. */
  function SelectedOf(spinner: Option<string>): string
  {
    spinner.GetOr("")
  }

  /** The fields `validateForm` checks, in this order. */
  function CheckedFields(f: Form): seq<(string, string)>
  {
    [("Nama", TextOf(f.nama)), ("Alamat KTP/Alamat", TextOf(f.alamatKTP)), ("No. Telepon", TextOf(f.noTelepon))]
  }

  predicate HasUrl(image: DocumentImage) { image.url != "" }

  predicate IsLocal(image: DocumentImage) { image.uri.Some? }

  /** The items picked on the device, in list order. */
  function Locals(images: seq<DocumentImage>): seq<DocumentImage>
  {
    Lists.Filter(images, IsLocal)
  }

  /** The name and url of every item with a url, in list order. */
  function RemotePairs(images: seq<DocumentImage>): seq<(string, string)>
  {
    var r := Lists.Filter(images, HasUrl);
    seq(|r|, i requires 0 <= i < |r| => (r[i].name, r[i].url))
  }

  /** The key of uploaded URL i: the name of the i-th local item, or `file_{i+1}`. */
  function UploadKey(locals: seq<DocumentImage>, i: nat): string
  {
    if i < |locals| then locals[i].name else UploadFallbackPrefix + Text.NatToString(i + 1)
  }

  function UploadedPairs(locals: seq<DocumentImage>, urls: seq<string>): seq<(string, string)>
  {
    seq(|urls|, i requires 0 <= i < |urls| => (UploadKey(locals, i), urls[i]))
  }

  /** The stored attachments put in list order: a later item of the same name wins. */
  function RemoteMap(images: seq<DocumentImage>): LinkedMap.Entries<string, string>
  {
    LinkedMap.PutAll([], RemotePairs(images))
  }

  /** The attachments of the saved document: the stored ones, then each uploaded URL. */
  function Merged(images: seq<DocumentImage>, urls: seq<string>): LinkedMap.Entries<string, string>
  {
    LinkedMap.PutAll(RemoteMap(images), UploadedPairs(Locals(images), urls))
  }

  /** The attachment map of `saveDocumentWithImages`, built by its two loops. */
  method MergeAttachments(images: seq<DocumentImage>, urls: seq<string>) returns (all: LinkedMap.Entries<string, string>)
    ensures all == Merged(images, urls)
  {
    all := PutPairs([], RemotePairs(images));
    all := PutPairs(all, UploadedPairs(Locals(images), urls));
  }

  /** `pairs.forEach { (k, v) -> m[k] = v }`. */
  method PutPairs(m: LinkedMap.Entries<string, string>, pairs: seq<(string, string)>)
    returns (r: LinkedMap.Entries<string, string>)
    ensures r == LinkedMap.PutAll(m, pairs)
  {
    r := m;
    for i := 0 to |pairs|
      invariant r == LinkedMap.PutAll(m, pairs[..i])
    {
      LinkedMap.PutAllSnoc(m, pairs[..i], pairs[i].0, pairs[i].1);
      assert pairs[..i + 1] == pairs[..i] + [(pairs[i].0, pairs[i].1)];
      r := LinkedMap.Put(r, pairs[i].0, pairs[i].1);
    }
    assert pairs[..|pairs|] == pairs;
  }

  /**
   * The merged map has one entry per key, and the stored attachments' keys come first, in
   * their order; uploads only replace values or add keys after them.
   */
  lemma MergedKeys(images: seq<DocumentImage>, urls: seq<string>)
    ensures LinkedMap.DistinctKeys(Merged(images, urls))
    ensures |Merged(images, urls)| >= |RemoteMap(images)|
    ensures forall i :: 0 <= i < |RemoteMap(images)| ==> Merged(images, urls)[i].0 == RemoteMap(images)[i].0
  {
    LinkedMap.PutAllDistinct([], RemotePairs(images));
    LinkedMap.PutAllDistinct(RemoteMap(images), UploadedPairs(Locals(images), urls));
    LinkedMap.PutAllKeepsKeys(RemoteMap(images), UploadedPairs(Locals(images), urls));
  }

  /** Uploaded URL i is the attachment under its key, unless a later upload has the same key. */
  lemma UploadWins(images: seq<DocumentImage>, urls: seq<string>, i: nat)
    requires i < |urls|
    requires forall j :: i < j < |urls| ==> UploadKey(Locals(images), j) != UploadKey(Locals(images), i)
    ensures LinkedMap.Get(Merged(images, urls), UploadKey(Locals(images), i)) == Some(urls[i])
  {
    var ups := UploadedPairs(Locals(images), urls);
    var q := UploadKey(Locals(images), i);
    LinkedMap.PutAllGet(RemoteMap(images), ups, q);
    LinkedMap.LastValueAt(ups, q, LinkedMap.Get(RemoteMap(images), q), i);
  }

  /**
   * A key no upload uses keeps the url of the last stored item of that name; a name no item
   * with a url has is not in the map unless an upload put it there.
   */
  lemma StoredKept(images: seq<DocumentImage>, urls: seq<string>, q: string)
    requires forall j :: 0 <= j < |urls| ==> UploadKey(Locals(images), j) != q
    ensures LinkedMap.Get(Merged(images, urls), q) == LinkedMap.LastValue(RemotePairs(images), q, None)
  {
    var ups := UploadedPairs(Locals(images), urls);
    LinkedMap.PutAllGet(RemoteMap(images), ups, q);
    LinkedMap.LastValueNone(ups, q, LinkedMap.Get(RemoteMap(images), q));
    LinkedMap.PutAllGet([], RemotePairs(images), q);
  }

  /** The items `populateFields` adds for the stored attachments: name and url, no uri. */
  function AttachmentImages(atts: Models.Attachments): seq<DocumentImage>
  {
    seq(|atts|, i requires 0 <= i < |atts| => DocumentImageAdapter.DocumentImage(atts[i].0, None, atts[i].1, ""))
  }

  /**
   * Saving an edited document without touching its attachments gives back the stored map,
   * provided every stored url is non-empty (an empty one is dropped).
   */
  lemma UnchangedEditKeepsAttachments(atts: Models.Attachments)
    requires LinkedMap.DistinctKeys(atts)
    requires forall i :: 0 <= i < |atts| ==> atts[i].1 != ""
    ensures Merged(AttachmentImages(atts), []) == atts
  {
    var images := AttachmentImages(atts);
    Lists.FilterAllPass(images, HasUrl);
    assert RemotePairs(images) == atts;
    assert atts == [] + atts;
    LinkedMap.PutAllFresh([], atts);
    assert UploadedPairs(Locals(images), []) == [];
  }

  /** The upload request of `saveDocument`: the local items' uris and names, in the same order. */
  datatype UploadRequest = UploadRequest(uris: seq<string>, docType: string, names: seq<string>)

  function UploadRequestFor(images: seq<DocumentImage>, docType: string): (r: UploadRequest)
    ensures |r.uris| == |r.names| == |Locals(images)|
    ensures forall i :: 0 <= i < |r.uris| ==> Locals(images)[i].uri == Some(r.uris[i])
    ensures forall i :: 0 <= i < |r.names| ==> r.names[i] == Locals(images)[i].name
    ensures r.docType == docType
  {
    var l := Locals(images);
    UploadRequest(seq(|l|, i requires 0 <= i < |l| => l[i].uri.value), docType,
                  seq(|l|, i requires 0 <= i < |l| => l[i].name))
  }

  /** The URL uploaded for request item i is filed under the name it was uploaded with. */
  lemma UploadKeyIsRequestName(images: seq<DocumentImage>, docType: string, i: nat)
    requires i < |UploadRequestFor(images, docType).names|
    ensures UploadKey(Locals(images), i) == UploadRequestFor(images, docType).names[i]
  {
  }

  /** The item `addOne` appends for a picked uri, named after the clock reading. */
  function PickedImage(uri: string, now: int): DocumentImage
  {
    DocumentImageAdapter.DocumentImage(PickedNamePrefix + Text.IntToString(now), Some(uri), "", "")
  }

  /** One item per uri of the clip, in clip order; `clock(i)` is the clock when item i is added. */
  function ClipImages(clip: seq<string>, clock: nat -> int): (r: seq<DocumentImage>)
    ensures |r| == |clip|
    ensures forall i :: 0 <= i < |r| ==> r[i] == PickedImage(clip[i], clock(i))
  {
    seq(|clip|, i requires 0 <= i < |clip| => PickedImage(clip[i], clock(i)))
  }

  /** The items `onActivityResult` appends: the clip's, else the single uri's, else none. */
  function PickedImages(clip: seq<string>, single: Option<string>, clock: nat -> int): (r: seq<DocumentImage>)
    ensures |r| == if |clip| > 0 then |clip| else if single.Some? then 1 else 0
    ensures forall i :: 0 <= i < |r| ==> IsLocal(r[i]) && !HasUrl(r[i])
  {
    if |clip| > 0 then ClipImages(clip, clock)
    else if single.Some? then [PickedImage(single.value, clock(0))]
    else []
  }

  /** Picked items are local and have no url, so picking adds exactly these to the uploads. */
  lemma PickedAreUploaded(images: seq<DocumentImage>, clip: seq<string>, single: Option<string>, clock: nat -> int)
    ensures Locals(images + PickedImages(clip, single, clock)) == Locals(images) + PickedImages(clip, single, clock)
    ensures RemotePairs(images + PickedImages(clip, single, clock)) == RemotePairs(images)
  {
    var p := PickedImages(clip, single, clock);
    Lists.FilterAppend(images, p, IsLocal);
    Lists.FilterAllPass(p, IsLocal);
    Lists.FilterAppend(images, p, HasUrl);
    Lists.FilterNonePass(p, HasUrl);
    assert Lists.Filter(images, HasUrl) + [] == Lists.Filter(images, HasUrl);
  }

  /** The attachment loop of `populateFields`. */
  method AddAttachments(adapter: DocumentImageAdapter.ImageAdapter, atts: Models.Attachments)
    modifies adapter`images
    ensures adapter.images == old(adapter.images) + AttachmentImages(atts)
  {
    for i := 0 to |atts|
      invariant adapter.images == old(adapter.images) + AttachmentImages(atts[..i])
    {
      assert AttachmentImages(atts[..i + 1]) == AttachmentImages(atts[..i]) + [AttachmentImages(atts)[i]];
      adapter.images := adapter.images + [DocumentImageAdapter.DocumentImage(atts[i].0, None, atts[i].1, "")];
    }
    assert atts[..|atts|] == atts;
  }

  /** The two branches of `onActivityResult`: the clip's uris in turn, else the single uri. */
  method AddPicked(adapter: DocumentImageAdapter.ImageAdapter, clip: seq<string>, single: Option<string>, clock: nat -> int)
    modifies adapter`images
    ensures adapter.images == old(adapter.images) + PickedImages(clip, single, clock)
  {
    if |clip| > 0 {
      for i := 0 to |clip|
        invariant adapter.images == old(adapter.images) + ClipImages(clip[..i], clock)
      {
        assert ClipImages(clip[..i + 1], clock) == ClipImages(clip[..i], clock) + [PickedImage(clip[i], clock(i))];
        adapter.images := adapter.images + [PickedImage(clip[i], clock(i))];
      }
      assert clip[..|clip|] == clip;
    } else if single.Some? {
      adapter.images := adapter.images + [PickedImage(single.value, clock(0))];
    }
  }

  /** The identity fields an edit keeps. */
  predicate SameIdentity(d: Models.Document, e: Models.Document)
  {
    d.id == e.id && d.uniqueCode == e.uniqueCode && d.createdAt == e.createdAt &&
    d.createdBy == e.createdBy && d.updatedBy == e.updatedBy && d.status == e.status
  }

  /** The record fields the form supplies. */
  predicate FromForm(d: Models.Document, f: Form)
    requires d.PembelianRumah?
  {
    d.nama == TextOf(f.nama) && d.alamatKTP == TextOf(f.alamatKTP) && d.nik == TextOf(f.nik) &&
    d.npwp == TextOf(f.npwp) && d.noTelepon == TextOf(f.noTelepon) &&
    d.statusPernikahan == SelectedOf(f.statusPernikahan) && d.namaPasangan == TextOf(f.namaPasangan) &&
    d.pekerjaan == TextOf(f.pekerjaan) && d.gaji == TextOf(f.gaji) &&
    d.kontakDarurat == TextOf(f.kontakDarurat) && d.tempatKerja == TextOf(f.tempatKerja) &&
    d.namaPerumahan == TextOf(f.namaPerumahan) && d.tipeRumah == TextOf(f.tipeRumah) &&
    d.jenisPembayaran == SelectedOf(f.jenisPembayaran) && d.tipeRumahKategori == SelectedOf(f.tipeRumahKategori)
  }

  /**
   * The document `saveDocumentWithImages` saves. An edit keeps the edited document's
   * identity; a new document gets an empty id, a fresh code, the current time as creation
   * time and the "active" status. `yearMonth` and `randomNumber` feed the code generator.
   */
  function BuildDocument(f: Form, editing: Option<Models.Document>, attachments: Models.Attachments,
                         now: int, yearMonth: string, randomNumber: int): (d: Models.Document)
    ensures d.PembelianRumah? && FromForm(d, f)
    ensures d.updatedAt == now && d.attachments == attachments
    ensures editing.Some? ==> SameIdentity(d, editing.value)
    ensures editing.None? ==>
      d.id == "" && d.status == StatusActive && d.createdAt == now && d.createdBy == "" && d.updatedBy == "" &&
      d.uniqueCode == CodeGenerator.GenerateCodeFor(Models.PembelianRumahKind, yearMonth, randomNumber)
  {
    Models.PembelianRumah(
      id := if editing.Some? then editing.value.id else "",
      uniqueCode := if editing.Some? then editing.value.uniqueCode
                    else CodeGenerator.GenerateCodeFor(Models.PembelianRumahKind, yearMonth, randomNumber),
      nama := TextOf(f.nama), alamatKTP := TextOf(f.alamatKTP), nik := TextOf(f.nik),
      npwp := TextOf(f.npwp), noTelepon := TextOf(f.noTelepon),
      statusPernikahan := SelectedOf(f.statusPernikahan), namaPasangan := TextOf(f.namaPasangan),
      pekerjaan := TextOf(f.pekerjaan), gaji := TextOf(f.gaji), kontakDarurat := TextOf(f.kontakDarurat),
      tempatKerja := TextOf(f.tempatKerja), namaPerumahan := TextOf(f.namaPerumahan),
      tipeRumah := TextOf(f.tipeRumah), jenisPembayaran := SelectedOf(f.jenisPembayaran),
      tipeRumahKategori := SelectedOf(f.tipeRumahKategori),
      createdAt := if editing.Some? then editing.value.createdAt else now,
      updatedAt := now,
      createdBy := if editing.Some? then editing.value.createdBy else "",
      updatedBy := if editing.Some? then editing.value.updatedBy else "",
      status := if editing.Some? then editing.value.status else StatusActive,
      attachments := attachments)
  }

  /** Editing a document twice still keeps the identity it was first saved with. */
  lemma EditsKeepIdentity(f1: Form, f2: Form, d: Models.Document, a1: Models.Attachments, a2: Models.Attachments,
                          t1: int, t2: int, ym: string, rnd: int)
    ensures SameIdentity(BuildDocument(f2, Some(BuildDocument(f1, Some(d), a1, t1, ym, rnd)), a2, t2, ym, rnd), d)
  {
    var d1 := BuildDocument(f1, Some(d), a1, t1, ym, rnd);
    assert SameIdentity(d1, d);
  }

  class Fragment {
    var awaitingUpload: bool
    var awaitingSave: bool
    var progressVisible: bool
    var saveEnabled: bool
    /** The document being edited, None for a new one. */
    const editing: Option<Models.Document>
    /** Shows `selectedImages` and owns it: the form edits this list in place. */
    const adapter: DocumentImageAdapter.ImageAdapter
    /** The `uploadFiles` requests made, oldest first. */
    var uploads: seq<UploadRequest>
    /** The documents handed to `savePembelianRumah`, oldest first. */
    var saves: seq<Models.Document>
    var toasts: seq<string>
    /** The activity was finished with RESULT_OK. */
    var finished: bool

    /**
     * The progress bar shows exactly while the save button is disabled, and while it is
     * disabled the form is waiting for its upload, so a result it listens to re-enables it.
     */
    ghost predicate Valid()
      reads this`progressVisible, this`saveEnabled, this`awaitingUpload
    {
      progressVisible == !saveEnabled &&
      (!saveEnabled ==> awaitingUpload)
    }

    /** `onCreateView`: an edit starts with one item per stored attachment. */
    constructor(editing: Option<Models.Document>)
      requires editing.Some? ==> editing.value.PembelianRumah?
      ensures Valid() && fresh(adapter) && this.editing == editing
      ensures !awaitingUpload && !awaitingSave && saveEnabled
      ensures uploads == [] && saves == [] && toasts == [] && !finished
      ensures adapter.images == if editing.Some? then AttachmentImages(editing.value.attachments) else []
    {
      this.editing := editing;
      awaitingUpload := false;
      awaitingSave := false;
      progressVisible := false;
      saveEnabled := true;
      adapter := new DocumentImageAdapter.ImageAdapter([], true);
      uploads := [];
      saves := [];
      toasts := [];
      finished := false;
      new;
      if editing.Some? {
        AddAttachments(adapter, editing.value.attachments);
      }
    }

    /** The save button: a form with an error shows the first one; otherwise `saveDocument`. */
    method OnSaveClicked(f: Form, emailOk: string -> bool, now: int, yearMonth: string, randomNumber: int)
      requires Valid()
      modifies this`toasts, this`progressVisible, this`saveEnabled, this`awaitingUpload, this`awaitingSave,
               this`uploads, this`saves
      ensures Valid()
      ensures Validation.FormErrors(CheckedFields(f), emailOk) != [] ==>
        toasts == old(toasts) + [Validation.FormErrors(CheckedFields(f), emailOk)[0]] &&
        awaitingUpload == old(awaitingUpload) && awaitingSave == old(awaitingSave) &&
        saveEnabled == old(saveEnabled) && uploads == old(uploads) && saves == old(saves)
      ensures Validation.FormErrors(CheckedFields(f), emailOk) == [] ==>
        toasts == old(toasts) && awaitingUpload && !saveEnabled &&
        (Locals(adapter.images) != [] ==>
          !awaitingSave && saves == old(saves) &&
          uploads == old(uploads) + [UploadRequestFor(adapter.images, Models.DocTypePembelianRumah)]) &&
        (Locals(adapter.images) == [] ==>
          awaitingSave && uploads == old(uploads) &&
          saves == old(saves) + [BuildDocument(f, editing, Merged(adapter.images, []), now, yearMonth, randomNumber)])
    {
      var errors := Validation.ValidateForm(CheckedFields(f), emailOk);
      SaveUnlessErrors(errors, f, now, yearMonth, randomNumber);
    }

    /** The rest of the click handler, given the errors `validateForm` returned. */
    method SaveUnlessErrors(errors: seq<string>, f: Form, now: int, yearMonth: string, randomNumber: int)
      requires Valid()
      modifies this`toasts, this`progressVisible, this`saveEnabled, this`awaitingUpload, this`awaitingSave,
               this`uploads, this`saves
      ensures Valid()
      ensures errors != [] ==>
        toasts == old(toasts) + [errors[0]] &&
        awaitingUpload == old(awaitingUpload) && awaitingSave == old(awaitingSave) &&
        saveEnabled == old(saveEnabled) && uploads == old(uploads) && saves == old(saves)
      ensures errors == [] ==>
        toasts == old(toasts) && awaitingUpload && !saveEnabled &&
        (Locals(adapter.images) != [] ==>
          !awaitingSave && saves == old(saves) &&
          uploads == old(uploads) + [UploadRequestFor(adapter.images, Models.DocTypePembelianRumah)]) &&
        (Locals(adapter.images) == [] ==>
          awaitingSave && uploads == old(uploads) &&
          saves == old(saves) + [BuildDocument(f, editing, Merged(adapter.images, []), now, yearMonth, randomNumber)])
    {
      if |errors| > 0 {
        toasts := toasts + [errors[0]];
        return;
      }
      SaveDocument(f, now, yearMonth, randomNumber);
    }

    /** `saveDocument`: claims the upload, then uploads the local items or saves at once. */
    method SaveDocument(f: Form, now: int, yearMonth: string, randomNumber: int)
      requires Valid()
      modifies this`progressVisible, this`saveEnabled, this`awaitingUpload, this`awaitingSave,
               this`uploads, this`saves
      ensures Valid()
      ensures awaitingUpload && progressVisible && !saveEnabled
      ensures Locals(adapter.images) != [] ==>
        !awaitingSave && saves == old(saves) &&
        uploads == old(uploads) + [UploadRequestFor(adapter.images, Models.DocTypePembelianRumah)]
      ensures Locals(adapter.images) == [] ==>
        awaitingSave && uploads == old(uploads) &&
        saves == old(saves) + [BuildDocument(f, editing, Merged(adapter.images, []), now, yearMonth, randomNumber)]
    {
      progressVisible := true;
      saveEnabled := false;
      awaitingUpload := true;
      awaitingSave := false;
      var locals := Locals(adapter.images);
      if |locals| > 0 {
        uploads := uploads + [UploadRequestFor(adapter.images, Models.DocTypePembelianRumah)];
      } else {
        SaveDocumentWithImages([], f, now, yearMonth, randomNumber);
      }
    }

    /** `saveDocumentWithImages`: claims the save and hands over the merged document. */
    method SaveDocumentWithImages(urls: seq<string>, f: Form, now: int, yearMonth: string, randomNumber: int)
      modifies this`awaitingSave, this`saves
      ensures awaitingSave
      ensures saves == old(saves) + [BuildDocument(f, editing, Merged(adapter.images, urls), now, yearMonth, randomNumber)]
    {
      awaitingSave := true;
      var all := MergeAttachments(adapter.images, urls);
      var doc := BuildDocument(f, editing, all, now, yearMonth, randomNumber);
      saves := saves + [doc];
    }

    /**
     * The `uploadResult` observer: ignored unless this form is waiting for an upload; a
     * success saves the document, a failure gives the button back and drops the claim.
     */
    method OnUploadResult(result: Result<seq<string>>, f: Form, now: int, yearMonth: string, randomNumber: int)
      requires Valid()
      modifies this`awaitingSave, this`saves, this`progressVisible, this`saveEnabled, this`awaitingUpload,
               this`toasts
      ensures Valid()
      ensures !old(awaitingUpload) ==>
        awaitingSave == old(awaitingSave) && saves == old(saves) && progressVisible == old(progressVisible) &&
        saveEnabled == old(saveEnabled) && !awaitingUpload && toasts == old(toasts)
      ensures old(awaitingUpload) && result.Success? ==>
        awaitingUpload && awaitingSave && saveEnabled == old(saveEnabled) && toasts == old(toasts) &&
        saves == old(saves) + [BuildDocument(f, editing, Merged(adapter.images, result.value), now, yearMonth, randomNumber)]
      ensures old(awaitingUpload) && result.Failure? ==>
        !awaitingUpload && !progressVisible && saveEnabled && awaitingSave == old(awaitingSave) &&
        saves == old(saves) && toasts == old(toasts) + [UploadFailedPrefix + result.message]
    {
      if !awaitingUpload {
        return;
      }
      if result.Success? {
        SaveDocumentWithImages(result.value, f, now, yearMonth, randomNumber);
      } else {
        UploadFailed(result.message);
      }
    }

    /** The failure branch of the `uploadResult` observer. */
    method UploadFailed(message: string)
      modifies this`progressVisible, this`saveEnabled, this`awaitingUpload, this`toasts
      ensures !awaitingUpload && !progressVisible && saveEnabled
      ensures toasts == old(toasts) + [UploadFailedPrefix + message]
    {
      progressVisible := false;
      saveEnabled := true;
      awaitingUpload := false;
      toasts := toasts + [UploadFailedPrefix + message];
    }

    /**
     * The `saveResult` observer: ignored unless this form is waiting for a save; otherwise
     * both claims end and the button comes back; a success finishes the screen.
     */
    method OnSaveResult(result: Result<()>)
      requires Valid()
      modifies this`progressVisible, this`saveEnabled, this`awaitingSave, this`awaitingUpload, this`toasts,
               this`finished
      ensures Valid()
      ensures !old(awaitingSave) ==>
        progressVisible == old(progressVisible) && saveEnabled == old(saveEnabled) && !awaitingSave &&
        awaitingUpload == old(awaitingUpload) && toasts == old(toasts) && finished == old(finished)
      ensures old(awaitingSave) ==>
        !awaitingSave && !awaitingUpload && !progressVisible && saveEnabled &&
        (result.Success? ==> toasts == old(toasts) + [SavedMessage] && finished) &&
        (result.Failure? ==> toasts == old(toasts) + [SaveFailedPrefix + result.message] && finished == old(finished))
    {
      if !awaitingSave {
        return;
      }
      progressVisible := false;
      saveEnabled := true;
      awaitingSave := false;
      awaitingUpload := false;
      if result.Success? {
        toasts := toasts + [SavedMessage];
        finished := true;
      } else {
        toasts := toasts + [SaveFailedPrefix + result.message];
      }
    }

    /** The delete button of the item at `position`: that item leaves the list. */
    method OnDeleteClicked(position: nat)
      requires position < |adapter.images|
      modifies adapter`images
      ensures adapter.images == DocumentImageAdapter.RemovedAt(old(adapter.images), position)
    {
      adapter.images := adapter.images[..position] + adapter.images[position + 1..];
    }

    /** `onActivityResult`: a picking result appends one item per returned uri. */
    method OnActivityResult(requestCode: int, resultCode: int, clip: seq<string>, single: Option<string>,
                            clock: nat -> int)
      modifies adapter`images
      ensures adapter.images == old(adapter.images) +
        (if requestCode == RequestImagePick && resultCode == ResultOk then PickedImages(clip, single, clock) else [])
    {
      if requestCode == RequestImagePick && resultCode == ResultOk {
        AddPicked(adapter, clip, single, clock);
      }
    }

  }
}
