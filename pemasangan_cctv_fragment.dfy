/**
 * The CCTV-installation form (fragments/PemasanganCCTVFragment.kt). Its save flow, its two
 * guard flags and its attachment merge are those of the house-purchase form; the record it
 * saves has a unit count parsed from its text field.
 */
module PemasanganCctvFragment {
  import opened Wrappers
  import Text
  import Models
  import Validation
  import CodeGenerator
  import DocumentImageAdapter
  import Purchase = PembelianRumahFragment

  const RequestImagePick := 4001

  /** The four text fields, as their views hold them when read. */
  datatype Form = Form(nama: string, alamat: string, noTelepon: string, jumlahUnit: string)

  /** `et.text.toString().trim()`. */
  function TextOf(text: string): string
  {
    Text.Trim(text)
  }

  /** The fields `validateForm` checks, in this order; the unit count is not among them. */
  function CheckedFields(f: Form): seq<(string, string)>
  {
    [("Nama", TextOf(f.nama)), ("Alamat", TextOf(f.alamat)), ("No. Telepon", TextOf(f.noTelepon))]
  }

  /** `etJumlahUnit.text.toString().toIntOrNull() ?: 0`: the text is parsed untrimmed. */
  function UnitCount(text: string): int
  {
    Text.ParseInt(text).GetOr(0)
  }

  /** A 32-bit number written in decimal is read back; text that does not parse counts as 0. */
  lemma UnitCountValues(n: int, text: string)
    requires Text.IntMin <= n <= Text.IntMax
    ensures UnitCount(Text.IntToString(n)) == n
    ensures Text.ParseInt(text).None? ==> UnitCount(text) == 0
  {
    Text.ParseIntToString(n);
  }

  /** A unit count written with a space around it does not parse, so it is saved as 0. */
  lemma PaddedUnitCountIsZero(text: string)
    ensures UnitCount(" " + text) == 0
  {
    assert (" " + text)[0] == ' ';
    assert !Text.AllDigits(" " + text) by {
      assert !Text.IsDigit((" " + text)[0]);
    }
  }

  /** The record fields the form supplies. */
  predicate FromForm(d: Models.Document, f: Form)
    requires d.PemasanganCCTV?
  {
    d.nama == TextOf(f.nama) && d.alamat == TextOf(f.alamat) && d.noTelepon == TextOf(f.noTelepon) &&
    d.jumlahUnit == UnitCount(f.jumlahUnit)
  }

  /**
   * The document `saveDocumentWithImages` saves. An edit keeps the edited document's
   * identity; a new document gets an empty id, a fresh code, the current time as creation
   * time and the "active" status.
   */
  function BuildDocument(f: Form, editing: Option<Models.Document>, attachments: Models.Attachments,
                         now: int, yearMonth: string, randomNumber: int): (d: Models.Document)
    ensures d.PemasanganCCTV?
    ensures d.updatedAt == now && d.attachments == attachments
    ensures editing.Some? ==> Purchase.SameIdentity(d, editing.value)
    ensures editing.None? ==>
      d.id == "" && d.status == Purchase.StatusActive && d.createdAt == now && d.createdBy == "" &&
      d.updatedBy == "" &&
      d.uniqueCode == CodeGenerator.GenerateCodeFor(Models.PemasanganCctvKind, yearMonth, randomNumber)
  {
    Models.PemasanganCCTV(
      id := if editing.Some? then editing.value.id else "",
      uniqueCode := if editing.Some? then editing.value.uniqueCode
                    else CodeGenerator.GenerateCodeFor(Models.PemasanganCctvKind, yearMonth, randomNumber),
      nama := TextOf(f.nama), alamat := TextOf(f.alamat), noTelepon := TextOf(f.noTelepon),
      jumlahUnit := UnitCount(f.jumlahUnit),
      createdAt := if editing.Some? then editing.value.createdAt else now,
      updatedAt := now,
      createdBy := if editing.Some? then editing.value.createdBy else "",
      updatedBy := if editing.Some? then editing.value.updatedBy else "",
      status := if editing.Some? then editing.value.status else Purchase.StatusActive,
      attachments := attachments)
  }

  /** The saved record carries the form's trimmed text and parsed unit count. */
  lemma BuildDocumentFromForm(f: Form, editing: Option<Models.Document>, attachments: Models.Attachments,
                              now: int, yearMonth: string, randomNumber: int)
    ensures FromForm(BuildDocument(f, editing, attachments, now, yearMonth, randomNumber), f)
  {
  }

  class Fragment {
    var awaitingUpload: bool
    var awaitingSave: bool
    var progressVisible: bool
    var saveEnabled: bool
    /** The document being edited, None for a new one. */
    const editing: Option<Models.Document>
    /** Shows `selectedImages` and owns it: the form edits this list in place. */
    const adapter: DocumentImageAdapter.ImageAdapter
    /** The `uploadFiles` requests made, oldest first. */
    var uploads: seq<Purchase.UploadRequest>
    /** The documents handed to `savePemasanganCCTV`, oldest first. */
    var saves: seq<Models.Document>
    var toasts: seq<string>
    /** The activity was finished with RESULT_OK. */
    var finished: bool

    /** As for the house-purchase form. */
    ghost predicate Valid()
      reads this`progressVisible, this`saveEnabled, this`awaitingUpload
    {
      progressVisible == !saveEnabled &&
      (!saveEnabled ==> awaitingUpload)
    }

    /** `onCreateView`: an edit starts with one item per stored attachment. */
    constructor(editing: Option<Models.Document>)
      requires editing.Some? ==> editing.value.PemasanganCCTV?
      ensures Valid() && fresh(adapter) && this.editing == editing
      ensures !awaitingUpload && !awaitingSave && saveEnabled
      ensures uploads == [] && saves == [] && toasts == [] && !finished
      ensures adapter.images == if editing.Some? then Purchase.AttachmentImages(editing.value.attachments) else []
    {
      this.editing := editing;
      awaitingUpload := false;
      awaitingSave := false;
      progressVisible := false;
      saveEnabled := true;
      adapter := new DocumentImageAdapter.ImageAdapter([], true);
      uploads := [];
      saves := [];
      toasts := [];
      finished := false;
      new;
      if editing.Some? {
        Purchase.AddAttachments(adapter, editing.value.attachments);
      }
    }

    /** The save button: a form with an error shows the first one; otherwise `saveDocument`. */
    method OnSaveClicked(f: Form, emailOk: string -> bool, now: int, yearMonth: string, randomNumber: int)
      requires Valid()
      modifies this`toasts, this`progressVisible, this`saveEnabled, this`awaitingUpload, this`awaitingSave,
               this`uploads, this`saves
      ensures Valid()
      ensures Validation.FormErrors(CheckedFields(f), emailOk) != [] ==>
        toasts == old(toasts) + [Validation.FormErrors(CheckedFields(f), emailOk)[0]] &&
        awaitingUpload == old(awaitingUpload) && awaitingSave == old(awaitingSave) &&
        saveEnabled == old(saveEnabled) && uploads == old(uploads) && saves == old(saves)
      ensures Validation.FormErrors(CheckedFields(f), emailOk) == [] ==>
        toasts == old(toasts) && awaitingUpload && !saveEnabled &&
        (Purchase.Locals(adapter.images) != [] ==>
          !awaitingSave && saves == old(saves) &&
          uploads == old(uploads) + [Purchase.UploadRequestFor(adapter.images, Models.DocTypePemasanganCctv)]) &&
        (Purchase.Locals(adapter.images) == [] ==>
          awaitingSave && uploads == old(uploads) &&
          saves == old(saves) + [BuildDocument(f, editing, Purchase.Merged(adapter.images, []), now, yearMonth, randomNumber)])
    {
      var errors := Validation.ValidateForm(CheckedFields(f), emailOk);
      SaveUnlessErrors(errors, f, now, yearMonth, randomNumber);
    }

    /** The rest of the click handler, given the errors `validateForm` returned. */
    method SaveUnlessErrors(errors: seq<string>, f: Form, now: int, yearMonth: string, randomNumber: int)
      requires Valid()
      modifies this`toasts, this`progressVisible, this`saveEnabled, this`awaitingUpload, this`awaitingSave,
               this`uploads, this`saves
      ensures Valid()
      ensures errors != [] ==>
        toasts == old(toasts) + [errors[0]] &&
        awaitingUpload == old(awaitingUpload) && awaitingSave == old(awaitingSave) &&
        saveEnabled == old(saveEnabled) && uploads == old(uploads) && saves == old(saves)
      ensures errors == [] ==>
        toasts == old(toasts) && awaitingUpload && !saveEnabled &&
        (Purchase.Locals(adapter.images) != [] ==>
          !awaitingSave && saves == old(saves) &&
          uploads == old(uploads) + [Purchase.UploadRequestFor(adapter.images, Models.DocTypePemasanganCctv)]) &&
        (Purchase.Locals(adapter.images) == [] ==>
          awaitingSave && uploads == old(uploads) &&
          saves == old(saves) + [BuildDocument(f, editing, Purchase.Merged(adapter.images, []), now, yearMonth, randomNumber)])
    {
      if |errors| > 0 {
        toasts := toasts + [errors[0]];
        return;
      }
      SaveDocument(f, now, yearMonth, randomNumber);
    }

    /** `saveDocument`: claims the upload, then uploads the local items or saves at once. */
    method SaveDocument(f: Form, now: int, yearMonth: string, randomNumber: int)
      requires Valid()
      modifies this`progressVisible, this`saveEnabled, this`awaitingUpload, this`awaitingSave,
               this`uploads, this`saves
      ensures Valid()
      ensures awaitingUpload && progressVisible && !saveEnabled
      ensures Purchase.Locals(adapter.images) != [] ==>
        !awaitingSave && saves == old(saves) &&
        uploads == old(uploads) + [Purchase.UploadRequestFor(adapter.images, Models.DocTypePemasanganCctv)]
      ensures Purchase.Locals(adapter.images) == [] ==>
        awaitingSave && uploads == old(uploads) &&
        saves == old(saves) + [BuildDocument(f, editing, Purchase.Merged(adapter.images, []), now, yearMonth, randomNumber)]
    {
      progressVisible := true;
      saveEnabled := false;
      awaitingUpload := true;
      awaitingSave := false;
      var locals := Purchase.Locals(adapter.images);
      if |locals| > 0 {
        uploads := uploads + [Purchase.UploadRequestFor(adapter.images, Models.DocTypePemasanganCctv)];
      } else {
        SaveDocumentWithImages([], f, now, yearMonth, randomNumber);
      }
    }

    /** `saveDocumentWithImages`: claims the save and hands over the merged document. */
    method SaveDocumentWithImages(urls: seq<string>, f: Form, now: int, yearMonth: string, randomNumber: int)
      modifies this`awaitingSave, this`saves
      ensures awaitingSave
      ensures saves == old(saves) + [BuildDocument(f, editing, Purchase.Merged(adapter.images, urls), now, yearMonth, randomNumber)]
    {
      awaitingSave := true;
      var all := Purchase.MergeAttachments(adapter.images, urls);
      var doc := BuildDocument(f, editing, all, now, yearMonth, randomNumber);
      saves := saves + [doc];
    }

    /** The `uploadResult` observer, as for the house-purchase form. */
    method OnUploadResult(result: Result<seq<string>>, f: Form, now: int, yearMonth: string, randomNumber: int)
      requires Valid()
      modifies this`awaitingSave, this`saves, this`progressVisible, this`saveEnabled, this`awaitingUpload,
               this`toasts
      ensures Valid()
      ensures !old(awaitingUpload) ==>
        awaitingSave == old(awaitingSave) && saves == old(saves) && progressVisible == old(progressVisible) &&
        saveEnabled == old(saveEnabled) && !awaitingUpload && toasts == old(toasts)
      ensures old(awaitingUpload) && result.Success? ==>
        awaitingUpload && awaitingSave && saveEnabled == old(saveEnabled) && toasts == old(toasts) &&
        saves == old(saves) + [BuildDocument(f, editing, Purchase.Merged(adapter.images, result.value), now, yearMonth, randomNumber)]
      ensures old(awaitingUpload) && result.Failure? ==>
        !awaitingUpload && !progressVisible && saveEnabled && awaitingSave == old(awaitingSave) &&
        saves == old(saves) && toasts == old(toasts) + [Purchase.UploadFailedPrefix + result.message]
    {
      if !awaitingUpload {
        return;
      }
      UploadArrived(result, f, now, yearMonth, randomNumber);
    }

    /** The observer once an upload is awaited: save with the urls, or report the failure. */
    method UploadArrived(result: Result<seq<string>>, f: Form, now: int, yearMonth: string, randomNumber: int)
      requires Valid() && awaitingUpload
      modifies this`awaitingSave, this`saves, this`progressVisible, this`saveEnabled, this`awaitingUpload,
               this`toasts
      ensures Valid()
      ensures result.Success? ==>
        awaitingUpload && awaitingSave && saveEnabled == old(saveEnabled) && toasts == old(toasts) &&
        saves == old(saves) + [BuildDocument(f, editing, Purchase.Merged(adapter.images, result.value), now, yearMonth, randomNumber)]
      ensures result.Failure? ==>
        !awaitingUpload && !progressVisible && saveEnabled && awaitingSave == old(awaitingSave) &&
        saves == old(saves) && toasts == old(toasts) + [Purchase.UploadFailedPrefix + result.message]
    {
      if result.Success? {
        SaveDocumentWithImages(result.value, f, now, yearMonth, randomNumber);
      } else {
        UploadFailed(result.message);
      }
    }

    /** The failure branch of the `uploadResult` observer. */
    method UploadFailed(message: string)
      modifies this`progressVisible, this`saveEnabled, this`awaitingUpload, this`toasts
      ensures !awaitingUpload && !progressVisible && saveEnabled
      ensures toasts == old(toasts) + [Purchase.UploadFailedPrefix + message]
    {
      progressVisible := false;
      saveEnabled := true;
      awaitingUpload := false;
      toasts := toasts + [Purchase.UploadFailedPrefix + message];
    }

    /** The `saveResult` observer, as for the house-purchase form. */
    method OnSaveResult(result: Result<()>)
      requires Valid()
      modifies this`progressVisible, this`saveEnabled, this`awaitingSave, this`awaitingUpload, this`toasts,
               this`finished
      ensures Valid()
      ensures !old(awaitingSave) ==>
        progressVisible == old(progressVisible) && saveEnabled == old(saveEnabled) && !awaitingSave &&
        awaitingUpload == old(awaitingUpload) && toasts == old(toasts) && finished == old(finished)
      ensures old(awaitingSave) ==>
        !awaitingSave && !awaitingUpload && !progressVisible && saveEnabled &&
        (result.Success? ==> toasts == old(toasts) + [Purchase.SavedMessage] && finished) &&
        (result.Failure? ==> toasts == old(toasts) + [Purchase.SaveFailedPrefix + result.message] &&
                             finished == old(finished))
    {
      if !awaitingSave {
        return;
      }
      progressVisible := false;
      saveEnabled := true;
      awaitingSave := false;
      awaitingUpload := false;
      if result.Success? {
        toasts := toasts + [Purchase.SavedMessage];
        finished := true;
      } else {
        toasts := toasts + [Purchase.SaveFailedPrefix + result.message];
      }
    }

    /** The delete button of the item at `position`: that item leaves the list. */
    method OnDeleteClicked(position: nat)
      requires position < |adapter.images|
      modifies adapter`images
      ensures adapter.images == DocumentImageAdapter.RemovedAt(old(adapter.images), position)
    {
      adapter.images := adapter.images[..position] + adapter.images[position + 1..];
    }

    /** `onActivityResult`: a picking result appends one item per returned uri. */
    method OnActivityResult(requestCode: int, resultCode: int, clip: seq<string>, single: Option<string>,
                            clock: nat -> int)
      modifies adapter`images
      ensures adapter.images == old(adapter.images) +
        (if requestCode == RequestImagePick && resultCode == Purchase.ResultOk
         then Purchase.PickedImages(clip, single, clock) else [])
    {
      if requestCode == RequestImagePick && resultCode == Purchase.ResultOk {
        Purchase.AddPicked(adapter, clip, single, clock);
      }
    }
  }
}
