/**
 * The `DragAndDropFileUpload` component (frontend/src/components/drag-zone.tsx) as an
 * object: its React state and its `dragCounter` ref are fields, and each event handler
 * is a method that updates them.
 */
module DragZone {
  import opened Wrappers
  import opened FileAdmission

  const DefaultMaxFiles: int := 5
  const EmptySelectionMessage: string := "Please select files to upload."
  const SimulatedSuccessMessage: string := "Files uploaded successfully!"
  const UploadFailedPrefix: string := "Upload failed: "

  /**
   * The loop of `handleFiles`: each candidate in turn, counting this call's admissions
   * in `filesAdded` and checking duplicates against the selection from before the call.
   */
  method AdmitFiles(allowed: seq<string>, maxFiles: int, selected: seq<File>, files: seq<File>)
    returns (newFiles: seq<File>)
    ensures newFiles == Scan(allowed, maxFiles, selected, files).admitted
  {
    newFiles := [];
    var filesAdded := 0;
    var i := 0;
    while i < |files|
      invariant 0 <= i <= |files|
      invariant newFiles == Scan(allowed, maxFiles, selected, files[..i]).admitted
      invariant filesAdded == |newFiles|
    {
      var file := files[i];
      ScanAdmittedStep(allowed, maxFiles, selected, files[..i + 1]);
      assert files[..i + 1][..i] == files[..i];
      if ValidateFileType(allowed, file) {
        var isDuplicate := IsDuplicate(selected, file);
        if !isDuplicate && filesAdded < maxFiles {
          newFiles := newFiles + [file];
          filesAdded := filesAdded + 1;
        }
      }
      i := i + 1;
    }
    assert files[..i] == files;
  }

  class DragAndDropFileUpload {
    /** Props. `hasUploadHandler` says whether an `onUpload` callback was passed. */
    const maxFiles: int
    const allowedFileTypes: seq<string>
    const hasUploadHandler: bool

    /** State. */
    var isDraggingOverDropzone: bool
    var showGlobalDropzone: bool
    var selectedFiles: seq<File>
    var uploading: bool
    var message: string
    /** The window-level enter/leave balance; JavaScript does not stop it from going negative. */
    var dragCounter: int

    /** The overlay is shown exactly while more drag-enters than drag-leaves are outstanding. */
    predicate Valid()
      reads this
    {
      showGlobalDropzone <==> dragCounter >= 1
    }

    /** Mounting the component: `maxFiles` defaults to 5 and `allowedFileTypes` to the empty list. */
    constructor (maxFiles: Option<int>, allowedFileTypes: Option<seq<string>>, hasUploadHandler: bool)
      ensures Valid()
      ensures this.maxFiles == (if maxFiles.Some? then maxFiles.value else DefaultMaxFiles)
      ensures this.allowedFileTypes == (if allowedFileTypes.Some? then allowedFileTypes.value else [])
      ensures this.hasUploadHandler == hasUploadHandler
      ensures !isDraggingOverDropzone && !showGlobalDropzone && !uploading
      ensures selectedFiles == [] && message == "" && dragCounter == 0
    {
      this.maxFiles := if maxFiles.Some? then maxFiles.value else DefaultMaxFiles;
      this.allowedFileTypes := if allowedFileTypes.Some? then allowedFileTypes.value else [];
      this.hasUploadHandler := hasUploadHandler;
      isDraggingOverDropzone := false;
      showGlobalDropzone := false;
      selectedFiles := [];
      uploading := false;
      message := "";
      dragCounter := 0;
    }

    /** Window `dragenter`: one more outstanding enter; the overlay appears when the count reaches 1. */
    method OnWindowDragEnter()
      requires Valid()
      modifies this
      ensures Valid()
      ensures dragCounter == old(dragCounter) + 1
      ensures showGlobalDropzone == (old(showGlobalDropzone) || dragCounter == 1)
      ensures isDraggingOverDropzone == old(isDraggingOverDropzone) && selectedFiles == old(selectedFiles)
      ensures uploading == old(uploading) && message == old(message)
    {
      dragCounter := dragCounter + 1;
      if dragCounter == 1 {
        showGlobalDropzone := true;
      }
    }

    /** Window `dragleave`: one fewer; the overlay disappears when the count reaches 0. */
    method OnWindowDragLeave()
      requires Valid()
      modifies this
      ensures Valid()
      ensures dragCounter == old(dragCounter) - 1
      ensures showGlobalDropzone == (old(showGlobalDropzone) && dragCounter != 0)
      ensures isDraggingOverDropzone == old(isDraggingOverDropzone) && selectedFiles == old(selectedFiles)
      ensures uploading == old(uploading) && message == old(message)
    {
      dragCounter := dragCounter - 1;
      if dragCounter == 0 {
        showGlobalDropzone := false;
      }
    }

    /** Window `drop`: the count resets and the overlay hides. */
    method OnWindowDrop()
      modifies this
      ensures Valid()
      ensures dragCounter == 0 && !showGlobalDropzone
      ensures isDraggingOverDropzone == old(isDraggingOverDropzone) && selectedFiles == old(selectedFiles)
      ensures uploading == old(uploading) && message == old(message)
    {
      dragCounter := 0;
      showGlobalDropzone := false;
    }

    /**
     * `handleFiles`: `None` stands for a `null` file list and changes nothing. Otherwise
     * the admitted candidates are appended, in order, after the files selected before the
     * call, and are also returned as the list handed to `onFilesSelected`.
     */
    method HandleFiles(files: Option<seq<File>>) returns (reported: Option<seq<File>>)
      requires Valid()
      modifies this
      ensures Valid()
      ensures files.None? ==> reported.None? && selectedFiles == old(selectedFiles) && message == old(message)
      ensures files.Some? ==>
        var admitted := Scan(allowedFileTypes, maxFiles, old(selectedFiles), files.value).admitted;
        reported == Some(admitted) && selectedFiles == old(selectedFiles) + admitted
      ensures isDraggingOverDropzone == old(isDraggingOverDropzone) && uploading == old(uploading)
      ensures dragCounter == old(dragCounter) && showGlobalDropzone == old(showGlobalDropzone)
    {
      if files.None? {
        return None;
      }
      var newFiles := AdmitFiles(allowedFileTypes, maxFiles, selectedFiles, files.value);
      if |newFiles| > 0 {
        selectedFiles := selectedFiles + newFiles;
      }
      reported := Some(newFiles);
    }

    /** The hidden file input's `change` event. */
    method OnFileInputChange(files: Option<seq<File>>)
      requires Valid()
      modifies this
      ensures Valid()
      ensures files.None? ==> selectedFiles == old(selectedFiles) && message == ""
      ensures files.Some? ==>
        selectedFiles == old(selectedFiles) + Scan(allowedFileTypes, maxFiles, old(selectedFiles), files.value).admitted
      ensures isDraggingOverDropzone == old(isDraggingOverDropzone) && uploading == old(uploading)
      ensures dragCounter == old(dragCounter) && showGlobalDropzone == old(showGlobalDropzone)
    {
      message := "";
      var _ := HandleFiles(files);
    }

    /** `dragover` on the overlay: it is highlighted and the message is cleared. */
    method OnDropzoneDragOver()
      modifies this
      ensures isDraggingOverDropzone && message == ""
      ensures selectedFiles == old(selectedFiles) && uploading == old(uploading)
      ensures dragCounter == old(dragCounter) && showGlobalDropzone == old(showGlobalDropzone)
    {
      isDraggingOverDropzone := true;
      message := "";
    }

    /** `dragleave` on the overlay: the highlight goes away. */
    method OnDropzoneDragLeave()
      modifies this
      ensures !isDraggingOverDropzone
      ensures selectedFiles == old(selectedFiles) && uploading == old(uploading) && message == old(message)
      ensures dragCounter == old(dragCounter) && showGlobalDropzone == old(showGlobalDropzone)
    {
      isDraggingOverDropzone := false;
    }

    /** `drop` on the overlay: the highlight goes away and the dropped files are processed. */
    method OnDropzoneDrop(files: Option<seq<File>>)
      requires Valid()
      modifies this
      ensures Valid()
      ensures !isDraggingOverDropzone
      ensures files.None? ==> selectedFiles == old(selectedFiles) && message == ""
      ensures files.Some? ==>
        selectedFiles == old(selectedFiles) + Scan(allowedFileTypes, maxFiles, old(selectedFiles), files.value).admitted
      ensures uploading == old(uploading)
      ensures dragCounter == old(dragCounter) && showGlobalDropzone == old(showGlobalDropzone)
    {
      isDraggingOverDropzone := false;
      message := "";
      var _ := HandleFiles(files);
    }

    /** `handleRemoveFile`: drops every entry that is this very file and clears the message. */
    method HandleRemoveFile(fileToRemove: File)
      modifies this
      ensures selectedFiles == Without(old(selectedFiles), fileToRemove)
      ensures forall x :: x in selectedFiles ==> x.id != fileToRemove.id
      ensures message == ""
      ensures isDraggingOverDropzone == old(isDraggingOverDropzone) && uploading == old(uploading)
      ensures dragCounter == old(dragCounter) && showGlobalDropzone == old(showGlobalDropzone)
    {
      selectedFiles := Without(selectedFiles, fileToRemove);
      message := "";
    }

    /**
     * The synchronous part of `handleUploadClick`. An empty selection only sets a message
     * and never starts an upload; otherwise `uploading` becomes true and `started` says
     * that the upload (the callback, or the simulated delay) is now awaited.
     */
    method HandleUploadClick() returns (started: bool)
      modifies this
      ensures started <==> |old(selectedFiles)| > 0
      ensures !started ==> message == EmptySelectionMessage && uploading == old(uploading)
      ensures started ==> message == "" && uploading
      ensures selectedFiles == old(selectedFiles) && isDraggingOverDropzone == old(isDraggingOverDropzone)
      ensures dragCounter == old(dragCounter) && showGlobalDropzone == old(showGlobalDropzone)
    {
      if |selectedFiles| == 0 {
        message := EmptySelectionMessage;
        return false;
      }
      uploading := true;
      message := "";
      started := true;
    }

    /**
     * The rest of `handleUploadClick`, once the awaited upload settles. `failure` is the
     * error message the `onUpload` callback rejected with, if any. The simulation used when
     * there is no callback always succeeds and clears the selection.
     */
    method FinishUpload(failure: Option<string>)
      modifies this
      ensures !uploading
      ensures hasUploadHandler && failure.Some? ==>
        message == UploadFailedPrefix + failure.value && selectedFiles == old(selectedFiles)
      ensures hasUploadHandler && failure.None? ==>
        message == old(message) && selectedFiles == old(selectedFiles)
      ensures !hasUploadHandler ==> message == SimulatedSuccessMessage && selectedFiles == []
      ensures isDraggingOverDropzone == old(isDraggingOverDropzone)
      ensures dragCounter == old(dragCounter) && showGlobalDropzone == old(showGlobalDropzone)
    {
      if hasUploadHandler {
        if failure.Some? {
          message := UploadFailedPrefix + failure.value;
        }
      } else {
        message := SimulatedSuccessMessage;
        selectedFiles := [];
      }
      uploading := false;
    }
  }
}
