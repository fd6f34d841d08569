/**
 * The state the upload page keeps, and the event handlers that move it:
 * choosing a file (by drop or by the file picker), the decoded image
 * reporting its dimensions, processing, and reset.
 */
module ImageUpload {
  import opened Wrappers
  import opened FileValidation

  /** The values the progress loop writes, in order: 0, 10, ..., 100. */
  function ProgressSteps(): seq<int>
  {
    seq(11, k => 10 * k)
  }

  /** The progress loop writes eleven non-decreasing percentages, ending at 100. */
  lemma ProgressStepsShape()
    ensures |ProgressSteps()| == 11 && ProgressSteps()[0] == 0 && ProgressSteps()[10] == 100
    ensures forall i, j :: 0 <= i <= j < 11 ==> ProgressSteps()[i] <= ProgressSteps()[j]
    ensures forall i :: 0 <= i < 11 ==> 0 <= ProgressSteps()[i] <= 100
  {
  }

  class UploadPage {
    var selectedFile: Option<File>
    var fileValidation: Validation
    var uploadProgress: int
    var isProcessing: bool

    /**
     * What every handler keeps: a valid record carries no error, belongs to
     * the selected file (whose size it shows) and has a resolution label; an
     * error is one of the two messages; progress is a multiple of ten.
     */
    ghost predicate Valid()
      reads this
    {
      WellFormed(fileValidation) &&
      (fileValidation.isValid ==>
        selectedFile.Some? && Acceptable(selectedFile.value) &&
        fileValidation.size == Some(SizeLabel(selectedFile.value.size)) &&
        fileValidation.resolution.Some?) &&
      (fileValidation.error.Some? ==> fileValidation.error.value in {TypeError, SizeError}) &&
      0 <= uploadProgress <= 100 && uploadProgress % 10 == 0
    }

    ghost predicate IsInitial()
      reads this
    {
      selectedFile == None && fileValidation == Unvalidated &&
      uploadProgress == 0 && !isProcessing
    }

    constructor ()
      ensures Valid() && IsInitial()
    {
      selectedFile := None;
      fileValidation := Unvalidated;
      uploadProgress := 0;
      isProcessing := false;
    }

    /** The enable condition of the Process Image button. */
    function ProcessEnabled(): (enabled: bool)
      reads this
      requires Valid()
      ensures enabled ==> selectedFile.Some? && ValidateFile(selectedFile.value).isValid
      ensures enabled ==> !isProcessing && fileValidation.error.None?
    {
      selectedFile.Some? && fileValidation.isValid && !isProcessing
    }

    /**
     * handleDrop / handleFileSelect: the first file, if there is one, is
     * validated; an accepted file becomes the selection with its record, a
     * rejected one replaces only the record and leaves the selection as it was.
     */
    method ChooseFile(files: seq<File>)
      requires Valid()
      modifies this
      ensures Valid()
      ensures uploadProgress == old(uploadProgress) && isProcessing == old(isProcessing)
      ensures files == [] ==> selectedFile == old(selectedFile) && fileValidation == old(fileValidation)
      ensures files != [] && Acceptable(files[0]) ==>
        selectedFile == Some(files[0]) && fileValidation == ValidateFile(files[0])
      ensures files != [] && !Acceptable(files[0]) ==>
        selectedFile == old(selectedFile) && fileValidation == ValidateFile(files[0]) &&
        fileValidation.error.Some? && !ProcessEnabled()
    {
      if files != [] {
        var file := files[0];
        var validation := ValidateFile(file);
        if validation.isValid {
          selectedFile := Some(file);
          fileValidation := validation;
        } else {
          fileValidation := validation;
        }
      }
    }

    /**
     * The decoded image's `onload`: the current record, whatever it is by
     * then, gets the resolution label; nothing else changes.
     */
    method ResolutionLoaded(width: nat, height: nat)
      requires Valid()
      modifies this
      ensures Valid()
      ensures fileValidation == old(fileValidation).(resolution := Some(ResolutionLabel(width, height)))
      ensures fileValidation.isValid == old(fileValidation.isValid)
      ensures fileValidation.error == old(fileValidation.error) && fileValidation.size == old(fileValidation.size)
      ensures selectedFile == old(selectedFile) && uploadProgress == old(uploadProgress)
      ensures isProcessing == old(isProcessing)
    {
      fileValidation := fileValidation.(resolution := Some(ResolutionLabel(width, height)));
    }

    /**
     * handleProcessImage, its delays taken as instantaneous. Returns the values
     * written to the progress bar in order: the reset to 0, then 0, 10, ..., 100.
     * Without a selected, validated file nothing happens.
     */
    method ProcessImage() returns (shown: seq<int>)
      requires Valid()
      modifies this
      ensures Valid()
      ensures selectedFile == old(selectedFile) && fileValidation == old(fileValidation)
      ensures !(old(selectedFile).Some? && old(fileValidation).isValid) ==>
        shown == [] && uploadProgress == old(uploadProgress) && isProcessing == old(isProcessing)
      ensures old(selectedFile).Some? && old(fileValidation).isValid ==>
        shown == [0] + ProgressSteps() && uploadProgress == 100 && !isProcessing
    {
      shown := [];
      if selectedFile.None? || !fileValidation.isValid {
        return;
      }
      isProcessing := true;
      uploadProgress := 0;
      shown := [0];
      var i := 0;
      while i <= 100
        invariant 0 <= i <= 110 && i % 10 == 0
        invariant shown == [0] + ProgressSteps()[..i / 10]
        invariant uploadProgress == shown[|shown| - 1]
        invariant 0 <= uploadProgress <= 100 && uploadProgress % 10 == 0
        invariant i > 0 ==> uploadProgress == i - 10
        invariant selectedFile == old(selectedFile) && fileValidation == old(fileValidation)
        decreases 110 - i
      {
        assert ProgressSteps()[..i / 10 + 1] == ProgressSteps()[..i / 10] + [i];
        uploadProgress := i;
        shown := shown + [i];
        i := i + 10;
      }
      assert ProgressSteps()[..11] == ProgressSteps();
      isProcessing := false;
    }

    /** resetUpload: back to the initial state, whatever the state was. */
    method Reset()
      modifies this
      ensures Valid() && IsInitial()
    {
      selectedFile := None;
      fileValidation := Unvalidated;
      uploadProgress := 0;
      isProcessing := false;
    }
  }
}
