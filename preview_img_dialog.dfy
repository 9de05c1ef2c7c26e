/** PreviewImgDialog: a carousel over the groups it is given, with delete and index clamping. */
module PreviewImgDialog {
  import opened Wrappers
  import opened Lists
  import opened Domain

  /** Math.Clamp(value, min, max), which demands min <= max. */
  function Clamp(value: int, min: int, max: int): (r: int)
    requires min <= max
    ensures min <= r <= max
    ensures min <= value <= max ==> r == value
    ensures value < min ==> r == min
    ensures value > max ==> r == max
  {
    if value < min then min else if value > max then max else value
  }

  class PreviewImgDialog {
    var imageFiles: seq<Group>
    var selectedFileIndex: int

    constructor (files: seq<Group>, index: int)
      ensures imageFiles == files && selectedFileIndex == index
    {
      imageFiles := files;
      selectedFileIndex := index;
    }

    /** SelectedImageFile: the file at the selected index, or null when the index is out of range. */
    function SelectedImageFile(): (r: Option<Group>)
      reads this
      ensures r.None? <==> !(0 <= selectedFileIndex < |imageFiles|)
      ensures r.Some? ==> r.value == imageFiles[selectedFileIndex]
    {
      if 0 <= selectedFileIndex < |imageFiles| then Some(imageFiles[selectedFileIndex]) else None
    }

    /**
      DeleteAsync(index): nothing happens on an empty list or an out-of-range index. Otherwise exactly that
      file goes; when none is left the dialog is cancelled, else the selection moves to the clamped index.
     */
    method Delete(index: int) returns (cancelled: bool)
      modifies this
      ensures !(0 <= index < |old(imageFiles)|) ==>
        !cancelled && imageFiles == old(imageFiles) && selectedFileIndex == old(selectedFileIndex)
      ensures 0 <= index < |old(imageFiles)| ==> imageFiles == RemoveAt(old(imageFiles), index)
      ensures 0 <= index < |old(imageFiles)| ==> (cancelled <==> imageFiles == [])
      ensures cancelled ==> selectedFileIndex == old(selectedFileIndex)
      ensures 0 <= index < |old(imageFiles)| && !cancelled ==>
        selectedFileIndex == Clamp(index, 0, |imageFiles| - 1) && SelectedImageFile().Some?
    {
      if |imageFiles| == 0 {
        return false;
      }
      if 0 <= index < |imageFiles| {
        imageFiles := RemoveAt(imageFiles, index);
        if |imageFiles| == 0 {
          return true;
        }
        selectedFileIndex := Clamp(index, 0, |imageFiles| - 1);
      }
      cancelled := false;
    }
  }

  /**
    The clamped index after a delete: the file after the deleted one, or the new last file when the
    last one was deleted.
   */
  lemma DeleteSelectsNext(files: seq<Group>, index: nat)
    requires index < |files| && |files| > 1
    ensures var rest := RemoveAt(files, index);
      var i := Clamp(index, 0, |rest| - 1);
      (index < |files| - 1 ==> rest[i] == files[index + 1]) && (index == |files| - 1 ==> rest[i] == files[index - 1])
  {
  }
}
