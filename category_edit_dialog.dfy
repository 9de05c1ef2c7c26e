/**
  CategoryEditDialog: edits a copy of an item's category and writes it back only when the Ok action
  (Save) is clicked, trimmed, with "Unknown" in place of a blank choice.
 */
module CategoryEditDialog {
  import opened Wrappers
  import opened Text
  import opened Mud
  import opened Domain
  import opened ModalDialog
  import Standard = BarcodeClassifier

  /** The options the category picker offers. */
  const DefaultCategories: seq<string> := ["ASY", "PCA", "Serial Number", "MAC Address", "Deviation", "Unknown"]

  /** The options are exactly the labels of the Standard rule table, so every Standard result can be picked back. */
  lemma DefaultCategoriesAreStandardLabels()
    ensures (set c | c in DefaultCategories) == Standard.Labels
    ensures |DefaultCategories| == |Standard.Labels|
    ensures forall s :: Standard.Classify(s) in DefaultCategories
  {
    assert (set c | c in DefaultCategories) == Standard.Labels by {
      forall c | c in Standard.Labels ensures c in DefaultCategories {
      }
    }
  }

  /** The dialog's two buttons: Cancel, and Save closing Ok with value true. */
  const ActionButtons: seq<DialogAction> := [CancelAction("Cancel"), OkAction("Save", Some(BoolValue(true)), true, Primary, Filled)]

  /** What Save stores for a chosen category: the trimmed choice, or "Unknown" when that is blank. */
  function SavedCategory(category: string): (r: string)
    ensures !IsBlank(r)
    ensures IsBlank(category) ==> r == "Unknown"
    ensures !IsBlank(category) ==> r == Trim(category)
  {
    var selected := Trim(category);
    TrimBlankIffBlank(category);
    if IsBlank(selected) then assert !IsWhiteSpace("Unknown"[0]); "Unknown" else selected
  }

  /** A trimmed text is blank exactly when the text was. */
  lemma TrimBlankIffBlank(s: string)
    ensures IsBlank(Trim(s)) <==> IsBlank(s)
  {
    TrimEmptyIffBlank(s);
    var _ := TrimIsMiddle(s);
  }

  /** Saving is stable: saving a category that was saved before stores it unchanged. */
  lemma SavedCategoryIdempotent(category: string)
    ensures SavedCategory(SavedCategory(category)) == SavedCategory(category)
  {
    TrimIdempotent(category);
    var r := SavedCategory(category);
    if r == "Unknown" {
      assert Trim(r) == r by {
        assert !IsWhiteSpace(r[0]) && !IsWhiteSpace(r[|r| - 1]);
      }
    }
  }

  class CategoryEditDialog {
    /** The BarcodeItem parameter; the item is written back through it. */
    var barcodeItem: Option<ScanItem>
    /** The local copy being edited. */
    var category: string
    var isBusy: bool

    constructor (item: Option<ScanItem>)
      ensures barcodeItem == item && category == "" && !isBusy
    {
      barcodeItem := item;
      category := "";
      isBusy := false;
    }

    /** OnParametersSet: the local copy starts as the item's category, or "" without an item. */
    method OnParametersSet()
      modifies this
      ensures category == (if barcodeItem.Some? then barcodeItem.value.category else "")
      ensures barcodeItem == old(barcodeItem) && isBusy == old(isBusy)
    {
      category := if barcodeItem.Some? then barcodeItem.value.category else "";
    }

    /** The category picker changes only the local copy. */
    method Select(choice: string)
      modifies this
      ensures category == choice && barcodeItem == old(barcodeItem) && isBusy == old(isBusy)
    {
      category := choice;
    }

    /**
      HandleActionClick: any action that does not close Ok leaves the item alone. Ok stores the saved
      category; with no item the assignment throws, and isBusy is false afterwards either way.
     */
    method HandleActionClick(action: DialogAction) returns (threw: bool)
      modifies this
      ensures action.closeBehavior != CloseOk ==> !threw && barcodeItem == old(barcodeItem) && isBusy == old(isBusy)
      ensures action.closeBehavior == CloseOk ==> !isBusy && threw == old(barcodeItem).None?
      ensures action.closeBehavior == CloseOk && old(barcodeItem).Some? ==>
        barcodeItem == Some(old(barcodeItem).value.(category := SavedCategory(old(category))))
      ensures old(barcodeItem).None? ==> barcodeItem.None?
      ensures category == old(category)
    {
      if action.closeBehavior != CloseOk {
        return false;
      }
      isBusy := true;
      var selected := Trim(category);
      if barcodeItem.None? {
        isBusy := false;
        return true;
      }
      barcodeItem := Some(barcodeItem.value.(category := if IsBlank(selected) then "Unknown" else selected));
      TrimBlankIffBlank(category);
      isBusy := false;
      threw := false;
    }
  }

  /** Cancel never changes the item: only the Save button writes. */
  method CancelKeepsItem(item: ScanItem, choice: string) returns (after: ScanItem)
    ensures after == item
  {
    var dialog := new CategoryEditDialog(Some(item));
    dialog.OnParametersSet();
    dialog.Select(choice);
    var _ := dialog.HandleActionClick(ActionButtons[0]);
    after := dialog.barcodeItem.value;
  }
}
