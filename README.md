# Arista ZebraTablet: the barcode pipeline after decoding

Arista ZebraTablet is a .NET MAUI tablet app with a Blazor web twin. Its operators scan or photograph
the barcodes on network hardware. This project models, in Dafny, what the app does with a barcode once
its text is known:

- **Classification.** Two ordered rule tables of regular expressions label a barcode: the Standard
  table and the Unique table. Each rule's regex is written out as a predicate, with the .NET matching
  rules that matter: `$` also matches before one final line feed, and a pattern without `^` matches
  anywhere in the text.
- **Decoding services.** Two BarcodeDetectorService classes, one for the device and one for the web,
  turn the decoder's symbols into scanned items: one item per symbol, classified under the selected
  mode. The MAUI one also holds the live-scan group and the completed groups.
- **Session services.**
  - GroupingService keeps one barcode per category in the current machine-scan group.
  - ScanResultsService keeps a newest-first list of results. A case-insensitive seen-set keeps
    duplicates out of it.
- **Storage.** Two ScannedBarcodeService classes write a batch to the ScannedBarcodes table. Each
  value is trimmed, kept once per batch (first occurrence wins, case-sensitive) and only saved if the
  table lacks it. The web service also lists rows newest first and deletes by id; on the device those
  two are no-ops. Both answer with ServiceResponse records.
- **Pages and components.**
  - the Home page: image intake, the decode pass, expand/collapse, the upload confirmation and save;
  - the Reorder page: flattening the groups into draggable entries, and the drag-and-drop move;
  - the BarcodeScannerResult and BarcodeGroupList components;
  - the CategoryEdit, PreviewImg and Modal dialogs.

Each core source file is one module. Records are datatypes. A service or component whose fields the
source updates in place is a class. Its operations are methods whose `ensures` give the whole new
state in terms of specification functions, and lemmas prove what the source promises about those
functions.

Shared modules:
- `Text`: white space, Trim, ordinal case folding, `string.Join("\n", …)` with its inverse, decimal
  formatting with its inverse.
- `Lists`: List and LINQ operations, including the RemoveAt-then-Insert move.
- `Patterns`: the regexes.
- `Submission` and `ScannedBarcodeStore`: the batch pipeline and the table.
- `GroupLists`: the group queries.
- `Decoding`: the decoder as uninterpreted functions.

Inputs the model takes as parameters:
- the clock (`now`) and fresh Guids;
- dialog confirmations, as booleans;
- the decoder, as a function;
- the outcome of a database call, as a `Fault` value;
- the outcome of the barcode service call the Home page makes, as a `SaveCall` value.

Clipboard and snackbar texts are returned values.

## Model

| member | source | states |
|---|---|---|
| BarcodeClassifier.Classify | Arista_ZebraTablet/Arista_ZebraTablet.Shared/Application/Regex/BarcodeClassifier.cs:5-23 | The result is always one of the six Standard labels and is never empty. |
| BarcodeClassifier.ClassifyCharacterised | Arista_ZebraTablet/Arista_ZebraTablet.Shared/Application/Regex/BarcodeClassifier.cs:5-23 | Each label holds exactly when its own pattern matches. The one exception is PCA, which also needs no ASY match. So the only rule order that matters is ASY before PCA. Unknown holds exactly when no pattern matches. |
| BarcodeClassifier.AssemblyBeatsBoard | Arista_ZebraTablet/Arista_ZebraTablet.Shared/Application/Regex/BarcodeClassifier.cs:16-20 | First match wins: text with both an ASY code and a PCA code is an ASY. |
| BarcodeClassifier.AssemblyInAnyContext | Arista_ZebraTablet/Arista_ZebraTablet.Shared/Application/Regex/BarcodeClassifier.cs:16-17 | The ASY rule is a containment test: any text before or after an ASY keeps it an ASY. |
| BarcodeClassifier.BoardInAnyContext | Arista_ZebraTablet/Arista_ZebraTablet.Shared/Application/Regex/BarcodeClassifier.cs:19-20 | Surrounding text keeps a PCA match. The result is then PCA, or ASY if the added text brings an ASY code. |
| BarcodeClassifier.SerialExample | Arista_ZebraTablet/Arista_ZebraTablet.Shared/Application/Regex/BarcodeClassifier.cs:7-8 | "ABC1234WXYZ" (3 letters, 4 digits, 4 alphanumerics) is a Serial Number. |
| BarcodeClassifier.DeviationExamples | Arista_ZebraTablet/Arista_ZebraTablet.Shared/Application/Regex/BarcodeClassifier.cs:10-11 | "dev-12345" and "DEV12345" are Deviations: the tag in any case, then an optional dash. |
| BarcodeClassifier.DoubleDashIsUnknown | Arista_ZebraTablet/Arista_ZebraTablet.Shared/Application/Regex/BarcodeClassifier.cs:10-11 | "DEV--12345" is no Deviation (at most one dash); it matches no rule and is Unknown. |
| BarcodeClassifier.MacExample | Arista_ZebraTablet/Arista_ZebraTablet.Shared/Application/Regex/BarcodeClassifier.cs:13-14 | "AA:BB:CC:DD:EE:FF" is a MAC Address. |
| BarcodeClassifier.AssemblyExample | Arista_ZebraTablet/Arista_ZebraTablet.Shared/Application/Regex/BarcodeClassifier.cs:16-17 | "ASY-12345-67-A1" is an ASY. |
| BarcodeClassifier.BoardExample | Arista_ZebraTablet/Arista_ZebraTablet.Shared/Application/Regex/BarcodeClassifier.cs:19-20 | "PCA 12345 67 89" is a PCA: it matches the PCA rule and no earlier rule. |
| BarcodeClassifier.BoardExampleIsNotAnchored | Arista_ZebraTablet/Arista_ZebraTablet.Shared/Application/Regex/BarcodeClassifier.cs:7-14 | "PCA 12345 67 89" matches none of the three anchored rules that come before the PCA rule. |
| BarcodeClassifier.BoardExampleHasNoAssembly | Arista_ZebraTablet/Arista_ZebraTablet.Shared/Application/Regex/BarcodeClassifier.cs:16-17 | "PCA 12345 67 89" contains no ASY code, so the ASY rule does not take it. |
| BarcodeClassifier.BoardExampleMatches | Arista_ZebraTablet/Arista_ZebraTablet.Shared/Application/Regex/BarcodeClassifier.cs:19-20 | The PCA pattern matches "PCA 12345 67 89": five digits and two digit pairs, separated by single spaces. |
| BarcodeClassifier.UnknownExample | Arista_ZebraTablet/Arista_ZebraTablet.Shared/Application/Regex/BarcodeClassifier.cs:22 | "zzz" matches no rule and is Unknown. |
| UniqueBarcodeClassifier.Classify | Arista_ZebraTablet/Arista_ZebraTablet.Shared/Application/Regex/UniqueBarcodeClassifier.cs:5-30 | The result is always one of the seven Unique labels and is never empty. |
| UniqueBarcodeClassifier.ClassifyCharacterised | Arista_ZebraTablet/Arista_ZebraTablet.Shared/Application/Regex/UniqueBarcodeClassifier.cs:5-30 | Each label holds exactly when its own pattern matches. The one exception is PCA, which also needs no Japan assembly match: that overlap is the only one. Unknown holds exactly when no pattern matches. |
| UniqueBarcodeClassifier.SharedRulesAgree | Arista_ZebraTablet/Arista_ZebraTablet.Shared/Application/Regex/UniqueBarcodeClassifier.cs:14-21 | The Deviation, MAC Address and ASY answers of the two tables agree on every input. |
| UniqueBarcodeClassifier.StandardSerialIsBoard | Arista_ZebraTablet/Arista_ZebraTablet.Shared/Application/Regex/UniqueBarcodeClassifier.cs:23-27 | The Standard serial shape is a Serial Number under Standard. Under Unique it is ASY-OTL when it is a Japan assembly number, and PCA otherwise. |
| UniqueBarcodeClassifier.SerialExample | Arista_ZebraTablet/Arista_ZebraTablet.Shared/Application/Regex/UniqueBarcodeClassifier.cs:7-8 | "M48L-B12-ABCDE-F" is a Serial Number. |
| UniqueBarcodeClassifier.JapanExample | Arista_ZebraTablet/Arista_ZebraTablet.Shared/Application/Regex/UniqueBarcodeClassifier.cs:23-27 | "JPN1234A567" fits the PCA shape yet is ASY-OTL, because that rule comes earlier. |
| UniqueBarcodeClassifier.LowerCaseJapanExample | Arista_ZebraTablet/Arista_ZebraTablet.Shared/Application/Regex/UniqueBarcodeClassifier.cs:23-27 | ASY-OTL is case-sensitive: "jpn1234A567" is PCA. |
| UniqueBarcodeClassifier.BoardExample | Arista_ZebraTablet/Arista_ZebraTablet.Shared/Application/Regex/UniqueBarcodeClassifier.cs:26-27 | "ABC1234WXYZ" is PCA here and Serial Number under Standard. |
| UniqueBarcodeClassifier.UnknownExample | Arista_ZebraTablet/Arista_ZebraTablet.Shared/Application/Regex/UniqueBarcodeClassifier.cs:29 | "zzz" is Unknown. |
| Patterns.AnchoredHaveNoTaggedCode | Arista_ZebraTablet/Arista_ZebraTablet.Shared/Application/Regex/BarcodeClassifier.cs:7-20 | A string matching an anchored rule (serial, deviation, MAC, Japan assembly) contains no ASY or PCA code. |
| Patterns.ModelSerialHasNoAssembly | Arista_ZebraTablet/Arista_ZebraTablet.Shared/Application/Regex/UniqueBarcodeClassifier.cs:7-21 | A model serial number contains no ASY code. |
| Patterns.JapanAssemblyIsStandardSerial | Arista_ZebraTablet/Arista_ZebraTablet.Shared/Application/Regex/UniqueBarcodeClassifier.cs:23-27 | Every Japan assembly number also matches the PCA (letters-digits-alphanumerics) pattern. |
| Decoding.CategoryFor | Arista_ZebraTablet/Arista_ZebraTablet/Services/BarcodeDetectorService.cs:207-212 | Standard mode gives a Standard label, Unique mode a Unique label, and any other mode value gives "Unknown". |
| Decoding.ItemsForValues | Arista_ZebraTablet/Arista_ZebraTablet/Services/BarcodeDetectorService.cs:203-221 | Decoded items carry the symbols' texts in order, and each item's category is its own value's classification. |
| Decoding.ItemsForUnique | Arista_ZebraTablet/Arista_ZebraTablet/Services/BarcodeDetectorService.cs:203-221 | The items are determined by the symbols: nothing is filtered, merged or reordered. |
| Decoding.Texts | Arista_ZebraTablet/Arista_ZebraTablet/Services/BarcodeDetectorService.cs:202-206 | The decoded texts are the symbols' texts, in the decoder's order. |
| Decoding.ItemsForSnoc | Arista_ZebraTablet/Arista_ZebraTablet/Services/BarcodeDetectorService.cs:205-221 | Mapping one more symbol appends exactly that symbol's item, classified under the mode. |
| WebBarcodeDetector.BarcodeDetectorService.DecodeFromImage | Arista_ZebraTablet/Arista_ZebraTablet.Web/Services/BarcodeDetectorService.cs:28-98 | The call returns one item per decoded symbol, classified with the Standard table. An undecodable image gives no items. Null bytes, or a failed resize, end in the exception's message. |
| WebBarcodeDetector.BarcodeDetectorService.DecodeFromImageWithMode | Arista_ZebraTablet/Arista_ZebraTablet.Web/Services/BarcodeDetectorService.cs:99-169 | The same as DecodeFromImage, but classified under the given mode. |
| Decoding.MapSymbols | Arista_ZebraTablet/Arista_ZebraTablet.Web/Services/BarcodeDetectorService.cs:148-166 | The mapping loop both decoder services run yields exactly one item per symbol, in order, each classified under the mode. |
| WebBarcodeDetector.BarcodeDetectorService.constructor | Arista_ZebraTablet/Arista_ZebraTablet.Web/Services/BarcodeDetectorService.cs:171-173 | The service starts with no groups, nothing selected and the camera as source. |
| MauiBarcodeDetector.BarcodeDetectorService.constructor | Arista_ZebraTablet/Arista_ZebraTablet/Services/BarcodeDetectorService.cs:53-83 | The service starts with an empty current group, no completed groups and nothing selected. |
| MauiBarcodeDetector.BarcodeDetectorService.CompleteCurrentGroup | Arista_ZebraTablet/Arista_ZebraTablet/Services/BarcodeDetectorService.cs:59-63 | The old current group is appended after the earlier groups, and a new empty group takes its place. |
| MauiBarcodeDetector.BarcodeDetectorService.DecodeFromImage | Arista_ZebraTablet/Arista_ZebraTablet/Services/BarcodeDetectorService.cs:144-224 | The result is one item per decoded symbol, in order, classified under the mode. Null or empty bytes, an undecodable image and a failed resize all give an empty list. |
| Grouping.WithBarcode | Arista_ZebraTablet/Arista_ZebraTablet/Services/GroupingService.cs:29-33 | After adding b, its category maps to b, and every other category keeps its entry. |
| Grouping.LaterBarcodeWins | Arista_ZebraTablet/Arista_ZebraTablet/Services/GroupingService.cs:32 | Of two barcodes of one category, only the later is kept. |
| Grouping.DifferentCategoriesCommute | Arista_ZebraTablet/Arista_ZebraTablet/Services/GroupingService.cs:32 | Barcodes of different categories can arrive in either order with the same result. |
| Grouping.GroupingService.constructor | Arista_ZebraTablet/Arista_ZebraTablet/Services/GroupingService.cs:11-12 | The service starts with no completed groups, no events raised and an empty current group. |
| Grouping.GroupingService.SetCurrentGroup | Arista_ZebraTablet/Arista_ZebraTablet/Services/GroupingService.cs:13-21 | Assigning CurrentGroup always raises "CurrentGroup". |
| Grouping.GroupingService.AddBarcode | Arista_ZebraTablet/Arista_ZebraTablet/Services/GroupingService.cs:29-33 | The current group becomes WithBarcode of the old one. No event is raised. |
| Grouping.GroupingService.RemoveCompletedGroupAt | Arista_ZebraTablet/Arista_ZebraTablet/Services/GroupingService.cs:34-41 | An in-range index removes exactly that group and raises "CompletedGroups". An out-of-range index changes nothing and raises nothing. |
| Grouping.GroupingService.NextGroup | Arista_ZebraTablet/Arista_ZebraTablet/Services/GroupingService.cs:43-47 | The old current group goes to the end of the completed groups, and a new empty group is installed through the setter. |
| ScanResults.NewItem | Arista_ZebraTablet/Arista_ZebraTablet.Shared/Services/ScanResultsService.cs:25-30 | The inserted item carries the value, format and time it was given. |
| ScanResults.KeysCount | Arista_ZebraTablet/Arista_ZebraTablet.Shared/Services/ScanResultsService.cs:12 | A list with no two values equal ignoring case has as many case-folded keys as entries. |
| ScanResults.KeysCons | Arista_ZebraTablet/Arista_ZebraTablet.Shared/Services/ScanResultsService.cs:25-30 | Putting an item at the front adds exactly its case-folded value to the keys. |
| ScanResults.ScanResultsService.constructor | Arista_ZebraTablet/Arista_ZebraTablet.Shared/Services/ScanResultsService.cs:9-12 | The service starts with no results and an empty seen-set, and its invariant holds. |
| ScanResults.ScanResultsService.Add | Arista_ZebraTablet/Arista_ZebraTablet.Shared/Services/ScanResultsService.cs:18-32 | A null or blank value changes nothing. So does a value the seen-set already holds, ignoring case. Any other value is inserted at index 0 and its key is added. Results never holds two values equal ignoring case. |
| ScanResults.ScanResultsService.Clear | Arista_ZebraTablet/Arista_ZebraTablet.Shared/Services/ScanResultsService.cs:34-41 | Clear empties both Results and the seen-set. |
| ScanResults.ScanResultsService.SeenMatchesResults | Arista_ZebraTablet/Arista_ZebraTablet.Shared/Services/ScanResultsService.cs:12-30 | The seen-set holds a key exactly when some result equals it ignoring case, and it has as many entries as Results. |
| ServiceResponses.Ok | Arista_ZebraTablet/Arista_ZebraTablet.Shared/Application/Common/ServiceResponse.cs:37-38 | Ok is a success with that message, no error code and no errors. |
| ServiceResponses.Fail | Arista_ZebraTablet/Arista_ZebraTablet.Shared/Application/Common/ServiceResponse.cs:47-48 | Fail is a failure carrying its message, its error code and an order-preserving copy of its errors (null stays null). |
| ServiceResponses.OkWith | Arista_ZebraTablet/Arista_ZebraTablet.Shared/Application/Common/ServiceResponse.cs:91-92 | A generic Ok is a success carrying the data and the message, with no error information. |
| ServiceResponses.FailWith | Arista_ZebraTablet/Arista_ZebraTablet.Shared/Application/Common/ServiceResponse.cs:101-102 | A generic Fail is a failure whose data is left at its default. |
| ServiceResponses.FailMessage | Arista_ZebraTablet/Arista_ZebraTablet.Shared/Application/Common/ServiceResponse.cs:101-102 | Fail with only a message, as every service calls it: a failure with that message and no data. |
| ServiceResponses.FailsAgree | Arista_ZebraTablet/Arista_ZebraTablet.Shared/Application/Common/ServiceResponse.cs:47-102 | The non-generic Fail matches the generic Fail field by field. |
| Submission.DistinctKeepsValues | Arista_ZebraTablet/Arista_ZebraTablet.Web/Services/ScannedBarcodeService.cs:61-64 | The in-batch dedup loses no value: the distinct rows carry exactly the batch's values. |
| Submission.ToRows | Arista_ZebraTablet/Arista_ZebraTablet.Web/Services/ScannedBarcodeService.cs:52-58 | One row per item, in order, each built from its own item. |
| Submission.RowValues | Arista_ZebraTablet/Arista_ZebraTablet.Web/Services/ScannedBarcodeService.cs:72-73 | The rows' values, in order. |
| Submission.DistinctByValue | Arista_ZebraTablet/Arista_ZebraTablet.Web/Services/ScannedBarcodeService.cs:61-64 | The result is no longer than the batch, holds no value twice, and keeps only rows of the batch. |
| Submission.IndexOfPrefix | Arista_ZebraTablet/Arista_ZebraTablet.Web/Services/ScannedBarcodeService.cs:61-64 | A value already present in a prefix keeps its first position when more rows follow. |
| Submission.IndexOfLast | Arista_ZebraTablet/Arista_ZebraTablet.Web/Services/ScannedBarcodeService.cs:61-64 | A value new to the list is first found where it is appended. |
| Submission.DistinctKeepsFirst | Arista_ZebraTablet/Arista_ZebraTablet.Web/Services/ScannedBarcodeService.cs:61-64 | The dedup is case-sensitive and first wins. Each kept row is the first row with its value, in order of first appearance. |
| Submission.NewOnly | Arista_ZebraTablet/Arista_ZebraTablet.Web/Services/ScannedBarcodeService.cs:70-79 | A row is kept exactly when it is in the batch and its value is not stored. |
| Submission.FilterSubsequence | Arista_ZebraTablet/Arista_ZebraTablet.Web/Services/ScannedBarcodeService.cs:70-79 | Dropping the stored values from a list without duplicates keeps it without duplicates, and no longer. |
| Submission.FilterDistinct | Arista_ZebraTablet/Arista_ZebraTablet.Web/Services/ScannedBarcodeService.cs:70-79 | Any Where keeps a list free of duplicate values. |
| Submission.NewRowsProperties | Arista_ZebraTablet/Arista_ZebraTablet.Web/Services/ScannedBarcodeService.cs:52-79 | What gets inserted is trimmed and new, holds no value twice, and covers every trimmed value the table lacked. |
| Submission.ResubmitInsertsNothing | Arista_ZebraTablet/Arista_ZebraTablet.Web/Services/ScannedBarcodeService.cs:70-82 | Submitting a batch again after its new values were stored inserts nothing. |
| AddGuarantees.NothingNewIffAllStored | Arista_ZebraTablet/Arista_ZebraTablet.Web/Services/ScannedBarcodeService.cs:81-82 | Nothing is new exactly when every trimmed value of the batch is already in the table. |
| AddGuarantees.AddTwiceSavesOnce | Arista_ZebraTablet/Arista_ZebraTablet/Services/ScannedBarcodeService.cs:48-78 | Once a batch's new rows are in the table, the same batch finds nothing new. |
| ScannedBarcodeStore.SavedResponse | Arista_ZebraTablet/Arista_ZebraTablet.Web/Services/ScannedBarcodeService.cs:97-99 | A successful save reports the rows saved as its data, and the batch size minus that count as skipped. |
| ScannedBarcodeStore.WithIds | Arista_ZebraTablet/Arista_ZebraTablet.Web/Services/ScannedBarcodeService.cs:84-87 | The identity column gives the inserted rows consecutive ids, starting at the next free id. |
| ScannedBarcodeStore.RowsBelow | Arista_ZebraTablet/Arista_ZebraTablet.Web/Services/ScannedBarcodeService.cs:22-24 | The listing holds exactly the stored rows below an id, in strictly descending id order. |
| ScannedBarcodeStore.AllRowsDescending | Arista_ZebraTablet/Arista_ZebraTablet.Web/Services/ScannedBarcodeService.cs:18-34 | The full listing holds every row of the table, and only those, newest id first. |
| ScannedBarcodeStore.InsertedValues | Arista_ZebraTablet/Arista_ZebraTablet.Web/Services/ScannedBarcodeService.cs:84-87 | After an insert the table's values are the old values plus the inserted ones. |
| ScannedBarcodeStore.InsertKeepsStore | Arista_ZebraTablet/Arista_ZebraTablet.Web/Services/ScannedBarcodeService.cs:84-87 | An insert keeps ids keyed, positive and below the next id, and keeps the stored values distinct. |
| WebScannedBarcodes.ScannedBarcodeService.GetScannedBarcodeList | Arista_ZebraTablet/Arista_ZebraTablet.Web/Services/ScannedBarcodeService.cs:18-34 | Without a fault the response lists every row, newest first. Cancellation and other failures give their messages. |
| WebScannedBarcodes.ScannedBarcodeService.AddScannedBarcodes | Arista_ZebraTablet/Arista_ZebraTablet.Web/Services/ScannedBarcodeService.cs:43-110 | The outcome for each branch:<br>• null or empty items fail with "No barcode items provided.";<br>• a cancelled call and any other exception give their messages; the other exception gives its own text;<br>• a batch with nothing new gives Ok(0);<br>• an update conflict during the save fails with the retry message;<br>• otherwise exactly the new rows are stored under the next ids, with the saved and skipped counts.<br>The table stays keyed and free of duplicate values. |
| WebScannedBarcodes.ScannedBarcodeService.DeleteScannedBarcode | Arista_ZebraTablet/Arista_ZebraTablet.Web/Services/ScannedBarcodeService.cs:123-153 | An id of 0 or less fails. A missing id gives Ok(0) and "not found", with the table unchanged. Otherwise exactly that row goes, with Ok(1) and its value in the message. Conflicts and failures give their messages. |
| WebScannedBarcodes.DeleteTwice | Arista_ZebraTablet/Arista_ZebraTablet.Web/Services/ScannedBarcodeService.cs:123-153 | Deleting an id twice removes exactly that row, and the second call reports it as not found. |
| WebScannedBarcodes.ScannedBarcodeService.constructor | Arista_ZebraTablet/Arista_ZebraTablet.Web/Services/ScannedBarcodeService.cs:11-13 | The service starts on a table whose ids are keyed below the next id. |
| WebScannedBarcodes.ScannedBarcodeService.Save | Arista_ZebraTablet/Arista_ZebraTablet.Web/Services/ScannedBarcodeService.cs:84-95 | Saving new, distinct rows gives them the next consecutive ids and keeps the table free of duplicate values. |
| MauiScannedBarcodes.ScannedBarcodeService.GetScannedBarcodeList | Arista_ZebraTablet/Arista_ZebraTablet/Services/ScannedBarcodeService.cs:22-30 | On the device the list is always an empty success. |
| MauiScannedBarcodes.ScannedBarcodeService.AddScannedBarcodes | Arista_ZebraTablet/Arista_ZebraTablet/Services/ScannedBarcodeService.cs:39-105 | The same branch outcomes as the web service, except that any other exception gives the generic message. |
| MauiScannedBarcodes.ScannedBarcodeService.DeleteScannedBarcode | Arista_ZebraTablet/Arista_ZebraTablet/Services/ScannedBarcodeService.cs:116-120 | On the device a delete is always Ok(0) for any id, and deletes nothing. |
| MauiScannedBarcodes.ScannedBarcodeService.constructor | Arista_ZebraTablet/Arista_ZebraTablet/Services/ScannedBarcodeService.cs:11-13 | The service starts on a table whose ids are keyed below the next id. |
| MauiScannedBarcodes.ScannedBarcodeService.Save | Arista_ZebraTablet/Arista_ZebraTablet/Services/ScannedBarcodeService.cs:80-91 | Saving new, distinct rows gives them the next consecutive ids and keeps the table free of duplicate values. |
| GroupLists.OfSource | Arista_ZebraTablet/Arista_ZebraTablet.Shared/Pages/Reorder.razor.cs:73-75 | A group is kept exactly when it is in the list and has that source. |
| GroupLists.AllBarcodesMembership | Arista_ZebraTablet/Arista_ZebraTablet.Shared/Pages/Reorder.razor.cs:76 | A barcode is in the flattened list exactly when some group holds it. |
| GroupLists.EmptyGroupsAddNothing | Arista_ZebraTablet/Arista_ZebraTablet.Shared/Pages/Reorder.razor.cs:73-76 | Dropping the groups with no barcodes before flattening changes nothing. |
| GroupLists.AllBarcodesConcat | Arista_ZebraTablet/Arista_ZebraTablet.Shared/Pages/Reorder.razor.cs:76 | Flattening a concatenation of group lists concatenates their flattenings. |
| GroupLists.IndexOfId | Arista_ZebraTablet/Arista_ZebraTablet.Shared/Components/BarcodeGroupList.razor.cs:173 | FindIndex gives the first group with that id, or -1 exactly when no group has it. |
| GroupLists.FindById | Arista_ZebraTablet/Arista_ZebraTablet.Shared/Pages/Reorder.razor.cs:88 | The result is the first group with that id, or null exactly when no group has it. |
| Reorder.EntriesFor | Arista_ZebraTablet/Arista_ZebraTablet.Shared/Pages/Reorder.razor.cs:77-82 | There is one entry per barcode, in order. Each is named by the barcode's value, sits in zone "1" and points back at its barcode. |
| Reorder.EntryFor | Arista_ZebraTablet/Arista_ZebraTablet.Shared/Pages/Reorder.razor.cs:77-82 | An entry is named by its barcode's value, sits in zone "1" and points back at the barcode. |
| Reorder.ScopeCharacterised | Arista_ZebraTablet/Arista_ZebraTablet.Shared/Pages/Reorder.razor.cs:66-102 | With Guid.Empty selected, the scope is every barcode of every group of the selected source, group after group. With another id it is the barcodes of the first group with that id, whatever its source. No groups, a null selected id, an unknown id or an empty group leave the list untouched. |
| Reorder.AllScopeMembership | Arista_ZebraTablet/Arista_ZebraTablet.Shared/Pages/Reorder.razor.cs:73-82 | A barcode is in the all-groups scope exactly when a group of the selected source holds it. |
| Reorder.ReorderPage.OnInitialized | Arista_ZebraTablet/Arista_ZebraTablet.Shared/Pages/Reorder.razor.cs:66-102 | The list becomes the entries of the scope's barcodes, taking the detector's nullable selected id. It is left alone when there is no scope, a null id included. |
| Reorder.CopyText | Arista_ZebraTablet/Arista_ZebraTablet.Shared/Pages/Reorder.razor.cs:118-143 | There is nothing to copy exactly when the list is empty. |
| Reorder.Names | Arista_ZebraTablet/Arista_ZebraTablet.Shared/Pages/Reorder.razor.cs:124-126 | The entries' names, in list order. |
| Reorder.CopyTextRoundTrip | Arista_ZebraTablet/Arista_ZebraTablet.Shared/Pages/Reorder.razor.cs:124-126 | The copied text splits at line feeds back into the entry names in list order, when no name holds a line feed. |
| Reorder.ReorderPage.ItemUpdated | Arista_ZebraTablet/Arista_ZebraTablet.Shared/Pages/Reorder.razor.cs:167-191 | Corrected: a null item is ignored. For any other item the list ends as MovedAsDropped, the remove-then-insert move. |
| Reorder.ReorderPage.ItemUpdatedAsWritten | Arista_ZebraTablet/Arista_ZebraTablet.Shared/Pages/Reorder.razor.cs:167-191 | As written: a null item throws before the null test. Any other item is moved as dropped. |
| Reorder.ReorderPage.DropItem | Arista_ZebraTablet/Arista_ZebraTablet.Shared/Pages/Reorder.razor.cs:176-189 | The item's zone is updated, and it is moved from its index to the drop index. An unlisted item changes nothing. A drop index past the end throws, with the item already removed. |
| Reorder.DropIsMove | Arista_ZebraTablet/Arista_ZebraTablet.Shared/Pages/Reorder.razor.cs:182-189 | A handled move keeps the length and the multiset of entries. The moved entry sits at the drop index, and the others keep their relative order. |
| Reorder.DropOfUnlistedItem | Arista_ZebraTablet/Arista_ZebraTablet.Shared/Pages/Reorder.razor.cs:176-177 | Dropping an item that is not in the list changes nothing. |
| Reorder.NullDropExample | Arista_ZebraTablet/Arista_ZebraTablet.Shared/Pages/Reorder.razor.cs:170-173 | On a null item, the handler as written throws and the corrected one does not. |
| Reorder.ReorderPage.constructor | Arista_ZebraTablet/Arista_ZebraTablet.Shared/Pages/Reorder.razor.cs:55 | The page starts with an empty list. |
| Lists.MovePermutes | Arista_ZebraTablet/Arista_ZebraTablet.Shared/Pages/Reorder.razor.cs:182-189 | RemoveAt followed by Insert only reorders: the multiset is unchanged. |
| Lists.RemoveAt | Arista_ZebraTablet/Arista_ZebraTablet.Shared/Pages/Reorder.razor.cs:185 | RemoveAt(i) drops exactly the element at i and shifts the later ones down. |
| Lists.InsertAt | Arista_ZebraTablet/Arista_ZebraTablet.Shared/Pages/Reorder.razor.cs:188 | Insert(i, x) puts x at i and shifts the later elements up. |
| Lists.RemoveAtMultiset | Arista_ZebraTablet/Arista_ZebraTablet.Shared/Pages/Reorder.razor.cs:185 | RemoveAt takes out one copy of the removed element and nothing else. |
| Lists.InsertAtMultiset | Arista_ZebraTablet/Arista_ZebraTablet.Shared/Pages/Reorder.razor.cs:188 | Insert adds one copy of the inserted element and nothing else. |
| Lists.Move | Arista_ZebraTablet/Arista_ZebraTablet.Shared/Pages/Reorder.razor.cs:182-189 | A move keeps the length and puts the moved element at the target index. |
| Lists.IndexOf | Arista_ZebraTablet/Arista_ZebraTablet.Shared/Pages/Reorder.razor.cs:176 | IndexOf gives the first index holding the element, or -1 exactly when the list lacks it. |
| Lists.RemoveFirst | Arista_ZebraTablet/Arista_ZebraTablet.Shared/Pages/Home.razor.cs:413 | List.Remove leaves a list without the element unchanged, and otherwise makes it one shorter. |
| Lists.Filter | Arista_ZebraTablet/Arista_ZebraTablet.Shared/Components/BarcodeGroupList.razor.cs:71 | Where keeps only elements that satisfy the test, and takes each from the list. |
| Lists.FilterMembership | Arista_ZebraTablet/Arista_ZebraTablet.Shared/Components/BarcodeGroupList.razor.cs:71 | An element survives Where exactly when it was in the list and satisfies the test. |
| Lists.FilterMembershipAll | Arista_ZebraTablet/Arista_ZebraTablet.Shared/Components/BarcodeGroupList.razor.cs:71 | FilterMembership for every element at once. |
| Lists.FilterConcat | Arista_ZebraTablet/Arista_ZebraTablet/Components/BarcodeScannerResult.razor.cs:61 | Where distributes over concatenation, so it keeps the relative order of what it keeps. |
| Lists.NoMembersIsEmpty | Arista_ZebraTablet/Arista_ZebraTablet/Components/BarcodeScannerResult.razor.cs:195 | A list with no members is empty. |
| Lists.MoveKeepsOthersInOrder | Arista_ZebraTablet/Arista_ZebraTablet.Shared/Pages/Reorder.razor.cs:185-188 | Taking the moved element out again gives the list without it, so the others keep their order. |
| Lists.MoveToSelf | Arista_ZebraTablet/Arista_ZebraTablet.Shared/Pages/Reorder.razor.cs:182 | A move to the element's own index changes nothing. |
| Lists.RemoveFirstMultiset | Arista_ZebraTablet/Arista_ZebraTablet/Components/BarcodeScannerResult.razor.cs:144 | List.Remove takes out exactly one copy of the element when the list holds it, and nothing otherwise. |
| ScannerResult.CameraGroups | Arista_ZebraTablet/Arista_ZebraTablet/Components/BarcodeScannerResult.razor.cs:61 | A group is kept exactly when it is in the list and came from the camera. |
| ScannerResult.CopyAllOrder | Arista_ZebraTablet/Arista_ZebraTablet/Components/BarcodeScannerResult.razor.cs:208-222 | Copy-all takes the camera groups' barcodes in order, then the current group's. It copies nothing exactly when there are none. |
| ScannerResult.CopyAllRoundTrip | Arista_ZebraTablet/Arista_ZebraTablet/Components/BarcodeScannerResult.razor.cs:219 | The copied text splits back into those values, when none holds a line feed. |
| ScannerResult.ClearKeepsUploads | Arista_ZebraTablet/Arista_ZebraTablet/Components/BarcodeScannerResult.razor.cs:195 | Removing every camera group keeps exactly the upload groups, in order. |
| ScannerResult.BarcodeScannerResult.ClearAll | Arista_ZebraTablet/Arista_ZebraTablet/Components/BarcodeScannerResult.razor.cs:176-199 | No dialog appears, and nothing changes, while saving or when there is nothing to clear. A confirmed clear removes the camera groups and resets the current group. |
| ScannerResult.BarcodeScannerResult.DeleteScannedResult | Arista_ZebraTablet/Arista_ZebraTablet/Components/BarcodeScannerResult.razor.cs:129-148 | A confirmed delete removes the item from the current group only. |
| ScannerResult.BarcodeScannerResult.DeleteCurrentGroup | Arista_ZebraTablet/Arista_ZebraTablet/Components/BarcodeScannerResult.razor.cs:153-170 | Discarding replaces the current group with an empty one, without adding it to the completed groups. |
| ScannerResult.BarcodeScannerResult.CopyAllGroupedResults | Arista_ZebraTablet/Arista_ZebraTablet/Components/BarcodeScannerResult.razor.cs:208-222 | The clipboard text is the copy-all text of the detector's current state. |
| ScannerResult.BarcodeScannerResult.CompleteCurrentScanningGroup | Arista_ZebraTablet/Arista_ZebraTablet/Components/BarcodeScannerResult.razor.cs:240 | Completing appends the current group and then resets it. The detector's selected group and source stay as they were. |
| ScannerResult.BarcodeScannerResult.constructor | Arista_ZebraTablet/Arista_ZebraTablet/Components/BarcodeScannerResult.razor.cs:47-66 | The component starts on its detector service and not saving. |
| BarcodeGroupList.FilteredGroups | Arista_ZebraTablet/Arista_ZebraTablet.Shared/Components/BarcodeGroupList.razor.cs:71 | A group is kept exactly when it is in the list and has the component's source. |
| BarcodeGroupList.CopyText | Arista_ZebraTablet/Arista_ZebraTablet.Shared/Components/BarcodeGroupList.razor.cs:106-139 | A string is copied verbatim. A group is copied exactly when it has barcodes. Anything else copies nothing. |
| Domain.Values | Arista_ZebraTablet/Arista_ZebraTablet.Shared/Components/BarcodeGroupList.razor.cs:120 | The items' values, in order. |
| Domain.ValuesConcat | Arista_ZebraTablet/Arista_ZebraTablet/Components/BarcodeScannerResult.razor.cs:208-222 | The values of two lists one after the other are the two value lists one after the other. |
| BarcodeGroupList.GroupCopyRoundTrip | Arista_ZebraTablet/Arista_ZebraTablet.Shared/Components/BarcodeGroupList.razor.cs:117-122 | A group's copy text splits back into its values in order, when none holds a line feed. |
| BarcodeGroupList.EnableReorderMode | Arista_ZebraTablet/Arista_ZebraTablet.Shared/Components/BarcodeGroupList.razor.cs:148-155 | No id selects Guid.Empty ("reorder all"). A given id is selected as is. The source and the groups are handed over. |
| BarcodeGroupList.ReorderModeScope | Arista_ZebraTablet/Arista_ZebraTablet.Shared/Components/BarcodeGroupList.razor.cs:148-155 | The reorder page then shows every barcode of this list's source when no group was picked, and the picked group's barcodes when one was. |
| BarcodeGroupList.PreviewStartIndex | Arista_ZebraTablet/Arista_ZebraTablet.Shared/Components/BarcodeGroupList.razor.cs:164-174 | The preview is refused exactly when the filtered list is empty. Otherwise it starts at the first filtered group with that id, or at 0 when no filtered group has it. |
| BarcodeGroupList.WithoutBarcode | Arista_ZebraTablet/Arista_ZebraTablet.Shared/Components/BarcodeGroupList.razor.cs:264-265 | The barcode is removed from that group only, and every other group is untouched. |
| BarcodeGroupList.BarcodeGroupList.DeleteGroup | Arista_ZebraTablet/Arista_ZebraTablet.Shared/Components/BarcodeGroupList.razor.cs:200-220 | Nothing happens while busy or uploading. A confirmed delete removes the first equal group. The source and the busy, image-upload and results-upload flags never change. |
| BarcodeGroupList.BarcodeGroupList.DeleteDetectedBarcode | Arista_ZebraTablet/Arista_ZebraTablet.Shared/Components/BarcodeGroupList.razor.cs:246-269 | Nothing happens while busy or uploading. A confirmed delete removes the barcode from its group only. The source and the busy, image-upload and results-upload flags never change. |
| BarcodeGroupList.BarcodeGroupList.constructor | Arista_ZebraTablet/Arista_ZebraTablet.Shared/Components/BarcodeGroupList.razor.cs:42-62 | The component starts with the groups, source and busy flags its parent passes in. |
| FileStateDisplay.StateColor | Arista_ZebraTablet/Arista_ZebraTablet.Shared/Pages/Home.razor.cs:185-192 | The colour map is total. Only a value with no name gets the default colour. |
| FileStateDisplay.StateLabel | Arista_ZebraTablet/Arista_ZebraTablet.Shared/Pages/Home.razor.cs:198-205 | The label map is total and never empty. Only a value with no name shows the dash. |
| FileStateDisplay.DisplayTellsStatesApart | Arista_ZebraTablet/Arista_ZebraTablet.Shared/Pages/Home.razor.cs:185-205 | Different states get different labels and different colours. |
| Home.NormalizeContentType | Arista_ZebraTablet/Arista_ZebraTablet.Shared/Pages/Home.razor.cs:300-302 | A missing or blank content type becomes "image/jpeg". Any other is lower-cased. |
| Home.AcceptsIffImagePrefix | Arista_ZebraTablet/Arista_ZebraTablet.Shared/Pages/Home.razor.cs:51 | The whitelist adds nothing to the prefix test: a type is accepted exactly when it starts with "image/". |
| Home.ImageFor | Arista_ZebraTablet/Arista_ZebraTablet.Shared/Pages/Home.razor.cs:298-337 | A read file becomes Ready with its bytes, named by the file unless that name is blank, when the generated name is used. A failed read becomes Error with the exception's message, named by the file or "image". |
| Home.UploadedItemsAreWellFormed | Arista_ZebraTablet/Arista_ZebraTablet.Shared/Pages/Home.razor.cs:256-337 | Every uploaded item has an "image/" type. It is Ready exactly when it has bytes, and Error exactly when it has a message. |
| Home.Uploaded | Arista_ZebraTablet/Arista_ZebraTablet.Shared/Pages/Home.razor.cs:269-271 | A batch of files adds at most one item per file, in order. |
| Home.UploadedSnoc | Arista_ZebraTablet/Arista_ZebraTablet.Shared/Pages/Home.razor.cs:269-271 | One more file appends its item exactly when its content type is accepted. |
| Home.HomePage.AddImageFile | Arista_ZebraTablet/Arista_ZebraTablet.Shared/Pages/Home.razor.cs:298-337 | An accepted file appends its item. A rejected file appends nothing. No other field of the page changes. |
| Home.HomePage.UploadImageFiles | Arista_ZebraTablet/Arista_ZebraTablet.Shared/Pages/Home.razor.cs:256-289 | The accepted files are appended in order. Progress ends at 100 and the uploading flag ends false. The expanded set, the mode, the decode progress and the other flags stay as they were. |
| Home.ExpandableIds | Arista_ZebraTablet/Arista_ZebraTablet.Shared/Pages/Home.razor.cs:231-237 | The set is exactly the ids of the images with at least one detected barcode. |
| Home.HomePage.OpenAllDetectedBarcodes | Arista_ZebraTablet/Arista_ZebraTablet.Shared/Pages/Home.razor.cs:231-237 | Expand-all displays exactly the images with barcodes. No other field of the page changes. |
| Home.Toggle | Arista_ZebraTablet/Arista_ZebraTablet.Shared/Pages/Home.razor.cs:221-225 | The id is added when absent and removed when present. Nothing else changes. |
| Home.HomePage.ToggleDisplayDetectedBarcodes | Arista_ZebraTablet/Arista_ZebraTablet.Shared/Pages/Home.razor.cs:221-225 | The displayed set becomes Toggle of the old one. No other field of the page changes. |
| Home.ToggleTwice | Arista_ZebraTablet/Arista_ZebraTablet.Shared/Pages/Home.razor.cs:221-225 | Toggling twice restores the set. |
| Home.HomePage.CloseAllDetectedBarcodes | Arista_ZebraTablet/Arista_ZebraTablet.Shared/Pages/Home.razor.cs:216 | Collapse-all empties the displayed set. No other field of the page changes. |
| Home.HomePage.ToggleMoreDrawer | Arista_ZebraTablet/Arista_ZebraTablet.Shared/Pages/Home.razor.cs:243 | The drawer flag flips. No other field of the page changes. |
| Home.HomePage.constructor | Arista_ZebraTablet/Arista_ZebraTablet.Shared/Pages/Home.razor.cs:56-102 | The page starts with no images, nothing expanded, Standard mode, every flag off and both progress values 0. |
| Home.PreviewStartIndex | Arista_ZebraTablet/Arista_ZebraTablet.Shared/Pages/Home.razor.cs:444-454 | The preview is refused exactly when there are no images. Otherwise it starts at the first image with that id, or at 0 when no image has it. |
| Home.IndexOfImage | Arista_ZebraTablet/Arista_ZebraTablet.Shared/Pages/Home.razor.cs:453 | FindIndex gives the first image with that id, or -1 exactly when no image has it. |
| Home.HomePage.DeleteUploadedImg | Arista_ZebraTablet/Arista_ZebraTablet.Shared/Pages/Home.razor.cs:348-368 | Nothing happens while busy. A confirmed delete removes the image. No other field of the page changes. |
| Home.HomePage.DeleteDetectedBarcode | Arista_ZebraTablet/Arista_ZebraTablet.Shared/Pages/Home.razor.cs:394-415 | Nothing happens while busy or when cancelled. A confirmed delete removes the barcode from that image's results only, and throws when the image has no results. No other field of the page changes. |
| Home.HomePage.ClearAllUploadedImages | Arista_ZebraTablet/Arista_ZebraTablet.Shared/Pages/Home.razor.cs:420-439 | A confirmed clear leaves no images, not busy, and decode progress 0. The expanded set, the mode, the uploading flags, the upload progress and the drawer stay as they were. |
| Home.TotalIsSentCount | Arista_ZebraTablet/Arista_ZebraTablet.Shared/Pages/Home.razor.cs:481-483 | The confirmation's count equals the number of barcodes Save sends. It is 0 exactly when no image has barcodes. |
| Home.ConfirmationMessage | Arista_ZebraTablet/Arista_ZebraTablet.Shared/Pages/Home.razor.cs:481-487 | The singular text appears exactly when one barcode is pending. Otherwise the text includes the count. |
| Home.ConfirmationTellsTotals | Arista_ZebraTablet/Arista_ZebraTablet.Shared/Pages/Home.razor.cs:481-487 | Different counts give different confirmation texts. |
| Home.HomePage.SaveDetectedBarcodesConfirmation | Arista_ZebraTablet/Arista_ZebraTablet.Shared/Pages/Home.razor.cs:479-510 | The confirmation tells the pending count. A cancelled dialog changes nothing. A confirmed one has every outcome of SaveDetectedBarcodes: nothing while busy, the "No detected barcodes to upload." notice, or the barcodes sent with SaveNotice of the answer and the images cleared on success. |
| Home.DataText | Arista_ZebraTablet/Arista_ZebraTablet.Shared/Pages/Home.razor.cs:614 | The interpolated count is the number in decimal, with a minus sign when negative, and "0" when the data was never set (its default). |
| Home.SaveNotice | Arista_ZebraTablet/Arista_ZebraTablet.Shared/Pages/Home.razor.cs:612-629 | The snackbar shows the response's message when there is one. Otherwise it shows the uploaded count on success (0 when the data was never set), and "Upload failed." on failure. |
| Home.NoDataNotice | Arista_ZebraTablet/Arista_ZebraTablet.Shared/Pages/Home.razor.cs:614 | A successful answer without message or data reports "0 barcode(s) uploaded.". |
| Home.HomePage.SaveDetectedBarcodes | Arista_ZebraTablet/Arista_ZebraTablet.Shared/Pages/Home.razor.cs:589-635 | Nothing happens while busy. With no barcodes, no call is made. Otherwise every detected barcode is sent, and the images are cleared only when the response reports success. Only the images and the uploading-results flag change. |
| Home.ErrorAfterThrow | Arista_ZebraTablet/Arista_ZebraTablet.Shared/Pages/Home.razor.cs:567-574 | After a throw the image is Error. It keeps an earlier error message, or else gets the exception's. Nothing else changes. |
| Home.DecodedFile | Arista_ZebraTablet/Arista_ZebraTablet.Shared/Pages/Home.razor.cs:535-560 | An image without bytes becomes Error. One with bytes becomes Done, holding the detector's results. |
| Home.DecodedStates | Arista_ZebraTablet/Arista_ZebraTablet.Shared/Pages/Home.razor.cs:535-560 | A decoded image is Done exactly when it had bytes, and Error otherwise. |
| Home.DecodeProgress | Arista_ZebraTablet/Arista_ZebraTablet.Shared/Pages/Home.razor.cs:562 | Decode progress stays between 5 and 100. |
| Home.WithBytes | Arista_ZebraTablet/Arista_ZebraTablet.Shared/Pages/Home.razor.cs:535-560 | The count of images with bytes among the first n is at most n. |
| Home.HomePage.DecodeBarcodes | Arista_ZebraTablet/Arista_ZebraTablet.Shared/Pages/Home.razor.cs:523-580 | Nothing happens with no images or while busy. A full pass decodes every image in turn, expands the non-empty results and ends progress at 100. A throw fails every image and keeps the results decoded before it. isBusy ends false, and the mode, the uploading flags, the upload progress and the drawer stay. |
| Home.HomePage.DecodePass | Arista_ZebraTablet/Arista_ZebraTablet.Shared/Pages/Home.razor.cs:531-563 | The try block decodes the images in turn. It returns no message exactly when no decode throws, and otherwise the first throw's message, with the images before it decoded and the progress counting them. Only the images, the expanded set and the decode progress change. |
| Home.DecodeOutcomes | Arista_ZebraTablet/Arista_ZebraTablet.Shared/Pages/Home.razor.cs:523-580 | A full pass leaves each image Done exactly when it had bytes. After a throw, every image is Error with a message, and the earlier ones keep their results. |
| Home.HomePage.FailAll | Arista_ZebraTablet/Arista_ZebraTablet.Shared/Pages/Home.razor.cs:567-574 | The catch block gives every image ErrorAfterThrow. No other field of the page changes. |
| Home.FirstThrowFrom | Arista_ZebraTablet/Arista_ZebraTablet.Shared/Pages/Home.razor.cs:523-580 | The result is the first decode step that throws, or -1 exactly when none does. |
| Home.HomePage.FirstThrow | Arista_ZebraTablet/Arista_ZebraTablet.Shared/Pages/Home.razor.cs:523-580 | The first image of the page whose decode throws, or -1 exactly when none does. |
| Home.PartlyDecoded | Arista_ZebraTablet/Arista_ZebraTablet.Shared/Pages/Home.razor.cs:535-560 | The image list after the first n decode steps keeps its length. DecodeBarcodes and DecodeOutcomes state what those steps do to each image. |
| Home.PartlyDecodedAt | Arista_ZebraTablet/Arista_ZebraTablet.Shared/Pages/Home.razor.cs:535-560 | The image the next step decodes is still as uploaded. |
| Home.FirstThrowFromIs | Arista_ZebraTablet/Arista_ZebraTablet.Shared/Pages/Home.razor.cs:523-580 | A throwing step with no throw before it is the first throw. |
| Home.FirstThrowFromNone | Arista_ZebraTablet/Arista_ZebraTablet.Shared/Pages/Home.razor.cs:523-580 | With no throwing step the first throw is -1. |
| Home.PartlyDecodedStep | Arista_ZebraTablet/Arista_ZebraTablet.Shared/Pages/Home.razor.cs:535-562 | Decoding one more image, when it does not throw, extends the decoded prefix by that image alone. |
| Home.AllFailed | Arista_ZebraTablet/Arista_ZebraTablet.Shared/Pages/Home.razor.cs:567-574 | After the catch block every image is its ErrorAfterThrow, and the list keeps its length. |
| CategoryEditDialog.DefaultCategoriesAreStandardLabels | Arista_ZebraTablet/Arista_ZebraTablet.Shared/Components/CategoryEditDialog.razor.cs:53 | The options are exactly the six Standard labels, so every Standard result can be picked back. |
| CategoryEditDialog.SavedCategory | Arista_ZebraTablet/Arista_ZebraTablet.Shared/Components/CategoryEditDialog.razor.cs:106-107 | A blank choice saves as "Unknown". Any other choice saves trimmed. A saved category is never blank. |
| CategoryEditDialog.TrimBlankIffBlank | Arista_ZebraTablet/Arista_ZebraTablet.Shared/Components/CategoryEditDialog.razor.cs:106-107 | A trimmed choice is blank exactly when the choice was. |
| CategoryEditDialog.SavedCategoryIdempotent | Arista_ZebraTablet/Arista_ZebraTablet.Shared/Components/CategoryEditDialog.razor.cs:106-107 | Saving an already saved category stores it unchanged. |
| CategoryEditDialog.CategoryEditDialog.OnParametersSet | Arista_ZebraTablet/Arista_ZebraTablet.Shared/Components/CategoryEditDialog.razor.cs:71-75 | The local copy starts as the item's category, or "" without an item. |
| CategoryEditDialog.CategoryEditDialog.constructor | Arista_ZebraTablet/Arista_ZebraTablet.Shared/Components/CategoryEditDialog.razor.cs:29-43 | The dialog starts on the given item with an empty choice and not busy. |
| CategoryEditDialog.CategoryEditDialog.Select | Arista_ZebraTablet/Arista_ZebraTablet.Shared/Components/CategoryEditDialog.razor.cs:43 | Picking an option changes only the local choice, never the item. |
| CategoryEditDialog.CategoryEditDialog.HandleActionClick | Arista_ZebraTablet/Arista_ZebraTablet.Shared/Components/CategoryEditDialog.razor.cs:97-113 | A non-Ok action leaves the item alone. Ok stores the saved category, or throws when there is no item. isBusy ends false. |
| CategoryEditDialog.CancelKeepsItem | Arista_ZebraTablet/Arista_ZebraTablet.Shared/Components/CategoryEditDialog.razor.cs:58-75 | Picking a category and then clicking Cancel never changes the item. |
| PreviewImgDialog.Clamp | Arista_ZebraTablet/Arista_ZebraTablet.Shared/Components/PreviewImgDialog.razor.cs:78 | The result lies in [min, max]. A value already in range is kept. |
| PreviewImgDialog.PreviewImgDialog.constructor | Arista_ZebraTablet/Arista_ZebraTablet.Shared/Components/PreviewImgDialog.razor.cs:27-32 | The dialog starts on the files and the index it is given. |
| PreviewImgDialog.PreviewImgDialog.SelectedImageFile | Arista_ZebraTablet/Arista_ZebraTablet.Shared/Components/PreviewImgDialog.razor.cs:51 | The result is null exactly when the index is out of range, and is otherwise the file at that index. |
| PreviewImgDialog.PreviewImgDialog.Delete | Arista_ZebraTablet/Arista_ZebraTablet.Shared/Components/PreviewImgDialog.razor.cs:61-81 | An empty list or an out-of-range index changes nothing. Otherwise exactly that file goes. The dialog cancels when none is left, and else selects the clamped index, which is in range. |
| PreviewImgDialog.DeleteSelectsNext | Arista_ZebraTablet/Arista_ZebraTablet.Shared/Components/PreviewImgDialog.razor.cs:66-78 | After a delete, the next file is selected, or the new last file when the last one was deleted. |
| ModalDialog.NewActionClosesOk | Arista_ZebraTablet/Arista_ZebraTablet.Shared/Shared/ModalDialog.razor.cs:174-215 | A new DialogAction closes Ok on click and is not the default action. |
| ModalDialog.CancelAction | Arista_ZebraTablet/Arista_ZebraTablet.Shared/Shared/ModalDialog.razor.cs:220-227 | Cancel cancels the dialog, carries the value false and keeps its text. |
| ModalDialog.OkAction | Arista_ZebraTablet/Arista_ZebraTablet.Shared/Shared/ModalDialog.razor.cs:232-240 | Ok closes with its value, default flag, colour and variant. |
| ModalDialog.NoCloseAction | Arista_ZebraTablet/Arista_ZebraTablet.Shared/Shared/ModalDialog.razor.cs:246-252 | NoClose keeps the dialog open and carries no value. |
| ModalDialog.ComputedActions | Arista_ZebraTablet/Arista_ZebraTablet.Shared/Shared/ModalDialog.razor.cs:118-124 | Null or empty actions give Cancel, then OK. Otherwise the given actions are kept in order. |
| ModalDialog.DefaultActions | Arista_ZebraTablet/Arista_ZebraTablet.Shared/Shared/ModalDialog.razor.cs:118-124 | The default pair is "Cancel", which cancels, and "OK", which closes with true as the default button. |
| ModalDialog.ResultData | Arista_ZebraTablet/Arista_ZebraTablet.Shared/Shared/ModalDialog.razor.cs:147 | The Ok result is the action's value when it has one, else the action itself. It is null when the action is not to be returned as result. |
| ModalDialog.ActionClickOutcome | Arista_ZebraTablet/Arista_ZebraTablet.Shared/Shared/ModalDialog.razor.cs:130-151 | The callback runs first, and only when attached. Then Cancel cancels, Ok closes with the result data, and None keeps the dialog open. |
| Text.TrimIsMiddle | Arista_ZebraTablet/Arista_ZebraTablet.Web/Services/ScannedBarcodeService.cs:54 | Trim keeps the contiguous middle of the text, between leading and trailing white space. |
| Text.TrimStart | Arista_ZebraTablet/Arista_ZebraTablet.Web/Services/ScannedBarcodeService.cs:54 | TrimStart drops exactly the leading white space. |
| Text.TrimEnd | Arista_ZebraTablet/Arista_ZebraTablet.Web/Services/ScannedBarcodeService.cs:54 | TrimEnd drops exactly the trailing white space. |
| Text.TrimIdempotent | Arista_ZebraTablet/Arista_ZebraTablet.Web/Services/ScannedBarcodeService.cs:54 | Trimming twice is trimming once. |
| Text.FoldCase | Arista_ZebraTablet/Arista_ZebraTablet.Shared/Services/ScanResultsService.cs:12 | Case folding keeps the length of the text. |
| Text.FoldCaseIdempotent | Arista_ZebraTablet/Arista_ZebraTablet.Shared/Services/ScanResultsService.cs:12 | Folding a folded text changes nothing, and a text equals its folding ignoring case. |
| Text.ToLower | Arista_ZebraTablet/Arista_ZebraTablet.Shared/Pages/Home.razor.cs:300 | Lower-casing keeps the length of the text. |
| Text.TrimEmptyIffBlank | Arista_ZebraTablet/Arista_ZebraTablet.Shared/Components/CategoryEditDialog.razor.cs:106-107 | A text trims to empty exactly when it is blank. |
| Text.SplitJoinRoundTrip | Arista_ZebraTablet/Arista_ZebraTablet.Shared/Pages/Reorder.razor.cs:124-126 | Joining with line feeds and splitting at them gives back the parts, when none holds a line feed. |
| Text.JoinLines | Arista_ZebraTablet/Arista_ZebraTablet.Shared/Pages/Reorder.razor.cs:124-126 | Joining a single part gives that part. |
| Text.SplitLines | Arista_ZebraTablet/Arista_ZebraTablet.Shared/Pages/Reorder.razor.cs:124-126 | Splitting any text gives at least one part. |
| Text.NatToStringRoundTrip | Arista_ZebraTablet/Arista_ZebraTablet.Web/Services/ScannedBarcodeService.cs:97-99 | The decimal text of a count reads back as that count. |
| Text.NatToString | Arista_ZebraTablet/Arista_ZebraTablet.Web/Services/ScannedBarcodeService.cs:97-99 | A count's decimal text is non-empty and made of ASCII digits. |

## Left out

- Image processing and the ZXing reader are foreign code. SKBitmap decode and resize, the grayscale
  redraw and DecodeMultiple are uninterpreted functions. For the same reason UploadBarcodeDecoderService
  is not part of this model.
- Clock and identity. `DateTime.Now` is one `now` parameter per call, and `Guid.NewGuid()` values are parameters.
- References are values. C# mutates view-model objects through any reference and finds them with
  reference identity (`List.Remove`, `IndexOf`). The model finds the first value-equal element, and
  does not model an update seen through another alias. For example, the CategoryEditDialog writes its
  category back into the item the caller passed in; the model returns the updated item instead.
- Database exceptions. A `Fault` parameter stands for the failure a call ends in:
  - cancellation and unexpected failures are taken to happen at the first query;
  - an update conflict can only happen during SaveChangesAsync;
  - the affected-row count is taken as the number of new rows;
  - string comparison in the store is assumed ordinal (the database collation is not modelled).
- Null values. A null Value or Category on a scanned item, and a null ImageFiles list in
  PreviewImgDialog, are not modelled: those fields are never null here.
- Field names. ScanBarcodeItemViewModel as shipped has no Format or Time field, which
  ScanResultsService sets. The model uses BarcodeType and ScannedTime, and leaves the category unset
  (the empty string).
- MainThread marshalling in ScanResultsService is concurrency. Add and Clear take effect synchronously.
- Home.DecodeProgress: computed on integers as `5 + done * 95 / count`. The source divides in double
  precision and truncates with an `(int)` cast (Home.razor.cs:562). Both give the same value except
  where floating-point rounding lands just below an integer.
- Home.HomePage.UploadImageFiles: the per-file upload progress (Math.Round of the processed share,
  Home.razor.cs:274-275) is not modelled. Only its final value, 100, is.
- Home.ImageFor: the base64 preview data URL and the Guid-based file name are parameters. Stream
  reading and its 20 MB cap are a ReadResult input.
- UI plumbing is not modelled:
  - navigation;
  - snackbar severities;
  - the JS and MAUI clipboards (only the copied text is modelled);
  - dialog rendering and parameters;
  - swipe, breakpoint and form-factor handling;
  - the ScanReceived event and OnAfterRender focus.
- Home.HomePage.DeleteDetectedBarcode: a confirmed delete on an image without a DetectResult
  dereferences null (Home.razor.cs:412). The model returns `threw` for it and changes nothing. A blocked
  or cancelled call on such an image returns normally, as in the source.
- WebBarcodeDetector.BarcodeDetectorService.NavigateToScanner: a no-op on the web. It has no
  `modifies` clause, so nothing can change, and it carries no contract of its own.
- Collaborators as values. The IBarcodeDetectorService the Home page calls is a decoder function, and
  the state EnableReorderMode hands over is a ReorderSelection value.
- Home.HomePage.SaveDetectedBarcodesConfirmation: the outer catch (Home.razor.cs:505-508) is not
  modelled separately. SaveCall already covers the exceptions of the service call.
- Home.HomePage.DecodeBarcodes: there is no intermediate render, so the transient Detecting state is
  not observable.
- Patterns: `\d` in the Unique model-serial pattern is taken as the ASCII digits, not the Unicode
  decimal digits. Case-insensitive comparison and ToLowerInvariant fold ASCII letters only.

## Findings

| source | as written | input that shows it | evidently intended | confidence | as-written member | corrected member |
|---|---|---|---|---|---|---|
| Arista_ZebraTablet/Arista_ZebraTablet.Shared/Pages/Reorder.razor.cs:170-173 | ItemUpdated assigns the drop zone through `dropItem.Item` before its `item is null` test, so a null item throws NullReferenceException and the test can never succeed | a MudItemDropInfo whose Item is null | a null item is ignored and the list is left alone | not executed | Reorder.ReorderPage.ItemUpdatedAsWritten (shown by Reorder.NullDropExample) | Reorder.ReorderPage.ItemUpdated |

