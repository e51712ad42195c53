# Quotation folder store: a Dafny model

This project models the core of a small FastAPI backend for quotation jobs.
A client uploads a zipped folder. The backend unpacks it into an upload
directory and reads the first spreadsheet it finds into a part-number →
quantity table (`parts.json`). After that, per-folder JSON "sidecar" files
hold cost records (`costs.json`), a quotation name (`quotation.json`) and a
grand total (`grand_total.json`). An optional `upload.json` brought by the
archive supplies the upload date shown in the folder listing.

The model has these parts:

- `Strings`: Python's `str.strip()` (with Python's `isspace` character set),
  `str.endswith` and `str(int)`.
- `JsonValue`: loaded JSON values, Python truthiness, `dict.get`, and the key
  text that `json.dump` writes for a dictionary key.
- `Extraction`: the spreadsheet pass, as the loop method `ExtractParts`. It is
  proved equal to the specification function `Parts`, a left fold over the
  data rows (`Scan`). The lemmas say which rows contribute, that the last
  write wins, and what `parts_loaded` counts.
- `QuotationStore`: the store. A `Folder` value holds its five sidecars, each a
  `Doc` that is `Absent`, `Unreadable` or `Present`. The class `FolderStore`
  keeps `folders: map<string, Folder>`. Its methods change that map for
  upload, delete and the three saves, and `ListWithDates` builds the dated
  listing in a loop. The GET handlers are functions over the map. Lemmas
  connect saves, uploads and lookups.
- `Scenario`: client methods that follow one folder from upload to delete,
  using only the contracts.

Interfaces:

- Clock readings (`datetime.utcnow()`, a folder's `st_mtime`) are parameters:
  `now` for saves, and `mtimeOf` for the listing.
- The result of unpacking the archive is a parameter of `Upload`:
  `EmptyArchive` (no entries, so no folder is created), `NoSpreadsheet`,
  `Corrupt`, or the rows of the first sheet, plus the archive's
  `upload.json`.
- Python's `int()` on a cell is the parameter `toInt: Cell -> Option<int>`,
  where `None` means `int()` raised.

Part-number keys can be empty: a part number made only of spaces is truthy
but strips to `""` (`Extraction.BlankPartNumberGivesEmptyKey`). An upload
name whose stem is `""`, `"."` or `".."` gets `Conflict`, because those
paths resolve to the upload directory or its parent, which always exist.
An upload whose own file name is already a folder (`x.zip` after `x.zip.zip`)
fails with `Internal`: the archive cannot be written over a directory.

## Model

| member | source | states |
|---|---|---|
| `Strings.Strip` | main.py:213 | Python's `str.strip()`: leading and then trailing characters in Python's `isspace` set are removed (characterised by the lemmas below). |
| `Strings.EndsWith` | main.py:42 | `str.endswith`: the suffix is no longer than the string and equals its last characters. |
| `Strings.TrimStartSpec` | main.py:83 | Trimming the front removes only a prefix made of whitespace, and the rest starts with a non-whitespace character or is empty. |
| `Strings.TrimEndSpec` | main.py:83 | Trimming the back removes only a suffix made of whitespace, and the rest ends with a non-whitespace character or is empty. |
| `Strings.StripBounds` | main.py:83 | `strip()` returns a slice of its argument. That slice has no whitespace at either end, and only whitespace lies outside it. |
| `Strings.StripUnique` | main.py:83 | Any slice with no whitespace at its ends and only whitespace outside it is exactly what `strip()` returns. |
| `Strings.StrippedIsFixed` | main.py:213 | Stripping a string that is already stripped leaves it unchanged, so `strip()` is idempotent. |
| `Strings.StripIgnoresPadding` | main.py:213 | Adding whitespace on either side of a string does not change what `strip()` returns. |
| `Strings.IntToDecimal` | main.py:83 | `str()` of an integer is never empty and has no surrounding whitespace. It starts with `-` exactly when the number is negative. |
| `JsonValue.Truthy` | main.py:149 | Python truthiness of a loaded JSON value: None, False, 0, "", [] and {} are false, everything else true. |
| `JsonValue.Get` | main.py:148 | `dict.get(key)`: the value under the key, or None when the key is absent. |
| `JsonValue.KeyText` | main.py:163 | A string key is stored as it is. An integer key is stored as non-empty decimal text. Only a list or dict key fails (it is unhashable). |
| `Extraction.Truthy` | main.py:81 | Python truthiness of a cell: an empty cell, "" and 0 are false; other cell types carry their own truthiness. |
| `Extraction.Str` | main.py:83 | `str()` of a cell: an empty cell is "None", text as is, an integer as its decimal text. |
| `Extraction.Contributes` | main.py:81-85 | A data row writes an entry exactly when both cells are truthy and `int()` accepts the quantity. |
| `Extraction.Key` | main.py:83 | The key of a row is `str(part_no).strip()`. |
| `Extraction.Scan` | main.py:77-85 | The table after a run of data rows, taken one at a time; each contributing row overwrites its key. |
| `Extraction.Parts` | main.py:76-85 | The whole table: an empty sheet gives `{}`, otherwise the first (header) row is skipped and the rest scanned. |
| `Extraction.ExtractParts` | main.py:76-85 | The loop's result equals `Parts(rows, toInt)`. It skips the header, keeps rows whose two cells are truthy, skips a row whose `int()` fails, and lets a later row overwrite an earlier one. |
| `Extraction.ScanKeys` | main.py:77-85 | A key is in the scanned table exactly when some contributing row has that stripped part number. |
| `Extraction.ScanLastWins` | main.py:83 | The last contributing row for a key sets that key's value to its quantity. |
| `Extraction.ScanValueFromLast` | main.py:83 | Every stored value comes from the last contributing row with that key. |
| `Extraction.ScanSkipsRow` | main.py:81-85 | Removing a non-contributing row leaves the scan result unchanged, so the scan goes on past it. |
| `Extraction.PartsKeys` | main.py:77-85 | The table's keys are exactly the keys of contributing rows with index ≥ 1. The header row never contributes. |
| `Extraction.PartsValues` | main.py:83 | Last write wins, in both directions. The last contributing data row for a key gives its quantity, and every entry comes from such a row. |
| `Extraction.PartsCount` | main.py:95 | `parts_loaded` equals the number of distinct keys among the contributing data rows. |
| `Extraction.PartsSkipRow` | main.py:84-85 | Dropping a non-contributing data row anywhere after the header leaves the table unchanged. |
| `Extraction.IntegerPartNumberKey` | main.py:83 | An integer part number is stored under its decimal text, which is never empty. |
| `Extraction.BlankPartNumberGivesEmptyKey` | main.py:81-83 | A part number made only of spaces is truthy and is stored under the key `""`. |
| `Extraction.SampleSheet` | main.py:76-85 | Take the rows ("A1",5), ("A1",7), ("",3) and ("B2","x") after the header. For any `int()` that accepts 5 and 7 and rejects "x", the table is {"A1": 7}. |
| `QuotationStore.Reserved` | main.py:45-49 | The stems `""`, `"."` and `".."`, whose folder path is the upload directory or its parent and so always exists. |
| `QuotationStore.FolderName` | main.py:45 | The folder name plus ".zip" gives back the uploaded file name. |
| `QuotationStore.Stamped` | main.py:162 | The stored record is the request body with "_saved_at" set to the save time. No other field changes. |
| `QuotationStore.CostsBefore` | main.py:153-159 | The document a cost save starts from: costs.json when it loads, otherwise empty. |
| `QuotationStore.QuotationDoc` | main.py:267-270 | quotation.json as written: the quotation name and the save time. |
| `QuotationStore.GrandTotalDoc` | main.py:335-338 | grand_total.json as written: the total and the save time. |
| `QuotationStore.WithCost` | main.py:153-163 | After a save, costs.json is present. It holds the stamped body under the key, and every other existing entry is unchanged. A missing or unreadable file counts as empty. No other sidecar changes. |
| `QuotationStore.GetCosts` | main.py:176-193 | A missing folder gives NotFound. A missing costs.json gives an empty document, not an error. An unreadable one gives Internal. Otherwise the whole document is returned. |
| `QuotationStore.GetCostForPart` | main.py:302-322 | The lookup succeeds exactly when the folder exists, costs.json is loaded and the stripped part number is a key. The reply carries the stripped key and its record. An unreadable file gives Internal; every other failure is NotFound. |
| `QuotationStore.GetPartQuantity` | main.py:196-217 | The same as the cost lookup, but over parts.json. A missing parts.json is NotFound. |
| `QuotationStore.GetQuotation` | main.py:282-298 | A missing folder gives NotFound and an unreadable file gives Internal. A missing quotation.json gives the null-name placeholder. Otherwise the stored document is returned. |
| `QuotationStore.GetGrandTotal` | main.py:348-363 | A missing folder gives NotFound and an unreadable file gives Internal. A missing grand_total.json gives `{"grand_total": null}`. Otherwise the stored document is returned. |
| `QuotationStore.UploadDate` | main.py:227-242 | The listed date is never null or falsy. It is upload.json's truthy "upload_date" when the file loads as an object, and the folder's mtime otherwise. |
| `QuotationStore.CostLookupMatchesListing` | main.py:184-193 | The single-part cost lookup agrees with the whole-document getter. It gives the same errors, and otherwise the entry under the stripped key or NotFound. |
| `QuotationStore.SavedCostIsFound` | main.py:148-163 | Save a cost under a key with no surrounding whitespace. A lookup by that key, even with whitespace around the query, returns the stamped body. |
| `QuotationStore.PaddedCostKeyIsUnreachable` | main.py:148-163 | The save does not strip its key, but the lookup strips its query. So a save under a key with surrounding whitespace is invisible to every lookup. |
| `QuotationStore.SavedCostIsListed` | main.py:153-168 | After a save, the whole-document getter returns the earlier document with the stamped payload under the save's key. |
| `QuotationStore.NewFolderIsBlank` | main.py:184-185 | A freshly uploaded folder lists no costs, gives the null quotation placeholder and a null grand total, none of them an error. |
| `QuotationStore.UploadedPartIsFound` | main.py:213-215 | In an uploaded folder, looking up a part number, with or without surrounding whitespace, returns the quantity of the last contributing row with that part number. |
| `QuotationStore.UnlistedPartIsNotFound` | main.py:213-217 | If no contributing row has the stripped part number, the lookup gives NotFound. |
| `QuotationStore.FolderStore.constructor` | main.py:18-19 | The store starts with the folders already in the upload directory (none on a first start). |
| `QuotationStore.FolderStore.Upload` | main.py:40-95 | A name without ".zip" gives InvalidInput. A stem that is reserved or already taken gives Conflict. Otherwise a file name that is itself a folder gives Internal (the archive cannot be written there). Every error leaves the store unchanged. An archive with no entries replies "no Excel file" and adds nothing. Otherwise only the new folder is added: its parts table is `Parts(rows)`, or absent when there is no sheet or the sheet cannot be read. The reply count is `len(parts)`. |
| `QuotationStore.FolderStore.Delete` | main.py:115-126 | A missing folder gives NotFound. Otherwise the folder is removed, and every getter on it then gives NotFound. |
| `QuotationStore.FolderStore.SaveCost` | main.py:139-172 | A missing folder gives NotFound. This is checked before a missing or falsy "filename", which gives InvalidInput. An unhashable key gives Internal. On success the store becomes `WithCost` of the unstripped key. |
| `QuotationStore.FolderStore.SaveQuotation` | main.py:254-278 | A missing folder gives NotFound. A falsy quotationName gives InvalidInput. Otherwise the whole quotation document is replaced, and the getter returns it. |
| `QuotationStore.FolderStore.SaveGrandTotal` | main.py:324-346 | A missing folder gives NotFound. Only a missing or null grand_total gives InvalidInput, so 0 is accepted. Otherwise the whole document is replaced, and the getter returns it. |
| `QuotationStore.FolderStore.ListWithDates` | main.py:219-249 | Each folder is listed exactly once, with `UploadDate` of its upload.json and its mtime. |

## Left out

- HTTP routing, CORS, status codes and reply messages. Only the error kind and the returned value are modelled.
- Zip handling: writing the temporary archive, `extractall`, and unlinking the archive. A corrupt archive (an uncaught 500) is left out too. Archive entries named like sidecars (`parts.json`, `costs.json`, ...) are not modelled; only `upload.json` is taken from the archive.
- Which `.xlsx` file `rglob` finds first: the order depends on the filesystem. The found sheet's rows are an input.
- Workbook loading and cell typing (openpyxl). Cells are the `Cell` datatype, and Python's `int()` on a cell is the parameter `toInt`. `int()` truncating a float is therefore not modelled. A sheet with fewer than five columns raises during the loop. That case is folded into `Corrupt`, together with a workbook that cannot be loaded.
- Failures while writing sidecar files, and `rmtree` failing (the 500 replies at main.py:125-126, 169-170, 275-276, 343-344). Every write is assumed to succeed.
- A sidecar that holds valid JSON of the wrong shape (for example a list in costs.json) is not modelled: parts.json and costs.json hold objects or are `Unreadable`. Request bodies that are not JSON objects (rejected by the framework) and a missing upload file name are left out too.
- Folder names are single path components. A name containing `/` is not modelled, and neither is path traversal through names or file paths.
- The names `"."` and `".."` in the folder handlers: the code resolves them to the upload directory or its parent, so its getters read sidecars there, its saves write there, and `delete_folder("..")` passes the check at main.py:119 and removes the parent directory. The model holds no folder under these names (uploads of them get `Conflict`), so every handler answers NotFound for them. The check that the upload directory exists (main.py:221-222) is left out: the directory is created at start-up.
- `list_folders`, `list_files` and `download_file`: directory walks and file streaming.
- Floating-point JSON numbers: `Json` numbers are integers.
- Concurrent requests racing on the same costs.json: each operation is modelled as atomic.
