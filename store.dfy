/** The folder store behind the HTTP handlers: one entry per uploaded folder
    under the upload directory, each with its JSON sidecar files. */
module QuotationStore {
  import opened Base
  import opened Strings
  import opened JsonValue
  import Extraction

  /** An ISO-8601 time as `datetime.isoformat()` renders it; never empty. */
  type Timestamp = s: string | s != "" witness "1970-01-01T00:00:00"

  /** A sidecar file: missing, present but not readable as JSON, or loaded. */
  datatype Doc<T> = Absent | Unreadable | Present(value: T)

  /** An uploaded folder: parts.json, costs.json, quotation.json,
      grand_total.json and upload.json. */
  datatype Folder = Folder(
    parts: Doc<map<string, int>>,
    costs: Doc<map<string, Json>>,
    quotation: Doc<Json>,
    grandTotal: Doc<Json>,
    uploadInfo: Doc<Json>)

  /** What the upload finds once the archive is extracted: an archive with no
      entries (extraction then creates no folder at all), no .xlsx file, one
      that cannot be loaded or read, or the (column B, column E) cells of
      every row of its first sheet, header first. */
  datatype Spreadsheet = EmptyArchive | NoSpreadsheet | Corrupt | Sheet(rows: seq<Extraction.Row>)

  /** The three success replies of the upload handler. */
  datatype UploadReport = NoExcelFile | ParsingFailed | PartsLoaded(count: nat)

  /** Names that denote the upload directory itself or its parent, which
      always exist: "" (from ".zip"), "." and "..". */
  predicate Reserved(name: string) {
    name == "" || name == "." || name == ".."
  }

  /** The folder an archive is extracted into: its file name without ".zip". */
  function FolderName(filename: string): (name: string)
    requires EndsWith(filename, ".zip")
    ensures name + ".zip" == filename
  {
    filename[..|filename| - 4]
  }

  /** A freshly extracted folder: only the parts table (if the spreadsheet was
      read) and whatever upload.json the archive carried. */
  function NewFolder(parts: Doc<map<string, int>>, uploadInfo: Doc<Json>): Folder {
    Folder(parts, Absent, Absent, Absent, uploadInfo)
  }

  /** The record stored for a part: the request body with "_saved_at" set. */
  function Stamped(payload: map<string, Json>, now: Timestamp): (v: Json)
    ensures v.JObj? && v.fields.Keys == payload.Keys + {"_saved_at"}
    ensures v.fields["_saved_at"] == JStr(now)
    ensures forall k :: k in payload && k != "_saved_at" ==> v.fields[k] == payload[k]
  {
    JObj(payload["_saved_at" := JStr(now)])
  }

  /** The costs document a save starts from: a missing or unreadable
      costs.json counts as empty. */
  function CostsBefore(costs: Doc<map<string, Json>>): map<string, Json> {
    if costs.Present? then costs.value else map[]
  }

  /** The folder after a cost save under `key`: that entry replaced by the
      stamped payload, every other entry and every other sidecar as before. */
  function WithCost(f: Folder, key: string, payload: map<string, Json>, now: Timestamp): (g: Folder)
    ensures g.costs.Present? && g.costs.value.Keys == CostsBefore(f.costs).Keys + {key}
    ensures g.costs.value[key] == Stamped(payload, now)
    ensures forall k :: k in CostsBefore(f.costs) && k != key ==> g.costs.value[k] == CostsBefore(f.costs)[k]
    ensures g.(costs := f.costs) == f
  {
    f.(costs := Present(CostsBefore(f.costs)[key := Stamped(payload, now)]))
  }

  /** quotation.json as the save writes it. */
  function QuotationDoc(name: Json, now: Timestamp): Json {
    JObj(map["quotationName" := name, "saved_at" := JStr(now)])
  }

  /** grand_total.json as the save writes it. */
  function GrandTotalDoc(total: Json, now: Timestamp): Json {
    JObj(map["grand_total" := total, "saved_at" := JStr(now)])
  }

  /** The reply when a folder has no quotation.json. */
  const NoQuotation: Json := JObj(map["message" := JStr("No quotation name found"), "quotationName" := JNull])

  /** The reply when a folder has no grand_total.json. */
  const NoGrandTotal: Json := JObj(map["grand_total" := JNull])

  /** GET /folders/{name}/costs/: the whole costs document, empty when the
      folder has none yet. */
  function GetCosts(fs: map<string, Folder>, name: string): (r: Result<map<string, Json>>)
    ensures name !in fs ==> r == Err(NotFound)
    ensures name in fs ==> match fs[name].costs
      case Absent => r == Ok(map[])
      case Unreadable => r == Err(Internal)
      case Present(costs) => r == Ok(costs)
  {
    if name !in fs then Err(NotFound)
    else match fs[name].costs
      case Absent => Ok(map[])
      case Unreadable => Err(Internal)
      case Present(costs) => Ok(costs)
  }

  /** GET /folders/{name}/costs/{partNo}: the entry under the stripped part
      number, with that key. Missing folder, missing costs.json and missing
      key are all NotFound, checked in that order. */
  function GetCostForPart(fs: map<string, Folder>, name: string, partNo: string): (r: Result<(string, Json)>)
    ensures r.Ok? <==> name in fs && fs[name].costs.Present? && Strip(partNo) in fs[name].costs.value
    ensures r.Ok? ==> r.value == (Strip(partNo), fs[name].costs.value[Strip(partNo)])
    ensures r.Err? ==> r.error == if name in fs && fs[name].costs.Unreadable? then Internal else NotFound
  {
    if name !in fs then Err(NotFound)
    else match fs[name].costs
      case Absent => Err(NotFound)
      case Unreadable => Err(Internal)
      case Present(costs) =>
        var key := Strip(partNo);
        if key in costs then Ok((key, costs[key])) else Err(NotFound)
  }

  /** GET /folders/{name}/parts/{partNo}: the quantity under the stripped
      part number, with that key. */
  function GetPartQuantity(fs: map<string, Folder>, name: string, partNo: string): (r: Result<(string, int)>)
    ensures r.Ok? <==> name in fs && fs[name].parts.Present? && Strip(partNo) in fs[name].parts.value
    ensures r.Ok? ==> r.value == (Strip(partNo), fs[name].parts.value[Strip(partNo)])
    ensures r.Err? ==> r.error == if name in fs && fs[name].parts.Unreadable? then Internal else NotFound
  {
    if name !in fs then Err(NotFound)
    else match fs[name].parts
      case Absent => Err(NotFound)
      case Unreadable => Err(Internal)
      case Present(parts) =>
        var key := Strip(partNo);
        if key in parts then Ok((key, parts[key])) else Err(NotFound)
  }

  /** GET /folders/{name}/quotation/: the stored document, or a placeholder
      with a null quotationName when there is none. */
  function GetQuotation(fs: map<string, Folder>, name: string): (r: Result<Json>)
    ensures name !in fs <==> r == Err(NotFound)
    ensures r == Err(Internal) <==> name in fs && fs[name].quotation.Unreadable?
    ensures r.Ok? ==> r.value == if fs[name].quotation.Present? then fs[name].quotation.value else NoQuotation
  {
    if name !in fs then Err(NotFound)
    else match fs[name].quotation
      case Absent => Ok(NoQuotation)
      case Unreadable => Err(Internal)
      case Present(doc) => Ok(doc)
  }

  /** GET /folders/{name}/grandtotal/: the stored document, or a placeholder
      with a null grand_total when there is none. */
  function GetGrandTotal(fs: map<string, Folder>, name: string): (r: Result<Json>)
    ensures name !in fs <==> r == Err(NotFound)
    ensures r == Err(Internal) <==> name in fs && fs[name].grandTotal.Unreadable?
    ensures r.Ok? ==> r.value == if fs[name].grandTotal.Present? then fs[name].grandTotal.value else NoGrandTotal
  {
    if name !in fs then Err(NotFound)
    else match fs[name].grandTotal
      case Absent => Ok(NoGrandTotal)
      case Unreadable => Err(Internal)
      case Present(doc) => Ok(doc)
  }

  /** The upload date listed for a folder: upload.json's "upload_date" when
      the file loads as an object and that value is truthy, else the folder's
      modification time. Never null. */
  function UploadDate(uploadInfo: Doc<Json>, mtime: Timestamp): (d: Json)
    ensures Truthy(d) && d != JNull
    ensures uploadInfo.Present? && uploadInfo.value.JObj? && Truthy(Get(uploadInfo.value.fields, "upload_date")) ==>
      d == Get(uploadInfo.value.fields, "upload_date")
    ensures d != JStr(mtime) ==>
      uploadInfo.Present? && uploadInfo.value.JObj? && d == Get(uploadInfo.value.fields, "upload_date")
  {
    match uploadInfo
    case Present(JObj(fields)) =>
      var date := Get(fields, "upload_date");
      if Truthy(date) then date else JStr(mtime)
    case _ => JStr(mtime)
  }

  /** The single-entry lookup agrees with the whole-document getter: the
      same errors, and the entry under the stripped key. A folder without
      costs.json lists no costs and finds no part. */
  lemma CostLookupMatchesListing(fs: map<string, Folder>, name: string, partNo: string)
    ensures GetCosts(fs, name).Err? ==> GetCostForPart(fs, name, partNo) == Err(GetCosts(fs, name).error)
    ensures GetCosts(fs, name).Ok? ==>
      var costs := GetCosts(fs, name).value;
      GetCostForPart(fs, name, partNo) ==
        if Strip(partNo) in costs then Ok((Strip(partNo), costs[Strip(partNo)])) else Err(NotFound)
  {
  }

  /** Save then look up: an entry saved under a key without surrounding
      whitespace is found by that key, with any whitespace around the query,
      and holds the payload stamped with the save time. */
  lemma SavedCostIsFound(fs: map<string, Folder>, name: string, key: string, payload: map<string, Json>,
                         now: Timestamp, pre: string, post: string)
    requires name in fs && IsStripped(key) && AllSpace(pre) && AllSpace(post)
    ensures GetCostForPart(fs[name := WithCost(fs[name], key, payload, now)], name, pre + key + post)
      == Ok((key, Stamped(payload, now)))
  {
    StripIgnoresPadding(pre, key, post);
    StrippedIsFixed(key);
  }

  /** The save does not strip its key but the lookup strips its query, so an
      entry saved under a key with surrounding whitespace is never found: every
      lookup answers as it would on the costs document the save started from. */
  lemma PaddedCostKeyIsUnreachable(fs: map<string, Folder>, name: string, key: string,
                                   payload: map<string, Json>, now: Timestamp, partNo: string)
    requires name in fs && !IsStripped(key)
    ensures var before := fs[name := fs[name].(costs := Present(CostsBefore(fs[name].costs)))];
      GetCostForPart(fs[name := WithCost(fs[name], key, payload, now)], name, partNo)
        == GetCostForPart(before, name, partNo)
  {
    var a, b := StripBounds(partNo);
    assert Strip(partNo) != key;
  }

  /** Looking up a part of an uploaded sheet, with or without whitespace
      around the query, gives the quantity of the last contributing row with
      that part number. */
  lemma UploadedPartIsFound(fs: map<string, Folder>, name: string, rows: seq<Extraction.Row>,
                            toInt: Extraction.IntConversion, i: int, pre: string, post: string)
    requires name in fs && fs[name].parts == Present(Extraction.Parts(rows, toInt))
    requires 1 <= i && Extraction.LastWithKey(rows, toInt, i)
    requires AllSpace(pre) && AllSpace(post)
    ensures GetPartQuantity(fs, name, pre + Extraction.Key(rows[i]) + post)
      == Ok((Extraction.Key(rows[i]), Extraction.Quantity(rows[i], toInt)))
  {
    var key := Extraction.Key(rows[i]);
    var a, b := StripBounds(Extraction.Str(rows[i].0));
    StrippedIsFixed(key);
    StripIgnoresPadding(pre, key, post);
    Extraction.PartsValues(rows, toInt);
  }

  /** A part number that no contributing row of the uploaded sheet carries,
      once stripped, is NotFound. */
  lemma UnlistedPartIsNotFound(fs: map<string, Folder>, name: string, rows: seq<Extraction.Row>,
                               toInt: Extraction.IntConversion, partNo: string)
    requires name in fs && fs[name].parts == Present(Extraction.Parts(rows, toInt))
    requires !Extraction.KeyOfSomeDataRow(rows, toInt, Strip(partNo))
    ensures GetPartQuantity(fs, name, partNo) == Err(NotFound)
  {
    Extraction.PartsKeys(rows, toInt);
  }

  /** Save then list: the costs document holds the stamped payload under the
      save's key next to every entry it held before. */
  lemma SavedCostIsListed(fs: map<string, Folder>, name: string, key: string, payload: map<string, Json>,
                          now: Timestamp)
    requires name in fs
    ensures GetCosts(fs[name := WithCost(fs[name], key, payload, now)], name)
      == Ok(CostsBefore(fs[name].costs)[key := Stamped(payload, now)])
  {
  }

  /** A freshly uploaded folder has no costs, no quotation name and no grand
      total yet: each getter gives its empty reply, not an error. */
  lemma NewFolderIsBlank(fs: map<string, Folder>, name: string, parts: Doc<map<string, int>>, uploadInfo: Doc<Json>)
    ensures var after := fs[name := NewFolder(parts, uploadInfo)];
      && GetCosts(after, name) == Ok(map[])
      && GetQuotation(after, name) == Ok(NoQuotation)
      && GetGrandTotal(after, name) == Ok(NoGrandTotal)
  {
  }

  /** The upload directory: the folders that exist, by name. */
  class FolderStore {
    var folders: map<string, Folder>

    /** No stored name resolves to the upload directory or its parent.
        For "", "." and ".." the handlers' paths reach those directories
        instead of a folder; Upload refuses the names (Conflict), so the
        model never holds a folder under them. */
    ghost predicate Valid()
      reads this
    {
      forall name :: name in folders ==> !Reserved(name)
    }

    /** Start-up: the upload directory is created if missing and otherwise
        keeps the folders of earlier runs. */
    constructor (existing: map<string, Folder>)
      requires forall name :: name in existing ==> !Reserved(name)
      ensures Valid() && folders == existing
    {
      folders := existing;
    }

    /** POST /upload/: a ".zip" file name whose stem is not taken becomes a new
        folder; the spreadsheet in it, if any, gives its parts table. The
        archive is first written under its own file name in the upload
        directory, which fails (Internal) when a folder already has that
        name; an archive with no entries leaves no folder behind. */
    method Upload(filename: string, spreadsheet: Spreadsheet, uploadInfo: Doc<Json>, toInt: Extraction.IntConversion)
      returns (r: Result<UploadReport>)
      requires Valid()
      modifies this
      ensures Valid()
      ensures r == Err(InvalidInput) <==> !EndsWith(filename, ".zip")
      ensures r == Err(Conflict) <==>
        EndsWith(filename, ".zip") && (Reserved(FolderName(filename)) || FolderName(filename) in old(folders))
      ensures r == Err(Internal) <==>
        && EndsWith(filename, ".zip") && !Reserved(FolderName(filename))
        && FolderName(filename) !in old(folders) && filename in old(folders)
      ensures r.Ok? || r == Err(InvalidInput) || r == Err(Conflict) || r == Err(Internal)
      ensures r.Err? ==> folders == old(folders)
      ensures r.Ok? ==> EndsWith(filename, ".zip") && FolderName(filename) !in old(folders) && match spreadsheet
        case EmptyArchive =>
          && r.value == NoExcelFile
          && folders == old(folders)
        case NoSpreadsheet =>
          && r.value == NoExcelFile
          && folders == old(folders)[FolderName(filename) := NewFolder(Absent, uploadInfo)]
        case Corrupt =>
          && r.value == ParsingFailed
          && folders == old(folders)[FolderName(filename) := NewFolder(Absent, uploadInfo)]
        case Sheet(rows) =>
          && r.value == PartsLoaded(|Extraction.Parts(rows, toInt)|)
          && folders == old(folders)[FolderName(filename) := NewFolder(Present(Extraction.Parts(rows, toInt)), uploadInfo)]
    {
      if !EndsWith(filename, ".zip") {
        return Err(InvalidInput);
      }
      var name := FolderName(filename);
      if Reserved(name) || name in folders {
        return Err(Conflict);
      }
      if filename in folders {
        return Err(Internal);
      }
      match spreadsheet
      case EmptyArchive =>
        r := Ok(NoExcelFile);
      case NoSpreadsheet =>
        folders := folders[name := NewFolder(Absent, uploadInfo)];
        r := Ok(NoExcelFile);
      case Corrupt =>
        folders := folders[name := NewFolder(Absent, uploadInfo)];
        r := Ok(ParsingFailed);
      case Sheet(rows) =>
        var parts := Extraction.ExtractParts(rows, toInt);
        folders := folders[name := NewFolder(Present(parts), uploadInfo)];
        r := Ok(PartsLoaded(|parts|));
    }

    /** DELETE /folders/{name}/: the folder and all its sidecars go; every
        getter then answers NotFound. */
    method Delete(name: string) returns (r: Result<()>)
      requires Valid()
      modifies this
      ensures Valid()
      ensures r == Err(NotFound) <==> name !in old(folders)
      ensures r == Ok(()) <==> name in old(folders)
      ensures folders == old(folders) - {name}
      ensures GetCosts(folders, name) == Err(NotFound) && GetQuotation(folders, name) == Err(NotFound)
      ensures GetGrandTotal(folders, name) == Err(NotFound)
      ensures forall p :: GetCostForPart(folders, name, p) == Err(NotFound) && GetPartQuantity(folders, name, p) == Err(NotFound)
    {
      if name !in folders {
        return Err(NotFound);
      }
      folders := folders - {name};
      r := Ok(());
    }

    /** POST /folders/{name}/costs/: read costs.json (empty when missing or
        unreadable), store the payload stamped with the save time under its
        "filename" value, write it back. The key is not stripped. */
    method SaveCost(name: string, payload: map<string, Json>, now: Timestamp) returns (r: Result<string>)
      requires Valid()
      modifies this
      ensures Valid()
      ensures r == Err(NotFound) <==> name !in old(folders)
      ensures r == Err(InvalidInput) <==> name in old(folders) && !Truthy(Get(payload, "filename"))
      ensures r == Err(Internal) <==>
        name in old(folders) && Truthy(Get(payload, "filename")) && KeyText(payload["filename"]).None?
      ensures r.Ok? || r == Err(NotFound) || r == Err(InvalidInput) || r == Err(Internal)
      ensures r.Err? ==> folders == old(folders)
      ensures r.Ok? ==>
        && name in old(folders)
        && Some(r.value) == KeyText(payload["filename"])
        && folders == old(folders)[name := WithCost(old(folders)[name], r.value, payload, now)]
    {
      if name !in folders {
        return Err(NotFound);
      }
      var partNo := Get(payload, "filename");
      if !Truthy(partNo) {
        return Err(InvalidInput);
      }
      var existing: map<string, Json> := map[];
      match folders[name].costs {
        case Present(costs) => existing := costs;
        case Absent =>
        case Unreadable =>
      }
      var record := payload["_saved_at" := JStr(now)];
      match KeyText(partNo) {
        case None =>
          return Err(Internal);
        case Some(key) =>
          existing := existing[key := JObj(record)];
          folders := folders[name := folders[name].(costs := Present(existing))];
          r := Ok(key);
      }
    }

    /** POST /folders/{name}/quotation/: a truthy "quotationName" replaces the
        whole quotation document. */
    method SaveQuotation(name: string, payload: map<string, Json>, now: Timestamp) returns (r: Result<Json>)
      requires Valid()
      modifies this
      ensures Valid()
      ensures r == Err(NotFound) <==> name !in old(folders)
      ensures r == Err(InvalidInput) <==> name in old(folders) && !Truthy(Get(payload, "quotationName"))
      ensures r.Ok? || r == Err(NotFound) || r == Err(InvalidInput)
      ensures r.Err? ==> folders == old(folders)
      ensures r.Ok? ==>
        && name in old(folders)
        && r.value == payload["quotationName"]
        && folders == old(folders)[name := old(folders)[name].(quotation := Present(QuotationDoc(r.value, now)))]
        && GetQuotation(folders, name) == Ok(QuotationDoc(r.value, now))
    {
      if name !in folders {
        return Err(NotFound);
      }
      var quotationName := Get(payload, "quotationName");
      if !Truthy(quotationName) {
        return Err(InvalidInput);
      }
      folders := folders[name := folders[name].(quotation := Present(QuotationDoc(quotationName, now)))];
      r := Ok(quotationName);
    }

    /** POST /folders/{name}/grandtotal/: any non-null "grand_total" (0
        included) replaces the whole grand-total document. */
    method SaveGrandTotal(name: string, payload: map<string, Json>, now: Timestamp) returns (r: Result<Json>)
      requires Valid()
      modifies this
      ensures Valid()
      ensures r == Err(NotFound) <==> name !in old(folders)
      ensures r == Err(InvalidInput) <==> name in old(folders) && Get(payload, "grand_total") == JNull
      ensures r.Ok? || r == Err(NotFound) || r == Err(InvalidInput)
      ensures r.Err? ==> folders == old(folders)
      ensures r.Ok? ==>
        && name in old(folders)
        && r.value == payload["grand_total"]
        && folders == old(folders)[name := old(folders)[name].(grandTotal := Present(GrandTotalDoc(r.value, now)))]
        && GetGrandTotal(folders, name) == Ok(GrandTotalDoc(r.value, now))
    {
      if name !in folders {
        return Err(NotFound);
      }
      var total := Get(payload, "grand_total");
      if total == JNull {
        return Err(InvalidInput);
      }
      folders := folders[name := folders[name].(grandTotal := Present(GrandTotalDoc(total, now)))];
      r := Ok(total);
    }

    /** GET /folders_with_dates/: every folder once, with its upload date;
        `mtimeOf` gives each folder's modification time. */
    method ListWithDates(mtimeOf: string -> Timestamp) returns (entries: seq<(string, Json)>)
      ensures |entries| == |folders|
      ensures forall i :: 0 <= i < |entries| ==>
        entries[i].0 in folders && entries[i].1 == UploadDate(folders[entries[i].0].uploadInfo, mtimeOf(entries[i].0))
      ensures forall i, j :: 0 <= i < j < |entries| ==> entries[i].0 != entries[j].0
      ensures forall name :: name in folders ==> exists i :: 0 <= i < |entries| && entries[i].0 == name
    {
      entries := [];
      var remaining := folders.Keys;
      while remaining != {}
        invariant remaining <= folders.Keys
        invariant |entries| + |remaining| == |folders.Keys|
        invariant forall i :: 0 <= i < |entries| ==>
          entries[i].0 in folders && entries[i].0 !in remaining
          && entries[i].1 == UploadDate(folders[entries[i].0].uploadInfo, mtimeOf(entries[i].0))
        invariant forall i, j :: 0 <= i < j < |entries| ==> entries[i].0 != entries[j].0
        invariant forall name :: name in folders && name !in remaining ==>
          exists i :: 0 <= i < |entries| && entries[i].0 == name
      {
        var name :| name in remaining;
        ghost var listed := entries;
        entries := entries + [(name, UploadDate(folders[name].uploadInfo, mtimeOf(name)))];
        remaining := remaining - {name};
        forall n | n in folders && n !in remaining ensures exists i :: 0 <= i < |entries| && entries[i].0 == n {
          if n == name {
            assert entries[|entries| - 1].0 == n;
          } else {
            var i :| 0 <= i < |listed| && listed[i].0 == n;
            assert entries[i].0 == n;
          }
        }
      }
    }
  }
}
