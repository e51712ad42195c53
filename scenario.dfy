/** Clients of the folder store: what a caller can conclude from the
    contracts alone, over a folder's life from upload to delete. */
module Scenario {
  import opened Base
  import opened Strings
  import opened JsonValue
  import opened Extraction
  import opened QuotationStore

  /** Upload a sheet, look a part up, and try the same name again. */
  method UploadThenLookUp(toInt: IntConversion, header: Row)
    requires toInt(Integer(5)) == Some(5) && toInt(Integer(7)) == Some(7) && toInt(Text("x")) == None
  {
    var store := new FolderStore(map[]);
    var rows := [header, (Text("A1"), Integer(5)), (Text("A1"), Integer(7)),
                 (Text(""), Integer(3)), (Text("B2"), Text("x"))];
    SampleSheet(header, toInt);
    assert |map["A1" := 7]| == 1;
    assert EndsWith("job.zip", ".zip") && FolderName("job.zip") == "job";
    var up := store.Upload("job.zip", Sheet(rows), Absent, toInt);
    assert up == Ok(PartsLoaded(1));
    StrippedIsFixed("A1");
    assert GetPartQuantity(store.folders, "job", "A1") == Ok(("A1", 7));

    var again := store.Upload("job.zip", NoSpreadsheet, Absent, toInt);
    assert again == Err(Conflict);
    assert EndsWith(".zip", ".zip") && FolderName(".zip") == "";
    var bare := store.Upload(".zip", NoSpreadsheet, Absent, toInt);
    assert bare == Err(Conflict);
  }

  /** An archive named like an existing folder cannot be written; an empty
      archive can be uploaded again and again, since it leaves no folder. */
  method UploadEdgeCases(toInt: IntConversion) {
    var store := new FolderStore(map[]);
    assert EndsWith("x.zip.zip", ".zip") && FolderName("x.zip.zip") == "x.zip";
    var outer := store.Upload("x.zip.zip", NoSpreadsheet, Absent, toInt);
    assert outer == Ok(NoExcelFile) && "x.zip" in store.folders;
    assert EndsWith("x.zip", ".zip") && FolderName("x.zip") == "x";
    var inner := store.Upload("x.zip", NoSpreadsheet, Absent, toInt);
    assert inner == Err(Internal) && "x" !in store.folders;

    assert EndsWith("e.zip", ".zip") && FolderName("e.zip") == "e";
    var first := store.Upload("e.zip", EmptyArchive, Absent, toInt);
    var second := store.Upload("e.zip", EmptyArchive, Absent, toInt);
    assert first == Ok(NoExcelFile) && second == Ok(NoExcelFile);
    assert "e" !in store.folders;
  }

  /** Two cost saves for one part: the second replaces the first. */
  method SaveCostTwice(store: FolderStore)
    requires store.Valid() && "job" in store.folders && store.folders["job"].costs.Absent?
    modifies store
  {
    assert GetCosts(store.folders, "job") == Ok(map[]);
    var first := map["filename" := JStr("A1"), "unit" := JNum(10)];
    assert Get(first, "filename") == JStr("A1");
    var saved := store.SaveCost("job", first, "2024-01-01T00:00:00");
    assert saved == Ok("A1");
    var second := map["filename" := JStr("A1"), "unit" := JNum(12)];
    assert Get(second, "filename") == JStr("A1");
    saved := store.SaveCost("job", second, "2024-01-02T00:00:00");
    assert saved == Ok("A1");
    StrippedIsFixed("A1");
    assert GetCostForPart(store.folders, "job", "A1") == Ok(("A1", Stamped(second, "2024-01-02T00:00:00")));
  }

  /** 0 is a valid grand total, an empty quotation name is not; after a
      delete every getter answers NotFound. */
  method TotalsThenDelete(store: FolderStore)
    requires store.Valid() && "job" in store.folders && store.folders["job"].quotation.Absent?
    modifies store
  {
    var grandTotal := map["grand_total" := JNum(0)];
    assert Get(grandTotal, "grand_total") == JNum(0);
    var total := store.SaveGrandTotal("job", grandTotal, "2024-01-03T00:00:00");
    assert total == Ok(JNum(0));
    var noName := map["quotationName" := JStr("")];
    assert Get(noName, "quotationName") == JStr("");
    var quote := store.SaveQuotation("job", noName, "2024-01-03T00:00:00");
    assert quote == Err(InvalidInput);
    assert GetQuotation(store.folders, "job") == Ok(NoQuotation);

    var gone := store.Delete("job");
    assert gone == Ok(());
    assert GetPartQuantity(store.folders, "job", "A1") == Err(NotFound);
    assert GetGrandTotal(store.folders, "job") == Err(NotFound);
    var twice := store.Delete("job");
    assert twice == Err(NotFound);
  }
}
