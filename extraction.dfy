/** The spreadsheet pass of the upload handler: rows of the first sheet become
    the part-number to quantity table saved as parts.json. */
module Extraction {
  import opened Base
  import opened Strings

  /** A cell value as the workbook library hands it over. `Other` stands for
      every remaining cell type (float, bool, date, ...): its `str()` text and
      its Python truthiness are all the pass looks at. */
  datatype Cell =
    | Empty
    | Text(text: string)
    | Integer(value: int)
    | Other(repr: string, truthy: bool)

  /** The two cells the pass reads from a row: column B (part number) and
      column E (quantity). */
  type Row = (Cell, Cell)

  /** Python's `int()` on a cell: a partial conversion, None where `int()` raises.
      It is a parameter of the model, not a definition of it. */
  type IntConversion = Cell -> Option<int>

  predicate Truthy(c: Cell) {
    match c
    case Empty => false
    case Text(s) => s != ""
    case Integer(n) => n != 0
    case Other(_, t) => t
  }

  /** Python's `str()` on a cell value. */
  function Str(c: Cell): string {
    match c
    case Empty => "None"
    case Text(s) => s
    case Integer(n) => IntToDecimal(n)
    case Other(repr, _) => repr
  }

  /** A data row adds an entry: both cells truthy and the quantity converts. */
  predicate Contributes(row: Row, toInt: IntConversion) {
    Truthy(row.0) && Truthy(row.1) && toInt(row.1).Some?
  }

  /** The key a row is stored under: `str(part_no).strip()`. */
  function Key(row: Row): string {
    Strip(Str(row.0))
  }

  function Quantity(row: Row, toInt: IntConversion): int
    requires Contributes(row, toInt)
  {
    toInt(row.1).value
  }

  /** The table after the data rows `body`, one row at a time, later rows
      overwriting earlier ones. */
  function Scan(body: seq<Row>, toInt: IntConversion): map<string, int> {
    if body == [] then map[]
    else
      var table := Scan(body[..|body| - 1], toInt);
      var row := body[|body| - 1];
      if Contributes(row, toInt) then table[Key(row) := Quantity(row, toInt)] else table
  }

  /** The table built from a sheet whose first row is the header. */
  function Parts(rows: seq<Row>, toInt: IntConversion): map<string, int> {
    if rows == [] then map[] else Scan(rows[1..], toInt)
  }

  /** The extraction loop: skips the header, keeps each row whose two cells are
      truthy, skips a row whose quantity does not convert and goes on. */
  method ExtractParts(rows: seq<Row>, toInt: IntConversion) returns (parts: map<string, int>)
    ensures parts == Parts(rows, toInt)
  {
    parts := map[];
    if rows == [] {
      return;
    }
    var i := 1;
    while i < |rows|
      invariant 1 <= i <= |rows|
      invariant parts == Scan(rows[1..i], toInt)
    {
      var (partNo, quantity) := rows[i];
      if Truthy(partNo) && Truthy(quantity) {
        match toInt(quantity)
        case Some(q) =>
          parts := parts[Strip(Str(partNo)) := q];
        case None =>
      }
      assert rows[1..i + 1][..i - 1] == rows[1..i];
      i := i + 1;
    }
    assert rows[1..i] == rows[1..];
  }

  /** Row `i` of `body` is the last contributing row with its key. */
  ghost predicate LastWithKey(body: seq<Row>, toInt: IntConversion, i: int) {
    && 0 <= i < |body|
    && Contributes(body[i], toInt)
    && forall j :: i < j < |body| && Contributes(body[j], toInt) ==> Key(body[j]) != Key(body[i])
  }

  /** Some contributing row of `body` has key `k`. */
  ghost predicate KeyOfSomeRow(body: seq<Row>, toInt: IntConversion, k: string) {
    exists i :: 0 <= i < |body| && Contributes(body[i], toInt) && Key(body[i]) == k
  }

  lemma KeyOfSomeRowSnoc(init: seq<Row>, last: Row, toInt: IntConversion, k: string)
    ensures KeyOfSomeRow(init + [last], toInt, k) <==>
      KeyOfSomeRow(init, toInt, k) || (Contributes(last, toInt) && Key(last) == k)
  {
    var body := init + [last];
    if KeyOfSomeRow(init, toInt, k) {
      var i :| 0 <= i < |init| && Contributes(init[i], toInt) && Key(init[i]) == k;
      assert body[i] == init[i];
    }
    if Contributes(last, toInt) && Key(last) == k {
      assert body[|init|] == last;
    }
    if KeyOfSomeRow(body, toInt, k) {
      var i :| 0 <= i < |body| && Contributes(body[i], toInt) && Key(body[i]) == k;
      if i < |init| {
        assert body[i] == init[i];
      }
    }
  }

  /** The keys of the scanned table are exactly the keys of contributing rows. */
  lemma {:induction false} ScanKeys(body: seq<Row>, toInt: IntConversion)
    ensures forall k :: k in Scan(body, toInt) <==> KeyOfSomeRow(body, toInt, k)
  {
    if body != [] {
      var init, last := body[..|body| - 1], body[|body| - 1];
      assert body == init + [last];
      ScanKeys(init, toInt);
      forall k ensures k in Scan(body, toInt) <==> KeyOfSomeRow(body, toInt, k) {
        KeyOfSomeRowSnoc(init, last, toInt, k);
      }
    }
  }

  /** A key's value comes from the last contributing row with that key. */
  lemma {:induction false} ScanLastWins(body: seq<Row>, toInt: IntConversion, i: int)
    requires LastWithKey(body, toInt, i)
    ensures Key(body[i]) in Scan(body, toInt)
    ensures Scan(body, toInt)[Key(body[i])] == Quantity(body[i], toInt)
  {
    var init := body[..|body| - 1];
    if i < |body| - 1 {
      assert init[i] == body[i];
      forall j | i < j < |init| ensures init[j] == body[j] { }
      ScanLastWins(init, toInt, i);
    }
  }

  /** Appending a row that does not contribute the same key keeps a row
      the last one with its key. */
  lemma LastWithKeySnoc(init: seq<Row>, last: Row, toInt: IntConversion, i: int)
    requires LastWithKey(init, toInt, i)
    requires !(Contributes(last, toInt) && Key(last) == Key(init[i]))
    ensures LastWithKey(init + [last], toInt, i)
  {
    var body := init + [last];
    assert body[i] == init[i];
    forall j | i < j < |body| && Contributes(body[j], toInt) ensures Key(body[j]) != Key(body[i]) {
      if j < |init| { assert body[j] == init[j]; } else { assert body[j] == last; }
    }
  }

  /** Every key of the scanned table holds the quantity of the last
      contributing row with that key. */
  lemma {:induction false} ScanValueFromLast(body: seq<Row>, toInt: IntConversion, k: string)
    requires k in Scan(body, toInt)
    ensures exists i :: LastWithKey(body, toInt, i) && Key(body[i]) == k && Scan(body, toInt)[k] == Quantity(body[i], toInt)
  {
    var init, last := body[..|body| - 1], body[|body| - 1];
    assert body == init + [last];
    if Contributes(last, toInt) && Key(last) == k {
      assert LastWithKey(body, toInt, |body| - 1);
    } else {
      assert k in Scan(init, toInt) && Scan(body, toInt)[k] == Scan(init, toInt)[k];
      ScanValueFromLast(init, toInt, k);
      var i :| LastWithKey(init, toInt, i) && Key(init[i]) == k && Scan(init, toInt)[k] == Quantity(init[i], toInt);
      LastWithKeySnoc(init, last, toInt, i);
      assert body[i] == init[i];
    }
  }

  /** Removing a row that does not contribute leaves the scan unchanged: a
      skipped row, a failed conversion included, does not stop the pass. */
  lemma {:induction false} ScanSkipsRow(init: seq<Row>, row: Row, rest: seq<Row>, toInt: IntConversion)
    requires !Contributes(row, toInt)
    ensures Scan(init + [row] + rest, toInt) == Scan(init + rest, toInt)
  {
    if rest == [] {
      assert (init + [row] + rest)[..|init|] == init + rest;
    } else {
      var front, last := rest[..|rest| - 1], rest[|rest| - 1];
      ScanSkipsRow(init, row, front, toInt);
      assert (init + [row] + rest)[..|init| + 1 + |front|] == init + [row] + front;
      assert (init + rest)[..|init| + |front|] == init + front;
    }
  }

  /** A data row (never the header) has its key in the table exactly when
      some contributing data row has that key. */
  ghost predicate KeyOfSomeDataRow(rows: seq<Row>, toInt: IntConversion, k: string) {
    exists i :: 1 <= i < |rows| && Contributes(rows[i], toInt) && Key(rows[i]) == k
  }

  /** Which rows contribute: the keys of the table are exactly the stripped
      part numbers of the data rows whose two cells are truthy and whose
      quantity converts. The header row (index 0) never contributes. */
  lemma PartsKeys(rows: seq<Row>, toInt: IntConversion)
    ensures forall k :: k in Parts(rows, toInt) <==> KeyOfSomeDataRow(rows, toInt, k)
  {
    if rows != [] {
      var body := rows[1..];
      ScanKeys(body, toInt);
      forall k ensures KeyOfSomeRow(body, toInt, k) <==> KeyOfSomeDataRow(rows, toInt, k) {
        if KeyOfSomeRow(body, toInt, k) {
          var i :| 0 <= i < |body| && Contributes(body[i], toInt) && Key(body[i]) == k;
          assert rows[i + 1] == body[i];
        }
        if KeyOfSomeDataRow(rows, toInt, k) {
          var i :| 1 <= i < |rows| && Contributes(rows[i], toInt) && Key(rows[i]) == k;
          assert body[i - 1] == rows[i];
        }
      }
    }
  }

  /** Last write wins: the quantity stored under the key of the last
      contributing data row with that key is that row's converted quantity,
      and every stored quantity comes from such a row. */
  lemma PartsValues(rows: seq<Row>, toInt: IntConversion)
    ensures forall i :: 1 <= i < |rows| && LastWithKey(rows, toInt, i) ==>
      Key(rows[i]) in Parts(rows, toInt) && Parts(rows, toInt)[Key(rows[i])] == Quantity(rows[i], toInt)
    ensures forall k :: k in Parts(rows, toInt) ==>
      exists i :: 1 <= i < |rows| && LastWithKey(rows, toInt, i) && Key(rows[i]) == k && Parts(rows, toInt)[k] == Quantity(rows[i], toInt)
  {
    if rows != [] {
      var body := rows[1..];
      forall i | 1 <= i < |rows| && LastWithKey(rows, toInt, i)
        ensures Key(rows[i]) in Parts(rows, toInt) && Parts(rows, toInt)[Key(rows[i])] == Quantity(rows[i], toInt)
      {
        assert body[i - 1] == rows[i];
        forall j | i - 1 < j < |body| && Contributes(body[j], toInt) ensures Key(body[j]) != Key(body[i - 1]) {
          assert body[j] == rows[j + 1];
        }
        ScanLastWins(body, toInt, i - 1);
      }
      forall k | k in Parts(rows, toInt)
        ensures exists i :: 1 <= i < |rows| && LastWithKey(rows, toInt, i) && Key(rows[i]) == k && Parts(rows, toInt)[k] == Quantity(rows[i], toInt)
      {
        ScanValueFromLast(body, toInt, k);
        var i :| LastWithKey(body, toInt, i) && Key(body[i]) == k && Scan(body, toInt)[k] == Quantity(body[i], toInt);
        assert rows[i + 1] == body[i];
        forall j | i + 1 < j < |rows| && Contributes(rows[j], toInt) ensures Key(rows[j]) != Key(rows[i + 1]) {
          assert rows[j] == body[j - 1];
        }
        assert LastWithKey(rows, toInt, i + 1);
      }
    }
  }

  /** The keys contributed by data rows. */
  ghost function DataRowKeys(rows: seq<Row>, toInt: IntConversion): set<string> {
    set i | 1 <= i < |rows| && Contributes(rows[i], toInt) :: Key(rows[i])
  }

  /** The upload reports `len(parts_dict)`: the number of distinct keys among
      contributing data rows. */
  lemma PartsCount(rows: seq<Row>, toInt: IntConversion)
    ensures |Parts(rows, toInt)| == |DataRowKeys(rows, toInt)|
  {
    PartsKeys(rows, toInt);
    var keys := DataRowKeys(rows, toInt);
    forall k ensures k in Parts(rows, toInt).Keys <==> k in keys {
      if k in keys {
        var i :| 1 <= i < |rows| && Contributes(rows[i], toInt) && Key(rows[i]) == k;
      }
    }
    assert Parts(rows, toInt).Keys == keys;
  }

  /** A non-contributing data row can be dropped anywhere after the header
      without changing the table. */
  lemma PartsSkipRow(front: seq<Row>, row: Row, rest: seq<Row>, toInt: IntConversion)
    requires front != [] && !Contributes(row, toInt)
    ensures Parts(front + [row] + rest, toInt) == Parts(front + rest, toInt)
  {
    assert (front + [row] + rest)[1..] == front[1..] + [row] + rest;
    assert (front + rest)[1..] == front[1..] + rest;
    ScanSkipsRow(front[1..], row, rest, toInt);
  }

  /** An integer part number is stored under its decimal text, which is
      never empty. */
  lemma IntegerPartNumberKey(n: int, quantity: Cell)
    ensures Key((Integer(n), quantity)) == IntToDecimal(n) != ""
  {
    StrippedIsFixed(IntToDecimal(n));
  }

  /** A part number made of spaces only is truthy but strips to the empty
      key: the table can hold "". */
  lemma BlankPartNumberGivesEmptyKey(header: Row, toInt: IntConversion)
    requires toInt(Integer(1)) == Some(1)
    ensures Parts([header, (Text("  "), Integer(1))], toInt) == map["" := 1]
  {
    var row := (Text("  "), Integer(1));
    assert [header, row][1..] == [row];
    assert [row][..0] == [];
    assert Key(row) == "" by {
      assert "  " + "" + "" == "  ";
      StripIgnoresPadding("  ", "", "");
      StrippedIsFixed("");
    }
    assert Scan([row], toInt) == map[][Key(row) := 1];
  }

  /** Duplicates, a blank part number and a non-numeric quantity on one sheet:
      only the last "A1" row survives. */
  lemma SampleSheet(header: Row, toInt: IntConversion)
    requires toInt(Integer(5)) == Some(5) && toInt(Integer(7)) == Some(7) && toInt(Text("x")) == None
    ensures Parts([header, (Text("A1"), Integer(5)), (Text("A1"), Integer(7)),
                   (Text(""), Integer(3)), (Text("B2"), Text("x"))], toInt) == map["A1" := 7]
  {
    var rows := [header, (Text("A1"), Integer(5)), (Text("A1"), Integer(7)),
                 (Text(""), Integer(3)), (Text("B2"), Text("x"))];
    var body := rows[1..];
    StrippedIsFixed("A1");
    assert Key(body[0]) == "A1" && Key(body[1]) == "A1";
    assert body[..1][..0] == [];
    assert Scan(body[..1], toInt) == map["A1" := 5];
    assert body[..2][..1] == body[..1];
    assert Scan(body[..2], toInt) == map["A1" := 7];
    assert body[..3][..2] == body[..2];
    assert Scan(body[..3], toInt) == map["A1" := 7];
    assert body[..3] == body[..|body| - 1];
  }
}
