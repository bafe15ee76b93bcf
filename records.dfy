/**
 * Reading and normalising the rows of an uploaded list: the csv-parser
 * header and value mapping, the CSV and Excel row mappings, the second
 * column detection and the transform that feed `distribute`, and the
 * read-side normaliser of `getLists`.
 */
module Records {
  import opened Wrappers
  import opened JsString
  import opened JsObject
  import opened Columns

  /** The canonical record a distribution stores. */
  datatype Record = Record(firstName: string, phone: string, notes: string)

  /** Both required fields hold a truthy (non-empty) value. */
  predicate Complete(r: Record)
  {
    r.firstName != "" && r.phone != ""
  }

  /** `{ firstName, phone, notes }` */
  function CanonicalObj(r: Record): Obj
  {
    [("firstName", r.firstName), ("phone", r.phone), ("notes", r.notes)]
  }

  /** `{ FirstName, Phone, Notes }`, the clean row of the Excel path. */
  function ExcelObj(r: Record): Obj
  {
    [("FirstName", r.firstName), ("Phone", r.phone), ("Notes", r.notes)]
  }

  function CanonicalObjs(recs: seq<Record>): (objs: seq<Obj>)
    ensures |objs| == |recs| && forall i :: 0 <= i < |recs| ==> objs[i] == CanonicalObj(recs[i])
  {
    seq(|recs|, i requires 0 <= i < |recs| => CanonicalObj(recs[i]))
  }

  function ExcelObjs(recs: seq<Record>): (objs: seq<Obj>)
    ensures |objs| == |recs| && forall i :: 0 <= i < |recs| ==> objs[i] == ExcelObj(recs[i])
  {
    seq(|recs|, i requires 0 <= i < |recs| => ExcelObj(recs[i]))
  }

  // ---------------------------------------------------------------
  // CSV path
  // ---------------------------------------------------------------

  /** `mapHeaders`: headers are trimmed, then lower-cased. */
  function CsvHeader(h: string): string
  {
    Lower(Trim(h))
  }

  /** `mapHeaders` and `mapValues` applied to each (header, value) cell of a line. */
  function CsvCells(cells: seq<(string, string)>): (r: seq<(string, string)>)
    ensures |r| == |cells|
    ensures forall i :: 0 <= i < |cells| ==> r[i] == (CsvHeader(cells[i].0), Trim(cells[i].1))
  {
    if cells == [] then []
    else [(CsvHeader(cells[0].0), Trim(cells[0].1))] + CsvCells(cells[1..])
  }

  /**
   * The row object csv-parser emits for one line: each mapped header in
   * turn is assigned its mapped value, so a repeated header keeps its
   * first position and its last value.
   */
  function CsvRow(cells: seq<(string, string)>): (row: Obj)
    ensures Distinct(Keys(row))
    ensures forall k :: k in Keys(row) <==> k in Keys(CsvCells(cells))
  {
    FromPairs(CsvCells(cells))
  }

  /** What the stream delivers: a parsed line, or an 'error' event. */
  datatype CsvEvent = Data(cells: seq<(string, string)>) | StreamError(message: string)

  /** The position of the first error event, or the length when there is none. */
  function FirstErrorIndex(events: seq<CsvEvent>): (i: nat)
    ensures i <= |events|
    ensures forall j :: 0 <= j < i ==> events[j].Data?
    ensures i < |events| ==> events[i].StreamError?
  {
    if events == [] || events[0].StreamError? then 0
    else
      var i := 1 + FirstErrorIndex(events[1..]);
      assert forall j :: 1 <= j < |events| ==> events[1..][j - 1] == events[j];
      i
  }

  /**
   * What the promise around the stream settles to: every row in order
   * when the stream ends without error, else the first error.
   */
  function CsvStreamResult(events: seq<CsvEvent>): (r: Result<seq<Obj>, string>)
    ensures r.Ok? <==> forall i :: 0 <= i < |events| ==> events[i].Data?
    ensures r.Ok? ==> |r.value| == |events|
                      && forall i :: 0 <= i < |events| ==> r.value[i] == CsvRow(events[i].cells)
    ensures r.Err? ==> exists i :: 0 <= i < |events| && events[i] == StreamError(r.error)
                                   && forall j :: 0 <= j < i ==> events[j].Data?
  {
    var e := FirstErrorIndex(events);
    if e < |events| then Err(events[e].message)
    else Ok(seq(|events|, i requires 0 <= i < |events| && events[i].Data? => CsvRow(events[i].cells)))
  }

  /** The `data` handler pushing each row into `results` until `end` or `error`. */
  method CollectCsvRows(events: seq<CsvEvent>) returns (r: Result<seq<Obj>, string>)
    ensures r == CsvStreamResult(events)
  {
    var results: seq<Obj> := [];
    var i := 0;
    while i < |events|
      invariant 0 <= i <= |events|
      invariant CsvStreamResult(events[..i]) == Ok(results)
    {
      if events[i].StreamError? {
        ErrorAfterRows(events, i);
        return Err(events[i].message);
      }
      RowsStep(events, i, results);
      results := results + [CsvRow(events[i].cells)];
      i := i + 1;
    }
    assert events[..i] == events;
    return Ok(results);
  }

  /** One more data event appends its row to what the stream has settled so far. */
  lemma RowsStep(events: seq<CsvEvent>, i: nat, rows: seq<Obj>)
    requires i < |events| && events[i].Data? && CsvStreamResult(events[..i]) == Ok(rows)
    ensures CsvStreamResult(events[..i + 1]) == Ok(rows + [CsvRow(events[i].cells)])
  {
    var done := events[..i];
    var pre := events[..i + 1];
    var rows' := rows + [CsvRow(events[i].cells)];
    assert |rows| == i;
    forall j | 0 <= j < |pre|
      ensures pre[j].Data? && rows'[j] == CsvRow(pre[j].cells)
    {
      if j < i {
        assert pre[j] == done[j] && rows'[j] == rows[j];
        assert done[j].Data? && rows[j] == CsvRow(done[j].cells);
      } else {
        assert pre[j] == events[i] && rows'[j] == CsvRow(events[i].cells);
      }
    }
    AllDataResult(pre, rows');
  }

  /** An error event after data events only decides the outcome. */
  lemma ErrorAfterRows(events: seq<CsvEvent>, i: nat)
    requires i < |events| && events[i].StreamError? && CsvStreamResult(events[..i]).Ok?
    ensures CsvStreamResult(events) == Err(events[i].message)
  {
    assert forall j :: 0 <= j < i ==> events[j] == events[..i][j];
    FirstStreamError(events, i);
  }

  /** A stream without error events settles to its rows, in order. */
  lemma AllDataResult(events: seq<CsvEvent>, rows: seq<Obj>)
    requires forall j :: 0 <= j < |events| ==> events[j].Data?
    requires |rows| == |events| && forall j :: 0 <= j < |events| ==> rows[j] == CsvRow(events[j].cells)
    ensures CsvStreamResult(events) == Ok(rows)
  {
    var r := CsvStreamResult(events);
    assert r.Ok?;
    assert r.value == rows;
  }

  /** The stream settles to the first error event, wherever it is. */
  lemma FirstStreamError(events: seq<CsvEvent>, i: nat)
    requires i < |events| && events[i].StreamError?
    requires forall j :: 0 <= j < i ==> events[j].Data?
    ensures CsvStreamResult(events) == Err(events[i].message)
  {
    var e := FirstErrorIndex(events);
    assert !(e < i) && !(i < e);
  }

  const CsvNameKeys: seq<string> := ["firstname", "first name", "name"]
  const CsvPhoneKeys: seq<string> := ["phone", "phonenumber", "phone number", "contact", "mobile"]
  const CsvNotesKeys: seq<string> := ["notes", "description"]

  /** The CSV row mapping: each field is the first truthy value among its keys, else "". */
  function CsvMapped(row: Obj): (r: Record)
    ensures IsFirstTruthy(row, CsvNameKeys, r.firstName)
    ensures IsFirstTruthy(row, CsvPhoneKeys, r.phone)
    ensures IsFirstTruthy(row, CsvNotesKeys, r.notes)
  {
    Record(FieldOr(row, CsvNameKeys), FieldOr(row, CsvPhoneKeys), FieldOr(row, CsvNotesKeys))
  }

  /** `CsvMapped` applied to every row, in order. */
  function CsvRecords(rows: seq<Obj>): (recs: seq<Record>)
    ensures |recs| == |rows| && forall i :: 0 <= i < |rows| ==> recs[i] == CsvMapped(rows[i])
  {
    seq(|rows|, i requires 0 <= i < |rows| => CsvMapped(rows[i]))
  }

  /** Why reading the upload failed; every one of these answers 500. */
  datatype ReadFailure =
    | CsvStreamFailed(message: string)  // the stream's 'error' event
    | CsvEmpty                          // 'The file appears to be empty'
    | WorkbookUnreadable(message: string) // `xlsx.readFile` threw
    | NoSheets                          // 'Excel file is empty or corrupted'
    | NoData                            // 'Excel file contains no data'
    | MissingRowData(row: nat)          // 'Row <row> is missing required FirstName or Phone data'

  /** The CSV branch of the upload handler: read, refuse an empty file, map every row. */
  function ReadCsv(events: seq<CsvEvent>): (r: Result<seq<Obj>, ReadFailure>)
    ensures CsvStreamResult(events).Err? ==> r == Err(CsvStreamFailed(CsvStreamResult(events).error))
    ensures CsvStreamResult(events) == Ok([]) ==> r == Err(CsvEmpty)
    ensures r.Ok? <==> CsvStreamResult(events).Ok? && CsvStreamResult(events).value != []
    ensures r.Ok? ==> r.value == CanonicalObjs(CsvRecords(CsvStreamResult(events).value))
  {
    match CsvStreamResult(events)
    case Err(m) => Err(CsvStreamFailed(m))
    case Ok(rows) =>
      if rows == [] then Err(CsvEmpty)
      else Ok(CanonicalObjs(CsvRecords(rows)))
  }

  // ---------------------------------------------------------------
  // Excel path
  // ---------------------------------------------------------------

  const ExcelNameKeys: seq<string> := ["FirstName", "firstname", "First Name"]
  const ExcelPhoneKeys: seq<string> := ["Phone", "phone", "contact"]
  const ExcelNotesKeys: seq<string> := ["Notes", "notes"]

  /** The Excel clean-row mapping; its keys are case-sensitive. */
  function ExcelRecordOf(row: Obj): (r: Record)
    ensures IsFirstTruthy(row, ExcelNameKeys, r.firstName)
    ensures IsFirstTruthy(row, ExcelPhoneKeys, r.phone)
    ensures IsFirstTruthy(row, ExcelNotesKeys, r.notes)
  {
    Record(FieldOr(row, ExcelNameKeys), FieldOr(row, ExcelPhoneKeys), FieldOr(row, ExcelNotesKeys))
  }

  /**
   * The throw inside `rawRecords.map(...)`: the records in order, or
   * the spreadsheet row number (index + 2, below the header line) of the
   * first record lacking a name or a phone.
   */
  function FirstIncomplete(recs: seq<Record>): (r: Result<seq<Record>, nat>)
    ensures r.Ok? <==> forall i :: 0 <= i < |recs| ==> Complete(recs[i])
    ensures r.Ok? ==> r.value == recs
    ensures r.Err? ==> 2 <= r.error < |recs| + 2 && !Complete(recs[r.error - 2])
                       && forall i :: 0 <= i < r.error - 2 ==> Complete(recs[i])
  {
    if recs == [] then Ok([])
    else
      var tail := recs[1..];
      assert forall i :: 1 <= i < |recs| ==> tail[i - 1] == recs[i];
      if !Complete(recs[0]) then Err(2)
      else
        match FirstIncomplete(tail)
        case Err(n) => Err(n + 1)
        case Ok(_) => assert recs == [recs[0]] + tail; Ok(recs)
  }

  /** `ExcelRecordOf` applied to every row of the sheet, in order. */
  function ExcelRecords(rows: seq<Obj>): (recs: seq<Record>)
    ensures |recs| == |rows| && forall i :: 0 <= i < |rows| ==> recs[i] == ExcelRecordOf(rows[i])
  {
    seq(|rows|, i requires 0 <= i < |rows| => ExcelRecordOf(rows[i]))
  }

  /** A workbook as the reader sees it: unreadable, or the rows of each sheet in order. */
  datatype Workbook = Unreadable(message: string) | Sheets(sheets: seq<seq<Obj>>)

  /** The Excel branch of the upload handler. */
  function ReadExcel(book: Workbook): (r: Result<seq<Obj>, ReadFailure>)
    ensures book.Unreadable? ==> r == Err(WorkbookUnreadable(book.message))
    ensures book.Sheets? && book.sheets == [] ==> r == Err(NoSheets)
    ensures book.Sheets? && book.sheets != [] && book.sheets[0] == [] ==> r == Err(NoData)
    ensures r.Ok? <==> book.Sheets? && book.sheets != [] && book.sheets[0] != []
                       && FirstIncomplete(ExcelRecords(book.sheets[0])).Ok?
    ensures r.Ok? ==> r.value == ExcelObjs(ExcelRecords(book.sheets[0]))
    ensures r.Err? && r.error.MissingRowData? ==> FirstIncomplete(ExcelRecords(book.sheets[0])) == Err(r.error.row)
  {
    match book
    case Unreadable(m) => Err(WorkbookUnreadable(m))
    case Sheets(sheets) =>
      if sheets == [] then Err(NoSheets)
      else if sheets[0] == [] then Err(NoData)
      else
        match FirstIncomplete(ExcelRecords(sheets[0]))
        case Err(n) => Err(MissingRowData(n))
        case Ok(recs) => Ok(ExcelObjs(recs))
  }

  /** The records of the upload: the CSV reader for extension "csv", the workbook reader otherwise. */
  function ReadRecords(ext: string, events: seq<CsvEvent>, book: Workbook): Result<seq<Obj>, ReadFailure>
  {
    if ext == "csv" then ReadCsv(events) else ReadExcel(book)
  }

  /** The message of the 500 answer, as the outer handler rethrows it. */
  function FailureMessage(f: ReadFailure): (m: string)
    ensures f.CsvStreamFailed? || f.CsvEmpty? ==> StartsWith(m, CsvFailurePrefix)
    ensures !(f.CsvStreamFailed? || f.CsvEmpty?) ==> StartsWith(m, ExcelFailurePrefix)
  {
    var (prefix, detail) := match f
      case CsvStreamFailed(msg) => (CsvFailurePrefix, msg)
      case CsvEmpty => (CsvFailurePrefix, "The file appears to be empty")
      case WorkbookUnreadable(msg) => (ExcelFailurePrefix, msg)
      case NoSheets => (ExcelFailurePrefix, "Excel file is empty or corrupted")
      case NoData => (ExcelFailurePrefix, "Excel file contains no data")
      case MissingRowData(n) => (ExcelFailurePrefix, "Row " + DecimalString(n) + " is missing required FirstName or Phone data");
    StartsWithConcat(prefix, detail);
    prefix + detail
  }

  const CsvFailurePrefix: string := "CSV validation failed: "
  const ExcelFailurePrefix: string := "Excel validation failed: "

  // ---------------------------------------------------------------
  // Column re-detection and transform before distribution
  // ---------------------------------------------------------------

  const ItemNameKeys: seq<string> := ["firstName", "FirstName", "firstname", "First Name"]
  const ItemPhoneKeys: seq<string> := ["phone", "Phone", "phoneNumber", "PhoneNumber", "contact", "Mobile", "mobile"]
  const ItemNotesKeys: seq<string> := ["notes", "Notes", "description", "Description"]

  /**
   * The item normaliser: the same alias chains serve the transform's
   * first branch and the read side of `getLists`.
   */
  function NormaliseItem(item: Obj): (r: Record)
    ensures IsFirstTruthy(item, ItemNameKeys, r.firstName)
    ensures IsFirstTruthy(item, ItemPhoneKeys, r.phone)
    ensures IsFirstTruthy(item, ItemNotesKeys, r.notes)
  {
    Record(FieldOr(item, ItemNameKeys), FieldOr(item, ItemPhoneKeys), FieldOr(item, ItemNotesKeys))
  }

  const DetectedNameKeys: seq<string> := ["FirstName", "firstname", "First Name", "Name"]
  const DetectedPhoneKeys: seq<string> := ["Phone", "phone", "contact", "PhoneNumber"]

  /**
   * The per-record transform, given the detected name and phone columns:
   * a record that already has one of `firstName`, `phone`, `notes` goes
   * through the item normaliser; any other takes its name and phone from
   * the detected column first, then from fixed alternatives, and its
   * notes from the first key that names a notes column.
   */
  function Transform(rec: Obj, nameKey: string, phoneKey: string): (r: Record)
    ensures Get(rec, "firstName") != "" || Get(rec, "phone") != "" || Get(rec, "notes") != "" ==>
              IsFirstTruthy(rec, ItemNameKeys, r.firstName) && IsFirstTruthy(rec, ItemPhoneKeys, r.phone)
              && IsFirstTruthy(rec, ItemNotesKeys, r.notes)
    ensures Get(rec, "firstName") == "" && Get(rec, "phone") == "" && Get(rec, "notes") == "" ==>
              IsFirstTruthy(rec, [nameKey] + DetectedNameKeys, r.firstName)
              && IsFirstTruthy(rec, [phoneKey] + DetectedPhoneKeys, r.phone)
              && r.notes == match FindKey(Keys(rec), NotesAliases) case None => "" case Some(k) => Get(rec, k)
  {
    if Get(rec, "firstName") != "" || Get(rec, "phone") != "" || Get(rec, "notes") != "" then
      NormaliseItem(rec)
    else
      var notes := match FindKey(Keys(rec), NotesAliases)
                   case None => ""
                   case Some(k) => Get(rec, k);
      Record(FieldOr(rec, [nameKey] + DetectedNameKeys), FieldOr(rec, [phoneKey] + DetectedPhoneKeys), notes)
  }

  /** `records.map(...)` with the transform, in order. */
  function TransformAll(records: seq<Obj>, nameKey: string, phoneKey: string): (recs: seq<Record>)
    ensures |recs| == |records|
    ensures forall i :: 0 <= i < |records| ==> recs[i] == Transform(records[i], nameKey, phoneKey)
  {
    seq(|records|, i requires 0 <= i < |records| => Transform(records[i], nameKey, phoneKey))
  }

  /** What the upload handler does with the records it read, before `distribute`. */
  datatype Prepared =
    | FileEmpty                                // 400 'The file is empty'
    | ColumnsNotFound(foundColumns: seq<string>) // 400 'Invalid file structure. Required columns not found.'
    | Ready(records: seq<Record>)

  function Prepare(records: seq<Obj>): (r: Prepared)
    ensures r == FileEmpty <==> records == []
    ensures r.ColumnsNotFound? <==> records != [] && (FindKey(Keys(records[0]), NameAliases).None?
                                                      || FindKey(Keys(records[0]), PhoneAliases).None?)
    ensures r.ColumnsNotFound? ==> r.foundColumns == Keys(records[0])
    ensures r.Ready? ==> |r.records| == |records|
  {
    if records == [] then FileEmpty
    else
      var keys := Keys(records[0]);
      match (FindKey(keys, NameAliases), FindKey(keys, PhoneAliases))
      case (Some(nameKey), Some(phoneKey)) => Ready(TransformAll(records, nameKey, phoneKey))
      case _ => ColumnsNotFound(keys)
  }

  // ---------------------------------------------------------------
  // getLists
  // ---------------------------------------------------------------

  /** A stored list's `data`: an array of items, or something else. */
  function NormaliseData(data: Option<seq<Obj>>): (r: seq<Record>)
    ensures data.None? ==> r == []
    ensures data.Some? ==> |r| == |data.value|
    ensures data.Some? ==> forall i :: 0 <= i < |r| ==> r[i] == NormaliseItem(data.value[i])
  {
    match data
    case None => []
    case Some(items) => seq(|items|, i requires 0 <= i < |items| => NormaliseItem(items[i]))
  }

  // ---------------------------------------------------------------
  // Properties
  // ---------------------------------------------------------------

  /** Reading a key of `{ firstName, phone, notes }`. */
  lemma CanonicalGet(r: Record)
    ensures forall k :: Get(CanonicalObj(r), k)
                        == if k == "firstName" then r.firstName else if k == "phone" then r.phone
                           else if k == "notes" then r.notes else ""
  {
    forall k {
      GetOfThree("firstName", r.firstName, "phone", r.phone, "notes", r.notes, k);
    }
  }

  /** Reading a key of `{ FirstName, Phone, Notes }`. */
  lemma ExcelGet(r: Record)
    ensures forall k :: Get(ExcelObj(r), k)
                        == if k == "FirstName" then r.firstName else if k == "Phone" then r.phone
                           else if k == "Notes" then r.notes else ""
  {
    forall k {
      GetOfThree("FirstName", r.firstName, "Phone", r.phone, "Notes", r.notes, k);
    }
  }

  /** The normaliser reads back exactly what `distribute` stores. */
  lemma NormaliseItemCanonical(r: Record)
    ensures NormaliseItem(CanonicalObj(r)) == r
  {
    CanonicalItemName(r);
    CanonicalItemPhone(r);
    CanonicalItemNotes(r);
  }

  lemma CanonicalItemName(r: Record)
    ensures FieldOr(CanonicalObj(r), ItemNameKeys) == r.firstName
  {
    CanonicalGet(r);
    if r.firstName != "" {
      FieldOrAt(CanonicalObj(r), ItemNameKeys, 0);
    }
  }

  lemma CanonicalItemPhone(r: Record)
    ensures FieldOr(CanonicalObj(r), ItemPhoneKeys) == r.phone
  {
    PhoneAliasesNotCanonical();
    forall i | 1 <= i < |ItemPhoneKeys|
      ensures Get(CanonicalObj(r), ItemPhoneKeys[i]) == ""
    {
      CanonicalAbsent(r, ItemPhoneKeys[i]);
    }
    FieldOrOnlyFirst(CanonicalObj(r), ItemPhoneKeys);
  }

  lemma PhoneAliasesNotCanonical()
    ensures forall i :: 1 <= i < |ItemPhoneKeys| ==> ItemPhoneKeys[i] !in CanonicalKeys
  {
  }

  lemma CanonicalAbsent(r: Record, k: string)
    requires k !in CanonicalKeys
    ensures Get(CanonicalObj(r), k) == ""
  {
    assert Keys(CanonicalObj(r)) == CanonicalKeys;
  }

  lemma CanonicalItemNotes(r: Record)
    ensures FieldOr(CanonicalObj(r), ItemNotesKeys) == r.notes
  {
    CanonicalGet(r);
    if r.notes != "" {
      FieldOrAt(CanonicalObj(r), ItemNotesKeys, 0);
    }
  }

  /** A record that came out of the CSV path goes through the transform unchanged. */
  lemma TransformCanonical(r: Record)
    ensures Transform(CanonicalObj(r), "firstName", "phone") == r
  {
    if r.firstName != "" || r.phone != "" || r.notes != "" {
      CanonicalFields(r);
      NormaliseItemCanonical(r);
    } else {
      CanonicalGet(r);
      EmptyTransform(CanonicalObj(r), "firstName", "phone");
    }
  }

  lemma CanonicalFields(r: Record)
    ensures Get(CanonicalObj(r), "firstName") == r.firstName
    ensures Get(CanonicalObj(r), "phone") == r.phone
    ensures Get(CanonicalObj(r), "notes") == r.notes
  {
    GetOfThree("firstName", r.firstName, "phone", r.phone, "notes", r.notes, "firstName");
    GetOfThree("firstName", r.firstName, "phone", r.phone, "notes", r.notes, "phone");
    GetOfThree("firstName", r.firstName, "phone", r.phone, "notes", r.notes, "notes");
  }

  /** A record whose every value is empty transforms to the empty record. */
  lemma EmptyTransform(o: Obj, nameKey: string, phoneKey: string)
    requires forall k :: Get(o, k) == ""
    ensures Transform(o, nameKey, phoneKey) == Record("", "", "")
  {
  }

  /** A complete clean Excel row goes through the transform as the record it holds. */
  lemma TransformExcel(r: Record)
    requires Complete(r)
    ensures Transform(ExcelObj(r), "FirstName", "Phone") == r
  {
    var o := ExcelObj(r);
    ExcelNoCanonicalKeys(r);
    ExcelTransformName(r);
    ExcelTransformPhone(r);
    ExcelTransformNotes(r);
  }

  lemma ExcelNoCanonicalKeys(r: Record)
    ensures Get(ExcelObj(r), "firstName") == "" && Get(ExcelObj(r), "phone") == "" && Get(ExcelObj(r), "notes") == ""
  {
    ExcelGet(r);
  }

  lemma ExcelTransformName(r: Record)
    requires r.firstName != ""
    ensures FieldOr(ExcelObj(r), ["FirstName"] + DetectedNameKeys) == r.firstName
  {
    ExcelGet(r);
    FieldOrAt(ExcelObj(r), ["FirstName"] + DetectedNameKeys, 0);
  }

  lemma ExcelTransformPhone(r: Record)
    requires r.phone != ""
    ensures FieldOr(ExcelObj(r), ["Phone"] + DetectedPhoneKeys) == r.phone
  {
    ExcelGet(r);
    FieldOrAt(ExcelObj(r), ["Phone"] + DetectedPhoneKeys, 0);
  }

  lemma ExcelTransformNotes(r: Record)
    ensures FindKey(Keys(ExcelObj(r)), NotesAliases) == Some("Notes")
    ensures Get(ExcelObj(r), "Notes") == r.notes
  {
    ExcelKeysOf(r);
    ExcelNotesKey();
    ExcelGet(r);
  }

  lemma ExcelKeysOf(r: Record)
    ensures Keys(ExcelObj(r)) == ExcelKeys
  {
  }

  /** Once both columns are found on the first record, every record is transformed with them. */
  lemma PrepareWith(objs: seq<Obj>, recs: seq<Record>, nameKey: string, phoneKey: string)
    requires objs != [] && |recs| == |objs|
    requires FindKey(Keys(objs[0]), NameAliases) == Some(nameKey)
    requires FindKey(Keys(objs[0]), PhoneAliases) == Some(phoneKey)
    requires forall i :: 0 <= i < |objs| ==> Transform(objs[i], nameKey, phoneKey) == recs[i]
    ensures Prepare(objs) == Ready(recs)
  {
    TransformAllIs(objs, recs, nameKey, phoneKey);
  }

  lemma TransformAllIs(objs: seq<Obj>, recs: seq<Record>, nameKey: string, phoneKey: string)
    requires |recs| == |objs|
    requires forall i :: 0 <= i < |objs| ==> Transform(objs[i], nameKey, phoneKey) == recs[i]
    ensures TransformAll(objs, nameKey, phoneKey) == recs
  {
  }

  /** Records in canonical form pass the column check and the transform unchanged. */
  lemma PrepareCanonical(recs: seq<Record>)
    requires recs != []
    ensures Prepare(CanonicalObjs(recs)) == Ready(recs)
  {
    var objs := CanonicalObjs(recs);
    CanonicalKeysOf(recs[0]);
    CanonicalNameKey();
    CanonicalPhoneKey();
    forall i | 0 <= i < |objs|
      ensures Transform(objs[i], "firstName", "phone") == recs[i]
    {
      TransformCanonical(recs[i]);
    }
    PrepareWith(objs, recs, "firstName", "phone");
  }

  lemma CanonicalKeysOf(r: Record)
    ensures Keys(CanonicalObj(r)) == CanonicalKeys
  {
  }

  /** Complete clean Excel rows pass the column check and the transform unchanged. */
  lemma PrepareExcel(recs: seq<Record>)
    requires recs != []
    requires forall i :: 0 <= i < |recs| ==> Complete(recs[i])
    ensures Prepare(ExcelObjs(recs)) == Ready(recs)
  {
    var objs := ExcelObjs(recs);
    ExcelKeysOf(recs[0]);
    ExcelNameKey();
    ExcelPhoneKey();
    forall i | 0 <= i < |objs|
      ensures Transform(objs[i], "FirstName", "Phone") == recs[i]
    {
      TransformExcel(recs[i]);
    }
    PrepareWith(objs, recs, "FirstName", "Phone");
  }

  /**
   * The CSV path keeps every row, in order, whatever its content: no
   * row is refused for an empty name or phone, and the column check
   * before distribution always passes.
   */
  lemma CsvPipeline(events: seq<CsvEvent>)
    requires CsvStreamResult(events).Ok? && events != []
    ensures ReadCsv(events).Ok?
    ensures Prepare(ReadCsv(events).value) == Ready(CsvRecords(CsvStreamResult(events).value))
  {
    PrepareCanonical(CsvRecords(CsvStreamResult(events).value));
  }

  /** The Excel path hands on one complete record per sheet row, in order. */
  lemma ExcelPipeline(book: Workbook)
    requires ReadExcel(book).Ok?
    ensures Prepare(ReadExcel(book).value) == Ready(ExcelRecords(book.sheets[0]))
    ensures forall i :: 0 <= i < |book.sheets[0]| ==> Complete(ExcelRecords(book.sheets[0])[i])
  {
    PrepareExcel(ExcelRecords(book.sheets[0]));
  }

  /**
   * Both readers emit fixed keys, so neither "empty" answer nor the
   * "required columns not found" answer after reading can happen.
   */
  lemma PipelineNeverReportsMissingColumns(ext: string, events: seq<CsvEvent>, book: Workbook)
    requires ReadRecords(ext, events, book).Ok?
    ensures Prepare(ReadRecords(ext, events, book).value).Ready?
  {
    if ext == "csv" {
      CsvPipeline(events);
    } else {
      ExcelPipeline(book);
    }
  }

  /** `getLists` returns the stored records exactly as `distribute` wrote them. */
  lemma NormaliseDataCanonical(recs: seq<Record>)
    ensures NormaliseData(Some(seq(|recs|, i requires 0 <= i < |recs| => CanonicalObj(recs[i])))) == recs
  {
    forall i | 0 <= i < |recs|
      ensures NormaliseItem(CanonicalObj(recs[i])) == recs[i]
    {
      NormaliseItemCanonical(recs[i]);
    }
  }

  /**
   * A CSV header line "First Name,Phone,Notes": the headers become
   * "first name", "phone" and "notes", and each field is the trimmed cell.
   */
  lemma CsvSpacedHeaders(f: string, p: string, n: string)
    ensures CsvMapped(CsvRow([("First Name", f), ("Phone", p), ("Notes", n)])) == Record(Trim(f), Trim(p), Trim(n))
  {
    var cells := [("First Name", f), ("Phone", p), ("Notes", n)];
    HeaderFirstName();
    HeaderPhone();
    HeaderNotes();
    var ps := [("first name", Trim(f)), ("phone", Trim(p)), ("notes", Trim(n))];
    assert CsvCells(cells) == ps;
    SpacedRowName(Trim(f), Trim(p), Trim(n));
    SpacedRowPhone(Trim(f), Trim(p), Trim(n));
    SpacedRowNotes(Trim(f), Trim(p), Trim(n));
  }

  lemma SpacedRowName(f: string, p: string, n: string)
    ensures FieldOr(FromPairs([("first name", f), ("phone", p), ("notes", n)]), CsvNameKeys) == f
  {
    var row := FromPairs([("first name", f), ("phone", p), ("notes", n)]);
    ThreeKeysGet("first name", f, "phone", p, "notes", n, "firstname");
    ThreeKeysGet("first name", f, "phone", p, "notes", n, "first name");
    ThreeKeysGet("first name", f, "phone", p, "notes", n, "name");
    FieldOrSecondOnly(row, CsvNameKeys);
  }

  lemma SpacedRowPhone(f: string, p: string, n: string)
    ensures FieldOr(FromPairs([("first name", f), ("phone", p), ("notes", n)]), CsvPhoneKeys) == p
  {
    SpacedPhoneGets(f, p, n);
    PhoneOnlyUnderPhone(FromPairs([("first name", f), ("phone", p), ("notes", n)]));
  }

  lemma SpacedPhoneGets(f: string, p: string, n: string)
    ensures Get(FromPairs([("first name", f), ("phone", p), ("notes", n)]), "phone") == p
    ensures Get(FromPairs([("first name", f), ("phone", p), ("notes", n)]), "phonenumber") == ""
    ensures Get(FromPairs([("first name", f), ("phone", p), ("notes", n)]), "phone number") == ""
    ensures Get(FromPairs([("first name", f), ("phone", p), ("notes", n)]), "contact") == ""
    ensures Get(FromPairs([("first name", f), ("phone", p), ("notes", n)]), "mobile") == ""
  {
    ThreeKeysGet("first name", f, "phone", p, "notes", n, "phone");
    ThreeKeysAbsent("first name", f, "phone", p, "notes", n, "phonenumber");
    ThreeKeysAbsent("first name", f, "phone", p, "notes", n, "phone number");
    ThreeKeysAbsent("first name", f, "phone", p, "notes", n, "contact");
    ThreeKeysAbsent("first name", f, "phone", p, "notes", n, "mobile");
  }

  /** A row with no alternative phone column reads its phone from the "phone" column. */
  lemma PhoneOnlyUnderPhone(row: Obj)
    requires Get(row, "phonenumber") == "" && Get(row, "phone number") == ""
    requires Get(row, "contact") == "" && Get(row, "mobile") == ""
    ensures FieldOr(row, CsvPhoneKeys) == Get(row, "phone")
  {
    FirstOfFive(row, "phone", "phonenumber", "phone number", "contact", "mobile");
  }

  lemma FirstOfFive(row: Obj, k0: string, k1: string, k2: string, k3: string, k4: string)
    requires Get(row, k1) == "" && Get(row, k2) == "" && Get(row, k3) == "" && Get(row, k4) == ""
    ensures FieldOr(row, [k0, k1, k2, k3, k4]) == Get(row, k0)
  {
    var keys := [k0, k1, k2, k3, k4];
    forall i | 1 <= i < |keys|
      ensures Get(row, keys[i]) == ""
    {
      if i == 1 { assert keys[i] == k1; }
      else if i == 2 { assert keys[i] == k2; }
      else if i == 3 { assert keys[i] == k3; }
      else { assert keys[i] == k4; }
    }
    FieldOrOnlyFirst(row, keys);
  }

  lemma SpacedRowNotes(f: string, p: string, n: string)
    ensures FieldOr(FromPairs([("first name", f), ("phone", p), ("notes", n)]), CsvNotesKeys) == n
  {
    var row := FromPairs([("first name", f), ("phone", p), ("notes", n)]);
    ThreeKeysGet("first name", f, "phone", p, "notes", n, "notes");
    ThreeKeysGet("first name", f, "phone", p, "notes", n, "description");
    FieldOrOnlyFirst(row, CsvNotesKeys);
  }

  /**
   * The workbook path matches headers case-sensitively: a sheet whose
   * name column is headed "FIRSTNAME" fails on its first data row.
   */
  lemma ExcelUpperCaseHeaderRejected(f: string, p: string)
    ensures ReadExcel(Sheets([[[("FIRSTNAME", f), ("Phone", p)]]])) == Err(MissingRowData(2))
  {
    var row: Obj := [("FIRSTNAME", f), ("Phone", p)];
    assert Keys(row) == ["FIRSTNAME", "Phone"];
    assert Get(row, ExcelNameKeys[0]) == "";
    assert Get(row, ExcelNameKeys[1]) == "";
    assert Get(row, ExcelNameKeys[2]) == "";
    assert ExcelRecordOf(row).firstName == "";
    assert ExcelRecords([row]) == [ExcelRecordOf(row)];
  }

  /** On the workbook path a sheet with only a "Name" column fails on row 2, the first data row. */
  lemma ExcelNameOnlyRejected(b: string)
    ensures ReadExcel(Sheets([[[("Name", b)]]])) == Err(MissingRowData(2))
  {
    var row: Obj := [("Name", b)];
    assert Keys(row) == ["Name"];
    assert forall i :: 0 <= i < |ExcelPhoneKeys| ==> ExcelPhoneKeys[i] !in Keys(row);
    assert ExcelRecordOf(row).phone == "";
    assert ExcelRecords([row]) == [ExcelRecordOf(row)];
  }

  /** The CSV path lower-cases its headers, so the same "FIRSTNAME" column is read as the name. */
  lemma CsvUpperCaseHeaderAccepted(f: string, p: string)
    requires Trim(f) != ""
    ensures CsvMapped(CsvRow([("FIRSTNAME", f), ("Phone", p)])).firstName == Trim(f)
  {
    HeaderUpperFirstName();
    HeaderPhone();
    CsvFirstnameColumn("FIRSTNAME", f, "Phone", p);
  }

  /** A two-column CSV row whose first header reads "firstname" takes its name from that cell. */
  lemma CsvFirstnameColumn(h0: string, v0: string, h1: string, v1: string)
    requires CsvHeader(h0) == "firstname" && CsvHeader(h1) != "firstname" && Trim(v0) != ""
    ensures CsvMapped(CsvRow([(h0, v0), (h1, v1)])).firstName == Trim(v0)
  {
    var ps := [(CsvHeader(h0), Trim(v0)), (CsvHeader(h1), Trim(v1))];
    assert CsvCells([(h0, v0), (h1, v1)]) == ps;
    var row := FromPairs(ps);
    assert ps[..1] == [(CsvHeader(h0), Trim(v0))] && ps[..1][..0] == [];
    FromPairsGet(ps, "firstname");
    assert Get(row, CsvNameKeys[0]) == Trim(v0);
    FieldOrAt(row, CsvNameKeys, 0);
  }

  lemma HeaderUpperFirstName()
    ensures CsvHeader("FIRSTNAME") == "firstname"
  {
    TrimUnpadded("FIRSTNAME");
    LowerFIRSTNAME();
  }

  lemma LowerFIRSTNAME()
    ensures Lower("FIRSTNAME") == "firstname"
  {
    var h := "FIRSTNAME";
    var l := "firstname";
    forall i | 0 <= i < 9
      ensures Lower(h)[i] == l[i]
    {
      assert Lower(h)[i] == LowerChar(h[i]);
    }
  }

  /**
   * A CSV line with a "Name" column and no phone column is kept: it
   * becomes a record with an empty phone, and nothing on the CSV path
   * refuses it.
   */
  lemma CsvNameOnlyRowKept(b: string)
    ensures CsvMapped(CsvRow([("Name", b)])) == Record(Trim(b), "", "")
  {
    HeaderName();
    CsvCellsOne("Name", b);
    SingleCellRow("name", Trim(b));
    assert CsvRow([("Name", b)]) == [("name", Trim(b))];
    NameOnlyFields(Trim(b));
  }

  lemma NameOnlyFields(v: string)
    ensures FieldOr([("name", v)], CsvNameKeys) == v
    ensures FieldOr([("name", v)], CsvPhoneKeys) == ""
    ensures FieldOr([("name", v)], CsvNotesKeys) == ""
  {
    NameOnlyName(v);
    NameOnlyPhone(v);
    NameOnlyNotes(v);
  }

  lemma NameOnlyName(v: string)
    ensures FieldOr([("name", v)], CsvNameKeys) == v
  {
    var row: Obj := [("name", v)];
    GetOfOne("name", v, "firstname");
    GetOfOne("name", v, "first name");
    GetOfOne("name", v, "name");
    if v != "" {
      FieldOrAt(row, CsvNameKeys, 2);
    }
  }

  lemma NameOnlyPhone(v: string)
    ensures FieldOr([("name", v)], CsvPhoneKeys) == ""
  {
    var row: Obj := [("name", v)];
    GetOfOne("name", v, "phone");
    GetOfOne("name", v, "phonenumber");
    GetOfOne("name", v, "phone number");
    GetOfOne("name", v, "contact");
    GetOfOne("name", v, "mobile");
    FirstOfFive(row, "phone", "phonenumber", "phone number", "contact", "mobile");
  }

  lemma NameOnlyNotes(v: string)
    ensures FieldOr([("name", v)], CsvNotesKeys) == ""
  {
    var row: Obj := [("name", v)];
    GetOfOne("name", v, "notes");
    GetOfOne("name", v, "description");
    FieldOrOnlyFirst(row, CsvNotesKeys);
  }

  lemma CsvCellsOne(h: string, v: string)
    ensures CsvCells([(h, v)]) == [(CsvHeader(h), Trim(v))]
  {
  }

  /** A one-column line builds the one-entry object. */
  lemma SingleCellRow(k: string, v: string)
    ensures FromPairs([(k, v)]) == [(k, v)]
  {
    var ps := [(k, v)];
    assert ps[..0] == [];
  }

  /** A header with no surrounding whitespace maps to its lower-cased self. */
  lemma HeaderOfUnpadded(h: string, l: string)
    requires h != [] && !IsJsWhite(h[0]) && !IsJsWhite(h[|h| - 1])
    requires |l| == |h| && forall i :: 0 <= i < |h| ==> LowerChar(h[i]) == l[i]
    ensures CsvHeader(h) == l
  {
    TrimUnpadded(h);
    assert forall i :: 0 <= i < |h| ==> Lower(h)[i] == l[i];
  }

  lemma HeaderName()
    ensures CsvHeader("Name") == "name"
  {
    var h := "Name";
    var l := "name";
    forall i | 0 <= i < |h|
      ensures LowerChar(h[i]) == l[i]
    {
    }
    HeaderOfUnpadded(h, l);
  }

  /** Reading a key of a three-column row. */
  lemma ThreeKeysGet(k0: string, v0: string, k1: string, v1: string, k2: string, v2: string, k: string)
    ensures Get(FromPairs([(k0, v0), (k1, v1), (k2, v2)]), k)
            == if k == k2 then v2 else if k == k1 then v1 else if k == k0 then v0 else ""
  {
    FromPairsGet([(k0, v0), (k1, v1), (k2, v2)], k);
    LastValueOfThree(k0, v0, k1, v1, k2, v2, k);
  }

  lemma ThreeKeysAbsent(k0: string, v0: string, k1: string, v1: string, k2: string, v2: string, k: string)
    requires k != k0 && k != k1 && k != k2
    ensures Get(FromPairs([(k0, v0), (k1, v1), (k2, v2)]), k) == ""
  {
    ThreeKeysGet(k0, v0, k1, v1, k2, v2, k);
  }

  lemma LastValueOfThree(k0: string, v0: string, k1: string, v1: string, k2: string, v2: string, k: string)
    ensures LastValue([(k0, v0), (k1, v1), (k2, v2)], k) == if k == k2 then v2 else if k == k1 then v1 else if k == k0 then v0 else ""
  {
    var ps := [(k0, v0), (k1, v1), (k2, v2)];
    var p2 := [(k0, v0), (k1, v1)];
    var p1 := [(k0, v0)];
    assert ps[..2] == p2 && p2[..1] == p1 && p1[..0] == [];
    assert LastValue(p1, k) == if k == k0 then v0 else "";
    assert LastValue(p2, k) == if k == k1 then v1 else LastValue(p1, k);
  }

  lemma HeaderFirstName()
    ensures CsvHeader("First Name") == "first name"
  {
    var h := "First Name";
    var l := "first name";
    forall i | 0 <= i < |h|
      ensures LowerChar(h[i]) == l[i]
    {
    }
    HeaderOfUnpadded(h, l);
  }

  lemma HeaderPhone()
    ensures CsvHeader("Phone") == "phone"
  {
    var h := "Phone";
    var l := "phone";
    forall i | 0 <= i < |h|
      ensures LowerChar(h[i]) == l[i]
    {
    }
    HeaderOfUnpadded(h, l);
  }

  lemma HeaderNotes()
    ensures CsvHeader("Notes") == "notes"
  {
    var h := "Notes";
    var l := "notes";
    forall i | 0 <= i < |h|
      ensures LowerChar(h[i]) == l[i]
    {
    }
    HeaderOfUnpadded(h, l);
  }
}
