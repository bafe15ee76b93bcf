# CSTechno backend: upload, normalisation and distribution

This project models the core of the CSTechno backend in Dafny and proves
properties of the model. An administrator uploads a CSV or Excel contact
list. The backend reads it, maps its columns to the canonical record
`{ firstName, phone, notes }` and splits the records into contiguous
chunks, one per agent. It then replaces the stored distributions with the
new ones. The model also covers the two upload configurations (the upload
helper and the list routes), the column validators of the list controller
and of the file-validation utility, and the agent endpoints
`addAgent` and `getAgents`.

Modules, in dependency order:

- `Wrappers`: `Option` and `Result`.
- `JsString`: the JavaScript string operations the code uses: ASCII
  `toLowerCase`, `trim`, `split('.').pop()`, UTF-16 length, and the
  decimal rendering of a template literal.
- `JsObject`: plain objects as ordered (key, value) entries.
  - `Get` reads an absent key as `""`.
  - `FromPairs` builds a row by successive assignment, as csv-parser does.
  - `FieldOr` models the `a || b || ... || ''` chains.
- `FileType`: the three extension checks.
- `UploadPolicy`: stored file names, the filename sanitiser, the
  case-sensitive route filter, and the two error mappings.
- `Columns`: column lookup by alias, `validateCSVFormat` and
  `validateFileFormat`.
- `Records`: the CSV stream and row mapping, the Excel reading and row
  check, the column re-detection and transform before distribution, and
  the `getLists` normaliser.
- `Distribution`: the chunking loop of `distribute`, proved against the
  specification function `Plan`.
- `Backend`: the class `Store`, whose fields are the agent roster, the
  stored distributions and the temporary upload files. Its methods are
  the upload handler, `distribute`, `getLists`, `addAgent` and
  `getAgents`.

Calls the model cannot see become parameters:

- The parsed CSV events.
- The workbook's sheets.
- Which store calls fail (`StoreFaults`, `findFails`, `saveFails`).
- The password hash function.
- The id a new agent document receives.
- The random part of the stored file name.

## Behaviour worth noting

The model follows the code; these facts about it are easy to miss:

- The CSV path never refuses a row for a missing name or phone. A line
  with only a "Name" column becomes a record with an empty phone and is
  distributed (`Records.CsvNameOnlyRowKept`).
- The Excel path stops at the first incomplete row and reports its
  spreadsheet row number, index + 2. Later incomplete rows are not listed.
- Every reading failure, CSV or Excel, is answered with status 500.
- On the "no agents" answer and on every `distribute` failure, the
  temporary file stays on disk.
- The name alias list used for column detection has no "First Name" entry.
- A trailing agent can get no distribution even when there are more
  records than agents. With 7 records and 5 agents the chunk size is 2, so
  the fifth agent gets nothing (`Distribution.SevenRecordsFiveAgents`).
- The file-validation utility requires a `notes` column; the list
  controller does not.
- `getLists` reads `data.length` of every stored list for its log lines
  before normalising, so a list whose `data` is `null` or missing makes it
  answer 500.

## Model

| member | source | states |
|---|---|---|
| JsObject.FieldOr | backend/controllers/listController.js:49-51 | a chain of logical-or alternatives ending in `''` is empty iff every listed value is empty, else it is the value of the first listed key with a non-empty value |
| JsObject.FromPairsGet | backend/controllers/listController.js:189-197 | in a row built by successive assignment, a key reads as the value of its last assignment |
| JsString.DecimalStringValue | backend/controllers/listController.js:269 | the row number interpolated into the Excel error denotes that number |
| FileType.ValidateFileType | backend/controllers/listController.js:65-82 | accepts exactly the names whose lower-cased text after the last '.' is csv, xlsx or xls, and returns that extension; empty name gives NoFilename, a trailing '.' gives NoExtension, anything else gives InvalidFileType with the extension |
| FileType.ExtensionEmptyIffTrailingDot | backend/controllers/listController.js:70-75 | the extension is empty exactly when the name is empty or ends in '.' |
| FileType.ValidateFileTypeUtil | backend/utils/fileValidation.js:2-10 | the utility accepts the same names and reports every refusal as an invalid type |
| FileType.ExtensionChecksAgree | backend/utils/upload.js:20-28 | the controller check, the utility check and the upload helper's filter accept the same names, with the same extension |
| FileType.UpperCaseExtensionAccepted | backend/controllers/listController.js:70 | "A.CSV" is accepted as csv |
| FileType.BareNameAccepted | backend/controllers/listController.js:70-81 | a name without '.', such as "csv", is its own extension and passes |
| FileType.TrailingDotRejected | backend/controllers/listController.js:73-75 | "list." is a missing extension for the controller and an invalid (empty) type for the utility |
| FileType.OtherExtensionRejected | backend/controllers/listController.js:77-79 | "list.txt" is refused as type txt |
| UploadPolicy.CleanFileName | backend/utils/upload.js:15 | the sanitised name has the original's UTF-16 length and only `[a-zA-Z0-9.-]` or '_' characters |
| UploadPolicy.CleanFileNameInPlace | backend/utils/upload.js:15 | within the Basic Multilingual Plane each character is kept if safe and replaced by '_' otherwise, at the same position |
| UploadPolicy.CleanFileNameIdempotent | backend/utils/upload.js:15 | sanitising twice equals sanitising once |
| UploadPolicy.CleanFileNameKeepsSafe | backend/utils/upload.js:15 | a name of safe characters and '_' is unchanged |
| UploadPolicy.UploadStoredName | backend/utils/upload.js:13-17 | the stored name is the suffix, '-', then the sanitised original name |
| UploadPolicy.RouteStoredName | backend/routes/listRoutes.js:11-14 | the stored name is the suffix, '-', then the original name unmodified |
| UploadPolicy.StoredNameSeparators | backend/routes/listRoutes.js:11-14 | with a suffix of digits and '-', the helper's name never holds '/', while the routes' name holds one whenever the name it is given does (multer hands on base names only, so that case does not arise in practice) |
| UploadPolicy.ExtensionOfAllowedSuffix | backend/utils/upload.js:21 | a name ending in '.' plus an allowed extension has that extension |
| UploadPolicy.RouteFilterStricter | backend/routes/listRoutes.js:18-25 | every name the route filter accepts is accepted by the lower-casing checks |
| UploadPolicy.RouteFilterCaseSensitive | backend/routes/listRoutes.js:20 | "LIST.CSV" is refused by the route filter but accepted by the upload helper's filter |
| UploadPolicy.UploadMiddleware | backend/utils/upload.js:39-57 | the promise resolves iff there is no error; a multer error rejects with 400 and "Upload error: ..."; any other error rejects with 500 and its message |
| UploadPolicy.HandleMulterError | backend/routes/listRoutes.js:44-55 | control passes on iff there is no error; every error is answered 400; the size limit gets its own message; other multer errors are prefixed "Upload error: "; other errors keep their message |
| UploadPolicy.UploadFileFilter | backend/utils/upload.js:20-28 | no error iff the lower-cased text after the last '.' is csv, xlsx or xls; otherwise a plain error with the filter's message |
| UploadPolicy.UploadFilterCharacterised | backend/utils/upload.js:21-23 | the helper's filter accepts a name iff its lower-cased form is a bare csv, xlsx or xls, or ends in ".csv", ".xlsx" or ".xls" |
| UploadPolicy.RouteFileFilter | backend/routes/listRoutes.js:18-25 | no error iff the name ends in ".csv", ".xlsx" or ".xls", case-sensitively; otherwise a plain error with the routes' message |
| UploadPolicy.MulterReceive | backend/routes/listRoutes.js:27-33 | a filter error is passed on as it is; a name the filter accepts gives multer's LIMIT_FILE_SIZE error iff the file is over 10485760 bytes |
| UploadPolicy.RejectedExtensionStatus | backend/utils/upload.js:26 | whatever its size, a name the helper's filter refuses ends in 500 with the filter's message through the helper, and in 400 with the routes' filter message through the routes |
| UploadPolicy.OversizeStatus | backend/routes/listRoutes.js:46-49 | an accepted name over 10 MiB ends in 400 on both paths: "Upload error: File too large" through the helper, the fixed size message through the routes |
| UploadPolicy.AcceptedReachesHandler | backend/routes/listRoutes.js:54 | an accepted name within 10 MiB resolves the helper's promise and passes the routes' error middleware |
| Columns.LowerAll | backend/controllers/listController.js:99 | lower-cases every key, in place |
| Columns.FindKey | backend/controllers/listController.js:100-107 | none iff no key matches an alias case-insensitively, else the first matching key in insertion order |
| Columns.FindKeyAt | backend/controllers/listController.js:300-305 | the lookup stops at the first matching key |
| Columns.FoundKeyNonEmpty | backend/controllers/listController.js:310 | a found column name is never falsy |
| Columns.MatchIgnoresCase | backend/controllers/listController.js:301-304 | keys equal up to ASCII case match the same aliases |
| Columns.InvalidRowNumbers | backend/controllers/listController.js:119-124 | returns, in ascending order, exactly the 1-based numbers of the records whose name or phone value is empty |
| Columns.ValidateCsvFormat | backend/controllers/listController.js:84-138 | empty input and missing columns are refused; on success the found columns are returned and every record has both values; otherwise it lists exactly the rows lacking one |
| Columns.Absent | backend/utils/fileValidation.js:22-25 | the result is the in-order subsequence of the required columns that are not headers, each listed as often as it is required |
| Columns.MissingInRequiredOrder | backend/utils/fileValidation.js:22-25 | the missing columns come out in the order firstname, phone, notes, each present iff it is not a header |
| Columns.FirstnameBeforeNotes | backend/utils/fileValidation.js:22-27 | with only a phone header, the refusal lists firstname then notes |
| Columns.ValidateFileFormat | backend/utils/fileValidation.js:13-32 | an empty list is refused; otherwise it passes iff firstname, phone and notes are all among the first record's lower-cased keys, and a refusal lists the missing ones |
| Columns.ValidateFileFormatFirstOnly | backend/utils/fileValidation.js:18-19 | only the first record is inspected |
| Columns.CanonicalKeysResolve | backend/controllers/listController.js:300-305 | on the CSV mapping's keys the name lookup finds firstName and the phone lookup finds phone |
| Columns.ExcelKeysResolve | backend/controllers/listController.js:300-332 | on the Excel mapping's keys the lookups find FirstName, Phone and Notes |
| Columns.NotesRequiredOnlyByUtility | backend/utils/fileValidation.js:22-27 | a record with FirstName and Phone only is refused by the utility for lacking notes, while both controller lookups succeed on it |
| Records.CsvCells | backend/controllers/listController.js:189-193 | every header is trimmed and lower-cased and every value trimmed, position by position |
| Records.CsvRow | backend/controllers/listController.js:189-197 | a parsed row has distinct keys, which are exactly the mapped headers |
| Records.CsvStreamResult | backend/controllers/listController.js:183-215 | the stream settles to all rows in order iff no error event occurs, otherwise to the first error event's message |
| Records.CollectCsvRows | backend/controllers/listController.js:195-206 | the data handler's loop yields exactly the stream's settled result |
| Records.FirstStreamError | backend/controllers/listController.js:203-206 | the stream settles to the first error event wherever it occurs |
| Records.CsvMapped | backend/controllers/listController.js:221-225 | firstName is the first non-empty of firstname, first name, name, else ""; phone the first non-empty of phone, phonenumber, phone number, contact, mobile; notes of notes, description |
| Records.CsvRecords | backend/controllers/listController.js:220-228 | each row is mapped by the CSV alias chains, in order |
| Records.ReadCsv | backend/controllers/listController.js:181-244 | a stream error and an empty file are refused; it succeeds iff the stream ends without error and has rows, and then yields every row, mapped, in canonical form |
| Records.FirstIncomplete | backend/controllers/listController.js:261-273 | succeeds iff every record has a name and a phone; otherwise it gives the spreadsheet row number (index + 2) of the first record lacking one, all earlier records being complete |
| Records.ExcelRecordOf | backend/controllers/listController.js:262-266 | FirstName is the first non-empty of FirstName, firstname, First Name; Phone of Phone, phone, contact; Notes of Notes, notes; each else "", with case-sensitive keys |
| Records.ExcelRecords | backend/controllers/listController.js:261-266 | each sheet row is mapped by the case-sensitive Excel alias chains, in order |
| Records.ReadExcel | backend/controllers/listController.js:246-276 | unreadable, sheetless and empty workbooks are refused; it succeeds iff every row of the first sheet is complete, and then yields the clean rows; a row failure carries the first incomplete row's number |
| Records.FailureMessage | backend/controllers/listController.js:243 | CSV failures are answered with "CSV validation failed: ...", workbook failures with "Excel validation failed: ..." |
| Records.Prepare | backend/controllers/listController.js:279-342 | empty input is refused; missing name or phone columns on the first record are refused with its keys; otherwise one record per input record |
| Records.NormaliseItem | backend/controllers/listController.js:49-51 | each field is the first non-empty value of its alias chain (firstName, FirstName, firstname, First Name; phone, Phone, phoneNumber, PhoneNumber, contact, Mobile, mobile; notes, Notes, description, Description), else "" |
| Records.Transform | backend/controllers/listController.js:322-342 | a record with a non-empty firstName, phone or notes goes through the item normaliser; any other takes its name and phone from the detected column, then the fixed alternatives, and its notes from the first key matching a notes alias, else "" |
| Records.NormaliseData | backend/controllers/listController.js:48-52 | non-array data reads as no items; an array gives, item by item, the normalised record of each |
| Records.NormaliseItemCanonical | backend/controllers/listController.js:49-51 | the normaliser reads back exactly the record `{ firstName, phone, notes }` it is given |
| Records.NormaliseDataCanonical | backend/controllers/listController.js:45-53 | a stored list of canonical items normalises back to the records stored |
| Records.TransformCanonical | backend/controllers/listController.js:322-342 | a record from the CSV path goes through the transform unchanged |
| Records.EmptyTransform | backend/controllers/listController.js:330-338 | a record whose every value is empty transforms to the empty record |
| Records.TransformExcel | backend/controllers/listController.js:322-342 | a complete clean Excel row goes through the transform as the record it holds |
| Records.PrepareWith | backend/controllers/listController.js:300-342 | once both columns are found on the first record, every record is transformed with them |
| Records.PrepareCanonical | backend/controllers/listController.js:279-342 | canonical records pass the column check and the transform unchanged |
| Records.PrepareExcel | backend/controllers/listController.js:279-342 | complete clean Excel rows pass the column check and the transform unchanged |
| Records.CsvPipeline | backend/controllers/listController.js:181-342 | a non-empty error-free stream is read, and every row, mapped, reaches `distribute` in order |
| Records.ExcelPipeline | backend/controllers/listController.js:246-342 | a workbook read successfully hands on one complete record per sheet row, in order |
| Records.PipelineNeverReportsMissingColumns | backend/controllers/listController.js:279-320 | after a successful read, neither the empty-file answers nor the missing-columns answer can occur |
| Records.CsvSpacedHeaders | backend/controllers/listController.js:190-228 | a "First Name,Phone,Notes" header line yields the trimmed name, phone and notes |
| Records.CsvFirstnameColumn | backend/controllers/listController.js:221 | a two-column line whose first header maps to "firstname" takes its name from that cell |
| Records.CsvUpperCaseHeaderAccepted | backend/controllers/listController.js:190-221 | a "FIRSTNAME" column is read as the name on the CSV path |
| Records.ExcelUpperCaseHeaderRejected | backend/controllers/listController.js:261-270 | the same "FIRSTNAME" column makes the Excel path fail on row 2 |
| Records.CsvNameOnlyRowKept | backend/controllers/listController.js:220-228 | a CSV line with only a "Name" column becomes a record with an empty phone |
| Records.ExcelNameOnlyRejected | backend/controllers/listController.js:261-270 | a sheet with only a "Name" column fails on row 2 |
| Distribution.ChunkSize | backend/controllers/listController.js:404 | the chunk size c is the least number with n <= c * a; it is zero iff there are no records |
| Distribution.Slice | backend/controllers/listController.js:410 | `slice` clamps both bounds to the length and yields the records between them |
| Distribution.BuildDistributions | backend/controllers/listController.js:404-425 | the loop returns the chunk size and exactly the planned distributions |
| Distribution.PlanUpToAgents | backend/controllers/listController.js:409-425 | after i iterations the distributions are those of the first agents with non-empty chunks, in order, each with its own chunk, and an agent among the first i has one iff its chunk is non-empty |
| Distribution.PlanUpToConcat | backend/controllers/listController.js:409-425 | after i iterations the distributions hold exactly the first min(i * c, n) records, in order |
| Distribution.PlanAgents | backend/controllers/listController.js:409-422 | distribution j belongs to agent j and holds records [j * c, min(j * c + c, n)), which is non-empty; there are at most as many distributions as agents |
| Distribution.PlanTrailing | backend/controllers/listController.js:411 | the agents after the last distribution have empty chunks |
| Distribution.PlanConcat | backend/controllers/listController.js:404-425 | the distributions concatenated in agent order give back the records: none lost, none repeated, order kept |
| Distribution.PlanSizes | backend/controllers/listController.js:404-425 | every distribution but the last holds exactly c records; each holds between 1 and c |
| Distribution.FiveRecordsTwoAgents | backend/controllers/listController.js:404-425 | 5 records over 2 agents: chunk size 3; the first agent gets records 0-2, the second records 3-4 |
| Distribution.TwoRecordsFiveAgents | backend/controllers/listController.js:404-425 | 2 records over 5 agents: chunk size 1; two distributions of one record each |
| Distribution.SevenRecordsFiveAgents | backend/controllers/listController.js:404-425 | 7 records over 5 agents: chunk size 2; four distributions, and the fifth agent's chunk is empty |
| Backend.StoreOf | backend/controllers/listController.js:415-422 | each stored document has the agent's id and its records in the shape `{ firstName, phone, notes }`, in order |
| Backend.Views | backend/controllers/listController.js:45-53 | one view per stored list, with its agent and its normalised data |
| Backend.ViewsOfStore | backend/controllers/listController.js:45-53 | after a run, `getLists` shows each agent exactly the records it was given |
| Backend.Store.RemoveIfExists | backend/controllers/listController.js:436-439 | the path is no longer among the files and nothing else changes; a second attempt is harmless |
| Backend.Store.Distribute | backend/controllers/listController.js:381-457 | the roster is only read. A failed find answers 500 and changes nothing. No agents answers 400 and changes nothing, keeping the file. A failed delete answers 500 and keeps the old distributions. A failed insert answers 500 and leaves none. On success exactly the planned distributions are stored, the file is removed and the summary holds n, a, c and the number of distributions |
| Backend.Store.UploadList | backend/controllers/listController.js:140-379 | no file answers 400 and changes nothing; a refused name answers 400 with the check's message and removes the file; a failed read answers 500 with the reader's message and removes the file; otherwise the records read are distributed |
| Backend.Store.GetLists | backend/controllers/listController.js:14-63 | a failed find, or a stored list whose data is null or missing, answers "Error fetching lists"; otherwise the normalised views of all stored lists |
| Backend.Store.AddAgent | backend/controllers/agentController.js:4-51 | a missing field answers 400 and changes nothing; a known email answers 400 and changes nothing; a failed lookup or save answers 500 "Failed to add agent" and changes nothing. An agent is created iff all fields are present, the email is new and both store calls succeed; it is appended with the hashed password; the answer omits the password. Unique emails stay unique |
| Backend.Store.GetAgents | backend/controllers/agentController.js:53-72 | a failed find answers "Failed to fetch agents"; otherwise the roster as stored |

## Left out

- The file system is represented by the set `Store.files` of temporary upload paths. The upload directory's creation, the HTTP layer, logging and `process.env`-dependent details are left out. Answers are modelled as status and message.
- `Date.now()` and `Math.random()` are left out: the stored file name's suffix is a parameter.
- The csv-parser and xlsx libraries are not modelled.
  - They are represented by the parsed events (header/value cells per line) and by the sheets as rows of string cells.
  - Cell typing (numbers in sheets) and quoting rules are not modelled.
- The database (Mongoose models, `populate`, `_id` generation, `lean`) is represented by the fields of `Store`.
  - models/List.js and models/Agent.js are not part of this model.
  - So schema casting, email normalisation and `select` rules on the password are left out.
- bcrypt is a parameter `hash`. Its salting and cost factor are left out.
- `toLowerCase` folds ASCII letters only. Non-ASCII case mappings are left out.
- Non-string inputs are left out: `List.find` answering `null`, non-array records, non-object rows and non-string values. A stored list's `data` is the one exception: it may be an array, `null`/missing or another value (`Backend.ListData`). The records are always sequences of string-valued objects.
- Concurrency between requests, and a partially successful `insertMany`, are left out. A failed insert is modelled as leaving the store empty.
- `getAgents`' `!agents` branch is left out: the find returns an array whenever it succeeds.
- The `details`, `expectedNameColumns` and similar extra fields of error answers are left out, as are the exact texts of `validateCSVFormat`'s errors. `Columns.ValidateCsvFormat` returns the error kind and the row numbers only.
- authController, createAdmin, server.js and the frontend are not part of this model.
- Backend.Store.UploadList: the 400 answers for empty records and for missing columns after reading are modelled in `Records.Prepare`, and are proved unreachable (`Records.PipelineNeverReportsMissingColumns`). The method therefore has no reply for them.
- Records.Prepare: its own contract gives only the length of the Ready records. Their content is stated by `Records.PrepareWith`, `Records.PrepareCanonical` and `Records.PrepareExcel`.
