/**
 * Upload acceptance: the stored-filename formats and the error mapping
 * of the upload helper (diskStorage with a sanitised name, promise
 * wrapper) and of the list routes (multer with the original name, a
 * case-sensitive suffix filter and an error-handling middleware).
 */
module UploadPolicy {
  import opened Wrappers
  import opened JsString
  import opened FileType

  /** Both multer configurations cap an upload at 10 MiB. */
  const MaxFileSize: nat := 10 * 1024 * 1024

  /** Characters of the class `[a-zA-Z0-9.-]`, which the sanitiser keeps. */
  predicate SafeChar(c: char)
  {
    ('a' <= c <= 'z') || ('A' <= c <= 'Z') || ('0' <= c <= '9') || c == '.' || c == '-'
  }

  /**
   * `originalname.replace(/[^a-zA-Z0-9.-]/g, '_')`. The regular expression
   * has no `u` flag, so it matches UTF-16 code units: a character outside
   * the Basic Multilingual Plane is two units and becomes two '_'.
   */
  function CleanFileName(s: string): (r: string)
    ensures Utf16Length(r) == Utf16Length(s)
    ensures forall i :: 0 <= i < |r| ==> SafeChar(r[i]) || r[i] == '_'
  {
    if s == [] then []
    else
      var head := if SafeChar(s[0]) then [s[0]] else if s[0] as int >= 0x10000 then "__" else "_";
      var tail := CleanFileName(s[1..]);
      Utf16LengthAppend(head, tail);
      assert Utf16Length(s) == Utf16Length([s[0]]) + Utf16Length(s[1..]);
      head + tail
  }

  /** Within the Basic Multilingual Plane the sanitiser works character by character, in place. */
  lemma {:induction false} CleanFileNameInPlace(s: string)
    requires forall i :: 0 <= i < |s| ==> s[i] as int < 0x10000
    ensures |CleanFileName(s)| == |s|
    ensures forall i :: 0 <= i < |s| ==> CleanFileName(s)[i] == if SafeChar(s[i]) then s[i] else '_'
  {
    if s != [] {
      CleanFileNameInPlace(s[1..]);
    }
  }

  /** Sanitising twice is sanitising once. */
  lemma {:induction false} CleanFileNameIdempotent(s: string)
    ensures CleanFileName(CleanFileName(s)) == CleanFileName(s)
  {
    var r := CleanFileName(s);
    CleanFileNameKeepsSafe(r);
  }

  /** A name made only of `[a-zA-Z0-9.-]` and '_' is left unchanged. */
  lemma {:induction false} CleanFileNameKeepsSafe(s: string)
    requires forall i :: 0 <= i < |s| ==> SafeChar(s[i]) || s[i] == '_'
    ensures CleanFileName(s) == s
  {
    if s != [] {
      CleanFileNameKeepsSafe(s[1..]);
    }
  }

  /** The upload helper's stored name: `<suffix>-<sanitised original name>`. */
  function UploadStoredName(suffix: string, originalName: string): (r: string)
    ensures |r| > |suffix| && r[..|suffix|] == suffix && r[|suffix|] == '-'
    ensures r[|suffix| + 1..] == CleanFileName(originalName)
  {
    suffix + "-" + CleanFileName(originalName)
  }

  /** The list routes' stored name: `<suffix>-<original name>`, unmodified. */
  function RouteStoredName(suffix: string, originalName: string): (r: string)
    ensures |r| > |suffix| && r[..|suffix|] == suffix && r[|suffix|] == '-'
    ensures r[|suffix| + 1..] == originalName
  {
    suffix + "-" + originalName
  }

  /**
   * The suffix is `Date.now() + '-' + Math.round(Math.random() * 1E9)`,
   * digits and '-'. With such a suffix the upload helper's stored name has
   * no path separator, whatever name it is given. The list routes' name
   * keeps every character of the name it is given, so it would hold a '/'
   * whenever that name did; multer's default (without `preservePath`)
   * already cuts the client's name down to its base name, so that second
   * half concerns names multer does not deliver.
   */
  lemma StoredNameSeparators(suffix: string, originalName: string)
    requires forall i :: 0 <= i < |suffix| ==> '0' <= suffix[i] <= '9' || suffix[i] == '-'
    ensures '/' !in UploadStoredName(suffix, originalName)
    ensures '/' in originalName ==> '/' in RouteStoredName(suffix, originalName)
  {
    var r := UploadStoredName(suffix, originalName);
    assert r == suffix + "-" + CleanFileName(originalName);
    forall i | 0 <= i < |r| ensures r[i] != '/' {
      if i < |suffix| {
        assert r[i] == suffix[i];
      } else if i > |suffix| {
        assert r[i] == CleanFileName(originalName)[i - |suffix| - 1];
      }
    }
    if '/' in originalName {
      var i :| 0 <= i < |originalName| && originalName[i] == '/';
      assert RouteStoredName(suffix, originalName)[|suffix| + 1 + i] == '/';
    }
  }

  /** The list routes' `fileFilter` test: `originalname.match(/\.(csv|xlsx|xls)$/)`, case-sensitive. */
  predicate RouteFilterAccepts(name: string)
  {
    EndsWith(name, ".csv") || EndsWith(name, ".xlsx") || EndsWith(name, ".xls")
  }

  /** A name ending in '.' and a dot-free `ext` has `ext`, lower-cased, as its extension. */
  lemma ExtensionOfSuffix(name: string, ext: string)
    requires '.' !in ext
    requires EndsWith(name, "." + ext)
    ensures Extension(name) == Lower(ext)
  {
    var p := name[..|name| - |ext| - 1];
    var t := "." + ext;
    assert name == p + t;
    LowerAppend(p, t);
    LowerAppend(".", ext);
    assert Lower(".") == ".";
    LowerCharwise(ext);
    assert '.' !in Lower(ext);
    assert Lower(name) == Lower(p) + "." + Lower(ext);
    AfterLastDotOfSuffix(Lower(p), Lower(ext));
  }

  /** A name ending in '.' and an allowed extension has that extension. */
  lemma ExtensionOfAllowedSuffix(name: string, ext: string)
    requires ext in AllowedExtensions
    requires EndsWith(name, "." + ext)
    ensures Extension(name) == ext
  {
    assert '.' !in ext && forall i :: 0 <= i < |ext| ==> !IsUpper(ext[i]);
    ExtensionOfSuffix(name, ext);
    LowerOfLowerCase(ext);
  }

  /** Every name the list routes accept is also accepted by the lower-casing checks. */
  lemma RouteFilterStricter(name: string)
    requires RouteFilterAccepts(name)
    ensures UploadFilterAccepts(name)
  {
    var ext := if EndsWith(name, ".csv") then "csv" else if EndsWith(name, ".xlsx") then "xlsx" else "xls";
    ExtensionOfAllowedSuffix(name, ext);
  }

  /**
   * The upload helper's filter, stated without `split`: it accepts a name
   * whose lower-cased form is a bare `csv`, `xlsx` or `xls`, or ends in
   * '.' followed by one of them.
   */
  lemma UploadFilterCharacterised(name: string)
    ensures UploadFilterAccepts(name) <==> Lower(name) in AllowedExtensions || RouteFilterAccepts(Lower(name))
  {
    AllowedAfterLastDot(Lower(name));
  }

  lemma AllowedAfterLastDot(l: string)
    ensures AfterLastDot(l) in AllowedExtensions <==> l in AllowedExtensions || RouteFilterAccepts(l)
  {
    AllowedSuffixes();
    var isCsv := AfterLastDotIsExt(l, "csv", ".csv");
    var isXlsx := AfterLastDotIsExt(l, "xlsx", ".xlsx");
    var isXls := AfterLastDotIsExt(l, "xls", ".xls");
    AllowedByCases(l, AfterLastDot(l), isCsv, isXlsx, isXls);
  }

  /** Each allowed extension is dot-free, and its route suffix is '.' followed by it. */
  lemma AllowedSuffixes()
    ensures '.' !in "csv" && ".csv" == "." + "csv"
    ensures '.' !in "xlsx" && ".xlsx" == "." + "xlsx"
    ensures '.' !in "xls" && ".xls" == "." + "xls"
  {
  }

  /** The case split of `AllowedAfterLastDot`, one allowed extension at a time. */
  lemma AllowedByCases(l: string, e: string, isCsv: bool, isXlsx: bool, isXls: bool)
    requires isCsv == (e == "csv") && isXlsx == (e == "xlsx") && isXls == (e == "xls")
    requires isCsv <==> l == "csv" || EndsWith(l, ".csv")
    requires isXlsx <==> l == "xlsx" || EndsWith(l, ".xlsx")
    requires isXls <==> l == "xls" || EndsWith(l, ".xls")
    ensures e in AllowedExtensions <==> l in AllowedExtensions || RouteFilterAccepts(l)
  {
    assert e in AllowedExtensions <==> isCsv || isXlsx || isXls;
    assert l in AllowedExtensions <==> l == "csv" || l == "xlsx" || l == "xls";
  }

  /** Whether the text after the last '.' is `ext`, stated with the suffix `dotExt = "." + ext`. */
  lemma AfterLastDotIsExt(l: string, ext: string, dotExt: string) returns (b: bool)
    requires '.' !in ext && dotExt == "." + ext
    ensures b == (AfterLastDot(l) == ext)
    ensures b <==> l == ext || EndsWith(l, dotExt)
  {
    AfterLastDotIs(l, ext);
    b := AfterLastDot(l) == ext;
  }

  /** The converse fails: the route filter is case-sensitive. */
  lemma RouteFilterCaseSensitive()
    ensures !RouteFilterAccepts("LIST.CSV")
    ensures UploadFilterAccepts("LIST.CSV")
  {
    UpperCaseExtension();
    assert Lower("CSV") == "csv";
  }

  lemma UpperCaseExtension()
    ensures Extension("LIST.CSV") == Lower("CSV")
  {
    assert EndsWith("LIST.CSV", ".CSV");
    ExtensionOfSuffix("LIST.CSV", "CSV");
  }

  /** The errors multer hands to its callback. */
  datatype UploadError =
    | MulterError(code: string, message: string)
    | OtherError(message: string)

  /** How the upload helper's promise settles. */
  datatype MiddlewareOutcome =
    | Resolved
    | Rejected(status: nat, message: string)

  /**
   * The upload helper's callback: a MulterError rejects with 400 and
   * "Upload error: <msg>", any other error with 500 and its message, no
   * error resolves with the file. The later `resolve` call cannot change
   * a promise that was already rejected.
   */
  function UploadMiddleware(err: Option<UploadError>): (r: MiddlewareOutcome)
    ensures r.Resolved? <==> err.None?
    ensures err.Some? && err.value.MulterError? ==> r == Rejected(400, "Upload error: " + err.value.message)
    ensures err.Some? && err.value.OtherError? ==> r == Rejected(500, err.value.message)
  {
    match err
    case None => Resolved
    case Some(MulterError(_, msg)) => Rejected(400, "Upload error: " + msg)
    case Some(OtherError(msg)) => Rejected(500, msg)
  }

  /** What the list routes' error middleware does. */
  datatype HandlerOutcome =
    | Next
    | Respond(status: nat, message: string)

  const FileTooLargeMessage := "File too large. Maximum size is 10MB."

  /**
   * `handleMulterError`: every error is answered with 400 (the size
   * limit with its own message); without an error, control passes on.
   */
  function HandleMulterError(err: Option<UploadError>): (r: HandlerOutcome)
    ensures r.Next? <==> err.None?
    ensures r.Respond? ==> r.status == 400
    ensures err.Some? && err.value.MulterError? && err.value.code == "LIMIT_FILE_SIZE" ==> r.message == FileTooLargeMessage
    ensures err.Some? && err.value.MulterError? && err.value.code != "LIMIT_FILE_SIZE" ==> r.message == "Upload error: " + err.value.message
    ensures err.Some? && err.value.OtherError? ==> r.message == err.value.message
  {
    match err
    case None => Next
    case Some(MulterError(code, msg)) =>
      if code == "LIMIT_FILE_SIZE" then Respond(400, FileTooLargeMessage) else Respond(400, "Upload error: " + msg)
    case Some(OtherError(msg)) => Respond(400, msg)
  }

  /** The errors the two `fileFilter`s raise for a refused name. */
  const UploadFilterMessage := "Only CSV, XLSX, and XLS files are allowed"
  const RouteFilterMessage := "Invalid file type. Only CSV, XLSX, and XLS files are allowed."

  /** The upload helper's `fileFilter`: no error for an allowed extension, otherwise a plain `Error`. */
  function UploadFileFilter(name: string): (r: Option<UploadError>)
    ensures r.None? <==> UploadFilterAccepts(name)
    ensures r.Some? ==> r.value == OtherError(UploadFilterMessage)
  {
    if UploadFilterAccepts(name) then None else Some(OtherError(UploadFilterMessage))
  }

  /** The list routes' `fileFilter`: no error for a matching name, otherwise a plain `Error`. */
  function RouteFileFilter(name: string): (r: Option<UploadError>)
    ensures r.None? <==> RouteFilterAccepts(name)
    ensures r.Some? ==> r.value == OtherError(RouteFilterMessage)
  {
    if RouteFilterAccepts(name) then None else Some(OtherError(RouteFilterMessage))
  }

  /** multer's own error for a file over `limits.fileSize`. */
  const LimitFileSizeError := MulterError("LIMIT_FILE_SIZE", "File too large")

  /**
   * The error multer passes on for one file: the filter runs first, on the
   * name alone; a file it accepts is then refused when its size exceeds
   * the limit.
   */
  function MulterReceive(filterError: Option<UploadError>, size: nat): (r: Option<UploadError>)
    ensures filterError.Some? ==> r == filterError
    ensures filterError.None? ==> (r.Some? <==> size > MaxFileSize)
    ensures filterError.None? && r.Some? ==> r.value == LimitFileSizeError
  {
    if filterError.Some? then filterError
    else if size > MaxFileSize then Some(LimitFileSizeError)
    else None
  }

  /** A rejected extension surfaces as 500 through the upload helper, as 400 through the list routes. */
  lemma RejectedExtensionStatus(name: string, size: nat)
    requires !UploadFilterAccepts(name)
    ensures UploadMiddleware(MulterReceive(UploadFileFilter(name), size)) == Rejected(500, UploadFilterMessage)
    ensures HandleMulterError(MulterReceive(RouteFileFilter(name), size)) == Respond(400, RouteFilterMessage)
  {
    if RouteFilterAccepts(name) {
      RouteFilterStricter(name);
    }
  }

  /**
   * A file over 10 MiB whose name is accepted is refused with 400 by both
   * paths: with multer's message behind "Upload error: " by the helper,
   * with the fixed size message by the list routes.
   */
  lemma OversizeStatus(name: string, size: nat)
    requires RouteFilterAccepts(name)
    requires size > MaxFileSize
    ensures UploadMiddleware(MulterReceive(UploadFileFilter(name), size)) == Rejected(400, "Upload error: File too large")
    ensures HandleMulterError(MulterReceive(RouteFileFilter(name), size)) == Respond(400, FileTooLargeMessage)
  {
    RouteFilterStricter(name);
  }

  /** A file within the limit whose name both filters accept reaches the handler on both paths. */
  lemma AcceptedReachesHandler(name: string, size: nat)
    requires RouteFilterAccepts(name)
    requires size <= MaxFileSize
    ensures UploadMiddleware(MulterReceive(UploadFileFilter(name), size)) == Resolved
    ensures HandleMulterError(MulterReceive(RouteFileFilter(name), size)) == Next
  {
    RouteFilterStricter(name);
  }
}
