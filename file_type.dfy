/**
 * The extension checks: `validateFileType` in the list controller, its
 * twin in the file-validation utility, and the diskStorage `fileFilter`
 * of the upload helper. All three look at the lower-cased text after the
 * last '.'.
 */
module FileType {
  import opened Wrappers
  import opened JsString

  const AllowedExtensions: seq<string> := ["csv", "xlsx", "xls"]

  /** `filename.toLowerCase().split('.').pop()` */
  function Extension(name: string): string
  {
    AfterLastDot(Lower(name))
  }

  datatype FileTypeError =
    | NoFilename                  // 'No filename provided'
    | NoExtension                 // 'File has no extension'
    | InvalidFileType(ext: string) // 'Invalid file type: <ext>. ...'

  /** The text of the error `validateFileType` throws, which the upload handler sends back. */
  function FileTypeMessage(e: FileTypeError): string
  {
    match e
    case NoFilename => "No filename provided"
    case NoExtension => "File has no extension"
    case InvalidFileType(ext) => "Invalid file type: " + ext + ". Only csv, xlsx, xls files are allowed."
  }

  /** `validateFileType` of the list controller: the extension, or why it is refused. */
  function ValidateFileType(name: string): (r: Result<string, FileTypeError>)
    ensures r.Ok? <==> Extension(name) in AllowedExtensions
    ensures r.Ok? ==> r.value == Extension(name)
    ensures name == "" ==> r == Err(NoFilename)
    ensures name != "" && name[|name| - 1] == '.' ==> r == Err(NoExtension)
    ensures name != "" && name[|name| - 1] != '.' && !r.Ok? ==> r == Err(InvalidFileType(Extension(name)))
  {
    ExtensionEmptyIffTrailingDot(name);
    if name == "" then Err(NoFilename)
    else
      var ext := Extension(name);
      if ext == "" then Err(NoExtension)
      else if ext !in AllowedExtensions then Err(InvalidFileType(ext))
      else Ok(ext)
  }

  /** `validateFileType` of the file-validation utility: no separate empty-name or empty-extension error. */
  function ValidateFileTypeUtil(name: string): (r: Result<string, FileTypeError>)
    ensures r.Ok? <==> Extension(name) in AllowedExtensions
    ensures r.Ok? ==> r.value == Extension(name)
    ensures r.Err? ==> r.error == InvalidFileType(Extension(name))
  {
    var ext := Extension(name);
    if ext in AllowedExtensions then Ok(ext) else Err(InvalidFileType(ext))
  }

  /** The upload helper's `fileFilter` decision. */
  predicate UploadFilterAccepts(name: string)
  {
    Extension(name) in AllowedExtensions
  }

  /** A name without '.' is its own extension, lower-cased. */
  lemma ExtensionWithoutDot(name: string)
    requires '.' !in name
    ensures Extension(name) == Lower(name)
  {
    LowerCharwise(name);
    assert '.' !in Lower(name);
  }

  /** The extension is empty exactly when the name is empty or ends in '.'. */
  lemma ExtensionEmptyIffTrailingDot(name: string)
    ensures Extension(name) == "" <==> name == "" || name[|name| - 1] == '.'
  {
    var l := Lower(name);
    LowerCharwise(name);
    if name != "" {
      var n := |name| - 1;
      assert name[n] == '.' ==> l[n] == '.';
      assert l[n] == '.' ==> name[n] == '.' by {
        if IsUpper(name[n]) { assert l[n] as int >= 97; }
      }
    }
  }

  /** The three extension checks accept exactly the same names. */
  lemma ExtensionChecksAgree(name: string)
    ensures ValidateFileType(name).Ok? <==> UploadFilterAccepts(name)
    ensures ValidateFileTypeUtil(name).Ok? <==> UploadFilterAccepts(name)
    ensures ValidateFileType(name).Ok? ==> ValidateFileType(name) == ValidateFileTypeUtil(name)
  {
  }

  /** Upper-case extensions pass the lower-casing checks. */
  lemma UpperCaseExtensionAccepted()
    ensures ValidateFileType("A.CSV") == Ok("csv")
  {
    assert Extension("A.CSV") == "csv" by {
      assert Lower("A.CSV") == "a.csv";
      AfterLastDotOfSuffix("a", "csv");
      assert "a" + "." + "csv" == "a.csv";
    }
  }

  /** A bare name such as `csv`, without any '.', is its own extension and passes. */
  lemma BareNameAccepted()
    ensures ValidateFileType("csv") == Ok("csv")
  {
    ExtensionWithoutDot("csv");
    assert Lower("csv") == "csv";
  }

  /** A trailing '.' is reported as a missing extension by the controller, as an invalid type by the utility. */
  lemma TrailingDotRejected()
    ensures ValidateFileType("list.") == Err(NoExtension)
    ensures ValidateFileTypeUtil("list.") == Err(InvalidFileType(""))
  {
    ExtensionEmptyIffTrailingDot("list.");
  }

  lemma OtherExtensionRejected()
    ensures ValidateFileType("list.txt") == Err(InvalidFileType("txt"))
  {
    assert Extension("list.txt") == "txt" by {
      assert Lower("list.txt") == "list.txt";
      AfterLastDotOfSuffix("list", "txt");
      assert "list" + "." + "txt" == "list.txt";
    }
  }
}
