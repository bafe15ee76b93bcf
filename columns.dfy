/**
 * Column lookup by alias and the two column validators: the list
 * controller's `validateCSVFormat` (defined there but not called by the
 * upload handler) and the file-validation utility's `validateFileFormat`.
 */
module Columns {
  import opened Wrappers
  import opened JsString
  import opened JsObject

  /** The alias lists of the list controller (both copies are identical). */
  const NameAliases: seq<string> := ["FirstName", "firstname", "first_name", "Name", "name"]
  const PhoneAliases: seq<string> := ["Phone", "phone", "contact", "mobile", "Mobile", "PhoneNumber"]
  const NotesAliases: seq<string> := ["Notes", "notes", "description", "Description"]

  /** `ss.map(s => s.toLowerCase())` */
  function LowerAll(ss: seq<string>): (r: seq<string>)
    ensures |r| == |ss|
    ensures forall i :: 0 <= i < |ss| ==> r[i] == Lower(ss[i])
  {
    if ss == [] then [] else [Lower(ss[0])] + LowerAll(ss[1..])
  }

  /** `aliases.map(col => col.toLowerCase()).includes(key.toLowerCase())` */
  predicate MatchesAlias(key: string, aliases: seq<string>)
  {
    exists i :: 0 <= i < |aliases| && Lower(aliases[i]) == Lower(key)
  }

  /**
   * `Object.keys(record).find(key => MatchesAlias(key, aliases))`: the
   * first key, in insertion order, whose lower-cased form is a lower-cased
   * alias.
   */
  function FindKey(keys: seq<string>, aliases: seq<string>): (r: Option<string>)
    ensures r.None? <==> forall i :: 0 <= i < |keys| ==> !MatchesAlias(keys[i], aliases)
    ensures r.Some? ==> exists i :: 0 <= i < |keys| && keys[i] == r.value && MatchesAlias(keys[i], aliases)
                                    && forall j :: 0 <= j < i ==> !MatchesAlias(keys[j], aliases)
  {
    if keys == [] then None
    else if MatchesAlias(keys[0], aliases) then Some(keys[0])
    else
      var r := FindKey(keys[1..], aliases);
      assert forall i :: 1 <= i < |keys| ==> keys[1..][i - 1] == keys[i];
      if r.Some? then
        var i' :| 0 <= i' < |keys| - 1 && keys[1..][i'] == r.value && MatchesAlias(keys[1..][i'], aliases)
                  && forall j :: 0 <= j < i' ==> !MatchesAlias(keys[1..][j], aliases);
        assert keys[i' + 1] == r.value;
        r
      else r
  }

  /** A found key never reads as falsy: every alias is non-empty. */
  lemma FoundKeyNonEmpty(keys: seq<string>, aliases: seq<string>)
    requires forall i :: 0 <= i < |aliases| ==> aliases[i] != ""
    requires FindKey(keys, aliases).Some?
    ensures FindKey(keys, aliases).value != ""
  {
  }

  /** `find` stops at the first matching key. */
  lemma FindKeyAt(keys: seq<string>, aliases: seq<string>, i: nat)
    requires i < |keys| && MatchesAlias(keys[i], aliases)
    requires forall j :: 0 <= j < i ==> !MatchesAlias(keys[j], aliases)
    ensures FindKey(keys, aliases) == Some(keys[i])
  {
  }

  lemma FindKeySecond(keys: seq<string>, aliases: seq<string>)
    requires |keys| >= 2 && !MatchesAlias(keys[0], aliases) && MatchesAlias(keys[1], aliases)
    ensures FindKey(keys, aliases) == Some(keys[1])
  {
    FindKeyAt(keys, aliases, 1);
  }

  lemma FindKeyThird(keys: seq<string>, aliases: seq<string>)
    requires |keys| >= 3 && !MatchesAlias(keys[0], aliases) && !MatchesAlias(keys[1], aliases)
    requires MatchesAlias(keys[2], aliases)
    ensures FindKey(keys, aliases) == Some(keys[2])
  {
    FindKeyAt(keys, aliases, 2);
  }

  /** Lower-casing keeps lengths, so a key matches no alias of a different length. */
  lemma NoMatchByLength(key: string, aliases: seq<string>)
    requires forall i :: 0 <= i < |aliases| ==> |aliases[i]| != |key|
    ensures !MatchesAlias(key, aliases)
  {
  }

  /** Headers differing only in ASCII case resolve to the same alias slot. */
  lemma MatchIgnoresCase(a: string, b: string, aliases: seq<string>)
    requires Lower(a) == Lower(b)
    ensures MatchesAlias(a, aliases) <==> MatchesAlias(b, aliases)
  {
  }

  datatype CsvFormatError =
    | EmptyRecords                   // 'The file is empty. Please upload a file with data.'
    | MissingRequiredColumns         // 'Missing required columns. File must contain: ...'
    | InvalidRows(rows: seq<nat>)    // 'Found <n> invalid rows missing required data. Check rows: ...'

  /** `!record[name] || !record[phone]` */
  predicate MissingData(record: Obj, nameKey: string, phoneKey: string)
  {
    Get(record, nameKey) == "" || Get(record, phoneKey) == ""
  }

  predicate StrictlyIncreasing(s: seq<nat>)
  {
    forall i, j :: 0 <= i < j < |s| ==> s[i] < s[j]
  }

  /**
   * The `forEach` of `validateCSVFormat`: the 1-based indices of the rows
   * whose name or phone value is empty, in ascending order.
   */
  method InvalidRowNumbers(records: seq<Obj>, nameKey: string, phoneKey: string) returns (rows: seq<nat>)
    ensures StrictlyIncreasing(rows)
    ensures forall k :: k in rows <==> 1 <= k <= |records| && MissingData(records[k - 1], nameKey, phoneKey)
  {
    rows := [];
    var index := 0;
    while index < |records|
      invariant 0 <= index <= |records|
      invariant StrictlyIncreasing(rows)
      invariant forall i :: 0 <= i < |rows| ==> 1 <= rows[i] <= index
      invariant forall k :: k in rows <==> 1 <= k <= index && MissingData(records[k - 1], nameKey, phoneKey)
    {
      if MissingData(records[index], nameKey, phoneKey) {
        rows := rows + [index + 1];
      }
      index := index + 1;
    }
  }

  /** Both a name and a phone column are found among the first record's keys. */
  predicate ColumnsFound(first: Obj)
  {
    FindKey(Keys(first), NameAliases).Some? && FindKey(Keys(first), PhoneAliases).Some?
  }

  function FoundColumns(first: Obj): (string, string)
    requires ColumnsFound(first)
  {
    (FindKey(Keys(first), NameAliases).value, FindKey(Keys(first), PhoneAliases).value)
  }

  /**
   * `validateCSVFormat`: the name and phone columns found in the first
   * record, provided every record has both values; otherwise the 1-based
   * numbers of all records that lack one.
   */
  method ValidateCsvFormat(records: seq<Obj>) returns (r: Result<(string, string), CsvFormatError>)
    ensures records == [] ==> r == Err(EmptyRecords)
    ensures records != [] && !ColumnsFound(records[0]) ==> r == Err(MissingRequiredColumns)
    ensures r.Ok? ==> records != [] && ColumnsFound(records[0]) && r.value == FoundColumns(records[0])
                      && forall i :: 0 <= i < |records| ==> !MissingData(records[i], r.value.0, r.value.1)
    ensures records != [] && ColumnsFound(records[0]) ==> r.Ok? || r.error.InvalidRows?
    ensures r.Err? && r.error.InvalidRows? ==>
              && records != [] && ColumnsFound(records[0])
              && r.error.rows != [] && StrictlyIncreasing(r.error.rows)
              && forall k :: k in r.error.rows <==>
                   1 <= k <= |records| && MissingData(records[k - 1], FoundColumns(records[0]).0, FoundColumns(records[0]).1)
  {
    if records == [] {
      return Err(EmptyRecords);
    }
    if !ColumnsFound(records[0]) {
      return Err(MissingRequiredColumns);
    }
    var (nameKey, phoneKey) := FoundColumns(records[0]);
    var rows := InvalidRowNumbers(records, nameKey, phoneKey);
    if |rows| > 0 {
      return Err(InvalidRows(rows));
    }
    forall i | 0 <= i < |records| ensures !MissingData(records[i], nameKey, phoneKey) {
      assert i + 1 !in rows;
    }
    return Ok((nameKey, phoneKey));
  }

  /** The required columns of the file-validation utility, lower-case. */
  const RequiredColumns: seq<string> := ["firstname", "phone", "notes"]

  /** `xs` is `ys` with some entries left out, the rest kept in order. */
  predicate Subsequence(xs: seq<string>, ys: seq<string>)
    decreases |ys|
  {
    xs == [] || (ys != [] && (if xs[0] == ys[0] then Subsequence(xs[1..], ys[1..]) else Subsequence(xs, ys[1..])))
  }

  /**
   * `required.filter(col => !headers.includes(col))`: the entries of
   * `required` that are not headers, in their order, each as often as
   * `required` lists it.
   */
  function Absent(required: seq<string>, headers: seq<string>): (r: seq<string>)
    ensures Subsequence(r, required)
    ensures forall c :: multiset(r)[c] == if c in headers then 0 else multiset(required)[c]
    ensures forall c :: c in r <==> c in required && c !in headers
    ensures |r| <= |required|
  {
    if required == [] then []
    else
      var rest := Absent(required[1..], headers);
      assert required == [required[0]] + required[1..];
      if required[0] in headers then
        assert rest == [] || rest[0] != required[0] by {
          if rest != [] { assert rest[0] in rest; }
        }
        rest
      else
        assert ([required[0]] + rest)[1..] == rest;
        [required[0]] + rest
  }

  datatype FileFormatError =
    | FileIsEmpty                            // 'The file is empty'
    | MissingColumns(columns: seq<string>)   // 'Missing required columns: ...'

  /**
   * `validateFileFormat`: only the first record's keys, lower-cased, are
   * inspected; `firstname`, `phone` and `notes` must all be there.
   */
  function ValidateFileFormat(records: seq<Obj>): (r: Result<bool, FileFormatError>)
    ensures records == [] ==> r == Err(FileIsEmpty)
    ensures records != [] ==> (r.Ok? <==> forall c :: c in RequiredColumns ==> c in LowerAll(Keys(records[0])))
    ensures r.Ok? ==> r.value
    ensures r.Err? && records != [] ==>
              r.error == MissingColumns(Absent(RequiredColumns, LowerAll(Keys(records[0])))) && r.error.columns != []
  {
    if records == [] then Err(FileIsEmpty)
    else
      var headers := LowerAll(Keys(records[0]));
      var missing := Absent(RequiredColumns, headers);
      assert missing != [] ==> missing[0] in missing;
      if |missing| > 0 then Err(MissingColumns(missing)) else Ok(true)
  }

  /** Later records play no part in `validateFileFormat`. */
  lemma ValidateFileFormatFirstOnly(records: seq<Obj>)
    requires records != []
    ensures ValidateFileFormat(records) == ValidateFileFormat([records[0]])
  {
  }

  /** The keys the CSV mapping gives every record, and those the Excel mapping gives. */
  const CanonicalKeys: seq<string> := ["firstName", "phone", "notes"]
  const ExcelKeys: seq<string> := ["FirstName", "Phone", "Notes"]

  /** On the CSV mapping's keys, both lookups succeed. */
  lemma CanonicalKeysResolve()
    ensures FindKey(CanonicalKeys, NameAliases) == Some("firstName")
    ensures FindKey(CanonicalKeys, PhoneAliases) == Some("phone")
  {
    CanonicalNameKey();
    CanonicalPhoneKey();
  }

  lemma CanonicalNameKey()
    ensures FindKey(["firstName", "phone", "notes"], NameAliases) == Some("firstName")
  {
    assert Lower(NameAliases[1]) == Lower("firstName");
    FindKeyAt(["firstName", "phone", "notes"], NameAliases, 0);
  }

  lemma CanonicalPhoneKey()
    ensures FindKey(["firstName", "phone", "notes"], PhoneAliases) == Some("phone")
  {
    NoMatchByLength("firstName", PhoneAliases);
    assert Lower(PhoneAliases[1]) == Lower("phone");
    FindKeySecond(["firstName", "phone", "notes"], PhoneAliases);
  }

  /** On the Excel mapping's keys, all three lookups succeed, each on its own column. */
  lemma ExcelKeysResolve()
    ensures FindKey(ExcelKeys, NameAliases) == Some("FirstName")
    ensures FindKey(ExcelKeys, PhoneAliases) == Some("Phone")
    ensures FindKey(ExcelKeys, NotesAliases) == Some("Notes")
  {
    ExcelNameKey();
    ExcelPhoneKey();
    ExcelNotesKey();
  }

  lemma ExcelNameKey()
    ensures FindKey(["FirstName", "Phone", "Notes"], NameAliases) == Some("FirstName")
  {
    assert Lower(NameAliases[0]) == Lower("FirstName");
    FindKeyAt(["FirstName", "Phone", "Notes"], NameAliases, 0);
  }

  lemma ExcelPhoneKey()
    ensures FindKey(["FirstName", "Phone", "Notes"], PhoneAliases) == Some("Phone")
  {
    NoMatchByLength("FirstName", PhoneAliases);
    assert Lower(PhoneAliases[0]) == Lower("Phone");
    FindKeySecond(["FirstName", "Phone", "Notes"], PhoneAliases);
  }

  lemma ExcelNotesKey()
    ensures FindKey(["FirstName", "Phone", "Notes"], NotesAliases) == Some("Notes")
  {
    NoMatchByLength("FirstName", NotesAliases);
    PhoneIsNoNotesAlias();
    assert Lower(NotesAliases[0]) == Lower("Notes");
    FindKeyThird(["FirstName", "Phone", "Notes"], NotesAliases);
  }

  lemma PhoneIsNoNotesAlias()
    ensures !MatchesAlias("Phone", NotesAliases)
  {
    LowerCharwise("Phone");
    assert Lower("Phone")[0] == 'p';
    forall i | 0 <= i < |NotesAliases| ensures Lower(NotesAliases[i]) != Lower("Phone") {
      LowerCharwise(NotesAliases[i]);
      assert Lower(NotesAliases[i])[0] != 'p';
    }
  }

  /**
   * Unlike the list controller, the utility insists on a notes column:
   * a record with FirstName and Phone only is refused here, although
   * both of the controller's lookups succeed on it.
   */
  lemma NotesRequiredOnlyByUtility(f: string, p: string)
    ensures ValidateFileFormat([[("FirstName", f), ("Phone", p)]]) == Err(MissingColumns(["notes"]))
    ensures FindKey(["FirstName", "Phone"], NameAliases) == Some("FirstName")
    ensures FindKey(["FirstName", "Phone"], PhoneAliases) == Some("Phone")
  {
    NotesMissing(f, p);
    NameAndPhoneNameKey();
    NameAndPhonePhoneKey();
  }

  lemma NameAndPhoneNameKey()
    ensures FindKey(["FirstName", "Phone"], NameAliases) == Some("FirstName")
  {
    assert Lower(NameAliases[0]) == Lower("FirstName");
    FindKeyAt(["FirstName", "Phone"], NameAliases, 0);
  }

  lemma NameAndPhonePhoneKey()
    ensures FindKey(["FirstName", "Phone"], PhoneAliases) == Some("Phone")
  {
    NoMatchByLength("FirstName", PhoneAliases);
    assert Lower(PhoneAliases[0]) == Lower("Phone");
    FindKeySecond(["FirstName", "Phone"], PhoneAliases);
  }

  lemma NotesMissing(f: string, p: string)
    ensures ValidateFileFormat([[("FirstName", f), ("Phone", p)]]) == Err(MissingColumns(["notes"]))
  {
    var rec := [("FirstName", f), ("Phone", p)];
    HeadersOfNameAndPhone(f, p);
    NotesAbsent();
    var r := ValidateFileFormat([rec]);
    assert r.Err? by {
      assert "notes" in RequiredColumns && "notes" !in ["firstname", "phone"];
    }
  }

  lemma HeadersOfNameAndPhone(f: string, p: string)
    ensures LowerAll(Keys([("FirstName", f), ("Phone", p)])) == ["firstname", "phone"]
  {
    assert Keys([("FirstName", f), ("Phone", p)]) == ["FirstName", "Phone"];
    assert Lower("FirstName") == "firstname";
    assert Lower("Phone") == "phone";
  }

  lemma NotesAbsent()
    ensures Absent(RequiredColumns, ["firstname", "phone"]) == ["notes"]
  {
  }

  /** The missing columns are reported in the order `firstname`, `phone`, `notes`. */
  lemma MissingInRequiredOrder(headers: seq<string>)
    ensures Absent(RequiredColumns, headers)
            == (if "firstname" in headers then [] else ["firstname"])
               + ((if "phone" in headers then [] else ["phone"])
                  + (if "notes" in headers then [] else ["notes"]))
  {
    AbsentOfThree(RequiredColumns, headers);
  }

  lemma AbsentOfThree(required: seq<string>, headers: seq<string>)
    requires |required| == 3
    ensures Absent(required, headers)
            == (if required[0] in headers then [] else [required[0]])
               + ((if required[1] in headers then [] else [required[1]])
                  + (if required[2] in headers then [] else [required[2]]))
  {
    var t1 := required[1..];
    var t2 := t1[1..];
    assert t1[0] == required[1] && t2[0] == required[2] && t2[1..] == [];
    var a := if required[0] in headers then [] else [required[0]];
    var b := if required[1] in headers then [] else [required[1]];
    var c := if required[2] in headers then [] else [required[2]];
    AbsentStep(t2, headers);
    assert Absent(t2, headers) == c;
    AbsentStep(t1, headers);
    assert Absent(t1, headers) == b + c;
    AbsentStep(required, headers);
  }

  /** Only `phone` present: `firstname` is reported before `notes`. */
  lemma FirstnameBeforeNotes()
    ensures Absent(RequiredColumns, ["phone"]) == ["firstname", "notes"]
  {
    var headers := ["phone"];
    assert |"firstname"| != |headers[0]| && "notes"[0] != headers[0][0];
    assert "firstname" !in headers && "notes" !in headers && "phone" in headers;
    MissingInRequiredOrder(headers);
  }

  lemma AbsentStep(required: seq<string>, headers: seq<string>)
    requires required != []
    ensures Absent(required, headers) == (if required[0] in headers then [] else [required[0]]) + Absent(required[1..], headers)
  {
  }
}