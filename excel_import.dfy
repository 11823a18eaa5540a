/** The spreadsheet importer: it turns a workbook with a `Form` sheet and a
    `Fields` sheet into a form schema, or into the list of every error it
    found. Each step is given twice: a function that states what the step
    computes, and a method that computes it the way the importer does, by
    appending to lists inside loops; each method's postcondition ties it to
    its function, and the lemmas below state what the functions promise.

    Cells are text or empty; the number parser used for `min`/`max` is a
    parameter (it stands for Python's `float()`). */
module ExcelImport {
  import opened Wrappers
  import opened Strings
  import opened Schema

  type Cell = Option<string>
  type Row = seq<Cell>
  /** Row n of the sheet (1-based) is element n - 1. */
  type Sheet = seq<Row>
  /** Sheet name to sheet. */
  type Workbook = map<string, Sheet>
  /** Partial parse of a cell's text into a number. */
  type NumberParser = string -> Option<real>

  /** The uploaded bytes: either a workbook, or a file the loader rejected
      with the given reason. */
  datatype WorkbookFile = Unreadable(reason: string) | Readable(sheets: Workbook)

  // ===========================================================================
  // Rows and cells
  // ===========================================================================

  /** `ws[n]`: a row past the end of the sheet reads as empty cells. One is
      enough, because such a row is non-empty and blank whatever its width,
      and every read of a cell is bounds-checked. */
  function RowAt(ws: Sheet, n: nat): Row
  {
    if 1 <= n <= |ws| then ws[n - 1] else [None]
  }

  /** An empty cell, or one whose text is all whitespace. */
  predicate IsBlankCell(c: Cell) {
    c.None? || AllSpace(c.value)
  }

  /** The blank test is the importer's `v is None or str(v).strip() == ""`. */
  lemma BlankCellStrip(c: Cell)
    ensures IsBlankCell(c) <==> c.None? || Strip(c.value) == ""
  {
    if c.Some? {
      StripEmpty(c.value);
    }
  }

  /** Every cell is empty or whitespace: the row that ends the scan. */
  predicate IsBlankRow(r: Row) {
    forall i :: 0 <= i < |r| ==> IsBlankCell(r[i])
  }

  lemma BlankPastEnd(ws: Sheet, n: nat)
    requires !IsBlankRow(RowAt(ws, n))
    ensures 1 <= n <= |ws|
  {
    if !(1 <= n <= |ws|) {
      assert IsBlankCell(RowAt(ws, n)[0]);
    }
  }

  /** Python truthiness of an optional string: present and non-empty. */
  predicate Truthy(v: Option<string>) {
    v.Some? && v.value != ""
  }

  // ===========================================================================
  // Header maps
  // ===========================================================================

  /** How a header cell is turned into a column key: the Form sheet lower-cases
      it, the Fields sheet lower-cases and strips it. */
  datatype KeyStyle = LowerOnly | LowerStripped

  function HeaderKey(h: string, style: KeyStyle): string
  {
    match style
    case LowerOnly => Lower(h)
    case LowerStripped => Strip(Lower(h))
  }

  /** The key of each header cell; an empty header has none. */
  function HeaderKeys(headers: Row, style: KeyStyle): (keys: seq<Option<string>>)
    ensures |keys| == |headers|
  {
    seq(|headers|, i requires 0 <= i < |headers| =>
      if Truthy(headers[i]) then Some(HeaderKey(headers[i].value, style)) else None)
  }

  /** `{k: i for i, k in enumerate(keys) if k}`: a later column overwrites an
      earlier one with the same key. */
  function IndexKeys(keys: seq<Option<string>>): (m: map<string, nat>)
    ensures forall k :: k in m ==> m[k] < |keys|
  {
    if keys == [] then map[]
    else
      var m := IndexKeys(keys[..|keys| - 1]);
      match keys[|keys| - 1]
      case None => m
      case Some(k) => m[k := |keys| - 1]
  }

  /** The column map of a header row. */
  function HeaderIndex(headers: Row, style: KeyStyle): (m: map<string, nat>)
    ensures forall k :: k in m ==> m[k] < |headers|
  {
    IndexKeys(HeaderKeys(headers, style))
  }

  lemma {:induction false} IndexKeysSpec(keys: seq<Option<string>>, k: string)
    ensures k in IndexKeys(keys) <==> exists i :: 0 <= i < |keys| && keys[i] == Some(k)
    ensures k in IndexKeys(keys) ==>
              keys[IndexKeys(keys)[k]] == Some(k) &&
              forall j :: IndexKeys(keys)[k] < j < |keys| ==> keys[j] != Some(k)
  {
    if keys != [] {
      var init := keys[..|keys| - 1];
      IndexKeysSpec(init, k);
      assert forall i :: 0 <= i < |init| ==> init[i] == keys[i];
      if keys[|keys| - 1] != Some(k) && k in IndexKeys(init) {
        assert IndexKeys(keys)[k] == IndexKeys(init)[k];
      }
    }
  }

  /** Column i of the header row is non-empty and has key k. */
  predicate Names(headers: Row, style: KeyStyle, i: int, k: string) {
    0 <= i < |headers| && Truthy(headers[i]) && HeaderKey(headers[i].value, style) == k
  }

  /** A key is in the header map exactly when some non-empty header has that
      key, and it maps to the last such column. */
  lemma HeaderIndexSpec(headers: Row, style: KeyStyle, k: string)
    ensures k in HeaderIndex(headers, style) <==> exists i :: Names(headers, style, i, k)
    ensures k in HeaderIndex(headers, style) ==>
              var c := HeaderIndex(headers, style)[k];
              Names(headers, style, c, k) &&
              forall j :: c < j < |headers| ==> !Names(headers, style, j, k)
  {
    var keys := HeaderKeys(headers, style);
    IndexKeysSpec(keys, k);
    assert forall i :: 0 <= i < |headers| ==> (Names(headers, style, i, k) <==> keys[i] == Some(k));
  }

  // ===========================================================================
  // Errors
  // ===========================================================================

  /** A problem found in one row of the Fields sheet. */
  datatype RowProblem =
    | IdRequired
    | IdCharacters(id: string)
    | DuplicateId(id: string)
    | LabelRequired
    | TypeRequired
    | InvalidType(typeName: string)
    | OptionsRequired(id: string, typeName: string)
    | OptionsFormat(id: string)
    | MinRequired(id: string)
    | MaxRequired(id: string)
    | MinAboveMax(id: string, minText: string, maxText: string)
    | RangeNotNumeric(id: string)

  /** Every problem the importer reports. The error list it returns holds
      `Message(issue)` for each issue, in the order found. */
  datatype Issue =
    | InvalidFile(reason: string)
    | MissingSheet(sheet: string)
    | FormNameColumnMissing
    | FormNoData
    | FormNameRequired
    | FieldsNoHeaders
    | MissingColumn(column: string)
    | NoFields
    | AtRow(rowNum: nat, problem: RowProblem)

  /** `", ".join(names)`. */
  function CommaList(names: seq<string>): string
  {
    if |names| == 0 then ""
    else if |names| == 1 then names[0]
    else names[0] + ", " + CommaList(names[1..])
  }

  function RowMessage(p: RowProblem): string
  {
    match p
    case IdRequired => "Field ID is required"
    case IdCharacters(id) => "Field ID '" + id + "' contains invalid characters (use only letters, numbers, underscore)"
    case DuplicateId(id) => "Duplicate field ID: '" + id + "'"
    case LabelRequired => "Field label is required"
    case TypeRequired => "Field type is required"
    case InvalidType(t) => "Invalid field type '" + t + "'. Allowed: " + CommaList(AllowedTypeNames)
    case OptionsRequired(id, t) => "Field '" + id + "' of type '" + t + "' requires options"
    case OptionsFormat(id) => "Field '" + id + "' has invalid options format"
    case MinRequired(id) => "Field '" + id + "' of type 'number' requires 'min' value"
    case MaxRequired(id) => "Field '" + id + "' of type 'number' requires 'max' value"
    case MinAboveMax(id, lo, hi) => "Field '" + id + "' has min (" + lo + ") greater than max (" + hi + ")"
    case RangeNotNumeric(id) => "Field '" + id + "' has invalid min/max values (must be numbers)"
  }

  /** The text the importer reports for an issue. */
  function Message(issue: Issue): string
  {
    match issue
    case InvalidFile(reason) => "Invalid Excel file: " + reason
    case MissingSheet(sheet) => "Missing required sheet: '" + sheet + "'"
    case FormNameColumnMissing => "Form sheet: Missing 'name' column"
    case FormNoData => "Form sheet: No data found in row 2"
    case FormNameRequired => "Form name is required"
    case FieldsNoHeaders => "Fields sheet: No headers found"
    case MissingColumn(col) => "Fields sheet: Missing required column '" + col + "'"
    case NoFields => "At least one field is required"
    case AtRow(n, p) => "Row " + NatToString(n) + ": " + RowMessage(p)
  }

  function Messages(issues: seq<Issue>): (ms: seq<string>)
    ensures |ms| == |issues|
  {
    seq(|issues|, i requires 0 <= i < |issues| => Message(issues[i]))
  }

  // ===========================================================================
  // Form sheet
  // ===========================================================================

  datatype FormData = FormData(name: Option<string>, description: Option<string>)

  datatype FormSheetResult = FormSheetResult(data: FormData, errors: seq<Issue>)

  /** `[h.lower() if h else "" for h in headers]`. */
  function LoweredHeaders(headers: Row): (r: seq<string>)
    ensures |r| == |headers|
  {
    seq(|headers|, i requires 0 <= i < |headers| => if Truthy(headers[i]) then Lower(headers[i].value) else "")
  }

  /** The stripped text of the cell under `column`, when that text is not blank. */
  function NonBlankCell(values: Row, hm: map<string, nat>, column: string): (v: Option<string>)
    ensures v.Some? ==> v.value != "" && IsTrimmed(v.value)
  {
    if column in hm && hm[column] < |values| && Truthy(values[hm[column]]) && Strip(values[hm[column]].value) != ""
    then Some(Strip(values[hm[column]].value))
    else None
  }

  /** What reading the Form sheet yields. */
  function FormSheet(ws: Sheet): FormSheetResult
  {
    var headers := RowAt(ws, 1);
    if headers == [] || "name" !in LoweredHeaders(headers) then
      FormSheetResult(FormData(None, None), [FormNameColumnMissing])
    else
      var hm := HeaderIndex(headers, LowerOnly);
      var values := RowAt(ws, 2);
      if values == [] then
        FormSheetResult(FormData(None, None), [FormNoData])
      else
        var name := NonBlankCell(values, hm, "name");
        var description := NonBlankCell(values, hm, "description");
        FormSheetResult(FormData(name, description), if name.Some? then [] else [FormNameRequired])
  }

  /** The Form sheet reports at most one error, and none exactly when it
      yields a name; the name and description are non-blank and stripped. */
  lemma FormSheetSound(ws: Sheet)
    ensures var r := FormSheet(ws);
            (r.errors == [] <==> r.data.name.Some?) && |r.errors| <= 1 &&
            (r.data.name.Some? ==> r.data.name.value != "" && IsTrimmed(r.data.name.value)) &&
            (r.data.description.Some? ==> r.data.description.value != "" && IsTrimmed(r.data.description.value))
  {
  }

  /** Reads the Form sheet: header row 1, values row 2. */
  method ParseFormSheet(ws: Sheet) returns (data: FormData, errors: seq<Issue>)
    ensures FormSheetResult(data, errors) == FormSheet(ws)
  {
    errors := [];
    data := FormData(None, None);
    var headers := RowAt(ws, 1);
    if headers == [] || "name" !in LoweredHeaders(headers) {
      errors := errors + [FormNameColumnMissing];
      return;
    }
    var headerMap := HeaderIndex(headers, LowerOnly);
    var values := RowAt(ws, 2);
    if values == [] {
      errors := errors + [FormNoData];
      return;
    }
    if "name" in headerMap && headerMap["name"] < |values| {
      var name := values[headerMap["name"]];
      if Truthy(name) && Strip(name.value) != "" {
        data := data.(name := Some(Strip(name.value)));
      } else {
        errors := errors + [FormNameRequired];
      }
    } else {
      errors := errors + [FormNameRequired];
    }
    if "description" in headerMap && headerMap["description"] < |values| {
      var desc := values[headerMap["description"]];
      if Truthy(desc) && Strip(desc.value) != "" {
        data := data.(description := Some(Strip(desc.value)));
      }
    }
  }

  /** The form name is looked up case-insensitively: it is the stripped text
      of row 2 under the last row-1 header whose lower-case form is "name". */
  lemma FormNameColumn(ws: Sheet, c: nat)
    requires Names(RowAt(ws, 1), LowerOnly, c, "name")
    requires forall j :: c < j < |RowAt(ws, 1)| ==> !Names(RowAt(ws, 1), LowerOnly, j, "name")
    requires c < |RowAt(ws, 2)|
    requires Truthy(RowAt(ws, 2)[c]) && Strip(RowAt(ws, 2)[c].value) != ""
    ensures FormSheet(ws).data.name == Some(Strip(RowAt(ws, 2)[c].value))
    ensures FormSheet(ws).errors == []
  {
    var headers := RowAt(ws, 1);
    assert LoweredHeaders(headers)[c] == "name";
    HeaderIndexSpec(headers, LowerOnly, "name");
    var hm := HeaderIndex(headers, LowerOnly);
    assert hm["name"] == c by {
      var d := hm["name"];
      assert Names(headers, LowerOnly, d, "name");
      assert !(c < d) && !(d < c);
    }
  }

  // ===========================================================================
  // Options
  // ===========================================================================

  /** An option as the importer builds it: label and value are the same
      non-empty, stripped, comma-free token. */
  predicate WellFormedOption(o: FieldOption) {
    o.labelText == o.value && o.value != "" && IsTrimmed(o.value) && ',' !in o.value
  }

  /** The options the non-blank parts yield, in order. */
  function OptionsFromParts(parts: seq<string>): seq<FieldOption>
  {
    if parts == [] then []
    else
      var rest := OptionsFromParts(parts[..|parts| - 1]);
      var part := Strip(parts[|parts| - 1]);
      if part != "" then rest + [FieldOption(part, part)] else rest
  }

  /** What `_parse_options` computes: split on commas, strip each token,
      drop the empty ones, label == value. */
  function OptionsOf(s: string): seq<FieldOption>
  {
    OptionsFromParts(Split(s, ','))
  }

  lemma {:induction false} OptionsFromPartsWellFormed(parts: seq<string>)
    requires forall i :: 0 <= i < |parts| ==> ',' !in parts[i]
    ensures forall j :: 0 <= j < |OptionsFromParts(parts)| ==> WellFormedOption(OptionsFromParts(parts)[j])
  {
    if parts != [] {
      OptionsFromPartsWellFormed(parts[..|parts| - 1]);
      StripKeepsOut(parts[|parts| - 1], ',');
    }
  }

  /** `_parse_options`: a loop over the comma-separated parts. */
  method ParseOptions(optionsStr: string) returns (options: seq<FieldOption>)
    ensures options == OptionsOf(optionsStr)
    ensures forall j :: 0 <= j < |options| ==> WellFormedOption(options[j])
  {
    options := [];
    var parts := Split(optionsStr, ',');
    for k := 0 to |parts|
      invariant options == OptionsFromParts(parts[..k])
    {
      var part := Strip(parts[k]);
      if part != "" {
        options := options + [FieldOption(part, part)];
      }
      assert parts[..k + 1][..k] == parts[..k];
    }
    assert parts[..|parts|] == parts;
    SplitSpec(optionsStr, ',');
    OptionsFromPartsWellFormed(parts);
  }

  /** The comma-separated pieces of `", ".join(values)`: every value after the
      first is preceded by a space. */
  function OptionTokens(options: seq<FieldOption>): (parts: seq<string>)
    ensures |parts| == |options|
  {
    seq(|options|, i requires 0 <= i < |options| => (if i == 0 then "" else " ") + options[i].value)
  }

  /** `", ".join(values)` of a list of options: how a cell lists them. */
  function JoinOptions(options: seq<FieldOption>): string
  {
    Join(OptionTokens(options), ',')
  }

  lemma {:induction false} OptionsFromTokens(options: seq<FieldOption>)
    requires forall j :: 0 <= j < |options| ==> WellFormedOption(options[j])
    ensures OptionsFromParts(OptionTokens(options)) == options
  {
    if options != [] {
      var n := |options| - 1;
      var init := options[..n];
      assert OptionTokens(options)[..n] == OptionTokens(init);
      OptionsFromTokens(init);
      var v := options[n].value;
      if n > 0 {
        StripAfterSpace(' ', v);
      }
      assert Strip(OptionTokens(options)[n]) == v;
      assert init + [FieldOption(v, v)] == options;
    }
  }

  /** Parsing the cell `", ".join(values)` gives back the options: for
      well-formed options `_parse_options` inverts the join. */
  lemma OptionsRoundTrip(options: seq<FieldOption>)
    requires forall j :: 0 <= j < |options| ==> WellFormedOption(options[j])
    ensures OptionsOf(JoinOptions(options)) == options
  {
    var parts := OptionTokens(options);
    if options == [] {
      assert Split("", ',') == [""];
    } else {
      assert forall i :: 0 <= i < |parts| ==> ',' !in parts[i] by {
        forall i | 0 <= i < |parts| ensures ',' !in parts[i] {
          assert WellFormedOption(options[i]);
        }
      }
      SplitJoin(parts, ',');
      OptionsFromTokens(options);
    }
  }

  // ===========================================================================
  // One row of the Fields sheet
  // ===========================================================================

  /** `get_value(column)`: the stripped text under `column`, or None when the
      column is absent, past the end of the row, or the cell is empty. */
  function GetValue(values: Row, hm: map<string, nat>, column: string): Option<string>
  {
    if column in hm && hm[column] < |values| && values[hm[column]].Some?
    then Some(Strip(values[hm[column]].value))
    else None
  }

  /** `s.replace("_", "")`. */
  function RemoveUnderscores(s: string): string
  {
    if s == [] then []
    else if s[0] == '_' then RemoveUnderscores(s[1..])
    else [s[0]] + RemoveUnderscores(s[1..])
  }

  /** `field_id.replace("_", "").isalnum()` (ASCII letters and digits). */
  predicate ValidIdChars(id: string) {
    var r := RemoveUnderscores(id);
    r != [] && forall i :: 0 <= i < |r| ==> IsAlnum(r[i])
  }

  predicate AllAlnum(s: string) {
    forall i :: 0 <= i < |s| ==> IsAlnum(s[i])
  }

  predicate IdAlphabet(s: string) {
    forall i :: 0 <= i < |s| ==> IsAlnum(s[i]) || s[i] == '_'
  }

  lemma {:induction false} RemoveUnderscoresSpec(s: string)
    ensures RemoveUnderscores(s) == [] <==> forall i :: 0 <= i < |s| ==> s[i] == '_'
    ensures AllAlnum(RemoveUnderscores(s)) <==> IdAlphabet(s)
  {
    if s != [] {
      var tl := s[1..];
      RemoveUnderscoresSpec(tl);
      assert forall i :: 1 <= i < |s| ==> s[i] == tl[i - 1];
      var r := RemoveUnderscores(s);
      var r' := RemoveUnderscores(tl);
      if s[0] != '_' {
        assert r == [s[0]] + r';
        assert r[0] == s[0];
        if AllAlnum(r) {
          forall i | 0 <= i < |r'| ensures IsAlnum(r'[i]) { assert r'[i] == r[i + 1]; }
        }
        if IsAlnum(s[0]) && AllAlnum(r') {
          forall i | 0 <= i < |r| ensures IsAlnum(r[i]) { if i > 0 { assert r[i] == r'[i - 1]; } }
        }
      }
      if IdAlphabet(s) {
        assert IsAlnum(s[0]) || s[0] == '_';
        forall i | 0 <= i < |tl| ensures IsAlnum(tl[i]) || tl[i] == '_' { assert tl[i] == s[i + 1]; }
      }
      if (IsAlnum(s[0]) || s[0] == '_') && IdAlphabet(tl) {
        forall i | 0 <= i < |s| ensures IsAlnum(s[i]) || s[i] == '_' { if i > 0 { assert s[i] == tl[i - 1]; } }
      }
    }
  }

  /** An id passes the character check exactly when every character is a
      letter, digit or underscore and not all of them are underscores. */
  lemma ValidIdCharsIff(id: string)
    ensures ValidIdChars(id) <==> (exists i :: 0 <= i < |id| && id[i] != '_') && IdAlphabet(id)
  {
    RemoveUnderscoresSpec(id);
  }

  /** The flag spellings `required_str.upper()` is compared with. */
  const TrueFlags: seq<string> := ["TRUE", "YES", "1", "DA"]

  predicate IsTrueFlag(v: Option<string>) {
    Truthy(v) && Upper(v.value) in TrueFlags
  }

  datatype OptionsCheck = OptionsCheck(options: seq<FieldOption>, errors: seq<Issue>)

  /** The options step: select/radio need a non-empty option list; other
      types parse an options cell when one is given. */
  function CheckOptions(t: FieldType, optionsStr: Option<string>, rowNum: nat, id: string): OptionsCheck
  {
    if RequiresOptions(t) then
      if !Truthy(optionsStr) then OptionsCheck([], [AtRow(rowNum, OptionsRequired(id, TypeName(t)))])
      else
        var options := OptionsOf(optionsStr.value);
        if options == [] then OptionsCheck([], [AtRow(rowNum, OptionsFormat(id))])
        else OptionsCheck(options, [])
    else if Truthy(optionsStr) then OptionsCheck(OptionsOf(optionsStr.value), [])
    else OptionsCheck([], [])
  }

  datatype RangeCheck = RangeCheck(validations: seq<Validation>, errors: seq<Issue>)

  /** The min/max step, for number fields only. */
  function CheckRange(t: FieldType, minVal: Option<string>, maxVal: Option<string>, rowNum: nat, id: string,
                      num: NumberParser): RangeCheck
  {
    if t != Number then RangeCheck([], [])
    else if Truthy(minVal) && Truthy(maxVal) then
      var lo := num(minVal.value);
      var hi := num(maxVal.value);
      if lo.None? || hi.None? then RangeCheck([], [AtRow(rowNum, RangeNotNumeric(id))])
      else if lo.value > hi.value then RangeCheck([], [AtRow(rowNum, MinAboveMax(id, minVal.value, maxVal.value))])
      else RangeCheck([MinValue(lo.value), MaxValue(hi.value)], [])
    else
      RangeCheck([],
        (if !Truthy(minVal) then [AtRow(rowNum, MinRequired(id))] else []) +
        (if !Truthy(maxVal) then [AtRow(rowNum, MaxRequired(id))] else []))
  }

  datatype RowResult = RowResult(field: Option<FormField>, errors: seq<Issue>)

  /** The stripped text `get_value` returns for each column of one row. */
  datatype RowCells = RowCells(
    id: Option<string>, labelText: Option<string>, typeText: Option<string>, placeholder: Option<string>,
    required: Option<string>, options: Option<string>, min: Option<string>, max: Option<string>)

  predicate TrimmedCell(v: Option<string>) {
    v.Some? ==> IsTrimmed(v.value)
  }

  /** Each text of a row is free of surrounding whitespace. */
  predicate CellsTrimmed(c: RowCells) {
    TrimmedCell(c.id) && TrimmedCell(c.labelText) && TrimmedCell(c.typeText) && TrimmedCell(c.placeholder) &&
    TrimmedCell(c.required) && TrimmedCell(c.options) && TrimmedCell(c.min) && TrimmedCell(c.max)
  }

  function ReadCells(values: Row, hm: map<string, nat>): RowCells
  {
    RowCells(GetValue(values, hm, "id"), GetValue(values, hm, "label"), GetValue(values, hm, "type"),
             GetValue(values, hm, "placeholder"), GetValue(values, hm, "required"), GetValue(values, hm, "options"),
             GetValue(values, hm, "min"), GetValue(values, hm, "max"))
  }

  /** Every text `get_value` returns is stripped. */
  lemma ReadCellsTrimmed(values: Row, hm: map<string, nat>)
    ensures CellsTrimmed(ReadCells(values, hm))
  {
  }

  /** The decision `_parse_field_row` takes on a row's cell texts: the id,
      label and type checks stop at the first failure (an id with bad
      characters is still checked further); the options and min/max checks
      all report. */
  function FieldFromCells(c: RowCells, rowNum: nat, seen: set<string>, num: NumberParser): RowResult
  {
    if !Truthy(c.id) then RowResult(None, [AtRow(rowNum, IdRequired)])
    else
      var id := c.id.value;
      var charErrors := IdCharErrors(rowNum, id);
      if id in seen then RowResult(None, charErrors + [AtRow(rowNum, DuplicateId(id))])
      else if !Truthy(c.labelText) then RowResult(None, charErrors + [AtRow(rowNum, LabelRequired)])
      else if !Truthy(c.typeText) then RowResult(None, charErrors + [AtRow(rowNum, TypeRequired)])
      else
        var typeName := Lower(c.typeText.value);
        match LookupType(typeName)
        case None => RowResult(None, charErrors + [AtRow(rowNum, InvalidType(typeName))])
        case Some(t) => TypedRow(c, rowNum, t, charErrors, num)
  }

  /** The character check on an id reports, but does not stop the row. */
  function IdCharErrors(rowNum: nat, id: string): seq<Issue>
  {
    if ValidIdChars(id) then [] else [AtRow(rowNum, IdCharacters(id))]
  }

  /** Once id, label and type have passed, the row's outcome is `TypedRow`. */
  lemma FieldFromCellsTyped(c: RowCells, rowNum: nat, seen: set<string>, num: NumberParser, t: FieldType)
    requires Truthy(c.id) && c.id.value !in seen && Truthy(c.labelText) && Truthy(c.typeText)
    requires LookupType(Lower(c.typeText.value)) == Some(t)
    ensures FieldFromCells(c, rowNum, seen, num) == TypedRow(c, rowNum, t, IdCharErrors(rowNum, c.id.value), num)
  {
  }

  /** The rest of the row once id, label and type are known: the options and
      min/max checks, then the field when no check failed. */
  function TypedRow(c: RowCells, rowNum: nat, t: FieldType, charErrors: seq<Issue>, num: NumberParser): RowResult
    requires c.id.Some? && c.labelText.Some?
  {
    var id := c.id.value;
    var oc := CheckOptions(t, c.options, rowNum, id);
    var rc := CheckRange(t, c.min, c.max, rowNum, id, num);
    var validations := rc.validations + (if IsTrueFlag(c.required) then [Required] else []);
    var errors := charErrors + oc.errors + rc.errors;
    if errors != [] then RowResult(None, errors)
    else RowResult(Some(FormField(id, t, c.labelText.value, c.placeholder, oc.options, validations, [])), [])
  }

  /** What `_parse_field_row` returns for one row. */
  function FieldRow(values: Row, hm: map<string, nat>, rowNum: nat, seen: set<string>, num: NumberParser): RowResult
  {
    FieldFromCells(ReadCells(values, hm), rowNum, seen, num)
  }

  /** The validation list of an accepted field: min then max for a number
      field (min <= max), then `required` when the flag was set, and nothing
      else. */
  predicate ValidationsShape(f: FormField) {
    var v := f.validations;
    if f.fieldType == Number then
      |v| >= 2 && v[0].MinValue? && v[1].MaxValue? && v[0].bound <= v[1].bound &&
      (v[2..] == [] || v[2..] == [Required])
    else v == [] || v == [Required]
  }

  /** Every field the importer accepts satisfies this. */
  predicate AcceptedField(f: FormField) {
    && f.id != "" && IsTrimmed(f.id) && ValidIdChars(f.id)
    && f.labelText != "" && IsTrimmed(f.labelText)
    && (f.placeholder.Some? ==> IsTrimmed(f.placeholder.value))
    && (RequiresOptions(f.fieldType) ==> |f.options| > 0)
    && (forall j :: 0 <= j < |f.options| ==> WellFormedOption(f.options[j]))
    && ValidationsShape(f)
    && f.rules == []
  }

  lemma CheckOptionsSound(t: FieldType, optionsStr: Option<string>, rowNum: nat, id: string)
    ensures var oc := CheckOptions(t, optionsStr, rowNum, id);
            (oc.errors == [] && RequiresOptions(t) ==> |oc.options| > 0) &&
            (forall j :: 0 <= j < |oc.options| ==> WellFormedOption(oc.options[j]))
  {
    if Truthy(optionsStr) {
      SplitSpec(optionsStr.value, ',');
      OptionsFromPartsWellFormed(Split(optionsStr.value, ','));
    }
  }

  /** A row yields a field exactly when it yields no error, and every field
      it yields is well formed and carries the row's id, which was not seen
      before. */
  lemma FieldFromCellsSound(c: RowCells, rowNum: nat, seen: set<string>, num: NumberParser)
    requires CellsTrimmed(c)
    ensures var r := FieldFromCells(c, rowNum, seen, num);
            (r.field.Some? <==> r.errors == []) &&
            (r.field.Some? ==> AcceptedField(r.field.value) && r.field.value.id !in seen && Some(r.field.value.id) == c.id)
  {
    if Truthy(c.id) && c.id.value !in seen && Truthy(c.labelText) && Truthy(c.typeText) {
      var lookup := LookupType(Lower(c.typeText.value));
      if lookup.Some? {
        CheckOptionsSound(lookup.value, c.options, rowNum, c.id.value);
      }
    }
  }

  lemma FieldRowSound(values: Row, hm: map<string, nat>, rowNum: nat, seen: set<string>, num: NumberParser)
    ensures var r := FieldRow(values, hm, rowNum, seen, num);
            (r.field.Some? <==> r.errors == []) &&
            (r.field.Some? ==> AcceptedField(r.field.value) && r.field.value.id !in seen &&
                               Some(r.field.value.id) == GetValue(values, hm, "id"))
  {
    ReadCellsTrimmed(values, hm);
    FieldFromCellsSound(ReadCells(values, hm), rowNum, seen, num);
  }

  /** The validations of an accepted field, spelled out: for a number field
      the parsed min and max in that order, then `required` exactly when the
      flag, upper-cased, is TRUE, YES, 1 or DA. */
  lemma FieldValidations(c: RowCells, rowNum: nat, seen: set<string>, num: NumberParser)
    requires FieldFromCells(c, rowNum, seen, num).field.Some?
    ensures var f := FieldFromCells(c, rowNum, seen, num).field.value;
            var flag := if IsTrueFlag(c.required) then [Required] else [];
            if f.fieldType == Number then
              Truthy(c.min) && Truthy(c.max) &&
              var lo := num(c.min.value);
              var hi := num(c.max.value);
              lo.Some? && hi.Some? && lo.value <= hi.value &&
              f.validations == [MinValue(lo.value), MaxValue(hi.value)] + flag
            else f.validations == flag
  {
  }

  // ---------------------------------------------------------------------------
  // Writing a field back as a row
  // ---------------------------------------------------------------------------

  /** A number cell parser and a renderer it inverts: `render` writes a
      non-empty text that `num` reads back as the same number. */
  ghost predicate Inverts(num: NumberParser, render: real -> string) {
    forall x :: num(render(x)) == Some(x) && render(x) != ""
  }

  /** The cells of a row that describes field `f`: its id, label, type name
      and placeholder, "TRUE" under `required` when it has the required
      validation, its options joined with ", ", and for a number field its
      bounds written by `render`. */
  function FieldCells(f: FormField, render: real -> string): RowCells
  {
    var v := f.validations;
    var bounds := f.fieldType == Number && |v| >= 2 && v[0].MinValue? && v[1].MaxValue?;
    RowCells(Some(f.id), Some(f.labelText), Some(TypeName(f.fieldType)), f.placeholder,
             if Required in v then Some("TRUE") else None,
             if f.options == [] then None else Some(JoinOptions(f.options)),
             if bounds then Some(render(v[0].bound)) else None,
             if bounds then Some(render(v[1].bound)) else None)
  }

  lemma TypeNameLower(t: FieldType)
    ensures Lower(TypeName(t)) == TypeName(t)
  {
    LowerFixed(TypeName(t));
  }

  lemma FieldCellsOptions(f: FormField, rowNum: nat, render: real -> string)
    requires AcceptedField(f)
    ensures CheckOptions(f.fieldType, FieldCells(f, render).options, rowNum, f.id) == OptionsCheck(f.options, [])
  {
    if f.options != [] {
      OptionsRoundTrip(f.options);
      assert JoinOptions(f.options) != "" by {
        assert Split("", ',') == [""];
      }
    }
  }

  lemma FieldCellsFlag(f: FormField, render: real -> string)
    ensures IsTrueFlag(FieldCells(f, render).required) <==> Required in f.validations
  {
    UpperFixed("TRUE");
  }

  lemma FieldCellsRange(f: FormField, rowNum: nat, num: NumberParser, render: real -> string)
    requires AcceptedField(f) && Inverts(num, render)
    ensures var c := FieldCells(f, render);
            CheckRange(f.fieldType, c.min, c.max, rowNum, f.id, num) ==
              RangeCheck(if f.fieldType == Number then f.validations[..2] else [], [])
  {
    var v := f.validations;
    if f.fieldType == Number {
      var lo, hi := v[0].bound, v[1].bound;
      assert num(render(lo)) == Some(lo) && render(lo) != "";
      assert num(render(hi)) == Some(hi) && render(hi) != "";
      assert v[..2] == [MinValue(lo), MaxValue(hi)];
    }
  }

  lemma ValidationsSplit(f: FormField)
    requires ValidationsShape(f)
    ensures f.validations ==
              (if f.fieldType == Number then f.validations[..2] else []) +
              (if Required in f.validations then [Required] else [])
  {
    var v := f.validations;
    if f.fieldType == Number {
      assert v == v[..2] + v[2..];
      assert Required in v <==> Required in v[2..];
    }
  }

  /** Writing an accepted field back as a row and reading that row gives the
      field again, with no error, whatever the row number, as long as its id
      was not seen before. */
  lemma FieldCellsRoundTrip(f: FormField, rowNum: nat, seen: set<string>, num: NumberParser, render: real -> string)
    requires AcceptedField(f) && f.id !in seen && Inverts(num, render)
    ensures FieldFromCells(FieldCells(f, render), rowNum, seen, num) == RowResult(Some(f), [])
  {
    var c := FieldCells(f, render);
    TypeNameLower(f.fieldType);
    LookupTypeName(f.fieldType);
    FieldCellsOptions(f, rowNum, render);
    FieldCellsRange(f, rowNum, num, render);
    FieldCellsFlag(f, render);
    ValidationsSplit(f);
    FieldFromCellsTyped(c, rowNum, seen, num, f.fieldType);
  }

  /** The options block of `_parse_field_row`: appends its errors to `errors0`. */
  method OptionsColumn(errors0: seq<Issue>, fieldType: FieldType, optionsStr: Option<string>, rowNum: nat, id: string)
    returns (errors: seq<Issue>, options: seq<FieldOption>)
    ensures var oc := CheckOptions(fieldType, optionsStr, rowNum, id);
            errors == errors0 + oc.errors && options == oc.options
  {
    errors := errors0;
    options := [];
    if RequiresOptions(fieldType) {
      if !Truthy(optionsStr) {
        errors := errors + [AtRow(rowNum, OptionsRequired(id, TypeName(fieldType)))];
      } else {
        options := ParseOptions(optionsStr.value);
        if options == [] {
          errors := errors + [AtRow(rowNum, OptionsFormat(id))];
        }
      }
    } else if Truthy(optionsStr) {
      options := ParseOptions(optionsStr.value);
    }
  }

  /** The min/max block of `_parse_field_row`: appends its errors to `errors0`. */
  method MinMaxColumns(errors0: seq<Issue>, fieldType: FieldType, minVal: Option<string>, maxVal: Option<string>,
                       rowNum: nat, id: string, num: NumberParser)
    returns (errors: seq<Issue>, validations: seq<Validation>)
    ensures var rc := CheckRange(fieldType, minVal, maxVal, rowNum, id, num);
            errors == errors0 + rc.errors && validations == rc.validations
  {
    errors := errors0;
    validations := [];
    if fieldType == Number {
      if !Truthy(minVal) {
        errors := errors + [AtRow(rowNum, MinRequired(id))];
      }
      if !Truthy(maxVal) {
        errors := errors + [AtRow(rowNum, MaxRequired(id))];
      }
      if Truthy(minVal) && Truthy(maxVal) {
        var minNum := num(minVal.value);
        var maxNum := num(maxVal.value);
        if minNum.Some? && maxNum.Some? {
          if minNum.value > maxNum.value {
            errors := errors + [AtRow(rowNum, MinAboveMax(id, minVal.value, maxVal.value))];
          } else {
            validations := validations + [MinValue(minNum.value)];
            validations := validations + [MaxValue(maxNum.value)];
          }
        } else {
          errors := errors + [AtRow(rowNum, RangeNotNumeric(id))];
        }
      }
    }
  }

  /** `_parse_field_row`, step by step: errors and validations are built by
      appending, as the importer does. `cells` holds what the nested
      `get_value` returns for each column of the row (`ReadCells`). */
  method ParseFieldRow(cells: RowCells, rowNum: nat, seenIds: set<string>, num: NumberParser)
    returns (field: Option<FormField>, errors: seq<Issue>)
    ensures RowResult(field, errors) == FieldFromCells(cells, rowNum, seenIds, num)
  {
    errors := [];
    field := None;

    var fieldId := cells.id;
    if !Truthy(fieldId) {
      errors := errors + [AtRow(rowNum, IdRequired)];
      return;
    }
    var id := fieldId.value;
    if !ValidIdChars(id) {
      errors := errors + [AtRow(rowNum, IdCharacters(id))];
    }
    if id in seenIds {
      errors := errors + [AtRow(rowNum, DuplicateId(id))];
      return;
    }

    var labelStr := cells.labelText;
    if !Truthy(labelStr) {
      errors := errors + [AtRow(rowNum, LabelRequired)];
      return;
    }

    var typeStr := cells.typeText;
    if !Truthy(typeStr) {
      errors := errors + [AtRow(rowNum, TypeRequired)];
      return;
    }
    var typeName := Lower(typeStr.value);
    var lookup := LookupType(typeName);
    if lookup.None? {
      errors := errors + [AtRow(rowNum, InvalidType(typeName))];
      return;
    }
    var fieldType := lookup.value;
    LookupTypeSpec(typeName);
    ghost var charErrors := errors;

    var placeholder := cells.placeholder;

    var requiredStr := cells.required;
    var required := false;
    if Truthy(requiredStr) {
      required := Upper(requiredStr.value) in TrueFlags;
    }

    var options: seq<FieldOption>;
    errors, options := OptionsColumn(errors, fieldType, cells.options, rowNum, id);
    var validations: seq<Validation>;
    errors, validations := MinMaxColumns(errors, fieldType, cells.min, cells.max, rowNum, id, num);

    if required {
      validations := validations + [Required];
    }
    FieldFromCellsTyped(cells, rowNum, seenIds, num, fieldType);
    assert charErrors == IdCharErrors(rowNum, id);
    assert validations == CheckRange(fieldType, cells.min, cells.max, rowNum, id, num).validations +
                          (if IsTrueFlag(cells.required) then [Required] else []);

    if errors != [] {
      return;
    }
    field := Some(FormField(id, fieldType, labelStr.value, placeholder, options, validations, []));
  }

  // ===========================================================================
  // The Fields sheet
  // ===========================================================================

  datatype SheetResult = SheetResult(fields: seq<FormField>, errors: seq<Issue>)

  /** A row parser: row values, row number and the ids seen so far, to the
      row's outcome. */
  type RowParser = (Row, nat, set<string>) -> RowResult

  /** `_parse_field_row` with the sheet's header map and number parser fixed. */
  function FieldRowParser(hm: map<string, nat>, num: NumberParser): RowParser
  {
    (values: Row, rowNum: nat, seen: set<string>) => FieldRow(values, hm, rowNum, seen, num)
  }

  /** A row outcome as `_parse_field_row` guarantees it: a field exactly when
      there is no error, and then a field that passes `ok` and has a fresh id. */
  predicate SoundOutcome(r: RowResult, seen: set<string>, ok: FormField -> bool) {
    (r.field.Some? <==> r.errors == []) &&
    (r.field.Some? ==> ok(r.field.value) && r.field.value.id !in seen)
  }

  ghost predicate SoundParser(parse: RowParser, ok: FormField -> bool) {
    forall values, rowNum, seen :: SoundOutcome(parse(values, rowNum, seen), seen, ok)
  }

  lemma FieldRowParserSound(hm: map<string, nat>, num: NumberParser)
    ensures SoundParser(FieldRowParser(hm, num), AcceptedField)
  {
    forall values, rowNum, seen
      ensures SoundOutcome(FieldRowParser(hm, num)(values, rowNum, seen), seen, AcceptedField)
    {
      FieldRowSound(values, hm, rowNum, seen, num);
    }
  }

  /** Scanning from row `rowNum` until the first blank row: each row's
      errors are collected, each accepted field is kept, and only accepted
      ids join `seen`. */
  function ScanRows(ws: Sheet, rowNum: nat, seen: set<string>, parse: RowParser): SheetResult
    decreases |ws| + 1 - rowNum
  {
    var values := RowAt(ws, rowNum);
    if IsBlankRow(values) then SheetResult([], [])
    else
      BlankPastEnd(ws, rowNum);
      var r := parse(values, rowNum, seen);
      if r.errors != [] then
        var rest := ScanRows(ws, rowNum + 1, seen, parse);
        SheetResult(rest.fields, r.errors + rest.errors)
      else if r.field.Some? then
        var rest := ScanRows(ws, rowNum + 1, seen + {r.field.value.id}, parse);
        SheetResult([r.field.value] + rest.fields, rest.errors)
      else ScanRows(ws, rowNum + 1, seen, parse)
  }

  /** The scan's loop invariant survives one more non-blank row: the row's
      errors are appended, or its field is, and then its id joins `seen`. */
  lemma ScanAdvance(ws: Sheet, rowNum: nat, seen: set<string>, parse: RowParser,
                    all: SheetResult, fields: seq<FormField>, errors: seq<Issue>)
    requires !IsBlankRow(RowAt(ws, rowNum))
    requires all.fields == fields + ScanRows(ws, rowNum, seen, parse).fields
    requires all.errors == errors + ScanRows(ws, rowNum, seen, parse).errors
    ensures var r := parse(RowAt(ws, rowNum), rowNum, seen);
            if r.errors != [] then
              var rest := ScanRows(ws, rowNum + 1, seen, parse);
              all.fields == fields + rest.fields && all.errors == (errors + r.errors) + rest.errors
            else if r.field.Some? then
              var rest := ScanRows(ws, rowNum + 1, seen + {r.field.value.id}, parse);
              all.fields == (fields + [r.field.value]) + rest.fields && all.errors == errors + rest.errors
            else
              var rest := ScanRows(ws, rowNum + 1, seen, parse);
              all.fields == fields + rest.fields && all.errors == errors + rest.errors
  {
    var r := parse(RowAt(ws, rowNum), rowNum, seen);
    if r.errors != [] {
      var rest := ScanRows(ws, rowNum + 1, seen, parse);
      assert errors + (r.errors + rest.errors) == (errors + r.errors) + rest.errors;
    } else if r.field.Some? {
      var rest := ScanRows(ws, rowNum + 1, seen + {r.field.value.id}, parse);
      assert fields + ([r.field.value] + rest.fields) == (fields + [r.field.value]) + rest.fields;
    }
  }

  /** The columns the Fields header row must have. */
  const RequiredColumns: seq<string> := ["id", "label", "type"]

  /** One error per required column absent from the header map, in order. */
  function MissingColumns(cols: seq<string>, hm: map<string, nat>): seq<Issue>
  {
    if cols == [] then []
    else
      MissingColumns(cols[..|cols| - 1], hm) +
      (if cols[|cols| - 1] !in hm then [MissingColumn(cols[|cols| - 1])] else [])
  }

  /** No error exactly when every column is present, and each error names
      a missing column. */
  lemma {:induction false} MissingColumnsSpec(cols: seq<string>, hm: map<string, nat>)
    ensures MissingColumns(cols, hm) == [] <==> forall i :: 0 <= i < |cols| ==> cols[i] in hm
    ensures forall e :: e in MissingColumns(cols, hm) ==> e.MissingColumn? && e.column in cols && e.column !in hm
  {
    if cols != [] {
      var init := cols[..|cols| - 1];
      MissingColumnsSpec(init, hm);
      assert forall i :: 0 <= i < |init| ==> init[i] == cols[i];
      assert forall c :: c in init ==> c in cols;
    }
  }

  /** What reading the Fields sheet yields. */
  function FieldsSheet(ws: Sheet, num: NumberParser): SheetResult
  {
    var headers := RowAt(ws, 1);
    if headers == [] then SheetResult([], [FieldsNoHeaders])
    else
      var hm := HeaderIndex(headers, LowerStripped);
      var missing := MissingColumns(RequiredColumns, hm);
      if missing != [] then SheetResult([], missing)
      else
        var scan := ScanRows(ws, 2, {}, FieldRowParser(hm, num));
        if scan.fields == [] && scan.errors == [] then SheetResult([], [NoFields])
        else scan
  }

  /** With a sound row parser, every field the scan keeps passes `ok`, their
      ids are pairwise distinct, and none of them was in `seen` when the scan
      started. */
  lemma {:induction false} ScanRowsSound(ws: Sheet, rowNum: nat, seen: set<string>, parse: RowParser,
                                         ok: FormField -> bool)
    requires SoundParser(parse, ok)
    ensures var s := ScanRows(ws, rowNum, seen, parse);
            DistinctIds(s.fields) &&
            (forall i :: 0 <= i < |s.fields| ==> ok(s.fields[i]) && s.fields[i].id !in seen)
    decreases |ws| + 1 - rowNum
  {
    var values := RowAt(ws, rowNum);
    if !IsBlankRow(values) {
      BlankPastEnd(ws, rowNum);
      var r := parse(values, rowNum, seen);
      assert SoundOutcome(r, seen, ok);
      if r.errors != [] {
        ScanRowsSound(ws, rowNum + 1, seen, parse, ok);
      } else {
        var f := r.field.value;
        var rest := ScanRows(ws, rowNum + 1, seen + {f.id}, parse);
        ScanRowsSound(ws, rowNum + 1, seen + {f.id}, parse, ok);
        var all := [f] + rest.fields;
        assert forall i :: 1 <= i < |all| ==> all[i] == rest.fields[i - 1];
      }
    }
  }

  /** The Fields sheet's fields are well formed with distinct ids; it yields
      no field only alongside an error; a missing required column yields
      exactly the missing-column errors and no field. */
  lemma FieldsSheetSound(ws: Sheet, num: NumberParser)
    ensures var r := FieldsSheet(ws, num);
            DistinctIds(r.fields) &&
            (forall i :: 0 <= i < |r.fields| ==> AcceptedField(r.fields[i])) &&
            (r.fields == [] ==> r.errors != [])
    ensures RowAt(ws, 1) != [] && (exists i :: 0 <= i < |RequiredColumns| && RequiredColumns[i] !in HeaderIndex(RowAt(ws, 1), LowerStripped)) ==>
              FieldsSheet(ws, num) == SheetResult([], MissingColumns(RequiredColumns, HeaderIndex(RowAt(ws, 1), LowerStripped)))
  {
    var headers := RowAt(ws, 1);
    if headers != [] {
      var hm := HeaderIndex(headers, LowerStripped);
      MissingColumnsSpec(RequiredColumns, hm);
      FieldRowParserSound(hm, num);
      ScanRowsSound(ws, 2, {}, FieldRowParser(hm, num), AcceptedField);
    }
  }

  /** Scanning stops at the first blank row: two sheets that agree from
      `rowNum` up to a blank row `b` scan to the same result, whatever
      follows `b`. */
  lemma {:induction false} RowsAfterBlankIgnored(ws1: Sheet, ws2: Sheet, rowNum: nat, b: nat, seen: set<string>,
                                                parse: RowParser)
    requires rowNum <= b
    requires forall n :: rowNum <= n <= b ==> RowAt(ws1, n) == RowAt(ws2, n)
    requires IsBlankRow(RowAt(ws1, b))
    ensures ScanRows(ws1, rowNum, seen, parse) == ScanRows(ws2, rowNum, seen, parse)
    decreases b - rowNum
  {
    var values := RowAt(ws1, rowNum);
    assert values == RowAt(ws2, rowNum);
    if !IsBlankRow(values) {
      BlankPastEnd(ws1, rowNum);
      BlankPastEnd(ws2, rowNum);
      var r := parse(values, rowNum, seen);
      if r.errors == [] && r.field.Some? {
        RowsAfterBlankIgnored(ws1, ws2, rowNum + 1, b, seen + {r.field.value.id}, parse);
      } else {
        RowsAfterBlankIgnored(ws1, ws2, rowNum + 1, b, seen, parse);
      }
    }
  }

  /** A Fields sheet whose header row has id, label and type but no data rows
      yields exactly the error "At least one field is required". */
  lemma HeaderOnlySheet(headers: Row, num: NumberParser)
    requires headers != []
    requires forall i :: 0 <= i < |RequiredColumns| ==> RequiredColumns[i] in HeaderIndex(headers, LowerStripped)
    ensures FieldsSheet([headers], num) == SheetResult([], [NoFields])
  {
    MissingColumnsSpec(RequiredColumns, HeaderIndex(headers, LowerStripped));
    assert IsBlankRow(RowAt([headers], 2)) by { assert IsBlankCell(RowAt([headers], 2)[0]); }
  }

  /** The `while True` loop of `_parse_fields_sheet`: parses rows from row 2
      until a blank row, extending `errors`, appending to `fields` and growing
      `seen_ids`. */
  method ScanFieldRows(ws: Sheet, headerMap: map<string, nat>, num: NumberParser)
    returns (fields: seq<FormField>, errors: seq<Issue>)
    ensures SheetResult(fields, errors) == ScanRows(ws, 2, {}, FieldRowParser(headerMap, num))
  {
    fields, errors := [], [];
    var seenIds: set<string> := {};
    var rowNum := 2;
    ghost var parse := FieldRowParser(headerMap, num);
    ghost var all := ScanRows(ws, 2, {}, parse);
    while true
      invariant 2 <= rowNum <= |ws| + 2
      invariant all.fields == fields + ScanRows(ws, rowNum, seenIds, parse).fields
      invariant all.errors == errors + ScanRows(ws, rowNum, seenIds, parse).errors
      decreases |ws| + 2 - rowNum
    {
      var values := RowAt(ws, rowNum);
      if values == [] || IsBlankRow(values) {
        break;
      }
      BlankPastEnd(ws, rowNum);
      var field, fieldErrors := ParseFieldRow(ReadCells(values, headerMap), rowNum, seenIds, num);
      assert parse(values, rowNum, seenIds) == RowResult(field, fieldErrors);
      ScanAdvance(ws, rowNum, seenIds, parse, all, fields, errors);
      if fieldErrors != [] {
        errors := errors + fieldErrors;
      } else if field.Some? {
        fields := fields + [field.value];
        seenIds := seenIds + {field.value.id};
      }
      rowNum := rowNum + 1;
    }
  }

  /** `_parse_fields_sheet`: header errors are collected with a loop over the
      required columns; rows are scanned only when there were none. */
  method ParseFieldsSheet(ws: Sheet, num: NumberParser) returns (fields: seq<FormField>, errors: seq<Issue>)
    ensures SheetResult(fields, errors) == FieldsSheet(ws, num)
  {
    errors := [];
    fields := [];
    var headers := RowAt(ws, 1);
    if headers == [] {
      errors := errors + [FieldsNoHeaders];
      return;
    }
    var headerMap := HeaderIndex(headers, LowerStripped);
    for i := 0 to |RequiredColumns|
      invariant errors == MissingColumns(RequiredColumns[..i], headerMap)
    {
      assert RequiredColumns[..i + 1][..i] == RequiredColumns[..i];
      var col := RequiredColumns[i];
      if col !in headerMap {
        errors := errors + [MissingColumn(col)];
      }
    }
    assert RequiredColumns[..|RequiredColumns|] == RequiredColumns;
    if errors != [] {
      return;
    }

    fields, errors := ScanFieldRows(ws, headerMap, num);
    if fields == [] && errors == [] {
      errors := errors + [NoFields];
    }
  }

  // ===========================================================================
  // The whole workbook
  // ===========================================================================

  /** The importer's answer: (success, form, errors). */
  datatype ImportResult = ImportResult(success: bool, form: Option<FormSchemaCreate>, errors: seq<Issue>)

  /** One error per required sheet that is missing, Form before Fields. */
  function MissingSheets(wb: Workbook): seq<Issue>
  {
    (if "Form" !in wb then [MissingSheet("Form")] else []) +
    (if "Fields" !in wb then [MissingSheet("Fields")] else [])
  }

  /** What `parse_excel` returns. */
  function Import(file: WorkbookFile, num: NumberParser): ImportResult
  {
    match file
    case Unreadable(reason) => ImportResult(false, None, [InvalidFile(reason)])
    case Readable(wb) =>
      if MissingSheets(wb) != [] then ImportResult(false, None, MissingSheets(wb))
      else
        var fs := FormSheet(wb["Form"]);
        var fl := FieldsSheet(wb["Fields"], num);
        var errors := fs.errors + fl.errors;
        if errors != [] then ImportResult(false, None, errors)
        else
          FormSheetSound(wb["Form"]);
          ImportResult(true, Some(FormSchemaCreate(fs.data.name.value, fs.data.description, fl.fields, None)), [])
  }

  /** An import succeeds exactly when it reports no error, and then yields a
      form with a non-blank name, at least one field, pairwise distinct field
      ids, only well-formed fields, and no form-level rules. */
  lemma ImportSound(file: WorkbookFile, num: NumberParser)
    ensures var r := Import(file, num);
            (r.success <==> r.errors == []) && (r.success <==> r.form.Some?) &&
            (r.success ==>
              var f := r.form.value;
              f.name != "" && IsTrimmed(f.name) &&
              (f.description.Some? ==> f.description.value != "" && IsTrimmed(f.description.value)) &&
              |f.fields| >= 1 && DistinctIds(f.fields) &&
              (forall i :: 0 <= i < |f.fields| ==> AcceptedField(f.fields[i])) &&
              f.rules == None)
  {
    if file.Readable? && MissingSheets(file.sheets) == [] {
      FormSheetSound(file.sheets["Form"]);
      FieldsSheetSound(file.sheets["Fields"], num);
    }
  }

  /** The part of `parse_excel` after both sheets were found: parse both,
      accumulating their issues. */
  method ParseSheets(wb: Workbook, num: NumberParser) returns (success: bool, form: Option<FormSchemaCreate>, issues: seq<Issue>)
    requires MissingSheets(wb) == []
    ensures ImportResult(success, form, issues) == Import(Readable(wb), num)
    ensures success <==> issues == []
  {
    var formData, formErrors := ParseFormSheet(wb["Form"]);
    var fields, fieldErrors := ParseFieldsSheet(wb["Fields"], num);
    issues := formErrors + fieldErrors;
    if issues != [] {
      return false, None, issues;
    }
    FormSheetSound(wb["Form"]);
    form := Some(FormSchemaCreate(formData.name.value, formData.description, fields, None));
    success := true;
  }

  /** `parse_excel`: check the sheets, then parse both, accumulating errors;
      the error list is the text of each issue found. */
  method ParseExcel(file: WorkbookFile, num: NumberParser) returns (success: bool, form: Option<FormSchemaCreate>, errors: seq<string>)
    ensures var r := Import(file, num);
            success == r.success && form == r.form && errors == Messages(r.errors)
    ensures success <==> errors == []
    ensures file.Unreadable? ==> errors == ["Invalid Excel file: " + file.reason]
    ensures file.Readable? && ("Form" !in file.sheets || "Fields" !in file.sheets) ==>
              form.None? &&
              errors == (if "Form" !in file.sheets then ["Missing required sheet: 'Form'"] else []) +
                        (if "Fields" !in file.sheets then ["Missing required sheet: 'Fields'"] else [])
  {
    if file.Unreadable? {
      return false, None, Messages([InvalidFile(file.reason)]);
    }
    var wb := file.sheets;
    var issues: seq<Issue> := [];

    if "Form" !in wb {
      issues := issues + [MissingSheet("Form")];
    }
    if "Fields" !in wb {
      issues := issues + [MissingSheet("Fields")];
    }
    if issues != [] {
      errors := Messages(issues);
      assert Message(MissingSheet("Form")) == "Missing required sheet: 'Form'";
      assert Message(MissingSheet("Fields")) == "Missing required sheet: 'Fields'";
      assert errors == (if "Form" !in wb then [Message(MissingSheet("Form"))] else []) +
                       (if "Fields" !in wb then [Message(MissingSheet("Fields"))] else []);
      return false, None, errors;
    }

    success, form, issues := ParseSheets(wb, num);
    errors := Messages(issues);
  }
}
