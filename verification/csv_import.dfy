/**
 * The CSV import pipeline of the dashboard (js/app.js): file acceptance,
 * folding the row validator over the parsed rows, the validation summary
 * shown to the user, and committing the pending batch to the project store.
 *
 * The row validator and the sanitizer are not part of this model; they enter
 * as function parameters, so every property here is about the aggregation and
 * the commit and holds whatever the row rules are.
 */
module CsvImport {
  import opened Wrappers
  import opened Strings

  /** One parsed CSV row: header name to cell text. */
  type Row = map<string, string>

  datatype Status = Done | Pending

  /** A rollout site. Coordinates are reals: floating point is not modelled. */
  datatype Project = Project(
    siteCode: string,
    projectName: string,
    siteName: string,
    barangay: string,
    municipality: string,
    province: string,
    district: string,
    latitude: real,
    longitude: real,
    activationDate: string,
    status: Status,
    notes: string)

  /** The row validator's verdict on one row; `project` is meaningful when `valid`. */
  datatype RowValidation = RowValidation(
    valid: bool,
    project: Project,
    errors: seq<string>,
    warnings: seq<string>)

  /** Validates a row, given its index in the file and the current store. */
  type RowValidator = (Row, nat, seq<Project>) -> RowValidation

  /** Escapes the free-text fields of a project. */
  type ProjectSanitizer = Project -> Project

  datatype ValidationResult = ValidationResult(
    validProjects: seq<Project>,
    errors: seq<string>,
    warnings: seq<string>,
    hasErrors: bool)

  // ---------------------------------------------------------------------------
  // File acceptance
  // ---------------------------------------------------------------------------

  datatype UploadedFile = UploadedFile(name: string, mimeType: string)

  /** Accepted file-name suffixes, which double as accepted MIME types. */
  const ValidTypes: seq<string> := [
    ".csv",
    "application/vnd.ms-excel",
    "application/vnd.openxmlformats-officedocument.spreadsheetml.sheet"
  ]

  /** True when some listed type is a suffix of the file name or equals its MIME type. */
  function AnyTypeMatches(types: seq<string>, file: UploadedFile): (ok: bool)
    ensures ok <==> exists i :: 0 <= i < |types| && (EndsWith(file.name, types[i]) || file.mimeType == types[i])
  {
    if types == [] then false
    else
      EndsWith(file.name, types[0]) || file.mimeType == types[0] || AnyTypeMatches(types[1..], file)
  }

  predicate AcceptsFile(file: UploadedFile)
  {
    AnyTypeMatches(ValidTypes, file)
  }

  /** A `.csv` name is enough, whatever MIME type the browser reports. */
  lemma CsvNameAccepted(file: UploadedFile)
    requires EndsWith(file.name, ".csv")
    ensures AcceptsFile(file)
  {
  }

  /** An Excel MIME type is enough, whatever the name. */
  lemma ExcelTypeAccepted(file: UploadedFile)
    requires file.mimeType in ValidTypes[1..]
    ensures AcceptsFile(file)
  {
  }

  /**
   * The check looks only at suffixes and exact MIME types: a CSV file whose
   * name has no extension is refused even when the browser reports `text/csv`.
   */
  lemma TextCsvWithoutExtensionRefused()
    ensures !AcceptsFile(UploadedFile("data", "text/csv"))
  {
  }

  // ---------------------------------------------------------------------------
  // Folding the validator over the rows: reference definitions
  // ---------------------------------------------------------------------------

  /** The verdict on each row; every row sees the same snapshot of the store. */
  function Verdicts(data: seq<Row>, store: seq<Project>, validate: RowValidator): (vs: seq<RowValidation>)
    ensures |vs| == |data|
    ensures forall i :: 0 <= i < |data| ==> vs[i] == validate(data[i], i, store)
  {
    seq(|data|, i requires 0 <= i < |data| => validate(data[i], i, store))
  }

  /**
   * A row's verdict does not depend on the rows after it: the verdicts of a
   * file's leading rows are the ones those rows get on their own.
   */
  lemma VerdictsIgnoreLaterRows(a: seq<Row>, b: seq<Row>, store: seq<Project>, validate: RowValidator)
    ensures Verdicts(a + b, store, validate)[..|a|] == Verdicts(a, store, validate)
  {
  }

  /** Sanitized projects of the valid rows, in row order. */
  function Accepted(vs: seq<RowValidation>, sanitize: ProjectSanitizer): seq<Project>
  {
    if vs == [] then []
    else
      var last := vs[|vs| - 1];
      Accepted(vs[..|vs| - 1], sanitize) + (if last.valid then [sanitize(last.project)] else [])
  }

  /** Error lists of the invalid rows, concatenated in row order. */
  function Rejections(vs: seq<RowValidation>): seq<string>
  {
    if vs == [] then []
    else
      var last := vs[|vs| - 1];
      Rejections(vs[..|vs| - 1]) + (if last.valid then [] else last.errors)
  }

  /** Warning lists of all rows, concatenated in row order. */
  function AllWarnings(vs: seq<RowValidation>): seq<string>
  {
    if vs == [] then [] else AllWarnings(vs[..|vs| - 1]) + vs[|vs| - 1].warnings
  }

  /** What validating `data` against `store` yields, stated row by row. */
  function Validated(data: seq<Row>, store: seq<Project>, validate: RowValidator, sanitize: ProjectSanitizer): ValidationResult
  {
    var vs := Verdicts(data, store, validate);
    ValidationResult(Accepted(vs, sanitize), Rejections(vs), AllWarnings(vs), Rejections(vs) != [])
  }

  // ---------------------------------------------------------------------------
  // validateCSVData
  // ---------------------------------------------------------------------------

  /** The source's forEach over the rows, accumulating three lists. */
  method ValidateCsvData(data: seq<Row>, store: seq<Project>, validate: RowValidator, sanitize: ProjectSanitizer)
    returns (result: ValidationResult)
    ensures result == Validated(data, store, validate, sanitize)
    ensures |result.validProjects| <= |data|
    ensures result.hasErrors <==>
      exists i :: 0 <= i < |data| && !validate(data[i], i, store).valid && validate(data[i], i, store).errors != []
  {
    ghost var vs := Verdicts(data, store, validate);
    var validProjects: seq<Project> := [];
    var errors: seq<string> := [];
    var warnings: seq<string> := [];
    var i := 0;
    while i < |data|
      invariant 0 <= i <= |data|
      invariant validProjects == Accepted(vs[..i], sanitize)
      invariant errors == Rejections(vs[..i])
      invariant warnings == AllWarnings(vs[..i])
    {
      var validation := validate(data[i], i, store);
      assert vs[..i + 1][..i] == vs[..i];
      if validation.valid {
        validProjects := validProjects + [sanitize(validation.project)];
      } else {
        errors := errors + validation.errors;
      }
      if |validation.warnings| > 0 {
        warnings := warnings + validation.warnings;
      } else {
        assert warnings + validation.warnings == warnings;
      }
      i := i + 1;
    }
    assert vs[..i] == vs;
    result := ValidationResult(validProjects, errors, warnings, |errors| > 0);
    AcceptedLength(vs, sanitize);
    RejectionsEmpty(vs);
  }

  // ---------------------------------------------------------------------------
  // Properties of the fold
  // ---------------------------------------------------------------------------

  /** At most one project per row; exactly one per row iff every row is valid. */
  lemma {:induction false} AcceptedLength(vs: seq<RowValidation>, sanitize: ProjectSanitizer)
    ensures |Accepted(vs, sanitize)| <= |vs|
    ensures |Accepted(vs, sanitize)| == |vs| <==> forall i :: 0 <= i < |vs| ==> vs[i].valid
  {
    if vs != [] {
      var init := vs[..|vs| - 1];
      AcceptedLength(init, sanitize);
      if forall i :: 0 <= i < |vs| ==> vs[i].valid {
        assert forall i :: 0 <= i < |init| ==> init[i].valid by {
          forall i | 0 <= i < |init| ensures init[i].valid {
            assert init[i] == vs[i];
          }
        }
      }
      if |Accepted(vs, sanitize)| == |vs| {
        forall i | 0 <= i < |vs| ensures vs[i].valid {
          if i < |init| {
            assert init[i] == vs[i];
          }
        }
      }
    }
  }

  /** Validating two consecutive slices of rows is validating them together. */
  lemma {:induction false} AcceptedAppend(a: seq<RowValidation>, b: seq<RowValidation>, sanitize: ProjectSanitizer)
    ensures Accepted(a + b, sanitize) == Accepted(a, sanitize) + Accepted(b, sanitize)
    decreases |b|
  {
    if b == [] {
      assert a + b == a;
    } else {
      var init := b[..|b| - 1];
      assert (a + b)[..|a + b| - 1] == a + init;
      AcceptedAppend(a, init, sanitize);
    }
  }

  /** A project is accepted iff it is the sanitized project of some valid row. */
  lemma {:induction false} AcceptedMember(vs: seq<RowValidation>, sanitize: ProjectSanitizer, p: Project)
    ensures p in Accepted(vs, sanitize) <==> exists i :: 0 <= i < |vs| && vs[i].valid && p == sanitize(vs[i].project)
  {
    if vs != [] {
      var init := vs[..|vs| - 1];
      AcceptedMember(init, sanitize, p);
      if p in Accepted(init, sanitize) {
        var i :| 0 <= i < |init| && init[i].valid && p == sanitize(init[i].project);
        assert vs[i] == init[i];
      }
      if exists i :: 0 <= i < |vs| && vs[i].valid && p == sanitize(vs[i].project) {
        var i :| 0 <= i < |vs| && vs[i].valid && p == sanitize(vs[i].project);
        if i < |init| {
          assert init[i] == vs[i];
        }
      }
    }
  }

  /** When every row is valid, the batch is every row's sanitized project, in file order. */
  lemma {:induction false} AcceptedAllValid(vs: seq<RowValidation>, sanitize: ProjectSanitizer)
    requires forall i :: 0 <= i < |vs| ==> vs[i].valid
    ensures Accepted(vs, sanitize) == seq(|vs|, i requires 0 <= i < |vs| => sanitize(vs[i].project))
  {
    if vs != [] {
      var init := vs[..|vs| - 1];
      assert forall i :: 0 <= i < |init| ==> init[i] == vs[i];
      AcceptedAllValid(init, sanitize);
    }
  }

  /** An error is reported iff it comes from the error list of an invalid row. */
  lemma {:induction false} RejectionsMember(vs: seq<RowValidation>, e: string)
    ensures e in Rejections(vs) <==> exists i :: 0 <= i < |vs| && !vs[i].valid && e in vs[i].errors
  {
    if vs != [] {
      var init := vs[..|vs| - 1];
      RejectionsMember(init, e);
      if e in Rejections(init) {
        var i :| 0 <= i < |init| && !init[i].valid && e in init[i].errors;
        assert vs[i] == init[i];
      }
      if exists i :: 0 <= i < |vs| && !vs[i].valid && e in vs[i].errors {
        var i :| 0 <= i < |vs| && !vs[i].valid && e in vs[i].errors;
        if i < |init| {
          assert init[i] == vs[i];
        }
      }
    }
  }

  /** No error is reported iff every row is valid or rejected without a message. */
  lemma {:induction false} RejectionsEmpty(vs: seq<RowValidation>)
    ensures Rejections(vs) == [] <==> forall i :: 0 <= i < |vs| ==> vs[i].valid || vs[i].errors == []
  {
    if vs != [] {
      var init := vs[..|vs| - 1];
      RejectionsEmpty(init);
      assert forall i :: 0 <= i < |init| ==> init[i] == vs[i];
    }
  }

  /** A warning is reported iff some row, valid or not, produced it. */
  lemma {:induction false} AllWarningsMember(vs: seq<RowValidation>, w: string)
    ensures w in AllWarnings(vs) <==> exists i :: 0 <= i < |vs| && w in vs[i].warnings
  {
    if vs != [] {
      var init := vs[..|vs| - 1];
      AllWarningsMember(init, w);
      if w in AllWarnings(init) {
        var i :| 0 <= i < |init| && w in init[i].warnings;
        assert vs[i] == init[i];
      }
      if exists i :: 0 <= i < |vs| && w in vs[i].warnings {
        var i :| 0 <= i < |vs| && w in vs[i].warnings;
        if i < |init| {
          assert init[i] == vs[i];
        }
      }
    }
  }

  /**
   * Each row is checked against the store alone, never against the rows
   * accepted before it: when the validator gives a repeated row the same
   * verdict at both positions, a file holding the same valid row twice
   * yields two copies of its project.
   */
  lemma DuplicateRowsBothAccepted(row: Row, store: seq<Project>, validate: RowValidator, sanitize: ProjectSanitizer)
    requires validate(row, 0, store).valid
    requires validate(row, 1, store) == validate(row, 0, store)
    ensures var p := sanitize(validate(row, 0, store).project);
      Validated([row, row], store, validate, sanitize).validProjects == [p, p]
  {
    var vs := Verdicts([row, row], store, validate);
    var p := sanitize(validate(row, 0, store).project);
    assert vs[..1][..0] == [];
    assert vs[..|vs| - 1] == vs[..1];
    assert Accepted(vs[..1], sanitize) == [p];
  }

  // ---------------------------------------------------------------------------
  // showValidationResults
  // ---------------------------------------------------------------------------

  const MaxListedErrors: nat := 10

  /** The error list: first entries escaped, then an "...and n more errors" count. */
  datatype ErrorPanel = ErrorPanel(total: nat, listed: seq<string>, remainder: Option<nat>)

  /** Only the first warning is shown, with the total. */
  datatype WarningPanel = WarningPanel(total: nat, first: string)

  datatype Summary = Summary(errorPanel: Option<ErrorPanel>, warningPanel: Option<WarningPanel>, readyCount: nat)

  function EscapeAll(messages: seq<string>, escape: string -> string): (r: seq<string>)
    ensures |r| == |messages|
    ensures forall k :: 0 <= k < |r| ==> r[k] == escape(messages[k])
  {
    seq(|messages|, k requires 0 <= k < |messages| => escape(messages[k]))
  }

  /**
   * The summary panel; `escape` is the HTML sanitizer and `panelPresent`
   * says whether the page has the result container.
   */
  function ShowValidationResults(result: ValidationResult, escape: string -> string, panelPresent: bool): (r: Option<Summary>)
    ensures r.Some? <==> panelPresent
    ensures r.Some? ==> r.value.readyCount == |result.validProjects|
    ensures r.Some? ==> (r.value.errorPanel.Some? <==> result.errors != [])
    ensures r.Some? && r.value.errorPanel.Some? ==>
      var p := r.value.errorPanel.value;
      && p.total == |result.errors|
      && |p.listed| == (if |result.errors| < MaxListedErrors then |result.errors| else MaxListedErrors)
      && (forall k :: 0 <= k < |p.listed| ==> p.listed[k] == escape(result.errors[k]))
      && (p.remainder.Some? <==> |result.errors| > MaxListedErrors)
      && |p.listed| + (if p.remainder.Some? then p.remainder.value else 0) == |result.errors|
    ensures r.Some? ==> (r.value.warningPanel.Some? <==> result.warnings != [])
    ensures r.Some? && r.value.warningPanel.Some? ==>
      r.value.warningPanel.value == WarningPanel(|result.warnings|, escape(result.warnings[0]))
  {
    if !panelPresent then None
    else
      var errors := result.errors;
      var errorPanel :=
        if |errors| > 0 then
          var shown := if |errors| < MaxListedErrors then |errors| else MaxListedErrors;
          Some(ErrorPanel(
            |errors|,
            EscapeAll(errors[..shown], escape),
            if |errors| > MaxListedErrors then Some(|errors| - MaxListedErrors) else None))
        else None;
      var warningPanel :=
        if |result.warnings| > 0 then Some(WarningPanel(|result.warnings|, escape(result.warnings[0])))
        else None;
      Some(Summary(errorPanel, warningPanel, |result.validProjects|))
  }

  /** With at most ten errors every error is listed, in order, and no "more" line appears. */
  lemma ShortErrorListShownWhole(result: ValidationResult, escape: string -> string)
    requires 0 < |result.errors| <= MaxListedErrors
    ensures var p := ShowValidationResults(result, escape, true).value.errorPanel.value;
      p.listed == EscapeAll(result.errors, escape) && p.remainder == None
  {
  }

  /** Beyond ten errors exactly the first ten are listed and the rest are counted. */
  lemma LongErrorListCapped(result: ValidationResult, escape: string -> string)
    requires |result.errors| > MaxListedErrors
    ensures var p := ShowValidationResults(result, escape, true).value.errorPanel.value;
      && p.listed == EscapeAll(result.errors, escape)[..MaxListedErrors]
      && p.remainder == Some(|result.errors| - MaxListedErrors)
  {
  }

  // ---------------------------------------------------------------------------
  // Pending batch: upload and import
  // ---------------------------------------------------------------------------

  /** The project store and the batch waiting for the user's confirmation. */
  datatype ImportState = ImportState(store: seq<Project>, pending: Option<seq<Project>>)

  /** What the file reader and the CSV parser delivered. */
  datatype FileContent = Parsed(rows: seq<Row>) | ReadFailed | ParseFailed

  datatype UploadNotice = NoFile | WrongFileType | ReadError | ParseError | Checked(result: ValidationResult)

  datatype Uploaded = Uploaded(state: ImportState, notice: UploadNotice)

  /** handleFileUpload: check the file, validate its rows, park the valid ones. */
  function HandleFileUpload(
    st: ImportState, file: Option<UploadedFile>, content: FileContent,
    validate: RowValidator, sanitize: ProjectSanitizer): (r: Uploaded)
    ensures r.state.store == st.store
    ensures r.notice.Checked? <==> file.Some? && AcceptsFile(file.value) && content.Parsed?
    ensures r.notice.Checked? ==>
      && r.notice.result == Validated(content.rows, st.store, validate, sanitize)
      && r.state.pending == Some(r.notice.result.validProjects)
    ensures !r.notice.Checked? ==> r.state == st
  {
    if file.None? then Uploaded(st, NoFile)
    else if !AcceptsFile(file.value) then Uploaded(st, WrongFileType)
    else match content
      case ReadFailed => Uploaded(st, ReadError)
      case ParseFailed => Uploaded(st, ParseError)
      case Parsed(rows) =>
        var result := Validated(rows, st.store, validate, sanitize);
        Uploaded(st.(pending := Some(result.validProjects)), Checked(result))
  }

  datatype ImportNotice = NoValidData | ImportedCount(count: int)

  datatype Imported = Imported(state: ImportState, notice: ImportNotice)

  /** importValidatedData: append the pending batch and report how many were added. */
  function ImportValidatedData(st: ImportState): (r: Imported)
    ensures st.pending.None? || st.pending.value == [] ==> r == Imported(st, NoValidData)
    ensures st.pending.Some? && st.pending.value != [] ==>
      && r.state.store == st.store + st.pending.value
      && r.state.pending == Some([])
      && r.notice == ImportedCount(|st.pending.value|)
  {
    if st.pending.None? || |st.pending.value| == 0 then Imported(st, NoValidData)
    else
      var existingCount := |st.store|;
      var store := st.store + st.pending.value;
      var newCount := |store|;
      Imported(ImportState(store, Some([])), ImportedCount(newCount - existingCount))
  }

  /** A batch is committed once: importing again reports no data and changes nothing. */
  lemma ImportConsumesPending(st: ImportState)
    ensures var once := ImportValidatedData(st).state;
      ImportValidatedData(once) == Imported(once, NoValidData)
  {
  }

  /**
   * Upload then import: when the file yields at least one valid row, the store
   * becomes the old store followed by exactly the validated batch, and the
   * reported count is the batch size.
   */
  lemma UploadThenImport(
    st: ImportState, file: UploadedFile, rows: seq<Row>,
    validate: RowValidator, sanitize: ProjectSanitizer)
    requires AcceptsFile(file)
    requires Validated(rows, st.store, validate, sanitize).validProjects != []
    ensures var batch := Validated(rows, st.store, validate, sanitize).validProjects;
      var up := HandleFileUpload(st, Some(file), Parsed(rows), validate, sanitize);
      var done := ImportValidatedData(up.state);
      && done.state.store == st.store + batch
      && done.notice == ImportedCount(|batch|)
  {
  }

  /**
   * A file of N rows that all pass validation adds N projects, in file order,
   * after the existing ones.
   */
  lemma AllValidRowsImported(
    st: ImportState, file: UploadedFile, rows: seq<Row>,
    validate: RowValidator, sanitize: ProjectSanitizer)
    requires AcceptsFile(file)
    requires rows != []
    requires forall i :: 0 <= i < |rows| ==> validate(rows[i], i, st.store).valid
    ensures var up := HandleFileUpload(st, Some(file), Parsed(rows), validate, sanitize);
      var done := ImportValidatedData(up.state);
      && done.state.store == st.store + seq(|rows|, i requires 0 <= i < |rows| => sanitize(validate(rows[i], i, st.store).project))
      && done.notice == ImportedCount(|rows|)
  {
    var vs := Verdicts(rows, st.store, validate);
    AcceptedAllValid(vs, sanitize);
    var batch := Accepted(vs, sanitize);
    assert batch == seq(|rows|, i requires 0 <= i < |rows| => sanitize(validate(rows[i], i, st.store).project));
    UploadThenImport(st, file, rows, validate, sanitize);
  }
}
