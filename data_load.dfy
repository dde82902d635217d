/** Loading the exoplanet archive table and checking its columns. Whether
    the file exists and the table the CSV reader produces are parameters:
    the file system and the parser are outside the model. */
module DataLoad {
  import opened Wrappers
  import opened Sequences
  import opened Tables

  /** Columns without which the analysis cannot run. */
  const REQUIRED_COLUMNS: seq<string> := ["pl_name", "discoverymethod", "disc_year"]

  /** Columns the analysis uses when they are there. */
  const OPTIONAL_COLUMNS: seq<string> :=
    ["sy_dist", "sy_disterr1", "sy_disterr2", "pl_rade", "pl_radeerr1", "pl_radeerr2", "pl_radelim"]

  /** The verdict of `validate_columns`: it either returns, warning about
      the absent optional columns when there are any, or raises a ValueError
      naming the absent required columns. */
  datatype Validation = Passed(missingOptional: seq<string>) | Failed(missingRequired: seq<string>)
  {
    /** A warning is printed exactly when some optional column is absent. */
    predicate Warns()
    {
      Passed? && missingOptional != []
    }
  }

  /** The exceptions `load_exoplanet_data` raises. */
  datatype LoadError = FileNotFound(path: string) | MissingRequiredColumns(columns: seq<string>)

  /** `validate_columns`: fails exactly when a required column is absent,
      reporting exactly the absent required columns in the order of
      REQUIRED_COLUMNS; otherwise reports exactly the absent optional columns
      in the order of OPTIONAL_COLUMNS. */
  function ValidateColumns(t: Table): (v: Validation)
    ensures v.Failed? <==> exists c :: c in REQUIRED_COLUMNS && c !in t.columns
    ensures v.Failed? ==>
      && Subsequence(v.missingRequired, REQUIRED_COLUMNS)
      && forall c :: c in v.missingRequired <==> c in REQUIRED_COLUMNS && c !in t.columns
    ensures v.Passed? ==>
      && (forall c :: c in REQUIRED_COLUMNS ==> c in t.columns)
      && Subsequence(v.missingOptional, OPTIONAL_COLUMNS)
      && forall c :: c in v.missingOptional <==> c in OPTIONAL_COLUMNS && c !in t.columns
    ensures v.Warns() <==> v.Passed? && exists c :: c in OPTIONAL_COLUMNS && c !in t.columns
  {
    var missingRequired := Without(REQUIRED_COLUMNS, t.columns);
    if missingRequired != [] then Failed(missingRequired)
    else
      var missingOptional := Without(OPTIONAL_COLUMNS, t.columns);
      assert missingOptional != [] ==> missingOptional[0] in missingOptional;
      Passed(missingOptional)
  }

  /** Absent optional columns never decide the verdict: removing every
      optional column from a table leaves the verdict on the required columns
      as it was, and then every optional column is reported. */
  lemma ValidateColumnsIgnoresOptional(t: Table)
    ensures ValidateColumns(Drop(t, OPTIONAL_COLUMNS)) ==
      if ValidateColumns(t).Failed? then ValidateColumns(t) else Passed(OPTIONAL_COLUMNS)
  {
    var stripped := Drop(t, OPTIONAL_COLUMNS);
    assert forall c :: c in REQUIRED_COLUMNS ==> c !in OPTIONAL_COLUMNS;
    WithoutSameExclusions(REQUIRED_COLUMNS, stripped.columns, t.columns);
    WithoutNothing(OPTIONAL_COLUMNS, stripped.columns);
  }

  /** `load_exoplanet_data`: raises FileNotFoundError when the file does not
      exist; otherwise validates the parsed table and returns it unchanged,
      and then every required column is in its schema. */
  function LoadExoplanetData(path: string, fileExists: bool, parsed: Table): (r: Result<Table, LoadError>)
    ensures !fileExists ==> r == Err(FileNotFound(path))
    ensures fileExists ==> (r.Ok? <==> forall c :: c in REQUIRED_COLUMNS ==> c in parsed.columns)
    ensures r.Ok? ==> r.value == parsed && forall c :: c in REQUIRED_COLUMNS ==> c in r.value.columns
    ensures r.Err? && fileExists ==>
      && r.error.MissingRequiredColumns?
      && r.error.columns != []
      && forall c :: c in r.error.columns <==> c in REQUIRED_COLUMNS && c !in parsed.columns
    ensures r.Err? && fileExists ==>
      && Subsequence(r.error.columns, REQUIRED_COLUMNS)
      && r.error == MissingRequiredColumns(ValidateColumns(parsed).missingRequired)
  {
    if !fileExists then Err(FileNotFound(path))
    else
      match ValidateColumns(parsed)
      case Failed(missing) => Err(MissingRequiredColumns(missing))
      case Passed(_) => Ok(parsed)
  }
}
