# Exoplanet data preparation, modelled in Dafny

This project models the data-preparation core of a small exoplanet-catalogue
analysis: the column check applied when the NASA Exoplanet Archive table is
loaded (`data_load.py`), and the preparation steps (`data_clean.py`). The
preparation steps drop unneeded columns, derive distance in light years and
aggregated distance and radius uncertainties, and select the rows that have
the data an analysis needs.

A pandas DataFrame is modelled as a value `Tables.Table`. It has a schema, an
ordered list of distinct column names. It has a list of rows, and each row maps
every column name to a numeric cell `Option<real>`, where `None` stands for NaN.
Every preparation step starts with `df.copy()` and writes only into that copy.
So each step is a function from table to table, and the caller's table never
changes. A column assignment `df[name] = series` is `Tables.Assign`: a new
column goes at the end of the schema, and an existing column is overwritten
where it stands. `df.drop(columns=..., errors="ignore")` is `Tables.Drop`. A
boolean-mask filter `df[df[c].notna() & ...]` is `Tables.Select`.

Modules: `Wrappers` (Option, Result), `Cells` (per-cell arithmetic with NaN
propagation and the factor 3.26156), `Sequences` (subsequences and list
comprehensions), `Tables` (the table and the pandas operations the core
uses), `DataClean` (`data_clean.py`), `DataLoad` (`data_load.py`).

What is proved:

- Each derived column (`distance_ly`, `distance_uncertainty_ly`,
  `radius_uncertainty`) is right row by row. Each value is missing exactly
  when one of its inputs is missing. The uncertainty columns are never
  negative. The row count, row order and every other cell stay the same.
- When a source column is absent, a step falls back as the code does.
- `drop_columns` removes exactly the denylist and keeps the order of the
  other columns.
- Subset selection keeps the schema. The result is an order-preserving
  subsequence that holds every complete row as often as the input does, and
  no other row.
- The error behaviour of the four selectors differs: one raises, the others
  return the empty table.
- `prepare_exoplanet_data` is idempotent. It never leaves a denylisted column.
  Its schema is characterised exactly: the kept input columns in their
  order, extended by `distance_ly`, `distance_uncertainty_ly` and
  `radius_uncertainty` in that order, each only when its sources are there
  and it is not already a column.
- `validate_columns` fails exactly when a required column is absent. It
  reports exactly the absent columns, in declaration order. Optional columns
  never decide the verdict.

Two facts about the code shape the model:

- The two uncertainty values read only the two error cells (data_clean.py:46-49,
  data_clean.py:63-65). A row with a missing `pl_rade` (or `sy_dist`) whose
  error cells are known still gets an uncertainty value
  (`DataClean.RadiusUncertaintyWithoutRadius`).
- Each step overwrites a derived column that already exists
  (data_clean.py:30, data_clean.py:44, data_clean.py:46, data_clean.py:63),
  so the whole preparation is idempotent
  (`DataClean.PrepareExoplanetDataIdempotent`).

## Model

| member | source | states |
|---|---|---|
| `Cells.PARSEC_TO_LY` | data_clean.py:14 | light years in one parsec, `3.26156` (a constant) |
| `Cells.Abs` | data_clean.py:47-48 | `.abs()` on one value: never negative, and either the value or its negation |
| `Cells.ToLightYears` | data_clean.py:30 | `sy_dist * PARSEC_TO_LY` on one cell: missing exactly when the parsec value is; dividing by the factor gives the parsec value back; keeps the sign |
| `Cells.MeanAbsError` | data_clean.py:63-65 | `(abs(err1) + abs(err2)) / 2` on one row: missing exactly when either error cell is; otherwise never negative and between the two error magnitudes |
| `Sequences.Without` | data_load.py:44 | the list comprehension `[x for x in s if x not in excluded]`: exactly the non-excluded elements, as an order-preserving subsequence, without repeats when `s` has none |
| `Sequences.WithoutNothing` | data_clean.py:73 | excluding names that do not occur leaves the list unchanged |
| `Sequences.WithoutSameExclusions` | data_load.py:44 | the result depends only on which elements of the list are excluded |
| `Sequences.Extend` | data_clean.py:30 | the schema after `df[name] = ...`: unchanged when the column exists, the name appended when it does not; stays free of repeats |
| `Sequences.ExtendKeepsPrefix` | data_clean.py:30 | assigning a column never moves the existing columns: every prefix of the schema stays a prefix |
| `Tables.Assign` | data_clean.py:30 | `df[name] = values` on a copy: the schema is extended by `name`, row `i` holds `values[i]` under `name`, every other cell is unchanged, well-formedness is kept |
| `Tables.AssignSameValues` | data_clean.py:30 | assigning to an existing column the values it already holds returns the table unchanged |
| `Tables.SameCellsExceptTransitive` | data_clean.py:80-83 | the cells left alone by two steps in a row are those left alone by each |
| `Tables.Drop` | data_clean.py:73 | `df.drop(columns=names, errors="ignore")`: the schema loses exactly the named columns, ignoring absent names and keeping order; rows lose those keys and keep every other cell |
| `Tables.DropNothing` | data_clean.py:73 | dropping names none of which is a column returns the table unchanged |
| `Tables.Complete` | data_clean.py:96 | `.notna()` on the named columns of one row: every one of them holds a value (a predicate; its body is the definition) |
| `Tables.EMPTY` | data_clean.py:104 | `pd.DataFrame()`: no columns and no rows (a constant) |
| `Tables.RowsWith` | data_clean.py:96 | the boolean-mask filter on rows: an order-preserving subsequence of the rows whose every row is complete in the named columns, holding each complete row as often as the input does |
| `Tables.Select` | data_clean.py:117-120 | `df[df[c1].notna() & df[c2].notna()]`: the schema is unchanged and the rows are exactly the complete rows, in order |
| `DataClean.COLUMNS_TO_DROP` | data_clean.py:15 | the denylist `default_flag`, `pl_controv_flag`, `pl_radelim`, in source order (a constant) |
| `DataClean.SchemaError` | data_clean.py:94 | the ValueError a distance subset raises when `distance_ly` is missing, carrying the missing column's name (a datatype) |
| `DataClean.HasDistanceSources` | data_clean.py:39-40 | the test that `sy_dist`, `sy_disterr1` and `sy_disterr2` are all columns (a predicate; its body is the definition) |
| `DataClean.HasRadiusSources` | data_clean.py:58-59 | the test that `pl_rade`, `pl_radeerr1` and `pl_radeerr2` are all columns (a predicate; its body is the definition) |
| `DataClean.DistanceLySeries` | data_clean.py:30 | the series `sy_dist * 3.26156`, one cell per row (a function; its body is the definition); its meaning is stated by `AddDistanceLy` and `DistanceLyColumnMeaning` |
| `DataClean.DistanceUncertaintySeries` | data_clean.py:46-49 | the aggregated distance error in light years, one cell per row (a function; its body is the definition); its meaning is stated by `AddDistanceAndUncertaintyLy` and `DistanceUncertaintyColumnMeaning` |
| `DataClean.RadiusUncertaintySeries` | data_clean.py:63-65 | the aggregated radius error, one cell per row (a function; its body is the definition); its meaning is stated by `AddRadiusUncertainty` and `RadiusUncertaintyColumnMeaning` |
| `DataClean.DistanceLyColumnMeaning` | data_clean.py:30 | a `distance_ly` column is missing exactly where `sy_dist` is, and otherwise equals `sy_dist * 3.26156` |
| `DataClean.DistanceUncertaintyColumnMeaning` | data_clean.py:44-49 | a `distance_uncertainty_ly` column is missing exactly where either distance error is, and otherwise is never negative and equals `((abs(err1) + abs(err2)) / 2) * 3.26156` |
| `DataClean.RadiusUncertaintyColumnMeaning` | data_clean.py:63-65 | a `radius_uncertainty` column is missing exactly where either radius error is, and otherwise is never negative and equals `(abs(err1) + abs(err2)) / 2` |
| `DataClean.AddDistanceLy` | data_clean.py:20-31 | without `sy_dist` the result equals the input; otherwise `distance_ly` is added (or overwritten) and equals `sy_dist * 3.26156` row by row, missing exactly when `sy_dist` is; the row count, the row order and every other cell are unchanged |
| `DataClean.AddDistanceAndUncertaintyLy` | data_clean.py:33-51 | when any of `sy_dist`, `sy_disterr1`, `sy_disterr2` is absent the result equals `AddDistanceLy` of the input; otherwise it adds `distance_ly` and then `distance_uncertainty_ly = ((abs(err1) + abs(err2)) / 2) * 3.26156`, never negative and missing exactly when either error cell is; nothing else changes |
| `DataClean.AddRadiusUncertainty` | data_clean.py:53-66 | when any of `pl_rade`, `pl_radeerr1`, `pl_radeerr2` is absent the result equals the input; otherwise it adds `radius_uncertainty = (abs(err1) + abs(err2)) / 2`, never negative and missing exactly when either error cell is; nothing else changes |
| `DataClean.DropColumns` | data_clean.py:68-74 | the schema becomes the input schema minus `default_flag`, `pl_controv_flag` and `pl_radelim`, in the same order; the rows and their other cells are unchanged |
| `DataClean.DropColumnsIdempotent` | data_clean.py:73 | because absent names are ignored, dropping twice equals dropping once |
| `DataClean.PrepareExoplanetData` | data_clean.py:76-83 | the prepared table is well formed, keeps the input row count and holds no denylisted column |
| `DataClean.AddDistanceAndUncertaintyLyEffect` | data_clean.py:33-51 | the distance step adds exactly `distance_ly` (when `sy_dist` is there) and `distance_uncertainty_ly` (when all three sources are there), and changes no cell outside those two |
| `DataClean.AddRadiusUncertaintyEffect` | data_clean.py:53-66 | the radius step adds exactly `radius_uncertainty` when its three sources are there, and changes no cell outside it |
| `DataClean.PrepareExoplanetDataColumns` | data_clean.py:76-83 | the prepared schema holds exactly the non-denylisted input columns and each derived column whose source columns are in the input |
| `DataClean.PrepareExoplanetDataColumnOrder` | data_clean.py:76-83 | the prepared schema starts with the non-denylisted input columns in their input order; the derived columns come after them |
| `DataClean.PrepareExoplanetDataSchema` | data_clean.py:76-83 | the prepared schema exactly: the non-denylisted input columns in their input order, then `distance_ly` when `sy_dist` is there, `distance_uncertainty_ly` when all three distance sources are, and `radius_uncertainty` when all three radius sources are, each appended only when not already a column |
| `DataClean.PrepareExoplanetDataCells` | data_clean.py:76-83 | preparation changes no cell outside the dropped and the derived columns |
| `DataClean.DistanceColumnsCarried` | data_clean.py:80-83 | derived distance columns keep agreeing with their sources across steps that do not touch either |
| `DataClean.RadiusColumnCarried` | data_clean.py:80-83 | a radius uncertainty keeps agreeing with its error columns across earlier steps that do not touch them |
| `DataClean.PrepareExoplanetDataDistance` | data_clean.py:80-81 | after preparation `distance_ly` holds the input's `sy_dist` in light years, row by row, missing exactly when `sy_dist` is |
| `DataClean.PrepareExoplanetDataDistanceUncertainty` | data_clean.py:80-81 | after preparation `distance_uncertainty_ly` holds the input's aggregated distance error in light years, row by row |
| `DataClean.PrepareExoplanetDataRadiusUncertainty` | data_clean.py:80-82 | after preparation `radius_uncertainty` holds the input's aggregated radius error, row by row |
| `DataClean.AddDistanceAndUncertaintyLyDerives` | data_clean.py:33-51 | after the distance step the distance columns agree with their sources in the same table |
| `DataClean.AddDistanceAndUncertaintyLyFixed` | data_clean.py:44-49 | on a table whose distance columns already agree with their sources, the overwriting step returns the table unchanged |
| `DataClean.AddRadiusUncertaintyDerives` | data_clean.py:53-66 | after the radius step the radius uncertainty agrees with its sources in the same table |
| `DataClean.AddRadiusUncertaintyKeepsDistance` | data_clean.py:63-65 | the radius step keeps derived distance columns in agreement with their sources |
| `DataClean.AddRadiusUncertaintyFixed` | data_clean.py:63-65 | on a table whose radius uncertainty already agrees with its sources, the overwriting step returns the table unchanged |
| `DataClean.PrepareExoplanetDataIdempotent` | data_clean.py:80-83 | preparing a prepared table gives the same table |
| `DataClean.GetPlanetsWithDistance` | data_clean.py:89-96 | raises `ColumnNotFound("distance_ly")` exactly when `distance_ly` is not a column; otherwise returns exactly the rows with a known distance, in order, under the same schema |
| `DataClean.GetPlanetsWithRadius` | data_clean.py:98-106 | returns the table with no columns and no rows when `pl_rade` is not a column; otherwise exactly the rows with a known radius, in order, under the same schema |
| `DataClean.GetPlanetsWithDistanceUncertainty` | data_clean.py:108-120 | returns the empty table unless both `distance_ly` and `distance_uncertainty_ly` are columns; otherwise exactly the rows with both values, in order, under the same schema |
| `DataClean.GetPlanetsWithRadiusUncertainty` | data_clean.py:122-134 | returns the empty table unless both `pl_rade` and `radius_uncertainty` are columns; otherwise exactly the rows with both values, in order, under the same schema |
| `DataClean.SelectedDistanceRows` | data_clean.py:96 | keeping the rows whose `distance_ly` is known, where `distance_ly` came from `sy_dist` and `sy_dist` was carried over unchanged, keeps exactly the rows whose `sy_dist` is known |
| `DataClean.PreparedPlanetsWithDistance` | data_clean.py:93-96 | on a prepared table that had `sy_dist`, the distance subset exists, each of its rows has a known `sy_dist`, and every input row with a known `sy_dist` is in it |
| `DataClean.RadiusUncertaintyWithoutRadius` | data_clean.py:63-65 | a row with a missing `pl_rade` and error bars 0.1 and -0.2 gets a radius uncertainty of 0.15 |
| `DataLoad.REQUIRED_COLUMNS` | data_load.py:16-20 | `pl_name`, `discoverymethod`, `disc_year`, in source order (a constant) |
| `DataLoad.OPTIONAL_COLUMNS` | data_load.py:22-30 | `sy_dist`, `sy_disterr1`, `sy_disterr2`, `pl_rade`, `pl_radeerr1`, `pl_radeerr2`, `pl_radelim`, in source order (a constant) |
| `DataLoad.LoadError` | data_load.py:38 | the two exceptions of a load: FileNotFoundError with the path, and the ValueError of `validate_columns` (data_load.py:46) with the absent required columns (a datatype) |
| `DataLoad.ValidateColumns` | data_load.py:40-50 | fails exactly when one of `pl_name`, `discoverymethod`, `disc_year` is absent, listing exactly the absent required columns in `REQUIRED_COLUMNS` order; otherwise all three are present and it lists exactly the absent optional columns in `OPTIONAL_COLUMNS` order, warning exactly when there is one |
| `DataLoad.Validation.Warns` | data_load.py:49-50 | a warning is printed exactly when validation passes and some optional column is absent; `ValidateColumns` states this of its result |
| `DataLoad.ValidateColumnsIgnoresOptional` | data_load.py:48-50 | removing every optional column from a table does not change whether validation fails; when it passes, every optional column is then reported |
| `DataLoad.LoadExoplanetData` | data_load.py:53-71 | a missing file raises `FileNotFound`; otherwise the load fails exactly when a required column is absent, re-raising the error of `validate_columns`: exactly the absent required columns, in `REQUIRED_COLUMNS` order; on success the parsed table is returned unchanged and contains every required column |

## Left out

- `validate_file_exists` and `pd.read_csv` (data_load.py:33-38, data_load.py:64-69) are file-system I/O and a foreign CSV parser. `LoadExoplanetData` takes whether the file exists and the parsed table as parameters. Skipping `#` comment lines and dtype inference are therefore not modelled. The default path `DEFAULT_DATA_PATH` is likewise not modelled, because the path is a parameter.
- `print_basic_info` and the `__main__` blocks (data_load.py:74-90, data_clean.py:137-158) only print.
- `spinner.py` is wall-clock delay and terminal output. `main.py` is top-level sequencing and printing.
- The analysis functions that `main.py` imports are not in `analysis.py`. `analysis.py` holds only a docstring and an import, so the analysis step is not part of this model.
- Printed warnings: `validate_columns`'s warning is surfaced as `Validation.Warns`. The warnings printed by the `data_clean.py` steps do not change any result, so they are not modelled.
- Floating point: numbers are `real`, so rounding of IEEE doubles is not modelled. NaN is `None`.
- Non-numeric columns (`pl_name`, `discoverymethod` and others): every cell is modelled as `Option<real>`. No step of the core reads the values of a non-numeric column, so those columns only pass through.
- pandas index labels: a filtered DataFrame keeps the labels of the original rows. The model keeps the rows and their order, but not the labels.
- Duplicate column names, which pandas allows, are excluded by `Tables.WellFormed`. An archive export has distinct headers.
- LoadExoplanetData: `read_csv`'s own failures (an empty file, a malformed row) are not modelled, and the parsed table is taken as given, so its well-formedness is not established by the load (chaining into `PrepareExoplanetData` needs `Tables.WellFormed` of the parsed table). The optional-column warning that `validate_columns` prints during the load is not part of the returned value, because the source only prints it; it is `ValidateColumns(parsed).Warns()`.
