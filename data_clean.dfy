/** The data-preparation steps of the exoplanet analysis: derived distance
    and uncertainty columns, removal of unneeded columns, and the subsets of
    rows that have the data an analysis needs. Every step copies its input
    table before writing to it, so each one is a function from table to
    table and the caller's table is never changed. */
module DataClean {
  import opened Wrappers
  import opened Cells
  import opened Sequences
  import opened Tables

  const SY_DIST := "sy_dist"
  const SY_DISTERR1 := "sy_disterr1"
  const SY_DISTERR2 := "sy_disterr2"
  const PL_RADE := "pl_rade"
  const PL_RADEERR1 := "pl_radeerr1"
  const PL_RADEERR2 := "pl_radeerr2"

  const DISTANCE_LY := "distance_ly"
  const DISTANCE_UNCERTAINTY_LY := "distance_uncertainty_ly"
  const RADIUS_UNCERTAINTY := "radius_uncertainty"

  /** Columns not needed for the analysis. */
  const COLUMNS_TO_DROP: seq<string> := ["default_flag", "pl_controv_flag", "pl_radelim"]

  /** Raised (as a ValueError) when a subset needs a column the table lacks. */
  datatype SchemaError = ColumnNotFound(column: string)

  // ---------------------------------------------------------------------
  // What the derived columns hold
  // ---------------------------------------------------------------------

  /** In every row, `distance_ly` of `r` is `sy_dist` of `t` in light
      years. */
  ghost predicate DistanceLyColumn(t: Table, r: Table)
  {
    && DISTANCE_LY in r.columns
    && |r.rows| == |t.rows|
    && forall i :: 0 <= i < |t.rows| ==>
      Get(r.rows[i], DISTANCE_LY) == ToLightYears(Get(t.rows[i], SY_DIST))
  }

  /** In every row, `distance_uncertainty_ly` of `r` is the aggregated
      distance error of `t` in light years. */
  ghost predicate DistanceUncertaintyColumn(t: Table, r: Table)
  {
    && DISTANCE_UNCERTAINTY_LY in r.columns
    && |r.rows| == |t.rows|
    && forall i :: 0 <= i < |t.rows| ==>
      Get(r.rows[i], DISTANCE_UNCERTAINTY_LY) ==
        ToLightYears(MeanAbsError(Get(t.rows[i], SY_DISTERR1), Get(t.rows[i], SY_DISTERR2)))
  }

  /** In every row, `radius_uncertainty` of `r` is the aggregated radius
      error of `t`. */
  ghost predicate RadiusUncertaintyColumn(t: Table, r: Table)
  {
    && RADIUS_UNCERTAINTY in r.columns
    && |r.rows| == |t.rows|
    && forall i :: 0 <= i < |t.rows| ==>
      Get(r.rows[i], RADIUS_UNCERTAINTY) == MeanAbsError(Get(t.rows[i], PL_RADEERR1), Get(t.rows[i], PL_RADEERR2))
  }

  /** A `distance_ly` column is `sy_dist * PARSEC_TO_LY` row by row, and is
      missing exactly where `sy_dist` is. */
  lemma DistanceLyColumnMeaning(t: Table, r: Table)
    requires DistanceLyColumn(t, r)
    ensures forall i :: 0 <= i < |r.rows| ==>
      && (Get(r.rows[i], DISTANCE_LY).Some? <==> Get(t.rows[i], SY_DIST).Some?)
      && (Get(t.rows[i], SY_DIST).Some? ==>
            Get(r.rows[i], DISTANCE_LY).value == Get(t.rows[i], SY_DIST).value * PARSEC_TO_LY)
  {
  }

  /** A `distance_uncertainty_ly` column is
      `((|sy_disterr1| + |sy_disterr2|) / 2) * PARSEC_TO_LY` row by row: never
      negative, and missing exactly where either error cell is. */
  lemma DistanceUncertaintyColumnMeaning(t: Table, r: Table)
    requires DistanceUncertaintyColumn(t, r)
    ensures forall i :: 0 <= i < |r.rows| ==>
      && (Get(r.rows[i], DISTANCE_UNCERTAINTY_LY).Some? <==>
            Get(t.rows[i], SY_DISTERR1).Some? && Get(t.rows[i], SY_DISTERR2).Some?)
      && (Get(r.rows[i], DISTANCE_UNCERTAINTY_LY).Some? ==>
            && Get(r.rows[i], DISTANCE_UNCERTAINTY_LY).value >= 0.0
            && Get(r.rows[i], DISTANCE_UNCERTAINTY_LY).value ==
                 (Abs(Get(t.rows[i], SY_DISTERR1).value) + Abs(Get(t.rows[i], SY_DISTERR2).value)) / 2.0 * PARSEC_TO_LY)
  {
  }

  /** A `radius_uncertainty` column is `(|pl_radeerr1| + |pl_radeerr2|) / 2`
      row by row: never negative, and missing exactly where either error cell
      is. */
  lemma RadiusUncertaintyColumnMeaning(t: Table, r: Table)
    requires RadiusUncertaintyColumn(t, r)
    ensures forall i :: 0 <= i < |r.rows| ==>
      && (Get(r.rows[i], RADIUS_UNCERTAINTY).Some? <==>
            Get(t.rows[i], PL_RADEERR1).Some? && Get(t.rows[i], PL_RADEERR2).Some?)
      && (Get(r.rows[i], RADIUS_UNCERTAINTY).Some? ==>
            && Get(r.rows[i], RADIUS_UNCERTAINTY).value >= 0.0
            && Get(r.rows[i], RADIUS_UNCERTAINTY).value ==
                 (Abs(Get(t.rows[i], PL_RADEERR1).value) + Abs(Get(t.rows[i], PL_RADEERR2).value)) / 2.0)
  {
  }

  /** The three columns the distance uncertainty is derived from. */
  predicate HasDistanceSources(t: Table)
  {
    SY_DIST in t.columns && SY_DISTERR1 in t.columns && SY_DISTERR2 in t.columns
  }

  /** The three columns the radius uncertainty is derived from. */
  predicate HasRadiusSources(t: Table)
  {
    PL_RADE in t.columns && PL_RADEERR1 in t.columns && PL_RADEERR2 in t.columns
  }

  // ---------------------------------------------------------------------
  // Cleaning and aggregation
  // ---------------------------------------------------------------------

  /** The series `df["sy_dist"] * PARSEC_TO_LY`. */
  function DistanceLySeries(t: Table): (s: seq<Option<real>>)
  {
    seq(|t.rows|, i requires 0 <= i < |t.rows| => ToLightYears(Get(t.rows[i], SY_DIST)))
  }

  /** The series `((df["sy_disterr1"].abs() + df["sy_disterr2"].abs()) / 2) * PARSEC_TO_LY`. */
  function DistanceUncertaintySeries(t: Table): (s: seq<Option<real>>)
  {
    seq(|t.rows|, i requires 0 <= i < |t.rows| =>
      ToLightYears(MeanAbsError(Get(t.rows[i], SY_DISTERR1), Get(t.rows[i], SY_DISTERR2))))
  }

  /** The series `(df["pl_radeerr1"].abs() + df["pl_radeerr2"].abs()) / 2`. */
  function RadiusUncertaintySeries(t: Table): (s: seq<Option<real>>)
  {
    seq(|t.rows|, i requires 0 <= i < |t.rows| =>
      MeanAbsError(Get(t.rows[i], PL_RADEERR1), Get(t.rows[i], PL_RADEERR2)))
  }

  /** `add_distance_ly`: without `sy_dist` the table comes back unchanged;
      otherwise it gains (or has overwritten) `distance_ly`, and nothing
      else changes. */
  function AddDistanceLy(t: Table): (r: Table)
    requires WellFormed(t)
    ensures WellFormed(r)
    ensures SY_DIST !in t.columns ==> r == t
    ensures SY_DIST in t.columns ==>
      && r.columns == Extend(t.columns, DISTANCE_LY)
      && SameCellsExcept(t, r, {DISTANCE_LY})
      && DistanceLyColumn(t, r)
  {
    if SY_DIST !in t.columns then t
    else Assign(t, DISTANCE_LY, DistanceLySeries(t))
  }

  /** `add_distance_and_uncertainty_ly`: without all three distance columns
      it is `add_distance_ly`; otherwise the table gains `distance_ly` and
      then `distance_uncertainty_ly`, and nothing else changes. */
  function AddDistanceAndUncertaintyLy(t: Table): (r: Table)
    requires WellFormed(t)
    ensures WellFormed(r)
    ensures !HasDistanceSources(t) ==> r == AddDistanceLy(t)
    ensures HasDistanceSources(t) ==>
      && r.columns == Extend(Extend(t.columns, DISTANCE_LY), DISTANCE_UNCERTAINTY_LY)
      && SameCellsExcept(t, r, {DISTANCE_LY, DISTANCE_UNCERTAINTY_LY})
      && DistanceLyColumn(t, r)
      && DistanceUncertaintyColumn(t, r)
  {
    if !HasDistanceSources(t) then AddDistanceLy(t)
    else
      var withDistance := Assign(t, DISTANCE_LY, DistanceLySeries(t));
      Assign(withDistance, DISTANCE_UNCERTAINTY_LY, DistanceUncertaintySeries(withDistance))
  }

  /** `add_radius_uncertainty`: without all three radius columns the table
      comes back unchanged; otherwise it gains `radius_uncertainty`, and
      nothing else changes. */
  function AddRadiusUncertainty(t: Table): (r: Table)
    requires WellFormed(t)
    ensures WellFormed(r)
    ensures !HasRadiusSources(t) ==> r == t
    ensures HasRadiusSources(t) ==>
      && r.columns == Extend(t.columns, RADIUS_UNCERTAINTY)
      && SameCellsExcept(t, r, {RADIUS_UNCERTAINTY})
      && RadiusUncertaintyColumn(t, r)
  {
    if !HasRadiusSources(t) then t
    else Assign(t, RADIUS_UNCERTAINTY, RadiusUncertaintySeries(t))
  }

  /** `drop_columns`: the schema loses the names of COLUMNS_TO_DROP and keeps
      the order of the rest; names that are not columns are ignored; the rows
      and their other cells are unchanged. */
  function DropColumns(t: Table): (r: Table)
    requires WellFormed(t)
    ensures WellFormed(r)
    ensures forall c :: c in r.columns <==> c in t.columns && c !in COLUMNS_TO_DROP
    ensures Subsequence(r.columns, t.columns)
    ensures SameCellsExcept(t, r, ColumnSet(COLUMNS_TO_DROP))
  {
    Drop(t, COLUMNS_TO_DROP)
  }

  /** `prepare_exoplanet_data`: drop the unneeded columns, then add the
      distance columns, then the radius uncertainty. */
  function PrepareExoplanetData(t: Table): (r: Table)
    requires WellFormed(t)
    ensures WellFormed(r)
    ensures |r.rows| == |t.rows|
    ensures forall c :: c in COLUMNS_TO_DROP ==> c !in r.columns
  {
    var dropped := DropColumns(t);
    var withDistance := AddDistanceAndUncertaintyLy(dropped);
    AddRadiusUncertainty(withDistance)
  }

  /** The columns `add_distance_and_uncertainty_ly` adds, and the cells it
      may change. */
  lemma AddDistanceAndUncertaintyLyEffect(t: Table)
    requires WellFormed(t)
    ensures var r := AddDistanceAndUncertaintyLy(t);
      && (forall c :: c in r.columns <==>
           || c in t.columns
           || (c == DISTANCE_LY && SY_DIST in t.columns)
           || (c == DISTANCE_UNCERTAINTY_LY && HasDistanceSources(t)))
      && SameCellsExcept(t, r, {DISTANCE_LY, DISTANCE_UNCERTAINTY_LY})
  {
  }

  /** The column `add_radius_uncertainty` adds, and the cells it may change. */
  lemma AddRadiusUncertaintyEffect(t: Table)
    requires WellFormed(t)
    ensures var r := AddRadiusUncertainty(t);
      && (forall c :: c in r.columns <==> c in t.columns || (c == RADIUS_UNCERTAINTY && HasRadiusSources(t)))
      && SameCellsExcept(t, r, {RADIUS_UNCERTAINTY})
  {
  }

  /** The derived columns are none of the source columns and none of the
      dropped ones, and no source column is dropped. */
  lemma DerivedNamesAreNew()
    ensures SY_DIST !in COLUMNS_TO_DROP && SY_DISTERR1 !in COLUMNS_TO_DROP && SY_DISTERR2 !in COLUMNS_TO_DROP
    ensures PL_RADE !in COLUMNS_TO_DROP && PL_RADEERR1 !in COLUMNS_TO_DROP && PL_RADEERR2 !in COLUMNS_TO_DROP
    ensures DISTANCE_LY !in COLUMNS_TO_DROP && DISTANCE_UNCERTAINTY_LY !in COLUMNS_TO_DROP
    ensures RADIUS_UNCERTAINTY !in COLUMNS_TO_DROP
    ensures DISTANCE_LY != DISTANCE_UNCERTAINTY_LY && DISTANCE_LY != RADIUS_UNCERTAINTY
    ensures DISTANCE_UNCERTAINTY_LY != RADIUS_UNCERTAINTY
    ensures SY_DIST != DISTANCE_LY && SY_DIST != DISTANCE_UNCERTAINTY_LY && SY_DIST != RADIUS_UNCERTAINTY
    ensures SY_DISTERR1 != DISTANCE_LY && SY_DISTERR1 != DISTANCE_UNCERTAINTY_LY && SY_DISTERR1 != RADIUS_UNCERTAINTY
    ensures SY_DISTERR2 != DISTANCE_LY && SY_DISTERR2 != DISTANCE_UNCERTAINTY_LY && SY_DISTERR2 != RADIUS_UNCERTAINTY
    ensures PL_RADE != DISTANCE_LY && PL_RADE != DISTANCE_UNCERTAINTY_LY && PL_RADE != RADIUS_UNCERTAINTY
    ensures PL_RADEERR1 != DISTANCE_LY && PL_RADEERR1 != DISTANCE_UNCERTAINTY_LY && PL_RADEERR1 != RADIUS_UNCERTAINTY
    ensures PL_RADEERR2 != DISTANCE_LY && PL_RADEERR2 != DISTANCE_UNCERTAINTY_LY && PL_RADEERR2 != RADIUS_UNCERTAINTY
  {
  }

  /** The schema of the prepared table, as a set: the kept input columns and
      each derived column whose sources are there. */
  lemma PrepareExoplanetDataColumns(t: Table)
    requires WellFormed(t)
    ensures forall c :: c in PrepareExoplanetData(t).columns <==>
      || (c in t.columns && c !in COLUMNS_TO_DROP)
      || (c == DISTANCE_LY && SY_DIST in t.columns)
      || (c == DISTANCE_UNCERTAINTY_LY && HasDistanceSources(t))
      || (c == RADIUS_UNCERTAINTY && HasRadiusSources(t))
  {
    PrepareExoplanetDataSchema(t);
  }

  /** The prepared schema starts with the kept input columns, in their input
      order; the derived columns come after them. */
  lemma PrepareExoplanetDataColumnOrder(t: Table)
    requires WellFormed(t)
    ensures var kept := Without(t.columns, COLUMNS_TO_DROP);
      |kept| <= |PrepareExoplanetData(t).columns| && PrepareExoplanetData(t).columns[..|kept|] == kept
  {
    var kept := Without(t.columns, COLUMNS_TO_DROP);
    var dropped := DropColumns(t);
    var withDistance := AddDistanceAndUncertaintyLy(dropped);
    assert dropped.columns == kept;
    assert kept[..|kept|] == kept;
    if HasDistanceSources(dropped) {
      ExtendKeepsPrefix(kept, kept, DISTANCE_LY);
      ExtendKeepsPrefix(kept, Extend(kept, DISTANCE_LY), DISTANCE_UNCERTAINTY_LY);
    } else if SY_DIST in dropped.columns {
      ExtendKeepsPrefix(kept, kept, DISTANCE_LY);
    }
    ExtendKeepsPrefix(kept, withDistance.columns, RADIUS_UNCERTAINTY);
  }

  /** The prepared schema exactly: the kept input columns in their order,
      extended by `distance_ly`, `distance_uncertainty_ly` and
      `radius_uncertainty` in that order, each when its sources are there. */
  lemma PrepareExoplanetDataSchema(t: Table)
    requires WellFormed(t)
    ensures var kept := Without(t.columns, COLUMNS_TO_DROP);
      var d := if HasDistanceSources(t) then Extend(Extend(kept, DISTANCE_LY), DISTANCE_UNCERTAINTY_LY)
        else if SY_DIST in t.columns then Extend(kept, DISTANCE_LY)
        else kept;
      PrepareExoplanetData(t).columns == if HasRadiusSources(t) then Extend(d, RADIUS_UNCERTAINTY) else d
  {
    var dropped := DropColumns(t);
    var withDistance := AddDistanceAndUncertaintyLy(dropped);
    DerivedNamesAreNew();
    assert dropped.columns == Without(t.columns, COLUMNS_TO_DROP);
    assert HasDistanceSources(dropped) == HasDistanceSources(t);
    assert (SY_DIST in dropped.columns) == (SY_DIST in t.columns);
    AddDistanceAndUncertaintyLyEffect(dropped);
    assert HasRadiusSources(withDistance) == HasRadiusSources(t);
  }

  /** Preparing changes no cell outside the dropped and the derived columns. */
  lemma PrepareExoplanetDataCells(t: Table)
    requires WellFormed(t)
    ensures SameCellsExcept(t, PrepareExoplanetData(t),
      ColumnSet(COLUMNS_TO_DROP) + {DISTANCE_LY, DISTANCE_UNCERTAINTY_LY, RADIUS_UNCERTAINTY})
  {
    var dropped := DropColumns(t);
    var withDistance := AddDistanceAndUncertaintyLy(dropped);
    var derivedDistance := {DISTANCE_LY, DISTANCE_UNCERTAINTY_LY};
    AddDistanceAndUncertaintyLyEffect(dropped);
    AddRadiusUncertaintyEffect(withDistance);
    SameCellsExceptTransitive(t, dropped, withDistance, ColumnSet(COLUMNS_TO_DROP), derivedDistance);
    SameCellsExceptTransitive(t, withDistance, AddRadiusUncertainty(withDistance),
      ColumnSet(COLUMNS_TO_DROP) + derivedDistance, {RADIUS_UNCERTAINTY});
    assert ColumnSet(COLUMNS_TO_DROP) + derivedDistance + {RADIUS_UNCERTAINTY} ==
      ColumnSet(COLUMNS_TO_DROP) + {DISTANCE_LY, DISTANCE_UNCERTAINTY_LY, RADIUS_UNCERTAINTY};
  }

  /** Removing the unneeded columns a second time changes nothing. */
  lemma DropColumnsIdempotent(t: Table)
    requires WellFormed(t)
    ensures DropColumns(DropColumns(t)) == DropColumns(t)
  {
    DropNothing(DropColumns(t), COLUMNS_TO_DROP);
  }

  /** A derived column survives later steps that leave it alone, and keeps
      agreeing with source cells that earlier steps left alone. */
  lemma DistanceColumnsCarried(t: Table, a: Table, b: Table, r: Table, x: set<string>, y: set<string>)
    requires SameCellsExcept(t, a, x) && SameCellsExcept(b, r, y)
    requires SY_DIST !in x && SY_DISTERR1 !in x && SY_DISTERR2 !in x
    requires DISTANCE_LY !in y && DISTANCE_UNCERTAINTY_LY !in y
    requires forall c :: c in b.columns ==> c in r.columns
    ensures DistanceLyColumn(a, b) ==> DistanceLyColumn(t, r)
    ensures DistanceUncertaintyColumn(a, b) ==> DistanceUncertaintyColumn(t, r)
  {
  }

  /** In the prepared table `distance_ly` holds, row by row, the input's
      `sy_dist` in light years. */
  lemma PrepareExoplanetDataDistance(t: Table)
    requires WellFormed(t) && SY_DIST in t.columns
    ensures DistanceLyColumn(t, PrepareExoplanetData(t))
  {
    var dropped := DropColumns(t);
    var withDistance := AddDistanceAndUncertaintyLy(dropped);
    var r := AddRadiusUncertainty(withDistance);
    AddRadiusUncertaintyEffect(withDistance);
    DerivedNamesAreNew();
    assert DistanceLyColumn(dropped, withDistance);
    DistanceColumnsCarried(t, dropped, withDistance, r, ColumnSet(COLUMNS_TO_DROP), {RADIUS_UNCERTAINTY});
  }

  /** In the prepared table `distance_uncertainty_ly` holds, row by row, the
      aggregated distance error of the input in light years. */
  lemma PrepareExoplanetDataDistanceUncertainty(t: Table)
    requires WellFormed(t) && HasDistanceSources(t)
    ensures DistanceUncertaintyColumn(t, PrepareExoplanetData(t))
  {
    var dropped := DropColumns(t);
    var withDistance := AddDistanceAndUncertaintyLy(dropped);
    var r := AddRadiusUncertainty(withDistance);
    AddRadiusUncertaintyEffect(withDistance);
    DerivedNamesAreNew();
    assert HasDistanceSources(dropped);
    assert DistanceUncertaintyColumn(dropped, withDistance);
    DistanceColumnsCarried(t, dropped, withDistance, r, ColumnSet(COLUMNS_TO_DROP), {RADIUS_UNCERTAINTY});
  }

  /** A radius uncertainty keeps agreeing with source cells that earlier
      steps left alone. */
  lemma RadiusColumnCarried(t: Table, a: Table, r: Table, x: set<string>)
    requires SameCellsExcept(t, a, x) && PL_RADEERR1 !in x && PL_RADEERR2 !in x
    requires RadiusUncertaintyColumn(a, r)
    ensures RadiusUncertaintyColumn(t, r)
  {
  }

  /** In the prepared table `radius_uncertainty` holds, row by row, the
      aggregated radius error of the input. */
  lemma PrepareExoplanetDataRadiusUncertainty(t: Table)
    requires WellFormed(t) && HasRadiusSources(t)
    ensures RadiusUncertaintyColumn(t, PrepareExoplanetData(t))
  {
    var dropped := DropColumns(t);
    var withDistance := AddDistanceAndUncertaintyLy(dropped);
    DerivedNamesAreNew();
    AddDistanceAndUncertaintyLyEffect(dropped);
    assert HasRadiusSources(withDistance);
    SameCellsExceptTransitive(t, dropped, withDistance, ColumnSet(COLUMNS_TO_DROP), {DISTANCE_LY, DISTANCE_UNCERTAINTY_LY});
    RadiusColumnCarried(t, withDistance, AddRadiusUncertainty(withDistance),
      ColumnSet(COLUMNS_TO_DROP) + {DISTANCE_LY, DISTANCE_UNCERTAINTY_LY});
  }

  /** A table whose distance columns already hold what their sources give. */
  ghost predicate DistanceDerived(x: Table)
  {
    && (SY_DIST in x.columns ==> DistanceLyColumn(x, x))
    && (HasDistanceSources(x) ==> DistanceUncertaintyColumn(x, x))
  }

  /** A table whose radius uncertainty already holds what its sources give. */
  ghost predicate RadiusDerived(x: Table)
  {
    HasRadiusSources(x) ==> RadiusUncertaintyColumn(x, x)
  }

  /** After the distance step its derived columns agree with their sources
      in the same table. */
  lemma AddDistanceAndUncertaintyLyDerives(t: Table)
    requires WellFormed(t)
    ensures DistanceDerived(AddDistanceAndUncertaintyLy(t))
  {
  }

  /** On a table whose distance columns are already derived the step writes
      back the values that are there, so it returns the table unchanged. */
  lemma AddDistanceAndUncertaintyLyFixed(x: Table)
    requires WellFormed(x) && DistanceDerived(x)
    ensures AddDistanceAndUncertaintyLy(x) == x
  {
    if SY_DIST in x.columns {
      AssignSameValues(x, DISTANCE_LY, DistanceLySeries(x));
    }
    if HasDistanceSources(x) {
      AssignSameValues(x, DISTANCE_UNCERTAINTY_LY, DistanceUncertaintySeries(x));
    }
  }

  /** After the radius step `radius_uncertainty` agrees with its error
      columns in the same table. */
  lemma AddRadiusUncertaintyDerives(t: Table)
    requires WellFormed(t)
    ensures RadiusDerived(AddRadiusUncertainty(t))
  {
  }

  /** The radius step leaves derived distance columns in agreement with
      their sources. */
  lemma AddRadiusUncertaintyKeepsDistance(x: Table)
    requires WellFormed(x) && DistanceDerived(x)
    ensures DistanceDerived(AddRadiusUncertainty(x))
  {
  }

  /** On a table whose radius uncertainty already agrees with its sources,
      the overwriting step changes nothing. */
  lemma AddRadiusUncertaintyFixed(x: Table)
    requires WellFormed(x) && RadiusDerived(x)
    ensures AddRadiusUncertainty(x) == x
  {
    if HasRadiusSources(x) {
      AssignSameValues(x, RADIUS_UNCERTAINTY, RadiusUncertaintySeries(x));
    }
  }

  /** Preparing a prepared table gives the same table: no dropped column is
      left, and every derived column is overwritten with the value it
      already holds. */
  lemma PrepareExoplanetDataIdempotent(t: Table)
    requires WellFormed(t)
    ensures PrepareExoplanetData(PrepareExoplanetData(t)) == PrepareExoplanetData(t)
  {
    var withDistance := AddDistanceAndUncertaintyLy(DropColumns(t));
    var prepared := AddRadiusUncertainty(withDistance);
    AddDistanceAndUncertaintyLyDerives(DropColumns(t));
    AddRadiusUncertaintyKeepsDistance(withDistance);
    AddRadiusUncertaintyDerives(withDistance);
    DropNothing(prepared, COLUMNS_TO_DROP);
    AddDistanceAndUncertaintyLyFixed(prepared);
    AddRadiusUncertaintyFixed(prepared);
  }

  // ---------------------------------------------------------------------
  // Subset creation
  // ---------------------------------------------------------------------

  /** `get_planets_with_distance`: raises when `distance_ly` is not a
      column; otherwise the rows with a distance. */
  function GetPlanetsWithDistance(t: Table): (r: Result<Table, SchemaError>)
    ensures r.Err? <==> DISTANCE_LY !in t.columns
    ensures r.Err? ==> r.error == ColumnNotFound(DISTANCE_LY)
    ensures r.Ok? ==> SelectedBy(t, r.value, [DISTANCE_LY])
    ensures r.Ok? && WellFormed(t) ==> WellFormed(r.value)
  {
    if DISTANCE_LY !in t.columns then Err(ColumnNotFound(DISTANCE_LY))
    else Ok(Select(t, [DISTANCE_LY]))
  }

  /** `get_planets_with_radius`: the empty table when `pl_rade` is not a
      column; otherwise the rows with a radius. */
  function GetPlanetsWithRadius(t: Table): (r: Table)
    ensures PL_RADE !in t.columns ==> r == EMPTY
    ensures PL_RADE in t.columns ==> SelectedBy(t, r, [PL_RADE])
    ensures WellFormed(t) ==> WellFormed(r)
  {
    if PL_RADE !in t.columns then EMPTY
    else Select(t, [PL_RADE])
  }

  /** `get_planets_with_distance_uncertainty`: the empty table unless both
      `distance_ly` and `distance_uncertainty_ly` are columns; otherwise the
      rows that have both values. */
  function GetPlanetsWithDistanceUncertainty(t: Table): (r: Table)
    ensures !(DISTANCE_LY in t.columns && DISTANCE_UNCERTAINTY_LY in t.columns) ==> r == EMPTY
    ensures DISTANCE_LY in t.columns && DISTANCE_UNCERTAINTY_LY in t.columns ==>
      SelectedBy(t, r, [DISTANCE_LY, DISTANCE_UNCERTAINTY_LY])
    ensures WellFormed(t) ==> WellFormed(r)
  {
    if !(DISTANCE_LY in t.columns && DISTANCE_UNCERTAINTY_LY in t.columns) then EMPTY
    else Select(t, [DISTANCE_LY, DISTANCE_UNCERTAINTY_LY])
  }

  /** `get_planets_with_radius_uncertainty`: the empty table unless both
      `pl_rade` and `radius_uncertainty` are columns; otherwise the rows that
      have both values. */
  function GetPlanetsWithRadiusUncertainty(t: Table): (r: Table)
    ensures !(PL_RADE in t.columns && RADIUS_UNCERTAINTY in t.columns) ==> r == EMPTY
    ensures PL_RADE in t.columns && RADIUS_UNCERTAINTY in t.columns ==>
      SelectedBy(t, r, [PL_RADE, RADIUS_UNCERTAINTY])
    ensures WellFormed(t) ==> WellFormed(r)
  {
    if !(PL_RADE in t.columns && RADIUS_UNCERTAINTY in t.columns) then EMPTY
    else Select(t, [PL_RADE, RADIUS_UNCERTAINTY])
  }

  // ---------------------------------------------------------------------
  // Preparation followed by subset creation
  // ---------------------------------------------------------------------

  /** Selecting the rows with a `distance_ly` derived from `sy_dist` keeps
      exactly the rows whose `sy_dist` is known. */
  lemma SelectedDistanceRows(t: Table, p: Table, s: Table, x: set<string>)
    requires DistanceLyColumn(t, p) && SameCellsExcept(t, p, x) && SY_DIST !in x
    requires SelectedBy(p, s, [DISTANCE_LY])
    ensures forall row :: row in s.rows ==> Get(row, SY_DIST).Some?
    ensures forall i :: 0 <= i < |t.rows| && Get(t.rows[i], SY_DIST).Some? ==> p.rows[i] in s.rows
  {
    forall row | row in s.rows
      ensures Get(row, SY_DIST).Some?
    {
      var i :| 0 <= i < |p.rows| && p.rows[i] == row;
      assert Get(p.rows[i], SY_DIST) == Get(t.rows[i], SY_DIST);
    }
    forall i | 0 <= i < |t.rows| && Get(t.rows[i], SY_DIST).Some?
      ensures p.rows[i] in s.rows
    {
      assert Complete(p.rows[i], [DISTANCE_LY]);
      assert multiset(p.rows)[p.rows[i]] > 0;
    }
  }

  /** After preparation every planet selected as having a distance has a
      known `sy_dist`, and every row of the input with a known `sy_dist` is
      selected. */
  lemma PreparedPlanetsWithDistance(t: Table)
    requires WellFormed(t) && SY_DIST in t.columns
    ensures GetPlanetsWithDistance(PrepareExoplanetData(t)).Ok?
    ensures forall row :: row in GetPlanetsWithDistance(PrepareExoplanetData(t)).value.rows ==>
      Get(row, SY_DIST).Some?
    ensures forall i :: 0 <= i < |t.rows| && Get(t.rows[i], SY_DIST).Some? ==>
      PrepareExoplanetData(t).rows[i] in GetPlanetsWithDistance(PrepareExoplanetData(t)).value.rows
  {
    var prepared := PrepareExoplanetData(t);
    PrepareExoplanetDataDistance(t);
    PrepareExoplanetDataCells(t);
    DerivedNamesAreNew();
    SelectedDistanceRows(t, prepared, GetPlanetsWithDistance(prepared).value,
      ColumnSet(COLUMNS_TO_DROP) + {DISTANCE_LY, DISTANCE_UNCERTAINTY_LY, RADIUS_UNCERTAINTY});
  }

  /** The radius uncertainty does not look at `pl_rade` itself: a row whose
      radius is missing but whose two error cells are known still gets a
      value, here `(|0.1| + |-0.2|) / 2 = 0.15`. */
  lemma RadiusUncertaintyWithoutRadius()
    ensures var row: Row := map[PL_RADE := None, PL_RADEERR1 := Some(0.1), PL_RADEERR2 := Some(-0.2)];
      var t := Table([PL_RADE, PL_RADEERR1, PL_RADEERR2], [row]);
      Get(AddRadiusUncertainty(t).rows[0], RADIUS_UNCERTAINTY) == Some(0.15)
  {
  }
}
