/**
 * `generate_answer` of app.py: pick a table and a source label, narrow the
 * table by the filters, then compute one aggregate according to the
 * action and the dataset, and word it as a sentence.
 */
module Answer {
  import opened Wrappers
  import opened Text
  import opened Tables
  import opened Aggregates
  import I = Interpreter

  /**
   * What `generate_answer` produces, before it is worded. `KeyError` is the
   * exception pandas raises when a branch reads a column the table lacks;
   * `Blank` is the initial `""` that survives when an average or maximum
   * branch finds nothing to do.
   */
  datatype Reply =
    | NoData(filters: I.Filters)
    | AverageRainfall(place: string, total: int, count: nat, source: string)
    | AverageProduction(place: string, total: int, count: nat, source: string)
    | HighestRainfall(state: string, rainfall: int, year: int, source: string)
    | HighestProduction(crop: string, state: string, production: int, year: int, source: string)
    | TopCrops(place: string, crops: seq<string>, source: string)
    | TrendReady(crop: string, place: string, source: string)
    | NotAvailable
    | Blank
    | KeyError(column: Column)

  const RainfallSource := "IMD 2017"
  const CropSource := "Agriculture Ministry 2022"
  const MergedSource := "IMD + Agriculture Ministry"

  /** The table and the source label for a dataset; anything but rainfall or crop means the merged table. */
  function Select(dataset: Option<I.Dataset>, crop: Table, rain: Table, merged: Table): (choice: (Table, string))
    ensures dataset == Some(I.Rainfall) <==> choice == (rain, RainfallSource)
    ensures dataset == Some(I.Crop) <==> choice == (crop, CropSource)
    ensures dataset != Some(I.Rainfall) && dataset != Some(I.Crop) <==> choice == (merged, MergedSource)
  {
    if dataset == Some(I.Rainfall) then (rain, RainfallSource)
    else if dataset == Some(I.Crop) then (crop, CropSource)
    else (merged, MergedSource)
  }

  // ------------------------------------------------------------ filtering

  /** `df["State"].str.lower() == name.lower()` for one row. */
  predicate StateIs(r: Row, name: string) {
    r.state.Some? && Lower(r.state.value) == Lower(name)
  }

  predicate CropIs(r: Row, name: string) {
    r.crop.Some? && Lower(r.crop.value) == Lower(name)
  }

  /** `df["Year"].isin(years)` for one row. */
  predicate YearIn(r: Row, years: seq<int>) {
    r.year.Some? && r.year.value in years
  }

  function WithState(t: Table, name: string): Table {
    Table(t.columns, Where(t.rows, r => StateIs(r, name)))
  }

  function WithCrop(t: Table, name: string): Table {
    Table(t.columns, Where(t.rows, r => CropIs(r, name)))
  }

  function WithYears(t: Table, years: seq<int>): Table {
    Table(t.columns, Where(t.rows, r => YearIn(r, years)))
  }

  /** A row passes every filter whose key is present and whose column the table has. */
  predicate Admits(f: I.Filters, columns: set<Column>, r: Row) {
    && (f.state.Some? && State in columns ==> StateIs(r, f.state.value))
    && (f.crop.Some? && Crop in columns ==> CropIs(r, f.crop.value))
    && (f.years.Some? && Year in columns ==> YearIn(r, f.years.value))
  }

  /** The three conditional narrowings of `df`, in the source's order. */
  function ApplyFilters(t: Table, f: I.Filters): (r: Table)
    ensures r.columns == t.columns
  {
    var a := if f.state.Some? && State in t.columns then WithState(t, f.state.value) else t;
    var b := if f.crop.Some? && Crop in a.columns then WithCrop(a, f.crop.value) else a;
    if f.years.Some? && Year in b.columns then WithYears(b, f.years.value) else b
  }

  /**
   * The filtered rows are a subsequence of the table's rows; a row is kept,
   * as often as it occurs, exactly when it passes every applicable filter.
   */
  lemma FilteredRows(t: Table, f: I.Filters)
    ensures Subsequence(ApplyFilters(t, f).rows, t.rows)
    ensures forall x :: multiset(ApplyFilters(t, f).rows)[x] == if Admits(f, t.columns, x) then multiset(t.rows)[x] else 0
    ensures forall x :: x in ApplyFilters(t, f).rows <==> x in t.rows && Admits(f, t.columns, x)
    ensures WellFormed(t) ==> WellFormed(ApplyFilters(t, f))
  {
    FilteredInOrder(t, f);
    FilteredCounts(t, f);
    var c := ApplyFilters(t, f);
    forall x ensures x in c.rows <==> x in t.rows && Admits(f, t.columns, x) {
      assert x in c.rows <==> multiset(c.rows)[x] > 0;
      assert x in t.rows <==> multiset(t.rows)[x] > 0;
    }
    if WellFormed(t) {
      forall i | 0 <= i < |c.rows| ensures Fits(c.rows[i], c.columns) {
        assert c.rows[i] in t.rows;
      }
    }
  }

  lemma FilteredInOrder(t: Table, f: I.Filters)
    ensures Subsequence(ApplyFilters(t, f).rows, t.rows)
  {
    var a := if f.state.Some? && State in t.columns then WithState(t, f.state.value) else t;
    var b := if f.crop.Some? && Crop in a.columns then WithCrop(a, f.crop.value) else a;
    var c := ApplyFilters(t, f);
    SubsequenceReflexive(a.rows);
    SubsequenceReflexive(b.rows);
    assert Subsequence(a.rows, t.rows) by { SubsequenceReflexive(t.rows); }
    assert Subsequence(b.rows, a.rows);
    assert Subsequence(c.rows, b.rows);
    SubsequenceTransitive(b.rows, a.rows, t.rows);
    SubsequenceTransitive(c.rows, b.rows, t.rows);
  }

  lemma FilteredCounts(t: Table, f: I.Filters)
    ensures forall x :: multiset(ApplyFilters(t, f).rows)[x] == if Admits(f, t.columns, x) then multiset(t.rows)[x] else 0
  {
    var a := if f.state.Some? && State in t.columns then WithState(t, f.state.value) else t;
    var b := if f.crop.Some? && Crop in a.columns then WithCrop(a, f.crop.value) else a;
    var c := ApplyFilters(t, f);
    forall x ensures multiset(c.rows)[x] == if Admits(f, t.columns, x) then multiset(t.rows)[x] else 0 {
      assert multiset(a.rows)[x] == if f.state.Some? && State in t.columns && !StateIs(x, f.state.value) then 0 else multiset(t.rows)[x];
      assert multiset(b.rows)[x] == if f.crop.Some? && Crop in t.columns && !CropIs(x, f.crop.value) then 0 else multiset(a.rows)[x];
      assert multiset(c.rows)[x] == if f.years.Some? && Year in t.columns && !YearIn(x, f.years.value) then 0 else multiset(b.rows)[x];
    }
  }

  // ------------------------------------------------------------ dispatch

  /** `filters.get('state', 'India')`. */
  function Place(f: I.Filters): string {
    f.state.GetOr("India")
  }

  /** `filters.get('crop', 'selected crop')`. */
  function CropLabel(f: I.Filters): string {
    f.crop.GetOr("selected crop")
  }

  /** The branches on the action and dataset, reached only with a non-empty filtered table. */
  function Dispatch(dataset: Option<I.Dataset>, action: I.Action, f: I.Filters, df: Table, source: string): Reply
    requires WellFormed(df) && !IsEmpty(df)
  {
    match action
    case Average =>
      if dataset == Some(I.Rainfall) && AnnualRainfall in df.columns then
        AverageRainfall(Place(f), Sum(RainfallValues(df.rows)), |df.rows|, source)
      else if dataset == Some(I.Crop) && Production in df.columns then
        AverageProduction(Place(f), Sum(ProductionValues(df.rows)), |df.rows|, source)
      else Blank
    case Max =>
      if dataset == Some(I.Rainfall) && AnnualRainfall in df.columns then
        var best := df.rows[ArgMax(RainfallValues(df.rows))];
        if State !in df.columns then KeyError(State)
        else if Year !in df.columns then KeyError(Year)
        else HighestRainfall(best.state.value, best.annualRainfall.value, best.year.value, source)
      else if dataset == Some(I.Crop) && Production in df.columns then
        var best := df.rows[ArgMax(ProductionValues(df.rows))];
        if Year !in df.columns then KeyError(Year)
        else if Crop !in df.columns then KeyError(Crop)
        else if State !in df.columns then KeyError(State)
        else HighestProduction(best.crop.value, best.state.value, best.production.value, best.year.value, source)
      else Blank
    case Top =>
      if dataset == Some(I.Crop) && Production in df.columns then
        if Crop !in df.columns then KeyError(Crop)
        else TopCrops(Place(f), TopThree(df.rows), source)
      else NotAvailable
    case Trend =>
      if dataset == Some(I.Merged) then
        if Year !in df.columns then KeyError(Year)
        else if AnnualRainfall !in df.columns then KeyError(AnnualRainfall)
        else if Production !in df.columns then KeyError(Production)
        else TrendReady(CropLabel(f), Place(f), source)
      else NotAvailable
    case _ => NotAvailable
  }

  /** Filtering keeps a table rectangular (the part of `FilteredRows` the answer needs). */
  lemma FilteredWellFormed(t: Table, f: I.Filters)
    requires WellFormed(t)
    ensures WellFormed(ApplyFilters(t, f))
  {
    FilteredRows(t, f);
  }

  /** The selected table after filtering. */
  function Filtered(dataset: Option<I.Dataset>, f: I.Filters, crop: Table, rain: Table, merged: Table): Table {
    ApplyFilters(Select(dataset, crop, rain, merged).0, f)
  }

  /** What `generate_answer(dataset, action, filters, crop_df, rain_df, merged_df)` produces. */
  function Respond(dataset: Option<I.Dataset>, action: I.Action, f: I.Filters,
                   crop: Table, rain: Table, merged: Table): Reply
    requires WellFormed(crop) && WellFormed(rain) && WellFormed(merged)
  {
    var (t, source) := Select(dataset, crop, rain, merged);
    var df := ApplyFilters(t, f);
    FilteredWellFormed(t, f);
    if IsEmpty(df) then NoData(f) else Dispatch(dataset, action, f, df, source)
  }

  // ------------------------------------------------------------- wording

  /** Python's `repr` of a string without quotes or backslashes in it. */
  function Quoted(s: string): string {
    "'" + s + "'"
  }

  function IntsText(xs: seq<int>): seq<string> {
    if xs == [] then [] else [IntToString(xs[0])] + IntsText(xs[1..])
  }

  /** `str(filters)`: the present keys in insertion order, state, crop, years. */
  function FiltersText(f: I.Filters): string {
    var entries :=
      (if f.state.Some? then ["'state': " + Quoted(f.state.value)] else [])
      + (if f.crop.Some? then ["'crop': " + Quoted(f.crop.value)] else [])
      + (if f.years.Some? then ["'years': [" + Join(", ", IntsText(f.years.value)) + "]"] else []);
    "{" + Join(", ", entries) + "}"
  }

  /**
   * `round(total / count, 2)` as `str` prints it: the nearest hundredth,
   * with a trailing zero digit dropped and at least one decimal kept; the
   * mean of no values is NaN.
   */
  function MeanText(total: int, count: nat): string {
    if count == 0 then "nan" else
    var cents := (200 * total + count) / (2 * count);
    var magnitude := if cents < 0 then -cents else cents;
    var frac := magnitude % 100;
    (if cents < 0 then "-" else "") + NatToString(magnitude / 100) + "."
      + (if frac % 10 == 0 then [DigitChar(frac / 10)] else [DigitChar(frac / 10), DigitChar(frac % 10)])
  }

  function NoDataText(f: I.Filters): string {
    "No data found for this query (filters: " + FiltersText(f) + ")."
  }

  const NotAvailableText := "Answer not available in dataset"

  /**
   * The f-strings of app.py. The answer is empty only for `Blank`, and
   * a failure is exactly the raised `KeyError`.
   */
  function Render(reply: Reply): (r: Result<string, Column>)
    ensures r.Failure? <==> reply.KeyError?
    ensures reply.KeyError? ==> r.error == reply.column
    ensures r == Success("") <==> reply.Blank?
    ensures reply == NotAvailable ==> r == Success(NotAvailableText)
  {
    match reply
    case NoData(f) => Success(NoDataText(f))
    case AverageRainfall(place, total, count, source) =>
      Success("Average rainfall in " + place + " = " + MeanText(total, count) + " mm (source: " + source + ")")
    case AverageProduction(place, total, count, source) =>
      Success("Average crop production in " + place + " = " + MeanText(total, count) + " tons (source: " + source + ")")
    case HighestRainfall(state, rainfall, year, source) =>
      Success("Highest rainfall in " + state + " = " + IntToString(rainfall) + " mm, Year = "
              + IntToString(year) + " (source: " + source + ")")
    case HighestProduction(crop, state, production, year, source) =>
      var yearText := IntToString(year);
      Success("Highest " + crop + " production in " + state + " = " + IntToString(production)
              + " tons, Year = " + (if |yearText| <= 4 then yearText else yearText[..4]) + " (source: " + source + ")")
    case TopCrops(place, crops, source) =>
      Success("Top crops in " + place + " = " + Join(", ", crops) + " (source: " + source + ")")
    case TrendReady(crop, place, source) =>
      Success("Trend data ready for " + crop + " in " + place + " (source: " + source + ")")
    case NotAvailable => Success(NotAvailableText)
    case Blank => Success("")
    case KeyError(c) => Failure(c)
  }

  // -------------------------------------------------------------- method

  /**
   * The branches of `generate_answer` after filtering: which answer `df` gives
   * for the action, the answer staying empty where no branch applies.
   */
  method AnswerFor(dataset: Option<I.Dataset>, action: I.Action, filters: I.Filters, df: Table, source: string)
    returns (reply: Reply)
    requires WellFormed(df)
    ensures IsEmpty(df) ==> reply == NoData(filters)
    ensures !IsEmpty(df) ==> reply == Dispatch(dataset, action, filters, df, source)
  {
    reply := Blank;
    if IsEmpty(df) {
      reply := NoData(filters);
    } else if action == I.Average {
      if dataset == Some(I.Rainfall) && AnnualRainfall in df.columns {
        reply := AverageRainfall(Place(filters), Sum(RainfallValues(df.rows)), |df.rows|, source);
      } else if dataset == Some(I.Crop) && Production in df.columns {
        reply := AverageProduction(Place(filters), Sum(ProductionValues(df.rows)), |df.rows|, source);
      }
    } else if action == I.Max {
      if dataset == Some(I.Rainfall) && AnnualRainfall in df.columns {
        var best := df.rows[ArgMax(RainfallValues(df.rows))];
        if State !in df.columns {
          reply := KeyError(State);
        } else if Year !in df.columns {
          reply := KeyError(Year);
        } else {
          reply := HighestRainfall(best.state.value, best.annualRainfall.value, best.year.value, source);
        }
      } else if dataset == Some(I.Crop) && Production in df.columns {
        var best := df.rows[ArgMax(ProductionValues(df.rows))];
        if Year !in df.columns {
          reply := KeyError(Year);
        } else if Crop !in df.columns {
          reply := KeyError(Crop);
        } else if State !in df.columns {
          reply := KeyError(State);
        } else {
          reply := HighestProduction(best.crop.value, best.state.value, best.production.value, best.year.value, source);
        }
      }
    } else if action == I.Top && dataset == Some(I.Crop) && Production in df.columns {
      if Crop !in df.columns {
        reply := KeyError(Crop);
      } else {
        reply := TopCrops(Place(filters), TopThree(df.rows), source);
      }
    } else if action == I.Trend && dataset == Some(I.Merged) {
      if Year !in df.columns {
        reply := KeyError(Year);
      } else if AnnualRainfall !in df.columns {
        reply := KeyError(AnnualRainfall);
      } else if Production !in df.columns {
        reply := KeyError(Production);
      } else {
        reply := TrendReady(CropLabel(filters), Place(filters), source);
      }
    } else {
      reply := NotAvailable;
    }
  }

  /**
   * `generate_answer`, reassigning `df` and the answer as the source does;
   * `reply` is `result` before it is worded, and starts as the empty answer.
   */
  method GenerateAnswer(dataset: Option<I.Dataset>, action: I.Action, filters: I.Filters,
                        cropDf: Table, rainDf: Table, mergedDf: Table)
    returns (result: Result<string, Column>)
    requires WellFormed(cropDf) && WellFormed(rainDf) && WellFormed(mergedDf)
    ensures result == Render(Respond(dataset, action, filters, cropDf, rainDf, mergedDf))
    ensures IsEmpty(Filtered(dataset, filters, cropDf, rainDf, mergedDf)) ==> result == Success(NoDataText(filters))
  {
    var df: Table;
    var source: string;
    if dataset == Some(I.Rainfall) {
      df, source := rainDf, RainfallSource;
    } else if dataset == Some(I.Crop) {
      df, source := cropDf, CropSource;
    } else {
      df, source := mergedDf, MergedSource;
    }
    ghost var selected := df;
    assert (selected, source) == Select(dataset, cropDf, rainDf, mergedDf);
    FilteredWellFormed(df, filters);

    if filters.state.Some? && State in df.columns {
      df := WithState(df, filters.state.value);
    }
    if filters.crop.Some? && Crop in df.columns {
      df := WithCrop(df, filters.crop.value);
    }
    if filters.years.Some? && Year in df.columns {
      df := WithYears(df, filters.years.value);
    }
    assert df == ApplyFilters(selected, filters) == Filtered(dataset, filters, cropDf, rainDf, mergedDf);

    var reply := AnswerFor(dataset, action, filters, df, source);
    assert reply == Respond(dataset, action, filters, cropDf, rainDf, mergedDf);
    result := Render(reply);
  }

  // ---------------------------------------------------------- properties

  /** The filtered table is empty: the answer is the no-data message, whatever the action. */
  lemma EmptyResultFirst(dataset: Option<I.Dataset>, action: I.Action, f: I.Filters, crop: Table, rain: Table, merged: Table)
    requires WellFormed(crop) && WellFormed(rain) && WellFormed(merged)
    requires IsEmpty(Filtered(dataset, f, crop, rain, merged))
    ensures Respond(dataset, action, f, crop, rain, merged) == NoData(f)
    ensures Render(Respond(dataset, action, f, crop, rain, merged)) == Success(NoDataText(f))
  {
  }

  /** `s[k]` is the first element of `s` that attains its maximum. */
  ghost predicate FirstMaximum(s: seq<int>, k: int) {
    0 <= k < |s| && (forall j :: 0 <= j < |s| ==> s[j] <= s[k]) && (forall j :: 0 <= j < k ==> s[j] < s[k])
  }

  /** On a non-empty filtered frame the answer is what the branch chain gives for it. */
  lemma RespondIsDispatch(dataset: Option<I.Dataset>, action: I.Action, f: I.Filters, crop: Table, rain: Table, merged: Table)
    requires WellFormed(crop) && WellFormed(rain) && WellFormed(merged)
    requires !IsEmpty(Filtered(dataset, f, crop, rain, merged))
    ensures WellFormed(Filtered(dataset, f, crop, rain, merged))
    ensures Respond(dataset, action, f, crop, rain, merged)
         == Dispatch(dataset, action, f, Filtered(dataset, f, crop, rain, merged), Select(dataset, crop, rain, merged).1)
  {
    FilteredWellFormed(Select(dataset, crop, rain, merged).0, f);
  }

  /** The highest-rainfall answer reports the first filtered row of maximal rainfall. */
  lemma MaxRainfallReport(f: I.Filters, crop: Table, rain: Table, merged: Table)
    requires WellFormed(crop) && WellFormed(rain) && WellFormed(merged)
    requires !IsEmpty(Filtered(Some(I.Rainfall), f, crop, rain, merged))
    requires AnnualRainfall in rain.columns && State in rain.columns && Year in rain.columns
    ensures var r := Respond(Some(I.Rainfall), I.Max, f, crop, rain, merged);
            var rows := Filtered(Some(I.Rainfall), f, crop, rain, merged).rows;
      && r.HighestRainfall? && r.source == RainfallSource
      && exists k :: FirstMaximum(RainfallValues(rows), k)
           && rows[k].state == Some(r.state) && rows[k].annualRainfall == Some(r.rainfall) && rows[k].year == Some(r.year)
  {
    RespondIsDispatch(Some(I.Rainfall), I.Max, f, crop, rain, merged);
    DispatchMaxRainfall(f, Filtered(Some(I.Rainfall), f, crop, rain, merged), RainfallSource);
  }

  lemma DispatchMaxRainfall(f: I.Filters, df: Table, source: string)
    requires WellFormed(df) && !IsEmpty(df)
    requires AnnualRainfall in df.columns && State in df.columns && Year in df.columns
    ensures var r := Dispatch(Some(I.Rainfall), I.Max, f, df, source);
      && r.HighestRainfall? && r.source == source
      && exists k :: FirstMaximum(RainfallValues(df.rows), k)
           && df.rows[k].state == Some(r.state) && df.rows[k].annualRainfall == Some(r.rainfall) && df.rows[k].year == Some(r.year)
  {
    var k := ArgMax(RainfallValues(df.rows));
    assert FirstMaximum(RainfallValues(df.rows), k);
    assert Fits(df.rows[k], df.columns);
  }

  /** The highest-production answer reports the first filtered row of maximal production. */
  lemma MaxProductionReport(f: I.Filters, crop: Table, rain: Table, merged: Table)
    requires WellFormed(crop) && WellFormed(rain) && WellFormed(merged)
    requires !IsEmpty(Filtered(Some(I.Crop), f, crop, rain, merged))
    requires Production in crop.columns && Year in crop.columns && Crop in crop.columns && State in crop.columns
    ensures var r := Respond(Some(I.Crop), I.Max, f, crop, rain, merged);
            var rows := Filtered(Some(I.Crop), f, crop, rain, merged).rows;
      && r.HighestProduction? && r.source == CropSource
      && exists k :: FirstMaximum(ProductionValues(rows), k)
           && rows[k].crop == Some(r.crop) && rows[k].state == Some(r.state)
           && rows[k].production == Some(r.production) && rows[k].year == Some(r.year)
  {
    RespondIsDispatch(Some(I.Crop), I.Max, f, crop, rain, merged);
    DispatchMaxProduction(f, Filtered(Some(I.Crop), f, crop, rain, merged), CropSource);
  }

  lemma DispatchMaxProduction(f: I.Filters, df: Table, source: string)
    requires WellFormed(df) && !IsEmpty(df)
    requires Production in df.columns && Year in df.columns && Crop in df.columns && State in df.columns
    ensures var r := Dispatch(Some(I.Crop), I.Max, f, df, source);
      && r.HighestProduction? && r.source == source
      && exists k :: FirstMaximum(ProductionValues(df.rows), k)
           && df.rows[k].crop == Some(r.crop) && df.rows[k].state == Some(r.state)
           && df.rows[k].production == Some(r.production) && df.rows[k].year == Some(r.year)
  {
    var k := ArgMax(ProductionValues(df.rows));
    assert FirstMaximum(ProductionValues(df.rows), k);
    assert Fits(df.rows[k], df.columns);
  }

  /**
   * The top-crops answer lists at most three distinct crops of the filtered
   * rows, by non-increasing summed production, and leaves out no crop that
   * sums to more than the last one listed.
   */
  lemma TopCropsReport(f: I.Filters, crop: Table, rain: Table, merged: Table)
    requires WellFormed(crop) && WellFormed(rain) && WellFormed(merged)
    requires !IsEmpty(Filtered(Some(I.Crop), f, crop, rain, merged))
    requires Production in crop.columns && Crop in crop.columns
    ensures var r := Respond(Some(I.Crop), I.Top, f, crop, rain, merged);
            var rows := Filtered(Some(I.Crop), f, crop, rain, merged).rows;
      && r.TopCrops? && r.place == Place(f) && r.source == CropSource
      && |r.crops| <= 3 && Distinct(r.crops)
      && (forall i :: 0 <= i < |r.crops| ==> Grown(rows, r.crops[i]))
      && (forall i, j :: 0 <= i < j < |r.crops| ==> CropTotal(rows, r.crops[i]) >= CropTotal(rows, r.crops[j]))
      && (forall c :: Grown(rows, c) && c !in r.crops ==> |r.crops| == 3 && CropTotal(rows, c) <= CropTotal(rows, r.crops[2]))
  {
  }

  /** The average answers carry the sum and the number of the filtered measures. */
  lemma AverageReport(dataset: Option<I.Dataset>, f: I.Filters, crop: Table, rain: Table, merged: Table)
    requires WellFormed(crop) && WellFormed(rain) && WellFormed(merged)
    requires !IsEmpty(Filtered(dataset, f, crop, rain, merged))
    ensures var r := Respond(dataset, I.Average, f, crop, rain, merged);
            var rows := Filtered(dataset, f, crop, rain, merged).rows;
      && (dataset == Some(I.Rainfall) && AnnualRainfall in rain.columns ==>
            r == AverageRainfall(Place(f), Sum(RainfallValues(rows)), |rows|, RainfallSource) && |rows| > 0)
      && (dataset == Some(I.Crop) && Production in crop.columns ==>
            r == AverageProduction(Place(f), Sum(ProductionValues(rows)), |rows|, CropSource) && |rows| > 0)
  {
  }

  /** The columns a branch reads beyond the one its guard tests. */
  function ReadColumns(dataset: Option<I.Dataset>, action: I.Action, columns: set<Column>): set<Column> {
    if action == I.Max && dataset == Some(I.Rainfall) && AnnualRainfall in columns then {State, Year}
    else if action == I.Max && dataset == Some(I.Crop) && Production in columns then {Year, Crop, State}
    else if action == I.Top && dataset == Some(I.Crop) && Production in columns then {Crop}
    else if action == I.Trend && dataset == Some(I.Merged) then {Year, AnnualRainfall, Production}
    else {}
  }

  /** A `KeyError` is raised exactly when the branch taken reads a column the table lacks, and it names one. */
  lemma KeyErrorExactly(dataset: Option<I.Dataset>, action: I.Action, f: I.Filters, crop: Table, rain: Table, merged: Table)
    requires WellFormed(crop) && WellFormed(rain) && WellFormed(merged)
    ensures var r := Respond(dataset, action, f, crop, rain, merged);
            var df := Filtered(dataset, f, crop, rain, merged);
      && (r.KeyError? <==> !IsEmpty(df) && !(ReadColumns(dataset, action, df.columns) <= df.columns))
      && (r.KeyError? ==> r.column in ReadColumns(dataset, action, df.columns) && r.column !in df.columns)
  {
    var df := Filtered(dataset, f, crop, rain, merged);
    if !IsEmpty(df) {
      RespondIsDispatch(dataset, action, f, crop, rain, merged);
      DispatchKeyError(dataset, action, f, df, Select(dataset, crop, rain, merged).1);
    }
  }

  /** The same, for the branch chain on a non-empty frame. */
  lemma DispatchKeyError(dataset: Option<I.Dataset>, action: I.Action, f: I.Filters, df: Table, source: string)
    requires WellFormed(df) && !IsEmpty(df)
    ensures var r := Dispatch(dataset, action, f, df, source);
      && (r.KeyError? <==> !(ReadColumns(dataset, action, df.columns) <= df.columns))
      && (r.KeyError? ==> r.column in ReadColumns(dataset, action, df.columns) && r.column !in df.columns)
  {
    var needed := ReadColumns(dataset, action, df.columns);
    if action == I.Max && dataset == Some(I.Rainfall) && AnnualRainfall in df.columns {
      assert needed == {State, Year};
    } else if action == I.Max && dataset == Some(I.Crop) && Production in df.columns {
      assert needed == {Year, Crop, State};
    } else if action == I.Top && dataset == Some(I.Crop) && Production in df.columns {
      assert needed == {Crop};
    } else if action == I.Trend && dataset == Some(I.Merged) {
      assert needed == {Year, AnnualRainfall, Production};
    } else {
      assert needed == {};
      assert !Dispatch(dataset, action, f, df, source).KeyError?;
    }
  }

  /**
   * The empty answer: an average or a maximum whose dataset is neither
   * rainfall nor crop, or whose measure column is missing.
   */
  lemma BlankExactly(dataset: Option<I.Dataset>, action: I.Action, f: I.Filters, crop: Table, rain: Table, merged: Table)
    requires WellFormed(crop) && WellFormed(rain) && WellFormed(merged)
    ensures var df := Filtered(dataset, f, crop, rain, merged);
      Respond(dataset, action, f, crop, rain, merged) == Blank <==>
        && !IsEmpty(df)
        && (action == I.Average || action == I.Max)
        && !(dataset == Some(I.Rainfall) && AnnualRainfall in df.columns)
        && !(dataset == Some(I.Crop) && Production in df.columns)
  {
  }

  /** "Answer not available" is the answer for every other combination no branch covers. */
  lemma NotAvailableExactly(dataset: Option<I.Dataset>, action: I.Action, f: I.Filters, crop: Table, rain: Table, merged: Table)
    requires WellFormed(crop) && WellFormed(rain) && WellFormed(merged)
    ensures var df := Filtered(dataset, f, crop, rain, merged);
      Respond(dataset, action, f, crop, rain, merged) == NotAvailable <==>
        && !IsEmpty(df)
        && action != I.Average && action != I.Max
        && !(action == I.Top && dataset == Some(I.Crop) && Production in df.columns)
        && !(action == I.Trend && dataset == Some(I.Merged))
  {
  }

  /** The trend answer for the merged dataset names the filtered crop and state. */
  lemma TrendReport(f: I.Filters, crop: Table, rain: Table, merged: Table)
    requires WellFormed(crop) && WellFormed(rain) && WellFormed(merged)
    requires !IsEmpty(Filtered(Some(I.Merged), f, crop, rain, merged))
    requires Year in merged.columns && AnnualRainfall in merged.columns && Production in merged.columns
    ensures Respond(Some(I.Merged), I.Trend, f, crop, rain, merged) == TrendReady(CropLabel(f), Place(f), MergedSource)
  {
  }
}
