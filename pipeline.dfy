/**
 * The "Get Answer" button of app.py: a blank question gets a warning;
 * otherwise the question is interpreted and answered from the three tables,
 * and what the two steps produce together is stated here.
 */
module Pipeline {
  import opened Wrappers
  import opened Text
  import opened Tables
  import I = Interpreter
  import A = Answer

  /** The characters `str.strip` removes, over ASCII: blank, tab, line and page breaks, and the separators 28 to 31. */
  predicate IsSpace(c: char) {
    c == ' ' || (9 <= c as int <= 13) || (28 <= c as int <= 31)
  }

  /** `not query.strip()`: the question is nothing but white space. */
  predicate AllSpace(query: string) {
    forall i :: 0 <= i < |query| ==> IsSpace(query[i])
  }

  const EmptyWarning := "Please enter a question."

  /** What the page shows after the button is pressed. */
  datatype Screen = Warning(text: string) | Answered(answer: Result<string, Column>)

  /** The answer to a question: its interpretation handed to the answering step. */
  function Ask(query: string, crop: Table, rain: Table, merged: Table): A.Reply
    requires WellFormed(crop) && WellFormed(rain) && WellFormed(merged)
  {
    var it := I.Interpret(query);
    A.Respond(it.dataset, it.action, it.filters, crop, rain, merged)
  }

  /** The button's handler. */
  method GetAnswer(query: string, cropDf: Table, rainDf: Table, mergedDf: Table) returns (screen: Screen)
    requires WellFormed(cropDf) && WellFormed(rainDf) && WellFormed(mergedDf)
    ensures AllSpace(query) ==> screen == Warning(EmptyWarning)
    ensures !AllSpace(query) ==> screen == Answered(A.Render(Ask(query, cropDf, rainDf, mergedDf)))
  {
    if AllSpace(query) {
      screen := Warning(EmptyWarning);
    } else {
      var dataset, action, filters := I.UnderstandQuery(query);
      var answer := A.GenerateAnswer(dataset, action, filters, cropDf, rainDf, mergedDf);
      screen := Answered(answer);
    }
  }

  // ---------------------------------------------------------- properties

  /**
   * A question asking for a trend is never answered with trend data: the
   * interpreter never chooses the merged dataset, so the trend branch is
   * unreachable and the answer is "not available" or "no data".
   */
  lemma TrendNeverAnswered(query: string, crop: Table, rain: Table, merged: Table)
    requires WellFormed(crop) && WellFormed(rain) && WellFormed(merged)
    requires I.Interpret(query).action == I.Trend
    ensures var r := Ask(query, crop, rain, merged);
      r.NoData? || r == A.NotAvailable
  {
    I.DatasetChoice(query);
  }

  /**
   * A year in the question becomes a filter of 19 or 20, which no real year
   * equals: on a table with a year column every row is dropped, and the
   * answer is "no data".
   */
  lemma YearQuestionFindsNothing(query: string, crop: Table, rain: Table, merged: Table)
    requires WellFormed(crop) && WellFormed(rain) && WellFormed(merged)
    requires I.Interpret(query).filters.years.Some?
    requires var it := I.Interpret(query); var t := A.Select(it.dataset, crop, rain, merged).0;
      Year in t.columns && forall k :: 0 <= k < |t.rows| ==> t.rows[k].year.Some? && t.rows[k].year.value > 20
    ensures Ask(query, crop, rain, merged) == A.NoData(I.Interpret(query).filters)
  {
    var it := I.Interpret(query);
    var t := A.Select(it.dataset, crop, rain, merged).0;
    I.YearsFilter(Lower(query));
    A.FilteredRows(t, it.filters);
    var ys := it.filters.years.value;
    forall x | x in t.rows ensures !A.YearIn(x, ys) {
      var j :| 0 <= j < |t.rows| && t.rows[j] == x;
      assert x.year.value > 20;
    }
    var df := A.ApplyFilters(t, it.filters);
    assert multiset(df.rows) == multiset{};
    assert |df.rows| == |multiset(df.rows)| == 0;
  }

  /** Two questions that differ only in letter case get the same answer. */
  lemma AskCaseInsensitive(a: string, b: string, crop: Table, rain: Table, merged: Table)
    requires WellFormed(crop) && WellFormed(rain) && WellFormed(merged)
    requires I.SameUpToCase(a, b)
    ensures Ask(a, crop, rain, merged) == Ask(b, crop, rain, merged)
  {
    I.CaseInsensitive(a, b);
  }

  /**
   * When the `i`-th state of the list is the last one the question names,
   * every row behind the answer belongs to that state, up to letter case.
   */
  lemma StateQuestionRows(query: string, i: int, crop: Table, rain: Table, merged: Table)
    requires WellFormed(crop) && WellFormed(rain) && WellFormed(merged)
    requires I.LastHitAt(I.States, Lower(query), i)
    requires State in A.Select(I.Interpret(query).dataset, crop, rain, merged).0.columns
    ensures var it := I.Interpret(query); var rows := A.Filtered(it.dataset, it.filters, crop, rain, merged).rows;
      forall k :: 0 <= k < |rows| ==> rows[k].state.Some? && Lower(rows[k].state.value) == Lower(I.States[i])
  {
    var it := I.Interpret(query);
    var t := A.Select(it.dataset, crop, rain, merged).0;
    var rows := A.Filtered(it.dataset, it.filters, crop, rain, merged).rows;
    assert it.filters.state == Some(Title(I.States[i])) by {
      I.StateFilter(query);
      I.LastHitUnique(I.States, Lower(query), i);
    }
    var name := it.filters.state.value;
    assert Lower(name) == Lower(I.States[i]) by {
      LowerOfTitle(I.States[i]);
    }
    assert forall k :: 0 <= k < |rows| ==> A.StateIs(rows[k], name) by {
      FilteredByState(t, it.filters);
    }
    SameStateRows(rows, name, I.States[i]);
  }

  lemma SameStateRows(rows: seq<Row>, name: string, entry: string)
    requires forall k :: 0 <= k < |rows| ==> A.StateIs(rows[k], name)
    requires Lower(name) == Lower(entry)
    ensures forall k :: 0 <= k < |rows| ==> rows[k].state.Some? && Lower(rows[k].state.value) == Lower(entry)
  {
  }

  /** With a state filter on a table that has the state column, every kept row has that state, up to case. */
  lemma FilteredByState(t: Table, f: I.Filters)
    requires f.state.Some? && State in t.columns
    ensures var rows := A.ApplyFilters(t, f).rows;
      forall k :: 0 <= k < |rows| ==> A.StateIs(rows[k], f.state.value)
  {
    A.FilteredRows(t, f);
    var rows := A.ApplyFilters(t, f).rows;
    forall k | 0 <= k < |rows| ensures A.StateIs(rows[k], f.state.value) {
      assert rows[k] in rows;
    }
  }

  /**
   * A question asking for an average that names neither dataset falls through
   * to the merged table, where no average branch applies: when that table has
   * rows after filtering, the page shows an empty answer.
   */
  lemma AverageOfNeitherIsBlank(query: string, crop: Table, rain: Table, merged: Table)
    requires WellFormed(crop) && WellFormed(rain) && WellFormed(merged)
    requires I.Interpret(query).dataset == None && I.Interpret(query).action == I.Average
    requires !IsEmpty(A.Filtered(None, I.Interpret(query).filters, crop, rain, merged))
    ensures A.Render(Ask(query, crop, rain, merged)) == Success("")
  {
  }

  /** The question "mean" is one of those: it names no dataset, no state, no crop and no year. */
  lemma MeanIsBlank(crop: Table, rain: Table, merged: Table)
    requires WellFormed(crop) && WellFormed(rain) && WellFormed(merged)
    requires !IsEmpty(merged)
    ensures A.Render(Ask("mean", crop, rain, merged)) == Success("")
  {
    MeanIntent();
    AverageOfNeitherIsBlank("mean", crop, rain, merged);
  }

  lemma MeanIntent()
    ensures I.Interpret("mean") == I.Intent(None, I.Average, I.NoFilters)
  {
    var q := "mean";
    assert Lower(q) == q;
    MeanChoices();
    MeanFilters();
  }

  lemma MeanChoices()
    ensures I.ChooseDataset("mean") == None && I.ChooseAction("mean") == I.Average
  {
    var q := "mean";
    ContainsOnlyWithFirst(q, "rain");
    ContainsOnlyWithFirst(q, "imd");
    ContainsOnlyWithFirst(q, "crop");
    ContainsOnlyWithFirst(q, "top");
    ContainsOnlyWithFirst(q, "year");
    ContainsOnlyShorter(q, "production");
    ContainsOnlyShorter(q, "yield");
    ContainsOnlyShorter(q, "compare");
    ContainsOnlyShorter(q, "trend");
    ContainsOnlyShorter(q, "over time");
    assert Contains(q, "mean");
  }

  lemma MeanFilters()
    ensures I.LastMatch(I.States, "mean") == None && I.LastMatch(I.CropNames, "mean") == None
    ensures I.YearFilter("mean") == None
  {
    var q := "mean";
    forall i | 0 <= i < |I.States| ensures !Contains(q, I.States[i]) {
      ContainsOnlyShorter(q, I.States[i]);
    }
    forall i | 1 <= i < |I.CropNames| ensures !Contains(q, I.CropNames[i]) {
      ContainsOnlyShorter(q, I.CropNames[i]);
    }
    ContainsOnlyWithFirst(q, I.CropNames[0]);
    assert I.FindYears(q, 0) == [];
  }
}
