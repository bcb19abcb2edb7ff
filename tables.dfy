/**
 * The three data frames of app.py, seen as a set of present columns and a
 * sequence of rows, and the boolean-mask selection `df[mask]`.
 */
module Tables {
  import opened Wrappers

  /** The normalised column names the core reads. */
  datatype Column = State | Year | Crop | AnnualRainfall | Production

  /**
   * One row. A field is `Some` when the table has that column; the float
   * measures are integers here.
   */
  datatype Row = Row(state: Option<string>, year: Option<int>, crop: Option<string>,
                     annualRainfall: Option<int>, production: Option<int>)

  datatype Table = Table(columns: set<Column>, rows: seq<Row>)

  /** A row carries exactly the columns of its table. */
  predicate Fits(r: Row, columns: set<Column>) {
    && (r.state.Some? <==> State in columns)
    && (r.year.Some? <==> Year in columns)
    && (r.crop.Some? <==> Crop in columns)
    && (r.annualRainfall.Some? <==> AnnualRainfall in columns)
    && (r.production.Some? <==> Production in columns)
  }

  /** A data frame is rectangular: every row has every column of the table, and no other. */
  predicate WellFormed(t: Table) {
    forall i :: 0 <= i < |t.rows| ==> Fits(t.rows[i], t.columns)
  }

  /**
   * `df.empty`: true when either axis has length zero. A frame read from a
   * CSV file has columns, possibly none of the five modelled here, and
   * masking keeps every column, so only the rows decide.
   */
  predicate IsEmpty(t: Table) {
    |t.rows| == 0
  }

  /** `r` is `s` with some elements left out and the rest in their original order. */
  ghost predicate Subsequence(r: seq<Row>, s: seq<Row>)
    decreases |s|
  {
    if r == [] then true
    else if s == [] then false
    else (r[0] == s[0] && Subsequence(r[1..], s[1..])) || Subsequence(r, s[1..])
  }

  lemma {:induction false} SubsequenceTransitive(a: seq<Row>, b: seq<Row>, c: seq<Row>)
    requires Subsequence(a, b) && Subsequence(b, c)
    ensures Subsequence(a, c)
    decreases |c|
  {
    if a != [] && c != [] {
      assert b != [];
      if b[0] == c[0] && Subsequence(b[1..], c[1..]) {
        if a[0] == b[0] && Subsequence(a[1..], b[1..]) {
          SubsequenceTransitive(a[1..], b[1..], c[1..]);
        } else {
          SubsequenceTransitive(a, b[1..], c[1..]);
        }
      } else {
        SubsequenceTransitive(a, b, c[1..]);
      }
    }
  }

  lemma {:induction false} SubsequenceReflexive(s: seq<Row>)
    ensures Subsequence(s, s)
  {
    if s != [] {
      SubsequenceReflexive(s[1..]);
    }
  }

  /**
   * `df[mask]` for the mask `p`: the rows that satisfy `p`, in order. Every
   * row satisfying `p` is kept as often as it occurs, every other row dropped.
   */
  function Where(rows: seq<Row>, p: Row -> bool): (kept: seq<Row>)
    ensures Subsequence(kept, rows)
    ensures forall x :: multiset(kept)[x] == if p(x) then multiset(rows)[x] else 0
    ensures forall x :: x in kept <==> x in rows && p(x)
  {
    if rows == [] then []
    else
      var rest := Where(rows[1..], p);
      assert rows == [rows[0]] + rows[1..];
      if p(rows[0]) then
        assert ([rows[0]] + rest)[1..] == rest;
        [rows[0]] + rest
      else
        rest
  }

  lemma WhereWellFormed(t: Table, p: Row -> bool)
    requires WellFormed(t)
    ensures WellFormed(Table(t.columns, Where(t.rows, p)))
  {
    var kept := Where(t.rows, p);
    forall i | 0 <= i < |kept| ensures Fits(kept[i], t.columns) {
      assert kept[i] in t.rows;
    }
  }
}
