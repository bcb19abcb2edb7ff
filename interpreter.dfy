/**
 * `understand_query` of app.py: a free-text question becomes a dataset
 * choice, an action and a set of filters, by substring tests on the
 * lower-cased question.
 */
module Interpreter {
  import opened Wrappers
  import opened Text

  datatype Dataset = Rainfall | Crop | Merged

  /** The action is always one of these seven; the source never leaves it unset. */
  datatype Action = Compare | Top | Trend | Average | Max | Min | General

  /**
   * The `filters` dictionary. Each key is present or absent; when present,
   * `state` and `crop` hold a title-cased name and `years` the list of
   * values `re.findall` returned.
   */
  datatype Filters = Filters(state: Option<string>, crop: Option<string>, years: Option<seq<int>>)

  const NoFilters := Filters(None, None, None)

  /** The triple `(dataset, action, filters)` that `understand_query` returns. */
  datatype Intent = Intent(dataset: Option<Dataset>, action: Action, filters: Filters)

  const States: seq<string> := [
    "uttar pradesh", "madhya pradesh", "maharashtra", "tamil nadu",
    "karnataka", "bihar", "gujarat", "west bengal", "andhra pradesh",
    "rajasthan", "kerala", "punjab", "haryana", "odisha", "jharkhand"
  ]

  const CropNames: seq<string> := ["rice", "wheat", "sugarcane", "maize", "cotton", "pulses", "millets"]

  // ---------------------------------------------------------------- dataset

  /** The dataset chain, tried in the source's order; `q` is already lower-cased. */
  function ChooseDataset(q: string): Option<Dataset> {
    if Contains(q, "rain") || Contains(q, "imd") then Some(Rainfall)
    else if Contains(q, "crop") || Contains(q, "production") || Contains(q, "yield") then Some(Crop)
    else if Contains(q, "rainfall") && Contains(q, "crop") then Some(Merged)
    else None
  }

  // ----------------------------------------------------------------- action

  /** The action chain, tried in the source's order; `q` is already lower-cased. */
  function ChooseAction(q: string): Action {
    if Contains(q, "compare") then Compare
    else if Contains(q, "top") then Top
    else if Contains(q, "trend") || Contains(q, "year") || Contains(q, "over time") then Trend
    else if Contains(q, "average") || Contains(q, "mean") then Average
    else if Contains(q, "max") || Contains(q, "highest") then Max
    else if Contains(q, "min") || Contains(q, "lowest") then Min
    else General
  }

  /** One row of a keyword decision table: any of `keywords` selects `action`. */
  datatype Rule = Rule(keywords: seq<string>, action: Action)

  /** The action keywords in priority order. */
  const ActionRules: seq<Rule> := [
    Rule(["compare"], Compare),
    Rule(["top"], Top),
    Rule(["trend", "year", "over time"], Trend),
    Rule(["average", "mean"], Average),
    Rule(["max", "highest"], Max),
    Rule(["min", "lowest"], Min)
  ]

  predicate AnyIn(q: string, keywords: seq<string>) {
    exists i :: 0 <= i < |keywords| && Contains(q, keywords[i])
  }

  ghost predicate NoHitBefore(rules: seq<Rule>, q: string, k: int) {
    forall j :: 0 <= j < k && j < |rules| ==> !AnyIn(q, rules[j].keywords)
  }

  /**
   * Evaluates a decision table: the action of the first rule with a keyword
   * in `q`, or `default` when no rule applies.
   */
  function FirstRule(rules: seq<Rule>, q: string, default: Action): (a: Action)
    ensures NoHitBefore(rules, q, |rules|) ==> a == default
    ensures forall k :: 0 <= k < |rules| && AnyIn(q, rules[k].keywords) && NoHitBefore(rules, q, k) ==> a == rules[k].action
  {
    if rules == [] then default
    else if AnyIn(q, rules[0].keywords) then rules[0].action
    else
      var a := FirstRule(rules[1..], q, default);
      assert forall k :: 1 <= k <= |rules| && NoHitBefore(rules, q, k) ==> NoHitBefore(rules[1..], q, k - 1);
      a
  }

  // -------------------------------------------------------- state and crop

  /** `entries[i]` occurs in `q` and no later entry does. */
  ghost predicate LastHitAt(entries: seq<string>, q: string, i: int) {
    0 <= i < |entries| && Contains(q, entries[i])
    && forall j :: i < j < |entries| ==> !Contains(q, entries[j])
  }

  /** At most one entry is the last one that occurs. */
  lemma LastHitUnique(entries: seq<string>, q: string, i: int)
    requires LastHitAt(entries, q, i)
    ensures forall j :: LastHitAt(entries, q, j) ==> j == i
  {
  }

  /** The last entry of `entries` that occurs in `q`, as the overwriting loop leaves it. */
  function LastMatch(entries: seq<string>, q: string): (m: Option<string>)
    ensures m.None? <==> forall i :: 0 <= i < |entries| ==> !Contains(q, entries[i])
    ensures m.Some? ==> exists i :: LastHitAt(entries, q, i) && entries[i] == m.value
  {
    if entries == [] then None
    else if Contains(q, entries[|entries| - 1]) then
      assert LastHitAt(entries, q, |entries| - 1);
      Some(entries[|entries| - 1])
    else
      var init := entries[..|entries| - 1];
      var m := LastMatch(init, q);
      assert forall i :: 0 <= i < |init| ==> init[i] == entries[i];
      assert m.Some? ==> exists i :: LastHitAt(entries, q, i) && entries[i] == m.value by {
        if m.Some? {
          var i :| LastHitAt(init, q, i) && init[i] == m.value;
          assert LastHitAt(entries, q, i);
        }
      }
      m
  }

  /** One more entry scanned: it wins if it occurs, otherwise the earlier result stands. */
  lemma LastMatchStep(entries: seq<string>, q: string, i: nat)
    requires i < |entries|
    ensures LastMatch(entries[..i + 1], q) == if Contains(q, entries[i]) then Some(entries[i]) else LastMatch(entries[..i], q)
  {
    assert entries[..i + 1][..i] == entries[..i];
  }

  function TitleOf(m: Option<string>): Option<string> {
    match m
    case None => None
    case Some(s) => Some(Title(s))
  }

  // ------------------------------------------------------------------ years

  /**
   * The pattern `\b(19|20)\d{2}\b` matches at position `i` of `q`: four
   * characters starting with 19 or 20 and ending in two digits, with no
   * word character just before or just after them.
   */
  predicate MatchAt(q: string, i: int) {
    0 <= i && i + 4 <= |q|
    && ((q[i] == '1' && q[i + 1] == '9') || (q[i] == '2' && q[i + 1] == '0'))
    && IsDigit(q[i + 2]) && IsDigit(q[i + 3])
    && (i == 0 || !IsWordChar(q[i - 1]))
    && (i + 4 == |q| || !IsWordChar(q[i + 4]))
  }

  /** The captured group `(19|20)` of a match at `i`, as `int(y)` reads it. */
  function Captured(q: string, i: int): int {
    if 0 <= i < |q| && q[i] == '1' then 19 else 20
  }

  /**
   * `re.findall` from position `i`: it tries each position in turn and,
   * after a match, resumes at the end of it; each match gives its group.
   */
  function FindYears(q: string, i: nat): (ys: seq<int>)
    ensures forall k :: 0 <= k < |ys| ==> ys[k] == 19 || ys[k] == 20
    decreases |q| - i
  {
    if i + 4 > |q| then []
    else if MatchAt(q, i) then [Captured(q, i)] + FindYears(q, i + 4)
    else FindYears(q, i + 1)
  }

  /** Every position at or after `i` where the pattern matches, in increasing order. */
  ghost function MatchPositions(q: string, i: nat): seq<nat>
    decreases |q| - i
  {
    if i >= |q| then [] else (if MatchAt(q, i) then [i] else []) + MatchPositions(q, i + 1)
  }

  ghost function CapturedAll(q: string, ps: seq<nat>): seq<int> {
    if ps == [] then [] else [Captured(q, ps[0])] + CapturedAll(q, ps[1..])
  }

  /** Two matches never overlap: a match ends in a digit, which blocks the next `\b`. */
  lemma NoOverlap(q: string, i: int, d: int)
    requires MatchAt(q, i) && 0 < d < 4
    ensures !MatchAt(q, i + d)
  {
    assert IsWordChar(q[i + d - 1]);
  }

  lemma {:induction false} NoMatchNearEnd(q: string, i: nat)
    requires i + 4 > |q|
    ensures MatchPositions(q, i) == []
    decreases |q| - i
  {
    if i < |q| {
      NoMatchNearEnd(q, i + 1);
    }
  }

  /** Positions without a match add nothing to the list of matches. */
  lemma {:induction false} SkipNonMatches(q: string, i: nat, j: nat)
    requires i <= j
    requires forall k :: i <= k < j ==> !MatchAt(q, k)
    ensures MatchPositions(q, i) == MatchPositions(q, j)
    decreases j - i
  {
    if i < j {
      SkipNonMatches(q, i + 1, j);
      if i < |q| {
        assert MatchPositions(q, i) == [] + MatchPositions(q, i + 1);
      }
    }
  }

  /** After a match at `i`, the next possible match is at `i + 4` or later. */
  lemma MatchPositionsAfterMatch(q: string, i: nat)
    requires MatchAt(q, i)
    ensures MatchPositions(q, i) == [i] + MatchPositions(q, i + 4)
  {
    NoOverlap(q, i, 1);
    NoOverlap(q, i, 2);
    NoOverlap(q, i, 3);
    SkipNonMatches(q, i + 1, i + 4);
  }

  /** `findall` returns the group of every match of the pattern, left to right. */
  lemma {:induction false} FindYearsAllMatches(q: string, i: nat)
    ensures FindYears(q, i) == CapturedAll(q, MatchPositions(q, i))
    decreases |q| - i
  {
    if i + 4 > |q| {
      NoMatchNearEnd(q, i);
    } else if MatchAt(q, i) {
      FindYearsAllMatches(q, i + 4);
      MatchPositionsAfterMatch(q, i);
      var rest := MatchPositions(q, i + 4);
      assert ([i] + rest)[1..] == rest;
      calc {
        FindYears(q, i);
        [Captured(q, i)] + FindYears(q, i + 4);
        [Captured(q, i)] + CapturedAll(q, rest);
        CapturedAll(q, [i] + rest);
      }
    } else {
      FindYearsAllMatches(q, i + 1);
      assert FindYears(q, i) == FindYears(q, i + 1);
      assert MatchPositions(q, i) == [] + MatchPositions(q, i + 1) == MatchPositions(q, i + 1);
    }
  }

  lemma {:induction false} MatchPositionsSpec(q: string, i: nat)
    ensures forall k :: 0 <= k < |MatchPositions(q, i)| ==> i <= MatchPositions(q, i)[k] && MatchAt(q, MatchPositions(q, i)[k])
    ensures forall j :: i <= j && MatchAt(q, j) ==> j in MatchPositions(q, i)
    ensures forall a, b :: 0 <= a < b < |MatchPositions(q, i)| ==> MatchPositions(q, i)[a] < MatchPositions(q, i)[b]
    decreases |q| - i
  {
    if i < |q| {
      MatchPositionsSpec(q, i + 1);
    }
  }

  // ---------------------------------------------------------- the whole query

  function YearFilter(q: string): Option<seq<int>> {
    var ys := FindYears(q, 0);
    if ys == [] then None else Some(ys)
  }

  /** What `understand_query(query)` returns. */
  function Interpret(query: string): Intent {
    var q := Lower(query);
    Intent(ChooseDataset(q),
           ChooseAction(q),
           Filters(TitleOf(LastMatch(States, q)), TitleOf(LastMatch(CropNames, q)), YearFilter(q)))
  }

  /** `understand_query`, step by step as the source assigns and overwrites. */
  method UnderstandQuery(query: string) returns (dataset: Option<Dataset>, action: Action, filters: Filters)
    ensures Intent(dataset, action, filters) == Interpret(query)
  {
    var q := Lower(query);
    dataset := None;
    filters := NoFilters;

    if Contains(q, "rain") || Contains(q, "imd") {
      dataset := Some(Rainfall);
    } else if Contains(q, "crop") || Contains(q, "production") || Contains(q, "yield") {
      dataset := Some(Crop);
    } else if Contains(q, "rainfall") && Contains(q, "crop") {
      dataset := Some(Merged);
    }

    if Contains(q, "compare") {
      action := Compare;
    } else if Contains(q, "top") {
      action := Top;
    } else if Contains(q, "trend") || Contains(q, "year") || Contains(q, "over time") {
      action := Trend;
    } else if Contains(q, "average") || Contains(q, "mean") {
      action := Average;
    } else if Contains(q, "max") || Contains(q, "highest") {
      action := Max;
    } else if Contains(q, "min") || Contains(q, "lowest") {
      action := Min;
    } else {
      action := General;
    }
    assert dataset == ChooseDataset(q) && action == ChooseAction(q);

    for i := 0 to |States|
      invariant filters == Filters(TitleOf(LastMatch(States[..i], q)), None, None)
    {
      LastMatchStep(States, q, i);
      if Contains(q, States[i]) {
        filters := filters.(state := Some(Title(States[i])));
      }
    }
    assert States[..|States|] == States;
    ghost var stateFilter := filters.state;

    for i := 0 to |CropNames|
      invariant filters == Filters(stateFilter, TitleOf(LastMatch(CropNames[..i], q)), None)
    {
      LastMatchStep(CropNames, q, i);
      if Contains(q, CropNames[i]) {
        filters := filters.(crop := Some(Title(CropNames[i])));
      }
    }
    assert CropNames[..|CropNames|] == CropNames;

    var yearMatch := FindYears(q, 0);
    if yearMatch != [] {
      filters := filters.(years := Some(yearMatch));
    }
  }

  /** The source's if-chain for the action evaluates the decision table `ActionRules`. */
  lemma ActionIsFirstMatch(q: string)
    ensures ChooseAction(q) == FirstRule(ActionRules, q, General)
  {
    var r := ActionRules;
    AnyInOne(q, "compare");
    AnyInOne(q, "top");
    AnyInThree(q, "trend", "year", "over time");
    AnyInTwo(q, "average", "mean");
    AnyInTwo(q, "max", "highest");
    AnyInTwo(q, "min", "lowest");
    if AnyIn(q, r[0].keywords) {
      assert NoHitBefore(r, q, 0);
    } else if AnyIn(q, r[1].keywords) {
      assert NoHitBefore(r, q, 1);
    } else if AnyIn(q, r[2].keywords) {
      assert NoHitBefore(r, q, 2);
    } else if AnyIn(q, r[3].keywords) {
      assert NoHitBefore(r, q, 3);
    } else if AnyIn(q, r[4].keywords) {
      assert NoHitBefore(r, q, 4);
    } else if AnyIn(q, r[5].keywords) {
      assert NoHitBefore(r, q, 5);
    } else {
      assert NoHitBefore(r, q, 6);
    }
  }

  lemma AnyInOne(q: string, a: string)
    ensures AnyIn(q, [a]) <==> Contains(q, a)
  {
    assert [a][0] == a;
  }

  lemma AnyInTwo(q: string, a: string, b: string)
    ensures AnyIn(q, [a, b]) <==> Contains(q, a) || Contains(q, b)
  {
    assert [a, b][0] == a && [a, b][1] == b;
  }

  lemma AnyInThree(q: string, a: string, b: string, c: string)
    ensures AnyIn(q, [a, b, c]) <==> Contains(q, a) || Contains(q, b) || Contains(q, c)
  {
    assert [a, b, c][0] == a && [a, b, c][1] == b && [a, b, c][2] == c;
  }

  // ------------------------------------------------------------ properties

  /**
   * The dataset is Rainfall exactly when "rain" or "imd" occurs, otherwise
   * Crop exactly when "crop", "production" or "yield" occurs, otherwise
   * unset; the Merged branch is dead, and every query that mentions
   * "rainfall" goes to the Rainfall dataset.
   */
  lemma DatasetChoice(query: string)
    ensures var q := Lower(query); var d := Interpret(query).dataset;
      && (d == Some(Rainfall) <==> Contains(q, "rain") || Contains(q, "imd"))
      && (d == Some(Crop) <==> !(Contains(q, "rain") || Contains(q, "imd"))
                                && (Contains(q, "crop") || Contains(q, "production") || Contains(q, "yield")))
      && (d == None <==> !Contains(q, "rain") && !Contains(q, "imd") && !Contains(q, "crop")
                         && !Contains(q, "production") && !Contains(q, "yield"))
      && d != Some(Merged)
      && (Contains(q, "rainfall") ==> d == Some(Rainfall))
  {
    var q := Lower(query);
    if Contains(q, "rainfall") {
      assert StartsWith("rainfall", "rain");
      ContainsTransitive(q, "rainfall", "rain");
    }
  }

  /** The action is the first rule of `ActionRules` that applies, else General. */
  lemma ActionChoice(query: string)
    ensures var q := Lower(query); var a := Interpret(query).action;
      && (NoHitBefore(ActionRules, q, |ActionRules|) ==> a == General)
      && forall k :: 0 <= k < |ActionRules| && AnyIn(q, ActionRules[k].keywords) && NoHitBefore(ActionRules, q, k)
           ==> a == ActionRules[k].action
  {
    ActionIsFirstMatch(Lower(query));
  }

  /**
   * `filters["state"]` is present exactly when some state name occurs in the
   * lower-cased query, and then it is the title-cased form of the last such
   * name in list order.
   */
  lemma StateFilter(query: string)
    ensures var q := Lower(query); var s := Interpret(query).filters.state;
      && (s.Some? <==> exists i :: 0 <= i < |States| && Contains(q, States[i]))
      && (s.Some? ==> exists i :: LastHitAt(States, q, i) && s.value == Title(States[i]))
  {
  }

  /** The same for `filters["crop"]` and the crop list. */
  lemma CropFilter(query: string)
    ensures var q := Lower(query); var c := Interpret(query).filters.crop;
      && (c.Some? <==> exists i :: 0 <= i < |CropNames| && Contains(q, CropNames[i]))
      && (c.Some? ==> exists i :: LastHitAt(CropNames, q, i) && c.value == Title(CropNames[i]))
  {
  }

  /**
   * `filters["years"]` for the lower-cased query `q` is present exactly when
   * the year pattern matches somewhere; it then holds one element per match,
   * left to right, and each element is the captured prefix 19 or 20, never
   * the four-digit year.
   */
  lemma YearsFilter(q: string)
    ensures var y := YearFilter(q);
      && (y.Some? <==> exists j :: MatchAt(q, j))
      && (y.Some? ==> y.value == CapturedAll(q, MatchPositions(q, 0)))
      && (y.Some? ==> forall k :: 0 <= k < |y.value| ==> y.value[k] == 19 || y.value[k] == 20)
  {
    FindYearsAllMatches(q, 0);
    MatchPositionsSpec(q, 0);
    CapturedAllLength(q, MatchPositions(q, 0));
    if exists j :: MatchAt(q, j) {
      var j :| MatchAt(q, j);
      assert j in MatchPositions(q, 0);
    }
  }

  lemma {:induction false} CapturedAllLength(q: string, ps: seq<nat>)
    ensures |CapturedAll(q, ps)| == |ps|
  {
    if ps != [] {
      CapturedAllLength(q, ps[1..]);
    }
  }

  /** Two queries that agree up to letter case. */
  ghost predicate SameUpToCase(a: string, b: string) {
    |a| == |b| && forall i :: 0 <= i < |a| ==> LowerChar(a[i]) == LowerChar(b[i])
  }

  /** Letter case in the query never matters. */
  lemma CaseInsensitive(a: string, b: string)
    requires SameUpToCase(a, b)
    ensures Interpret(a) == Interpret(b)
  {
    assert Lower(a) == Lower(b);
  }

  /** Interpreting the lower-cased query gives the same intent. */
  lemma LowerCasedQuery(query: string)
    ensures Interpret(Lower(query)) == Interpret(query)
  {
    LowerIdempotent(query);
  }
}
