/** Worked examples on a three-row table: the filters, KPIs and the country chart on known data. */
module Scenarios {
  import opened Wrappers
  import opened Records
  import opened Selection
  import opened Labels
  import opened Filters
  import opened Sorting
  import opened Stats
  import opened Grouping
  import opened Aggregates

  function Sample(): seq<Record>
  {
    [Record(2023, "SE", "Data Scientist", "US", 100, "L", 150000),
     Record(2023, "EN", "Data Analyst", "BR", 0, "S", 40000),
     Record(2022, "SE", "Data Engineer", "US", 50, "M", 120000)]
  }

  /** Both 2023 rows pass; their mean and median are 95000. */
  lemma SampleAllRemoteOptions(df: seq<Record>)
    requires df == Sample()
    ensures var d := BuildDashboard(df, Criteria({2023}, {Some("Sênior"), Some("Júnior")}, AllRemote));
      d.recordCount == 2 && d.meanSalary == Some(95000.0) && d.medianSalary == Some(95000.0)
  {
    var t := AddLabelColumns(df);
    var c := Criteria({2023}, {Some("Sênior"), Some("Júnior")}, AllRemote);
    SampleLabels(df);
    Only2023Rows(t, c);
    var view := FilterView(t, c);
    ColumnOfTwo(t[0], t[1], SalaryOf);
    KpisOfTwo(150000, 40000);
  }

  lemma Only2023Rows(t: seq<LabeledRecord>, c: Criteria)
    requires SampleShape(t)
    requires c == Criteria({2023}, {Some("Sênior"), Some("Júnior")}, AllRemote)
    ensures FilterView(t, c) == [t[0], t[1]]
  {
    FilterViewIsConjunction(t, c);
    assert Matches(c, t[0]) && Matches(c, t[1]) && !Matches(c, t[2]);
    SelectOfThree(t, MatchesMask(c));
  }

  /** The fields of the labelled sample rows that the filters and charts read. */
  predicate SampleShape(t: seq<LabeledRecord>)
  {
    && |t| == 3
    && t[0].rec.workYear == 2023 && t[0].experienceLevelPt == Some("Sênior")
    && t[0].rec.remoteRatio == 100 && t[0].rec.salaryInUsd == 150000
    && t[1].rec.workYear == 2023 && t[1].experienceLevelPt == Some("Júnior")
    && t[1].rec.remoteRatio == 0 && t[1].rec.salaryInUsd == 40000
    && t[2].rec.workYear == 2022 && t[2].experienceLevelPt == Some("Sênior")
    && t[2].rec.remoteRatio == 50 && t[2].rec.salaryInUsd == 120000
    && t[2].employeeResidencePt == "Estados Unidos"
  }

  /** The label columns of the sample table. */
  lemma SampleLabels(df: seq<Record>)
    requires df == Sample()
    ensures SampleShape(AddLabelColumns(df))
  {
    assert ResidenceLabel("US") == "Estados Unidos";
  }

  /** A selection from three rows, row by row. */
  lemma SelectOfThree<R>(t: seq<R>, keep: R -> bool)
    requires |t| == 3
    ensures Select(t, keep) == (if keep(t[0]) then [t[0]] else []) + (if keep(t[1]) then [t[1]] else [])
      + (if keep(t[2]) then [t[2]] else [])
  {
    assert t[..2][..1] == t[..1];
    assert t[..1][..0] == [];
    assert Select(t[..1], keep) == if keep(t[0]) then [t[0]] else [];
    assert Select(t[..2], keep) == Select(t[..1], keep) + if keep(t[1]) then [t[1]] else [];
  }

  lemma ColumnOfOne<R>(a: R, value: R -> int)
    ensures Column([a], value) == [value(a)]
  {
    assert [a][..0] == [];
  }

  lemma ColumnOfTwo<R>(a: R, b: R, value: R -> int)
    ensures Column([a, b], value) == [value(a), value(b)]
  {
    assert [a, b][..1] == [a];
    ColumnOfOne(a, value);
  }

  /** A single salary is its own mean and median. */
  lemma KpisOfOne(x: int)
    ensures Mean([x]) == Some(x as real) && Median([x]) == Some(x as real)
  {
    assert [x][..0] == [];
    assert Sum([x]) == x;
    assert SortBy([x], AsReal) == Insert(x, [], AsReal) == [x];
  }

  /** The mean and the median of two salaries are both their midpoint. */
  lemma KpisOfTwo(x: int, y: int)
    ensures Mean([x, y]) == Some((x + y) as real / 2.0)
    ensures Median([x, y]) == Some((x + y) as real / 2.0)
  {
    SumOfTwo(x, y);
    PairSum(SortBy([x, y], AsReal), x, y);
  }

  lemma SumOfTwo(x: int, y: int)
    ensures Sum([x, y]) == x + y
  {
    assert [x, y][..1] == [x];
    assert [x][..0] == [];
    assert Sum([x]) == x;
    assert Sum([x, y]) == Sum([x]) + y;
  }

  /** The two entries of a permutation of [x, y] add up to x + y. */
  lemma PairSum(s: seq<int>, x: int, y: int)
    requires multiset(s) == multiset{x, y}
    ensures |s| == 2 && s[0] + s[1] == x + y
  {
    assert |s| == |multiset(s)| == 2;
    assert s == [s[0], s[1]];
    assert s[0] in multiset{x, y};
    if s[0] == x {
      assert multiset{s[1]} == multiset(s) - multiset{x} == multiset{y};
    } else {
      assert multiset{s[1]} == multiset(s) - multiset{y} == multiset{x};
    }
  }

  /** Only the fully remote 2023 row passes. */
  lemma SampleFullyRemote(df: seq<Record>)
    requires df == Sample()
    ensures var d := BuildDashboard(df, Criteria({2023}, {Some("Sênior"), Some("Júnior")}, FullyRemote));
      d.recordCount == 1 && d.meanSalary == Some(150000.0) && d.medianSalary == Some(150000.0)
  {
    var t := AddLabelColumns(df);
    var c := Criteria({2023}, {Some("Sênior"), Some("Júnior")}, FullyRemote);
    SampleLabels(df);
    OnlyFullyRemoteRow(t, c);
    ColumnOfOne(t[0], SalaryOf);
    KpisOfOne(150000);
  }

  lemma OnlyFullyRemoteRow(t: seq<LabeledRecord>, c: Criteria)
    requires SampleShape(t)
    requires c == Criteria({2023}, {Some("Sênior"), Some("Júnior")}, FullyRemote)
    ensures FilterView(t, c) == [t[0]]
  {
    FilterViewIsConjunction(t, c);
    assert RemoteAdmits(FullyRemote, 100) && !RemoteAdmits(FullyRemote, 0);
    assert Matches(c, t[0]) && !Matches(c, t[1]) && !Matches(c, t[2]);
    SelectOfThree(t, MatchesMask(c));
  }

  /** Only the 2022 row passes, and the country chart is the single row (Estados Unidos, 120000). */
  lemma SampleYear2022(df: seq<Record>)
    requires df == Sample()
    ensures var d := BuildDashboard(df, Criteria({2022}, {Some("Sênior"), Some("Júnior")}, AllRemote));
      d.recordCount == 1 && d.meanSalary == Some(120000.0) && d.countryMeans == [("Estados Unidos", 120000.0)]
  {
    var t := AddLabelColumns(df);
    var c := Criteria({2022}, {Some("Sênior"), Some("Júnior")}, AllRemote);
    SampleLabels(df);
    Only2022Row(t, c);
    ColumnOfOne(t[2], SalaryOf);
    KpisOfOne(120000);
    SingleRowCountryChart(t[2]);
  }

  lemma Only2022Row(t: seq<LabeledRecord>, c: Criteria)
    requires SampleShape(t)
    requires c == Criteria({2022}, {Some("Sênior"), Some("Júnior")}, AllRemote)
    ensures FilterView(t, c) == [t[2]]
  {
    FilterViewIsConjunction(t, c);
    assert !Matches(c, t[0]) && !Matches(c, t[1]) && Matches(c, t[2]);
    SelectOfThree(t, MatchesMask(c));
  }

  lemma SingleRowCountryChart(row: LabeledRecord)
    requires row.employeeResidencePt == "Estados Unidos" && row.rec.salaryInUsd == 120000
    ensures CountryMeans([row]) == [("Estados Unidos", 120000.0)]
  {
    var p := CountryPairs([row]);
    assert p == [("Estados Unidos", 120000)];
    assert KeysOf(p) == ["Estados Unidos"];
    assert p[..0] == [];
    assert SalariesOf(p, "Estados Unidos") == [120000];
    KpisOfOne(120000);
    assert GroupMean(p, "Estados Unidos") == 120000.0;
    assert GroupMeans(p) == [("Estados Unidos", 120000.0)];
  }
}
