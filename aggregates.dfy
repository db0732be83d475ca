/**
 * The KPIs and grouped means computed from the filtered view (main.py lines 68-70, 86, 95,
 * 104-106), and the whole dashboard as one function of the table and the sidebar's choices.
 */
module Aggregates {
  import opened Wrappers
  import opened Records
  import opened Selection
  import opened Labels
  import opened Filters
  import opened Sorting
  import opened Stats
  import opened Grouping

  /** The country chart shows this many countries (`head(15)`). */
  const CountryChartSize := 15

  function SalaryOf(x: LabeledRecord): int { x.rec.salaryInUsd }
  function SizedSalaryOf(x: SizedRecord): int { x.row.rec.salaryInUsd }
  function ResidenceKey(x: LabeledRecord): Option<string> { Some(x.employeeResidencePt) }
  function YearKey(x: LabeledRecord): Option<int> { Some(x.rec.workYear) }
  function SizeKey(x: SizedRecord): Option<string> { x.companySizePt }

  /** Line 68: the mean salary of the view. */
  function MeanSalary(view: seq<LabeledRecord>): (m: Option<real>)
    ensures m.None? <==> view == []
    ensures m.Some? ==> m.value * |view| as real == Sum(Column(view, SalaryOf)) as real
  {
    Mean(Column(view, SalaryOf))
  }

  /** Line 69: the median salary of the view. */
  function MedianSalary(view: seq<LabeledRecord>): (m: Option<real>)
    ensures m.None? <==> view == []
  {
    Median(Column(view, SalaryOf))
  }

  /** `sort_values(ascending=False)` orders by this rank ascending. */
  function DescendingMean(e: (string, real)): real { -e.1 }

  /** Line 86: mean salary per residence label, highest first, at most fifteen countries. */
  function CountryMeans(view: seq<LabeledRecord>): (r: seq<(string, real)>)
    ensures |r| <= CountryChartSize
  {
    Head(SortBy(GroupMeans(CountryPairs(view)), DescendingMean), CountryChartSize)
  }

  /** `groupby` sorts its keys: years in ascending order. */
  function AscendingYear(e: (int, real)): real { e.0 as real }

  /** Line 95: mean salary per year, in year order. */
  function YearMeans(view: seq<LabeledRecord>): (r: seq<(int, real)>)
    ensures SortedBy(r, AscendingYear)
  {
    SortBy(GroupMeans(YearPairs(view)), AscendingYear)
  }

  /** `groupby` sorts its keys: the three size labels in code-point order are Grande, Média, Pequena. */
  function SizeOrder(e: (string, real)): real
  {
    if e.0 == "Grande" then 0.0 else if e.0 == "Média" then 1.0 else if e.0 == "Pequena" then 2.0 else 3.0
  }

  /** Line 106: mean salary per company-size label, rows without a label left out. */
  function SizeMeans(sized: seq<SizedRecord>): (r: seq<(string, real)>)
    ensures SortedBy(r, SizeOrder)
  {
    SortBy(GroupMeans(SizePairs(sized)), SizeOrder)
  }

  /** What the page shows: three KPIs and the data of the three aggregate charts. */
  datatype Dashboard = Dashboard(
    meanSalary: Option<real>,
    medianSalary: Option<real>,
    recordCount: nat,
    countryMeans: seq<(string, real)>,
    yearMeans: seq<(int, real)>,
    sizeMeans: seq<(string, real)>)

  /**
   * One run of the script from the loaded table to the charts' data. The record count is the
   * number of table rows that meet all criteria, and the mean and median are missing exactly
   * when there is no such row; otherwise they are the mean and the median of those rows' salaries.
   */
  function BuildDashboard(df: seq<Record>, c: Criteria): (d: Dashboard)
    ensures d.recordCount == |KeptIndices(AddLabelColumns(df), MatchesMask(c))|
    ensures d.meanSalary.None? <==> d.recordCount == 0
    ensures d.medianSalary.None? <==> d.recordCount == 0
    ensures d.meanSalary == Mean(Column(Select(AddLabelColumns(df), MatchesMask(c)), SalaryOf))
    ensures d.medianSalary == Median(Column(Select(AddLabelColumns(df), MatchesMask(c)), SalaryOf))
  {
    var table := AddLabelColumns(df);
    var view := FilterView(table, c);
    FilterViewKeepsRows(table, c);
    FilterViewIsConjunction(table, c);
    Dashboard(MeanSalary(view), MedianSalary(view), |view|,
      CountryMeans(view), YearMeans(view), SizeMeans(AddSizeColumn(view)))
  }

  /** The mean salary of the view's rows whose residence label is `name`. */
  function ResidenceMean(view: seq<LabeledRecord>, name: string): Option<real>
  {
    Mean(Column(Select(view, HasKey(ResidenceKey, name)), SalaryOf))
  }

  function CountryPairs(view: seq<LabeledRecord>): seq<(string, int)>
  {
    Pairs(view, ResidenceKey, SalaryOf)
  }

  /** The country groups sorted by mean, of which the chart shows the first fifteen. */
  lemma CountryMeansRanked(view: seq<LabeledRecord>)
    ensures var s := SortBy(GroupMeans(CountryPairs(view)), DescendingMean);
      && GroupRows(CountryPairs(view), s)
      && (forall k :: k in KeysOf(CountryPairs(view)) ==> k in KeyColumn(s))
      && CountryMeans(view) == s[..|CountryMeans(view)|]
  {
    SortedGroupRows(CountryPairs(view), DescendingMean);
  }

  /**
   * The country chart has at most fifteen rows, with distinct labels, and its means are
   * non-increasing down the list.
   */
  lemma CountryMeansOrdered(view: seq<LabeledRecord>)
    ensures |CountryMeans(view)| <= 15
    ensures forall i, j :: 0 <= i < j < |CountryMeans(view)| ==> CountryMeans(view)[i].1 >= CountryMeans(view)[j].1
    ensures DistinctKeys(CountryMeans(view))
  {
    var s := SortBy(GroupMeans(CountryPairs(view)), DescendingMean);
    var r := CountryMeans(view);
    CountryMeansRanked(view);
    forall i, j | 0 <= i < j < |r| ensures r[i].1 >= r[j].1 {
      assert r[i] == s[i] && r[j] == s[j];
      assert DescendingMean(s[i]) <= DescendingMean(s[j]);
    }
  }

  /**
   * Every row of the country chart is the residence label of some row of the view, with the
   * mean salary of the view's rows of that label.
   */
  lemma CountryMeansRows(view: seq<LabeledRecord>)
    ensures forall i :: 0 <= i < |CountryMeans(view)| ==>
      (exists j :: 0 <= j < |view| && view[j].employeeResidencePt == CountryMeans(view)[i].0)
      && ResidenceMean(view, CountryMeans(view)[i].0) == Some(CountryMeans(view)[i].1)
  {
    var s := SortBy(GroupMeans(CountryPairs(view)), DescendingMean);
    var r := CountryMeans(view);
    CountryMeansRanked(view);
    forall i | 0 <= i < |r|
      ensures (exists j :: 0 <= j < |view| && view[j].employeeResidencePt == r[i].0)
      ensures ResidenceMean(view, r[i].0) == Some(r[i].1)
    {
      assert r[i] == s[i];
      PairsKeys(view, ResidenceKey, SalaryOf, r[i].0);
      PairsMean(view, ResidenceKey, SalaryOf, r[i].0);
      var j :| 0 <= j < |view| && ResidenceKey(view[j]) == Some(r[i].0);
      assert view[j].employeeResidencePt == r[i].0;
    }
  }

  /** A row of the ranking either makes the chart or ranks below all fifteen rows shown. */
  lemma ShownOrRanksLower(s: seq<(string, real)>, m: int)
    requires SortedBy(s, DescendingMean)
    requires 0 <= m < |s|
    ensures s[m].0 in KeyColumn(Head(s, CountryChartSize))
      || (|Head(s, CountryChartSize)| == CountryChartSize && forall i :: 0 <= i < CountryChartSize ==> s[i].1 >= s[m].1)
  {
    var r := Head(s, CountryChartSize);
    if m < |r| {
      assert KeyColumn(r)[m] == s[m].0;
    } else {
      forall i | 0 <= i < CountryChartSize ensures s[i].1 >= s[m].1 {
        assert DescendingMean(s[i]) <= DescendingMean(s[m]);
      }
    }
  }

  /**
   * The chart shows the top fifteen: a residence label of the view that is not on it means
   * fifteen rows are shown, none with a smaller mean than that label's.
   */
  lemma CountryMeansTopFifteen(view: seq<LabeledRecord>)
    ensures forall j :: 0 <= j < |view| && view[j].employeeResidencePt !in KeyColumn(CountryMeans(view)) ==>
      |CountryMeans(view)| == 15 && ResidenceMean(view, view[j].employeeResidencePt).Some? &&
      forall i :: 0 <= i < 15 ==> CountryMeans(view)[i].1 >= ResidenceMean(view, view[j].employeeResidencePt).value
  {
    var s := SortBy(GroupMeans(CountryPairs(view)), DescendingMean);
    var r := CountryMeans(view);
    CountryMeansRanked(view);
    forall j | 0 <= j < |view| && view[j].employeeResidencePt !in KeyColumn(r)
      ensures |r| == 15 && ResidenceMean(view, view[j].employeeResidencePt).Some?
      ensures forall i :: 0 <= i < 15 ==> r[i].1 >= ResidenceMean(view, view[j].employeeResidencePt).value
    {
      var k := view[j].employeeResidencePt;
      assert ResidenceKey(view[j]) == Some(k);
      PairsKeys(view, ResidenceKey, SalaryOf, k);
      PairsMean(view, ResidenceKey, SalaryOf, k);
      var m :| 0 <= m < |s| && KeyColumn(s)[m] == k;
      ShownOrRanksLower(s, m);
      forall i | 0 <= i < 15 ensures r[i].1 >= s[m].1 {
        assert r[i] == s[i];
      }
    }
  }

  /** The mean salary of the view's rows of year `year`. */
  function YearMean(view: seq<LabeledRecord>, year: int): Option<real>
  {
    Mean(Column(Select(view, HasKey(YearKey, year)), SalaryOf))
  }

  function YearPairs(view: seq<LabeledRecord>): seq<(int, int)>
  {
    Pairs(view, YearKey, SalaryOf)
  }

  /** The yearly chart lists its years in strictly increasing order. */
  lemma YearMeansAscending(view: seq<LabeledRecord>)
    ensures forall i, j :: 0 <= i < j < |YearMeans(view)| ==> YearMeans(view)[i].0 < YearMeans(view)[j].0
  {
    SortedGroupRows(YearPairs(view), AscendingYear);
    DistinctYearsStrictlyAscending(YearMeans(view));
  }

  /** Distinct years sorted by `AscendingYear` come in strictly increasing order. */
  lemma DistinctYearsStrictlyAscending(r: seq<(int, real)>)
    requires DistinctKeys(r) && SortedBy(r, AscendingYear)
    ensures forall i, j :: 0 <= i < j < |r| ==> r[i].0 < r[j].0
  {
    forall i, j | 0 <= i < j < |r| ensures r[i].0 < r[j].0 {
      assert AscendingYear(r[i]) <= AscendingYear(r[j]);
    }
  }

  /** The yearly chart has a row for each year that occurs in the view and for no other year. */
  lemma YearMeansYears(view: seq<LabeledRecord>)
    ensures forall y :: y in KeyColumn(YearMeans(view)) <==> exists j :: 0 <= j < |view| && view[j].rec.workYear == y
  {
    SortedGroupRows(YearPairs(view), AscendingYear);
    forall y ensures y in KeysOf(YearPairs(view)) <==> exists j :: 0 <= j < |view| && view[j].rec.workYear == y {
      PairsKeys(view, YearKey, SalaryOf, y);
      if exists j :: 0 <= j < |view| && view[j].rec.workYear == y {
        var j :| 0 <= j < |view| && view[j].rec.workYear == y;
        assert YearKey(view[j]) == Some(y);
      }
    }
  }

  /** Each row of the yearly chart holds the mean salary of the view's rows of that year. */
  lemma YearMeansValues(view: seq<LabeledRecord>)
    ensures forall i :: 0 <= i < |YearMeans(view)| ==> YearMean(view, YearMeans(view)[i].0) == Some(YearMeans(view)[i].1)
  {
    var r := YearMeans(view);
    SortedGroupRows(YearPairs(view), AscendingYear);
    forall i | 0 <= i < |r| ensures YearMean(view, r[i].0) == Some(r[i].1) {
      PairsMean(view, YearKey, SalaryOf, r[i].0);
    }
  }

  /** The mean salary of the rows whose company-size label is `name`. */
  function SizeMean(sized: seq<SizedRecord>, name: string): Option<real>
  {
    Mean(Column(Select(sized, HasKey(SizeKey, name)), SizedSalaryOf))
  }

  function SizePairs(sized: seq<SizedRecord>): seq<(string, int)>
  {
    Pairs(sized, SizeKey, SizedSalaryOf)
  }

  /**
   * The company-size chart, over the view with its size column added, has a row for each size
   * label that occurs and for no other (rows whose code has no label are dropped).
   */
  lemma SizeMeansLabels(view: seq<LabeledRecord>)
    ensures forall k :: k in KeyColumn(SizeMeans(AddSizeColumn(view))) <==>
      exists j :: 0 <= j < |view| && SizeLabel(view[j].rec.companySize) == Some(k)
  {
    var sized := AddSizeColumn(view);
    SortedGroupRows(SizePairs(sized), SizeOrder);
    forall k ensures k in KeysOf(SizePairs(sized)) <==> exists j :: 0 <= j < |view| && SizeLabel(view[j].rec.companySize) == Some(k) {
      PairsKeys(sized, SizeKey, SizedSalaryOf, k);
      if exists j :: 0 <= j < |view| && SizeLabel(view[j].rec.companySize) == Some(k) {
        var j :| 0 <= j < |view| && SizeLabel(view[j].rec.companySize) == Some(k);
        assert SizeKey(sized[j]) == Some(k);
      }
    }
  }

  /** The company-size chart has no label other than Grande, Média and Pequena. */
  lemma SizeMeansKnownLabels(view: seq<LabeledRecord>)
    ensures forall i :: 0 <= i < |SizeMeans(AddSizeColumn(view))| ==>
      SizeMeans(AddSizeColumn(view))[i].0 in {"Grande", "Média", "Pequena"}
  {
    var r := SizeMeans(AddSizeColumn(view));
    SizeMeansLabels(view);
    forall i | 0 <= i < |r| ensures r[i].0 in {"Grande", "Média", "Pequena"} {
      assert KeyColumn(r)[i] == r[i].0;
      var j :| 0 <= j < |view| && SizeLabel(view[j].rec.companySize) == Some(r[i].0);
    }
  }

  /** Distinct size labels sorted by `SizeOrder` come in strictly increasing order. */
  lemma DistinctSizesStrictlyOrdered(r: seq<(string, real)>)
    requires DistinctKeys(r) && SortedBy(r, SizeOrder)
    requires forall i :: 0 <= i < |r| ==> r[i].0 in {"Grande", "Média", "Pequena"}
    ensures forall i, j :: 0 <= i < j < |r| ==> SizeOrder(r[i]) < SizeOrder(r[j])
  {
    forall i, j | 0 <= i < j < |r| ensures SizeOrder(r[i]) < SizeOrder(r[j]) {
      assert SizeOrder(r[i]) <= SizeOrder(r[j]);
    }
  }

  /** The company-size chart lists its labels in the order Grande, Média, Pequena. */
  lemma SizeMeansOrdered(view: seq<LabeledRecord>)
    ensures forall i, j :: 0 <= i < j < |SizeMeans(AddSizeColumn(view))| ==>
      SizeOrder(SizeMeans(AddSizeColumn(view))[i]) < SizeOrder(SizeMeans(AddSizeColumn(view))[j])
  {
    SizeMeansKnownLabels(view);
    SortedGroupRows(SizePairs(AddSizeColumn(view)), SizeOrder);
    DistinctSizesStrictlyOrdered(SizeMeans(AddSizeColumn(view)));
  }

  /** Each row of the company-size chart holds the mean salary of the rows of that size. */
  lemma SizeMeansValues(view: seq<LabeledRecord>)
    ensures forall i :: 0 <= i < |SizeMeans(AddSizeColumn(view))| ==>
      SizeMean(AddSizeColumn(view), SizeMeans(AddSizeColumn(view))[i].0) == Some(SizeMeans(AddSizeColumn(view))[i].1)
  {
    var sized := AddSizeColumn(view);
    var r := SizeMeans(sized);
    SortedGroupRows(SizePairs(sized), SizeOrder);
    forall i | 0 <= i < |r| ensures SizeMean(sized, r[i].0) == Some(r[i].1) {
      PairsMean(sized, SizeKey, SizedSalaryOf, r[i].0);
    }
  }
}
