/** The report `getTraktorData` assembles: table totals, then for each
    year from 2020 down to 2011 whose yearly chart is not empty a section
    with that chart and, for each month from 12 down to 1 whose monthly
    chart is not empty, a month section. This module says which sections a
    correct report holds and proves the shape that follows. */
module Rollup {
  import opened Records
  import opened Charts

  /** The years in (lo, hi] in which some play refers to a track, newest first. */
  ghost function ActiveYears(s: Tables, hi: int, lo: int): seq<int>
    decreases hi - lo
  {
    if lo >= hi then []
    else ActiveYears(s, hi, lo + 1) + (if Charted(s, Year(lo + 1)) then [lo + 1] else [])
  }

  /** The months in (lo, hi] of `year` in which some play refers to a track, latest first. */
  ghost function ActiveMonths(s: Tables, year: int, hi: int, lo: int): seq<int>
    decreases hi - lo
  {
    if lo >= hi then []
    else ActiveMonths(s, year, hi, lo + 1) + (if Charted(s, YearMonth(year, lo + 1)) then [lo + 1] else [])
  }

  /** Walking one year further down appends that year when it is charted. */
  lemma ActiveYearsStep(s: Tables, hi: int, lo: int)
    requires lo < hi
    ensures ActiveYears(s, hi, lo) == ActiveYears(s, hi, lo + 1) + (if Charted(s, Year(lo + 1)) then [lo + 1] else [])
  {
  }

  lemma ActiveMonthsStep(s: Tables, year: int, hi: int, lo: int)
    requires lo < hi
    ensures ActiveMonths(s, year, hi, lo)
      == ActiveMonths(s, year, hi, lo + 1) + (if Charted(s, YearMonth(year, lo + 1)) then [lo + 1] else [])
  {
  }

  function YearsOf(sections: seq<TraktorDataByYear>): seq<int> {
    seq(|sections|, i requires 0 <= i < |sections| => sections[i].year)
  }

  function MonthsOf(sections: seq<TraktorByYearAndMonth>): seq<int> {
    seq(|sections|, i requires 0 <= i < |sections| => sections[i].month)
  }

  lemma YearsOfAppend(sections: seq<TraktorDataByYear>, y: TraktorDataByYear)
    ensures YearsOf(sections + [y]) == YearsOf(sections) + [y.year]
  {
    var l, r := YearsOf(sections + [y]), YearsOf(sections) + [y.year];
    assert |l| == |r|;
    forall i | 0 <= i < |l| ensures l[i] == r[i] {
      if i < |sections| {
        assert (sections + [y])[i] == sections[i];
      }
    }
  }

  lemma MonthsOfAppend(sections: seq<TraktorByYearAndMonth>, m: TraktorByYearAndMonth)
    ensures MonthsOf(sections + [m]) == MonthsOf(sections) + [m.month]
  {
    var l, r := MonthsOf(sections + [m]), MonthsOf(sections) + [m.month];
    assert |l| == |r|;
    forall i | 0 <= i < |l| ensures l[i] == r[i] {
      if i < |sections| {
        assert (sections + [m])[i] == sections[i];
      }
    }
  }

  ghost predicate MonthSectionOk(s: Tables, year: int, m: TraktorByYearAndMonth) {
    m.year == year && IsChart(s, PlaysByMonthAndYearStatement(m.month, year), m.charts)
  }

  ghost predicate YearSectionOk(s: Tables, y: TraktorDataByYear) {
    && IsChart(s, PlaysByYearStatement(y.year), y.charts)
    && MonthsOf(y.byMonth) == ActiveMonths(s, y.year, 12, 0)
    && forall j :: 0 <= j < |y.byMonth| ==> MonthSectionOk(s, y.year, y.byMonth[j])
  }

  /** `d` is a correct report on `s`: the two row counts, one section per
      active year (2020 down to 2011), each holding its yearly chart and one
      section per active month (12 down to 1) holding its monthly chart. */
  ghost predicate IsReport(s: Tables, d: TraktorData) {
    && d.plays == |s.plays|
    && d.tracks == |s.tracks|
    && YearsOf(d.byYear) == ActiveYears(s, 2020, 2010)
    && forall k :: 0 <= k < |d.byYear| ==> YearSectionOk(s, d.byYear[k])
  }

  lemma {:induction false} ActiveYearsLaw(s: Tables, hi: int, lo: int)
    ensures forall i, j :: 0 <= i < j < |ActiveYears(s, hi, lo)| ==> ActiveYears(s, hi, lo)[i] > ActiveYears(s, hi, lo)[j]
    ensures forall i :: 0 <= i < |ActiveYears(s, hi, lo)| ==> lo < ActiveYears(s, hi, lo)[i] <= hi
    ensures forall y :: lo < y <= hi ==> (y in ActiveYears(s, hi, lo) <==> Charted(s, Year(y)))
    decreases hi - lo
  {
    if lo < hi {
      ActiveYearsLaw(s, hi, lo + 1);
    }
  }

  lemma {:induction false} ActiveMonthsLaw(s: Tables, year: int, hi: int, lo: int)
    ensures forall i, j :: 0 <= i < j < |ActiveMonths(s, year, hi, lo)| ==> ActiveMonths(s, year, hi, lo)[i] > ActiveMonths(s, year, hi, lo)[j]
    ensures forall i :: 0 <= i < |ActiveMonths(s, year, hi, lo)| ==> lo < ActiveMonths(s, year, hi, lo)[i] <= hi
    ensures forall m :: lo < m <= hi ==> (m in ActiveMonths(s, year, hi, lo) <==> Charted(s, YearMonth(year, m)))
    decreases hi - lo
  {
    if lo < hi {
      ActiveMonthsLaw(s, year, hi, lo + 1);
    }
  }

  /** A play that charts in a month charts in its year. */
  lemma MonthChartedInYear(s: Tables, year: int, month: int)
    requires Charted(s, YearMonth(year, month))
    ensures Charted(s, Year(year))
  {
    var i, j :| 0 <= i < |s.plays| && 0 <= j < |s.tracks| && CountsFor(s.plays[i], YearMonth(year, month), s.tracks[j].id);
    assert CountsFor(s.plays[i], Year(year), s.tracks[j].id);
  }

  /** The shape of a correct report: years strictly descending within
      2011..2020, months strictly descending within 1..12; every section's
      chart non-empty, ordered, and within its limit; a year (a month of a
      year) has a section exactly when some play in it refers to a track,
      so skipping the months of an empty year loses no month. */
  lemma ReportShape(s: Tables, d: TraktorData)
    requires IsReport(s, d)
    ensures forall i, j :: 0 <= i < j < |d.byYear| ==> d.byYear[i].year > d.byYear[j].year
    ensures forall k :: 0 <= k < |d.byYear| ==>
      && 2011 <= d.byYear[k].year <= 2020
      && d.byYear[k].charts != [] && |d.byYear[k].charts| <= 15
      && ChartOrdered(d.byYear[k].charts)
    ensures forall y :: 2011 <= y <= 2020 ==>
      ((exists k :: 0 <= k < |d.byYear| && d.byYear[k].year == y) <==> Charted(s, Year(y)))
    ensures forall k, i, j :: 0 <= k < |d.byYear| && 0 <= i < j < |d.byYear[k].byMonth| ==>
      d.byYear[k].byMonth[i].month > d.byYear[k].byMonth[j].month
    ensures forall k, i :: 0 <= k < |d.byYear| && 0 <= i < |d.byYear[k].byMonth| ==>
      && d.byYear[k].byMonth[i].year == d.byYear[k].year
      && 1 <= d.byYear[k].byMonth[i].month <= 12
      && d.byYear[k].byMonth[i].charts != [] && |d.byYear[k].byMonth[i].charts| <= 10
      && ChartOrdered(d.byYear[k].byMonth[i].charts)
    ensures forall k, m :: 0 <= k < |d.byYear| && 1 <= m <= 12 ==>
      ((exists i :: 0 <= i < |d.byYear[k].byMonth| && d.byYear[k].byMonth[i].month == m)
       <==> Charted(s, YearMonth(d.byYear[k].year, m)))
  {
    YearSections(s, d);
    forall k | 0 <= k < |d.byYear|
      ensures forall i, j :: 0 <= i < j < |d.byYear[k].byMonth| ==> d.byYear[k].byMonth[i].month > d.byYear[k].byMonth[j].month
      ensures forall i :: 0 <= i < |d.byYear[k].byMonth| ==>
        && d.byYear[k].byMonth[i].year == d.byYear[k].year
        && 1 <= d.byYear[k].byMonth[i].month <= 12
        && d.byYear[k].byMonth[i].charts != [] && |d.byYear[k].byMonth[i].charts| <= 10
        && ChartOrdered(d.byYear[k].byMonth[i].charts)
      ensures forall m :: 1 <= m <= 12 ==>
        ((exists i :: 0 <= i < |d.byYear[k].byMonth| && d.byYear[k].byMonth[i].month == m)
         <==> Charted(s, YearMonth(d.byYear[k].year, m)))
    {
      MonthSections(s, d.byYear[k]);
    }
  }

  /** A section's chart, when its window has a charted play: non-empty,
      within its limit, in chart order. */
  lemma SectionChart(s: Tables, q: Query, charts: seq<ChartEntry>)
    requires IsChart(s, q, charts) && q.limit > 0 && Charted(s, q.window)
    ensures charts != [] && |charts| <= q.limit && ChartOrdered(charts)
  {
    ChartFacts(s, q, charts);
  }

  lemma YearSections(s: Tables, d: TraktorData)
    requires IsReport(s, d)
    ensures forall i, j :: 0 <= i < j < |d.byYear| ==> d.byYear[i].year > d.byYear[j].year
    ensures forall k :: 0 <= k < |d.byYear| ==>
      && 2011 <= d.byYear[k].year <= 2020
      && d.byYear[k].charts != [] && |d.byYear[k].charts| <= 15
      && ChartOrdered(d.byYear[k].charts)
    ensures forall y :: 2011 <= y <= 2020 ==>
      ((exists k :: 0 <= k < |d.byYear| && d.byYear[k].year == y) <==> Charted(s, Year(y)))
  {
    YearOrder(s, d.byYear, 2020, 2010);
    YearCharts(s, d.byYear, 2020, 2010);
    YearCoverage(s, d.byYear, 2020, 2010);
  }

  lemma YearOrder(s: Tables, sections: seq<TraktorDataByYear>, hi: int, lo: int)
    requires YearsOf(sections) == ActiveYears(s, hi, lo)
    ensures forall i, j :: 0 <= i < j < |sections| ==> sections[i].year > sections[j].year
    ensures forall k :: 0 <= k < |sections| ==> lo < sections[k].year <= hi
  {
    ActiveYearsLaw(s, hi, lo);
    assert forall k :: 0 <= k < |sections| ==> sections[k].year == YearsOf(sections)[k];
  }

  lemma YearCharts(s: Tables, sections: seq<TraktorDataByYear>, hi: int, lo: int)
    requires YearsOf(sections) == ActiveYears(s, hi, lo)
    requires forall k :: 0 <= k < |sections| ==> YearSectionOk(s, sections[k])
    ensures forall k :: 0 <= k < |sections| ==>
      sections[k].charts != [] && |sections[k].charts| <= 15 && ChartOrdered(sections[k].charts)
  {
    ActiveYearsLaw(s, hi, lo);
    var ys := YearsOf(sections);
    forall k | 0 <= k < |sections|
      ensures sections[k].charts != [] && |sections[k].charts| <= 15 && ChartOrdered(sections[k].charts)
    {
      assert ys[k] in ys;
      SectionChart(s, PlaysByYearStatement(sections[k].year), sections[k].charts);
    }
  }

  lemma YearCoverage(s: Tables, sections: seq<TraktorDataByYear>, hi: int, lo: int)
    requires YearsOf(sections) == ActiveYears(s, hi, lo)
    ensures forall y :: lo < y <= hi ==>
      ((exists k :: 0 <= k < |sections| && sections[k].year == y) <==> Charted(s, Year(y)))
  {
    ActiveYearsLaw(s, hi, lo);
    var ys := YearsOf(sections);
    forall y | lo < y <= hi
      ensures (exists k :: 0 <= k < |sections| && sections[k].year == y) <==> Charted(s, Year(y))
    {
      if Charted(s, Year(y)) {
        var k :| 0 <= k < |ys| && ys[k] == y;
        assert sections[k].year == y;
      } else {
        forall k | 0 <= k < |sections| ensures sections[k].year != y {
          assert ys[k] in ys;
        }
      }
    }
  }

  lemma MonthSections(s: Tables, y: TraktorDataByYear)
    requires YearSectionOk(s, y)
    ensures forall i, j :: 0 <= i < j < |y.byMonth| ==> y.byMonth[i].month > y.byMonth[j].month
    ensures forall i :: 0 <= i < |y.byMonth| ==>
      && y.byMonth[i].year == y.year
      && 1 <= y.byMonth[i].month <= 12
      && y.byMonth[i].charts != [] && |y.byMonth[i].charts| <= 10
      && ChartOrdered(y.byMonth[i].charts)
    ensures forall m :: 1 <= m <= 12 ==>
      ((exists i :: 0 <= i < |y.byMonth| && y.byMonth[i].month == m) <==> Charted(s, YearMonth(y.year, m)))
  {
    MonthOrder(s, y.year, y.byMonth, 12, 0);
    MonthCharts(s, y.year, y.byMonth, 12, 0);
    MonthCoverage(s, y.year, y.byMonth, 12, 0);
  }

  lemma MonthOrder(s: Tables, year: int, sections: seq<TraktorByYearAndMonth>, hi: int, lo: int)
    requires MonthsOf(sections) == ActiveMonths(s, year, hi, lo)
    ensures forall i, j :: 0 <= i < j < |sections| ==> sections[i].month > sections[j].month
    ensures forall k :: 0 <= k < |sections| ==> lo < sections[k].month <= hi
  {
    ActiveMonthsLaw(s, year, hi, lo);
    assert forall k :: 0 <= k < |sections| ==> sections[k].month == MonthsOf(sections)[k];
  }

  lemma MonthCharts(s: Tables, year: int, sections: seq<TraktorByYearAndMonth>, hi: int, lo: int)
    requires MonthsOf(sections) == ActiveMonths(s, year, hi, lo)
    requires forall k :: 0 <= k < |sections| ==> MonthSectionOk(s, year, sections[k])
    ensures forall k :: 0 <= k < |sections| ==>
      sections[k].year == year &&
      sections[k].charts != [] && |sections[k].charts| <= 10 && ChartOrdered(sections[k].charts)
  {
    ActiveMonthsLaw(s, year, hi, lo);
    var ms := MonthsOf(sections);
    forall k | 0 <= k < |sections|
      ensures sections[k].year == year &&
        sections[k].charts != [] && |sections[k].charts| <= 10 && ChartOrdered(sections[k].charts)
    {
      assert MonthSectionOk(s, year, sections[k]);
      assert ms[k] in ms;
      SectionChart(s, PlaysByMonthAndYearStatement(sections[k].month, year), sections[k].charts);
    }
  }

  lemma MonthCoverage(s: Tables, year: int, sections: seq<TraktorByYearAndMonth>, hi: int, lo: int)
    requires MonthsOf(sections) == ActiveMonths(s, year, hi, lo)
    ensures forall m :: lo < m <= hi ==>
      ((exists k :: 0 <= k < |sections| && sections[k].month == m) <==> Charted(s, YearMonth(year, m)))
  {
    ActiveMonthsLaw(s, year, hi, lo);
    var ms := MonthsOf(sections);
    forall m | lo < m <= hi
      ensures (exists k :: 0 <= k < |sections| && sections[k].month == m) <==> Charted(s, YearMonth(year, m))
    {
      if Charted(s, YearMonth(year, m)) {
        var k :| 0 <= k < |ms| && ms[k] == m;
        assert sections[k].month == m;
      } else {
        forall k | 0 <= k < |sections| ensures sections[k].month != m {
          assert ms[k] in ms;
        }
      }
    }
  }

  /** No charted month is lost: every month of 2011..2020 in which some
      play refers to a track has its section in the report. */
  lemma ReportCoversEveryChartedMonth(s: Tables, d: TraktorData, year: int, month: int)
    requires IsReport(s, d)
    requires 2011 <= year <= 2020 && 1 <= month <= 12 && Charted(s, YearMonth(year, month))
    ensures exists k, i ::
      (0 <= k < |d.byYear| && 0 <= i < |d.byYear[k].byMonth| &&
       d.byYear[k].year == year && d.byYear[k].byMonth[i].month == month)
  {
    MonthChartedInYear(s, year, month);
    ReportShape(s, d);
    var k :| 0 <= k < |d.byYear| && d.byYear[k].year == year;
    var i :| 0 <= i < |d.byYear[k].byMonth| && d.byYear[k].byMonth[i].month == month;
  }
}
