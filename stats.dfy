/** The four reporters `time_stats`, `station_stats`, `trip_duration_stats` and
    `user_stats`, as the values they print. */
module Stats {
  import opened Wrappers
  import opened Text
  import opened Columns
  import opened Trips
  import opened Filters

  function IntLe(a: int, b: int): bool { a <= b }

  /** pandas sorts tied modes by `<`; on numbers and on strings that is a total order. */
  lemma SortOrdersAreTotal()
    ensures TotalOrder(IntLe)
    ensures TotalOrder(StrLe)
  {
    forall a, b ensures StrLe(a, b) || StrLe(b, a) {
      StrLeTotal(a, b);
    }
    forall a, b, c | StrLe(a, b) && StrLe(b, c) ensures StrLe(a, c) {
      StrLeTransitive(a, b, c);
    }
  }

  /** Both orders are antisymmetric, so the least of the tied modes is a single
      value. */
  lemma SortOrdersAreAntisymmetric()
    ensures Antisymmetric(IntLe)
    ensures Antisymmetric(StrLe)
  {
    forall a, b | StrLe(a, b) && StrLe(b, a) ensures a == b {
      StrLeAntisymmetric(a, b);
    }
  }

  datatype TimeReport = TimeReport(month: int, day: string, hour: int)

  datatype StationReport = StationReport(start: string, end: string, pair: string)

  datatype DurationReport = DurationReport(total: int, mean: int)

  datatype Demographics = Demographics(genders: map<string, nat>, earliest: int, latest: int, popular: int)

  datatype UserReport = UserReport(userTypes: map<string, nat>, demographics: Option<Demographics>)

  datatype Report = Report(time: TimeReport, station: StationReport, duration: DurationReport, user: UserReport)

  /** `time_stats`: the most popular month, weekday and start hour. */
  function TimeStats(df: seq<Trip>): TimeReport
    requires |df| > 0
  {
    TimeReport(Mode(MonthColumn(df), IntLe), Mode(DayColumn(df), StrLe), Mode(HourColumn(df), IntLe))
  }

  /** Each reported time is a most frequent value of its column, and a month
      and an hour that occur in the table. */
  lemma TimeStatsArePopular(df: seq<Trip>)
    requires |df| > 0
    ensures var r := TimeStats(df);
      IsMode(MonthColumn(df), r.month) && 1 <= r.month <= 12 &&
      IsMode(DayColumn(df), r.day) &&
      IsMode(HourColumn(df), r.hour) && 0 <= r.hour <= 23
  {
    var r := TimeStats(df);
    assert exists i :: 0 <= i < |df| && MonthColumn(df)[i] == r.month;
    assert exists i :: 0 <= i < |df| && HourColumn(df)[i] == r.hour;
  }

  /** Ties are broken towards the smallest value, as `mode()[0]` does. */
  lemma TimeStatsTieBreak(df: seq<Trip>)
    requires |df| > 0
    ensures WinsTies(MonthColumn(df), TimeStats(df).month, IntLe)
    ensures WinsTies(DayColumn(df), TimeStats(df).day, StrLe)
    ensures WinsTies(HourColumn(df), TimeStats(df).hour, IntLe)
  {
    SortOrdersAreTotal();
    ModeIsLeast(MonthColumn(df), IntLe);
    ModeIsLeast(DayColumn(df), StrLe);
    ModeIsLeast(HourColumn(df), IntLe);
  }

  /** `months[popular_month - 1].title()`: how the popular month is printed. */
  function MonthLabel(m: Month): string
  {
    Title(MonthNames[m - 1])
  }

  /** The printed month names the month it stands for. */
  lemma MonthLabelNamesMonth(m: Month)
    ensures MonthIndex(Lower(MonthLabel(m))) == Some(m)
  {
    MonthNamesLowercase();
    LowerTitleOfLowercase(MonthNames[m - 1]);
    MonthIndexOfName(m);
  }

  /** `station_stats`: the most popular start station, end station and
      "start, end" pair. */
  function StationStats(df: seq<Trip>): StationReport
    requires |df| > 0
  {
    StationReport(Mode(StartColumn(df), StrLe), Mode(EndColumn(df), StrLe), Mode(PairColumn(df), StrLe))
  }

  /** Each reported station is a most frequent value of its column, and the
      pair is the label of some trip of the table. */
  lemma StationStatsArePopular(df: seq<Trip>)
    requires |df| > 0
    ensures var r := StationStats(df);
      IsMode(StartColumn(df), r.start) &&
      IsMode(EndColumn(df), r.end) &&
      IsMode(PairColumn(df), r.pair) &&
      exists i :: 0 <= i < |df| && r.pair == PairLabel(df[i].startStation, df[i].endStation)
  {
    var r := StationStats(df);
    assert exists i :: 0 <= i < |df| && PairColumn(df)[i] == r.pair;
  }

  /** Each reported station or pair is the only most frequent value of its
      column that sorts before every other one as frequent. */
  lemma StationStatsUnique(df: seq<Trip>)
    requires |df| > 0
    ensures forall x :: IsMode(StartColumn(df), x) && WinsTies(StartColumn(df), x, StrLe) ==> x == StationStats(df).start
    ensures forall x :: IsMode(EndColumn(df), x) && WinsTies(EndColumn(df), x, StrLe) ==> x == StationStats(df).end
    ensures forall x :: IsMode(PairColumn(df), x) && WinsTies(PairColumn(df), x, StrLe) ==> x == StationStats(df).pair
  {
    SortOrdersAreTotal();
    SortOrdersAreAntisymmetric();
    forall x | IsMode(StartColumn(df), x) && WinsTies(StartColumn(df), x, StrLe) ensures x == StationStats(df).start {
      ModeUnique(StartColumn(df), StrLe, x);
    }
    forall x | IsMode(EndColumn(df), x) && WinsTies(EndColumn(df), x, StrLe) ensures x == StationStats(df).end {
      ModeUnique(EndColumn(df), StrLe, x);
    }
    forall x | IsMode(PairColumn(df), x) && WinsTies(PairColumn(df), x, StrLe) ensures x == StationStats(df).pair {
      ModeUnique(PairColumn(df), StrLe, x);
    }
  }

  /** A trip that occurs twice among three rows gives the popular pair. */
  lemma StationPairExample(a: Trip, b: Trip)
    requires PairLabel(a.startStation, a.endStation) != PairLabel(b.startStation, b.endStation)
    ensures StationStats([a, b, a]).pair == PairLabel(a.startStation, a.endStation)
  {
    var la, lb := PairLabel(a.startStation, a.endStation), PairLabel(b.startStation, b.endStation);
    var col := PairColumn([a, b, a]);
    assert col == [la, lb, la];
    assert multiset(col)[la] == 2;
    assert multiset(col)[lb] == 1;
    var r := StationStats([a, b, a]).pair;
    assert r in col;
  }

  /** `int(x)` of the quotient `a / n`: division truncated towards zero. */
  function TruncDiv(a: int, n: int): (q: int)
    requires n > 0
    ensures a >= 0 ==> q * n <= a < (q + 1) * n
    ensures a < 0 ==> (q - 1) * n < a <= q * n
  {
    if a >= 0 then a / n else -((-a) / n)
  }

  /** `trip_duration_stats`: total and truncated mean of the trip duration. */
  function DurationStats(df: seq<Trip>): DurationReport
    requires |df| > 0
  {
    var total := Sum(DurationColumn(df));
    DurationReport(total, TruncDiv(total, |df|))
  }

  /** The total is the sum of the durations, and the mean is the total divided by
      the number of trips, truncated towards zero. */
  lemma DurationStatsMeaning(df: seq<Trip>)
    requires |df| > 0
    ensures var r, n := DurationStats(df), |df|;
      r.total == Sum(DurationColumn(df)) &&
      (r.total >= 0 ==> r.mean * n <= r.total < (r.mean + 1) * n) &&
      (r.total < 0 ==> (r.mean - 1) * n < r.total <= r.mean * n)
  {
  }

  /** Durations of 10 and 21 seconds give a total of 31 and a mean of 15
      (15.5 truncated). */
  lemma DurationExample(a: Trip, b: Trip)
    requires a.duration == 10 && b.duration == 21
    ensures DurationStats([a, b]) == DurationReport(31, 15)
  {
    assert DurationColumn([a, b]) == [10, 21];
    assert Sum([10, 21]) == 10 + Sum([21]);
    assert Sum([21]) == 21 + Sum([]);
    assert TruncDiv(31, 2) == 15;
  }

  /** With no negative duration the mean lies between the shortest and the
      longest trip. */
  lemma MeanBetweenShortestAndLongest(df: seq<Trip>)
    requires |df| > 0
    requires forall t :: t in df ==> t.duration >= 0
    ensures Min(DurationColumn(df)) <= DurationStats(df).mean <= Max(DurationColumn(df))
  {
    var col := DurationColumn(df);
    var lo, hi := Min(col), Max(col);
    assert lo >= 0 by {
      assert exists i :: 0 <= i < |df| && lo == df[i].duration;
    }
    SumBounds(col, lo, hi);
    TruncDivBetween(Sum(col), |df|, lo, hi);
    DurationStatsMeaning(df);
  }

  lemma TruncDivBetween(total: int, n: int, lo: int, hi: int)
    requires n > 0 && 0 <= lo
    requires n * lo <= total <= n * hi
    ensures lo <= TruncDiv(total, n) <= hi
  {
    var q := TruncDiv(total, n);
    assert 0 <= total;
    if q < lo {
      MulMonotone(q + 1, lo, n);
    }
    if q > hi {
      MulMonotone(hi + 1, q, n);
    }
  }

  lemma MulMonotone(a: int, b: int, n: int)
    requires a <= b && n > 0
    ensures a * n <= b * n
  {
  }

  /** `user_stats`: counts per user type and, except for Washington, counts per
      gender and the earliest, latest and most popular birth year. A city other
      than Washington whose selection holds no birth year fails. */
  function UserStats(df: seq<Trip>, city: string): Result<UserReport, Fault>
  {
    var userTypes := ValueCounts(UserTypeColumn(df));
    if city == "washington" then Success(UserReport(userTypes, None))
    else
      var years := Present(BirthYearColumn(df));
      if years == [] then Failure(NoBirthYears)
      else
        var genders := ValueCounts(Present(GenderColumn(df)));
        Success(UserReport(userTypes, Some(Demographics(genders, Min(years), Max(years), Mode(years, IntLe)))))
  }

  /** The user report fails exactly for a city other than Washington whose
      selection holds no birth year; otherwise it counts every user type, and
      outside Washington every gender, and gives birth years that occur in the
      selection: the earliest, the latest and a most frequent one. */
  lemma UserStatsMeaning(df: seq<Trip>, city: string)
    ensures var r := UserStats(df, city);
      (r.Failure? <==> city != "washington" && Present(BirthYearColumn(df)) == []) &&
      (r.Failure? ==> r.error == NoBirthYears) &&
      (r.Success? ==> r.value.userTypes == ValueCounts(UserTypeColumn(df))) &&
      (r.Success? ==> (r.value.demographics.None? <==> city == "washington"))
    ensures var r := UserStats(df, city);
      r.Success? && r.value.demographics.Some? ==>
        var d, years := r.value.demographics.value, Present(BirthYearColumn(df));
        d.genders == ValueCounts(Present(GenderColumn(df))) &&
        IsMode(years, d.popular) &&
        d.earliest in years && d.latest in years &&
        (forall y :: y in years ==> d.earliest <= y <= d.latest)
  {
  }

  /** The earliest birth year is no later than the most popular, which is no
      later than the most recent. */
  lemma BirthYearsOrdered(df: seq<Trip>, city: string)
    requires UserStats(df, city).Success? && UserStats(df, city).value.demographics.Some?
    ensures var d := UserStats(df, city).value.demographics.value;
            d.earliest <= d.popular <= d.latest
  {
    UserStatsMeaning(df, city);
  }

  /** The four reporters in the order `main` calls them; the first fault ends
      the run. `time_stats` is the first to fail on an empty selection. */
  function ComputeReport(df: seq<Trip>, city: string): Result<Report, Fault>
  {
    if |df| == 0 then Failure(EmptySelection)
    else match UserStats(df, city)
      case Failure(e) => Failure(e)
      case Success(user) => Success(Report(TimeStats(df), StationStats(df), DurationStats(df), user))
  }

  /** The report fails on an empty selection, and on a city other than
      Washington whose selection holds no birth year; Washington's report has
      no gender or birth-year part and every other city's has one. */
  lemma ComputeReportOutcome(df: seq<Trip>, city: string)
    ensures var r := ComputeReport(df, city);
      (r.Failure? <==> |df| == 0 || (city != "washington" && Present(BirthYearColumn(df)) == [])) &&
      (r.Failure? ==> r.error == (if |df| == 0 then EmptySelection else NoBirthYears)) &&
      (r.Success? ==> (r.value.user.demographics.None? <==> city == "washington"))
  {
    UserStatsMeaning(df, city);
  }
}
