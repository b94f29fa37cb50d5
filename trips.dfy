/** One row of a city's trip table, after the start time has been split into the
    month, weekday name and hour columns the script derives from it. */
module Trips {
  import opened Wrappers

  /** `Start Time.dt.month`. */
  type Month = m: int | 1 <= m <= 12 witness 1

  /** `Start Time.dt.hour`. */
  type Hour = h: int | 0 <= h <= 23 witness 0

  /** A trip record. Gender and birth year are missing cells (NaN) in some rows
      of the Chicago and New York City files and absent from the Washington file. */
  datatype Trip = Trip(
    month: Month,
    dayOfWeek: string,
    hour: Hour,
    startStation: string,
    endStation: string,
    duration: int,
    userType: string,
    gender: Option<string>,
    birthYear: Option<int>)

  function MonthColumn(df: seq<Trip>): seq<int>
  {
    seq(|df|, i requires 0 <= i < |df| => df[i].month as int)
  }

  function DayColumn(df: seq<Trip>): seq<string>
  {
    seq(|df|, i requires 0 <= i < |df| => df[i].dayOfWeek)
  }

  function HourColumn(df: seq<Trip>): seq<int>
  {
    seq(|df|, i requires 0 <= i < |df| => df[i].hour as int)
  }

  function StartColumn(df: seq<Trip>): seq<string>
  {
    seq(|df|, i requires 0 <= i < |df| => df[i].startStation)
  }

  function EndColumn(df: seq<Trip>): seq<string>
  {
    seq(|df|, i requires 0 <= i < |df| => df[i].endStation)
  }

  function DurationColumn(df: seq<Trip>): seq<int>
  {
    seq(|df|, i requires 0 <= i < |df| => df[i].duration)
  }

  function UserTypeColumn(df: seq<Trip>): seq<string>
  {
    seq(|df|, i requires 0 <= i < |df| => df[i].userType)
  }

  function GenderColumn(df: seq<Trip>): seq<Option<string>>
  {
    seq(|df|, i requires 0 <= i < |df| => df[i].gender)
  }

  function BirthYearColumn(df: seq<Trip>): seq<Option<int>>
  {
    seq(|df|, i requires 0 <= i < |df| => df[i].birthYear)
  }

  /** The `Start and End Station` cell: the two station names joined by ", ". */
  function PairLabel(start: string, end: string): string
  {
    start + ", " + end
  }

  function PairColumn(df: seq<Trip>): seq<string>
  {
    seq(|df|, i requires 0 <= i < |df| => PairLabel(df[i].startStation, df[i].endStation))
  }

  predicate SeparatorAt(s: string, i: int)
  {
    0 <= i && i + 1 < |s| && s[i] == ',' && s[i + 1] == ' '
  }

  /** The position of the first ", " in `s`. */
  function FindSeparator(s: string): (r: Option<nat>)
    ensures r.Some? ==> SeparatorAt(s, r.value)
    ensures forall j :: 0 <= j < (if r.Some? then r.value else |s|) ==> !SeparatorAt(s, j)
  {
    if |s| < 2 then None
    else if s[0] == ',' && s[1] == ' ' then Some(0)
    else
      assert forall j :: 1 <= j < |s| ==> SeparatorAt(s, j) == SeparatorAt(s[1..], j - 1);
      match FindSeparator(s[1..])
      case None => None
      case Some(i) => Some(i + 1)
  }

  /** Reads a pair text back as its start and end station, splitting at the
      first ", ". */
  function SplitPair(text: string): Option<(string, string)>
  {
    match FindSeparator(text)
    case None => None
    case Some(i) => Some((text[..i], text[i + 2..]))
  }

  /** The text loses nothing when the start station contains no ", ";
      with SplitPairJoins this is an if-and-only-if. */
  lemma PairLabelRoundTrip(start: string, end: string)
    requires forall j :: !SeparatorAt(start, j)
    ensures SplitPair(PairLabel(start, end)) == Some((start, end))
  {
    var l := PairLabel(start, end);
    assert forall j :: 0 <= j < |start| ==> l[j] == start[j];
    assert l[|start|] == ',' && l[|start| + 1] == ' ';
    forall j | 0 <= j < |start|
      ensures !SeparatorAt(l, j)
    {
      assert !SeparatorAt(start, j);
      if j + 1 < |start| {
        assert l[j + 1] == start[j + 1];
      }
    }
    assert SeparatorAt(l, |start|);
    var r := FindSeparator(l);
    assert r.Some? && r.value == |start|;
    assert l[..|start|] == start;
    assert l[|start| + 2..] == end;
  }

  /** Every text that splits is the text of the two parts it splits into. */
  lemma SplitPairJoins(text: string, start: string, end: string)
    requires SplitPair(text) == Some((start, end))
    ensures PairLabel(start, end) == text
    ensures forall j :: 0 <= j < |start| ==> !SeparatorAt(start, j)
  {
    var i := FindSeparator(text).value;
    assert text == text[..i] + ", " + text[i + 2..];
    forall j | 0 <= j < |start|
      ensures !SeparatorAt(start, j)
    {
      assert !SeparatorAt(text, j);
    }
  }
}
