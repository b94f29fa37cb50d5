/** Choosing and applying the filters: the city, month and day prompts of
    `get_filters`, the city-to-file table, and the row selection of `load_data`. */
module Filters {
  import opened Wrappers
  import opened Text
  import opened Columns
  import opened Trips

  const Cities: seq<string> := ["chicago", "new york city", "washington"]

  const MonthNames: seq<string> :=
    ["january", "february", "march", "april", "may", "june", "july",
     "august", "september", "october", "november", "december"]

  const MonthOptions: seq<string> := ["all"] + MonthNames

  const DayNames: seq<string> :=
    ["monday", "tuesday", "wednesday", "thursday", "friday", "saturday", "sunday"]

  const DayOptions: seq<string> := ["all"] + DayNames

  /** The weekday names pandas writes into the `day_of_week` column. */
  const WeekdayNames: seq<string> :=
    ["Monday", "Tuesday", "Wednesday", "Thursday", "Friday", "Saturday", "Sunday"]

  /** `CITY_DATA`: the file each city's trips are read from. */
  const CityData: map<string, string> :=
    map["chicago" := "chicago.csv", "new york city" := "new_york_city.csv", "washington" := "washington.csv"]

  /** The ways a session can fail; the script lets each one end the program. */
  datatype Fault =
    | UnknownCity      // `CITY_DATA[city]` raises KeyError
    | MissingFile      // `pd.read_csv` cannot open the city's file
    | UnknownMonth     // `months.index(month)` raises ValueError
    | EmptySelection   // `mode()[0]` of an empty column raises
    | NoBirthYears     // `int(min())` of a column with no birth year raises

  /** `CITY_DATA[city]`, with the KeyError as `None`. */
  function CityFile(city: string): (r: Option<string>)
    ensures r.Some? <==> city in Cities
  {
    if city in CityData then Some(CityData[city]) else None
  }

  /** A prompt accepts a reply when its lower-cased text is one of the options. */
  predicate Accepted(reply: string, options: seq<string>)
  {
    Lower(reply) in options
  }

  /** The outcome of one prompt loop: the first accepted reply at or after `pos`,
      lower-cased, and the position after it; `None` and the end of the replies
      when no reply is accepted. */
  function Prompt(input: seq<string>, pos: nat, options: seq<string>): (r: (Option<string>, nat))
    requires pos <= |input|
    ensures pos <= r.1 <= |input|
    ensures r.0.Some? ==> pos < r.1 && r.0.value in options
    decreases |input| - pos
  {
    if pos == |input| then (None, pos)
    else if Accepted(input[pos], options) then (Some(Lower(input[pos])), pos + 1)
    else Prompt(input, pos + 1, options)
  }

  /** A prompt loop stops at the first accepted reply, and runs out of replies
      exactly when none from `pos` on is accepted. */
  lemma {:induction false} PromptFirstAccepted(input: seq<string>, pos: nat, options: seq<string>)
    requires pos <= |input|
    ensures var (value, next) := Prompt(input, pos, options);
      (value.None? <==> forall i :: pos <= i < |input| ==> !Accepted(input[i], options)) &&
      (value.Some? ==>
        value.value == Lower(input[next - 1]) && Accepted(input[next - 1], options) &&
        forall i :: pos <= i < next - 1 ==> !Accepted(input[i], options))
    decreases |input| - pos
  {
    if pos < |input| && !Accepted(input[pos], options) {
      PromptFirstAccepted(input, pos + 1, options);
    }
  }

  /** One prompt loop of `get_filters`: replies are read from `input` starting
      at `pos` until one is accepted; the accepted value is the lower-cased
      reply. Running out of replies yields `None`. */
  method GetFilter(input: seq<string>, pos: nat, options: seq<string>) returns (value: Option<string>, next: nat)
    requires pos <= |input|
    ensures pos <= next <= |input|
    ensures value.Some? ==> pos < next && value.value == Lower(input[next - 1]) && value.value in options
    ensures value.None? ==> next == |input|
    ensures forall i :: pos <= i < (if value.Some? then next - 1 else next) ==> !Accepted(input[i], options)
    ensures (value, next) == Prompt(input, pos, options)
  {
    next := pos;
    while next < |input|
      invariant pos <= next <= |input|
      invariant forall i :: pos <= i < next ==> !Accepted(input[i], options)
      invariant Prompt(input, next, options) == Prompt(input, pos, options)
    {
      var reply := Lower(input[next]);
      next := next + 1;
      if reply in options {
        return Some(reply), next;
      }
    }
    return None, next;
  }

  /** The city, month and day the user chose. */
  datatype Selection = Selection(city: string, month: string, day: string)

  predicate ValidSelection(sel: Selection)
  {
    sel.city in Cities && sel.month in MonthOptions && sel.day in DayOptions
  }

  /** The three prompt loops in order, each starting where the one before
      stopped; any of them running out of replies ends them all. */
  function Choose(input: seq<string>, pos: nat): (r: (Option<Selection>, nat))
    requires pos <= |input|
    ensures r.1 <= |input|
    ensures r.0.Some? ==> pos + 3 <= r.1 && ValidSelection(r.0.value)
    ensures r.0.None? ==> r.1 == |input|
  {
    var (city, i) := Prompt(input, pos, Cities);
    if city.None? then (None, |input|)
    else
      var (month, j) := Prompt(input, i, MonthOptions);
      if month.None? then (None, |input|)
      else
        var (day, k) := Prompt(input, j, DayOptions);
        if day.None? then (None, |input|) else (Some(Selection(city.value, month.value, day.value)), k)
  }

  /** An unknown city and a shouted one: the first is asked again, the second is
      taken lower-cased, and the month and day prompts take the next replies. */
  lemma ChooseExample()
    ensures Choose(["Boston", "CHICAGO", "All", "Monday"], 0) == (Some(Selection("chicago", "all", "monday")), 4)
  {
    var input := ["Boston", "CHICAGO", "All", "Monday"];
    assert !Accepted(input[0], Cities) by {
      assert Lower(input[0])[0] == 'b';
    }
    assert Lower(input[1]) == "chicago";
    assert Lower(input[2]) == "all";
    assert Lower(input[3]) == "monday";
  }

  /** `get_filters`: the three prompt loops in order. */
  method GetFilters(input: seq<string>, pos: nat) returns (sel: Option<Selection>, next: nat)
    requires pos <= |input|
    ensures pos <= next <= |input|
    ensures sel.Some? ==> ValidSelection(sel.value) && pos + 3 <= next
    ensures sel.None? ==> next == |input|
    ensures (sel, next) == Choose(input, pos)
  {
    var city, month, day;
    city, next := GetFilter(input, pos, Cities);
    if city.None? {
      return None, next;
    }
    month, next := GetFilter(input, next, MonthOptions);
    if month.None? {
      return None, next;
    }
    day, next := GetFilter(input, next, DayOptions);
    if day.None? {
      return None, next;
    }
    sel := Some(Selection(city.value, month.value, day.value));
  }

  /** No option starts or ends with a space. */
  predicate Trimmed(options: seq<string>)
  {
    forall i :: 0 <= i < |options| ==>
      |options[i]| > 0 && options[i][0] != ' ' && options[i][|options[i]| - 1] != ' '
  }

  lemma EnumerationsTrimmed()
    ensures Trimmed(Cities) && Trimmed(MonthOptions) && Trimmed(DayOptions)
  {
  }

  /** The prompts lower-case but do not trim: a reply with a leading or trailing
      space is refused. */
  lemma PaddedReplyRejected(reply: string, options: seq<string>)
    requires Trimmed(options)
    ensures !Accepted(" " + reply, options)
    ensures !Accepted(reply + " ", options)
  {
    var l, r := Lower(" " + reply), Lower(reply + " ");
    assert l[0] == ' ';
    assert r[|r| - 1] == ' ';
    assert forall i :: 0 <= i < |options| ==> options[i] != l && options[i] != r;
  }

  /** The reply is case-insensitive and nothing else is. */
  lemma CityRepliesExample()
    ensures Accepted("CHICAGO", Cities) && Accepted("New York City", Cities)
    ensures !Accepted("Chicago ", Cities) && !Accepted("new_york_city", Cities)
  {
    assert Lower("CHICAGO") == "chicago";
    assert Lower("New York City") == "new york city";
    PaddedReplyRejected("Chicago", Cities);
    assert "Chicago" + " " == "Chicago ";
    assert Lower("new_york_city")[3] == '_';
  }

  /** `months.index(month) + 1`. */
  function MonthIndex(name: string): (r: Option<Month>)
    ensures r.Some? <==> name in MonthNames
    ensures r.Some? ==> MonthNames[r.value - 1] == name
  {
    match IndexOf(MonthNames, name)
    case None => None
    case Some(i) => Some(i + 1)
  }

  /** Different month names have different indices. */
  lemma MonthIndexInjective(a: string, b: string)
    requires MonthIndex(a).Some? && MonthIndex(a) == MonthIndex(b)
    ensures a == b
  {
  }

  lemma MonthNamesLowercase()
    ensures forall k, i :: 0 <= k < |MonthNames| && 0 <= i < |MonthNames[k]| ==> IsLowerLetter(MonthNames[k][i])
  {
  }

  lemma MonthNamesDistinct()
    ensures Distinct(MonthNames)
  {
  }

  /** Each month number is the index of its own name. */
  lemma MonthIndexOfName(m: Month)
    ensures MonthIndex(MonthNames[m - 1]) == Some(m)
  {
    MonthNamesDistinct();
    IndexOfDistinct(MonthNames, m - 1);
  }

  /** The row condition of `load_data`: the month equals the month's index
      unless the choice is "all", and the weekday equals the title-cased day
      unless the choice is "all". */
  predicate Matches(t: Trip, month: string, day: string)
  {
    (month == "all" || MonthIndex(month) == Some(t.month)) &&
    (day == "all" || t.dayOfWeek == Title(day))
  }

  /** What `load_data` returns for a table already read from the city's file:
      the rows that meet the condition, in order, or the ValueError an unknown
      month name raises. */
  function Load(table: seq<Trip>, month: string, day: string): (r: Result<seq<Trip>, Fault>)
    ensures r.Failure? <==> month !in MonthOptions
    ensures r.Failure? ==> r.error == UnknownMonth
  {
    if month != "all" && MonthIndex(month).None? then Failure(UnknownMonth)
    else Success(Where(table, (t: Trip) => Matches(t, month, day)))
  }

  /** `load_data` past `read_csv`: `df` is reassigned by the month filter and
      then by the day filter. */
  method LoadData(table: seq<Trip>, month: string, day: string) returns (r: Result<seq<Trip>, Fault>)
    ensures r == Load(table, month, day)
  {
    ghost var both := (t: Trip) => Matches(t, month, day);
    var df := table;
    var monthKeep: Trip -> bool := (t: Trip) => true;
    if month != "all" {
      var m := MonthIndex(month);
      if m.None? {
        return Failure(UnknownMonth);
      }
      var index := m.value;
      monthKeep := (t: Trip) => t.month == index;
      df := Where(df, monthKeep);
    } else {
      WhereAll(table, monthKeep);
    }
    ghost var afterMonth := df;
    assert afterMonth == Where(table, monthKeep);
    if day != "all" {
      var title := Title(day);
      df := Where(df, (t: Trip) => t.dayOfWeek == title);
      WhereThenWhere(table, monthKeep, (t: Trip) => t.dayOfWeek == title, both);
    } else {
      WhereSame(table, monthKeep, both);
    }
    r := Success(df);
  }

  /** With "all" for both month and day the whole table is returned. */
  lemma LoadAllIsWholeTable(table: seq<Trip>)
    ensures Load(table, "all", "all") == Success(table)
  {
    WhereAll(table, (t: Trip) => Matches(t, "all", "all"));
  }

  /** `load_data` keeps exactly the matching rows: the result is a subsequence of
      the table, every row in it matches, and every matching row keeps all its
      occurrences. */
  lemma LoadKeepsExactlyMatching(table: seq<Trip>, month: string, day: string)
    requires month in MonthOptions
    ensures Load(table, month, day).Success?
    ensures IsSubsequence(Load(table, month, day).value, table)
    ensures forall t :: t in Load(table, month, day).value ==> t in table && Matches(t, month, day)
    ensures forall t :: multiset(Load(table, month, day).value)[t] ==
                          if Matches(t, month, day) then multiset(table)[t] else 0
  {
    WhereIsSubsequence(table, (t: Trip) => Matches(t, month, day));
    WhereCounts(table, (t: Trip) => Matches(t, month, day));
  }

  /** Filtering by month and then by day selects the same rows as filtering once
      by both. */
  lemma LoadMonthThenDay(table: seq<Trip>, month: string, day: string)
    requires month in MonthOptions
    ensures Load(table, month, "all").Success?
    ensures Load(Load(table, month, "all").value, "all", day) == Load(table, month, day)
  {
    WhereThenWhere(table, (t: Trip) => Matches(t, month, "all"), (t: Trip) => Matches(t, "all", day),
                   (t: Trip) => Matches(t, month, day));
  }

  /** Loading an already loaded selection with the same filters changes nothing. */
  lemma LoadIdempotent(table: seq<Trip>, month: string, day: string)
    requires month in MonthOptions
    ensures Load(table, month, day).Success?
    ensures Load(Load(table, month, day).value, month, day) == Load(table, month, day)
  {
    var p := (t: Trip) => Matches(t, month, day);
    WhereThenWhere(table, p, p, p);
  }

  /** A named month keeps exactly the rows of that month. */
  lemma MonthFilterMeaning(t: Trip, month: string)
    requires month in MonthNames
    ensures Matches(t, month, "all") <==> MonthNames[t.month - 1] == month
  {
    if MonthNames[t.month - 1] == month {
      MonthIndexOfName(t.month);
    }
  }

  lemma DayNamesLowercase()
    ensures forall k, i :: 0 <= k < |DayNames| && 0 <= i < |DayNames[k]| ==> IsLowerLetter(DayNames[k][i])
  {
  }

  lemma DayTitles()
    ensures forall i :: 0 <= i < |DayNames| ==> Title(DayNames[i]) == WeekdayNames[i]
  {
    forall i | 0 <= i < |DayNames|
      ensures Title(DayNames[i]) == WeekdayNames[i]
    {
      DayNamesLowercase();
      TitleOfLowerWordIs(DayNames[i], WeekdayNames[i]);
    }
  }

  lemma DayNamesDistinct()
    ensures Distinct(DayNames)
  {
  }

  lemma WeekdayNamesLower()
    ensures forall i :: 0 <= i < |WeekdayNames| ==> Lower(WeekdayNames[i]) == DayNames[i]
  {
    DayTitles();
    DayNamesLowercase();
    forall i | 0 <= i < |WeekdayNames|
      ensures Lower(WeekdayNames[i]) == DayNames[i]
    {
      LowerTitleOfLowercase(DayNames[i]);
    }
  }

  /** A named day keeps exactly the rows whose pandas weekday name is that day,
      compared case-insensitively. */
  lemma DayFilterMeaning(t: Trip, day: string)
    requires day in DayNames
    requires t.dayOfWeek in WeekdayNames
    ensures Matches(t, "all", day) <==> Lower(t.dayOfWeek) == day
  {
    DayTitles();
    DayNamesDistinct();
    WeekdayNamesLower();
  }
}
