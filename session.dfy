/** The restart loop of `main`, over a stream of replies and a file system
    given as values. The reference functions `SessionAt` and `Main` take the
    analysis and the pager's tables as functions of the selection and of the
    city, so what they state about the replies holds however the reports come
    out; `Analysis(files)` and `Tables(files)` are the ones the program uses. */
module Session {
  import opened Wrappers
  import opened Text
  import opened Columns
  import opened Trips
  import opened Filters
  import opened Stats
  import opened Pager

  /** What one session that reached its restart answer showed: the choices,
      the report, the raw-data pages and the reply to the restart prompt. */
  datatype SessionRecord = SessionRecord(selection: Selection, report: Report, pages: seq<Page<Trip>>, restart: string)

  /** How the program ends: the restart prompt was declined, the replies ran
      out, or a fault ended the session of the given selection. */
  datatype Ending = Quit | EndOfInput | Crashed(selection: Selection, fault: Fault)

  /** Reading the city's file, `load_data` and the four reporters. `files` maps
      file names to their trips. */
  function Analyse(files: map<string, seq<Trip>>, sel: Selection): Result<Report, Fault>
  {
    match CityFile(sel.city)
    case None => Failure(UnknownCity)
    case Some(f) =>
      if f !in files then Failure(MissingFile)
      else match Load(files[f], sel.month, sel.day)
        case Failure(e) => Failure(e)
        case Success(df) => ComputeReport(df, sel.city)
  }

  /** The table `raw_data` reads back from the city's file. */
  function RawTable(files: map<string, seq<Trip>>, city: string): seq<Trip>
  {
    match CityFile(city)
    case None => []
    case Some(f) => if f in files then files[f] else []
  }

  /** The analysis `main` runs on each selection, as a function of the
      selection. */
  function Analysis(files: map<string, seq<Trip>>): Selection -> Result<Report, Fault>
  {
    sel => Analyse(files, sel)
  }

  /** The table `raw_data` reads for each city. */
  function Tables(files: map<string, seq<Trip>>): string -> seq<Trip>
  {
    city => RawTable(files, city)
  }

  lemma AnalyseSteps(files: map<string, seq<Trip>>, sel: Selection, file: string, df: Result<seq<Trip>, Fault>)
    requires CityFile(sel.city) == Some(file) && file in files
    requires df == Load(files[file], sel.month, sel.day)
    ensures RawTable(files, sel.city) == files[file]
    ensures df.Failure? ==> Analyse(files, sel) == Failure(df.error)
    ensures df.Success? ==> Analyse(files, sel) == ComputeReport(df.value, sel.city)
  {
  }

  /** The part of one session between the prompts and the pager: reading the
      city's file, `load_data` and the four reporters, stopping at the first
      fault. */
  method AnalyseSelection(files: map<string, seq<Trip>>, sel: Selection) returns (r: Result<Report, Fault>)
    requires ValidSelection(sel)
    ensures r == Analyse(files, sel)
    ensures r.Success? ==> CityFile(sel.city).value in files
  {
    var file := CityFile(sel.city).value;
    if file !in files {
      return Failure(MissingFile);
    }
    var df := LoadData(files[file], sel.month, sel.day);
    AnalyseSteps(files, sel, file, df);
    r := match df
      case Failure(e) => Failure(e)
      case Success(rows) => ComputeReport(rows, sel.city);
  }

  /** What one pass through the body of `main`'s loop produced. */
  datatype Step = Completed(record: SessionRecord) | Ended(ending: Ending)

  /** A session record agrees with the analysis and the tables: its choices are
      valid, its report is the analysis of its choices, and its pages are the
      pager's pages of the city's table. */
  predicate Recorded(analysis: Selection -> Result<Report, Fault>, tables: string -> seq<Trip>, r: SessionRecord)
  {
    ValidSelection(r.selection) &&
    analysis(r.selection) == Success(r.report) &&
    r.pages == Pages(tables(r.selection.city), |r.pages|)
  }

  /** The pager and the restart prompt, reading replies from `pos`: one page per
      "yes", then the reply after the pager's last one is the restart answer.
      Running out of replies on the way ends the program, and the session
      leaves no record. */
  function AfterReport(input: seq<string>, pos: nat, raw: seq<Trip>, sel: Selection, report: Report): (Step, nat)
    requires pos <= |input|
  {
    var shown := YesRun(input, pos);
    if pos + shown + 1 >= |input| then (Ended(EndOfInput), |input|)
    else (Completed(SessionRecord(sel, report, Pages(raw, shown), input[pos + shown + 1])), pos + shown + 2)
  }

  /** A session once the filters are chosen and analysed: a fault ends the
      program before the pager is reached. */
  function AfterChoice(input: seq<string>, pos: nat, raw: seq<Trip>, sel: Selection, outcome: Result<Report, Fault>): (Step, nat)
    requires pos <= |input|
  {
    match outcome
    case Failure(fault) => (Ended(Crashed(sel, fault)), pos)
    case Success(report) => AfterReport(input, pos, raw, sel, report)
  }

  /** One pass through the body of `main`'s loop, reading replies from `pos`. */
  function SessionAt(input: seq<string>, pos: nat, analysis: Selection -> Result<Report, Fault>, tables: string -> seq<Trip>): (r: (Step, nat))
    requires pos <= |input|
    ensures pos <= r.1 <= |input|
    ensures r.0.Completed? ==> pos < r.1
  {
    var chosen := Choose(input, pos);
    if chosen.0.None? then (Ended(EndOfInput), |input|)
    else
      var sel := chosen.0.value;
      AfterChoice(input, chosen.1, tables(sel.city), sel, analysis(sel))
  }

  /** `main`: sessions one after another from `pos` while the restart answer
      is "yes". */
  function Main(input: seq<string>, pos: nat, analysis: Selection -> Result<Report, Fault>, tables: string -> seq<Trip>): (seq<SessionRecord>, Ending)
    requires pos <= |input|
    decreases |input| - pos
  {
    if pos == |input| then ([], EndOfInput)
    else
      var step := SessionAt(input, pos, analysis, tables);
      match step.0
      case Ended(ending) => ([], ending)
      case Completed(record) =>
        if !IsYes(record.restart) then ([record], Quit)
        else
          var rest := Main(input, step.1, analysis, tables);
          ([record] + rest.0, rest.1)
  }

  /** The pager and the restart prompt in terms of the replies: a completed
      session shows one page per "yes", the first other reply ends the pager
      and the reply after it is the restart answer; otherwise the replies ran
      out. */
  lemma AfterReportMeaning(input: seq<string>, pos: nat, raw: seq<Trip>, sel: Selection, report: Report)
    requires pos <= |input|
    ensures var (step, next) := AfterReport(input, pos, raw, sel, report);
      (step.Completed? ==>
        step.record == SessionRecord(sel, report, step.record.pages, step.record.restart) &&
        step.record.pages == Pages(raw, |step.record.pages|) &&
        |step.record.pages| == YesRun(input, pos) &&
        (forall k :: pos <= k < pos + |step.record.pages| ==> IsYes(input[k])) &&
        next == pos + |step.record.pages| + 2 <= |input| &&
        !IsYes(input[next - 2]) && step.record.restart == input[next - 1]) &&
      (step.Ended? ==> step.ending == EndOfInput && next == |input|)
  {
    YesRunMeaning(input, pos);
  }

  /** One session against the analysis: the prompts give its selection; a
      completed session agrees with the analysis and the tables; a fault is the
      analysis's fault for the chosen selection; otherwise the replies ran
      out. */
  lemma SessionAtAgrees(input: seq<string>, pos: nat, analysis: Selection -> Result<Report, Fault>, tables: string -> seq<Trip>)
    requires pos <= |input|
    ensures var (step, next) := SessionAt(input, pos, analysis, tables);
      var (chosen, start) := Choose(input, pos);
      (step.Completed? ==>
        chosen == Some(step.record.selection) && Recorded(analysis, tables, step.record)) &&
      (step.Ended? ==> !step.ending.Quit?) &&
      (step.Ended? && step.ending.EndOfInput? ==> next == |input|) &&
      (step.Ended? && step.ending.Crashed? ==>
        chosen == Some(step.ending.selection) && next == start &&
        analysis(step.ending.selection) == Failure(step.ending.fault))
  {
    var (chosen, start) := Choose(input, pos);
    if chosen.Some? {
      var sel := chosen.value;
      var outcome := analysis(sel);
      if outcome.Success? {
        assert SessionAt(input, pos, analysis, tables) == AfterReport(input, start, tables(sel.city), sel, outcome.value);
        AfterReportMeaning(input, start, tables(sel.city), sel, outcome.value);
      } else {
        assert SessionAt(input, pos, analysis, tables) == (Ended(Crashed(sel, outcome.error)), start);
      }
    }
  }

  /** One session against the replies: after the prompts, a completed session
      shows one page per "yes", the first other reply ends the pager, and the
      reply after it is the restart answer. */
  lemma SessionAtReplies(input: seq<string>, pos: nat, analysis: Selection -> Result<Report, Fault>, tables: string -> seq<Trip>)
    requires pos <= |input|
    ensures var (step, next) := SessionAt(input, pos, analysis, tables);
      var start := Choose(input, pos).1;
      step.Completed? ==>
        |step.record.pages| == YesRun(input, start) &&
        (forall k :: start <= k < start + |step.record.pages| ==> IsYes(input[k])) &&
        next == start + |step.record.pages| + 2 &&
        !IsYes(input[next - 2]) && step.record.restart == input[next - 1]
  {
    var (chosen, start) := Choose(input, pos);
    if chosen.Some? {
      var sel := chosen.value;
      var outcome := analysis(sel);
      if outcome.Success? {
        assert SessionAt(input, pos, analysis, tables) == AfterReport(input, start, tables(sel.city), sel, outcome.value);
        AfterReportMeaning(input, start, tables(sel.city), sel, outcome.value);
      } else {
        assert SessionAt(input, pos, analysis, tables) == (Ended(Crashed(sel, outcome.error)), start);
      }
    }
  }

  /** One step of `main`: how the run from `pos` goes on after its first
      session. */
  lemma MainStep(input: seq<string>, pos: nat, analysis: Selection -> Result<Report, Fault>, tables: string -> seq<Trip>)
    requires pos < |input|
    ensures var (step, next) := SessionAt(input, pos, analysis, tables);
      (step.Ended? ==> Main(input, pos, analysis, tables) == ([], step.ending)) &&
      (step.Completed? && !IsYes(step.record.restart) ==> Main(input, pos, analysis, tables) == ([step.record], Quit)) &&
      (step.Completed? && IsYes(step.record.restart) ==>
        Main(input, pos, analysis, tables) == ([step.record] + Main(input, next, analysis, tables).0, Main(input, next, analysis, tables).1))
  {
  }

  /** A whole run agrees with the analysis and the restart answers: each
      session agrees with the analysis, every restart answer but the last is
      "yes", the program quits exactly when the last answer is not "yes", and a
      fault ends it with the fault of a valid selection. */
  predicate RunAgrees(analysis: Selection -> Result<Report, Fault>, tables: string -> seq<Trip>, sessions: seq<SessionRecord>, ending: Ending)
  {
    (forall j :: 0 <= j < |sessions| ==> Recorded(analysis, tables, sessions[j])) &&
    (forall j :: 0 <= j < |sessions| - 1 ==> IsYes(sessions[j].restart)) &&
    (ending == Quit <==> |sessions| > 0 && !IsYes(sessions[|sessions| - 1].restart)) &&
    (ending.Crashed? ==> ValidSelection(ending.selection) && analysis(ending.selection) == Failure(ending.fault))
  }

  /** A session answered "yes" to the restart prompt, put in front of a run
      that agrees, gives a run that agrees. */
  lemma RunAgreesCons(analysis: Selection -> Result<Report, Fault>, tables: string -> seq<Trip>, r: SessionRecord, rest: seq<SessionRecord>, ending: Ending)
    requires Recorded(analysis, tables, r) && IsYes(r.restart)
    requires RunAgrees(analysis, tables, rest, ending)
    ensures RunAgrees(analysis, tables, [r] + rest, ending)
  {
    var sessions := [r] + rest;
    forall j | 0 <= j < |sessions|
      ensures Recorded(analysis, tables, sessions[j])
      ensures j < |sessions| - 1 ==> IsYes(sessions[j].restart)
    {
      if j > 0 {
        assert sessions[j] == rest[j - 1];
      }
    }
    assert |rest| > 0 ==> sessions[|sessions| - 1] == rest[|rest| - 1];
  }

  /** Every run of `main` agrees with the analysis and the restart answers. */
  lemma {:induction false} MainMeaning(input: seq<string>, pos: nat, analysis: Selection -> Result<Report, Fault>, tables: string -> seq<Trip>)
    requires pos <= |input|
    ensures RunAgrees(analysis, tables, Main(input, pos, analysis, tables).0, Main(input, pos, analysis, tables).1)
    decreases |input| - pos
  {
    if pos < |input| {
      SessionAtAgrees(input, pos, analysis, tables);
      MainStep(input, pos, analysis, tables);
      var (step, next) := SessionAt(input, pos, analysis, tables);
      if step.Completed? && IsYes(step.record.restart) {
        MainMeaning(input, next, analysis, tables);
        var (rest, ending) := Main(input, next, analysis, tables);
        RunAgreesCons(analysis, tables, step.record, rest, ending);
      }
    }
  }

  /** The prompts, then "no" to the pager and "no" to the restart prompt: one
      session with no pages, and the program quits. */
  lemma MainExample(analysis: Selection -> Result<Report, Fault>, tables: string -> seq<Trip>, report: Report)
    requires analysis(Selection("chicago", "all", "all")) == Success(report)
    ensures Main(["chicago", "all", "all", "no", "no"], 0, analysis, tables) ==
      ([SessionRecord(Selection("chicago", "all", "all"), report, [], "no")], Quit)
  {
    var input := ["chicago", "all", "all", "no", "no"];
    assert Lower(input[0]) == "chicago";
    assert Lower(input[1]) == "all";
    assert Lower(input[2]) == "all";
    assert Choose(input, 0) == (Some(Selection("chicago", "all", "all")), 3);
    assert !IsYes(input[3]) && !IsYes(input[4]);
    assert YesRun(input, 3) == 0;
  }

  /** A "yes" to the pager, "no" to end it and "yes" to restart, then a second
      session declined at both prompts. */
  const RestartReplies: seq<string> := ["chicago", "all", "all", "yes", "no", "yes", "washington", "june", "all", "no", "no"]

  lemma RestartFirstSession(analysis: Selection -> Result<Report, Fault>, tables: string -> seq<Trip>, first: Report)
    requires analysis(Selection("chicago", "all", "all")) == Success(first)
    ensures SessionAt(RestartReplies, 0, analysis, tables) ==
      (Completed(SessionRecord(Selection("chicago", "all", "all"), first, Pages(tables("chicago"), 1), "yes")), 6)
  {
    var input := RestartReplies;
    assert Lower(input[0]) == "chicago";
    assert Lower(input[1]) == "all";
    assert Lower(input[2]) == "all";
    assert Choose(input, 0) == (Some(Selection("chicago", "all", "all")), 3);
    assert IsYes(input[3]) && !IsYes(input[4]) && IsYes(input[5]);
    assert YesRun(input, 3) == 1;
  }

  lemma RestartSecondSession(analysis: Selection -> Result<Report, Fault>, tables: string -> seq<Trip>, second: Report)
    requires analysis(Selection("washington", "june", "all")) == Success(second)
    ensures SessionAt(RestartReplies, 6, analysis, tables) ==
      (Completed(SessionRecord(Selection("washington", "june", "all"), second, [], "no")), 11)
  {
    var input := RestartReplies;
    assert Lower(input[6]) == "washington";
    assert Lower(input[7]) == "june";
    assert Lower(input[8]) == "all";
    assert Choose(input, 6) == (Some(Selection("washington", "june", "all")), 9);
    assert !IsYes(input[9]) && !IsYes(input[10]);
    assert YesRun(input, 9) == 0;
  }

  /** Two sessions, the first with one page, and the program quits after the
      second. */
  lemma MainRestartExample(analysis: Selection -> Result<Report, Fault>, tables: string -> seq<Trip>, first: Report, second: Report)
    requires analysis(Selection("chicago", "all", "all")) == Success(first)
    requires analysis(Selection("washington", "june", "all")) == Success(second)
    ensures Main(RestartReplies, 0, analysis, tables) ==
      ([SessionRecord(Selection("chicago", "all", "all"), first, Pages(tables("chicago"), 1), "yes"),
        SessionRecord(Selection("washington", "june", "all"), second, [], "no")], Quit)
  {
    RestartFirstSession(analysis, tables, first);
    RestartSecondSession(analysis, tables, second);
    MainStep(RestartReplies, 6, analysis, tables);
    MainStep(RestartReplies, 0, analysis, tables);
    var r1 := SessionRecord(Selection("chicago", "all", "all"), first, Pages(tables("chicago"), 1), "yes");
    var r2 := SessionRecord(Selection("washington", "june", "all"), second, [], "no");
    assert IsYes(r1.restart) && !IsYes(r2.restart);
    assert [r1] + [r2] == [r1, r2];
  }

  /** One pass through the body of `main`'s loop: the prompts, the analysis, the
      pager and the restart prompt, reading replies from `pos`. */
  method RunSession(input: seq<string>, pos: nat, files: map<string, seq<Trip>>) returns (step: Step, next: nat)
    requires pos <= |input|
    ensures (step, next) == SessionAt(input, pos, Analysis(files), Tables(files))
  {
    var chosen;
    chosen, next := GetFilters(input, pos);
    if chosen.None? {
      return Ended(EndOfInput), next;
    }
    step, next := RunChosen(input, next, files, chosen.value);
  }

  /** The rest of a session once the filters are chosen: the analysis, the
      pager and the restart prompt, reading replies from `pos`. */
  method RunChosen(input: seq<string>, pos: nat, files: map<string, seq<Trip>>, sel: Selection) returns (step: Step, next: nat)
    requires pos <= |input|
    requires ValidSelection(sel)
    ensures (step, next) == AfterChoice(input, pos, RawTable(files, sel.city), sel, Analyse(files, sel))
  {
    next := pos;
    var report := AnalyseSelection(files, sel);
    if report.Failure? {
      return Ended(Crashed(sel, report.error)), next;
    }
    step, next := BrowseAndAsk(RawTable(files, sel.city), input, next, sel, report.value);
  }

  /** `raw_data` followed by the restart prompt, completing the session of
      `sel` and `report` unless the replies run out first. */
  method BrowseAndAsk(raw: seq<Trip>, input: seq<string>, pos: nat, sel: Selection, report: Report) returns (step: Step, next: nat)
    requires pos <= |input|
    ensures (step, next) == AfterReport(input, pos, raw, sel, report)
  {
    var pages, answered;
    pages, next, answered := RawData(raw, input, pos);
    if !answered || next == |input| {
      return Ended(EndOfInput), |input|;
    }
    step := Completed(SessionRecord(sel, report, pages, input[next]));
    next := next + 1;
  }

  /** The run so far, `done`, followed by the run from `pos`: how it goes on
      after the session at `pos`. */
  lemma MainAfter(input: seq<string>, pos: nat, analysis: Selection -> Result<Report, Fault>, tables: string -> seq<Trip>, done: seq<SessionRecord>, whole: (seq<SessionRecord>, Ending))
    requires pos < |input|
    requires whole == (done + Main(input, pos, analysis, tables).0, Main(input, pos, analysis, tables).1)
    ensures var (step, next) := SessionAt(input, pos, analysis, tables);
      (step.Ended? ==> whole == (done, step.ending)) &&
      (step.Completed? && !IsYes(step.record.restart) ==> whole == (done + [step.record], Quit)) &&
      (step.Completed? && IsYes(step.record.restart) ==>
        whole == (done + [step.record] + Main(input, next, analysis, tables).0, Main(input, next, analysis, tables).1))
  {
    MainStep(input, pos, analysis, tables);
    var (step, next) := SessionAt(input, pos, analysis, tables);
    if step.Ended? {
      assert done + [] == done;
    } else if IsYes(step.record.restart) {
      var rest := Main(input, next, analysis, tables);
      assert done + ([step.record] + rest.0) == done + [step.record] + rest.0;
    }
  }

  /** `main`: sessions run one after another while the restart reply is "yes". */
  method RunSessions(input: seq<string>, files: map<string, seq<Trip>>) returns (sessions: seq<SessionRecord>, ending: Ending)
    ensures (sessions, ending) == Main(input, 0, Analysis(files), Tables(files))
  {
    ghost var whole := Main(input, 0, Analysis(files), Tables(files));
    sessions, ending := [], EndOfInput;
    var pos := 0;
    assert [] + whole.0 == whole.0;
    while pos < |input|
      invariant pos <= |input|
      invariant whole == (sessions + Main(input, pos, Analysis(files), Tables(files)).0, Main(input, pos, Analysis(files), Tables(files)).1)
      decreases |input| - pos
    {
      var step, next := RunSession(input, pos, files);
      MainAfter(input, pos, Analysis(files), Tables(files), sessions, whole);
      if step.Ended? {
        ending := step.ending;
        return;
      }
      sessions := sessions + [step.record];
      if !IsYes(step.record.restart) {
        ending := Quit;
        return;
      }
      pos := next;
    }
    assert sessions + [] == sessions;
  }
}
