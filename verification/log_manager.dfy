/**
  * The log utility (`log_manager.py`): it parses `[timestamp] [level]
  * [component] message` lines from the server, plugin and diagnostic log
  * directories, adds a preview entry per Claude log, filters and sorts the
  * entries by time, and displays them, the windows around errors, an error
  * report, or deletes log files.
  *
  * The file system and the clock are parameters: a directory listing is a
  * sequence of files with their lines and times, `datetime` values are
  * integers (seconds), and `strptime`/`strftime`/`str` on them are the
  * functions of a `Clock`.
  */
module LogManager {
  import opened Wrappers
  import Text
  import Seqs

  // ---------------------------------------------------------------------
  // Log lines
  // ---------------------------------------------------------------------

  /** The four groups of `LOG_PATTERN`. */
  datatype Groups = Groups(timestamp: string, level: string, component: string, message: string)

  /** The text `LOG_PATTERN` matches: `[ts] [level] [component] message`. */
  function Layout(g: Groups): string {
    "[" + g.timestamp + "] [" + g.level + "] [" + g.component + "] " + g.message
  }

  /** The layout read from the right: each separator in front of the rest. */
  lemma LayoutNested(g: Groups)
    ensures Layout(g) == "[" + (g.timestamp + "] [" + (g.level + "] [" + (g.component + "] " + g.message)))
  {
  }

  predicate NoNewline(g: Groups) {
    '\n' !in g.timestamp && '\n' !in g.level && '\n' !in g.component && '\n' !in g.message
  }

  /** The text before and after the leftmost occurrence of `sep` in `s`. */
  function Cut(s: string, sep: string): (r: Option<(string, string)>)
    ensures r.Some? ==> s == r.value.0 + sep + r.value.1
  {
    match Text.Find(s, sep)
    case None => None
    case Some(i) =>
      assert s == s[..i] + sep + s[i + |sep|..] by {
        assert s[i..i + |sep|] == sep;
      }
      Some((s[..i], s[i + |sep|..]))
  }

  /** `LOG_PATTERN.match(line)`. The lazy groups take the leftmost `] [`,
      `] [` and `] ` separators (a later choice can never succeed where the
      leftmost failed); `.` stops at a newline and `$` also matches before a
      final newline. */
  function Match(line: string): (g: Option<Groups>)
    ensures g.Some? ==> NoNewline(g.value)
    ensures g.Some? ==> line == Layout(g.value) || line == Layout(g.value) + "\n"
    ensures g.Some? ==> |line| > 0 && line[0] == '['
  {
    var body := Body(line);
    if '\n' in body || |body| == 0 || body[0] != '[' then None
    else
      match Fields(body[1..])
      case None => None
      case Some(g) =>
        assert body == Layout(g) by {
          LayoutNested(g);
          assert body == "[" + body[1..];
        }
        LayoutFree(g);
        Some(g)
  }

  /** The line without one final newline. */
  function Body(line: string): (body: string)
    ensures line == body || line == body + "\n"
    ensures '\n' !in line ==> body == line
  {
    if |line| > 0 && line[|line| - 1] == '\n' then line[..|line| - 1] else line
  }

  /** The four groups after the opening `[`, cut at the leftmost
      separators. */
  function Fields(rest: string): (g: Option<Groups>)
    ensures g.Some? ==> rest == g.value.timestamp + "] [" + (g.value.level + "] [" + (g.value.component + "] " + g.value.message))
  {
    match Cut(rest, "] [")
    case None => None
    case Some((ts, r2)) =>
      match Cut(r2, "] [")
      case None => None
      case Some((level, r3)) =>
        match Cut(r3, "] ")
        case None => None
        case Some((component, message)) => Some(Groups(ts, level, component, message))
  }

  /** A layout without a newline has groups without one. */
  lemma LayoutFree(g: Groups)
    requires '\n' !in Layout(g)
    ensures NoNewline(g)
  {
    var line := Layout(g);
    LayoutNested(g);
    Seqs.InConcat('\n', "[" + g.timestamp + "] [", g.level + "] [" + (g.component + "] " + g.message));
    Seqs.InConcat('\n', "[" + g.timestamp, "] [");
    Seqs.InConcat('\n', "[", g.timestamp);
    Seqs.InConcat('\n', g.level + "] [", g.component + "] " + g.message);
    Seqs.InConcat('\n', g.level, "] [");
    Seqs.InConcat('\n', g.component + "] ", g.message);
    Seqs.InConcat('\n', g.component, "] ");
  }

  /** A separator starting with `]` is found at the first place it occurs
      when no `]` comes before that place. */
  lemma CutAt(a: string, sep: string, b: string)
    requires |sep| > 0 && sep[0] == ']' && ']' !in a
    ensures Cut(a + sep + b, sep) == Some((a, b))
  {
    var s := a + sep + b;
    assert Text.OccursAt(s, sep, |a|) by {
      assert s[|a|..|a| + |sep|] == sep;
    }
    match Text.Find(s, sep)
    case Some(i) =>
      assert s[..|a|] == a;
      assert s[|a| + |sep|..] == b;
  }

  /** Every line of the layout whose first three fields hold no `]` and
      no field holds a newline is matched, and the groups come back. */
  lemma MatchLayout(g: Groups)
    requires NoNewline(g)
    requires ']' !in g.timestamp && ']' !in g.level && ']' !in g.component
    ensures Match(Layout(g)) == Some(g)
  {
    LayoutShape(g);
    FieldsOf(g);
  }

  /** The fields of newline-free groups whose first three hold no `]`
      are cut back out of their layout. */
  lemma FieldsOf(g: Groups)
    requires ']' !in g.timestamp && ']' !in g.level && ']' !in g.component
    ensures Fields(g.timestamp + "] [" + (g.level + "] [" + (g.component + "] " + g.message))) == Some(g)
  {
    var r3 := g.component + "] " + g.message;
    var r2 := g.level + "] [" + r3;
    CutAt(g.timestamp, "] [", r2);
    CutAt(g.level, "] [", r3);
    CutAt(g.component, "] ", g.message);
  }

  /** The layout of newline-free groups: one line, no final newline,
      a `[` and then the fields with their separators. */
  lemma LayoutShape(g: Groups)
    requires NoNewline(g)
    ensures var line := Layout(g);
      && '\n' !in line && |line| > 0 && line[0] == '[' && line[|line| - 1] != '\n'
      && line[1..] == g.timestamp + "] [" + (g.level + "] [" + (g.component + "] " + g.message))
  {
    var line := Layout(g);
    LayoutNested(g);
    var r1 := g.timestamp + "] [" + (g.level + "] [" + (g.component + "] " + g.message));
    assert line == "[" + r1;
    assert '\n' !in line;
    assert line[|line| - 1] in line;
    assert line[1..] == r1;
  }

  // ---------------------------------------------------------------------
  // Entries
  // ---------------------------------------------------------------------

  /** The clock and the `datetime` conversions, on whole seconds:
      `strptime` with the `%Y-%m-%d %H:%M:%S,%f` and `%Y-%m-%d %H:%M:%S`
      formats, `datetime.now()`, `strftime("%Y-%m-%d %H:%M:%S")` and
      `str(datetime)`. */
  datatype Clock = Clock(
    parseFraction: string -> Option<int>,
    parse: string -> Option<int>,
    now: int,
    format: int -> string,
    text: int -> string)

  /** `LogEntry`: the level is kept in upper case. */
  datatype Entry = Entry(timestamp: int, level: string, component: string, message: string, source: string)

  /** The timestamp of a matched line: with milliseconds, then without,
      then the current time. */
  function ReadTimestamp(clock: Clock, text: string): (t: int)
    ensures clock.parseFraction(text).Some? ==> t == clock.parseFraction(text).value
    ensures clock.parseFraction(text).None? && clock.parse(text).Some? ==> t == clock.parse(text).value
    ensures clock.parseFraction(text).None? && clock.parse(text).None? ==> t == clock.now
  {
    match clock.parseFraction(text)
    case Some(t) => t
    case None => clock.parse(text).GetOr(clock.now)
  }

  /** `LogEntry.from_line`. */
  function FromLine(clock: Clock, line: string, source: string): (r: Option<Entry>)
    ensures r.Some? <==> Match(line).Some?
    ensures r.Some? ==> var g := Match(line).value;
      && r.value == Entry(ReadTimestamp(clock, g.timestamp), Text.Upper(g.level), g.component, g.message, source)
      && (line == Layout(g) || line == Layout(g) + "\n")
  {
    match Match(line)
    case None => None
    case Some(g) => Some(Entry(ReadTimestamp(clock, g.timestamp), Text.Upper(g.level), g.component, g.message, source))
  }

  const Reset := "\U{1B}[0m"

  /** The colour of a level, `""` for levels without one. */
  function LevelColour(level: string): string {
    match level
    case "DEBUG" => "\U{1B}[36m"
    case "INFO" => "\U{1B}[32m"
    case "WARNING" => "\U{1B}[33m"
    case "ERROR" => "\U{1B}[31m"
    case "CRITICAL" => "\U{1B}[41m\U{1B}[97m"
    case _ => ""
  }

  /** The colour of a component, `""` for components without one. */
  function ComponentColour(component: string): string {
    match component
    case "server" => "\U{1B}[94m"
    case "plugin" => "\U{1B}[95m"
    case "diagnostic" => "\U{1B}[96m"
    case "claude" => "\U{1B}[92m"
    case _ => ""
  }

  predicate IsError(e: Entry) {
    e.level == "ERROR" || e.level == "CRITICAL"
  }

  /** ` (<basename>)` when the source is shown. */
  function SourceInfo(e: Entry, showSource: bool): (r: string)
    ensures showSource ==> r == " (" + Text.Basename(e.source) + ")"
    ensures !showSource ==> r == ""
  {
    if showSource then " (" + Text.Basename(e.source) + ")" else ""
  }

  /** `LogEntry.to_string`. Without colours the text is the layout the
      pattern reads, followed by the source; with colours an error line is
      coloured as a whole and any other line has its level and component
      coloured. */
  function ToString(clock: Clock, e: Entry, colours: bool, showSource: bool): (r: string)
    ensures !colours ==> r == Layout(Groups(clock.format(e.timestamp), e.level, e.component, e.message)) + SourceInfo(e, showSource)
    ensures colours && IsError(e) ==> StartsWithText(r, LevelColour(e.level)) && EndsWithText(r, Reset)
    ensures colours && !IsError(e) ==> EndsWithText(r, e.message + SourceInfo(e, showSource))
  {
    var ts := clock.format(e.timestamp);
    var info := SourceInfo(e, showSource);
    if colours then
      if IsError(e) then
        var r := LevelColour(e.level) + (Layout(Groups(ts, e.level, e.component, e.message)) + info + Reset);
        assert r[..|LevelColour(e.level)|] == LevelColour(e.level);
        r
      else
        var front := "[" + ts + "] [" + LevelColour(e.level) + e.level + Reset + "] [" + ComponentColour(e.component) + e.component + Reset + "] ";
        front + (e.message + info)
    else
      Layout(Groups(ts, e.level, e.component, e.message)) + info
  }

  predicate StartsWithText(s: string, p: string) {
    |p| <= |s| && s[..|p|] == p
  }

  predicate EndsWithText(s: string, p: string) {
    |p| <= |s| && s[|s| - |p|..] == p
  }

  /** A clock that reads back what it formats (whole seconds). */
  predicate ReadsBack(clock: Clock, t: int) {
    clock.parseFraction(clock.format(t)).None? && clock.parse(clock.format(t)) == Some(t)
  }

  /** Formatting an entry without colours and source and parsing the text
      again gives back the entry, its level in upper case, as long as the
      formatted time, the level and the component hold no `]` and no field
      holds a newline. */
  lemma FromLineOfToString(clock: Clock, e: Entry, source: string)
    requires ReadsBack(clock, e.timestamp)
    requires ']' !in clock.format(e.timestamp) && ']' !in e.level && ']' !in e.component
    requires NoNewline(Groups(clock.format(e.timestamp), e.level, e.component, e.message))
    ensures FromLine(clock, ToString(clock, e, false, false), source) ==
      Some(Entry(e.timestamp, Text.Upper(e.level), e.component, e.message, source))
  {
    var g := Groups(clock.format(e.timestamp), e.level, e.component, e.message);
    assert ToString(clock, e, false, false) == Layout(g);
    MatchLayout(g);
  }

  // ---------------------------------------------------------------------
  // Ordering (`__lt__` and `list.sort`)
  // ---------------------------------------------------------------------

  predicate Sorted(s: seq<Entry>) {
    forall i, j :: 0 <= i < j < |s| ==> s[i].timestamp <= s[j].timestamp
  }

  /** The entries with timestamp `t`, in their order in `s`. */
  function AtTime(s: seq<Entry>, t: int): (r: seq<Entry>)
    ensures |r| <= |s|
  {
    if |s| == 0 then []
    else AtTime(s[..|s| - 1], t) + (if s[|s| - 1].timestamp == t then [s[|s| - 1]] else [])
  }

  /** Places `e` after every entry that is not later than it, scanning
      from the back, as a stable insertion does. */
  function Insert(s: seq<Entry>, e: Entry): (r: seq<Entry>)
    ensures multiset(r) == multiset(s) + multiset{e}
    ensures |r| == |s| + 1
  {
    if |s| == 0 then [e]
    else if s[|s| - 1].timestamp <= e.timestamp then s + [e]
    else
      assert s == s[..|s| - 1] + [s[|s| - 1]];
      Insert(s[..|s| - 1], e) + [s[|s| - 1]]
  }

  /** `list.sort()` with `__lt__` comparing timestamps: a stable sort. */
  function Sort(s: seq<Entry>): (r: seq<Entry>)
    ensures multiset(r) == multiset(s)
    ensures |r| == |s|
  {
    if |s| == 0 then []
    else
      assert s == s[..|s| - 1] + [s[|s| - 1]];
      Insert(Sort(s[..|s| - 1]), s[|s| - 1])
  }

  lemma {:induction false} InsertSorted(s: seq<Entry>, e: Entry)
    requires Sorted(s)
    ensures Sorted(Insert(s, e))
    decreases |s|
  {
    if |s| == 0 || s[|s| - 1].timestamp <= e.timestamp {
    } else {
      var init := s[..|s| - 1];
      var last := s[|s| - 1];
      assert Sorted(init) by {
        assert forall i :: 0 <= i < |init| ==> init[i] == s[i];
      }
      InsertSorted(init, e);
      assert NotAfter(init, last.timestamp) by {
        assert forall i :: 0 <= i < |init| ==> init[i] == s[i];
      }
      InsertNotAfter(init, e, last.timestamp);
      var front := Insert(init, e);
      var r := front + [last];
      assert Insert(s, e) == r;
      forall i, j | 0 <= i < j < |r|
        ensures r[i].timestamp <= r[j].timestamp
      {
        assert r[i] == front[i];
        if j < |front| {
          assert r[j] == front[j];
        }
      }
    }
  }

  /** No entry of `s` is later than `b`. */
  predicate NotAfter(s: seq<Entry>, b: int) {
    forall i :: 0 <= i < |s| ==> s[i].timestamp <= b
  }

  lemma {:induction false} InsertNotAfter(s: seq<Entry>, e: Entry, b: int)
    requires NotAfter(s, b) && e.timestamp <= b
    ensures NotAfter(Insert(s, e), b)
    decreases |s|
  {
    if |s| > 0 && s[|s| - 1].timestamp > e.timestamp {
      var init := s[..|s| - 1];
      assert NotAfter(init, b) by {
        assert forall i :: 0 <= i < |init| ==> init[i] == s[i];
      }
      InsertNotAfter(init, e, b);
      var front := Insert(init, e);
      var r := front + [s[|s| - 1]];
      assert forall i :: 0 <= i < |front| ==> r[i] == front[i];
    }
  }

  /** Inserting adds `e` behind the entries of the same time. */
  lemma {:induction false} AtTimeInsert(s: seq<Entry>, e: Entry, t: int)
    ensures AtTime(Insert(s, e), t) == AtTime(s, t) + (if e.timestamp == t then [e] else [])
    decreases |s|
  {
    var mine: seq<Entry> := if e.timestamp == t then [e] else [];
    if |s| == 0 {
      assert Insert(s, e) == [e];
      assert [e][..0] == [];
      assert AtTime([e], t) == mine;
    } else if s[|s| - 1].timestamp <= e.timestamp {
      var r := s + [e];
      assert Insert(s, e) == r;
      Seqs.SnocParts(s, e);
      assert AtTime(r, t) == AtTime(s, t) + mine;
    } else {
      var init := s[..|s| - 1];
      var last := s[|s| - 1];
      AtTimeInsert(init, e, t);
      var front := Insert(init, e);
      var r := front + [last];
      assert Insert(s, e) == r;
      Seqs.SnocParts(front, last);
      var theirs: seq<Entry> := if last.timestamp == t then [last] else [];
      var base := AtTime(init, t);
      assert AtTime(r, t) == AtTime(front, t) + theirs;
      assert AtTime(s, t) == base + theirs;
      if mine == [] {
        Seqs.ConcatEmpty(base);
        Seqs.ConcatEmpty(AtTime(s, t));
      } else {
        assert theirs == [];
        Seqs.ConcatEmpty(base);
        Seqs.ConcatEmpty(AtTime(front, t));
      }
    }
  }

  /** The result is ordered by time. */
  lemma {:induction false} SortSorted(s: seq<Entry>)
    ensures Sorted(Sort(s))
    decreases |s|
  {
    if |s| > 0 {
      SortSorted(s[..|s| - 1]);
      InsertSorted(Sort(s[..|s| - 1]), s[|s| - 1]);
    }
  }

  /** The sort is stable: entries of equal time keep their input order. */
  lemma {:induction false} SortStable(s: seq<Entry>, t: int)
    ensures AtTime(Sort(s), t) == AtTime(s, t)
    decreases |s|
  {
    if |s| > 0 {
      SortStable(s[..|s| - 1], t);
      AtTimeInsert(Sort(s[..|s| - 1]), s[|s| - 1], t);
    }
  }

  /** The sort's three facts together: ordered, stable, and made of the
      input's entries. */
  lemma SortFacts(s: seq<Entry>)
    ensures Sorted(Sort(s))
    ensures forall t :: AtTime(Sort(s), t) == AtTime(s, t)
    ensures forall e | e in Sort(s) :: e in s
  {
    SortSorted(s);
    forall t ensures AtTime(Sort(s), t) == AtTime(s, t) {
      SortStable(s, t);
    }
    forall e | e in Sort(s) ensures e in s {
      assert e in multiset(Sort(s));
    }
  }

  // ---------------------------------------------------------------------
  // Collecting (`collect_logs`)
  // ---------------------------------------------------------------------

  /** The `since`, `level_filter` and `component_filter` arguments. */
  datatype Filters = Filters(since: Option<int>, levels: Option<seq<string>>, components: Option<seq<string>>)

  /** A list filter passes `x` when it is missing or empty (Python
      truthiness) or lists `x`. */
  predicate Selects(filter: Option<seq<string>>, x: string) {
    filter.None? || |filter.value| == 0 || x in filter.value
  }

  predicate Recent(since: Option<int>, t: int) {
    since.None? || t >= since.value
  }

  /** What a standard entry must meet to be kept. */
  predicate Admits(f: Filters, e: Entry) {
    Recent(f.since, e.timestamp) && Selects(f.levels, e.level) && Selects(f.components, e.component)
  }

  /** A file of the server, plugin or diagnostics directory: the lines read
      before reading stopped, and the error that stopped it, if any. */
  datatype LogFile = LogFile(path: string, lines: seq<string>, failure: Option<string>)

  /** A file of the Claude directory: its creation time and its text with
      its size in bytes, each of which may fail to be read. */
  datatype ClaudeFile = ClaudeFile(path: string, ctime: Result<int, string>, content: Result<(string, int), string>)

  /** The entries and the error messages (to standard error). */
  datatype Collected = Collected(entries: seq<Entry>, errors: seq<string>)

  /** The entry one line of a standard file contributes, if any. */
  function LineEntry(clock: Clock, f: Filters, path: string, line: string): (r: seq<Entry>)
    ensures |r| <= 1
    ensures r != [] ==> Admits(f, r[0]) && r[0].source == path
  {
    var stripped := Text.Strip(line);
    if stripped == "" then []
    else
      match FromLine(clock, stripped, path)
      case None => []
      case Some(e) => if Admits(f, e) then [e] else []
  }

  /** The entries of the lines of one standard file, in order. */
  function FileEntries(clock: Clock, f: Filters, path: string, lines: seq<string>): (r: seq<Entry>)
    ensures |r| <= |lines|
  {
    if |lines| == 0 then []
    else FileEntries(clock, f, path, lines[..|lines| - 1]) + LineEntry(clock, f, path, lines[|lines| - 1])
  }

  /** A file's entries pass the filters and name the file as their source. */
  lemma {:induction false} FileEntriesAdmitted(clock: Clock, f: Filters, path: string, lines: seq<string>)
    ensures forall e | e in FileEntries(clock, f, path, lines) :: Admits(f, e) && e.source == path
    decreases |lines|
  {
    if |lines| > 0 {
      FileEntriesAdmitted(clock, f, path, lines[..|lines| - 1]);
    }
  }

  /** A line whose stripped text parses to an admitted entry gives it. */
  lemma LineEntryOf(clock: Clock, f: Filters, path: string, line: string, e: Entry)
    requires FromLine(clock, Text.Strip(line), path) == Some(e) && Admits(f, e)
    ensures LineEntry(clock, f, path, line) == [e]
  {
    var stripped := Text.Strip(line);
    assert Match(stripped).Some?;
    assert stripped != "";
  }

  lemma {:induction false} FileEntriesHas(clock: Clock, f: Filters, path: string, lines: seq<string>, i: nat, e: Entry)
    requires i < |lines| && LineEntry(clock, f, path, lines[i]) == [e]
    ensures e in FileEntries(clock, f, path, lines)
    decreases |lines|
  {
    if i < |lines| - 1 {
      FileEntriesHas(clock, f, path, lines[..|lines| - 1], i, e);
    }
  }

  /** Every line that parses and passes the filters gives its entry. */
  lemma FileEntriesComplete(clock: Clock, f: Filters, path: string, lines: seq<string>, i: nat, e: Entry)
    requires i < |lines|
    requires FromLine(clock, Text.Strip(lines[i]), path) == Some(e) && Admits(f, e)
    ensures e in FileEntries(clock, f, path, lines)
  {
    LineEntryOf(clock, f, path, lines[i], e);
    FileEntriesHas(clock, f, path, lines, i, e);
  }

  /** The standard files in order: their entries, and one message per file
      whose reading failed (the entries read before the failure stay). */
  function StandardEntries(clock: Clock, f: Filters, files: seq<LogFile>): (r: Collected)
    ensures |r.errors| <= |files|
  {
    if |files| == 0 then Collected([], [])
    else
      var before := StandardEntries(clock, f, files[..|files| - 1]);
      var file := files[|files| - 1];
      var entries := FileEntries(clock, f, file.path, file.lines);
      var errors := match file.failure
        case None => []
        case Some(error) => ["Error processing " + file.path + ": " + error];
      Collected(before.entries + entries, before.errors + errors)
  }

  lemma {:induction false} StandardAdmitted(clock: Clock, f: Filters, files: seq<LogFile>)
    ensures forall e | e in StandardEntries(clock, f, files).entries :: Admits(f, e)
    decreases |files|
  {
    if |files| > 0 {
      var file := files[|files| - 1];
      StandardAdmitted(clock, f, files[..|files| - 1]);
      FileEntriesAdmitted(clock, f, file.path, file.lines);
    }
  }

  /** The first 500 characters of a Claude log, followed by `...` when the
      file holds more bytes than that. */
  function Preview(text: string, size: int): (r: string)
    ensures |text| <= 500 && |text| >= size ==> r == text
    ensures |text| > 500 && size >= |text| ==> r == text[..500] + "..."
  {
    var content := if |text| <= 500 then text else text[..500];
    content + (if |content| < size then "..." else "")
  }

  /** The synthetic entry of a Claude log: INFO from `claude`, timed by
      the file's creation. */
  predicate IsClaudePreview(e: Entry) {
    e.level == "INFO" && e.component == "claude" && StartsWithText(e.message, "Claude interaction: ")
  }

  /** One Claude file: skipped when older than `since`, kept regardless of
      the level filter, and kept only when the component filter is empty
      or names `claude`. */
  function ClaudeEntry(f: Filters, file: ClaudeFile): (r: Collected)
    ensures |r.entries| <= 1 && |r.entries| + |r.errors| <= 1
    ensures r.entries != [] ==> var e := r.entries[0];
      IsClaudePreview(e) && e.source == file.path && Recent(f.since, e.timestamp) && Selects(f.components, "claude")
    ensures r.entries != [] <==>
      file.ctime.Ok? && Recent(f.since, file.ctime.value) && file.content.Ok? && Selects(f.components, "claude")
  {
    match file.ctime
    case Err(error) => Collected([], ["Error processing Claude log " + file.path + ": " + error])
    case Ok(ctime) =>
      if !Recent(f.since, ctime) then Collected([], [])
      else
        match file.content
        case Err(error) => Collected([], ["Error processing Claude log " + file.path + ": " + error])
        case Ok((text, size)) =>
          var message := "Claude interaction: " + Preview(text, size);
          assert message[..20] == "Claude interaction: ";
          var e := Entry(ctime, "INFO", "claude", message, file.path);
          if Selects(f.components, "claude") then Collected([e], []) else Collected([], [])
  }

  function ClaudeEntries(f: Filters, files: seq<ClaudeFile>): (r: Collected)
    ensures |r.entries| <= |files|
  {
    if |files| == 0 then Collected([], [])
    else
      var before := ClaudeEntries(f, files[..|files| - 1]);
      var one := ClaudeEntry(f, files[|files| - 1]);
      Collected(before.entries + one.entries, before.errors + one.errors)
  }

  lemma {:induction false} ClaudeAdmitted(f: Filters, files: seq<ClaudeFile>)
    ensures forall e | e in ClaudeEntries(f, files).entries ::
      IsClaudePreview(e) && Recent(f.since, e.timestamp) && Selects(f.components, "claude")
    decreases |files|
  {
    if |files| > 0 {
      ClaudeAdmitted(f, files[..|files| - 1]);
    }
  }

  /** `collect_logs`: the standard entries and then the Claude previews,
      stably sorted by time. Every entry is recent enough and of a selected
      component; an entry outside the level filter is a Claude preview. */
  function CollectLogs(clock: Clock, f: Filters, files: seq<LogFile>, claude: seq<ClaudeFile>): (r: Collected)
    ensures Sorted(r.entries)
    ensures forall e | e in r.entries :: Recent(f.since, e.timestamp) && Selects(f.components, e.component)
    ensures forall e | e in r.entries :: Selects(f.levels, e.level) || IsClaudePreview(e)
    ensures var gathered := StandardEntries(clock, f, files).entries + ClaudeEntries(f, claude).entries;
      && multiset(r.entries) == multiset(gathered)
      && forall t :: AtTime(r.entries, t) == AtTime(gathered, t)
  {
    var standard := StandardEntries(clock, f, files);
    var previews := ClaudeEntries(f, claude);
    var gathered := standard.entries + previews.entries;
    var sorted := Sort(gathered);
    SortFacts(gathered);
    StandardAdmitted(clock, f, files);
    ClaudeAdmitted(f, claude);
    Collected(sorted, standard.errors + previews.errors)
  }

  /** A standard line that parses and passes the filters is collected. */
  lemma StandardLineCollected(clock: Clock, f: Filters, files: seq<LogFile>, claude: seq<ClaudeFile>, j: nat, i: nat, e: Entry)
    requires j < |files| && i < |files[j].lines|
    requires FromLine(clock, Text.Strip(files[j].lines[i]), files[j].path) == Some(e) && Admits(f, e)
    ensures e in CollectLogs(clock, f, files, claude).entries
  {
    FileEntriesComplete(clock, f, files[j].path, files[j].lines, i, e);
    StandardHas(clock, f, files, j, e);
    var gathered := StandardEntries(clock, f, files).entries + ClaudeEntries(f, claude).entries;
    assert e in multiset(gathered);
  }

  lemma {:induction false} StandardHas(clock: Clock, f: Filters, files: seq<LogFile>, j: nat, e: Entry)
    requires j < |files| && e in FileEntries(clock, f, files[j].path, files[j].lines)
    ensures e in StandardEntries(clock, f, files).entries
    decreases |files|
  {
    var init := files[..|files| - 1];
    var last := files[|files| - 1];
    var before := StandardEntries(clock, f, init).entries;
    var mine := FileEntries(clock, f, last.path, last.lines);
    assert StandardEntries(clock, f, files).entries == before + mine;
    if j < |files| - 1 {
      assert init[j] == files[j];
      StandardHas(clock, f, init, j, e);
      Seqs.InConcat(e, before, mine);
    } else {
      Seqs.InConcat(e, before, mine);
    }
  }

  lemma {:induction false} ClaudeHas(f: Filters, files: seq<ClaudeFile>, j: nat, e: Entry)
    requires j < |files| && e in ClaudeEntry(f, files[j]).entries
    ensures e in ClaudeEntries(f, files).entries
    decreases |files|
  {
    if j < |files| - 1 {
      ClaudeHas(f, files[..|files| - 1], j, e);
    }
  }

  /** A readable, recent Claude log appears as a preview whatever the
      level filter says, when the component filter allows `claude`. */
  lemma ClaudePreviewCollected(clock: Clock, f: Filters, files: seq<LogFile>, claude: seq<ClaudeFile>, j: nat)
    requires j < |claude|
    requires claude[j].ctime.Ok? && Recent(f.since, claude[j].ctime.value)
    requires claude[j].content.Ok? && Selects(f.components, "claude")
    ensures exists e :: e in CollectLogs(clock, f, files, claude).entries && IsClaudePreview(e) && e.source == claude[j].path
  {
    var one := ClaudeEntry(f, claude[j]);
    var e := one.entries[0];
    ClaudeHas(f, claude, j, e);
    var gathered := StandardEntries(clock, f, files).entries + ClaudeEntries(f, claude).entries;
    assert e in multiset(gathered);
    assert e in multiset(CollectLogs(clock, f, files, claude).entries);
  }

  // ---------------------------------------------------------------------
  // Python slices
  // ---------------------------------------------------------------------

  /** A slice bound as Python resolves it for a list of length `n`:
      negative bounds count from the end, and bounds are clipped. */
  function Clip(i: int, n: nat): (k: nat)
    ensures k <= n
    ensures 0 <= i <= n ==> k == i
    ensures -(n as int) <= i < 0 ==> k == n + i
  {
    if i < 0 then (if i + n < 0 then 0 else i + n) else if i > n then n else i
  }

  /** `s[i:j]`. */
  function PySlice<T>(s: seq<T>, i: int, j: int): (r: seq<T>)
    ensures 0 <= i <= j <= |s| ==> r == s[i..j]
    ensures |r| <= |s|
  {
    var a := Clip(i, |s|);
    var b := Clip(j, |s|);
    if a <= b then s[a..b] else []
  }

  function Max(a: int, b: int): int { if a >= b then a else b }
  function Min(a: int, b: int): int { if a <= b then a else b }

  // ---------------------------------------------------------------------
  // Display (`display_logs`)
  // ---------------------------------------------------------------------

  /** The entries shown, and the count announced as skipped, if any. */
  datatype Display = Display(skipped: Option<int>, shown: seq<Entry>)

  /** `display_logs` as written: `entries[-max_entries:]`. */
  function DisplayAsWritten(entries: seq<Entry>, maxEntries: Option<int>): (d: Display)
    ensures |d.shown| <= |entries|
    ensures d.skipped.None? ==> d.shown == entries
  {
    if maxEntries.Some? && |entries| > maxEntries.value then
      Display(Some(|entries| - maxEntries.value), PySlice(entries, -maxEntries.value, |entries|))
    else Display(None, entries)
  }

  /** With `--max 0` the notice says every entry was skipped, and every
      entry is shown all the same: `entries[-0:]` is the whole list. */
  lemma DisplayZeroShowsAll(entries: seq<Entry>)
    requires |entries| > 0
    ensures DisplayAsWritten(entries, Some(0)) == Display(Some(|entries|), entries)
  {
  }

  /** `display_logs` as intended: at most `max_entries` of the latest
      entries are shown, and the notice counts the others. */
  function DisplayLogs(entries: seq<Entry>, maxEntries: Option<int>): (d: Display)
    ensures |d.shown| <= |entries| && d.shown == entries[|entries| - |d.shown|..]
    ensures maxEntries.Some? && |entries| > maxEntries.value ==>
      && |d.shown| == Max(0, maxEntries.value)
      && d.skipped == Some(|entries| - |d.shown|)
    ensures !(maxEntries.Some? && |entries| > maxEntries.value) ==> d == Display(None, entries)
  {
    if maxEntries.Some? && |entries| > maxEntries.value then
      var keep := Max(0, maxEntries.value);
      Display(Some(|entries| - keep), entries[|entries| - keep..])
    else Display(None, entries)
  }

  /** For a positive maximum the code as written does what was meant. */
  lemma DisplayAgreesForPositiveMaximum(entries: seq<Entry>, m: int)
    requires m > 0
    ensures DisplayAsWritten(entries, Some(m)) == DisplayLogs(entries, Some(m))
  {
  }

  /** The printed lines: the notice, then one line per shown entry. */
  function DisplayLines(clock: Clock, d: Display, colours: bool, showSource: bool): (r: seq<string>)
    ensures |r| == |d.shown| + (if d.skipped.Some? then 1 else 0)
    ensures forall i :: 0 <= i < |d.shown| ==> r[|r| - |d.shown| + i] == ToString(clock, d.shown[i], colours, showSource)
  {
    var notice := match d.skipped
      case None => []
      case Some(n) => ["... (skipped " + Text.IntToString(n) + " earlier entries) ...\n"];
    notice + seq(|d.shown|, i requires 0 <= i < |d.shown| => ToString(clock, d.shown[i], colours, showSource))
  }

  // ---------------------------------------------------------------------
  // Error context (`extract_error_context`)
  // ---------------------------------------------------------------------

  /** The positions of the ERROR and CRITICAL entries, in order. */
  function ErrorIndices(s: seq<Entry>): (r: seq<nat>)
    ensures forall w :: 0 <= w < |r| ==> r[w] < |s| && IsError(s[r[w]])
    ensures forall i :: 0 <= i < |s| && IsError(s[i]) ==> i in r
    ensures forall v, w :: 0 <= v < w < |r| ==> r[v] < r[w]
  {
    if |s| == 0 then []
    else ErrorIndices(s[..|s| - 1]) + (if IsError(s[|s| - 1]) then [|s| - 1] else [])
  }

  /** `entries[max(0, i - k):min(len(entries), i + k + 1)]`. */
  function Window(s: seq<Entry>, i: nat, k: int): seq<Entry> {
    PySlice(s, Max(0, i - k), Min(|s|, i + k + 1))
  }

  /** `extract_error_context`: one window per error, in order. With a
      non-negative context each window holds the error, at most `k`
      entries on each side of it, and is cut only by the list's ends. */
  function ErrorContexts(s: seq<Entry>, k: int): (r: seq<seq<Entry>>)
    ensures |r| == |ErrorIndices(s)|
    ensures forall w :: 0 <= w < |r| ==> r[w] == Window(s, ErrorIndices(s)[w], k)
  {
    var errors := ErrorIndices(s);
    seq(|errors|, w requires 0 <= w < |errors| => Window(s, errors[w], k))
  }

  /** With a non-negative context the window around error `i` is the run
      from `max(0, i-k)` to `min(n, i+k+1)`, holds the error, and has at
      most `2k+1` entries. */
  lemma WindowAroundError(s: seq<Entry>, i: nat, k: int)
    requires i < |s| && k >= 0
    ensures var lo := Max(0, i - k);
      && Window(s, i, k) == s[lo..Min(|s|, i + k + 1)]
      && Window(s, i, k)[i - lo] == s[i]
      && |Window(s, i, k)| <= 2 * k + 1
  {
  }

  /** Every error has its window, and every window is around an error. */
  lemma ContextsCoverErrors(s: seq<Entry>, k: int, i: nat)
    requires i < |s| && IsError(s[i])
    ensures exists w :: 0 <= w < |ErrorContexts(s, k)| && ErrorIndices(s)[w] == i && ErrorContexts(s, k)[w] == Window(s, i, k)
  {
    var errors := ErrorIndices(s);
    var w :| 0 <= w < |errors| && errors[w] == i;
  }

  // ---------------------------------------------------------------------
  // Grouping in first-seen order (dicts of lists)
  // ---------------------------------------------------------------------

  /** The items of `s` whose key is `k`, in order. */
  function Having<T>(s: seq<T>, key: T -> string, k: string): (r: seq<T>)
    ensures |r| <= |s|
    ensures forall x | x in r :: x in s && key(x) == k
  {
    if |s| == 0 then []
    else Having(s[..|s| - 1], key, k) + (if key(s[|s| - 1]) == k then [s[|s| - 1]] else [])
  }

  /** The distinct keys of `s` in the order they first occur, as a dict
      filled by appending keeps them. */
  function Keys<T>(s: seq<T>, key: T -> string): (r: seq<string>)
    ensures forall v, w :: 0 <= v < w < |r| ==> r[v] != r[w]
    ensures forall k :: k in r <==> exists i :: 0 <= i < |s| && key(s[i]) == k
  {
    if |s| == 0 then []
    else
      var before := Keys(s[..|s| - 1], key);
      var k := key(s[|s| - 1]);
      if k in before then before else before + [k]
  }

  /** The sizes of the groups of `ks`, added up. */
  function GroupSizes<T>(s: seq<T>, key: T -> string, ks: seq<string>): nat {
    if |ks| == 0 then 0
    else GroupSizes(s, key, ks[..|ks| - 1]) + |Having(s, key, ks[|ks| - 1])|
  }

  /** An item adds one to the size of its own group and to no other. */
  lemma {:induction false} GroupSizesSnoc<T>(s: seq<T>, x: T, key: T -> string, ks: seq<string>)
    requires forall v, w :: 0 <= v < w < |ks| ==> ks[v] != ks[w]
    ensures GroupSizes(s + [x], key, ks) == GroupSizes(s, key, ks) + (if key(x) in ks then 1 else 0)
    decreases |ks|
  {
    var t := s + [x];
    assert t[..|t| - 1] == s;
    if |ks| > 0 {
      var init := ks[..|ks| - 1];
      GroupSizesSnoc(s, x, key, init);
      assert key(x) in ks <==> key(x) in init || key(x) == ks[|ks| - 1];
      if key(x) == ks[|ks| - 1] {
        assert key(x) !in init;
      }
    }
  }

  /** A key no item carries has an empty group. */
  lemma {:induction false} HavingNone<T>(s: seq<T>, key: T -> string, k: string)
    requires forall i :: 0 <= i < |s| ==> key(s[i]) != k
    ensures Having(s, key, k) == []
    decreases |s|
  {
    if |s| > 0 {
      HavingNone(s[..|s| - 1], key, k);
    }
  }

  /** The groups of all the keys together hold every item exactly once. */
  lemma {:induction false} GroupSizesCover<T>(s: seq<T>, key: T -> string)
    ensures GroupSizes(s, key, Keys(s, key)) == |s|
    decreases |s|
  {
    if |s| > 0 {
      var init := s[..|s| - 1];
      var x := s[|s| - 1];
      var ks := Keys(init, key);
      assert s == init + [x];
      GroupSizesCover(init, key);
      GroupSizesSnoc(init, x, key, ks);
      if key(x) !in ks {
        var ks2 := ks + [key(x)];
        assert ks2[..|ks2| - 1] == ks;
        GroupSizesSnoc(init, x, key, ks);
        assert forall i :: 0 <= i < |init| ==> key(init[i]) != key(x);
        HavingNone(init, key, key(x));
        assert Having(s, key, key(x)) == [x];
      }
    }
  }

  // ---------------------------------------------------------------------
  // Error report (`generate_error_report`)
  // ---------------------------------------------------------------------

  /** The ERROR and CRITICAL entries, in order. */
  function Errors(s: seq<Entry>): (r: seq<Entry>)
    ensures forall e | e in r :: IsError(e) && e in s
    ensures forall e | e in s && IsError(e) :: e in r
  {
    if |s| == 0 then []
    else
      assert forall e | e in s :: e in s[..|s| - 1] || e == s[|s| - 1];
      Errors(s[..|s| - 1]) + (if IsError(s[|s| - 1]) then [s[|s| - 1]] else [])
  }

  function ComponentOf(e: Entry): string { e.component }

  /** A message with the identifier-like words replaced by `ID`
      (`scrubIds`), then every digit run by `N`. */
  function Pattern(scrubIds: string -> string, message: string): (r: string)
    ensures forall i :: 0 <= i < |r| ==> !Text.IsDecimalDigit(r[i])
  {
    Text.ReplaceDigitRuns(scrubIds(message))
  }

  /** One line block per message pattern, from its first and last entry. */
  function PatternBlock(clock: Clock, pattern: string, group: seq<Entry>): string
    requires |group| > 0
  {
    "\n\U{2022} " + pattern + " (" + Text.IntToString(|group|) + " occurrences)\n"
    + "  First seen: " + clock.text(group[0].timestamp) + "\n"
    + "  Last seen: " + clock.text(group[|group| - 1].timestamp) + "\n"
    + "  Example: " + group[|group| - 1].message + "\n"
  }

  function PatternBlocks(clock: Clock, key: Entry -> string, errors: seq<Entry>, patterns: seq<string>): string
    requires forall p | p in patterns :: p in Keys(errors, key)
  {
    if |patterns| == 0 then ""
    else
      var p := patterns[|patterns| - 1];
      KeyHasGroup(errors, key, p);
      PatternBlocks(clock, key, errors, patterns[..|patterns| - 1]) + PatternBlock(clock, p, Having(errors, key, p))
  }

  lemma {:induction false} HavingHas<T>(s: seq<T>, key: T -> string, i: nat)
    requires i < |s|
    ensures s[i] in Having(s, key, key(s[i]))
    decreases |s|
  {
    if i < |s| - 1 {
      HavingHas(s[..|s| - 1], key, i);
    }
  }

  /** Every key has a non-empty group. */
  lemma KeyHasGroup<T>(s: seq<T>, key: T -> string, k: string)
    requires k in Keys(s, key)
    ensures |Having(s, key, k)| > 0
  {
    var i :| 0 <= i < |s| && key(s[i]) == k;
    HavingHas(s, key, i);
  }

  /** The section of one component: its count, then its patterns. */
  function Section(clock: Clock, scrubIds: string -> string, component: string, errors: seq<Entry>): string {
    var key := (e: Entry) => Pattern(scrubIds, e.message);
    Text.Upper(component) + " Errors: " + Text.IntToString(|errors|) + "\n" + Text.Repeat('-', 30) + "\n"
    + PatternBlocks(clock, key, errors, Keys(errors, key))
    + "\n" + Text.Repeat('=', 50) + "\n\n"
  }

  function Sections(clock: Clock, scrubIds: string -> string, errors: seq<Entry>, components: seq<string>): string {
    if |components| == 0 then ""
    else
      var c := components[|components| - 1];
      Sections(clock, scrubIds, errors, components[..|components| - 1]) + Section(clock, scrubIds, c, Having(errors, ComponentOf, c))
  }

  function ReportHeader(count: nat): (r: string)
    ensures |r| > 0 && r[0] == 'E'
  {
    "Error Report (" + Text.IntToString(count) + " errors found)\n" + Text.Repeat('=', 50) + "\n\n"
  }

  /** `generate_error_report`: the fixed message exactly when there are no
      errors; otherwise the header with the number of errors, then one
      section per component in first-seen order. */
  function ErrorReport(clock: Clock, scrubIds: string -> string, entries: seq<Entry>): (r: string)
    ensures r == "No errors found in logs." <==> Errors(entries) == []
    ensures Errors(entries) != [] ==> StartsWithText(r, ReportHeader(|Errors(entries)|))
  {
    var errors := Errors(entries);
    if errors == [] then "No errors found in logs."
    else
      var header := ReportHeader(|errors|);
      var r := header + Sections(clock, scrubIds, errors, Keys(errors, ComponentOf));
      assert r[..|header|] == header;
      assert r[0] == header[0];
      r
  }

  /** The per-component counts in the report add up to the total in its
      header. */
  lemma ReportCountsAddUp(entries: seq<Entry>)
    ensures var errors := Errors(entries);
      GroupSizes(errors, ComponentOf, Keys(errors, ComponentOf)) == |errors|
  {
    GroupSizesCover(Errors(entries), ComponentOf);
  }

  /** No entry is dropped from the report: every error is in the group of
      its component, and every component of an error has a section. */
  lemma ReportListsEveryError(entries: seq<Entry>, e: Entry)
    requires e in entries && IsError(e)
    ensures var errors := Errors(entries);
      e.component in Keys(errors, ComponentOf) && e in Having(errors, ComponentOf, e.component)
  {
    var errors := Errors(entries);
    var i :| 0 <= i < |errors| && errors[i] == e;
    HavingHas(errors, ComponentOf, i);
  }

  // ---------------------------------------------------------------------
  // Deleting (`clear_logs`)
  // ---------------------------------------------------------------------

  /** The four log directories, in the order they are cleaned. */
  datatype Directory = ServerLogs | PluginLogs | ClaudeLogs | DiagnosticLogs

  /** The component name that selects a directory (`diagnostic` selects
      the `diagnostics` directory). */
  function ComponentName(d: Directory): string {
    match d
    case ServerLogs => "server"
    case PluginLogs => "plugin"
    case ClaudeLogs => "claude"
    case DiagnosticLogs => "diagnostic"
  }

  lemma EveryDirectoryListed()
    ensures forall d: Directory :: d in [ServerLogs, PluginLogs, ClaudeLogs, DiagnosticLogs]
  {
    forall d: Directory ensures d in [ServerLogs, PluginLogs, ClaudeLogs, DiagnosticLogs] {
      var all := [ServerLogs, PluginLogs, ClaudeLogs, DiagnosticLogs];
      match d
      case ServerLogs => assert all[0] == d;
      case PluginLogs => assert all[1] == d;
      case ClaudeLogs => assert all[2] == d;
      case DiagnosticLogs => assert all[3] == d;
    }
  }

  /** The directories to clean: all four without a component, the one a
      known component names, none for any other name. */
  function DirectoriesToClean(component: Option<string>): (r: seq<Directory>)
    ensures forall d :: d in r <==> component.None? || component == Some(ComponentName(d))
    ensures forall v, w :: 0 <= v < w < |r| ==> r[v] != r[w]
  {
    match component
    case None =>
      EveryDirectoryListed();
      [ServerLogs, PluginLogs, ClaudeLogs, DiagnosticLogs]
    case Some(name) =>
      match name
      case "server" => [ServerLogs]
      case "plugin" => [PluginLogs]
      case "claude" => [ClaudeLogs]
      case "diagnostic" => [DiagnosticLogs]
      case _ => []
  }

  /** Without a component every directory is cleaned, in order. */
  lemma AllDirectoriesWithoutComponent()
    ensures DirectoriesToClean(None) == [ServerLogs, PluginLogs, ClaudeLogs, DiagnosticLogs]
  {
  }

  /** A `.log` file with its modification time. */
  datatype StoredLog = StoredLog(path: string, mtime: int)

  /** With `--older-than N` only files modified before `now - N days` go. */
  predicate Expired(daysOld: Option<int>, now: int, f: StoredLog) {
    daysOld.None? || f.mtime < now - daysOld.value * 86400
  }

  function Expiring(daysOld: Option<int>, now: int, files: seq<StoredLog>): (r: seq<StoredLog>)
    ensures forall f :: f in r <==> f in files && Expired(daysOld, now, f)
  {
    if |files| == 0 then []
    else
      var last := files[|files| - 1];
      assert forall f :: f in files <==> f in files[..|files| - 1] || f == last;
      Expiring(daysOld, now, files[..|files| - 1]) + (if Expired(daysOld, now, last) then [last] else [])
  }

  /** The files to delete, directory by directory. */
  function FilesToDelete(dirs: seq<Directory>, listing: Directory -> seq<StoredLog>, daysOld: Option<int>, now: int): (r: seq<StoredLog>)
    ensures forall f :: f in r <==> exists d :: d in dirs && f in listing(d) && Expired(daysOld, now, f)
  {
    if |dirs| == 0 then []
    else
      var last := dirs[|dirs| - 1];
      assert forall d :: d in dirs <==> d in dirs[..|dirs| - 1] || d == last;
      FilesToDelete(dirs[..|dirs| - 1], listing, daysOld, now) + Expiring(daysOld, now, listing(last))
  }

  /** What deleting did: the files removed and the lines printed. */
  datatype Cleared = Cleared(deleted: seq<string>, printed: seq<string>)

  /** The confirmation preview: the count, the first five names, and how
      many more there are. */
  function Preview5(files: seq<StoredLog>): (r: seq<string>)
    ensures |r| == 1 + Min(5, |files|) + (if |files| > 5 then 1 else 0)
  {
    var shown := if |files| <= 5 then files else files[..5];
    ["Will delete " + Text.IntToString(|files|) + " log files:"]
    + seq(|shown|, i requires 0 <= i < |shown| => "  - " + Text.Basename(shown[i].path))
    + (if |files| > 5 then ["  - ... and " + Text.IntToString(|files| - 5) + " more"] else [])
  }

  /** Removes the files in order; `remove` gives the error of a failed
      removal. */
  function RemoveAll(files: seq<StoredLog>, remove: string -> Option<string>): (r: Cleared)
    ensures forall p :: p in r.deleted <==> exists f :: f in files && f.path == p && remove(p).None?
    ensures |r.deleted| + |r.printed| == |files|
  {
    if |files| == 0 then Cleared([], [])
    else
      var before := RemoveAll(files[..|files| - 1], remove);
      var f := files[|files| - 1];
      assert forall g :: g in files <==> g in files[..|files| - 1] || g == f;
      match remove(f.path)
      case None => Cleared(before.deleted + [f.path], before.printed)
      case Some(error) => Cleared(before.deleted, before.printed + ["Error deleting " + f.path + ": " + error])
  }

  /** `clear_logs`: nothing is deleted when no file matches or when the
      answer to the confirmation is not `y` (any case); otherwise every
      selected file whose removal succeeds is deleted, and the count is
      reported. */
  function ClearLogs(daysOld: Option<int>, component: Option<string>, confirm: bool,
                     listing: Directory -> seq<StoredLog>, now: int, answer: string,
                     remove: string -> Option<string>): (r: Cleared)
    ensures forall p | p in r.deleted ::
      exists f: StoredLog :: f.path == p && f in FilesToDelete(DirectoriesToClean(component), listing, daysOld, now)
    ensures r.deleted != [] ==> !confirm || Text.Lower(answer) == "y"
    ensures FilesToDelete(DirectoriesToClean(component), listing, daysOld, now) == [] ==>
      r == Cleared([], ["No logs found matching the specified criteria."])
    ensures confirm && Text.Lower(answer) != "y" ==> r.deleted == []
    ensures !confirm || Text.Lower(answer) == "y" ==>
      forall p :: p in r.deleted <==>
        exists f :: f in FilesToDelete(DirectoriesToClean(component), listing, daysOld, now) && f.path == p && remove(p).None?
  {
    var files := FilesToDelete(DirectoriesToClean(component), listing, daysOld, now);
    if files == [] then Cleared([], ["No logs found matching the specified criteria."])
    else
      var preview := if confirm then Preview5(files) else [];
      if confirm && Text.Lower(answer) != "y" then Cleared([], preview + ["Deletion cancelled."])
      else
        var done := RemoveAll(files, remove);
        Cleared(done.deleted, preview + done.printed + ["Successfully deleted " + Text.IntToString(|done.deleted|) + " log files."])
  }

  // ---------------------------------------------------------------------
  // Command-line arguments
  // ---------------------------------------------------------------------

  /** The seconds in one `m`, `h` or `d`. */
  function UnitSeconds(unit: char): (r: Option<int>)
    ensures r.Some? <==> unit in "mhd"
  {
    match unit
    case 'm' => Some(60)
    case 'h' => Some(3600)
    case 'd' => Some(86400)
    case _ => None
  }

  /** `--since`: an empty or missing value sets no limit; otherwise the
      text before the last character is read as an integer (a failure
      reports the format) and the last character, in either case, is the
      unit (another one reports the unit). An error ends `main` with 1. */
  function ParseSince(arg: Option<string>, now: int): (r: Result<Option<int>, string>)
    ensures arg.None? || arg == Some("") ==> r == Ok(None)
    ensures arg.Some? && |arg.value| > 0 ==>
      var a := arg.value;
      var value := Text.ParseInt(a[..|a| - 1], 10);
      var unit := UnitSeconds(Text.LowerChar(a[|a| - 1]));
      && (value.None? ==> r == Err("Invalid time format: '" + a + "'. Use e.g. '1h', '30m', '2d'"))
      && (value.Some? && unit.None? ==> r == Err("Invalid time unit in '" + a + "'. Use 'm' for minutes, 'h' for hours, 'd' for days."))
      && (value.Some? && unit.Some? ==> r == Ok(Some(now - value.value * unit.value)))
  {
    match arg
    case None => Ok(None)
    case Some(a) =>
      if a == "" then Ok(None)
      else SinceOf(a, Text.ParseInt(a[..|a| - 1], 10), UnitSeconds(Text.LowerChar(a[|a| - 1])), now)
  }

  /** The `--since` outcome for a count read as `value` and a unit worth
      `unit` seconds. */
  function SinceOf(a: string, value: Option<int>, unit: Option<int>, now: int): Result<Option<int>, string> {
    match value
    case None => Err("Invalid time format: '" + a + "'. Use e.g. '1h', '30m', '2d'")
    case Some(n) =>
      match unit
      case None => Err("Invalid time unit in '" + a + "'. Use 'm' for minutes, 'h' for hours, 'd' for days.")
      case Some(seconds) => Ok(Some(now - n * seconds))
  }

  /** `main`'s exit code when the `--since` value is rejected. */
  function SinceExitCode(arg: Option<string>, now: int): (code: Option<int>)
    ensures code.Some? <==> ParseSince(arg, now).Err?
    ensures code.Some? ==> code.value == 1
  {
    if ParseSince(arg, now).Err? then Some(1) else None
  }

  /** A count followed by a unit letter, in either case, reads back as that
      many minutes, hours or days before now. */
  lemma SinceOfCount(n: int, unit: char, seconds: int, now: int)
    requires UnitSeconds(Text.LowerChar(unit)) == Some(seconds)
    ensures ParseSince(Some(Text.IntToString(n) + [unit]), now) == Ok(Some(now - n * seconds))
  {
    var a := Text.IntToString(n) + [unit];
    assert a[..|a| - 1] == Text.IntToString(n);
    Text.ParseIntOfIntToString(n);
    SinceAccepted(a, n, seconds, now);
  }

  lemma SinceAccepted(a: string, value: int, seconds: int, now: int)
    requires |a| > 0 && Text.ParseInt(a[..|a| - 1], 10) == Some(value)
    requires UnitSeconds(Text.LowerChar(a[|a| - 1])) == Some(seconds)
    ensures ParseSince(Some(a), now) == Ok(Some(now - value * seconds))
  {
    assert ParseSince(Some(a), now) == SinceOf(a, Some(value), Some(seconds), now);
  }

  /** A single character is never a valid `--since`: there is no count. */
  lemma SinceNeedsCount(c: char, now: int)
    ensures ParseSince(Some([c]), now).Err?
  {
    assert [c][..0] == "";
  }

  /** `--level` and `--component`: the comma-separated items, stripped and
      in upper (levels) or lower (components) case; missing or empty means
      no filter. */
  function ListArgument(arg: Option<string>, upper: bool): (r: Option<seq<string>>)
    ensures r.None? <==> arg.None? || arg == Some("")
    ensures r.Some? ==> var items := Text.Split(arg.value, ',');
      |r.value| == |items| && forall i :: 0 <= i < |items| ==> r.value[i] == Item(items[i], upper)
  {
    match arg
    case None => None
    case Some(a) =>
      if a == "" then None
      else
        var items := Text.Split(a, ',');
        Some(seq(|items|, i requires 0 <= i < |items| => Item(items[i], upper)))
  }

  /** One item of a list argument: stripped, then upper or lower case. */
  function Item(piece: string, upper: bool): string {
    if upper then Text.Upper(Text.Strip(piece)) else Text.Lower(Text.Strip(piece))
  }

  /** Level filtering ignores case: an item naming a level in any case
      selects the entries of that level, whose levels are kept upper case. */
  lemma LevelFilterIgnoresCase(arg: string, i: nat, level: string)
    requires arg != "" && i < |Text.Split(arg, ',')|
    requires Text.Upper(Text.Strip(Text.Split(arg, ',')[i])) == Text.Upper(level)
    ensures Selects(ListArgument(Some(arg), true), Text.Upper(level))
  {
    var items := ListArgument(Some(arg), true).value;
    assert items[i] == Item(Text.Split(arg, ',')[i], true);
  }
}
