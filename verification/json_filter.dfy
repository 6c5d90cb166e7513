/**
  * The JSON line filter (`logs/json_filter.py`): it copies to standard
  * output the input lines that are valid JSON, stripped, and writes one
  * record per non-blank input line to a log file, numbered by the line's
  * position in the input.
  *
  * The input is the sequence of lines read; `json.loads` and the text of
  * its error are the runtime's.
  */
module JsonFilter {
  import opened Wrappers
  import opened JsonValue
  import Text
  import Seqs

  /** A line of the log file, before its text is laid out. */
  datatype Record = Valid(lineNo: nat, preview: string) | Invalid(lineNo: nat, error: string, preview: string)

  /** The first 100 characters of a line. */
  function Preview(line: string): (r: string)
    ensures |r| <= 100 && |r| <= |line| && r == line[..|r|]
    ensures |line| <= 100 ==> r == line
  {
    if |line| <= 100 then line else line[..100]
  }

  /** The text written to the log for a record. */
  function RecordText(r: Record): string {
    match r
    case Valid(n, preview) => "VALID JSON [" + Text.IntToString(n) + "]: " + preview + "...\n"
    case Invalid(n, error, preview) => "INVALID JSON [" + Text.IntToString(n) + "]: " + error + " in: " + preview + "...\n"
  }

  /** The lines printed (each followed by a newline) and the records. */
  datatype Filtered = Filtered(out: seq<string>, records: seq<Record>)

  /** Each input line stripped, as the loop does first. */
  function Clean(lines: seq<string>): (c: seq<string>)
    ensures |c| == |lines| && forall i :: 0 <= i < |lines| ==> c[i] == Text.Strip(lines[i])
  {
    seq(|lines|, i requires 0 <= i < |lines| => Text.Strip(lines[i]))
  }

  /** One stripped line, the `n`-th: nothing for a blank line, else its
      record, and the line printed when it decodes. */
  function Step(rt: Runtime, n: nat, line: string): (r: Filtered)
    ensures |r.out| <= |r.records| <= 1
    ensures r.records == [] <==> line == ""
    ensures r.out == (if line != "" && rt.loads(line).Some? then [line] else [])
    ensures r.records != [] ==> && r.records[0].lineNo == n
                                && (r.records[0].Valid? <==> rt.loads(line).Some?)
                                && r.records[0].preview == Preview(line)
  {
    if line == "" then Filtered([], [])
    else
      match rt.loads(line)
      case Some(_) => Filtered([line], [Valid(n, Preview(line))])
      case None => Filtered([], [Invalid(n, rt.decodeError(line), Preview(line))])
  }

  /** The loop over the stripped lines; line numbers count from 1. */
  function Run(rt: Runtime, lines: seq<string>): (r: Filtered)
    ensures |r.out| <= |r.records| <= |lines|
  {
    if |lines| == 0 then Filtered([], [])
    else
      var before := Run(rt, lines[..|lines| - 1]);
      var step := Step(rt, |lines|, lines[|lines| - 1]);
      Filtered(before.out + step.out, before.records + step.records)
  }

  /** `main`: the lines read, stripped, then filtered. */
  function Filter(rt: Runtime, lines: seq<string>): (r: Filtered)
    ensures |r.out| <= |r.records| <= |lines|
  {
    Run(rt, Clean(lines))
  }

  /** Each record describes the line it numbers: that line is not blank,
      the record is valid exactly when it decodes, and it previews it. */
  lemma {:induction false} RunRecords(rt: Runtime, lines: seq<string>, k: nat)
    requires k < |Run(rt, lines).records|
    ensures var rec := Run(rt, lines).records[k];
      && 1 <= rec.lineNo <= |lines|
      && lines[rec.lineNo - 1] != ""
      && (rec.Valid? <==> rt.loads(lines[rec.lineNo - 1]).Some?)
      && rec.preview == Preview(lines[rec.lineNo - 1])
    decreases |lines|
  {
    var init := lines[..|lines| - 1];
    var before := Run(rt, init);
    if k < |before.records| {
      RunRecords(rt, init, k);
      assert Run(rt, lines).records[k] == before.records[k];
      assert lines[before.records[k].lineNo - 1] == init[before.records[k].lineNo - 1];
    } else {
      var step := Step(rt, |lines|, lines[|lines| - 1]);
      assert Run(rt, lines).records[k] == step.records[0];
    }
  }

  /** The records in terms of the input: each numbers a non-blank line,
      is valid exactly when that line, stripped, decodes, and previews the
      stripped line. */
  lemma RecordsDescribeLines(rt: Runtime, lines: seq<string>, k: nat)
    requires k < |Filter(rt, lines).records|
    ensures var rec := Filter(rt, lines).records[k];
      && 1 <= rec.lineNo <= |lines|
      && var line := Text.Strip(lines[rec.lineNo - 1]);
      && line != ""
      && (rec.Valid? <==> rt.loads(line).Some?)
      && rec.preview == Preview(line)
  {
    var c := Clean(lines);
    RunRecords(rt, c, k);
    var rec := Run(rt, c).records[k];
    assert c[rec.lineNo - 1] == Text.Strip(lines[rec.lineNo - 1]);
  }

  /** The records come in the order of the lines they number. */
  lemma {:induction false} RunOrdered(rt: Runtime, lines: seq<string>)
    ensures forall k, m :: 0 <= k < m < |Run(rt, lines).records| ==> Run(rt, lines).records[k].lineNo < Run(rt, lines).records[m].lineNo
    decreases |lines|
  {
    if |lines| > 0 {
      var init := lines[..|lines| - 1];
      var before := Run(rt, init).records;
      var step := Step(rt, |lines|, lines[|lines| - 1]).records;
      var r := Run(rt, lines).records;
      assert r == before + step;
      RunOrdered(rt, init);
      forall k, m | 0 <= k < m < |r| ensures r[k].lineNo < r[m].lineNo {
        assert r[k] == before[k];
        if m < |before| {
          assert r[m] == before[m];
        } else {
          RunRecords(rt, init, k);
          assert r[m] == step[m - |before|];
        }
      }
    }
  }

  /** Every printed line is non-blank and decodes. */
  lemma {:induction false} RunOutputDecodes(rt: Runtime, lines: seq<string>)
    ensures forall i :: 0 <= i < |Run(rt, lines).out| ==> Run(rt, lines).out[i] != "" && rt.loads(Run(rt, lines).out[i]).Some?
    decreases |lines|
  {
    if |lines| > 0 {
      var init := lines[..|lines| - 1];
      var before := Run(rt, init).out;
      var step := Step(rt, |lines|, lines[|lines| - 1]).out;
      var out := Run(rt, lines).out;
      RunOutputDecodes(rt, init);
      assert out == before + step;
      forall i | 0 <= i < |out| ensures out[i] != "" && rt.loads(out[i]).Some? {
        if i < |before| {
          assert out[i] == before[i];
        } else {
          assert out[i] == step[i - |before|];
        }
      }
    }
  }

  /** The number of non-blank lines. */
  function CountNonBlank(lines: seq<string>): nat {
    if |lines| == 0 then 0
    else CountNonBlank(lines[..|lines| - 1]) + (if lines[|lines| - 1] == "" then 0 else 1)
  }

  /** There is exactly one record per non-blank line, and only valid
      records print a line. */
  lemma {:induction false} OneRecordPerLine(rt: Runtime, lines: seq<string>)
    ensures |Run(rt, lines).records| == CountNonBlank(lines)
    ensures |Run(rt, lines).out| <= |Run(rt, lines).records|
    decreases |lines|
  {
    if |lines| > 0 {
      OneRecordPerLine(rt, lines[..|lines| - 1]);
    }
  }

  /** Every non-blank line has its record, numbered by its position
      counting from 1 (blank lines count too). */
  lemma {:induction false} EveryLineRecorded(rt: Runtime, lines: seq<string>, i: nat)
    requires i < |lines| && lines[i] != ""
    ensures exists k :: 0 <= k < |Run(rt, lines).records| && Run(rt, lines).records[k].lineNo == i + 1
    decreases |lines|
  {
    var r := Run(rt, lines);
    if i < |lines| - 1 {
      var init := lines[..|lines| - 1];
      assert init[i] == lines[i];
      EveryLineRecorded(rt, init, i);
      var before := Run(rt, init);
      var k :| 0 <= k < |before.records| && before.records[k].lineNo == i + 1;
      assert r.records[k] == before.records[k];
    } else {
      assert r.records[|r.records| - 1].lineNo == i + 1;
    }
  }

  /** In terms of the input: a line that is not blank once stripped has
      its record. */
  lemma NonBlankLineRecorded(rt: Runtime, lines: seq<string>, i: nat)
    requires i < |lines| && Text.Strip(lines[i]) != ""
    ensures exists k :: 0 <= k < |Filter(rt, lines).records| && Filter(rt, lines).records[k].lineNo == i + 1
  {
    var c := Clean(lines);
    assert c[i] != "";
    EveryLineRecorded(rt, c, i);
    var k :| 0 <= k < |Run(rt, c).records| && Run(rt, c).records[k].lineNo == i + 1;
    assert Filter(rt, lines).records[k].lineNo == i + 1;
  }

  /** The lines are filtered one at a time: the output of two inputs one
      after the other is the two outputs one after the other. */
  lemma {:induction false} RunConcat(rt: Runtime, a: seq<string>, b: seq<string>)
    ensures Run(rt, a + b).out == Run(rt, a).out + Run(rt, b).out
    decreases |b|
  {
    if |b| == 0 {
      assert a + b == a;
    } else {
      var ab := a + b;
      var init := b[..|b| - 1];
      var last := b[|b| - 1];
      Seqs.DropLastOfConcat(a, b);
      RunConcat(rt, a, init);
      var mine := Step(rt, |ab|, last).out;
      var theirs := Step(rt, |b|, last).out;
      assert mine == theirs;
      Seqs.ConcatAssoc(Run(rt, a).out, Run(rt, init).out, theirs);
    }
  }

  lemma FilterConcat(rt: Runtime, a: seq<string>, b: seq<string>)
    ensures Filter(rt, a + b).out == Filter(rt, a).out + Filter(rt, b).out
  {
    CleanConcat(a, b);
    RunConcat(rt, Clean(a), Clean(b));
  }

  /** Stripping works line by line. */
  lemma CleanConcat(a: seq<string>, b: seq<string>)
    ensures Clean(a + b) == Clean(a) + Clean(b)
  {
    var ca, cb, cab := Clean(a), Clean(b), Clean(a + b);
    forall i | 0 <= i < |cab| ensures cab[i] == (ca + cb)[i] {
      Seqs.ConcatIndex(a, b, i);
      Seqs.ConcatIndex(ca, cb, i);
    }
    Seqs.SameElements(cab, ca + cb);
  }

  /** The output is exactly the stripped non-blank lines that decode, in
      input order: every such line is printed, and nothing else is. */
  lemma {:induction false} RunPrintsTheValidLines(rt: Runtime, lines: seq<string>)
    ensures forall i :: 0 <= i < |lines| && lines[i] != "" && rt.loads(lines[i]).Some? ==> lines[i] in Run(rt, lines).out
    ensures forall line | line in Run(rt, lines).out :: line in lines
    decreases |lines|
  {
    if |lines| > 0 {
      var init := lines[..|lines| - 1];
      RunPrintsTheValidLines(rt, init);
      assert forall i :: 0 <= i < |init| ==> lines[i] == init[i];
      assert forall line | line in init :: line in lines;
    }
  }

  lemma OutputIsTheValidLines(rt: Runtime, lines: seq<string>)
    ensures forall i :: 0 <= i < |lines| && Text.Strip(lines[i]) != "" && rt.loads(Text.Strip(lines[i])).Some? ==>
      Text.Strip(lines[i]) in Filter(rt, lines).out
    ensures forall line | line in Filter(rt, lines).out :: exists i :: 0 <= i < |lines| && Text.Strip(lines[i]) == line
  {
    var c := Clean(lines);
    var out := Run(rt, c).out;
    RunPrintsTheValidLines(rt, c);
    forall i | 0 <= i < |lines| && Text.Strip(lines[i]) != "" && rt.loads(Text.Strip(lines[i])).Some?
      ensures Text.Strip(lines[i]) in out
    {
      assert c[i] == Text.Strip(lines[i]);
    }
    forall line | line in out
      ensures exists i :: 0 <= i < |lines| && Text.Strip(lines[i]) == line
    {
      var i :| 0 <= i < |c| && c[i] == line;
      assert Text.Strip(lines[i]) == line;
    }
  }

  /** Every printed line is its own strip. */
  lemma OutputStripped(rt: Runtime, lines: seq<string>)
    ensures Clean(Filter(rt, lines).out) == Filter(rt, lines).out
  {
    var out := Filter(rt, lines).out;
    OutputIsTheValidLines(rt, lines);
    forall j | 0 <= j < |out| ensures Clean(out)[j] == out[j] {
      assert out[j] in Filter(rt, lines).out;
      StripOfPrinted(rt, lines, out[j]);
    }
    assert Clean(out) == out;
  }

  lemma StripOfPrinted(rt: Runtime, lines: seq<string>, line: string)
    requires exists i :: 0 <= i < |lines| && Text.Strip(lines[i]) == line
    ensures Text.Strip(line) == line
  {
    var i :| 0 <= i < |lines| && Text.Strip(lines[i]) == line;
    Text.StripIdempotent(lines[i]);
  }

  /** Running the output through the filter again gives the same output. */
  lemma {:induction false} RunIdempotent(rt: Runtime, lines: seq<string>)
    requires forall i :: 0 <= i < |lines| ==> lines[i] != "" && rt.loads(lines[i]).Some?
    ensures Run(rt, lines).out == lines
    decreases |lines|
  {
    if |lines| > 0 {
      RunIdempotent(rt, lines[..|lines| - 1]);
    }
  }

  lemma FilterIdempotent(rt: Runtime, lines: seq<string>)
    ensures Filter(rt, Filter(rt, lines).out).out == Filter(rt, lines).out
  {
    var out := Filter(rt, lines).out;
    OutputStripped(rt, lines);
    RunOutputDecodes(rt, Clean(lines));
    RunIdempotent(rt, out);
  }

  /** The standard output text: each line followed by a newline. */
  function Stdout(out: seq<string>): (r: string)
    ensures |r| >= |out|
  {
    if |out| == 0 then "" else Stdout(out[..|out| - 1]) + out[|out| - 1] + "\n"
  }
}
