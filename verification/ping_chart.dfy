/**
 * The result-file parser, ping command, result file name and chart-style rule
 * of ping_chart.py. The platform test `platform.system().lower() == "windows"`
 * is the parameter `isWindows`; the result file is the sequence of lines Python
 * iterates over, each still carrying its line terminator.
 */
module PingChart {
  import opened Wrappers
  import opened PyStr

  /** `str.index` found no occurrence of `marker` (Python's `ValueError`). */
  datatype ParseError = SubstringNotFound(marker: string)

  /** The raw texts cut out of one accepted line, before `strptime` and `int`/`float`. */
  datatype Sample = Sample(stamp: string, responseTime: string)

  /** The two parallel lists `read_ping_results` returns. */
  datatype PingSeries = PingSeries(stamps: seq<string>, responseTimes: seq<string>)
  {
    function Append(s: Sample): PingSeries {
      PingSeries(stamps + [s.stamp], responseTimes + [s.responseTime])
    }

    function Concat(other: PingSeries): PingSeries {
      PingSeries(stamps + other.stamps, responseTimes + other.responseTimes)
    }
  }

  /** Lines without this substring are skipped. */
  const AcceptMarker := "from"
  const TimeMarker := "time"
  const MsMarker := "ms"
  /** Length of "time=" (or "time<"), skipped before the response time. */
  const TimeSkip := 5

  /** The substring the timestamp is measured back from. */
  function StampMarker(isWindows: bool): string {
    if isWindows then ": Reply" else "from"
  }

  /** How many characters before `StampMarker` the timestamp ends. */
  function StampOffset(isWindows: bool): nat {
    if isWindows then 10 else 11
  }

  /**
   * The timestamp text `line[: line.index(marker) - offset]`. A slice end that
   * falls below zero counts from the end of the line, as in Python.
   */
  function StampText(line: string, isWindows: bool): (r: Result<string, ParseError>)
    ensures r.Failure? <==> !Contains(line, StampMarker(isWindows))
    ensures r.Failure? ==> r.error == SubstringNotFound(StampMarker(isWindows))
    ensures r.Success? ==> r.value <= line
    ensures r.Success? ==>
      var p := IndexOf(line, StampMarker(isWindows)).value;
      var off := StampOffset(isWindows);
      && (p >= off ==> |r.value| == p - off)
      && (p < off ==> |r.value| == if |line| + p < off then 0 else |line| + p - off)
  {
    match IndexOf(line, StampMarker(isWindows))
    case None => Failure(SubstringNotFound(StampMarker(isWindows)))
    case Some(p) => Success(Slice(line, 0, p - StampOffset(isWindows)))
  }

  /**
   * The response-time text `line[line.index("time") + 5 : line.index("ms")]`:
   * what lies between the five characters from the first "time" on and the
   * first "ms", or "" when that "ms" comes too early.
   */
  function ResponseTimeText(line: string): (r: Result<string, ParseError>)
    ensures r.Failure? <==> !Contains(line, TimeMarker) || !Contains(line, MsMarker)
    ensures r.Failure? ==> r.error == SubstringNotFound(if Contains(line, TimeMarker) then MsMarker else TimeMarker)
    ensures r.Success? ==>
      var t := IndexOf(line, TimeMarker).value;
      var m := IndexOf(line, MsMarker).value;
      && (t + TimeSkip < m ==> r.value == line[t + TimeSkip..m])
      && (m <= t + TimeSkip ==> r.value == [])
  {
    match IndexOf(line, TimeMarker)
    case None => Failure(SubstringNotFound(TimeMarker))
    case Some(t) =>
      match IndexOf(line, MsMarker)
      case None => Failure(SubstringNotFound(MsMarker))
      case Some(m) => Success(Slice(line, t + TimeSkip, m))
  }

  /** Every substring `ExtractLine` looks up is in `line`. */
  predicate MarkersPresent(line: string, isWindows: bool) {
    Contains(line, StampMarker(isWindows)) && Contains(line, TimeMarker) && Contains(line, MsMarker)
  }

  /**
   * One pass of the loop body: the timestamp is cut first, then the response
   * time, so a line missing several markers reports the first one looked up.
   */
  function ExtractLine(line: string, isWindows: bool): (r: Result<Sample, ParseError>)
    ensures r.Success? <==> MarkersPresent(line, isWindows)
    ensures r.Failure? ==> !Contains(line, r.error.marker)
    ensures r.Failure? && r.error.marker != StampMarker(isWindows) ==>
      Contains(line, StampMarker(isWindows)) && r.error.marker in {TimeMarker, MsMarker}
    ensures r.Success? ==> StampText(line, isWindows) == Success(r.value.stamp)
    ensures r.Success? ==> ResponseTimeText(line) == Success(r.value.responseTime)
  {
    match StampText(line, isWindows)
    case Failure(e) => Failure(e)
    case Success(stamp) =>
      match ResponseTimeText(line)
      case Failure(e) => Failure(e)
      case Success(ms) => Success(Sample(stamp, ms))
  }

  /** The lines `read_ping_results` keeps, in file order: those containing "from". */
  function Accepted(lines: seq<string>): (r: seq<string>)
    ensures |r| <= |lines|
    ensures forall l :: l in r ==> l in lines && Contains(l, AcceptMarker)
    ensures forall i :: 0 <= i < |lines| && Contains(lines[i], AcceptMarker) ==> lines[i] in r
  {
    if |lines| == 0 then []
    else
      var rest := Accepted(lines[..|lines| - 1]);
      if Contains(lines[|lines| - 1], AcceptMarker) then rest + [lines[|lines| - 1]] else rest
  }

  /**
   * `read_ping_results`: walk the lines in order, skip those without "from", and
   * append one timestamp and one response time per remaining line. Any failed
   * `str.index` raises out of the whole call, so the first failing line decides.
   */
  function ReadPingResults(lines: seq<string>, isWindows: bool): (r: Result<PingSeries, ParseError>)
    ensures r.Success? ==> |r.value.stamps| == |r.value.responseTimes| == |Accepted(lines)|
  {
    if |lines| == 0 then Success(PingSeries([], []))
    else Step(ReadPingResults(lines[..|lines| - 1], isWindows), lines[|lines| - 1], isWindows)
  }

  /**
   * One iteration of the loop over the file, applied to the outcome of the
   * lines before it. A pass only appends: the entries already collected are
   * never rewritten, and a line without "from" adds nothing. An earlier error
   * stays; a new error is the one the line's own extraction reports.
   */
  function Step(acc: Result<PingSeries, ParseError>, line: string, isWindows: bool): (r: Result<PingSeries, ParseError>)
    ensures acc.Failure? ==> r == acc
    ensures r.Success? ==> acc.Success?
    ensures r.Success? ==>
      var added := if Contains(line, AcceptMarker) then 1 else 0;
      && |r.value.stamps| == |acc.value.stamps| + added
      && |r.value.responseTimes| == |acc.value.responseTimes| + added
      && r.value.stamps[..|acc.value.stamps|] == acc.value.stamps
      && r.value.responseTimes[..|acc.value.responseTimes|] == acc.value.responseTimes
    ensures r.Success? && Contains(line, AcceptMarker) ==>
      ExtractLine(line, isWindows) == Success(Sample(r.value.stamps[|acc.value.stamps|], r.value.responseTimes[|acc.value.responseTimes|]))
    ensures acc.Success? && r.Failure? ==>
      Contains(line, AcceptMarker) && ExtractLine(line, isWindows) == Failure(r.error)
  {
    match acc
    case Failure(e) => Failure(e)
    case Success(series) =>
      if !Contains(line, AcceptMarker) then Success(series)
      else
        match ExtractLine(line, isWindows)
        case Failure(e) => Failure(e)
        case Success(sample) => Success(series.Append(sample))
  }

  /** The outcome of parsing one file after another: the first failure wins, otherwise the series are joined. */
  function Combine(x: Result<PingSeries, ParseError>, y: Result<PingSeries, ParseError>): Result<PingSeries, ParseError> {
    match x
    case Failure(e) => Failure(e)
    case Success(s1) =>
      match y
      case Failure(e) => Failure(e)
      case Success(s2) => Success(s1.Concat(s2))
  }

  /** Filtering distributes over concatenation: the kept lines stay in file order. */
  lemma {:induction false} AcceptedAppend(a: seq<string>, b: seq<string>)
    ensures Accepted(a + b) == Accepted(a) + Accepted(b)
    decreases |b|
  {
    if |b| == 0 {
      assert a + b == a;
    } else {
      var b' := b[..|b| - 1];
      assert (a + b)[..|a + b| - 1] == a + b';
      assert (a + b)[|a + b| - 1] == b[|b| - 1];
      AcceptedAppend(a, b');
    }
  }

  /**
   * Parsing a file in two pieces gives the same result as parsing it whole:
   * samples come out in file order and the earliest failure is the one reported.
   */
  lemma {:induction false} ReadPingResultsAppend(a: seq<string>, b: seq<string>, isWindows: bool)
    ensures ReadPingResults(a + b, isWindows) == Combine(ReadPingResults(a, isWindows), ReadPingResults(b, isWindows))
    decreases |b|
  {
    if |b| == 0 {
      assert a + b == a;
      match ReadPingResults(a, isWindows)
      case Failure(_) =>
      case Success(s1) =>
        assert s1.Concat(PingSeries([], [])) == s1;
    } else {
      var b' := b[..|b| - 1];
      var line := b[|b| - 1];
      assert (a + b)[..|a + b| - 1] == a + b';
      assert (a + b)[|a + b| - 1] == line;
      ReadPingResultsAppend(a, b', isWindows);
      StepCombine(ReadPingResults(a, isWindows), ReadPingResults(b', isWindows), line, isWindows);
    }
  }

  /** A step after a combination is a step on the second part. */
  lemma StepCombine(x: Result<PingSeries, ParseError>, y: Result<PingSeries, ParseError>, line: string, isWindows: bool)
    ensures Step(Combine(x, y), line, isWindows) == Combine(x, Step(y, line, isWindows))
  {
    match x
    case Failure(_) =>
    case Success(s1) =>
      match y
      case Failure(_) =>
      case Success(s2) =>
        if Contains(line, AcceptMarker) {
          match ExtractLine(line, isWindows)
          case Failure(_) =>
          case Success(sample) =>
            ConcatAppend(s1, s2, sample);
        }
  }

  /** Appending after a join is joining with the appended series. */
  lemma ConcatAppend(s1: PingSeries, s2: PingSeries, sample: Sample)
    ensures s1.Concat(s2).Append(sample) == s1.Concat(s2.Append(sample))
  {
    assert s1.stamps + s2.stamps + [sample.stamp] == s1.stamps + (s2.stamps + [sample.stamp]);
    assert s1.responseTimes + s2.responseTimes + [sample.responseTime] == s1.responseTimes + (s2.responseTimes + [sample.responseTime]);
  }

  /** Once a prefix of the file fails to parse, the rest of the file cannot change the outcome. */
  lemma PrefixFailureIsFinal(lines: seq<string>, n: nat, isWindows: bool)
    requires n <= |lines|
    requires ReadPingResults(lines[..n], isWindows).Failure?
    ensures ReadPingResults(lines, isWindows) == ReadPingResults(lines[..n], isWindows)
  {
    assert lines == lines[..n] + lines[n..];
    ReadPingResultsAppend(lines[..n], lines[n..], isWindows);
  }

  /** Lines without "from" are skipped without error and add nothing: parsing only the kept lines is the same. */
  lemma {:induction false} SkippedLinesAddNothing(lines: seq<string>, isWindows: bool)
    ensures ReadPingResults(lines, isWindows) == ReadPingResults(Accepted(lines), isWindows)
    decreases |lines|
  {
    if |lines| > 0 {
      var prefix := lines[..|lines| - 1];
      var line := lines[|lines| - 1];
      SkippedLinesAddNothing(prefix, isWindows);
      if Contains(line, AcceptMarker) {
        var acc := Accepted(prefix) + [line];
        assert acc[..|acc| - 1] == Accepted(prefix);
      }
    }
  }

  /**
   * On success, entry k of both lists comes from the k-th line containing
   * "from": the timestamp and response time `ExtractLine` cuts out of it.
   */
  lemma {:induction false} ReadPingResultsSamples(lines: seq<string>, isWindows: bool)
    requires ReadPingResults(lines, isWindows).Success?
    ensures var series := ReadPingResults(lines, isWindows).value;
      forall k :: 0 <= k < |Accepted(lines)| ==>
        ExtractLine(Accepted(lines)[k], isWindows) == Success(Sample(series.stamps[k], series.responseTimes[k]))
    decreases |lines|
  {
    if |lines| > 0 {
      var prefix := lines[..|lines| - 1];
      ReadPingResultsSamples(prefix, isWindows);
    }
  }

  /** Every line of `acc` holds all the markers `ExtractLine` looks up. */
  predicate AllExtract(acc: seq<string>, isWindows: bool) {
    forall k :: 0 <= k < |acc| ==> ExtractLine(acc[k], isWindows).Success?
  }

  lemma AllExtractAppend(acc: seq<string>, line: string, isWindows: bool)
    ensures AllExtract(acc + [line], isWindows) <==> AllExtract(acc, isWindows) && ExtractLine(line, isWindows).Success?
  {
    assert (acc + [line])[|acc|] == line;
    assert forall k :: 0 <= k < |acc| ==> (acc + [line])[k] == acc[k];
  }

  /** The parse succeeds exactly when every line containing "from" holds all the markers it looks up. */
  lemma {:induction false} ReadPingResultsSucceeds(lines: seq<string>, isWindows: bool)
    ensures ReadPingResults(lines, isWindows).Success? <==> AllExtract(Accepted(lines), isWindows)
    decreases |lines|
  {
    if |lines| > 0 {
      var prefix := lines[..|lines| - 1];
      var line := lines[|lines| - 1];
      ReadPingResultsSucceeds(prefix, isWindows);
      if Contains(line, AcceptMarker) {
        AllExtractAppend(Accepted(prefix), line, isWindows);
      }
    }
  }

  /** A failed parse reports the error of the first line containing "from" that lacks a marker. */
  lemma {:induction false} ReadPingResultsFailure(lines: seq<string>, isWindows: bool)
    requires ReadPingResults(lines, isWindows).Failure?
    ensures exists k :: FirstFailing(Accepted(lines), k, isWindows, ReadPingResults(lines, isWindows).error)
    decreases |lines|
  {
    var prefix := lines[..|lines| - 1];
    var line := lines[|lines| - 1];
    var acc := Accepted(prefix);
    var accAll := Accepted(lines);
    var e := ReadPingResults(lines, isWindows).error;
    assert ReadPingResults(lines, isWindows) == Step(ReadPingResults(prefix, isWindows), line, isWindows);
    assert accAll == if Contains(line, AcceptMarker) then acc + [line] else acc;
    if ReadPingResults(prefix, isWindows).Failure? {
      ReadPingResultsFailure(prefix, isWindows);
      var k :| FirstFailing(acc, k, isWindows, e);
      assert accAll[..|acc|] == acc;
      FirstFailingExtend(acc, accAll, k, isWindows, e);
    } else {
      ReadPingResultsSucceeds(prefix, isWindows);
      assert Contains(line, AcceptMarker);
      assert accAll == acc + [line];
      assert ExtractLine(line, isWindows) == Failure(e);
      assert FirstFailing(accAll, |acc|, isWindows, e);
    }
  }

  /** Line `k` of `acc` is the first whose extraction fails, and it fails with `e`. */
  predicate FirstFailing(acc: seq<string>, k: int, isWindows: bool, e: ParseError) {
    && 0 <= k < |acc|
    && ExtractLine(acc[k], isWindows) == Failure(e)
    && forall j :: 0 <= j < k ==> ExtractLine(acc[j], isWindows).Success?
  }

  lemma FirstFailingExtend(acc: seq<string>, more: seq<string>, k: int, isWindows: bool, e: ParseError)
    requires FirstFailing(acc, k, isWindows, e)
    requires |acc| <= |more| && more[..|acc|] == acc
    ensures FirstFailing(more, k, isWindows, e)
  {
    assert forall j :: 0 <= j < |acc| ==> more[j] == acc[j];
  }

  /** How `generate_text_chart` draws the samples. */
  datatype ChartStyle = ConnectedLine | Scatter

  /** Below this many samples the points are joined into a line. */
  const ScatterLimit := 40

  /**
   * The plotting choice of `generate_text_chart`: it first reads the results
   * (a failed read raises before anything is drawn), then joins the points
   * into a line when there are fewer than `ScatterLimit` timestamps.
   */
  function TextChartStyle(lines: seq<string>, isWindows: bool): (r: Result<ChartStyle, ParseError>)
    ensures r.Failure? <==> ReadPingResults(lines, isWindows).Failure?
    ensures r.Failure? ==> r.error == ReadPingResults(lines, isWindows).error
    ensures r.Success? ==> (r.value == ConnectedLine <==> |Accepted(lines)| < ScatterLimit)
    ensures r.Success? ==> (r.value == Scatter <==> |Accepted(lines)| >= ScatterLimit)
  {
    match ReadPingResults(lines, isWindows)
    case Failure(e) => Failure(e)
    case Success(series) =>
      Success(if |series.stamps| < ScatterLimit then ConnectedLine else Scatter)
  }

  /** The `ping` option giving the number of probes: "-n" on Windows, "-c" elsewhere. */
  function CountOption(isWindows: bool): string {
    if isWindows then "-n" else "-c"
  }

  /** The shell loop that prefixes every line `ping` prints with the `date` stamp and appends it to the file. */
  const EchoLoop := " | while read pong;" + " do echo" + " \"$(date +%Y-%m-%d:%H:%M:%S): $pong\"" + " >> "
  const LoopEnd := " ; done"

  /**
   * The command `start_ping_test` hands to the shell: ping, the count option,
   * the duration as `%s` renders an int, the target, then the loop that
   * timestamps every reply line into `resultFile`.
   */
  function StartPingCommand(isWindows: bool, duration: int, target: string, resultFile: string): (r: string)
    ensures var d := Str(duration);
      && |r| == 8 + |d| + 1 + |target| + |EchoLoop| + |resultFile| + |LoopEnd|
      && r[..5] == "ping "
      && (r[5..7] == "-n" <==> isWindows)
      && (r[5..7] == "-c" <==> !isWindows)
      && r[7] == ' '
      && ParseInt(r[8..8 + |d|]) == Some(duration)
      && r[8 + |d|] == ' '
      && r[9 + |d|..9 + |d| + |target|] == target
      && r[9 + |d| + |target|..9 + |d| + |target| + |EchoLoop|] == EchoLoop
      && r[|r| - |LoopEnd| - |resultFile|..|r| - |LoopEnd|] == resultFile
      && r[|r| - |LoopEnd|..] == LoopEnd
  {
    assert "-n"[1] != "-c"[1];
    CommandParts(CountOption(isWindows), Str(duration), target, EchoLoop, resultFile, LoopEnd);
    "ping " + CountOption(isWindows) + " " + Str(duration) + " " + target + EchoLoop + (resultFile + LoopEnd)
  }

  /** Where each piece of a command `"ping " + option + " " + d + " " + target + loop + (file + end)` sits. */
  lemma CommandParts(option: string, d: string, target: string, loop: string, file: string, end: string)
    requires |option| == 2
    ensures var r := "ping " + option + " " + d + " " + target + loop + (file + end);
      && |r| == 8 + |d| + 1 + |target| + |loop| + |file| + |end|
      && r[..5] == "ping "
      && r[5..7] == option
      && r[7] == ' '
      && r[8..8 + |d|] == d
      && r[8 + |d|] == ' '
      && r[9 + |d|..9 + |d| + |target|] == target
      && r[9 + |d| + |target|..9 + |d| + |target| + |loop|] == loop
      && r[|r| - |end| - |file|..|r| - |end|] == file
      && r[|r| - |end|..] == end
  {
    var head := "ping " + option + " ";
    var args := head + d + " " + target;
    var r := args + loop + (file + end);
    assert r[..|args|] == args;
    assert args[..8] == head;
    assert head[..5] == "ping " && head[5..7] == option;
    assert r[8..8 + |d|] == args[8..8 + |d|] == d;
    assert args[9 + |d|..] == target;
    assert r[|args|..|args| + |loop|] == loop;
    assert r[|args| + |loop|..] == file + end;
  }

  /** Width of `datetime.now().strftime("%Y%m%d_%H%M%S")`. */
  const FileStampLength := 15

  /** The result file name `"result-%s-to-%s-%s.txt" % (name, target, stamp)`. */
  function ResultFileName(name: string, target: string, stamp: string): (r: string)
    ensures |r| == |name| + |target| + |stamp| + 16
    ensures r[..7] == "result-" && r[|r| - 4..] == ".txt"
    ensures r[7..7 + |name|] == name
    ensures r[7 + |name|..11 + |name|] == "-to-"
    ensures r[11 + |name|..11 + |name| + |target|] == target
    ensures r[|r| - 5 - |stamp|..|r| - 4] == "-" + stamp
  {
    "result-" + name + "-to-" + target + "-" + stamp + ".txt"
  }

  /**
   * Reads a result file name back into (name, target, stamp), taking the stamp
   * as the fixed-width text before ".txt" and the name as what precedes the
   * first "-to-".
   */
  function ParseResultFileName(f: string): Option<(string, string, string)> {
    if |f| < 7 + 4 + 1 + FileStampLength + 4 || f[..7] != "result-" || f[|f| - 4..] != ".txt"
       || f[|f| - 5 - FileStampLength] != '-'
    then None
    else
      var middle := f[7..|f| - 5 - FileStampLength];
      match IndexOf(middle, "-to-")
      case None => None
      case Some(i) => Some((middle[..i], middle[i + 4..], f[|f| - 4 - FileStampLength..|f| - 4]))
  }

  /**
   * The name, target and stamp can be read back from the file name when the
   * stamp has the `strftime` width and the first "-to-" after the name is the
   * separator itself.
   */
  lemma ResultFileNameRoundTrip(name: string, target: string, stamp: string)
    requires |stamp| == FileStampLength
    requires IndexOf(name + "-to-", "-to-") == Some(|name|)
    ensures ParseResultFileName(ResultFileName(name, target, stamp)) == Some((name, target, stamp))
  {
    var f := ResultFileName(name, target, stamp);
    var middle := f[7..|f| - 5 - FileStampLength];
    assert middle == (name + "-to-") + target;
    IndexOfExtend(name + "-to-", target, "-to-");
    assert middle[..|name|] == name;
    assert middle[|name| + 4..] == target;
  }
}
