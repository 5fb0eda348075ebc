/**
 * network_test.py: its own copy of the parsing loop (inside `generate_chart`),
 * of the ping command and of the result file name, each shown to agree with
 * the ping_chart.py model.
 */
module NetworkTest {
  import opened Wrappers
  import opened PyStr
  import PingChart

  /**
   * The loop of `generate_chart` over the result file: every line containing
   * "from" has its timestamp text and response-time text appended. A missing
   * substring raises, which ends the loop with that error.
   */
  method GenerateChartSamples(lines: seq<string>, isWindows: bool)
    returns (r: Result<PingChart.PingSeries, PingChart.ParseError>)
    ensures r == PingChart.ReadPingResults(lines, isWindows)
  {
    var stamps: seq<string> := [];
    var responseTimes: seq<string> := [];
    var i := 0;
    while i < |lines|
      invariant 0 <= i <= |lines|
      invariant PingChart.ReadPingResults(lines[..i], isWindows) == Success(PingChart.PingSeries(stamps, responseTimes))
    {
      var line := lines[i];
      StepUnfold(lines, i, isWindows);
      if Contains(line, "from") {
        var sample := LineSample(line, isWindows);
        if sample.Failure? {
          PingChart.PrefixFailureIsFinal(lines, i + 1, isWindows);
          return Failure(sample.error);
        }
        stamps := stamps + [sample.value.stamp];
        responseTimes := responseTimes + [sample.value.responseTime];
      }
      i := i + 1;
    }
    assert lines[..i] == lines;
    r := Success(PingChart.PingSeries(stamps, responseTimes));
  }

  /**
   * The body of that loop for one line, as written there: one `str.index`
   * after another, the timestamp text cut before the response-time text is
   * looked up. It agrees with `PingChart.ExtractLine` on every line.
   */
  method LineSample(line: string, isWindows: bool) returns (r: Result<PingChart.Sample, PingChart.ParseError>)
    ensures r == PingChart.ExtractLine(line, isWindows)
  {
    var stampEnd: int;
    if isWindows {
      var reply := IndexOf(line, ": Reply");
      if reply.None? {
        return Failure(PingChart.SubstringNotFound(": Reply"));
      }
      stampEnd := reply.value as int - 10;
    } else {
      var from := IndexOf(line, "from");
      if from.None? {
        return Failure(PingChart.SubstringNotFound("from"));
      }
      stampEnd := from.value as int - 11;
    }
    var stamp := Slice(line, 0, stampEnd);
    var time := IndexOf(line, "time");
    if time.None? {
      return Failure(PingChart.SubstringNotFound("time"));
    }
    var ms := IndexOf(line, "ms");
    if ms.None? {
      return Failure(PingChart.SubstringNotFound("ms"));
    }
    r := Success(PingChart.Sample(stamp, Slice(line, time.value + 5, ms.value)));
  }

  /** Parsing one more line of the file is one more loop step. */
  lemma StepUnfold(lines: seq<string>, i: nat, isWindows: bool)
    requires i < |lines|
    ensures PingChart.ReadPingResults(lines[..i + 1], isWindows)
         == PingChart.Step(PingChart.ReadPingResults(lines[..i], isWindows), lines[i], isWindows)
  {
    assert lines[..i + 1][..i] == lines[..i];
  }

  /** `start_ping_test` of network_test.py, assembled in the same three steps as there. */
  function StartPingCommand(isWindows: bool, duration: int, target: string, resultFile: string): (r: string)
    ensures r == PingChart.StartPingCommand(isWindows, duration, target, resultFile)
  {
    var pingCmdParam := if isWindows then "-n" else "-c";
    var pingLoopCmd := "ping " + pingCmdParam + " " + Str(duration) + " " + target + " | while read pong;";
    var pingLoopCmd' := pingLoopCmd + " do echo" + " \"$(date +%Y-%m-%d:%H:%M:%S): $pong\"";
    Regroup(isWindows, Str(duration), target, resultFile);
    pingLoopCmd' + " >> " + resultFile + " ; done"
  }

  /** The three-step assembly and the one of ping_chart.py differ only in grouping. */
  lemma Regroup(isWindows: bool, d: string, target: string, resultFile: string)
    ensures "ping " + (if isWindows then "-n" else "-c") + " " + d + " " + target + " | while read pong;"
              + " do echo" + " \"$(date +%Y-%m-%d:%H:%M:%S): $pong\"" + " >> " + resultFile + " ; done"
            == "ping " + PingChart.CountOption(isWindows) + " " + d + " " + target + PingChart.EchoLoop
              + (resultFile + PingChart.LoopEnd)
  {
    Associate("ping " + PingChart.CountOption(isWindows) + " " + d + " " + target,
      " | while read pong;", " do echo", " \"$(date +%Y-%m-%d:%H:%M:%S): $pong\"", " >> ", resultFile, " ; done");
  }

  lemma Associate<T>(a: seq<T>, b: seq<T>, c: seq<T>, d: seq<T>, e: seq<T>, f: seq<T>, g: seq<T>)
    ensures a + b + c + d + e + f + g == a + (b + c + d + e) + (f + g)
  {
  }

  /** The result file name built in the `__main__` block of network_test.py. */
  function ResultFileName(name: string, target: string, stamp: string): (r: string)
    ensures r == PingChart.ResultFileName(name, target, stamp)
  {
    "result-" + name + "-to-" + target + "-" + stamp + ".txt"
  }
}
