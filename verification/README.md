# Ping result parsing, modelled in Dafny

The network test tool runs the operating system's `ping` for a fixed number of
probes. A shell loop prefixes every line `ping` prints with a `date` stamp and
appends it to a result file. Afterwards the tool reads the file back and charts
the response times. Two scripts do this: `ping_chart.py` draws a terminal chart
and `network_test.py` draws a matplotlib chart. Each keeps its own copy of the
parsing loop, the ping command and the result file name.

This project models those pieces as pure functions over strings:

- `PyStr` gives the Python string semantics the scripts rely on: `sub in s`,
  `s.index(sub)` (a miss is `None`), slicing with negative and clamped bounds,
  and `str()` of an int.
- `PingChart` covers `ping_chart.py`. It has the per-line cut of the timestamp
  text and the response-time text, the loop over the result file, the choice
  between a line and a scatter chart, the shell command, and the result file
  name. The scripts never read a file name back; `ParseResultFileName` exists
  only as the inverse that the file-name round trip is stated against.
- `NetworkTest` covers `network_test.py`. Its parsing loop is an imperative
  method proved equal to the `PingChart` parser. Its command and file name are
  proved identical to the `PingChart` ones.
- `ReplyLines` builds the lines the shell loop writes for Linux/macOS and
  Windows reply formats. It proves what the parser reads back from them.

The platform test `platform.system().lower() == "windows"` becomes the
parameter `isWindows`. The result file is the sequence of lines Python iterates
over, each still ending in its newline. `strptime`, `int()` and `float()` are
not modelled, so a parse yields the raw text pairs they would be applied to.

## Model

| member | source | states |
|---|---|---|
| PyStr.IndexOf | ping_chart.py:101 | `str.index`: the result is the lowest position where the substring occurs, and it is absent exactly when `in` is false |
| PyStr.Slice | ping_chart.py:105 | Python slicing: in-range bounds give the plain subsequence, a non-negative end at or before the start gives "", and from the start of the text a negative end counts from the end while an end below minus the length gives "" |
| PyStr.Str | ping_chart.py:66-70 | `%s` of the duration: a leading '-' exactly for negative numbers, no leading zero (a '0' first only for the text "0", never right after the '-'), and reading the text back as an int gives the number |
| PingChart.StampText | ping_chart.py:94-106 | the timestamp text is a prefix of the line; it fails exactly when the marker (": Reply" on Windows, "from" elsewhere) is absent; its length is the marker position minus the offset (10 or 11), or, when that is negative, counted back from the end of the line |
| PingChart.ResponseTimeText | ping_chart.py:100-109 | fails exactly when "time" or "ms" is absent, naming "time" first; otherwise the text between 5 characters past the first "time" and the first "ms", or "" when that "ms" comes earlier |
| PingChart.ExtractLine | ping_chart.py:94-109 | one line succeeds exactly when all three substrings are present; a failure names a missing substring, and the timestamp substring is looked up first; a success holds the stamp text and the response-time text |
| PingChart.Accepted | ping_chart.py:92-93 | the kept lines are exactly the lines containing "from" |
| PingChart.ReadPingResults | ping_chart.py:84-113 | on success the timestamp list and the response-time list have equal length, one entry per line containing "from" |
| PingChart.Step | ping_chart.py:92-109 | one loop pass only appends: earlier entries of both lists are kept unchanged, a line without "from" adds nothing, a line with "from" adds one entry to each list, which is the pair extracted from that line; an earlier error stays, and a new error is the one that line's extraction reports |
| PingChart.AcceptedAppend | ping_chart.py:92-93 | filtering two pieces of a file and joining them gives the filter of the whole file |
| PingChart.ReadPingResultsAppend | ping_chart.py:92-109 | parsing a file in two pieces equals parsing it whole: samples stay in file order and the earliest failure wins |
| PingChart.PrefixFailureIsFinal | ping_chart.py:92-109 | once a prefix of the file fails, the whole file fails with the same error |
| PingChart.SkippedLinesAddNothing | ping_chart.py:92-93 | lines without "from" are skipped without error: parsing only the kept lines gives the same result |
| PingChart.ReadPingResultsSamples | ping_chart.py:86-109 | on success, entry k of both lists is the pair cut from the k-th line containing "from" |
| PingChart.ReadPingResultsSucceeds | ping_chart.py:92-109 | the parse succeeds exactly when every line containing "from" holds all the substrings it looks up |
| PingChart.ReadPingResultsFailure | ping_chart.py:92-109 | a failed parse reports the error of the first kept line that lacks a substring |
| PingChart.TextChartStyle | ping_chart.py:117-129 | a failed read produces no chart; otherwise the points are joined as a line exactly when fewer than 40 lines were kept, and drawn as a scatter exactly when 40 or more were |
| PingChart.StartPingCommand | ping_chart.py:61-72 | the command is "ping ", then "-n" exactly on Windows and "-c" otherwise, then the duration (which reads back as the number), the target, the timestamping echo loop, the result file and " ; done" |
| PingChart.ResultFileName | ping_chart.py:148-153 | the name is "result-", the host name, "-to-", the target, "-", the stamp and ".txt", each at its stated position |
| PingChart.ResultFileNameRoundTrip | ping_chart.py:148-153 | with a 15-character stamp and no earlier "-to-" than the separator, the name, target and stamp read back from the file name |
| NetworkTest.GenerateChartSamples | network_test.py:99-108 | the loop of `generate_chart` gives the same text pairs, or the same failure, as `read_ping_results` for every file and platform |
| NetworkTest.LineSample | network_test.py:101-108 | the loop body for one line, written as the sequence of `str.index` calls and slices there, gives exactly the pair or the error that `read_ping_results` gives for that line |
| NetworkTest.StartPingCommand | network_test.py:53-60 | the command equals the one `ping_chart.py` builds for the same platform, duration, target and file |
| NetworkTest.ResultFileName | network_test.py:149 | the result file name equals the one `ping_chart.py` builds |
| ReplyLines.StampRoundTrip | ping_chart.py:105 | for a line written as a 19-character stamp without "from", ": ", and a ping line with 9 characters before its first "from", the non-Windows timestamp text is the stamp |
| ReplyLines.LinuxReplyRoundTrip | ping_chart.py:103-109 | a Linux/macOS reply line with a numeric address reads back as its stamp and its response time followed by one space |
| ReplyLines.WindowsReplyAsWritten | ping_chart.py:94-102 | a Windows reply line reads back as the first 9 characters of its stamp, which no longer have the stamp format, plus its response time |
| ReplyLines.IntendedStampText | ping_chart.py:97 | the corrected Windows cut: the text before the first ": Reply"; the non-Windows cut is unchanged |
| ReplyLines.IntendedExtractLine | ping_chart.py:94-109 | the line extraction with the corrected cut; unchanged off Windows, it succeeds exactly when all three substrings are present, and a success holds the corrected timestamp text and the response-time text of the line |
| ReplyLines.WindowsReplyIntended | ping_chart.py:94-102 | with the corrected cut a Windows reply line reads back as its whole stamp and its response time |

## Findings

| source | as written | input that shows it | evidently intended | confidence | as-written member | corrected member |
|---|---|---|---|---|---|---|
| ping_chart.py:97 | on Windows the timestamp text ends 10 characters before the first ": Reply"; network_test.py:103 does the same | the line "2023-10-26:22:29:22: Reply from 8.8.8.8: bytes=32 time=14ms TTL=117" gives the stamp text "2023-10-2", which the timestamp format rejects | the stamp ends where ": Reply" begins, so the whole 19-character stamp is kept | medium; not executed | ReplyLines.WindowsReplyAsWritten | ReplyLines.WindowsReplyIntended |

The parser model (`PingChart.ExtractLine` and all that builds on it) keeps the
offset as written, because that is what both scripts do. The corrected cut
lives in `ReplyLines.IntendedStampText` and `ReplyLines.IntendedExtractLine`.
These agree with the as-written parser everywhere off Windows.

## Left out

- Argument parsing (`set_args`): library configuration with no logic of its own.
- Running the command (`subprocess.call`) and the shell loop's runtime behaviour: process I/O. Only the command text is modelled.
- `run_ping_test` and `display_progress_bar`: concurrency (`asyncio.gather`, `asyncio.to_thread`) and wall-clock sleeping with a progress bar.
- `datetime.strptime`, `int()`, `float()` and `datetime.now().strftime`: library parsing and formatting. The parser returns the raw texts. Conversion failures, which also abort the parse in the scripts, are not modelled. The current time is the `stamp` parameter of the file name.
- Opening, seeking and closing the result file: the file is given as its sequence of lines.
- Plotting with `plotext` and `matplotlib`: titles, axis labels, date formats and the y-axis floor at zero. Only the line-versus-scatter choice of `generate_text_chart` is modelled. `generate_chart` in network_test.py always draws a line, so it has no choice to model.
- The `print` messages of both `__main__` blocks: console output.
