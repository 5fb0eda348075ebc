/**
 * The lines the ping loop writes: the `date` stamp, ": ", the line `ping`
 * printed, and the newline `echo` adds. For the reply formats of Linux/macOS
 * and Windows `ping`, this module shows what the parser of ping_chart.py
 * reads back from them.
 */
module ReplyLines {
  import opened Wrappers
  import opened PyStr
  import opened PingChart

  /** The text `date +%Y-%m-%d:%H:%M:%S` prints, e.g. "2023-10-26:22:29:22". */
  predicate IsStampText(ts: string) {
    && |ts| == 19
    && forall i :: 0 <= i < |ts| ==>
         if i == 4 || i == 7 then ts[i] == '-'
         else if i == 10 || i == 13 || i == 16 then ts[i] == ':'
         else IsDigit(ts[i])
  }

  /** Digits and dots: a numeric address, a counter, or a decimal number. */
  predicate IsNumericText(s: string) {
    forall i :: 0 <= i < |s| ==> IsDigit(s[i]) || s[i] == '.'
  }

  /** The line `echo "$(date +%Y-%m-%d:%H:%M:%S): $pong"` appends to the result file. */
  function EchoLine(stamp: string, pong: string): string {
    stamp + ": " + pong + "\n"
  }

  /** What Linux/macOS `ping` prints before "time=" in a reply. */
  function LinuxPrefix(host: string, seqNo: string, ttl: string): string {
    "64 bytes from " + host + ": icmp_seq=" + seqNo + " ttl=" + ttl + " "
  }

  /** A reply line of Linux/macOS `ping`: "64 bytes from 8.8.8.8: icmp_seq=1 ttl=117 time=10.2 ms". */
  function LinuxReply(host: string, seqNo: string, ttl: string, ms: string): string {
    LinuxPrefix(host, seqNo, ttl) + "time=" + ms + " ms"
  }

  /** What Windows `ping` prints before "time" in a reply. */
  function WindowsPrefix(host: string, size: string): string {
    "Reply from " + host + ": bytes=" + size + " "
  }

  /**
   * A reply line of Windows `ping`: "Reply from 8.8.8.8: bytes=32 time=14ms TTL=117",
   * where `rel` is '=' or, below one millisecond, '<'.
   */
  function WindowsReply(host: string, size: string, rel: char, ms: string, ttl: string): string {
    WindowsPrefix(host, size) + ("time" + [rel]) + ms + ("ms TTL=" + ttl)
  }

  /**
   * On the non-Windows path the stamp comes back unchanged when it is 19
   * characters without "from" and the ping line shows 9 characters before its
   * first "from" (as "64 bytes " does).
   */
  lemma StampRoundTrip(ts: string, pong: string)
    requires |ts| == 19
    requires !Contains(ts, "from")
    requires IndexOf(pong, "from") == Some(9)
    ensures StampText(EchoLine(ts, pong), false) == Success(ts)
  {
    var line := EchoLine(ts, pong);
    assert line == ts + ": " + (pong + "\n");
    IndexOfExtend(pong, "\n", "from");
    var rest := pong + "\n";
    assert line[30..34] == rest[9..13];
    forall j | 0 <= j < 30
      ensures !OccursAt(line, "from", j)
    {
      if j <= 15 {
        assert line[j..j + 4] == ts[j..j + 4];
        assert !OccursAt(ts, "from", j);
      } else if j <= 19 {
        assert line[19] == ':' && line[j..j + 4][19 - j] == line[19];
      } else if j == 20 {
        assert line[20] == ' ' && line[j..j + 4][0] == line[20];
      } else {
        assert line[j..j + 4] == rest[j - 21..j - 21 + 4];
        assert !OccursAt(rest, "from", j - 21);
      }
    }
    FirstOccurrence(line, "from", 30);
    assert Slice(line, 0, 30 - 11) == line[..19] == ts;
  }

  /** A pair that starts with a lower-case letter cannot occur in a stamp. */
  lemma StampNoPair(ts: string, x: char, y: char)
    requires IsStampText(ts)
    requires 'a' <= x <= 'z'
    ensures NoPair(ts, x, y)
  {
    forall i | 0 <= i < |ts| - 1
      ensures ts[i] != x
    {
      assert ts[i] == '-' || ts[i] == ':' || IsDigit(ts[i]);
    }
  }

  /** A pair that starts with a letter cannot occur in numeric text. */
  lemma NumericNoPair(s: string, x: char, y: char)
    requires IsNumericText(s)
    requires 'a' <= x <= 'z'
    ensures NoPair(s, x, y)
  {
    forall i | 0 <= i < |s| - 1
      ensures s[i] != x
    {
      assert IsDigit(s[i]) || s[i] == '.';
    }
  }

  /** A stamp never shows a colon followed by a space. */
  lemma StampNoColonSpace(ts: string)
    requires IsStampText(ts)
    ensures NoPair(ts, ':', ' ')
  {
    forall i | 0 <= i < |ts|
      ensures ts[i] != ' '
    {
      assert ts[i] == '-' || ts[i] == ':' || IsDigit(ts[i]);
    }
  }

  /** No stamp contains "from". */
  lemma StampHasNoFrom(ts: string)
    requires IsStampText(ts)
    ensures !Contains(ts, "from")
  {
    forall j | 0 <= j <= |ts| - 4
      ensures !OccursAt(ts, "from", j)
    {
      assert ts[j] == '-' || ts[j] == ':' || IsDigit(ts[j]);
      assert ts[j..j + 4][0] == ts[j];
    }
  }

  /**
   * The three ways the proofs cut a line `ts + ": " + (prefix + lead + mid + tail) + "\n"`:
   * after the stamp, before `lead`, and after `mid`.
   */
  lemma LineShape(ts: string, prefix: string, lead: string, mid: string, tail: string)
    ensures EchoLine(ts, prefix + lead + mid + tail) == ts + (": " + (prefix + lead + mid + tail) + "\n")
    ensures EchoLine(ts, prefix + lead + mid + tail) == (ts + ": " + prefix) + (lead + mid + (tail + "\n"))
    ensures EchoLine(ts, prefix + lead + mid + tail) == (ts + ": " + prefix + lead + mid) + (tail + "\n")
  {
  }

  /**
   * In a line `head + (lead + mid + back)` where "time" starts `lead` (five
   * characters) and cannot start earlier, and "ms" first shows `gap` characters
   * into `back` and nowhere before, the response time is `mid` plus those
   * `gap` characters.
   */
  lemma ResponseTimeOfShape(line: string, head: string, lead: string, mid: string, back: string, gap: nat)
    requires line == head + (lead + mid + back)
    requires |lead| == TimeSkip && lead[..4] == TimeMarker
    requires NoPair(head, 't', 'i')
    requires NoPair(head + lead + mid, 'm', 's')
    requires (head + lead + mid)[|head + lead + mid| - 1] != 'm'
    requires IndexOf(back, MsMarker) == Some(gap)
    ensures ResponseTimeText(line) == Success(mid + back[..gap])
  {
    assert IndexOf(line, TimeMarker) == Some(|head|) by {
      assert (lead + mid + back)[..4] == lead[..4];
      StartsWith(lead + mid + back, TimeMarker);
      IndexOfAfter(head, lead + mid + back, TimeMarker);
    }
    assert IndexOf(line, MsMarker) == Some(|head| + |lead| + |mid| + gap) by {
      assert line == (head + lead + mid) + back;
      IndexOfAfter(head + lead + mid, back, MsMarker);
    }
    ResponseTimeAt(line, |head|, |head| + |lead| + |mid| + gap);
    CutBetween(head, lead, mid, back, gap);
  }

  /** A text that begins with `sub` has its first occurrence at 0. */
  lemma StartsWith(s: string, sub: string)
    requires |sub| <= |s| && s[..|sub|] == sub
    ensures IndexOf(s, sub) == Some(0)
  {
    FirstOccurrence(s, sub, 0);
  }

  /** Cutting `mid` and the next `gap` characters out of `head + (lead + mid + tail)` by position. */
  lemma CutBetween(head: string, lead: string, mid: string, tail: string, gap: nat)
    requires gap <= |tail|
    ensures Slice(head + (lead + mid + tail), |head| + |lead|, |head| + |lead| + |mid| + gap) == mid + tail[..gap]
  {
    var s := head + (lead + mid + tail);
    assert s[|head| + |lead|..|head| + |lead| + |mid| + gap] == mid + tail[..gap];
  }

  /** The response-time text once both substrings are located. */
  lemma ResponseTimeAt(line: string, t: nat, m: nat)
    requires IndexOf(line, TimeMarker) == Some(t)
    requires IndexOf(line, MsMarker) == Some(m)
    ensures ResponseTimeText(line) == Success(Slice(line, t + TimeSkip, m))
  {
  }

  /** A line whose two texts are both found is extracted as the pair of them. */
  lemma ExtractLineParts(line: string, isWindows: bool, stamp: string, responseTime: string)
    requires StampText(line, isWindows) == Success(stamp)
    requires ResponseTimeText(line) == Success(responseTime)
    ensures ExtractLine(line, isWindows) == Success(Sample(stamp, responseTime))
  {
  }

  /** Neither "ti" nor "ms" occurs in a stamp followed by ": " and the Linux text before "time=". */
  lemma LinuxHeadNoPair(ts: string, host: string, seqNo: string, ttl: string, x: char, y: char)
    requires IsStampText(ts) && IsNumericText(host) && IsNumericText(seqNo) && IsNumericText(ttl)
    requires 'a' <= x <= 'z'
    requires NoPair(": ", x, y) && NoPair("64 bytes from ", x, y) && NoPair(": icmp_seq=", x, y) && NoPair(" ttl=", x, y)
    ensures NoPair(ts + ": " + LinuxPrefix(host, seqNo, ttl), x, y)
  {
    StampNoPair(ts, x, y);
    NumericNoPair(host, x, y);
    NumericNoPair(seqNo, x, y);
    NumericNoPair(ttl, x, y);
    var p1 := "64 bytes from " + host;
    NoPairConcat("64 bytes from ", host, x, y);
    var p2 := p1 + ": icmp_seq=";
    NoPairConcat(p1, ": icmp_seq=", x, y);
    var p3 := p2 + seqNo;
    NoPairConcat(p2, seqNo, x, y);
    var p4 := p3 + " ttl=";
    NoPairConcat(p3, " ttl=", x, y);
    var p5 := p4 + ttl;
    NoPairConcat(p4, ttl, x, y);
    NoPairConcat(p5, " ", x, y);
    NoPairConcat(ts, ": ", x, y);
    NoPairConcat(ts + ": ", LinuxPrefix(host, seqNo, ttl), x, y);
  }

  /** Neither "ti" nor "ms" occurs in a stamp followed by ": " and the Windows text before "time". */
  lemma WindowsHeadNoPair(ts: string, host: string, size: string, x: char, y: char)
    requires IsStampText(ts) && IsNumericText(host) && IsNumericText(size)
    requires 'a' <= x <= 'z'
    requires NoPair(": ", x, y) && NoPair("Reply from ", x, y) && NoPair(": bytes=", x, y)
    ensures NoPair(ts + ": " + WindowsPrefix(host, size), x, y)
  {
    StampNoPair(ts, x, y);
    NumericNoPair(host, x, y);
    NumericNoPair(size, x, y);
    var p1 := "Reply from " + host;
    NoPairConcat("Reply from ", host, x, y);
    var p2 := p1 + ": bytes=";
    NoPairConcat(p1, ": bytes=", x, y);
    var p3 := p2 + size;
    NoPairConcat(p2, size, x, y);
    NoPairConcat(p3, " ", x, y);
    NoPairConcat(ts, ": ", x, y);
    NoPairConcat(ts + ": ", WindowsPrefix(host, size), x, y);
  }

  /** A Linux reply shows its first "from" after the 9 characters "64 bytes ". */
  lemma LinuxReplyFrom(host: string, seqNo: string, ttl: string, ms: string)
    ensures IndexOf(LinuxReply(host, seqNo, ttl, ms), "from") == Some(9)
  {
    var lit := "64 bytes from ";
    assert OccursAt(lit, "from", 9);
    forall j | 0 <= j < 9
      ensures !OccursAt(lit, "from", j)
    {
      assert lit[j..j + 4][0] == lit[j];
    }
    FirstOccurrence(lit, "from", 9);
    IndexOfExtend(lit, host, "from");
    IndexOfExtend(lit + host, ": icmp_seq=", "from");
    IndexOfExtend(lit + host + ": icmp_seq=", seqNo, "from");
    IndexOfExtend(lit + host + ": icmp_seq=" + seqNo, " ttl=", "from");
    IndexOfExtend(lit + host + ": icmp_seq=" + seqNo + " ttl=", ttl, "from");
    IndexOfExtend(lit + host + ": icmp_seq=" + seqNo + " ttl=" + ttl, " ", "from");
    var pre := LinuxPrefix(host, seqNo, ttl);
    IndexOfExtend(pre, "time=", "from");
    IndexOfExtend(pre + "time=", ms, "from");
    IndexOfExtend(pre + "time=" + ms, " ms", "from");
  }

  /**
   * A Linux/macOS reply line is read back as its stamp and its response time;
   * the response-time text keeps the space `ping` prints before "ms", which
   * `float()` ignores.
   */
  lemma LinuxReplyRoundTrip(ts: string, host: string, seqNo: string, ttl: string, ms: string)
    requires IsStampText(ts) && IsNumericText(host) && IsNumericText(seqNo) && IsNumericText(ttl)
    requires IsNumericText(ms)
    ensures ExtractLine(EchoLine(ts, LinuxReply(host, seqNo, ttl, ms)), false) == Success(Sample(ts, ms + " "))
  {
    var line := EchoLine(ts, LinuxReply(host, seqNo, ttl, ms));
    assert StampText(line, false) == Success(ts) by {
      StampHasNoFrom(ts);
      LinuxReplyFrom(host, seqNo, ttl, ms);
      StampRoundTrip(ts, LinuxReply(host, seqNo, ttl, ms));
    }
    assert ResponseTimeText(line) == Success(ms + " ") by {
      LinuxResponseTime(ts, host, seqNo, ttl, ms);
    }
    ExtractLineParts(line, false, ts, ms + " ");
  }

  lemma LinuxResponseTime(ts: string, host: string, seqNo: string, ttl: string, ms: string)
    requires IsStampText(ts) && IsNumericText(host) && IsNumericText(seqNo) && IsNumericText(ttl)
    requires IsNumericText(ms)
    ensures ResponseTimeText(EchoLine(ts, LinuxReply(host, seqNo, ttl, ms))) == Success(ms + " ")
  {
    var head := ts + ": " + LinuxPrefix(host, seqNo, ttl);
    var line := EchoLine(ts, LinuxReply(host, seqNo, ttl, ms));
    LinuxHeadNoPair(ts, host, seqNo, ttl, 't', 'i');
    LinuxHeadNoPair(ts, host, seqNo, ttl, 'm', 's');
    NumericNoPair(ms, 'm', 's');
    NoPairConcat(head, "time=", 'm', 's');
    NoPairConcat(head + "time=", ms, 'm', 's');
    assert IndexOf(" ms\n", MsMarker) == Some(1) by {
      assert " ms\n"[0..2] == " m" && " ms\n"[1..3] == MsMarker;
      FirstOccurrence(" ms\n", MsMarker, 1);
    }
    assert (head + "time=" + ms)[|head + "time=" + ms| - 1] != 'm' by {
      if |ms| > 0 {
        assert (head + "time=" + ms)[|head + "time=" + ms| - 1] == ms[|ms| - 1];
        assert IsDigit(ms[|ms| - 1]) || ms[|ms| - 1] == '.';
      }
    }
    LineShape(ts, LinuxPrefix(host, seqNo, ttl), "time=", ms, " ms");
    ResponseTimeOfShape(line, head, "time=", ms, " ms\n", 1);
    assert " ms\n"[..1] == " ";
  }

  /** The first ": Reply" of a Windows reply line follows the 19-character stamp. */
  lemma WindowsReplyIndex(ts: string, host: string, size: string, rel: char, ms: string, ttl: string)
    requires IsStampText(ts)
    ensures IndexOf(EchoLine(ts, WindowsReply(host, size, rel, ms, ttl)), ": Reply") == Some(19)
  {
    var pong := WindowsReply(host, size, rel, ms, ttl);
    var rest := ": " + pong + "\n";
    LineShape(ts, WindowsPrefix(host, size), "time" + [rel], ms, "ms TTL=" + ttl);
    assert pong[..5] == "Reply";
    assert rest[..7] == ": Reply";
    StampNoColonSpace(ts);
    StartsWith(rest, ": Reply");
    IndexOfAfter(ts, rest, ": Reply");
  }

  lemma WindowsResponseTime(ts: string, host: string, size: string, rel: char, ms: string, ttl: string)
    requires IsStampText(ts) && IsNumericText(host) && IsNumericText(size)
    requires rel == '=' || rel == '<'
    requires IsNumericText(ms)
    ensures ResponseTimeText(EchoLine(ts, WindowsReply(host, size, rel, ms, ttl))) == Success(ms)
  {
    var head := ts + ": " + WindowsPrefix(host, size);
    var lead := "time" + [rel];
    var line := EchoLine(ts, WindowsReply(host, size, rel, ms, ttl));
    WindowsHeadNoPair(ts, host, size, 't', 'i');
    WindowsHeadNoPair(ts, host, size, 'm', 's');
    NumericNoPair(ms, 'm', 's');
    NoPairConcat(head, lead, 'm', 's');
    NoPairConcat(head + lead, ms, 'm', 's');
    var back := "ms TTL=" + ttl + "\n";
    assert back[..2] == MsMarker;
    StartsWith(back, MsMarker);
    assert (head + lead + ms)[|head + lead + ms| - 1] != 'm' by {
      if |ms| > 0 {
        assert (head + lead + ms)[|head + lead + ms| - 1] == ms[|ms| - 1];
        assert IsDigit(ms[|ms| - 1]) || ms[|ms| - 1] == '.';
      } else {
        assert (head + lead + ms)[|head + lead + ms| - 1] == rel;
      }
    }
    LineShape(ts, WindowsPrefix(host, size), lead, ms, "ms TTL=" + ttl);
    ResponseTimeOfShape(line, head, lead, ms, back, 0);
    assert ms + back[..0] == ms;
  }

  /**
   * On the Windows path, as written, a Windows reply line yields only the
   * first 9 characters of its 19-character stamp: ": Reply" follows the stamp
   * directly, so cutting 10 characters before it drops "6:22:29:22" from
   * "2023-10-26:22:29:22", and the text no longer has the stamp format.
   */
  lemma WindowsReplyAsWritten(ts: string, host: string, size: string, rel: char, ms: string, ttl: string)
    requires IsStampText(ts) && IsNumericText(host) && IsNumericText(size)
    requires rel == '=' || rel == '<'
    requires IsNumericText(ms)
    ensures ExtractLine(EchoLine(ts, WindowsReply(host, size, rel, ms, ttl)), true) == Success(Sample(ts[..9], ms))
    ensures !IsStampText(ts[..9])
  {
    var line := EchoLine(ts, WindowsReply(host, size, rel, ms, ttl));
    assert StampText(line, true) == Success(ts[..9]) by {
      WindowsReplyIndex(ts, host, size, rel, ms, ttl);
      LineShape(ts, WindowsPrefix(host, size), "time" + [rel], ms, "ms TTL=" + ttl);
      assert line[..9] == ts[..9];
    }
    assert ResponseTimeText(line) == Success(ms) by {
      WindowsResponseTime(ts, host, size, rel, ms, ttl);
    }
    ExtractLineParts(line, true, ts[..9], ms);
  }

  /**
   * The timestamp cut with the Windows offset corrected to 0: everything
   * before the first ": Reply". On the other path nothing changes.
   */
  function IntendedStampText(line: string, isWindows: bool): (r: Result<string, ParseError>)
    ensures !isWindows ==> r == StampText(line, false)
    ensures r.Failure? <==> !Contains(line, StampMarker(isWindows))
    ensures r.Success? && isWindows ==> r.value == line[..IndexOf(line, StampMarker(true)).value]
  {
    match IndexOf(line, StampMarker(isWindows))
    case None => Failure(SubstringNotFound(StampMarker(isWindows)))
    case Some(p) => Success(Slice(line, 0, p - (if isWindows then 0 else StampOffset(false))))
  }

  /** `ExtractLine` with the corrected timestamp cut. */
  function IntendedExtractLine(line: string, isWindows: bool): (r: Result<Sample, ParseError>)
    ensures !isWindows ==> r == ExtractLine(line, false)
    ensures r.Success? <==> MarkersPresent(line, isWindows)
    ensures r.Success? ==>
      IntendedStampText(line, isWindows) == Success(r.value.stamp) && ResponseTimeText(line) == Success(r.value.responseTime)
  {
    match IntendedStampText(line, isWindows)
    case Failure(e) => Failure(e)
    case Success(stamp) =>
      match ResponseTimeText(line)
      case Failure(e) => Failure(e)
      case Success(ms) => Success(Sample(stamp, ms))
  }

  /** With the corrected cut, a Windows reply line gives back its whole stamp and its response time. */
  lemma WindowsReplyIntended(ts: string, host: string, size: string, rel: char, ms: string, ttl: string)
    requires IsStampText(ts) && IsNumericText(host) && IsNumericText(size)
    requires rel == '=' || rel == '<'
    requires IsNumericText(ms)
    ensures IntendedExtractLine(EchoLine(ts, WindowsReply(host, size, rel, ms, ttl)), true) == Success(Sample(ts, ms))
  {
    var line := EchoLine(ts, WindowsReply(host, size, rel, ms, ttl));
    assert IntendedStampText(line, true) == Success(ts) by {
      WindowsReplyIndex(ts, host, size, rel, ms, ttl);
      LineShape(ts, WindowsPrefix(host, size), "time" + [rel], ms, "ms TTL=" + ttl);
      assert line[..19] == ts;
    }
    WindowsResponseTime(ts, host, size, rel, ms, ttl);
  }
}
