/**
 * What ping() does with the ping tool: the argument vector it runs, and the
 * record it builds from the tool's standard output. Both programs share this
 * code word for word (ping-exp.py:41-91, ping-test.py:19-69); they differ
 * only in how they read the exit status, which is modelled in PingExp and
 * PingTest.
 *
 * Every output line has its trailing whitespace removed and is then searched
 * for each of the three patterns independently: a response line appends one
 * (icmp_seq, ttl, time) triple, and a summary or rtt line replaces whatever
 * summary or rtt record an earlier line gave.
 */
module PingOutput {
  import opened Wrappers
  import opened Text
  import opened Patterns

  // ---------------------------------------------------------------------------
  // The result record
  // ---------------------------------------------------------------------------

  /** A float() of a decimal text, kept exact: digits / 10^scale. */
  datatype Decimal = Decimal(digits: nat, scale: nat)

  const Zero := Decimal(0, 0)

  /** float() of what \d+(\.\d+|) captured. */
  function ToDecimal(n: Numeral): Decimal
  {
    Decimal(DigitsValue(n.whole + n.frac), |n.frac|)
  }

  /** One reply: (int(icmp_seq), int(ttl), float(time)). */
  datatype Response = Response(icmpSeq: nat, ttl: nat, time: Decimal)

  /** The summary record: the error count the line may carry is not kept. */
  datatype Summary = Summary(transmitted: nat, received: nat, packetLoss: nat, time: Decimal)

  datatype RttSummary = RttSummary(min: Decimal, avg: Decimal, max: Decimal, mdev: Decimal)

  /** The result dictionary: 'responses', and 'summary' and 'rtt_summary' when present. */
  datatype PingResult = PingResult(responses: seq<Response>, summary: Option<Summary>, rttSummary: Option<RttSummary>)

  const EmptyResult := PingResult([], None, None)

  const ZeroRtt := RttSummary(Zero, Zero, Zero, Zero)

  /**
   * What starting the tool gives: it could not be started (OSError), or it
   * ran, printed these lines on standard output and exited with this status.
   */
  datatype ProbeRun = LaunchFailed | Exited(stdout: seq<string>, status: int)

  // ---------------------------------------------------------------------------
  // The argument vector
  // ---------------------------------------------------------------------------

  /** '%.3f' of an interval held in whole milliseconds, negative ones included. */
  function SecondsText(ms: int): string
  {
    if ms < 0 then "-" + FormatMillis(-ms) else FormatMillis(ms)
  }

  /** Reads back a '%.3f' seconds text as whole milliseconds. */
  function ReadSeconds(s: string): Option<int>
  {
    if |s| < 5 || s[|s| - 4] != '.' || !IsDigits(s[|s| - 3..]) then None
    else
      var negative := s[0] == '-';
      var whole := if negative then s[1..|s| - 4] else s[..|s| - 4];
      if whole == [] || !IsDigits(whole) then None
      else
        var ms := DigitsValue(whole) * 1000 + DigitsValue(s[|s| - 3..]);
        Some(if negative then -ms else ms)
  }

  lemma {:induction false} ReadSecondsText(ms: int)
    ensures ReadSeconds(SecondsText(ms)) == Some(ms)
  {
    if ms < 0 {
      var f := FormatMillis(-ms);
      assert SecondsText(ms) == "-" + f;
      ReadNegativeSeconds(f, -ms);
    } else {
      var f := FormatMillis(ms);
      assert SecondsText(ms) == f;
      ReadPlainSeconds(f, ms);
    }
  }

  lemma {:induction false} ReadPlainSeconds(f: string, ms: nat)
    requires |f| >= 5 && f[|f| - 4] == '.' && IsDigits(f[..|f| - 4]) && IsDigits(f[|f| - 3..])
    requires DigitsValue(f[..|f| - 4]) * 1000 + DigitsValue(f[|f| - 3..]) == ms
    ensures ReadSeconds(f) == Some(ms)
  {
    assert f[..|f| - 4][0] == f[0];
  }

  lemma {:induction false} ReadNegativeSeconds(f: string, ms: nat)
    requires |f| >= 5 && f[|f| - 4] == '.' && IsDigits(f[..|f| - 4]) && IsDigits(f[|f| - 3..])
    requires DigitsValue(f[..|f| - 4]) * 1000 + DigitsValue(f[|f| - 3..]) == ms
    ensures ReadSeconds("-" + f) == Some(-(ms as int))
  {
    var s := "-" + f;
    assert s[1..|s| - 4] == f[..|f| - 4] && s[|s| - 3..] == f[|f| - 3..] && s[|s| - 4] == '.';
  }

  /** What the probe is asked to do. */
  datatype ProbeSettings = ProbeSettings(host: string, qos: int, intervalMs: int, count: int, flood: bool)

  /** ['ping', '-i <interval>', '-Q <qos>', '-c <count>'], then '-f' for a flood, then the host. */
  function ProbeArgs(p: ProbeSettings): (args: seq<string>)
    ensures |args| == (if p.flood then 6 else 5)
    ensures args[0] == "ping" && args[|args| - 1] == p.host
    ensures p.flood ==> args[4] == "-f"
  {
    ["ping", "-i " + SecondsText(p.intervalMs), "-Q " + IntToString(p.qos), "-c " + IntToString(p.count)] +
    (if p.flood then ["-f"] else []) + [p.host]
  }

  /** The settings an argument vector of ProbeArgs' shape carries. */
  function ReadProbeArgs(args: seq<string>): Option<ProbeSettings>
  {
    if !(|args| == 5 || |args| == 6) || args[0] != "ping" then None
    else if |args| == 6 && args[4] != "-f" then None
    else if |args[1]| < 3 || args[1][..3] != "-i " || |args[2]| < 3 || args[2][..3] != "-Q " then None
    else if |args[3]| < 3 || args[3][..3] != "-c " then None
    else
      match (ReadSeconds(args[1][3..]), ParseInt(args[2][3..]), ParseInt(args[3][3..]))
      case (Some(ms), Some(qos), Some(count)) => Some(ProbeSettings(args[|args| - 1], qos, ms, count, |args| == 6))
      case _ => None
  }

  /** ReadProbeArgs takes an argument vector of ProbeArgs' shape apart field by field. */
  lemma {:induction false} ReadProbeArgsFields(args: seq<string>, interval: string, qos: string, count: string,
                                                ms: int, q: int, c: int)
    requires |args| == 5 || (|args| == 6 && args[4] == "-f")
    requires args[0] == "ping" && args[1] == "-i " + interval && args[2] == "-Q " + qos && args[3] == "-c " + count
    requires ReadSeconds(interval) == Some(ms) && ParseInt(qos) == Some(q) && ParseInt(count) == Some(c)
    ensures ReadProbeArgs(args) == Some(ProbeSettings(args[|args| - 1], q, ms, c, |args| == 6))
  {
    assert args[1][..3] == "-i " && args[1][3..] == interval;
    assert args[2][..3] == "-Q " && args[2][3..] == qos;
    assert args[3][..3] == "-c " && args[3][3..] == count;
  }

  /** The fields of an argument vector of ProbeArgs' shape, for any texts in its slots. */
  lemma {:induction false} ProbeVectorShape(host: string, interval: string, qos: string, count: string, flood: bool)
    ensures var args := ["ping", "-i " + interval, "-Q " + qos, "-c " + count] + (if flood then ["-f"] else []) + [host];
            |args| == (if flood then 6 else 5) && (flood ==> args[4] == "-f") && args[|args| - 1] == host &&
            args[0] == "ping" && args[1] == "-i " + interval && args[2] == "-Q " + qos && args[3] == "-c " + count
  {
  }

  lemma {:induction false} ProbeArgsRoundTrip(p: ProbeSettings)
    ensures ReadProbeArgs(ProbeArgs(p)) == Some(p)
  {
    var args := ProbeArgs(p);
    ProbeVectorShape(p.host, SecondsText(p.intervalMs), IntToString(p.qos), IntToString(p.count), p.flood);
    ReadSecondsText(p.intervalMs);
    ParseIntToString(p.qos);
    ParseIntToString(p.count);
    ReadProbeArgsFields(args, SecondsText(p.intervalMs), IntToString(p.qos), IntToString(p.count),
                        p.intervalMs, p.qos, p.count);
  }

  // ---------------------------------------------------------------------------
  // One line
  // ---------------------------------------------------------------------------

  function ResponseOf(g: ResponseGroups): Response
  {
    Response(DigitsValue(g.icmpSeq), DigitsValue(g.ttl), ToDecimal(g.time))
  }

  function SummaryOf(g: SummaryGroups): Summary
  {
    Summary(DigitsValue(g.transmitted), DigitsValue(g.received), DigitsValue(g.packetLoss), ToDecimal(g.time))
  }

  function RttOf(g: RttGroups): RttSummary
  {
    RttSummary(ToDecimal(g.min), ToDecimal(g.avg), ToDecimal(g.max), ToDecimal(g.mdev))
  }

  /** response_re.search(line), converted. */
  function ResponseIn(line: string): Option<Response>
  {
    match Search(MatchResponseAt, line)
    case None => None
    case Some(g) => Some(ResponseOf(g))
  }

  /** summary_re.search(line), converted. */
  function SummaryIn(line: string): Option<Summary>
  {
    match Search(MatchSummaryAt, line)
    case None => None
    case Some(g) => Some(SummaryOf(g))
  }

  /** rtt_summary_re.search(line), converted. */
  function RttIn(line: string): Option<RttSummary>
  {
    match Search(MatchRttAt, line)
    case None => None
    case Some(g) => Some(RttOf(g))
  }

  /** One pass of the line loop: the three patterns are tried on the stripped line, each on its own. */
  function ParseLine(r: PingResult, raw: string): PingResult
  {
    var line := RStrip(raw);
    PingResult(
      r.responses + (match ResponseIn(line) case Some(x) => [x] case None => []),
      if SummaryIn(line).Some? then SummaryIn(line) else r.summary,
      if RttIn(line).Some? then RttIn(line) else r.rttSummary)
  }

  /** The record the line loop has built after the given lines. */
  function ParseLines(lines: seq<string>): PingResult
  {
    if lines == [] then EmptyResult else ParseLine(ParseLines(lines[..|lines| - 1]), lines[|lines| - 1])
  }

  /** The line loop of ping(). */
  method ParseOutput(lines: seq<string>) returns (result: PingResult)
    ensures result == ParseLines(lines)
  {
    var responses: seq<Response> := [];
    var summary: Option<Summary> := None;
    var rttSummary: Option<RttSummary> := None;
    for i := 0 to |lines|
      invariant PingResult(responses, summary, rttSummary) == ParseLines(lines[..i])
    {
      ParseLinesPrefix(lines, i);
      var line := RStrip(lines[i]);
      var response := ResponseIn(line);
      if response.Some? {
        responses := responses + [response.value];
      }
      var s := SummaryIn(line);
      if s.Some? {
        summary := s;
      }
      var rtt := RttIn(line);
      if rtt.Some? {
        rttSummary := rtt;
      }
    }
    assert lines[..|lines|] == lines;
    result := PingResult(responses, summary, rttSummary);
  }

  lemma {:induction false} ParseLinesSnoc(lines: seq<string>, raw: string)
    ensures ParseLines(lines + [raw]) == ParseLine(ParseLines(lines), raw)
  {
    assert (lines + [raw])[..|lines|] == lines;
  }

  lemma {:induction false} ParseLinesPrefix(lines: seq<string>, i: nat)
    requires i < |lines|
    ensures ParseLines(lines[..i + 1]) == ParseLine(ParseLines(lines[..i]), lines[i])
  {
    assert lines[..i + 1][..i] == lines[..i];
  }

  // ---------------------------------------------------------------------------
  // What the record holds
  // ---------------------------------------------------------------------------

  /** The replies of the response lines, in line order. */
  function RepliesIn(lines: seq<string>): seq<Response>
  {
    if lines == [] then []
    else (match ResponseIn(RStrip(lines[0])) case Some(x) => [x] case None => []) + RepliesIn(lines[1..])
  }

  lemma {:induction false} RepliesInSnoc(lines: seq<string>, raw: string)
    ensures RepliesIn(lines + [raw]) ==
            RepliesIn(lines) + (match ResponseIn(RStrip(raw)) case Some(x) => [x] case None => [])
  {
    if lines == [] {
      assert [] + [raw] == [raw] && [raw][1..] == [];
    } else {
      assert (lines + [raw])[0] == lines[0] && (lines + [raw])[1..] == lines[1..] + [raw];
      RepliesInSnoc(lines[1..], raw);
    }
  }

  /** Every response line contributes exactly one reply, in line order, and no other line does. */
  lemma {:induction false} ResponsesInLineOrder(lines: seq<string>)
    ensures ParseLines(lines).responses == RepliesIn(lines)
  {
    if lines != [] {
      var init := lines[..|lines| - 1];
      ResponsesInLineOrder(init);
      RepliesInSnoc(init, lines[|lines| - 1]);
      assert init + [lines[|lines| - 1]] == lines;
    }
  }

  /** The summary is absent exactly when no line matches the summary pattern. */
  lemma {:induction false} SummaryAbsent(lines: seq<string>)
    ensures ParseLines(lines).summary.None? <==> forall k :: 0 <= k < |lines| ==> SummaryIn(RStrip(lines[k])).None?
  {
    if lines != [] {
      var init, last := lines[..|lines| - 1], lines[|lines| - 1];
      assert ParseLines(lines).summary.None? <==> ParseLines(init).summary.None? && SummaryIn(RStrip(last)).None? by {
        assert init + [last] == lines;
        ParseLinesSnoc(init, last);
      }
      SummaryAbsent(init);
      assert forall k :: 0 <= k < |init| ==> init[k] == lines[k];
    }
  }

  /** The summary comes from the last line that matches the summary pattern. */
  lemma {:induction false} SummaryFromLastLine(lines: seq<string>, k: nat)
    requires k < |lines| && SummaryIn(RStrip(lines[k])).Some?
    requires forall j :: k < j < |lines| ==> SummaryIn(RStrip(lines[j])).None?
    ensures ParseLines(lines).summary == SummaryIn(RStrip(lines[k]))
    decreases |lines|
  {
    if k < |lines| - 1 {
      var init := lines[..|lines| - 1];
      assert init[k] == lines[k];
      assert forall j :: k < j < |init| ==> init[j] == lines[j];
      SummaryFromLastLine(init, k);
    }
  }

  /** The rtt record is absent exactly when no line matches the rtt pattern. */
  lemma {:induction false} RttAbsent(lines: seq<string>)
    ensures ParseLines(lines).rttSummary.None? <==> forall k :: 0 <= k < |lines| ==> RttIn(RStrip(lines[k])).None?
  {
    if lines != [] {
      var init, last := lines[..|lines| - 1], lines[|lines| - 1];
      assert ParseLines(lines).rttSummary.None? <==> ParseLines(init).rttSummary.None? && RttIn(RStrip(last)).None? by {
        assert init + [last] == lines;
        ParseLinesSnoc(init, last);
      }
      RttAbsent(init);
      assert forall k :: 0 <= k < |init| ==> init[k] == lines[k];
    }
  }

  /** The rtt record comes from the last line that matches the rtt pattern. */
  lemma {:induction false} RttFromLastLine(lines: seq<string>, k: nat)
    requires k < |lines| && RttIn(RStrip(lines[k])).Some?
    requires forall j :: k < j < |lines| ==> RttIn(RStrip(lines[j])).None?
    ensures ParseLines(lines).rttSummary == RttIn(RStrip(lines[k]))
    decreases |lines|
  {
    if k < |lines| - 1 {
      var init := lines[..|lines| - 1];
      assert init[k] == lines[k];
      assert forall j :: k < j < |init| ==> init[j] == lines[j];
      RttFromLastLine(init, k);
    }
  }

  lemma {:induction false} SplitLast(before: seq<string>, raw: string, after: seq<string>)
    requires after != []
    ensures before + [raw] + after == (before + [raw] + after[..|after| - 1]) + [after[|after| - 1]]
    ensures before + after == (before + after[..|after| - 1]) + [after[|after| - 1]]
  {
    assert after == after[..|after| - 1] + [after[|after| - 1]];
  }

  lemma {:induction false} UnmatchedLineStep(r: PingResult, raw: string)
    requires ResponseIn(RStrip(raw)).None? && SummaryIn(RStrip(raw)).None? && RttIn(RStrip(raw)).None?
    ensures ParseLine(r, raw) == r
  {
    assert r.responses + [] == r.responses;
  }

  /** A line that matches none of the patterns changes nothing, wherever it stands. */
  lemma {:induction false} UnmatchedLineIgnored(before: seq<string>, raw: string, after: seq<string>)
    requires ResponseIn(RStrip(raw)).None? && SummaryIn(RStrip(raw)).None? && RttIn(RStrip(raw)).None?
    ensures ParseLines(before + [raw] + after) == ParseLines(before + after)
    decreases |after|
  {
    if after == [] {
      ParseLinesSnoc(before, raw);
      UnmatchedLineStep(ParseLines(before), raw);
      assert before + [raw] + [] == before + [raw] && before + [] == before;
    } else {
      var init, last := after[..|after| - 1], after[|after| - 1];
      var x, y := before + [raw] + init, before + init;
      UnmatchedLineIgnored(before, raw, init);
      SplitLast(before, raw, after);
      ParseLinesSnoc(x, last);
      ParseLinesSnoc(y, last);
    }
  }

  // ---------------------------------------------------------------------------
  // Lines of the tool's own form
  // ---------------------------------------------------------------------------

  /** A line holding a response, after a prefix at which no response match starts, yields that triple. */
  lemma {:induction false} ResponseLineParsed(prefix: string, g: ResponseGroups, rest: string)
    requires Fits(ResponsePattern, ResponseCaptures(g))
    requires forall i :: 0 <= i < |prefix| ==> MatchResponseAt(prefix + ResponseText(g) + rest, i).None?
    ensures ResponseIn(prefix + ResponseText(g) + rest) == Some(ResponseOf(g))
  {
    var line := prefix + ResponseText(g) + rest;
    ResponseComplete(g, rest);
    assert line[|prefix|..] == ResponseText(g) + rest;
    SearchLeftmost(MatchResponseAt, line, |prefix|);
  }

  /**
   * A line holding a summary, with or without an error count, after a
   * prefix at which no summary match starts, yields its counts and time.
   */
  lemma {:induction false} SummaryLineParsed(prefix: string, g: SummaryGroups, rest: string)
    requires Fits(SummaryPattern(g), SummaryCaptures(g))
    requires forall i :: 0 <= i < |prefix| ==> MatchSummaryAt(prefix + SummaryText(g) + rest, i).None?
    ensures SummaryIn(prefix + SummaryText(g) + rest) == Some(SummaryOf(g))
  {
    var line := prefix + SummaryText(g) + rest;
    SummaryComplete(g, rest);
    assert line[|prefix|..] == SummaryText(g) + rest;
    SearchLeftmost(MatchSummaryAt, line, |prefix|);
  }

  /** The error count of a summary line is accepted but makes no difference to the record. */
  lemma {:induction false} SummaryErrorsDiscarded(g: SummaryGroups)
    requires g.errors.Some?
    requires Fits(SummaryPattern(g), SummaryCaptures(g))
    requires Fits(SummaryPattern(g.(errors := None)), SummaryCaptures(g.(errors := None)))
    ensures SummaryIn(SummaryText(g)) == SummaryIn(SummaryText(g.(errors := None)))
  {
    var g0 := g.(errors := None);
    SummaryLineParsed([], g, []);
    SummaryLineParsed([], g0, []);
    assert [] + SummaryText(g) + [] == SummaryText(g) && [] + SummaryText(g0) + [] == SummaryText(g0);
  }

  /** A line holding an rtt summary, after a prefix at which no rtt match starts, yields its four values. */
  lemma {:induction false} RttLineParsed(prefix: string, g: RttGroups, rest: string)
    requires Fits(RttPattern, RttCaptures(g))
    requires forall i :: 0 <= i < |prefix| ==> MatchRttAt(prefix + RttText(g) + rest, i).None?
    ensures RttIn(prefix + RttText(g) + rest) == Some(RttOf(g))
  {
    var line := prefix + RttText(g) + rest;
    RttComplete(g, rest);
    assert line[|prefix|..] == RttText(g) + rest;
    SearchLeftmost(MatchRttAt, line, |prefix|);
  }
}
