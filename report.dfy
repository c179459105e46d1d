/** The report writer (output.py): the file name derived from the target URL
    and a timestamp, and the lines written into it. The timestamp
    (`datetime.now().strftime(...)`) and the formatting of the elapsed time
    (`:.1f`, one text per result) are inputs; the directory creation and the file write are not
    modelled, the lines are what would be written, each followed by a
    newline. */
module Report {
  import opened Wrappers
  import opened Text
  import opened Probe
  import Config

  /** What `save_report` produces: the file name it returns and the lines of
      the file. */
  datatype ReportFile = ReportFile(filename: string, lines: seq<string>)

  /** `target_url.replace("://", "_").replace("/", "_")`. */
  function SafeUrl(url: string): (s: string)
    ensures '/' !in s
  {
    var once := ReplaceAll(url, "://", "_");
    ReplaceCharAt(once, '/', '_');
    ReplaceAll(once, "/", "_")
  }

  /** `os.path.join(REPORTS_DIR, f"report_{safe_url}_{ts}.txt")`. */
  function ReportFilename(url: string, ts: string): string {
    Config.ReportsDir + "/" + "report_" + SafeUrl(url) + "_" + ts + ".txt"
  }

  /** The header, the count and the blank line that open every report. */
  function HeaderLines(targetUrl: string, count: nat): seq<string> {
    ["Scan report for " + targetUrl, "Total results: " + IntToString(count), ""]
  }

  /** One result line, `[status] lengthB elapsedms url`, where `elapsed` is
      the elapsed time rendered with one decimal. */
  function ResultLine(r: ProbeResult, elapsed: string): string {
    "[" + IntToString(r.status) + "] " + IntToString(r.length) + "B " + elapsed + "ms " + r.url
  }

  /** `save_report(results, target_url)` with the timestamp `ts`;
      `elapsed[i]` is `results[i]`'s elapsed time as `:.1f` renders it. */
  method SaveReport(results: seq<ProbeResult>, targetUrl: string, ts: string, elapsed: seq<string>)
    returns (report: ReportFile)
    requires |elapsed| == |results|
    ensures report.filename == ReportFilename(targetUrl, ts)
    ensures |report.lines| == |results| + 3
    ensures report.lines[..3] == HeaderLines(targetUrl, |results|)
    ensures forall i :: 0 <= i < |results| ==> report.lines[i + 3] == ResultLine(results[i], elapsed[i])
    ensures results == [] ==> report.lines == HeaderLines(targetUrl, 0)
  {
    var filename := ReportFilename(targetUrl, ts);
    var header := HeaderLines(targetUrl, |results|);
    var lines := header;
    for k := 0 to |results|
      invariant |lines| == k + 3
      invariant lines[..3] == header
      invariant forall i :: 0 <= i < k ==> lines[i + 3] == ResultLine(results[i], elapsed[i])
    {
      lines := lines + [ResultLine(results[k], elapsed[k])];
    }
    report := ReportFile(filename, lines);
  }

  /** With no result the count reads `0`. */
  lemma EmptyHeader(targetUrl: string)
    ensures HeaderLines(targetUrl, 0) == ["Scan report for " + targetUrl, "Total results: 0", ""]
  {
    assert DigitChar(0) == '0';
    assert IntToString(0) == ['0'];
    assert "Total results: " + ['0'] == "Total results: 0";
  }

  /** The report file lies directly in the reports directory, under a name
      that starts with `report_` and ends with `.txt`, as long as the
      timestamp holds no `/` (the one `save_report` makes holds only digits
      and `_`). */
  lemma FilenameInReportsDir(url: string, ts: string)
    requires '/' !in ts
    ensures var f := ReportFilename(url, ts);
      var base := f[|Config.ReportsDir| + 1..];
      && f == Config.ReportsDir + "/" + base
      && '/' !in base
      && base == "report_" + SafeUrl(url) + "_" + ts + ".txt"
  {
    var f := ReportFilename(url, ts);
    var base := "report_" + SafeUrl(url) + "_" + ts + ".txt";
    assert f == Config.ReportsDir + "/" + base;
    assert f[|Config.ReportsDir| + 1..] == base;
    NoSlashInBase(SafeUrl(url), ts);
  }

  lemma NoSlashInBase(safe: string, ts: string)
    requires '/' !in safe && '/' !in ts
    ensures '/' !in "report_" + safe + "_" + ts + ".txt"
  {
    var base := "report_" + safe + "_" + ts + ".txt";
    forall i | 0 <= i < |base| ensures base[i] != '/' {
      if i < 7 {
        assert base[i] == "report_"[i];
      } else if i < 7 + |safe| {
        assert base[i] == safe[i - 7];
      } else if i == 7 + |safe| {
        assert base[i] == '_';
      } else if i < 8 + |safe| + |ts| {
        assert base[i] == ts[i - 8 - |safe|];
      } else {
        assert base[i] == ".txt"[i - 8 - |safe| - |ts|];
      }
    }
  }

  /** Two reports on the same target with different timestamps get different
      files. */
  lemma FilenameDeterminesTimestamp(url: string, ts1: string, ts2: string)
    requires ReportFilename(url, ts1) == ReportFilename(url, ts2)
    ensures ts1 == ts2
  {
    var prefix := Config.ReportsDir + "/" + "report_" + SafeUrl(url) + "_";
    var f1, f2 := ReportFilename(url, ts1), ReportFilename(url, ts2);
    assert f1 == prefix + ts1 + ".txt";
    assert f2 == prefix + ts2 + ".txt";
    assert |ts1| == |ts2|;
    assert ts1 == f1[|prefix|..|prefix| + |ts1|];
    assert ts2 == f2[|prefix|..|prefix| + |ts2|];
  }

  /** For a URL `scheme://rest` in which the first `://` ends the scheme and
      no other `://` follows (a port or a `:` in the path is fine), the
      separator becomes one `_` and every `/` after it becomes `_`, character
      for character. */
  lemma SafeUrlOfSchemeUrl(scheme: string, rest: string)
    requires ':' !in scheme && NoOccurrence(rest, "://")
    ensures SafeUrl(scheme + "://" + rest) == ReplaceAll(scheme + "_" + rest, "/", "_")
    ensures |SafeUrl(scheme + "://" + rest)| == |scheme| + 1 + |rest|
  {
    var url := scheme + "://" + rest;
    assert url == scheme + ("://" + rest);
    ReplaceSkipsPrefix(scheme, "://" + rest, "://", "_");
    ReplaceAtFront(rest, "://", "_");
    ReplaceAbsent(rest, "://", "_");
    assert ReplaceAll(url, "://", "_") == scheme + "_" + rest;
    ReplaceCharAt(scheme + "_" + rest, '/', '_');
  }

  /** The `Total results` line reads back as the number of results. */
  lemma TotalLineCount(targetUrl: string, count: nat)
    requires WithinDigitLimit(count)
    ensures var line := HeaderLines(targetUrl, count)[1];
      && line[..15] == "Total results: "
      && ParseInt(line[15..]) == Some(count)
  {
    var line := HeaderLines(targetUrl, count)[1];
    assert line == "Total results: " + IntToString(count);
    assert line[15..] == IntToString(count);
    ParseIntToString(count);
  }

  /** The status code sits between the opening `[` and the first `]` of a
      result line and reads back as the result's status. */
  lemma ResultLineStatus(r: ProbeResult, elapsed: string)
    requires WithinDigitLimit(r.status)
    ensures var line := ResultLine(r, elapsed);
      var n := |IntToString(r.status)|;
      && line[0] == '['
      && line[n + 1] == ']'
      && ParseInt(line[1..n + 1]) == Some(r.status)
  {
    var line := ResultLine(r, elapsed);
    var s := IntToString(r.status);
    var tail := "] " + IntToString(r.length) + "B " + elapsed + "ms " + r.url;
    assert line == "[" + s + tail;
    assert line[1..|s| + 1] == s;
    assert line[|s| + 1] == tail[0];
    ParseIntToString(r.status);
  }

  /** A result line ends with the result's URL. */
  lemma ResultLineUrl(r: ProbeResult, elapsed: string)
    ensures var line := ResultLine(r, elapsed);
      |line| >= |r.url| && line[|line| - |r.url|..] == r.url
  {
    var line := ResultLine(r, elapsed);
    var front := "[" + IntToString(r.status) + "] " + IntToString(r.length) + "B " + elapsed + "ms ";
    assert line == front + r.url;
  }
}
