/** The scanner window of gui.py (`WebPathScanApp`) as an object. Its
    widgets, the chart, the message boxes and the `after` timer are not
    modelled: `start_scan` reads its fields as parameters, and the worker
    thread and the timer callback are methods a caller may call in any
    order, one whole turn at a time. Each method changes the window as the
    matching transition of `ScanState` does. */
module Gui {
  import opened Wrappers
  import opened Text
  import opened Probe
  import opened Filters
  import opened Wordlist
  import opened Report
  import opened Scanner
  import opened ScanState

  class ScanApp {
    var results: seq<ProbeResult>
    var statusCounter: multiset<int>
    var resultQueue: seq<Option<ProbeResult>>
    var isScanning: bool
    var totalPaths: nat
    var donePaths: nat
    var workerAlive: bool
    var job: Job

    /** The fields as a value. */
    function Snapshot(): Window
      reads this
    {
      Window(results, statusCounter, resultQueue, isScanning, totalPaths, donePaths, workerAlive, job)
    }

    /** `Inv` of the snapshot, read directly on the fields. */
    predicate Valid()
      reads this
    {
      Inv(Snapshot())
    }

    /** `__init__`: no results, an empty counter and queue, no scan. */
    constructor ()
      ensures Snapshot() == Initial()
      ensures Valid()
    {
      results := [];
      statusCounter := multiset{};
      resultQueue := [];
      isScanning := false;
      totalPaths := 0;
      donePaths := 0;
      workerAlive := false;
      job := Job("", [], FilterConfig(None, None, None, None), (u: string) => None);
    }

    /** `start_scan`, reading the URL field, the wordlist file (`None` when
        it does not exist), the four filter fields (match codes, match
        sizes, filter codes, filter sizes) and the HTTP client. */
    method StartScan(urlText: string, wordlist: Option<seq<string>>,
                     mcText: string, msText: string, fcText: string, fsText: string,
                     probe: Prober)
      returns (outcome: StartOutcome)
      requires Valid()
      requires Strip(urlText) != "" && wordlist.Some? ==>
        SimpleJob(NormalizeBase(Strip(urlText)), Normalized(wordlist.value))
      modifies this
      ensures Snapshot() ==
        Start(old(Snapshot()), urlText, wordlist, WindowConfig(mcText, msText, fcText, fsText), probe)
      ensures outcome == StartOutcomeOf(old(Snapshot()), urlText, wordlist)
      ensures Valid()
    {
      ghost var before := Snapshot();
      ghost var config := WindowConfig(mcText, msText, fcText, fsText);
      StartInv(before, urlText, wordlist, config, probe);
      StartCases(before, urlText, wordlist, config, probe);
      if isScanning {
        return AlreadyScanning;
      }
      var url := Strip(urlText);
      if url == "" {
        return MissingUrl;
      }
      var loaded := LoadWordlist(wordlist);
      if loaded.Failure? {
        return WordlistNotFound;
      }
      var paths := loaded.value;
      if paths == [] {
        return WordlistEmpty;
      }
      var cfg := WindowConfig(mcText, msText, fcText, fsText);
      Reset(NormalizeBase(url), paths, cfg, probe);
      return Started;
    }

    /** The fields `start_scan` sets for a scan of `paths` from `base`. */
    method Reset(base: string, paths: seq<string>, cfg: FilterConfig, probe: Prober)
      modifies this
      ensures Snapshot() == Window([], multiset{}, old(resultQueue), true, |paths|, 0, true, Job(base, paths, cfg, probe))
    {
      results := [];
      statusCounter := multiset{};
      totalPaths := |paths|;
      donePaths := 0;
      isScanning := true;
      job := Job(base, paths, cfg, probe);
      workerAlive := true;
    }

    /** One turn of the worker thread's loop; returns the URL requested, if
        any. */
    method WorkerStep() returns (requested: Option<string>)
      requires Valid() && workerAlive
      modifies this
      ensures Snapshot() == WorkerTurn(old(Snapshot()))
      ensures requested == Requested(old(Snapshot()))
      ensures Valid()
    {
      ghost var before := Snapshot();
      WorkerTurnInv(before);
      if !isScanning || donePaths == |job.paths| {
        resultQueue, workerAlive := resultQueue + [None], false;
        assert Snapshot() == WorkerTurn(before);
        return None;
      }
      var fullUrl := NextTarget(job, donePaths);
      var res := job.probe(fullUrl);
      var queue := resultQueue;
      if res.Some? && ShouldShow(res.value, job.cfg) {
        queue := queue + [Some(res.value)];
      }
      QueueShown(resultQueue, res, job.cfg);
      donePaths, resultQueue := donePaths + 1, queue;
      assert Snapshot() == WorkerTurn(before);
      return Some(fullUrl);
    }

    /** The worker thread from its current turn to its end marker. */
    method RunWorker()
      requires Valid() && workerAlive
      modifies this
      ensures Snapshot() == WorkerRun(old(Snapshot()))
      ensures Valid()
    {
      while workerAlive
        invariant Valid()
        invariant WorkerRun(Snapshot()) == WorkerRun(old(Snapshot()))
        decreases totalPaths - donePaths, workerAlive
      {
        ghost var w := Snapshot();
        WorkerRunStep(w);
        WorkerTurnEffect(w);
        var _ := WorkerStep();
      }
    }

    /** One `get_nowait` of the timer callback; returns whether it was the
        end marker. */
    method TakeItem() returns (finished: bool)
      requires Valid() && |resultQueue| > 0
      modifies this
      ensures Snapshot() == Take(old(Snapshot()))
      ensures finished <==> old(resultQueue[0]).None?
      ensures Valid()
    {
      ghost var before := Snapshot();
      var item := resultQueue[0];
      resultQueue := resultQueue[1..];
      if item.None? {
        isScanning := false;
        TakeInv(before);
        return true;
      }
      var res := item.value;
      results := results + [res];
      statusCounter := statusCounter + multiset{res.status};
      TakeInv(before);
      return false;
    }

    /** `_process_results_from_queue`: take items until the queue is empty
        or the end marker comes. */
    method DrainQueue()
      requires Valid()
      modifies this
      ensures Snapshot() == Drain(old(Snapshot()))
      ensures Valid()
    {
      while resultQueue != []
        invariant Valid()
        invariant Drain(Snapshot()) == Drain(old(Snapshot()))
        decreases |resultQueue|
      {
        ghost var w := Snapshot();
        DrainStep(w);
        var finished := TakeItem();
        if finished {
          break;
        }
      }
    }

    /** `save_report_gui`: nothing when there is no result; otherwise the
        report on the URL field's text (or `unknown` when it is blank), with
        the timestamp `ts` and the results' rendered elapsed times. */
    method SaveReportGui(urlText: string, ts: string, elapsed: seq<string>) returns (report: Option<ReportFile>)
      requires |elapsed| == |results|
      ensures report.None? <==> results == []
      ensures report.Some? ==>
        var target := if Strip(urlText) == "" then "unknown" else Strip(urlText);
        && report.value.filename == ReportFilename(target, ts)
        && |report.value.lines| == |results| + 3
        && report.value.lines[..3] == HeaderLines(target, |results|)
        && forall i :: 0 <= i < |results| ==> report.value.lines[i + 3] == ResultLine(results[i], elapsed[i])
    {
      if results == [] {
        return None;
      }
      var url := Strip(urlText);
      if url == "" {
        url := "unknown";
      }
      var saved := SaveReport(results, url, ts, elapsed);
      return Some(saved);
    }
  }

  /** A whole session in the window: start a scan, let the worker run to its
      end, then let the timer drain the queue. On an idle window the scan
      starts exactly when the URL field is not blank and the wordlist yields
      a path, and the window then shows exactly what `scan_sync` collects
      from the same inputs, one count per result. */
  method RunSession(app: ScanApp, urlText: string, lines: seq<string>,
                    mcText: string, msText: string, fcText: string, fsText: string,
                    probe: Prober)
    returns (outcome: StartOutcome)
    requires app.Valid() && !app.isScanning
    requires Strip(urlText) != "" ==> SimpleJob(NormalizeBase(Strip(urlText)), Normalized(lines))
    modifies app
    ensures app.Snapshot() == Session(old(app.Snapshot()), urlText, lines, mcText, msText, fcText, fsText, probe)
    ensures app.Valid() && !app.isScanning
    ensures outcome == Started <==> Strip(urlText) != "" && Normalized(lines) != []
    ensures outcome == Started ==>
      && app.results == ScanResults(NormalizeBase(Strip(urlText)), Normalized(lines), probe,
                                    WindowConfig(mcText, msText, fcText, fsText))
      && |app.statusCounter| == |app.results|
      && app.donePaths == app.totalPaths == |Normalized(lines)|
  {
    ghost var before := app.Snapshot();
    SessionMatchesScanSync(before, urlText, lines, mcText, msText, fcText, fsText, probe);
    outcome := app.StartScan(urlText, Some(lines), mcText, msText, fcText, fsText, probe);
    if outcome != Started {
      return;
    }
    StartEffect(before, urlText, Some(lines), WindowConfig(mcText, msText, fcText, fsText), probe);
    app.RunWorker();
    app.DrainQueue();
  }
}
