/** The state of the scanner window of gui.py (`WebPathScanApp`) as a value,
    and its three transitions: `start_scan`, one turn of the worker thread's
    loop, and one item taken by the timer callback
    (`_process_results_from_queue`). The worker puts each shown result, and
    at the end a `None` marker, into `result_queue`; the timer takes them
    out on the main thread. */
module ScanState {
  import opened Wrappers
  import opened Text
  import opened Probe
  import opened Filters
  import opened Wordlist
  import opened Scanner
  import Config


  /** The status codes of some results, counted: `Counter` of
      `res["status_code"]`. */
  function Statuses(rs: seq<ProbeResult>): multiset<int> {
    if |rs| == 0 then multiset{} else Statuses(rs[..|rs| - 1]) + multiset{rs[|rs| - 1].status}
  }

  /** The positions of the results that carry status `s`. */
  function Carrying(rs: seq<ProbeResult>, s: int): set<nat> {
    set i: nat | i < |rs| && rs[i].status == s
  }

  /** The counter holds one count per result, and counts a status as often as
      results carry it. */
  lemma {:induction false} StatusesCount(rs: seq<ProbeResult>, s: int)
    ensures |Statuses(rs)| == |rs|
    ensures Statuses(rs)[s] == |Carrying(rs, s)|
  {
    if |rs| > 0 {
      var n := |rs| - 1;
      StatusesCount(rs[..n], s);
      CarryingStep(rs, s);
    }
  }

  lemma CarryingStep(rs: seq<ProbeResult>, s: int)
    requires |rs| > 0
    ensures var n := |rs| - 1;
      n !in Carrying(rs[..n], s)
      && Carrying(rs, s) == Carrying(rs[..n], s) + (if rs[n].status == s then {n} else {})
  {
    var n := |rs| - 1;
    assert forall i :: 0 <= i < n ==> rs[..n][i] == rs[i];
  }

  lemma StatusesAppend(rs: seq<ProbeResult>, r: ProbeResult)
    ensures Statuses(rs + [r]) == Statuses(rs) + multiset{r.status}
  {
    assert (rs + [r])[..|rs|] == rs;
  }

  /** The results in a queue, in order, without the end-of-scan marker. */
  function Values(q: seq<Option<ProbeResult>>): seq<ProbeResult> {
    if |q| == 0 then []
    else (if q[0].Some? then [q[0].value] else []) + Values(q[1..])
  }

  lemma {:induction false} ValuesAppend(q: seq<Option<ProbeResult>>, r: seq<Option<ProbeResult>>)
    ensures Values(q + r) == Values(q) + Values(r)
  {
    if |q| == 0 {
      assert q + r == r;
    } else {
      var x := if q[0].Some? then [q[0].value] else [];
      assert (q + r)[0] == q[0];
      assert (q + r)[1..] == q[1..] + r;
      ValuesAppend(q[1..], r);
      assert Values(q + r) == x + (Values(q[1..]) + Values(r));
      SeqAssoc(x, Values(q[1..]), Values(r));
    }
  }

  lemma SeqAssoc<T>(a: seq<T>, b: seq<T>, c: seq<T>)
    ensures a + (b + c) == (a + b) + c
  {
  }

  /** The results as the worker puts them in the queue. */
  function Enqueued(rs: seq<ProbeResult>): (q: seq<Option<ProbeResult>>)
    ensures |q| == |rs| && None !in q
    ensures Values(q) == rs
  {
    if |rs| == 0 then []
    else
      var q := [Some(rs[0])] + Enqueued(rs[1..]);
      assert q[1..] == Enqueued(rs[1..]);
      q
  }

  /** What the worker's closure holds: the base, the paths, the filter
      configuration and the HTTP client. */
  datatype Job = Job(base: string, paths: seq<string>, cfg: FilterConfig, probe: Prober)

  /** The results of the first `n` paths of a job. */
  function Collected(job: Job, n: nat): seq<ProbeResult>
    requires SimpleJob(job.base, job.paths) && n <= |job.paths|
  {
    SimplePathsPrefix(job.paths, n);
    ScanResults(job.base, job.paths[..n], job.probe, job.cfg)
  }

  /** The shapes the queue takes: the end marker is only ever last, it is
      there exactly while the scan is on but the worker is through, and the
      queue is empty when no scan runs. */
  predicate QueueShape(q: seq<Option<ProbeResult>>, scanning: bool, alive: bool, allDone: bool) {
    && (alive ==> scanning && None !in q)
    && (scanning && !alive ==> allDone && |q| > 0 && q[|q| - 1] == None && None !in q[..|q| - 1])
    && (!scanning ==> !alive && q == [])
  }

  /** The worker queues a result: the queue keeps its shape and hands over
      the result after the ones already waiting. */
  lemma PutResults(q: seq<Option<ProbeResult>>, shown: seq<ProbeResult>, results: seq<ProbeResult>, before: seq<ProbeResult>)
    requires QueueShape(q, true, true, false) && results + Values(q) == before
    ensures QueueShape(q + Enqueued(shown), true, true, false)
    ensures results + Values(q + Enqueued(shown)) == before + shown
  {
    var e := Enqueued(shown);
    ValuesAppend(q, e);
    SeqAssoc(results, Values(q), shown);
    assert None !in q + e by {
      assert forall x :: x in q + e ==> x in q || x in e;
    }
  }

  /** The worker puts its end marker. */
  lemma PutMarker(q: seq<Option<ProbeResult>>)
    requires QueueShape(q, true, true, false)
    ensures QueueShape(q + [None], true, false, true)
    ensures Values(q + [None]) == Values(q)
  {
    ValuesAppend(q, [None]);
    assert (q + [None])[..|q|] == q;
  }

  /** The timer takes the end marker: it is the only item, and comes only
      once the worker is through. */
  lemma TakeMarker(q: seq<Option<ProbeResult>>, scanning: bool, alive: bool, allDone: bool)
    requires QueueShape(q, scanning, alive, allDone) && |q| > 0 && q[0].None?
    ensures q == [None] && scanning && !alive && allDone
  {
    FirstInFront(q);
  }

  lemma FirstInFront<T>(q: seq<T>)
    requires |q| > 0
    ensures |q| > 1 ==> q[0] in q[..|q| - 1]
  {
    if |q| > 1 {
      assert q[..|q| - 1][0] == q[0];
    }
  }

  /** The timer takes a result: the queue keeps its shape, and the result
      moves from the queue to the end of the results. */
  lemma TakeResult(q: seq<Option<ProbeResult>>, scanning: bool, alive: bool, allDone: bool,
                   results: seq<ProbeResult>, collected: seq<ProbeResult>)
    requires QueueShape(q, scanning, alive, allDone) && |q| > 0 && q[0].Some?
    requires results + Values(q) == collected
    ensures QueueShape(q[1..], scanning, alive, allDone)
    ensures (results + [q[0].value]) + Values(q[1..]) == collected
  {
    if |q| >= 2 {
      assert q[1..][..|q| - 2] == q[1..|q| - 1];
      assert q[..|q| - 1] == [q[0]] + q[1..|q| - 1];
    }
    assert Values(q) == [q[0].value] + Values(q[1..]);
    SeqAssoc(results, [q[0].value], Values(q[1..]));
  }

  /** How `start_scan` ends. */
  datatype StartOutcome =
    | AlreadyScanning    // a scan is running: nothing happens
    | MissingUrl         // the URL field is blank
    | WordlistNotFound   // the wordlist file does not exist
    | WordlistEmpty      // the wordlist yields no path
    | Started            // the worker is running

  /** `text.strip() or None`, as the window reads a filter field. */
  function FieldValue(text: string): Option<string> {
    if Strip(text) == "" then None else Some(Strip(text))
  }

  /** The filter configuration the window builds from its four fields. */
  function WindowConfig(mcText: string, msText: string, fcText: string, fsText: string): FilterConfig {
    BuildFilterConfig(FieldValue(mcText), FieldValue(msText), FieldValue(fcText), FieldValue(fsText),
                      Some(Config.DefaultMatchCodes))
  }

  /** A blank field counts as not given; a blank match-codes field thus
      falls back to the default codes. */
  lemma BlankFieldsUseDefaults(mcText: string, msText: string, fcText: string, fsText: string)
    requires Strip(mcText) == "" && Strip(msText) == "" && Strip(fcText) == "" && Strip(fsText) == ""
    ensures WindowConfig(mcText, msText, fcText, fsText)
      == BuildFilterConfig(None, None, None, None, Some(Config.DefaultMatchCodes))
    ensures WindowConfig(mcText, msText, fcText, fsText).matchSizes.None?
    ensures WindowConfig(mcText, msText, fcText, fsText).filterCodes.None?
    ensures WindowConfig(mcText, msText, fcText, fsText).filterSizes.None?
  {
  }

  /** The state of the scanner window: the fields of `WebPathScanApp` that
      the scan touches, and `job`, the closure of the worker last started;
      `workerAlive` says whether that worker's loop has not yet put its end
      marker. */
  datatype Window = Window(
    results: seq<ProbeResult>,
    statusCounter: multiset<int>,
    resultQueue: seq<Option<ProbeResult>>,
    isScanning: bool,
    totalPaths: nat,
    donePaths: nat,
    workerAlive: bool,
    job: Job)

  /** What the window keeps true between events: the counter counts the
      statuses of the results; `done_paths` never passes `total_paths`; the
      queue has one of its shapes; and the results together with what waits
      in the queue are what the job has collected from the paths done so
      far. */
  predicate Inv(w: Window) {
    && w.statusCounter == Statuses(w.results)
    && w.totalPaths == |w.job.paths| && w.donePaths <= w.totalPaths
    && SimpleJob(w.job.base, w.job.paths)
    && QueueShape(w.resultQueue, w.isScanning, w.workerAlive, w.donePaths == w.totalPaths)
    && w.results + Values(w.resultQueue) == Collected(w.job, w.donePaths)
  }

  /** The window as `__init__` leaves it. */
  function Initial(): (w: Window)
    ensures Inv(w) && !w.isScanning && w.results == [] && w.resultQueue == []
  {
    Window([], multiset{}, [], false, 0, 0, false,
           Job("", [], FilterConfig(None, None, None, None), (u: string) => None))
  }

  // --- start_scan

  /** How `start_scan` ends, for the window `w`, the URL field, and the
      wordlist file (`None` when it does not exist). */
  function StartOutcomeOf(w: Window, urlText: string, wordlist: Option<seq<string>>): StartOutcome {
    if w.isScanning then AlreadyScanning
    else if Strip(urlText) == "" then MissingUrl
    else if wordlist.None? then WordlistNotFound
    else if Normalized(wordlist.value) == [] then WordlistEmpty
    else Started
  }

  /** The window after `start_scan`, given also the filter configuration
      built from the window's four filter fields and the HTTP client. */
  function Start(w: Window, urlText: string, wordlist: Option<seq<string>>,
                 cfg: FilterConfig,
                 probe: Prober): Window
  {
    if StartOutcomeOf(w, urlText, wordlist) != Started then w
    else
      var paths := Normalized(wordlist.value);
      var job := Job(NormalizeBase(Strip(urlText)), paths, cfg, probe);
      Window([], multiset{}, w.resultQueue, true, |paths|, 0, true, job)
  }

  /** The guards of `start_scan` come in order, and only a started scan
      changes the window: it clears the results and the counter, starts
      counting from zero and runs the worker on the wordlist's paths from
      the stripped URL's base; nothing is left in the queue. */
  lemma StartEffect(w: Window, urlText: string, wordlist: Option<seq<string>>,
                    cfg: FilterConfig, probe: Prober)
    requires Inv(w)
    ensures var outcome := StartOutcomeOf(w, urlText, wordlist);
      var w' := Start(w, urlText, wordlist, cfg, probe);
      && (w.isScanning <==> outcome == AlreadyScanning)
      && (!w.isScanning && Strip(urlText) == "" <==> outcome == MissingUrl)
      && (!w.isScanning && Strip(urlText) != "" && wordlist.None? <==> outcome == WordlistNotFound)
      && ((!w.isScanning && Strip(urlText) != "" && wordlist.Some? && Normalized(wordlist.value) == [])
            <==> outcome == WordlistEmpty)
      && (outcome != Started ==> w' == w)
      && (outcome == Started ==>
            && w'.results == [] && w'.statusCounter == multiset{} && w'.resultQueue == []
            && w'.isScanning && w'.workerAlive && w'.donePaths == 0
            && w'.totalPaths == |Normalized(wordlist.value)|
            && w'.job.paths == Normalized(wordlist.value)
            && w'.job.base == NormalizeBase(Strip(urlText))
            && w'.job.cfg == cfg
            && w'.job.probe == probe)
  {
  }

  /** `start_scan` changes the window only when the scan starts, and then as
      `Start` says. */
  lemma StartCases(w: Window, urlText: string, wordlist: Option<seq<string>>,
                   cfg: FilterConfig, probe: Prober)
    ensures StartOutcomeOf(w, urlText, wordlist) != Started ==>
      Start(w, urlText, wordlist, cfg, probe) == w
    ensures StartOutcomeOf(w, urlText, wordlist) == Started ==>
      && wordlist.Some?
      && Start(w, urlText, wordlist, cfg, probe)
         == Window([], multiset{}, w.resultQueue, true, |Normalized(wordlist.value)|, 0, true,
                   Job(NormalizeBase(Strip(urlText)), Normalized(wordlist.value),
                       cfg, probe))
  {
  }

  lemma StartInv(w: Window, urlText: string, wordlist: Option<seq<string>>,
                 cfg: FilterConfig, probe: Prober)
    requires Inv(w)
    requires Strip(urlText) != "" && wordlist.Some? ==>
      SimpleJob(NormalizeBase(Strip(urlText)), Normalized(wordlist.value))
    ensures Inv(Start(w, urlText, wordlist, cfg, probe))
  {
    if StartOutcomeOf(w, urlText, wordlist) == Started {
      FreshJobInv(w.resultQueue, Start(w, urlText, wordlist, cfg, probe).job);
    }
  }

  /** A job just started: nothing collected yet, and nothing queued. */
  lemma FreshJobInv(q: seq<Option<ProbeResult>>, job: Job)
    requires q == [] && SimpleJob(job.base, job.paths)
    ensures Inv(Window([], multiset{}, q, true, |job.paths|, 0, true, job))
  {
    assert job.paths[..0] == [];
  }

  // --- the worker

  /** The URL of the `n`th path of a job. */
  function NextTarget(job: Job, n: nat): string {
    if n < |job.paths| && SimpleJob(job.base, job.paths) then
      SimplePathsAt(job.paths, n);
      Target(job.base, job.paths[n])
    else ""
  }

  /** The `n`th path of a job adds what the filters show of its response to
      what the job has collected. */
  lemma CollectedStep(job: Job, n: nat)
    requires SimpleJob(job.base, job.paths) && n < |job.paths|
    ensures Collected(job, n + 1) == Collected(job, n) + Shown(job.probe(NextTarget(job, n)), job.cfg)
  {
    SimplePathsAt(job.paths, n);
    ScanResultsStep(job.base, job.paths, n, job.probe, job.cfg);
  }

  /** Queueing what the filters show of a response puts the response in
      the queue when they show it, and nothing otherwise. */
  lemma QueueShown(q: seq<Option<ProbeResult>>, res: Option<ProbeResult>, cfg: FilterConfig)
    ensures q + Enqueued(Shown(res, cfg)) == if res.Some? && ShouldShow(res.value, cfg) then q + [Some(res.value)] else q
  {
    if res.Some? && ShouldShow(res.value, cfg) {
      assert Enqueued([res.value]) == [Some(res.value)] + Enqueued([]);
    } else {
      assert q + [] == q;
    }
  }

  /** The URL one turn of the worker's loop requests, if any. */
  function Requested(w: Window): Option<string> {
    if !w.isScanning || w.donePaths >= |w.job.paths| then None
    else Some(NextTarget(w.job, w.donePaths))
  }

  /** The window after one turn of the worker's loop: while the scan is on
      and a path is left, mark it done, probe it and queue its result if
      the filters show it; otherwise put the end marker and stop. */
  function WorkerTurn(w: Window): Window {
    if !w.isScanning || w.donePaths >= |w.job.paths| then
      w.(resultQueue := w.resultQueue + [None], workerAlive := false)
    else
      var shown := Shown(w.job.probe(NextTarget(w.job, w.donePaths)), w.job.cfg);
      w.(donePaths := w.donePaths + 1, resultQueue := w.resultQueue + Enqueued(shown))
  }

  /** A turn only ever touches the queue, `done_paths` and whether the worker
      runs; it requests the next path exactly when one is left (the stop
      check never fires while the worker runs), and queues that path's
      result if the filters show it, or else the end marker. */
  lemma WorkerTurnEffect(w: Window)
    requires Inv(w) && w.workerAlive
    ensures var w' := WorkerTurn(w);
      var requested := Requested(w);
      && w'.results == w.results && w'.statusCounter == w.statusCounter
      && w'.isScanning == w.isScanning && w'.job == w.job && w'.totalPaths == w.totalPaths
      && (requested.Some? <==> w.donePaths < w.totalPaths)
      && (w'.workerAlive <==> w.donePaths < w.totalPaths)
      && (requested.Some? ==>
            && SimpleRelative(RelativePath(w.job.paths[w.donePaths]))
            && requested.value == Target(w.job.base, w.job.paths[w.donePaths])
            && w'.donePaths == w.donePaths + 1
            && Values(w'.resultQueue) == Values(w.resultQueue) + Shown(w.job.probe(requested.value), w.job.cfg))
      && (requested.None? ==> w'.donePaths == w.donePaths && w'.resultQueue == w.resultQueue + [None])
  {
    if w.donePaths < w.totalPaths {
      SimplePathsAt(w.job.paths, w.donePaths);
      var url := NextTarget(w.job, w.donePaths);
      ValuesAppend(w.resultQueue, Enqueued(Shown(w.job.probe(url), w.job.cfg)));
    }
  }

  lemma WorkerTurnInv(w: Window)
    requires Inv(w) && w.workerAlive
    ensures Inv(WorkerTurn(w))
  {
    var next := WorkerTurn(w);
    if w.donePaths == |w.job.paths| {
      MarkerInv(w);
      assert next == w.(resultQueue := w.resultQueue + [None], workerAlive := false);
    } else {
      var n := w.donePaths;
      CollectedStep(w.job, n);
      var shown := Shown(w.job.probe(NextTarget(w.job, n)), w.job.cfg);
      AdvanceInv(w, shown);
      assert next == w.(donePaths := n + 1, resultQueue := w.resultQueue + Enqueued(shown));
    }
  }

  /** The worker through with its paths puts the end marker. */
  lemma MarkerInv(w: Window)
    requires Inv(w) && w.workerAlive && w.donePaths == |w.job.paths|
    ensures Inv(w.(resultQueue := w.resultQueue + [None], workerAlive := false))
  {
    PutMarker(w.resultQueue);
  }

  /** The worker marks the next path done and queues what is shown of it. */
  lemma AdvanceInv(w: Window, shown: seq<ProbeResult>)
    requires Inv(w) && w.workerAlive && w.donePaths < |w.job.paths|
    requires Collected(w.job, w.donePaths + 1) == Collected(w.job, w.donePaths) + shown
    ensures Inv(w.(donePaths := w.donePaths + 1, resultQueue := w.resultQueue + Enqueued(shown)))
  {
    PutResults(w.resultQueue, shown, w.results, Collected(w.job, w.donePaths));
  }

  /** The worker's turns from `w` to its end marker. */
  function WorkerRun(w: Window): Window
    decreases PathsLeft(w), w.workerAlive
  {
    if !w.workerAlive then w else WorkerRun(WorkerTurn(w))
  }

  /** The paths the worker has yet to go through. */
  function PathsLeft(w: Window): nat {
    if w.donePaths <= |w.job.paths| then |w.job.paths| - w.donePaths else 0
  }

  /** One turn brings the worker one turn closer to the same end. */
  lemma WorkerRunStep(w: Window)
    requires Inv(w) && w.workerAlive
    ensures Inv(WorkerTurn(w)) && WorkerRun(WorkerTurn(w)) == WorkerRun(w)
  {
    WorkerTurnInv(w);
  }

  /** A running worker, left to itself, goes through every remaining path
      and puts its end marker: the results and the queue then hold what the
      whole job collects, and nothing else in the window changes. */
  lemma {:induction false} WorkerRunEffect(w: Window)
    requires Inv(w) && w.workerAlive
    ensures var w' := WorkerRun(w);
      && Inv(w')
      && w'.results == w.results && w'.statusCounter == w.statusCounter
      && w'.job == w.job && w'.totalPaths == w.totalPaths
      && w'.isScanning && !w'.workerAlive && w'.donePaths == w'.totalPaths
      && w'.results + Values(w'.resultQueue) == ScanResults(w.job.base, w.job.paths, w.job.probe, w.job.cfg)
    decreases w.totalPaths - w.donePaths
  {
    WorkerTurnInv(w);
    WorkerTurnEffect(w);
    var next := WorkerTurn(w);
    assert WorkerRun(w) == WorkerRun(next);
    if next.workerAlive {
      WorkerRunEffect(next);
    } else {
      assert WorkerRun(next) == next;
      assert w.job.paths[..w.donePaths] == w.job.paths;
    }
  }

  // --- the timer callback

  /** The window after one `get_nowait` of the timer callback: the end
      marker ends the scan; a result is appended to the results and its
      status counted. */
  function Take(w: Window): Window
    requires |w.resultQueue| > 0
  {
    var item := w.resultQueue[0];
    if item.None? then
      w.(resultQueue := w.resultQueue[1..], isScanning := false)
    else
      w.(resultQueue := w.resultQueue[1..], results := w.results + [item.value],
         statusCounter := w.statusCounter + multiset{item.value.status})
  }

  /** The end marker is the last item and ends the scan with the queue
      empty; a result moves from the head of the queue to the end of the
      results, so the results plus the queue stay the same list. */
  lemma TakeEffect(w: Window)
    requires Inv(w) && |w.resultQueue| > 0
    ensures var w' := Take(w);
      && w'.job == w.job && w'.donePaths == w.donePaths && w'.totalPaths == w.totalPaths
      && w'.workerAlive == w.workerAlive
      && w'.resultQueue == w.resultQueue[1..]
      && (w.resultQueue[0].None? ==> !w'.isScanning && w'.resultQueue == [] && w'.results == w.results)
      && (w.resultQueue[0].Some? ==>
            w'.isScanning == w.isScanning && w'.results == w.results + [w.resultQueue[0].value])
      && w'.results + Values(w'.resultQueue) == w.results + Values(w.resultQueue)
  {
    var q := w.resultQueue;
    if q[0].None? {
      TakeMarker(q, w.isScanning, w.workerAlive, w.donePaths == w.totalPaths);
    } else {
      TakeResult(q, w.isScanning, w.workerAlive, w.donePaths == w.totalPaths, w.results, w.results + Values(q));
    }
  }

  lemma TakeInv(w: Window)
    requires Inv(w) && |w.resultQueue| > 0
    ensures Inv(Take(w))
  {
    var q := w.resultQueue;
    var collected := Collected(w.job, w.donePaths);
    if q[0].None? {
      TakeMarker(q, w.isScanning, w.workerAlive, w.donePaths == w.totalPaths);
    } else {
      TakeResult(q, w.isScanning, w.workerAlive, w.donePaths == w.totalPaths, w.results, collected);
      StatusesAppend(w.results, q[0].value);
    }
  }

  /** The timer's takes from `w` until the queue is empty or the end marker
      comes. */
  function Drain(w: Window): Window
    decreases |w.resultQueue|
  {
    if w.resultQueue == [] then w
    else if w.resultQueue[0].None? then Take(w)
    else Drain(Take(w))
  }

  /** One take brings the timer one take closer to the same end. */
  lemma DrainStep(w: Window)
    requires Inv(w) && |w.resultQueue| > 0
    ensures Inv(Take(w))
    ensures Drain(w) == if w.resultQueue[0].None? then Take(w) else Drain(Take(w))
  {
    TakeInv(w);
  }

  /** Draining moves every queued result, in order, to the end of the
      results, counting each; the scan ends exactly when the end marker was
      in the queue; and the worker's side of the window stays as it is. */
  lemma {:induction false} DrainEffect(w: Window)
    requires Inv(w)
    ensures var w' := Drain(w);
      && w'.resultQueue == []
      && w'.results == w.results + Values(w.resultQueue)
      && (w'.isScanning <==> w.isScanning && None !in w.resultQueue)
      && w'.job == w.job && w'.donePaths == w.donePaths && w'.totalPaths == w.totalPaths
      && w'.workerAlive == w.workerAlive
    decreases |w.resultQueue|
  {
    if w.resultQueue != [] {
      TakeInv(w);
      TakeEffect(w);
      var next := Take(w);
      var q := w.resultQueue;
      if q[0].None? {
        assert Drain(w) == next;
        assert q == [None];
      } else {
        assert Drain(w) == Drain(next);
        DrainEffect(next);
        assert None !in q <==> None !in q[1..];
        assert Values(q) == [q[0].value] + Values(q[1..]);
        SeqAssoc(w.results, [q[0].value], Values(q[1..]));
      }
    }
  }

  lemma {:induction false} DrainInv(w: Window)
    requires Inv(w)
    ensures Inv(Drain(w))
    decreases |w.resultQueue|
  {
    if w.resultQueue != [] {
      TakeInv(w);
      if w.resultQueue[0].Some? {
        assert Drain(w) == Drain(Take(w));
        DrainInv(Take(w));
      }
    }
  }

  // --- a whole session

  /** Start a scan, let the worker run to its end marker, then let the timer
      drain the queue. */
  function Session(w: Window, urlText: string, lines: seq<string>,
                   mcText: string, msText: string, fcText: string, fsText: string,
                   probe: Prober): Window
  {
    var started := Start(w, urlText, Some(lines), WindowConfig(mcText, msText, fcText, fsText), probe);
    if StartOutcomeOf(w, urlText, Some(lines)) != Started then started
    else Drain(WorkerRun(started))
  }

  /** After a session on an idle window, the window shows exactly what
      `scan_sync` collects from the same URL, paths, filters and HTTP
      client, one count per result, and the scan is over. */
  lemma SessionMatchesScanSync(w: Window, urlText: string, lines: seq<string>,
                               mcText: string, msText: string, fcText: string, fsText: string,
                               probe: Prober)
    requires Inv(w) && !w.isScanning
    requires Strip(urlText) != "" ==> SimpleJob(NormalizeBase(Strip(urlText)), Normalized(lines))
    ensures var w' := Session(w, urlText, lines, mcText, msText, fcText, fsText, probe);
      && Inv(w') && !w'.isScanning
      && (StartOutcomeOf(w, urlText, Some(lines)) == Started <==> Strip(urlText) != "" && Normalized(lines) != [])
      && (StartOutcomeOf(w, urlText, Some(lines)) == Started ==>
            && w'.results == ScanResults(NormalizeBase(Strip(urlText)), Normalized(lines), probe,
                                         WindowConfig(mcText, msText, fcText, fsText))
            && |w'.statusCounter| == |w'.results|
            && w'.donePaths == w'.totalPaths == |Normalized(lines)|)
  {
    StartInv(w, urlText, Some(lines), WindowConfig(mcText, msText, fcText, fsText), probe);
    StartEffect(w, urlText, Some(lines), WindowConfig(mcText, msText, fcText, fsText), probe);
    var started := Start(w, urlText, Some(lines), WindowConfig(mcText, msText, fcText, fsText), probe);
    if StartOutcomeOf(w, urlText, Some(lines)) == Started {
      WorkerRunEffect(started);
      var ran := WorkerRun(started);
      DrainEffect(ran);
      DrainInv(ran);
      StatusesCount(Drain(ran).results, 0);
    }
  }
}
