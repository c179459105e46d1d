/** The scan loop of gui.py: the URL of each path, and `scan_sync`, the
    loop the command line uses.

    The HTTP client is a `Prober` given by the caller. `urljoin` is modelled
    only where it is plain concatenation: a base URL that ends in `/` and a
    relative path without a scheme, query, fragment, parameters or dot
    segments. */
module Scanner {
  import opened Wrappers
  import opened Text
  import opened Probe
  import opened Filters

  // ---------------------------------------------------------------------
  // Targets

  /** `base_url.rstrip("/") + "/"`. */
  function NormalizeBase(url: string): string {
    RStripChar(url, '/') + "/"
  }

  /** The base is the URL with all its trailing slashes replaced by exactly
      one. */
  lemma NormalizeBaseShape(url: string)
    ensures var b := NormalizeBase(url);
      && |b| > 0 && b[|b| - 1] == '/'
      && (|b| == 1 || b[|b| - 2] != '/')
      && |b| - 1 <= |url| && b[..|b| - 1] == url[..|b| - 1]
      && forall i :: |b| - 1 <= i < |url| ==> url[i] == '/'
  {
    var r := RStripChar(url, '/');
    assert (r + "/")[..|r|] == r;
  }

  /** Normalising twice changes nothing. */
  lemma NormalizeBaseIdempotent(url: string)
    ensures NormalizeBase(NormalizeBase(url)) == NormalizeBase(url)
  {
    var r := RStripChar(url, '/');
    assert (r + "/")[..|r|] == r;
  }

  /** A base URL with or without a trailing slash gives the same base. */
  lemma NormalizeBaseTrailingSlash(url: string)
    ensures NormalizeBase(url + "/") == NormalizeBase(url)
  {
    assert (url + "/")[..|url|] == url;
  }

  /** `path.lstrip("/")`: the path relative to the base. */
  function RelativePath(path: string): string {
    LStripChar(path, '/')
  }

  /** A segment that `urljoin` keeps as it is between two slashes. */
  predicate PlainSegment(seg: string) {
    seg != "" && seg != "." && seg != ".."
  }

  /** Segments `urljoin` leaves as they are: none is a dot segment, and
      none but the last is empty. */
  predicate PlainSegments(segs: seq<string>) {
    |segs| == 0
    || ((PlainSegment(segs[0]) || (|segs| == 1 && segs[0] == "")) && PlainSegments(segs[1..]))
  }

  /** What follows `http://` or `https://`; empty for any other scheme. */
  function AfterScheme(url: string): string {
    if |url| >= 7 && url[..7] == "http://" then url[7..]
    else if |url| >= 8 && url[..8] == "https://" then url[8..]
    else ""
  }

  /** Characters `urlsplit` deletes wherever they occur: tab, carriage
      return and line feed. */
  predicate NoUnsafeBytes(s: string) {
    '\t' !in s && '\r' !in s && '\n' !in s
  }

  /** A base URL for which `urljoin` appends: a lower-case `http` or `https`
      URL whose authority and path segments are plain, which ends in `/`, and
      which has no query, fragment or parameters, no tab or line break (which
      `urlsplit` deletes) and no `[` or `]` (which `urlsplit` rejects unless
      they enclose an IPv6 address). */
  predicate SimpleBase(base: string) {
    var rest := AfterScheme(base);
    var segs := Split(rest, '/');
    && '?' !in rest && '#' !in rest && ';' !in rest
    && NoUnsafeBytes(rest) && '[' !in rest && ']' !in rest
    && |segs| >= 2 && segs[|segs| - 1] == "" && PlainSegments(segs)
  }

  /** A relative path `urljoin` appends unchanged: no scheme separator, query,
      fragment or parameters, plain segments, no leading space or control
      character (which `urlsplit` strips) and no tab or line break (which it
      deletes). */
  predicate SimpleRelative(rel: string) {
    && ':' !in rel && '?' !in rel && '#' !in rel && ';' !in rel
    && (rel == [] || rel[0] > ' ') && NoUnsafeBytes(rel)
    && PlainSegments(Split(rel, '/'))
  }

  /** `urljoin(base, rel)` where it is concatenation. */
  function JoinUrl(base: string, rel: string): string
    requires SimpleBase(base) && SimpleRelative(rel)
  {
    base + rel
  }

  /** The joined URL's segments after the scheme are the base's, without its
      final empty one, followed by the relative path's: the joined path has
      plain segments, which is why `urljoin` leaves it as it is. */
  lemma JoinedSegments(base: string, rel: string)
    requires SimpleBase(base) && SimpleRelative(rel)
    ensures AfterScheme(JoinUrl(base, rel)) == AfterScheme(base) + rel
    ensures var segs := Split(AfterScheme(base), '/');
      Split(AfterScheme(base) + rel, '/') == segs[..|segs| - 1] + Split(rel, '/')
  {
    AfterSchemeAppend(base, rel);
    SegmentsAppend(AfterScheme(base), rel);
  }

  /** Appending to an `http` or `https` URL appends to what follows the
      scheme. */
  lemma AfterSchemeAppend(base: string, rel: string)
    requires SimpleBase(base)
    ensures AfterScheme(base + rel) == AfterScheme(base) + rel
  {
    assert Split("", '/') == [""];
    var u := base + rel;
    var pre := if |base| >= 7 && base[..7] == "http://" then 7 else 8;
    assert base[..pre] == u[..pre];
    assert u[pre..] == base[pre..] + rel;
  }

  /** Pieces of a `/`-terminated text followed by more text: the final empty
      piece gives way to the pieces of the text appended. */
  lemma SegmentsAppend(rest: string, rel: string)
    requires var segs := Split(rest, '/'); |segs| >= 2 && segs[|segs| - 1] == ""
    ensures var segs := Split(rest, '/');
      Split(rest + rel, '/') == segs[..|segs| - 1] + Split(rel, '/')
  {
    JoinSplitEnd(rest);
    var x := rest[..|rest| - 1];
    assert rest == x + ['/'] + "";
    SplitAppend(x, "", '/');
    assert rest + rel == x + ['/'] + rel;
    SplitAppend(x, rel, '/');
  }

  /** A base's rest after the scheme ends in `/`. */
  lemma JoinSplitEnd(rest: string)
    requires var segs := Split(rest, '/'); |segs| >= 2 && segs[|segs| - 1] == ""
    ensures |rest| > 0 && rest[|rest| - 1] == '/'
  {
    JoinSplit(rest, '/');
    JoinLast(Split(rest, '/'), '/');
  }

  /** Joining at least two pieces whose last is empty ends in the separator. */
  lemma {:induction false} JoinLast(parts: seq<string>, sep: char)
    requires |parts| >= 2 && parts[|parts| - 1] == ""
    ensures var s := Join(parts, sep); |s| > 0 && s[|s| - 1] == sep
  {
    if |parts| == 2 {
      assert Join(parts, sep) == parts[0] + [sep] + Join(parts[1..], sep);
      assert Join(parts[1..], sep) == "";
    } else {
      JoinLast(parts[1..], sep);
    }
  }

  /** A wordlist path that, made relative, `urljoin` appends. */
  predicate SimplePath(path: string) {
    SimpleRelative(RelativePath(path))
  }

  /** Every path of a list is one `urljoin` appends. */
  predicate SimplePaths(paths: seq<string>) {
    forall k :: 0 <= k < |paths| ==> SimplePath(paths[k])
  }

  lemma SimplePathsAt(paths: seq<string>, k: nat)
    requires SimplePaths(paths) && k < |paths|
    ensures SimpleRelative(RelativePath(paths[k]))
  {
    assert SimplePath(paths[k]);
  }

  lemma SimplePathsPrefix(paths: seq<string>, n: nat)
    requires SimplePaths(paths) && n <= |paths|
    ensures SimplePaths(paths[..n])
  {
    forall k | 0 <= k < n ensures SimplePath(paths[..n][k]) {
      assert paths[..n][k] == paths[k];
    }
  }

  /** A scan the model covers: the base and every path join by
      concatenation (a scan of no path requests nothing). */
  predicate SimpleJob(base: string, paths: seq<string>) {
    |paths| == 0 || (SimpleBase(base) && SimplePaths(paths))
  }

  /** `urljoin(base, path.lstrip("/"))`. */
  function Target(base: string, path: string): string
    requires SimpleBase(base) && SimpleRelative(RelativePath(path))
  {
    JoinUrl(base, RelativePath(path))
  }

  /** The URL requested for a path is the base followed by the path without
      its leading slashes. */
  lemma TargetShape(base: string, path: string)
    requires SimpleBase(base) && SimpleRelative(RelativePath(path))
    ensures var u := Target(base, path); var r := RelativePath(path);
      && |u| == |base| + |r| && u[..|base|] == base && u[|base|..] == r
      && (r == [] || r[0] != '/')
      && path == path[..|path| - |r|] + r
      && forall i :: 0 <= i < |path| - |r| ==> path[i] == '/'
  {
    var r := RelativePath(path);
    assert path == path[..|path| - |r|] + path[|path| - |r|..];
  }

  /** A worked example: base `http://x.test` and path `/backup`
      request `http://x.test/backup`. */
  lemma TargetExample(url: string, path: string)
    requires url == "http://x.test" && path == "/backup"
    ensures SimpleBase(NormalizeBase(url)) && SimpleRelative(RelativePath(path))
    ensures Target(NormalizeBase(url), path) == "http://x.test/backup"
  {
    ExampleBase(url);
    ExampleRelative(path, "backup");
    ExampleJoin(NormalizeBase(url), RelativePath(path));
  }

  lemma ExampleJoin(base: string, rel: string)
    requires base == "http://x.test/" && rel == "backup"
    ensures base + rel == "http://x.test/backup"
  {
  }

  lemma ExampleBase(url: string)
    requires url == "http://x.test"
    ensures NormalizeBase(url) == "http://x.test/"
    ensures SimpleBase(NormalizeBase(url))
  {
    assert RStripChar(url, '/') == url;
    ExampleRest(NormalizeBase(url), "x.test");
  }

  lemma ExampleRest(b: string, host: string)
    requires b == "http://x.test/" && host == "x.test"
    ensures AfterScheme(b) == host + "/"
    ensures Split(host + "/", '/') == [host, ""]
    ensures SimpleBase(b)
  {
    assert b[..7] == "http://";
    assert b[7..] == host + ['/'] + "";
    OneSegmentBase(b, host);
  }

  /** An `http` or `https` URL whose rest is one plain authority, free of
      URL delimiters, tabs, line breaks and brackets, followed by `/` is a
      simple base. */
  lemma OneSegmentBase(b: string, host: string)
    requires AfterScheme(b) == host + "/" && PlainSegment(host)
    requires '/' !in host && '?' !in host && '#' !in host && ';' !in host
    requires NoUnsafeBytes(host) && '[' !in host && ']' !in host
    ensures Split(host + "/", '/') == [host, ""]
    ensures SimpleBase(b)
  {
    SplitWithoutSep(host, '/');
    SplitAppend(host, "", '/');
    assert host + "/" == host + ['/'] + "";
  }

  lemma ExampleRelative(path: string, rel: string)
    requires path == "/backup" && rel == "backup"
    ensures RelativePath(path) == rel
    ensures SimpleRelative(rel)
  {
    assert path[1..] == rel;
    OneSegmentRelative(rel);
  }

  /** A single plain segment free of URL delimiters, tabs and line breaks,
      and not starting with a space or control character, is a simple
      relative path. */
  lemma OneSegmentRelative(rel: string)
    requires '/' !in rel && ':' !in rel && '?' !in rel && '#' !in rel && ';' !in rel
    requires PlainSegment(rel) && rel[0] > ' ' && NoUnsafeBytes(rel)
    ensures SimpleRelative(rel)
  {
    SplitWithoutSep(rel, '/');
    assert [rel][1..] == [];
  }

  // ---------------------------------------------------------------------
  // The scan loop

  /** What one path contributes: its result, when the probe answered and the
      filters show it. */
  function Shown(res: Option<ProbeResult>, cfg: FilterConfig): seq<ProbeResult> {
    if res.Some? && ShouldShow(res.value, cfg) then [res.value] else []
  }

  /** A path contributes at most one result, and it contributes exactly when
      the probe answered with a result the filters show. */
  lemma ShownMeans(res: Option<ProbeResult>, cfg: FilterConfig)
    ensures |Shown(res, cfg)| <= 1
    ensures Shown(res, cfg) != [] <==> res.Some? && ShouldShow(res.value, cfg)
    ensures Shown(res, cfg) != [] ==> Shown(res, cfg)[0] == res.value
  {
  }

  /** The URLs a scan of `paths` from `base` requests, in path order. */
  function Targets(base: string, paths: seq<string>): (urls: seq<string>)
    requires SimpleJob(base, paths)
    ensures |urls| == |paths|
  {
    seq(|paths|, k requires 0 <= k < |paths| => Target(base, paths[k]))
  }

  /** The results collected from probing `urls` in order. */
  function Collect(urls: seq<string>, probe: Prober, cfg: FilterConfig): seq<ProbeResult> {
    if |urls| == 0 then []
    else
      var n := |urls| - 1;
      Collect(urls[..n], probe, cfg) + Shown(probe(urls[n]), cfg)
  }

  /** The results a scan of `paths` from `base` collects, in path order. */
  function ScanResults(base: string, paths: seq<string>, probe: Prober, cfg: FilterConfig): seq<ProbeResult>
    requires SimpleJob(base, paths)
  {
    Collect(Targets(base, paths), probe, cfg)
  }

  /** Probing two lists of URLs one after the other collects the two
      results one after the other. */
  lemma {:induction false} CollectAppend(a: seq<string>, b: seq<string>, probe: Prober, cfg: FilterConfig)
    ensures Collect(a + b, probe, cfg) == Collect(a, probe, cfg) + Collect(b, probe, cfg)
  {
    if |b| == 0 {
      assert a + b == a;
    } else {
      var n := |b| - 1;
      var ab := a + b;
      assert ab[..|ab| - 1] == a + b[..n] && ab[|ab| - 1] == b[n];
      CollectAppend(a, b[..n], probe, cfg);
      var ra, rb, last := Collect(a, probe, cfg), Collect(b[..n], probe, cfg), Shown(probe(b[n]), cfg);
      RegroupLast(Collect(ab, probe, cfg), ra, rb, last, Collect(b, probe, cfg));
    }
  }

  lemma RegroupLast<T>(whole: seq<T>, ra: seq<T>, rb: seq<T>, last: seq<T>, b: seq<T>)
    requires whole == (ra + rb) + last && b == rb + last
    ensures whole == ra + b
  {
  }

  /** A URL whose probe fails, or whose result the filters hide,
      contributes nothing wherever it sits in the list. */
  lemma SkippedUrlContributesNothing(a: seq<string>, url: string, b: seq<string>, probe: Prober, cfg: FilterConfig)
    requires Shown(probe(url), cfg) == []
    ensures Collect(a + [url] + b, probe, cfg) == Collect(a + b, probe, cfg)
  {
    CollectAppend(a + [url], b, probe, cfg);
    CollectAppend(a, b, probe, cfg);
    assert (a + [url])[..|a|] == a;
  }

  /** Every collected result is a shown answer of the probe for one of the
      URLs, and there are never more results than URLs. */
  lemma {:induction false} CollectSound(urls: seq<string>, probe: Prober, cfg: FilterConfig)
    ensures |Collect(urls, probe, cfg)| <= |urls|
    ensures forall r :: r in Collect(urls, probe, cfg) ==>
      ShouldShow(r, cfg) && exists k :: 0 <= k < |urls| && probe(urls[k]) == Some(r)
  {
    if |urls| > 0 {
      var n := |urls| - 1;
      CollectSound(urls[..n], probe, cfg);
      forall r | r in Collect(urls, probe, cfg)
        ensures exists k :: 0 <= k < |urls| && probe(urls[k]) == Some(r)
      {
        if r in Collect(urls[..n], probe, cfg) {
          var k :| 0 <= k < n && probe(urls[..n][k]) == Some(r);
          assert urls[..n][k] == urls[k];
        } else {
          assert probe(urls[n]) == Some(r);
        }
      }
    }
  }

  /** Every shown answer of the probe is collected. */
  lemma {:induction false} CollectComplete(urls: seq<string>, probe: Prober, cfg: FilterConfig, k: nat)
    requires k < |urls|
    ensures Shown(probe(urls[k]), cfg) != [] ==> probe(urls[k]).value in Collect(urls, probe, cfg)
  {
    var n := |urls| - 1;
    if k < n {
      assert urls[..n][k] == urls[k];
      CollectComplete(urls[..n], probe, cfg, k);
    }
  }

  /** The URL of the path at `k` is the `k`th one requested. */
  lemma TargetsAt(base: string, paths: seq<string>, k: nat)
    requires SimpleJob(base, paths) && k < |paths|
    ensures SimpleRelative(RelativePath(paths[k]))
    ensures Targets(base, paths)[k] == Target(base, paths[k])
  {
    SimplePathsAt(paths, k);
  }

  /** Scanning one more path adds what is shown of that path's answer. */
  lemma ScanResultsStep(base: string, paths: seq<string>, n: nat, probe: Prober, cfg: FilterConfig)
    requires SimpleJob(base, paths) && n < |paths|
    ensures SimpleJob(base, paths[..n]) && SimpleJob(base, paths[..n + 1])
    ensures SimpleRelative(RelativePath(paths[n]))
    ensures ScanResults(base, paths[..n + 1], probe, cfg)
      == ScanResults(base, paths[..n], probe, cfg) + Shown(probe(Target(base, paths[n])), cfg)
  {
    SimplePathsPrefix(paths, n + 1);
    SimplePathsPrefix(paths, n);
    SimplePathsAt(paths, n);
    var t := Targets(base, paths[..n + 1]);
    assert t[..n] == Targets(base, paths[..n]);
    assert t[n] == Target(base, paths[n]);
  }

  /** Every result of a scan is a shown answer of the probe for one of the
      paths, and there are never more results than paths. */
  lemma ScanResultsSound(base: string, paths: seq<string>, probe: Prober, cfg: FilterConfig)
    requires SimpleJob(base, paths)
    ensures |ScanResults(base, paths, probe, cfg)| <= |paths|
    ensures forall r :: r in ScanResults(base, paths, probe, cfg) ==>
      ShouldShow(r, cfg) && exists p :: p in paths && SimpleRelative(RelativePath(p)) && probe(Target(base, p)) == Some(r)
  {
    var urls := Targets(base, paths);
    CollectSound(urls, probe, cfg);
    forall r | r in ScanResults(base, paths, probe, cfg)
      ensures exists p :: p in paths && SimpleRelative(RelativePath(p)) && probe(Target(base, p)) == Some(r)
    {
      var k :| 0 <= k < |urls| && probe(urls[k]) == Some(r);
      TargetsAt(base, paths, k);
      assert paths[k] in paths;
    }
  }

  /** Every shown answer of the probe for a path is among the scan's results. */
  lemma ScanResultsComplete(base: string, paths: seq<string>, probe: Prober, cfg: FilterConfig, k: nat)
    requires SimpleJob(base, paths) && k < |paths|
    ensures SimpleRelative(RelativePath(paths[k]))
    ensures Shown(probe(Target(base, paths[k])), cfg) != [] ==>
      probe(Target(base, paths[k])).value in ScanResults(base, paths, probe, cfg)
  {
    TargetsAt(base, paths, k);
    CollectComplete(Targets(base, paths), probe, cfg, k);
  }

  /** `scan_sync(base_url, paths, http_client, cfg, on_result)`: the results,
      and the results handed to `on_result`, in the order it is called. */
  method ScanSync(baseUrl: string, paths: seq<string>, probe: Prober, cfg: FilterConfig)
    returns (results: seq<ProbeResult>, reported: seq<ProbeResult>)
    requires SimpleJob(NormalizeBase(baseUrl), paths)
    ensures results == ScanResults(NormalizeBase(baseUrl), paths, probe, cfg)
    ensures reported == results
  {
    results := [];
    reported := [];
    var base := NormalizeBase(baseUrl);
    for k := 0 to |paths|
      invariant SimpleJob(base, paths[..k])
      invariant results == ScanResults(base, paths[..k], probe, cfg)
      invariant reported == results
    {
      ScanResultsStep(base, paths, k, probe, cfg);
      var fullUrl := JoinUrl(base, LStripChar(paths[k], '/'));
      var res := probe(fullUrl);
      if res.None? {
        continue;
      }
      if ShouldShow(res.value, cfg) {
        results := results + [res.value];
        reported := reported + [res.value];
      }
    }
    assert paths[..|paths|] == paths;
  }
}
