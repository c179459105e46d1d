/** The range/set parser and the filter engine (filters.py): a spec such as
    "200,301-303" becomes a set of integers, four optional sets make up a
    filter configuration, and `ShouldShow` accepts or rejects one probe
    result against it. */
module Filters {
  import opened Wrappers
  import opened Text
  import opened Probe
  import Config

  /** `FilterConfig`: `None` in a field means "no constraint of this kind". */
  datatype FilterConfig = FilterConfig(
    matchCodes: Option<set<int>>,
    matchSizes: Option<set<int>>,
    filterCodes: Option<set<int>>,
    filterSizes: Option<set<int>>)

  /** What one comma-separated piece of a range spec means. */
  datatype Token =
    | Blank                    // empty after stripping: ignored
    | Number(n: int)           // a single integer
    | Span(lo: int, hi: int)   // an inclusive range, bounds already in order
    | Malformed                // did not parse: skipped

  /** The inclusive interval `lo..hi` (`range(lo, hi + 1)`). */
  function Interval(lo: int, hi: int): (s: set<int>)
    ensures forall v :: v in s <==> lo <= v <= hi
    decreases hi - lo
  {
    if lo > hi then {} else Interval(lo, hi - 1) + {hi}
  }

  /** The range between two bounds, swapped when written in reverse. */
  function SpanOf(a: int, b: int): (t: Token)
    ensures t.Span? && t.lo <= t.hi
    ensures {t.lo, t.hi} == {a, b}
  {
    if a > b then Span(b, a) else Span(a, b)
  }

  /** Adding the next value to an interval extends it by one. */
  lemma IntervalGrows(lo: int, v: int)
    requires lo <= v
    ensures Interval(lo, v - 1) + {v} == Interval(lo, v)
  {
  }

  /** How `parse_range_list` reads one piece of the spec: strip it first. */
  function ClassifyToken(part: string): Token {
    ClassifyStripped(Strip(part))
  }

  /** A stripped piece: empty is blank; if it holds a `-`, cut at the first
      one and parse both sides; otherwise parse it as a single integer. */
  function ClassifyStripped(p: string): Token {
    if p == "" then Blank
    else if '-' in p then
      var i := FirstIndex(p, '-');
      RangeToken(ParseInt(p[..i]), ParseInt(p[i + 1..]))
    else SingleToken(ParseInt(p))
  }

  /** Both bounds must parse (`int(start_s)`, `int(end_s)`), else the piece is
      skipped. */
  function RangeToken(start: Option<int>, end: Option<int>): Token {
    if start.None? || end.None? then Malformed else SpanOf(start.value, end.value)
  }

  /** A piece without `-` must parse as one integer, else it is skipped. */
  function SingleToken(n: Option<int>): Token {
    if n.None? then Malformed else Number(n.value)
  }

  /** The integers one token adds to the result. */
  function TokenValues(t: Token): set<int> {
    match t
    case Number(n) => {n}
    case Span(lo, hi) => Interval(lo, hi)
    case _ => {}
  }

  /** The tokens the pieces `parts` stand for, in order. */
  function Tokens(parts: seq<string>): (ts: seq<Token>)
    ensures |ts| == |parts|
    ensures forall k :: 0 <= k < |parts| ==> ts[k] == ClassifyToken(parts[k])
  {
    seq(|parts|, k requires 0 <= k < |parts| => ClassifyToken(parts[k]))
  }

  /** The integers a run of tokens adds together, in the order the loop of
      `parse_range_list` visits them. */
  function UnionOf(ts: seq<Token>): set<int> {
    if |ts| == 0 then {}
    else UnionOf(ts[..|ts| - 1]) + TokenValues(ts[|ts| - 1])
  }

  /** The set `parse_range_list(spec)` returns; `None` is Python's `None`. */
  function RangeListSet(spec: Option<string>): set<int> {
    if spec.None? || spec.value == "" then {} else UnionOf(Tokens(Split(spec.value, ',')))
  }

  /** `parse_range_list`: the loop over the comma-separated pieces. */
  method ParseRangeList(spec: Option<string>) returns (result: set<int>)
    ensures spec.None? || spec == Some("") ==> result == {}
    ensures result == RangeListSet(spec)
  {
    result := {};
    if spec.None? || spec.value == "" {
      return;
    }
    var parts := Split(spec.value, ',');
    ghost var ts := Tokens(parts);
    for k := 0 to |parts|
      invariant result == UnionOf(ts[..k])
    {
      UnionOfStep(ts, k);
      result := AddPiece(result, parts[k]);
    }
    assert ts[..|parts|] == ts;
  }

  /** The union over one more token. */
  lemma UnionOfStep(ts: seq<Token>, k: nat)
    requires k < |ts|
    ensures UnionOf(ts[..k + 1]) == UnionOf(ts[..k]) + TokenValues(ts[k])
  {
    assert ts[..k + 1][..k] == ts[..k];
  }

  /** One turn of the loop of `parse_range_list`: add what one piece denotes
      to the set built so far; a blank or malformed piece adds nothing
      (`continue`). */
  method AddPiece(acc: set<int>, part: string) returns (result: set<int>)
    ensures result == acc + TokenValues(ClassifyToken(part))
  {
    result := acc;
    match ClassifyToken(part)
    case Span(lo, hi) =>
      result := AddRange(result, lo, hi);
    case Number(n) =>
      result := result + {n};
    case _ =>
  }

  /** The inner loop `for v in range(start, end + 1): result.add(v)`. */
  method AddRange(acc: set<int>, lo: int, hi: int) returns (result: set<int>)
    ensures result == acc + Interval(lo, hi)
  {
    result := acc;
    var v := lo;
    while v <= hi
      invariant lo <= v && (v <= hi + 1 || v == lo)
      invariant result == acc + Interval(lo, v - 1)
    {
      IntervalGrows(lo, v);
      result := result + {v};
      v := v + 1;
    }
  }

  /** An integer is in a union exactly when some token contributes it. */
  lemma {:induction false} UnionOfMembers(ts: seq<Token>, v: int)
    ensures v in UnionOf(ts) <==> exists k :: 0 <= k < |ts| && v in TokenValues(ts[k])
  {
    if |ts| > 0 {
      var init := ts[..|ts| - 1];
      UnionOfMembers(init, v);
      if v in UnionOf(init) {
        var k :| 0 <= k < |init| && v in TokenValues(init[k]);
        assert ts[k] == init[k];
      }
      if exists k :: 0 <= k < |ts| && v in TokenValues(ts[k]) {
        var k :| 0 <= k < |ts| && v in TokenValues(ts[k]);
        if k < |init| {
          assert init[k] == ts[k];
        }
      }
    }
  }

  /** The union over two runs of tokens is the union of their unions. */
  lemma {:induction false} UnionOfAppend(p: seq<Token>, q: seq<Token>)
    ensures UnionOf(p + q) == UnionOf(p) + UnionOf(q)
  {
    if |q| == 0 {
      assert p + q == p;
    } else {
      var pq := p + q;
      assert pq[..|pq| - 1] == p + q[..|q| - 1];
      assert pq[|pq| - 1] == q[|q| - 1];
      UnionOfAppend(p, q[..|q| - 1]);
    }
  }

  /** The result of `parse_range_list` is the union over all its pieces: a
      value is in it exactly when some piece (a number or a range) yields it;
      blank and malformed pieces yield nothing. */
  lemma RangeListSetMembers(spec: string, v: int)
    requires spec != ""
    ensures v in RangeListSet(Some(spec)) <==>
      exists k :: 0 <= k < |Split(spec, ',')| && v in TokenValues(ClassifyToken(Split(spec, ',')[k]))
  {
    var parts := Split(spec, ',');
    var ts := Tokens(parts);
    UnionOfMembers(ts, v);
    if v in RangeListSet(Some(spec)) {
      var k :| 0 <= k < |ts| && v in TokenValues(ts[k]);
      assert v in TokenValues(ClassifyToken(parts[k]));
    }
  }

  /** Classifying pieces commutes with putting runs of pieces together. */
  lemma TokensAppend(p: seq<string>, q: seq<string>)
    ensures Tokens(p + q) == Tokens(p) + Tokens(q)
  {
  }

  /** The empty spec, split, is one blank piece, which adds nothing. */
  lemma EmptySpecTokens()
    ensures Tokens(Split("", ',')) == [Blank]
    ensures UnionOf([Blank]) == {}
  {
    assert [Blank][..0] == [];
  }

  /** Parsing "a,b" is parsing "a" and "b" and taking the union. */
  lemma RangeListSetConcat(a: string, b: string)
    ensures RangeListSet(Some(a + [','] + b)) == RangeListSet(Some(a)) + RangeListSet(Some(b))
  {
    var pa, pb := Split(a, ','), Split(b, ',');
    SplitAppend(a, b, ',');
    TokensAppend(pa, pb);
    UnionOfAppend(Tokens(pa), Tokens(pb));
    EmptySpecTokens();
  }

  /** A piece that is blank or malformed can be dropped without changing the
      result: the rest of the spec is kept. */
  lemma SkippedTokenDropped(a: string, t: string, b: string)
    requires ',' !in t && (ClassifyToken(t) == Blank || ClassifyToken(t) == Malformed)
    ensures RangeListSet(Some(a + [','] + t + [','] + b)) == RangeListSet(Some(a + [','] + b))
  {
    var tb := t + [','] + b;
    assert a + [','] + t + [','] + b == a + [','] + tb;
    RangeListSetConcat(a, tb);
    SkippedPieceFirst(t, b);
    RangeListSetConcat(a, b);
  }

  /** A blank or malformed first piece can be dropped. */
  lemma SkippedPieceFirst(t: string, b: string)
    requires ',' !in t && (ClassifyToken(t) == Blank || ClassifyToken(t) == Malformed)
    ensures RangeListSet(Some(t + [','] + b)) == RangeListSet(Some(b))
  {
    RangeListSetConcat(t, b);
    SingleTokenSpec(t);
    SkippedAddsNothing(ClassifyToken(t));
    DropEmpty(RangeListSet(Some(t + [','] + b)), RangeListSet(Some(t)), RangeListSet(Some(b)));
  }

  lemma DropEmpty(whole: set<int>, first: set<int>, rest: set<int>)
    requires whole == first + rest && first == {}
    ensures whole == rest
  {
  }

  /** A blank or malformed token adds no value. */
  lemma SkippedAddsNothing(tok: Token)
    requires tok == Blank || tok == Malformed
    ensures TokenValues(tok) == {}
  {
  }

  /** A spec without a comma is a single piece. */
  lemma SingleTokenSpec(t: string)
    requires ',' !in t
    ensures RangeListSet(Some(t)) == TokenValues(ClassifyToken(t))
  {
    if t == "" {
      EmptyPiece(t);
    } else {
      SplitWithoutSep(t, ',');
      OnePiece(t);
    }
  }

  /** The empty piece is blank. */
  lemma EmptyPiece(t: string)
    requires t == ""
    ensures ClassifyToken(t) == Blank
  {
    assert Strip(t) == "";
  }

  /** The union over a single piece is what that piece adds. */
  lemma OnePiece(t: string)
    ensures UnionOf(Tokens([t])) == TokenValues(ClassifyToken(t))
  {
    var ts := Tokens([t]);
    assert ts[..0] == [];
  }

  /** Pieces are stripped before they are read. */
  lemma TokenIgnoresSurroundingSpace(part: string)
    ensures ClassifyToken(part) == ClassifyToken(Strip(part))
  {
    StripIdempotent(part);
  }

  /** A piece holding one decimal number within the digit limit adds that
      number. */
  lemma NumberToken(n: nat)
    requires WithinDigitLimit(n)
    ensures ClassifyToken(NatToString(n)) == Number(n)
  {
    var p := NatToString(n);
    NatToStringDigits(n);
    StripStripped(p);
    ParseIntToString(n);
    DigitsExclude(p, '-');
    assert ClassifyStripped(p) == SingleToken(ParseInt(p));
  }

  /** A piece with a `-` is cut at its first `-`; when either side is not an
      integer the piece is skipped. */
  lemma MalformedRange(sa: string, sb: string)
    requires IsStripped(sa + "-" + sb) && '-' !in sa
    requires ParseInt(sa) == None || ParseInt(sb) == None
    ensures ClassifyToken(sa + "-" + sb) == Malformed
  {
    var p := sa + "-" + sb;
    StripStripped(p);
    DashJoinCut(sa, sb);
  }

  /** A piece without `-` that is not an integer is skipped. */
  lemma MalformedSingle(p: string)
    requires p != "" && IsStripped(p) && '-' !in p && ParseInt(p) == None
    ensures ClassifyToken(p) == Malformed
  {
    StripStripped(p);
  }

  /** A numeral of more than `MaxIntDigits` digits is a `ValueError` for
      `int()`, so a piece holding one is skipped and a spec of it is empty. */
  lemma LongNumeralSkipped(p: string)
    requires IsDigits(p) && |p| > MaxIntDigits
    ensures ClassifyToken(p) == Malformed
    ensures RangeListSet(Some(p)) == {}
  {
    StripStripped(p);
    ParseIntTooLong(p);
    DigitsExclude(p, '-');
    DigitsExclude(p, ',');
    MalformedSingle(p);
    SingleTokenSpec(p);
  }

  /** A range piece with an end of more than `MaxIntDigits` digits is
      skipped. */
  lemma LongRangeSkipped(sa: string, sb: string)
    requires IsDigits(sa) && IsDigits(sb)
    requires |sa| > MaxIntDigits || |sb| > MaxIntDigits
    ensures ClassifyToken(sa + "-" + sb) == Malformed
  {
    StripStripped(sa);
    StripStripped(sb);
    if |sa| > MaxIntDigits {
      ParseIntTooLong(sa);
    } else {
      ParseIntTooLong(sb);
    }
    DashJoinStripped(sa, sb);
    DigitsExclude(sa, '-');
    MalformedRange(sa, sb);
  }

  // The example lemmas take their literal pieces as parameters fixed by a
  // `requires`, and every cut of a literal (`"3-" == "3" + "-" + ""`) or
  // numeral (`NatToString(200) == "200"`) is its own small lemma: stated
  // inline, the verifier evaluates the literals through every function
  // applied to them, and the proof no longer fits its resource bound.

  /** A word is skipped. */
  lemma MalformedWord(p: string)
    requires p == "abc"
    ensures ClassifyToken(p) == Malformed
  {
    assert !IsDigit(p[0]);
    MalformedSingle(p);
  }

  /** A range without an end is skipped. */
  lemma MalformedNoEnd(p: string)
    requires p == "3-"
    ensures ClassifyToken(p) == Malformed
  {
    assert p == "3" + "-" + "";
    ParseIntBlank("");
    MalformedRange("3", "");
  }

  /** A range whose end holds a second `-` is skipped: the piece is cut at
      its first `-`. */
  lemma MalformedTwoDashes(p: string)
    requires p == "1-2-3"
    ensures ClassifyToken(p) == Malformed
  {
    TwoDashesCut(p);
    TwoDashesEnd("2-3");
    MalformedRange("1", "2-3");
  }

  lemma TwoDashesCut(p: string)
    requires p == "1-2-3"
    ensures p == "1" + "-" + "2-3" && IsStripped(p) && '-' !in "1"
  {
    assert p[0] == '1' && p[4] == '3';
  }

  lemma TwoDashesEnd(end: string)
    requires end == "2-3"
    ensures ParseInt(end) == None
  {
    assert end[1] == '-' && end[0] == '2' && !IsSpace(end[0]) && !IsSpace(end[2]);
    NotANumber(end, 1);
  }

  /** A stripped string without a leading sign and with a character that is
      not a digit is not an integer. */
  lemma NotANumber(s: string, i: nat)
    requires i < |s| && !IsDigit(s[i])
    requires !IsSpace(s[0]) && !IsSpace(s[|s| - 1]) && s[0] != '-' && s[0] != '+'
    ensures ParseInt(s) == None
  {
    StripStripped(s);
  }

  /** A negative number is skipped: its start, before the `-`, is empty. */
  lemma MalformedNegative(p: string)
    requires p == "-5"
    ensures ClassifyToken(p) == Malformed
  {
    assert p == "" + "-" + "5";
    ParseIntBlank("");
    MalformedRange("", "5");
  }

  /** "a-b" for two numerals is already stripped. */
  lemma DashJoinStripped(sa: string, sb: string)
    requires |sa| > 0 && |sb| > 0
    requires !IsSpace(sa[0]) && !IsSpace(sb[|sb| - 1])
    ensures Strip(sa + "-" + sb) == sa + "-" + sb
  {
    var p := sa + "-" + sb;
    assert p[0] == sa[0] && p[|p| - 1] == sb[|sb| - 1];
    StripStripped(p);
  }

  /** "a-b" for an `a` without `-` is cut right after `a`. */
  lemma DashJoinCut(sa: string, sb: string)
    requires '-' !in sa
    ensures '-' in sa + "-" + sb && FirstIndex(sa + "-" + sb, '-') == |sa|
    ensures (sa + "-" + sb)[..|sa|] == sa && (sa + "-" + sb)[|sa| + 1..] == sb
  {
    var p := sa + "-" + sb;
    assert p[..|sa|] == sa;
    FirstIndexAt(p, '-', |sa|);
  }

  /** A piece "a-b" adds exactly the inclusive interval between `a` and `b`,
      whichever order the bounds are written in, when both numerals are
      within the digit limit. */
  lemma SpanToken(a: nat, b: nat)
    requires WithinDigitLimit(a) && WithinDigitLimit(b)
    ensures ClassifyToken(NatToString(a) + "-" + NatToString(b)) ==
      if a <= b then Span(a, b) else Span(b, a)
  {
    var sa, sb := NatToString(a), NatToString(b);
    NatToStringDigits(a);
    NatToStringDigits(b);
    DashJoinStripped(sa, sb);
    DigitsExclude(sa, '-');
    DashJoinCut(sa, sb);
    ParseIntToString(a);
    ParseIntToString(b);
    assert ClassifyStripped(sa + "-" + sb) == RangeToken(Some(a), Some(b));
  }

  // ---------------------------------------------------------------------
  // build_filter_config

  /** A size or filter spec: absent or empty means no constraint, anything
      else (even whitespace only) is parsed. */
  function OptionalSet(spec: Option<string>): Option<set<int>> {
    if spec.Some? && spec.value != "" then Some(RangeListSet(spec)) else None
  }

  /** The match-codes spec once an absent or blank one is replaced by the
      default and the result is stripped; `None` when no spec is left. */
  function MatchSpec(mc: Option<string>, defaultMc: Option<string>): Option<string> {
    var chosen := if mc.None? || Strip(mc.value) == "" then defaultMc else mc;
    if chosen.Some? && chosen.value != "" then Some(Strip(chosen.value)) else None
  }

  /** `match_codes` for a resolved spec: "all" (in any case) matches every
      code; otherwise the spec is parsed unless it is absent or empty. */
  function MatchCodes(spec: Option<string>): Option<set<int>> {
    if spec.Some? && spec.value != "" && Lower(spec.value) == "all" then None
    else OptionalSet(spec)
  }

  /** `build_filter_config(mc_str, ms_str, fc_str, fs_str, default_mc_str)`. */
  function BuildFilterConfig(
    mc: Option<string>, ms: Option<string>, fc: Option<string>, fs: Option<string>,
    defaultMc: Option<string>): FilterConfig
  {
    FilterConfig(MatchCodes(MatchSpec(mc, defaultMc)), OptionalSet(ms), OptionalSet(fc), OptionalSet(fs))
  }

  /** The size and filter specs: absent or empty gives no constraint, and any
      other string, even whitespace only, gives the set it parses to. */
  lemma SizeAndFilterSpecs(
    mc: Option<string>, ms: Option<string>, fc: Option<string>, fs: Option<string>,
    defaultMc: Option<string>)
    ensures var cfg := BuildFilterConfig(mc, ms, fc, fs, defaultMc);
      && (cfg.matchSizes.None? <==> ms.None? || ms.value == "")
      && (cfg.filterCodes.None? <==> fc.None? || fc.value == "")
      && (cfg.filterSizes.None? <==> fs.None? || fs.value == "")
      && (cfg.matchSizes.Some? ==> cfg.matchSizes.value == RangeListSet(ms))
      && (cfg.filterCodes.Some? ==> cfg.filterCodes.value == RangeListSet(fc))
      && (cfg.filterSizes.Some? ==> cfg.filterSizes.value == RangeListSet(fs))
  {
  }

  /** An absent or blank match-codes spec is replaced by the default. */
  lemma BlankMatchCodesUseDefault(
    mc: Option<string>, ms: Option<string>, fc: Option<string>, fs: Option<string>,
    defaultMc: Option<string>)
    requires mc.None? || Strip(mc.value) == ""
    ensures BuildFilterConfig(mc, ms, fc, fs, defaultMc) ==
      BuildFilterConfig(defaultMc, ms, fc, fs, defaultMc)
  {
    assert MatchSpec(mc, defaultMc) == MatchSpec(defaultMc, defaultMc);
  }

  /** A given, non-blank match-codes spec is used, stripped. */
  lemma MatchSpecGiven(mc: string, defaultMc: Option<string>)
    requires Strip(mc) != ""
    ensures MatchSpec(Some(mc), defaultMc) == Some(Strip(mc))
  {
    assert |Strip(mc)| <= |mc|;
  }

  /** "all", in any case and with any surrounding whitespace, matches every
      status code. */
  lemma AllMatchesEveryCode(
    mc: string, ms: Option<string>, fc: Option<string>, fs: Option<string>,
    defaultMc: Option<string>)
    requires Lower(Strip(mc)) == "all"
    ensures BuildFilterConfig(Some(mc), ms, fc, fs, defaultMc).matchCodes == None
  {
    assert |Strip(mc)| == |Lower(Strip(mc))| == 3;
    MatchSpecGiven(mc, defaultMc);
  }

  /** Any other non-blank match-codes spec is parsed after stripping; one that
      parses to nothing gives the empty set, not `None`. */
  lemma OtherMatchCodesParsed(
    mc: string, ms: Option<string>, fc: Option<string>, fs: Option<string>,
    defaultMc: Option<string>)
    requires Strip(mc) != "" && Lower(Strip(mc)) != "all"
    ensures BuildFilterConfig(Some(mc), ms, fc, fs, defaultMc).matchCodes ==
      Some(RangeListSet(Some(Strip(mc))))
  {
    MatchSpecGiven(mc, defaultMc);
  }

  /** A whitespace-only size spec is not absent: it parses to the empty set,
      so that `ShouldShow` then rejects every result. */
  lemma BlankSizeSpecIsEmptySet(
    mc: Option<string>, ms: string, fc: Option<string>, fs: Option<string>,
    defaultMc: Option<string>)
    requires ms != "" && Strip(ms) == ""
    ensures BuildFilterConfig(mc, Some(ms), fc, fs, defaultMc).matchSizes == Some({})
  {
    assert ',' !in ms by {
      var t := TrimStart(ms);
      assert TrimEnd(t) == "";
      forall i | 0 <= i < |ms| ensures ms[i] != ',' {
        if i < |ms| - |t| {
          assert IsSpace(ms[i]);
        } else {
          assert ms[i] == t[i - (|ms| - |t|)];
          assert IsSpace(t[i - (|ms| - |t|)]);
        }
      }
    }
    SingleTokenSpec(ms);
  }

  // ---------------------------------------------------------------------
  // should_show

  /** `should_show`: the four checks in the order the source makes them. */
  predicate ShouldShow(r: ProbeResult, cfg: FilterConfig) {
    if cfg.matchCodes.Some? && r.status !in cfg.matchCodes.value then false
    else if cfg.matchSizes.Some? && r.length !in cfg.matchSizes.value then false
    else if cfg.filterCodes.Some? && r.status in cfg.filterCodes.value then false
    else if cfg.filterSizes.Some? && r.length in cfg.filterSizes.value then false
    else true
  }

  /** The four checks of `should_show`, as separate gates. */
  datatype Gate = MatchCode | MatchSize | FilterCode | FilterSize

  predicate Passes(g: Gate, r: ProbeResult, cfg: FilterConfig) {
    match g
    case MatchCode => cfg.matchCodes.None? || r.status in cfg.matchCodes.value
    case MatchSize => cfg.matchSizes.None? || r.length in cfg.matchSizes.value
    case FilterCode => cfg.filterCodes.None? || r.status !in cfg.filterCodes.value
    case FilterSize => cfg.filterSizes.None? || r.length !in cfg.filterSizes.value
  }

  /** Evaluating gates one after another, stopping at the first rejection. */
  predicate PassesInOrder(gates: seq<Gate>, r: ProbeResult, cfg: FilterConfig) {
    if |gates| == 0 then true
    else if !Passes(gates[0], r, cfg) then false
    else PassesInOrder(gates[1..], r, cfg)
  }

  /** `should_show` holds exactly when all four gates pass. */
  lemma ShouldShowIffAllGates(r: ProbeResult, cfg: FilterConfig)
    ensures ShouldShow(r, cfg) <==>
      && (cfg.matchCodes.None? || r.status in cfg.matchCodes.value)
      && (cfg.matchSizes.None? || r.length in cfg.matchSizes.value)
      && (cfg.filterCodes.None? || r.status !in cfg.filterCodes.value)
      && (cfg.filterSizes.None? || r.length !in cfg.filterSizes.value)
  {
  }

  /** Short-circuit evaluation of a run of gates accepts exactly when every
      gate in it passes. */
  lemma {:induction false} PassesInOrderAll(gates: seq<Gate>, r: ProbeResult, cfg: FilterConfig)
    ensures PassesInOrder(gates, r, cfg) <==> forall k :: 0 <= k < |gates| ==> Passes(gates[k], r, cfg)
  {
    if |gates| > 0 {
      PassesInOrderAll(gates[1..], r, cfg);
      assert forall k :: 1 <= k < |gates| ==> gates[k] == gates[1..][k - 1];
    }
  }

  /** The order of the checks does not affect the outcome: evaluating the
      four gates in any order (repeats allowed) gives `should_show`. */
  lemma GateOrderIrrelevant(gates: seq<Gate>, r: ProbeResult, cfg: FilterConfig)
    requires MatchCode in gates && MatchSize in gates && FilterCode in gates && FilterSize in gates
    ensures PassesInOrder(gates, r, cfg) == ShouldShow(r, cfg)
  {
    PassesInOrderAll(gates, r, cfg);
    var i1 :| 0 <= i1 < |gates| && gates[i1] == MatchCode;
    var i2 :| 0 <= i2 < |gates| && gates[i2] == MatchSize;
    var i3 :| 0 <= i3 < |gates| && gates[i3] == FilterCode;
    var i4 :| 0 <= i4 < |gates| && gates[i4] == FilterSize;
    if ShouldShow(r, cfg) {
      forall k | 0 <= k < |gates| ensures Passes(gates[k], r, cfg) {
      }
    } else {
      assert !Passes(gates[i1], r, cfg) || !Passes(gates[i2], r, cfg)
        || !Passes(gates[i3], r, cfg) || !Passes(gates[i4], r, cfg);
    }
  }

  /** With no constraint at all, every result is accepted. */
  lemma NoConstraintAcceptsAll(r: ProbeResult)
    ensures ShouldShow(r, FilterConfig(None, None, None, None))
  {
  }

  /** The set the repository's default match-codes spec denotes. */
  function DefaultCodeSet(): set<int> {
    Interval(200, 299) + {301, 302, 307, 401, 403, 405, 500}
  }

  /** Parsing the default spec "200-299,301,302,307,401,403,405,500". */
  lemma DefaultMatchCodesSet()
    ensures RangeListSet(Some(Config.DefaultMatchCodes)) == DefaultCodeSet()
  {
    var head, rest := "200-299", "301,302,307,401,403,405,500";
    DefaultSpecCut();
    RangeListSetConcat(head, rest);
    DefaultSpanPiece(head);
    DefaultCodesTail(rest);
  }

  /** The range at the front of the default spec. */
  lemma DefaultSpanPiece(head: string)
    requires head == "200-299"
    ensures RangeListSet(Some(head)) == Interval(200, 299)
  {
    Numerals200();
    assert head == NatToString(200) + "-" + NatToString(299);
    SpanSpec(200, 299);
  }

  /** A spec "a-b" of two numerals denotes the interval between them. */
  lemma SpanSpec(a: nat, b: nat)
    requires a <= b && WithinDigitLimit(a) && WithinDigitLimit(b)
    ensures RangeListSet(Some(NatToString(a) + "-" + NatToString(b))) == Interval(a, b)
  {
    var sa, sb := NatToString(a), NatToString(b);
    SpanToken(a, b);
    NatToStringDigits(a);
    NatToStringDigits(b);
    DigitsExclude(sa, ',');
    DigitsExclude(sb, ',');
    SingleTokenSpec(sa + "-" + sb);
  }

  /** The single codes after the range in the default spec. */
  lemma DefaultCodesTail(s: string)
    requires s == "301,302,307,401,403,405,500"
    ensures RangeListSet(Some(s)) == {301, 302, 307, 401, 403, 405, 500}
  {
    DefaultTailCut1();
    var r := "302,307,401,403,405,500";
    Numerals300();
    CodeListStep("301", 301, r);
    DefaultCodesTail2(r);
  }

  lemma DefaultCodesTail2(s: string)
    requires s == "302,307,401,403,405,500"
    ensures RangeListSet(Some(s)) == {302, 307, 401, 403, 405, 500}
  {
    DefaultTailCut2();
    var r := "307,401,403,405,500";
    Numerals300();
    CodeListStep("302", 302, r);
    DefaultCodesTail3(r);
  }

  lemma DefaultCodesTail3(s: string)
    requires s == "307,401,403,405,500"
    ensures RangeListSet(Some(s)) == {307, 401, 403, 405, 500}
  {
    DefaultTailCut3();
    var r := "401,403,405,500";
    Numerals300();
    CodeListStep("307", 307, r);
    DefaultCodesTail4(r);
  }

  lemma DefaultCodesTail4(s: string)
    requires s == "401,403,405,500"
    ensures RangeListSet(Some(s)) == {401, 403, 405, 500}
  {
    DefaultTailCut4();
    var r := "403,405,500";
    Numerals400();
    CodeListStep("401", 401, r);
    DefaultCodesTail5(r);
  }

  lemma DefaultCodesTail5(s: string)
    requires s == "403,405,500"
    ensures RangeListSet(Some(s)) == {403, 405, 500}
  {
    DefaultTailCut5();
    var r := "405,500";
    Numerals400();
    CodeListStep("403", 403, r);
    DefaultCodesTail6(r);
  }

  lemma DefaultCodesTail6(s: string)
    requires s == "405,500"
    ensures RangeListSet(Some(s)) == {405, 500}
  {
    DefaultTailCut6();
    var r := "500";
    Numerals400();
    CodeListStep("405", 405, r);
    Numerals500();
    LastCode(r, 500);
  }

  // Literal cuts of the default spec, kept apart for the reason given above
  // the malformed-piece examples.

  /** Where the default spec and its list of single codes are cut. */
  lemma DefaultSpecCut()
    ensures Config.DefaultMatchCodes == "200-299" + [','] + "301,302,307,401,403,405,500"
  {
  }

  lemma DefaultTailCut1()
    ensures "301,302,307,401,403,405,500" == "301" + [','] + "302,307,401,403,405,500"
  {
  }

  lemma DefaultTailCut2()
    ensures "302,307,401,403,405,500" == "302" + [','] + "307,401,403,405,500"
  {
  }

  lemma DefaultTailCut3()
    ensures "307,401,403,405,500" == "307" + [','] + "401,403,405,500"
  {
  }

  lemma DefaultTailCut4()
    ensures "401,403,405,500" == "401" + [','] + "403,405,500"
  {
  }

  lemma DefaultTailCut5()
    ensures "403,405,500" == "403" + [','] + "405,500"
  {
  }

  lemma DefaultTailCut6()
    ensures "405,500" == "405" + [','] + "500"
  {
  }

  lemma Numerals200()
    ensures NatToString(200) == "200" && NatToString(299) == "299"
  {
  }

  lemma Numerals300()
    ensures NatToString(301) == "301" && NatToString(302) == "302" && NatToString(307) == "307"
  {
  }

  lemma Numerals400()
    ensures NatToString(401) == "401" && NatToString(403) == "403" && NatToString(405) == "405"
  {
  }

  lemma Numerals500()
    ensures NatToString(500) == "500"
  {
  }

  /** A spec that is one numeral denotes that number. */
  lemma LastCode(s: string, n: nat)
    requires s == NatToString(n) && |s| <= MaxIntDigits
    ensures RangeListSet(Some(s)) == {n}
  {
    NumberToken(n);
    NatToStringDigits(n);
    DigitsExclude(s, ',');
    SingleTokenSpec(s);
  }

  /** One step through a list of single codes: "n,rest". */
  lemma CodeListStep(head: string, n: nat, rest: string)
    requires head == NatToString(n) && |head| <= MaxIntDigits
    ensures RangeListSet(Some(head + [','] + rest)) == {n} + RangeListSet(Some(rest))
  {
    RangeListSetConcat(head, rest);
    LastCode(head, n);
  }

  /** With no spec given at all, the repository's configuration accepts a
      result exactly when its status is one of the default codes. */
  lemma DefaultConfigAccepts(r: ProbeResult)
    ensures ShouldShow(r, BuildFilterConfig(None, None, None, None, Some(Config.DefaultMatchCodes)))
      <==> r.status in DefaultCodeSet()
  {
    var d := Config.DefaultMatchCodes;
    assert IsStripped(d);
    assert Lower(d) != "all" by {
      assert |Lower(d)| != 3;
    }
    StrippedSpecParsed(d);
    DefaultMatchCodesSet();
  }

  /** A default spec that needs no stripping and is not "all" is parsed as
      it stands. */
  lemma StrippedSpecParsed(d: string)
    requires d != "" && IsStripped(d) && Lower(d) != "all"
    ensures MatchCodes(MatchSpec(None, Some(d))) == Some(RangeListSet(Some(d)))
  {
    StripStripped(d);
  }
}
