/** The wordlist loader (dictionary.py): each line of the file is stripped,
    blank lines and `#` comments are dropped, and every other line is made to
    start with `/`. The file itself is given as its sequence of lines; a
    missing file is `None`. */
module Wordlist {
  import opened Wrappers
  import opened Text

  /** The error `load_wordlist` raises: `FileNotFoundError`. */
  datatype WordlistError = NotFound

  /** A path the scanner can request: it starts with `/` and has no
      surrounding whitespace (so it is never empty). */
  predicate IsPath(p: string) {
    |p| > 0 && p[0] == '/' && IsStripped(p)
  }

  /** Whether a stripped line is skipped: it is empty or a comment. */
  predicate Skipped(s: string) {
    s == "" || s[0] == '#'
  }

  /** What one line becomes: `None` when it is skipped, otherwise the stripped
      line with a `/` put in front unless it already starts with one. */
  function NormalizeLine(line: string): (r: Option<string>)
    ensures r.None? <==> Skipped(Strip(line))
    ensures r.Some? ==> IsPath(r.value)
    ensures r.Some? ==> r.value == Strip(line) || r.value == "/" + Strip(line)
  {
    var s := Strip(line);
    if Skipped(s) then None
    else if s[0] == '/' then Some(s)
    else
      assert ("/" + s)[|"/" + s| - 1] == s[|s| - 1];
      Some("/" + s)
  }

  /** The paths a file with these lines yields, in file order. */
  function Normalized(lines: seq<string>): seq<string> {
    if |lines| == 0 then [] else Extend(Normalized(lines[..|lines| - 1]), lines[|lines| - 1])
  }

  /** One turn of the loop: append what the line becomes, if anything. */
  function Extend(paths: seq<string>, line: string): seq<string> {
    match NormalizeLine(line)
    case None => paths
    case Some(p) => paths + [p]
  }

  /** `load_wordlist`: the loop over the lines of the file. */
  method LoadWordlist(file: Option<seq<string>>) returns (r: Result<seq<string>, WordlistError>)
    ensures file.None? <==> r == Failure(NotFound)
    ensures file.Some? ==> r == Success(Normalized(file.value))
  {
    if file.None? {
      return Failure(NotFound);
    }
    var lines := file.value;
    var paths: seq<string> := [];
    for k := 0 to |lines|
      invariant paths == Normalized(lines[..k])
    {
      assert lines[..k + 1][..k] == lines[..k];
      var line := Strip(lines[k]);
      if line == "" || line[0] == '#' {
        continue;
      }
      if line[0] != '/' {
        line := "/" + line;
      }
      paths := paths + [line];
    }
    assert lines[..|lines|] == lines;
    return Success(paths);
  }

  /** Every returned entry is a path: non-empty, stripped, starting with `/`;
      and there are never more paths than lines. */
  lemma {:induction false} NormalizedArePaths(lines: seq<string>)
    ensures |Normalized(lines)| <= |lines|
    ensures forall k :: 0 <= k < |Normalized(lines)| ==> IsPath(Normalized(lines)[k])
  {
    if |lines| > 0 {
      NormalizedArePaths(lines[..|lines| - 1]);
    }
  }

  /** The indices of the lines that are kept, in increasing order. */
  function Kept(lines: seq<string>): seq<nat> {
    if |lines| == 0 then []
    else
      Kept(lines[..|lines| - 1])
        + (if NormalizeLine(lines[|lines| - 1]).Some? then [|lines| - 1] else [])
  }

  lemma KeptStep(lines: seq<string>)
    requires |lines| > 0
    ensures Kept(lines) == Kept(lines[..|lines| - 1])
      + (if NormalizeLine(lines[|lines| - 1]).Some? then [|lines| - 1] else [])
  {
  }

  /** The kept indices are in range and strictly increasing. */
  lemma {:induction false} KeptIncreasing(lines: seq<string>)
    ensures forall k :: 0 <= k < |Kept(lines)| ==> Kept(lines)[k] < |lines|
    ensures forall i, j :: 0 <= i < j < |Kept(lines)| ==> Kept(lines)[i] < Kept(lines)[j]
  {
    if |lines| > 0 {
      KeptStep(lines);
      KeptIncreasing(lines[..|lines| - 1]);
    }
  }

  /** The kept indices name exactly the lines that are neither blank nor
      comments. */
  lemma {:induction false} KeptExactly(lines: seq<string>)
    ensures forall j :: 0 <= j < |lines| ==> (j in Kept(lines) <==> !Skipped(Strip(lines[j])))
  {
    if |lines| > 0 {
      var init := lines[..|lines| - 1];
      KeptStep(lines);
      KeptExactly(init);
      KeptIncreasing(init);
      forall j | 0 <= j < |init| ensures lines[j] == init[j] {
      }
    }
  }

  /** The output is the subsequence of kept lines, each normalised: entry `k`
      comes from line `Kept(lines)[k]`. Together with `KeptIncreasing` and `KeptExactly` this says
      the output keeps file order and duplicates. */
  lemma {:induction false} NormalizedIsKeptSubsequence(lines: seq<string>)
    ensures |Normalized(lines)| == |Kept(lines)|
    ensures forall k :: 0 <= k < |Kept(lines)| ==>
      Kept(lines)[k] < |lines| &&
      NormalizeLine(lines[Kept(lines)[k]]) == Some(Normalized(lines)[k])
  {
    if |lines| > 0 {
      var init := lines[..|lines| - 1];
      KeptStep(lines);
      NormalizedStep(lines);
      NormalizedIsKeptSubsequence(init);
      KeptIncreasing(init);
      var kept, out := Kept(lines), Normalized(lines);
      forall k | 0 <= k < |kept|
        ensures kept[k] < |lines| && NormalizeLine(lines[kept[k]]) == Some(out[k])
      {
        if k < |Kept(init)| {
          assert kept[k] == Kept(init)[k] && out[k] == Normalized(init)[k];
          assert lines[kept[k]] == init[kept[k]];
        }
      }
    }
  }

  /** A line that is already a path is kept as it is. */
  lemma PathLineKept(p: string)
    requires IsPath(p)
    ensures NormalizeLine(p) == Some(p)
  {
    StripStripped(p);
  }

  /** Normalising is idempotent: loading a file made of the output gives the
      same output. */
  lemma {:induction false} NormalizedIdempotent(lines: seq<string>)
    ensures Normalized(Normalized(lines)) == Normalized(lines)
  {
    if |lines| > 0 {
      var init := lines[..|lines| - 1];
      NormalizedIdempotent(init);
      var out := Normalized(lines);
      match NormalizeLine(lines[|lines| - 1])
      case None =>
      case Some(p) =>
        assert out == Normalized(init) + [p];
        assert out[..|out| - 1] == Normalized(init);
        PathLineKept(p);
    }
  }

  /** Loading the lines of a file in two parts gives the two outputs one after
      the other. */
  lemma {:induction false} NormalizedAppend(a: seq<string>, b: seq<string>)
    ensures Normalized(a + b) == Normalized(a) + Normalized(b)
  {
    if |b| == 0 {
      assert a + b == a;
    } else {
      var b', x := b[..|b| - 1], b[|b| - 1];
      NormalizedLast(a, b);
      NormalizedAppend(a, b');
      ExtendAppend(Normalized(a), Normalized(b'), x);
    }
  }

  /** The last line of `a + b` is the last line of `b`. */
  lemma NormalizedLast(a: seq<string>, b: seq<string>)
    requires |b| > 0
    ensures Normalized(a + b) == Extend(Normalized(a + b[..|b| - 1]), b[|b| - 1])
  {
    var ab := a + b;
    assert ab[..|ab| - 1] == a + b[..|b| - 1];
    NormalizedStep(ab);
  }

  lemma NormalizedStep(lines: seq<string>)
    requires |lines| > 0
    ensures Normalized(lines) == Extend(Normalized(lines[..|lines| - 1]), lines[|lines| - 1])
  {
  }

  lemma ExtendAppend(p: seq<string>, q: seq<string>, line: string)
    ensures Extend(p + q, line) == p + Extend(q, line)
  {
    match NormalizeLine(line)
    case None =>
    case Some(x) =>
      assert p + q + [x] == p + (q + [x]);
  }

  /** A worked example: `["  /admin ", "# comment", "",
      "login"]` loads as `["/admin", "/login"]`. */
  lemma Example(a: string, b: string, c: string, d: string)
    requires a == "  /admin " && b == "# comment" && c == "" && d == "login"
    ensures Normalized([a, b, c, d]) == ["/admin", "/login"]
  {
    ExampleAdmin(a);
    ExampleComment(b);
    ExampleBlank(c);
    ExampleLogin(d);
    assert [a][..0] == [];
    NormalizedStep([a]);
    assert [a, b][..1] == [a];
    NormalizedStep([a, b]);
    assert [a, b, c][..2] == [a, b];
    NormalizedStep([a, b, c]);
    assert [a, b, c, d][..3] == [a, b, c];
    NormalizedStep([a, b, c, d]);
  }

  lemma ExampleAdmin(line: string)
    requires line == "  /admin "
    ensures NormalizeLine(line) == Some("/admin")
  {
    assert line == "  " + "/admin" + " ";
    StripPadded("  ", "/admin", " ");
  }

  lemma ExampleComment(line: string)
    requires line == "# comment"
    ensures NormalizeLine(line) == None
  {
    StripStripped(line);
  }

  lemma ExampleBlank(line: string)
    requires line == ""
    ensures NormalizeLine(line) == None
  {
    assert |Strip(line)| <= 0;
  }

  lemma ExampleLogin(line: string)
    requires line == "login"
    ensures NormalizeLine(line) == Some("/login")
  {
    StripStripped(line);
    assert line[0] != '/' && line[0] != '#';
    assert "/" + line == "/login";
  }

  /** The `/` is put in front exactly when the stripped line does not start
      with one. */
  lemma SlashAddedOnlyIfMissing(line: string)
    requires !Skipped(Strip(line))
    ensures Strip(line)[0] == '/' ==> NormalizeLine(line) == Some(Strip(line))
    ensures Strip(line)[0] != '/' ==> NormalizeLine(line) == Some("/" + Strip(line))
  {
  }
}
