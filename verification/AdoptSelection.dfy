/** Which findings an adoption works on (src/main.rs): one per line of a dotenv file, grouped by file. */
module AdoptSelection {
  import opened Adopt

  /** A finding of the scan, and whether its file is a dotenv file. */
  datatype Reported = Reported(path: string, dotenv: bool, finding: Finding)

  predicate SamePlace(a: Reported, b: Reported) {
    a.path == b.path && a.finding.line == b.finding.line
  }

  predicate SeenIn(fs: seq<Reported>, f: Reported) {
    exists k :: 0 <= k < |fs| && SamePlace(fs[k], f)
  }

  function Place(f: Reported): (string, nat) {
    (f.path, f.finding.line)
  }

  ghost predicate Remembers(seen: set<(string, nat)>, env: seq<Reported>) {
    forall f {:trigger SeenIn(env, f)} :: Place(f) in seen <==> SeenIn(env, f)
  }

  lemma {:induction false} SeenInOneMore(fs: seq<Reported>, f: Reported, g: Reported)
    ensures SeenIn(fs + [f], g) <==> SeenIn(fs, g) || SamePlace(f, g)
  {
    if SeenIn(fs, g) {
      SeenInMore(fs, fs + [f], g);
    }
    if SamePlace(f, g) {
      assert (fs + [f])[|fs|] == f;
    }
  }

  /** The first finding of every line of every dotenv file, in the order of the report. */
  function Selected(fs: seq<Reported>): seq<Reported> {
    if fs == [] then []
    else
      var before, f := Selected(fs[..|fs| - 1]), fs[|fs| - 1];
      if f.dotenv && !SeenIn(before, f) then before + [f] else before
  }

  function InSource(fs: seq<Reported>): seq<Reported> {
    if fs == [] then []
    else InSource(fs[..|fs| - 1]) + if fs[|fs| - 1].dotenv then [] else [fs[|fs| - 1]]
  }

  /** The pass over the findings with its set of seen places. */
  method SelectFindings(fs: seq<Reported>) returns (env: seq<Reported>, skippedSource: seq<Reported>)
    ensures env == Selected(fs)
    ensures skippedSource == InSource(fs)
  {
    env, skippedSource := [], [];
    var seen: set<(string, nat)> := {};
    for n := 0 to |fs|
      invariant env == Selected(fs[..n])
      invariant skippedSource == InSource(fs[..n])
      invariant Remembers(seen, env)
    {
      hide SeenIn;
      assert fs[..n + 1][..n] == fs[..n];
      var f := fs[n];
      if !f.dotenv {
        skippedSource := skippedSource + [f];
        continue;
      }
      if Place(f) !in seen {
        forall g ensures SeenIn(env + [f], g) <==> SeenIn(env, g) || SamePlace(f, g) {
          SeenInOneMore(env, f, g);
        }
        seen := seen + {Place(f)};
        env := env + [f];
      }
    }
    assert fs[..|fs|] == fs;
  }

  /** A further finding is selected, behind the others, if and only if it is in a dotenv file and the report has no
      earlier finding for its line; otherwise it is set aside if it is in no dotenv file. */
  lemma {:induction false} OneMoreSelected(fs: seq<Reported>, f: Reported)
    ensures var seen := exists k :: 0 <= k < |fs| && fs[k].dotenv && fs[k].path == f.path
                                    && fs[k].finding.line == f.finding.line;
            Selected(fs + [f]) == Selected(fs) + if f.dotenv && !seen then [f] else []
    ensures InSource(fs + [f]) == InSource(fs) + if f.dotenv then [] else [f]
  {
    assert (fs + [f])[..|fs|] == fs;
    if SeenIn(Selected(fs), f) {
      var k :| 0 <= k < |Selected(fs)| && SamePlace(Selected(fs)[k], f);
      var n := SelectedIsFirst(fs, Selected(fs)[k]);
      assert fs[n].dotenv && fs[n].path == f.path && fs[n].finding.line == f.finding.line;
    }
    if k :| 0 <= k < |fs| && fs[k].dotenv && fs[k].path == f.path && fs[k].finding.line == f.finding.line {
      SelectedCovers(fs, k);
      var m :| 0 <= m < |Selected(fs)| && SamePlace(Selected(fs)[m], fs[k]);
      assert SamePlace(Selected(fs)[m], f);
    }
  }

  predicate DistinctPlaces(fs: seq<Reported>) {
    forall i, j :: 0 <= i < j < |fs| ==> !SamePlace(fs[i], fs[j])
  }

  lemma {:induction false} SelectedIsDistinct(fs: seq<Reported>)
    ensures DistinctPlaces(Selected(fs))
  {
    if fs != [] {
      SelectedIsDistinct(fs[..|fs| - 1]);
    }
  }

  /** Every dotenv finding is represented by a selected finding on its line. */
  lemma {:induction false} SelectedCovers(fs: seq<Reported>, m: nat)
    requires m < |fs| && fs[m].dotenv
    ensures SeenIn(Selected(fs), fs[m])
  {
    hide SeenIn;
    var n := |fs| - 1;
    if m < n {
      SelectedCovers(fs[..n], m);
    }
    if m < n || SeenIn(Selected(fs[..n]), fs[n]) {
      SeenInMore(Selected(fs[..n]), Selected(fs), fs[m]);
    } else {
      SeenInOneMore(Selected(fs[..n]), fs[n], fs[n]);
    }
  }

  /** A selected finding is the first one the report has for its line. */
  lemma {:induction false} SelectedIsFirst(fs: seq<Reported>, f: Reported) returns (n: nat)
    requires f in Selected(fs)
    ensures n < |fs| && fs[n] == f && f.dotenv
    ensures forall m :: 0 <= m < n && fs[m].dotenv ==> !SamePlace(fs[m], f)
  {
    var last := |fs| - 1;
    if f in Selected(fs[..last]) {
      n := SelectedIsFirst(fs[..last], f);
    } else {
      n := last;
      forall m | 0 <= m < n && fs[m].dotenv ensures !SamePlace(fs[m], f) {
        SelectedCovers(fs[..last], m);
        var k :| 0 <= k < |Selected(fs[..last])| && SamePlace(Selected(fs[..last])[k], fs[m]);
        assert !SamePlace(Selected(fs[..last])[k], f);
      }
    }
  }

  lemma {:induction false} SeenInMore(fs: seq<Reported>, more: seq<Reported>, f: Reported)
    requires SeenIn(fs, f) && fs <= more
    ensures SeenIn(more, f)
  {
    var k :| 0 <= k < |fs| && SamePlace(fs[k], f);
    assert more[k] == fs[k];
  }

  // ---- Grouping by file --------------------------------------------------------------------

  /** The findings on `path`, in order. */
  function OnPath(fs: seq<Reported>, path: string): seq<Finding> {
    if fs == [] then []
    else OnPath(fs[..|fs| - 1], path) + if fs[|fs| - 1].path == path then [fs[|fs| - 1].finding] else []
  }

  /** It keeps exactly those on the path, one after the other. */
  lemma {:induction false} OnPathIsFilter(fs: seq<Reported>, gs: seq<Reported>, f: Reported, path: string)
    ensures OnPath(fs + gs, path) == OnPath(fs, path) + OnPath(gs, path)
    ensures OnPath([f], path) == if f.path == path then [f.finding] else []
  {
    OnPathOfBoth(fs, gs, path);
    assert [f][..0] == [];
  }

  lemma {:induction false} OnPathOfBoth(fs: seq<Reported>, gs: seq<Reported>, path: string)
    ensures OnPath(fs + gs, path) == OnPath(fs, path) + OnPath(gs, path)
  {
    if gs == [] {
      assert fs + gs == fs;
    } else {
      var n := |gs| - 1;
      assert (fs + gs)[..|fs| + n] == fs + gs[..n];
      OnPathOfBoth(fs, gs[..n], path);
      assert (fs + gs)[|fs| + n] == gs[n];
    }
  }

  /** The order of paths in the map from files to findings. */
  ghost predicate TotalOrder(less: (string, string) -> bool) {
    && (forall a :: !less(a, a))
    && (forall a, b, c :: less(a, b) && less(b, c) ==> less(a, c))
    && (forall a, b :: a != b ==> less(a, b) || less(b, a))
  }

  predicate Sorted(less: (string, string) -> bool, work: seq<FileWork>) {
    forall i, j :: 0 <= i < j < |work| ==> less(work[i].path, work[j].path)
  }

  /** `work` holds each path of `fs` once, with exactly its findings. */
  predicate Groups(fs: seq<Reported>, work: seq<FileWork>) {
    && (forall i :: 0 <= i < |work| ==> work[i].findings == OnPath(fs, work[i].path) != [])
    && (forall k :: 0 <= k < |fs| ==> FileIn(work, fs[k].path))
  }

  method Position(work: seq<FileWork>, path: string, less: (string, string) -> bool) returns (at: nat)
    requires TotalOrder(less) && Sorted(less, work)
    ensures at <= |work|
    ensures forall i :: 0 <= i < at ==> less(work[i].path, path)
    ensures forall i :: at <= i < |work| ==> !less(work[i].path, path)
  {
    at := 0;
    while at < |work| && less(work[at].path, path)
      invariant at <= |work|
      invariant forall i :: 0 <= i < at ==> less(work[i].path, path)
    {
      at := at + 1;
    }
  }

  lemma {:induction false} AppendedGroups(fs: seq<Reported>, before: seq<FileWork>, at: nat)
    requires fs != [] && Groups(fs[..|fs| - 1], before)
    requires at < |before| && before[at].path == fs[|fs| - 1].path
    requires forall i :: 0 <= i < |before| && i != at ==> before[i].path != before[at].path
    ensures Groups(fs, before[at := FileWork(before[at].path, before[at].findings + [fs[|fs| - 1].finding])])
  {
    var work := before[at := FileWork(before[at].path, before[at].findings + [fs[|fs| - 1].finding])];
    forall k | 0 <= k < |fs| ensures FileIn(work, fs[k].path) {
      if k < |fs| - 1 {
        assert FileIn(before, fs[..|fs| - 1][k].path);
        var i :| 0 <= i < |before| && before[i].path == fs[k].path;
        assert work[i].path == fs[k].path;
      } else {
        assert work[at].path == fs[k].path;
      }
    }
  }

  lemma {:induction false} InsertedGroups(fs: seq<Reported>, before: seq<FileWork>, at: nat)
    requires fs != [] && Groups(fs[..|fs| - 1], before) && at <= |before|
    requires forall i :: 0 <= i < |before| ==> before[i].path != fs[|fs| - 1].path
    ensures Groups(fs, before[..at] + [FileWork(fs[|fs| - 1].path, [fs[|fs| - 1].finding])] + before[at..])
  {
    var f := fs[|fs| - 1];
    var work := before[..at] + [FileWork(f.path, [f.finding])] + before[at..];
    NoneOnPath(fs[..|fs| - 1], before, f.path);
    assert [] + [f.finding] == [f.finding];
    forall i | 0 <= i < |work| ensures work[i].findings == OnPath(fs, work[i].path) != [] {
      if i != at {
        assert work[i] == before[if i < at then i else i - 1];
      }
    }
    forall k | 0 <= k < |fs| ensures FileIn(work, fs[k].path) {
      if k < |fs| - 1 {
        assert FileIn(before, fs[..|fs| - 1][k].path);
        var i :| 0 <= i < |before| && before[i].path == fs[k].path;
        assert work[if i < at then i else i + 1] == before[i];
      } else {
        assert work[at].path == fs[k].path;
      }
    }
  }

  /** Appends one finding to the list of its file. */
  method AddFinding(fs: seq<Reported>, before: seq<FileWork>, less: (string, string) -> bool)
    returns (work: seq<FileWork>)
    requires TotalOrder(less) && fs != []
    requires Sorted(less, before) && Groups(fs[..|fs| - 1], before)
    ensures Sorted(less, work) && Groups(fs, work)
  {
    hide Groups;
    var f := fs[|fs| - 1];
    var at := Position(before, f.path, less);
    if at < |before| && before[at].path == f.path {
      AppendedGroups(fs, before, at);
      work := before[at := FileWork(f.path, before[at].findings + [f.finding])];
    } else {
      NotThere(less, before, f.path, at);
      InsertedGroups(fs, before, at);
      work := before[..at] + [FileWork(f.path, [f.finding])] + before[at..];
    }
  }

  lemma {:induction false} NotThere(less: (string, string) -> bool, work: seq<FileWork>, path: string, at: nat)
    requires TotalOrder(less) && Sorted(less, work) && at <= |work|
    requires forall i :: 0 <= i < at ==> less(work[i].path, path)
    requires forall i :: at <= i < |work| ==> !less(work[i].path, path)
    requires at < |work| ==> work[at].path != path
    ensures forall i :: 0 <= i < |work| ==> work[i].path != path
    ensures forall i :: at <= i < |work| ==> less(path, work[i].path)
  {
    forall i | at < i < |work| ensures less(path, work[i].path) {
      assert less(path, work[at].path) && less(work[at].path, work[i].path);
    }
  }

  lemma {:induction false} NoneOnPath(fs: seq<Reported>, work: seq<FileWork>, path: string)
    requires forall k :: 0 <= k < |fs| ==> FileIn(work, fs[k].path)
    requires forall i :: 0 <= i < |work| ==> work[i].path != path
    ensures OnPath(fs, path) == []
  {
    if fs != [] {
      assert FileIn(work, fs[|fs| - 1].path);
      NoneOnPath(fs[..|fs| - 1], work, path);
    }
  }

  method GroupByFile(env: seq<Reported>, less: (string, string) -> bool) returns (work: seq<FileWork>)
    requires TotalOrder(less)
    ensures Sorted(less, work) && Groups(env, work)
  {
    work := [];
    for n := 0 to |env|
      invariant Sorted(less, work) && Groups(env[..n], work)
    {
      assert env[..n + 1][..n] == env[..n];
      work := AddFinding(env[..n + 1], work, less);
    }
    assert env[..|env|] == env;
  }

  // ---- What the selection guarantees -------------------------------------------------------

  lemma {:induction false} OnPathIsDistinct(fs: seq<Reported>, path: string)
    requires DistinctPlaces(fs) && forall k :: 0 <= k < |fs| ==> fs[k].finding.line > 0
    ensures DistinctLines(OnPath(fs, path))
    ensures forall f :: f in OnPath(fs, path) ==>
              exists k :: 0 <= k < |fs| && fs[k].path == path && fs[k].finding == f
  {
    if fs != [] {
      var n := |fs| - 1;
      var before := OnPath(fs[..n], path);
      OnPathIsDistinct(fs[..n], path);
      forall f | f in OnPath(fs, path)
        ensures exists k :: 0 <= k < |fs| && fs[k].path == path && fs[k].finding == f
      {
        if f in before {
          var k :| 0 <= k < n && fs[..n][k].path == path && fs[..n][k].finding == f;
          assert fs[k] == fs[..n][k];
        } else {
          assert fs[n].path == path && fs[n].finding == f;
        }
      }
      if fs[n].path == path {
        forall i | 0 <= i < |before| ensures before[i].line != fs[n].finding.line {
          assert before[i] in before;
          var k :| 0 <= k < n && fs[..n][k].path == path && fs[..n][k].finding == before[i];
          assert !SamePlace(fs[k], fs[n]);
        }
      }
    }
  }

  /** The work of an adoption has every file once and every line once, so adopting is disciplined whatever
      the scan reports.  The scan counts lines from 1. */
  lemma {:induction false} SelectionIsDistinct(fs: seq<Reported>, work: seq<FileWork>, less: (string, string) -> bool)
    requires TotalOrder(less) && Sorted(less, work) && Groups(Selected(fs), work)
    requires forall k :: 0 <= k < |fs| ==> fs[k].finding.line > 0
    ensures DistinctWork(work)
  {
    SelectedIsDistinct(fs);
    forall i | 0 <= i < |work| ensures DistinctLines(work[i].findings) {
      forall k | 0 <= k < |Selected(fs)| ensures Selected(fs)[k].finding.line > 0 {
        var n := SelectedIsFirst(fs, Selected(fs)[k]);
      }
      OnPathIsDistinct(Selected(fs), work[i].path);
    }
  }

  lemma {:induction false} OnPathHolds(fs: seq<Reported>, k: nat)
    requires k < |fs|
    ensures fs[k].finding in OnPath(fs, fs[k].path)
  {
    var n := |fs| - 1;
    if k < n {
      OnPathHolds(fs[..n], k);
    } else {
      assert OnPath(fs, fs[n].path)[|OnPath(fs[..n], fs[n].path)|] == fs[n].finding;
    }
  }

  predicate HasLine(findings: seq<Finding>, line: nat) {
    exists k :: 0 <= k < |findings| && findings[k].line == line
  }

  /** No dotenv finding is lost: its file is in the work, with a finding for its line. */
  lemma {:induction false} NoFindingLost(fs: seq<Reported>, work: seq<FileWork>, n: nat)
    requires Groups(Selected(fs), work) && n < |fs| && fs[n].dotenv
    ensures exists i :: 0 <= i < |work| && work[i].path == fs[n].path && HasLine(work[i].findings, fs[n].finding.line)
  {
    SelectedCovers(fs, n);
    var env := Selected(fs);
    var k :| 0 <= k < |env| && SamePlace(env[k], fs[n]);
    assert FileIn(work, env[k].path);
    var i :| 0 <= i < |work| && work[i].path == env[k].path;
    OnPathHolds(env, k);
    assert HasLine(work[i].findings, fs[n].finding.line);
  }
}
