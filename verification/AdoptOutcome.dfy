/** What an adoption does to each finding, in terms of the findings, the files and the entries it starts from. */
module AdoptOutcome {
  import opened Common
  import opened VaultFormat
  import opened Adopt

  /** A finding in a file that can be read: its line, the text there if the file has such a line, and the key that the
      value would get. */
  datatype Place = Place(path: string, line: nat, text: Option<string>, key: string)

  function PlaceOf(f: Finding, path: string, lines: seq<string>, prefix: string): Place {
    Place(path, f.line, if 0 < f.line <= |lines| then Some(lines[f.line - 1]) else None, prefix + f.suggestedKey)
  }

  /** The findings of one file, in order. */
  function PlacesIn(findings: seq<Finding>, path: string, lines: seq<string>, prefix: string): (xs: seq<Place>)
    ensures |xs| == |findings|
  {
    seq(|findings|, i requires 0 <= i < |findings| => PlaceOf(findings[i], path, lines, prefix))
  }

  /** The findings of all files that can be read, in order. */
  function Places(work: seq<FileWork>, sources: map<string, seq<string>>, prefix: string): seq<Place> {
    if work == [] then []
    else
      var n := |work| - 1;
      Places(work[..n], sources, prefix)
      + if work[n].path in sources then PlacesIn(work[n].findings, work[n].path, sources[work[n].path], prefix) else []
  }

  function Unreadable(work: seq<FileWork>, sources: map<string, seq<string>>): nat {
    if work == [] then 0
    else
      Unreadable(work[..|work| - 1], sources) + if work[|work| - 1].path in sources then 0 else 1
  }

  /** The line exists and assigns a value that is not empty. */
  predicate HasValue(x: Place) {
    x.text.Some? && ParseDotenvLine(x.text.value).Some? && ParseDotenvLine(x.text.value).value.1 != ""
  }

  /** Place `n` is adopted: it has a value, and its key is free or may be overwritten. A key is free if no entry has it
      and no earlier place with a value does. */
  predicate IsAdopted(xs: seq<Place>, n: nat, entries: Entries, force: bool)
    requires n < |xs|
  {
    && HasValue(xs[n])
    && (force || (xs[n].key !in entries && forall m :: 0 <= m < n && HasValue(xs[m]) ==> xs[m].key != xs[n].key))
  }

  /** The key and value of each adopted place, in order. */
  function Pairs(xs: seq<Place>, n: nat, entries: Entries, force: bool): seq<(string, string)>
    requires n <= |xs|
  {
    if n == 0 then []
    else
      Pairs(xs, n - 1, entries, force)
      + if IsAdopted(xs, n - 1, entries, force)
        then [(xs[n - 1].key, ParseDotenvLine(xs[n - 1].text.value).value.1)] else []
  }

  /** How many places have no value. */
  function Errors(xs: seq<Place>): nat {
    if xs == [] then 0 else Errors(xs[..|xs| - 1]) + if HasValue(xs[|xs| - 1]) then 0 else 1
  }

  /** How many places have a value and are not adopted, among the first `n`. */
  function Skipped(xs: seq<Place>, n: nat, entries: Entries, force: bool): nat
    requires n <= |xs|
  {
    if n == 0 then 0
    else
      Skipped(xs, n - 1, entries, force)
      + if HasValue(xs[n - 1]) && !IsAdopted(xs, n - 1, entries, force) then 1 else 0
  }

  /** What the line of a place is afterwards. */
  function LineAfter(xs: seq<Place>, n: nat, entries: Entries, force: bool): string
    requires n < |xs| && xs[n].text.Some?
  {
    if IsAdopted(xs, n, entries, force) then Pointer(ParseDotenvLine(xs[n].text.value).value.0, xs[n].key)
    else xs[n].text.value
  }

  // ---- One finding after the other ---------------------------------------------------------------

  /** Progress `p` is what the places `xs` make of `entries`. */
  ghost predicate Accounts(p: Progress, xs: seq<Place>, entries: Entries, force: bool, unreadable: nat) {
    Counts(p, xs, entries, force, unreadable) && HasKeys(p.entries, xs, entries, force)
  }

  /** The pairs to store and the numbers of errors and of skipped keys. */
  predicate Counts(p: Progress, xs: seq<Place>, entries: Entries, force: bool, unreadable: nat) {
    && p.stored == Pairs(xs, |xs|, entries, force)
    && p.errors == Errors(xs) + unreadable
    && p.skipped == Skipped(xs, |xs|, entries, force)
  }

  /** The keys are the old ones and those of places with a value, and without `force` the old ones are as they were. */
  ghost predicate HasKeys(now: Entries, xs: seq<Place>, entries: Entries, force: bool) {
    && (forall key :: key in now <==> key in entries || exists m :: 0 <= m < |xs| && WithKey(xs[m], key))
    && (!force ==> forall key :: key in entries ==> key in now && now[key] == entries[key])
  }

  predicate WithKey(x: Place, key: string) {
    HasValue(x) && x.key == key
  }

  lemma {:induction false} SamePrefix(xs: seq<Place>, ys: seq<Place>, n: nat, entries: Entries, force: bool)
    requires n <= |xs|
    ensures Pairs(xs + ys, n, entries, force) == Pairs(xs, n, entries, force)
    ensures Skipped(xs + ys, n, entries, force) == Skipped(xs, n, entries, force)
  {
    hide HasValue;
    if n > 0 {
      SamePrefix(xs, ys, n - 1, entries, force);
      SameAdopted(xs, ys, n - 1, entries, force);
    }
  }

  lemma {:induction false} SameAdopted(xs: seq<Place>, ys: seq<Place>, n: nat, entries: Entries, force: bool)
    requires n < |xs|
    ensures IsAdopted(xs + ys, n, entries, force) <==> IsAdopted(xs, n, entries, force)
  {
    hide HasValue;
    assert forall m :: 0 <= m <= n ==> (xs + ys)[m] == xs[m];
  }

  /** What one finding does, by what is at its place and whether its key is taken by now. */
  lemma {:induction false} LineByLine(f: Finding, path: string, req: Request, p: Progress)
    requires f.line > 0
    ensures var x, r := PlaceOf(f, path, p.lines, req.prefix), AdoptLine(f, req, p);
            if !HasValue(x) then r == p.(errors := p.errors + 1)
            else if x.key in p.entries && !req.force then r == p.(skipped := p.skipped + 1)
            else
              && r.errors == p.errors && r.skipped == p.skipped
              && r.stored == p.stored + [(x.key, ParseDotenvLine(x.text.value).value.1)]
              && r.entries.Keys == p.entries.Keys + {x.key}
              && (forall k :: k in p.entries && k != x.key ==> r.entries[k] == p.entries[k])
              && r.lines == p.lines[f.line - 1 := Pointer(ParseDotenvLine(x.text.value).value.0, x.key)]
  {
    hide ParseDotenvLine, Pointer, SetEntry;
    SetAddsKey(p.entries, req.now);
  }

  lemma {:induction false} ValueHasText(x: Place)
    ensures HasValue(x) ==> x.text.Some? && ParseDotenvLine(x.text.value).Some?
  {
  }

  /** One finding moves the account by its place, and changes its line if and only if it is adopted. */
  lemma {:induction false} AccountsForLine(f: Finding, path: string, req: Request, p: Progress, xs: seq<Place>,
                                           entries: Entries, unreadable: nat)
    requires f.line > 0 && Accounts(p, xs, entries, req.force, unreadable)
    ensures var x, r := PlaceOf(f, path, p.lines, req.prefix), AdoptLine(f, req, p);
            && Accounts(r, xs + [x], entries, req.force, unreadable)
            && (IsAdopted(xs + [x], |xs|, entries, req.force) ==> x.text.Some?)
            && r.lines == if IsAdopted(xs + [x], |xs|, entries, req.force)
                          then p.lines[f.line - 1 := LineAfter(xs + [x], |xs|, entries, req.force)]
                          else p.lines
  {
    hide ParseDotenvLine, Pointer, SetEntry, AdoptLine, HasValue, IsAdopted;
    LineByLine(f, path, req, p);
    ValueHasText(PlaceOf(f, path, p.lines, req.prefix));
    var x, r := PlaceOf(f, path, p.lines, req.prefix), AdoptLine(f, req, p);
    KeyIsTaken(p, xs, x, entries, req.force, unreadable);
    KeysForLine(p.entries, r.entries, xs, x, entries, req.force);
    hide HasKeys, PlaceOf;
    OneMorePlace(xs, x, entries, req.force);
  }

  lemma {:induction false} OneMorePlace(xs: seq<Place>, x: Place, entries: Entries, force: bool)
    ensures var n, ys := |xs|, xs + [x];
            var adopted := IsAdopted(ys, n, entries, force);
            && (adopted ==> HasValue(x))
            && Pairs(ys, n + 1, entries, force)
               == Pairs(xs, n, entries, force)
                  + (if adopted && HasValue(x) then [(x.key, ParseDotenvLine(x.text.value).value.1)] else [])
            && Errors(ys) == Errors(xs) + (if HasValue(x) then 0 else 1)
            && Skipped(ys, n + 1, entries, force)
               == Skipped(xs, n, entries, force) + (if HasValue(x) && !adopted then 1 else 0)
  {
    hide ParseDotenvLine;
    var ys := xs + [x];
    assert ys[..|ys| - 1] == xs && ys[|ys| - 1] == x;
    SamePrefix(xs, [x], |xs|, entries, force);
  }

  lemma {:induction false} KeysForLine(before: Entries, now: Entries, xs: seq<Place>, x: Place, entries: Entries,
                                       force: bool)
    requires HasKeys(before, xs, entries, force)
    requires if !HasValue(x) || (x.key in before && !force) then now == before
             else && now.Keys == before.Keys + {x.key}
                  && forall k :: k in before && k != x.key ==> now[k] == before[k]
    ensures HasKeys(now, xs + [x], entries, force)
  {
    hide HasValue, WithKey;
    forall key
      ensures key in now <==> key in entries || exists m :: 0 <= m < |xs + [x]| && WithKey((xs + [x])[m], key)
    {
      OneMore(xs, x, key);
      KeyOf(x, key);
      assert key in now.Keys <==> key in before.Keys || WithKey(x, key);
    }
  }

  lemma {:induction false} KeyOf(x: Place, key: string)
    ensures WithKey(x, key) <==> HasValue(x) && x.key == key
  {
  }

  lemma {:induction false} SetAddsKey(entries: Entries, now: int)
    ensures forall key, value: string ::
              var after := SetEntry(entries, key, value, TIER_USE_ONLY, now);
              after.Keys == entries.Keys + {key} && forall k :: k in entries && k != key ==> after[k] == entries[k]
  {
  }

  lemma {:induction false} OneMore(xs: seq<Place>, x: Place, key: string)
    ensures (exists m :: 0 <= m < |xs + [x]| && WithKey((xs + [x])[m], key)) <==>
            WithKey(x, key) || exists m :: 0 <= m < |xs| && WithKey(xs[m], key)
  {
    hide WithKey;
    var ys := xs + [x];
    if WithKey(x, key) {
      assert WithKey(ys[|xs|], key);
    }
    if m :| 0 <= m < |xs| && WithKey(xs[m], key) {
      assert WithKey(ys[m], key);
    }
  }

  lemma {:induction false} KeyIsTaken(p: Progress, xs: seq<Place>, x: Place, entries: Entries, force: bool,
                                      unreadable: nat)
    requires Accounts(p, xs, entries, force, unreadable)
    ensures IsAdopted(xs + [x], |xs|, entries, force) <==> HasValue(x) && (force || x.key !in p.entries)
  {
    hide HasValue;
    var ys := xs + [x];
    assert ys[|xs|] == x && forall m :: 0 <= m < |xs| ==> ys[m] == xs[m];
    assert forall m :: 0 <= m < |xs| && HasValue(xs[m]) && xs[m].key == x.key ==> WithKey(xs[m], x.key);
  }

  /** The lines of the places from `from` on are what `LineAfter` says. */
  predicate ShowsFrom(lines: seq<string>, xs: seq<Place>, from: nat, entries: Entries, force: bool) {
    forall n :: from <= n < |xs| && xs[n].text.Some? ==>
      0 < xs[n].line <= |lines| && lines[xs[n].line - 1] == LineAfter(xs, n, entries, force)
  }

  lemma {:induction false} AccountsForFile(findings: seq<Finding>, path: string, req: Request, p: Progress,
                                           xs: seq<Place>, entries: Entries, unreadable: nat)
    requires DistinctLines(findings) && Accounts(p, xs, entries, req.force, unreadable)
    ensures var r, ys := AdoptLines(findings, req, p), xs + PlacesIn(findings, path, p.lines, req.prefix);
            && Accounts(r, ys, entries, req.force, unreadable)
            && |r.lines| == |p.lines| && ShowsFrom(r.lines, ys, |xs|, entries, req.force)
    decreases |findings|
  {
    hide Accounts, AdoptLine, ParseDotenvLine, Pointer, IsAdopted;
    var all := PlacesIn(findings, path, p.lines, req.prefix);
    if findings == [] {
      assert xs + all == xs;
    } else {
      var n := |findings| - 1;
      var f, before := findings[n], PlacesIn(findings[..n], path, p.lines, req.prefix);
      AccountsForFile(findings[..n], path, req, p, xs, entries, unreadable);
      AdoptLinesJustified(findings[..n], req, p);
      var q := AdoptLines(findings[..n], req, p);
      LineIsStill(findings, p.lines, q.lines);
      AccountsForLine(f, path, req, q, xs + before, entries, unreadable);
      var x := PlaceOf(f, path, p.lines, req.prefix);
      assert xs + all == xs + before + [x];
      ShowsOneMore(q.lines, AdoptLine(f, req, q).lines, xs + before, |xs|, x, entries, req.force);
    }
  }

  /** No earlier finding has touched the line of the last one. */
  lemma {:induction false} LineIsStill(findings: seq<Finding>, before: seq<string>, now: seq<string>)
    requires DistinctLines(findings) && findings != []
    requires OnlyFound(before, now, findings[..|findings| - 1])
    ensures var f := findings[|findings| - 1];
            && f.line > 0 && (forall path, prefix :: PlaceOf(f, path, now, prefix) == PlaceOf(f, path, before, prefix))
            && (forall n :: 0 <= n < |findings| - 1 ==> findings[n].line != f.line)
  {
  }

  lemma {:induction false} ShowsOneMore(lines: seq<string>, now: seq<string>, xs: seq<Place>, from: nat, x: Place,
                                        entries: Entries, force: bool)
    requires from <= |xs| && ShowsFrom(lines, xs, from, entries, force)
    requires x.text.Some? ==> 0 < x.line <= |lines| && lines[x.line - 1] == x.text.value
    requires forall n :: from <= n < |xs| ==> xs[n].line != x.line
    requires IsAdopted(xs + [x], |xs|, entries, force) ==> x.text.Some?
    requires now == if IsAdopted(xs + [x], |xs|, entries, force)
                    then lines[x.line - 1 := LineAfter(xs + [x], |xs|, entries, force)] else lines
    ensures ShowsFrom(now, xs + [x], from, entries, force)
  {
    hide IsAdopted;
    forall n | 0 <= n < |xs| ensures IsAdopted(xs + [x], n, entries, force) <==> IsAdopted(xs, n, entries, force) {
      SameAdopted(xs, [x], n, entries, force);
    }
  }

  // ---- All files -------------------------------------------------------------------------------------

  /** The files show at every place from `from` on what `LineAfter` says. */
  predicate FilesShow(files: map<string, seq<string>>, xs: seq<Place>, entries: Entries, force: bool) {
    forall n :: 0 <= n < |xs| && xs[n].text.Some? ==>
      && xs[n].path in files && 0 < xs[n].line <= |files[xs[n].path]|
      && files[xs[n].path][xs[n].line - 1] == LineAfter(xs, n, entries, force)
  }

  lemma {:induction false} PlacesInFiles(work: seq<FileWork>, sources: map<string, seq<string>>, prefix: string)
    ensures forall n :: 0 <= n < |Places(work, sources, prefix)| ==>
              FileIn(work, Places(work, sources, prefix)[n].path)
  {
    if work != [] {
      hide FileIn;
      var n := |work| - 1;
      PlacesInFiles(work[..n], sources, prefix);
      forall path ensures FileIn(work[..n], path) ==> FileIn(work, path) {
        FilesGrow(work, path);
      }
      FilesGrow(work, work[n].path);
    }
  }

  lemma {:induction false} RewrittenElsewhere(files: map<string, seq<string>>, rewrites: seq<Rewrite>, path: string)
    requires forall i :: 0 <= i < |rewrites| ==> rewrites[i].path != path
    ensures path in files <==> path in Rewritten(files, rewrites)
    ensures path in files ==> Rewritten(files, rewrites)[path] == files[path]
  {
    if rewrites != [] {
      RewrittenElsewhere(files, rewrites[..|rewrites| - 1], path);
    }
  }

  /** One more file: its places are shown, and those of the others still are. */
  lemma {:induction false} FilesShowMore(files: map<string, seq<string>>, path: string, lines: seq<string>,
                                         xs: seq<Place>, ys: seq<Place>, entries: Entries, force: bool)
    requires FilesShow(files, xs, entries, force) && ShowsFrom(lines, xs + ys, |xs|, entries, force)
    requires forall n :: 0 <= n < |xs| ==> xs[n].path != path
    requires forall n :: 0 <= n < |ys| ==> ys[n].path == path
    ensures FilesShow(files[path := lines], xs + ys, entries, force)
  {
    hide IsAdopted, ParseDotenvLine, Pointer;
    var all, after := xs + ys, files[path := lines];
    forall n | 0 <= n < |all| && all[n].text.Some?
      ensures all[n].path in after && 0 < all[n].line <= |after[all[n].path]|
      ensures after[all[n].path][all[n].line - 1] == LineAfter(all, n, entries, force)
    {
      if n < |xs| {
        SameAdopted(xs, ys, n, entries, force);
        assert all[n] == xs[n];
      } else {
        assert all[n] == ys[n - |xs|];
      }
    }
  }

  /** What a plan stores, counts and writes, place by place. */
  lemma {:induction false} PlanAccounts(work: seq<FileWork>, sources: map<string, seq<string>>, req: Request,
                                        entries: Entries)
    requires DistinctWork(work)
    ensures var (p, rewrites) := PlanAdoption(work, sources, req, Progress(entries, [], [], [], 0, 0));
            var xs := Places(work, sources, req.prefix);
            && Accounts(p, xs, entries, req.force, Unreadable(work, sources))
            && FilesShow(Rewritten(sources, rewrites), xs, entries, req.force)
  {
    hide Accounts, FilesShow, ShowsFrom, AdoptLines, FileIn, DistinctLines, PlanJustified, Rewritten;
    var start := Progress(entries, [], [], [], 0, 0);
    if work == [] {
      NothingAccounts(entries, req.force);
      EmptyShows(Rewritten(sources, []), entries, req.force);
    } else {
      var n := |work| - 1;
      var path := work[n].path;
      PlanAccounts(work[..n], sources, req, entries);
      PlanIsJustified(work[..n], sources, req, start);
      PlacesInFiles(work[..n], sources, req.prefix);
      FilesGrow(work, path);
      var (p, rewrites) := PlanAdoption(work[..n], sources, req, start);
      var xs := Places(work[..n], sources, req.prefix);
      if path in sources {
        OneMoreFile(work[n], sources, req, p, rewrites, xs, entries, Unreadable(work[..n], sources));
      } else {
        assert xs + [] == xs;
        MoreUnreadable(p, xs, entries, req.force, Unreadable(work[..n], sources));
      }
    }
  }

  lemma {:induction false} OneMoreFile(work: FileWork, sources: map<string, seq<string>>, req: Request, p: Progress,
                                       rewrites: seq<Rewrite>, xs: seq<Place>, entries: Entries, unreadable: nat)
    requires DistinctLines(work.findings) && work.path in sources
    requires Accounts(p, xs, entries, req.force, unreadable)
    requires FilesShow(Rewritten(sources, rewrites), xs, entries, req.force)
    requires forall i :: 0 <= i < |rewrites| ==> rewrites[i].path != work.path
    requires forall n :: 0 <= n < |xs| ==> xs[n].path != work.path
    ensures var before := sources[work.path];
            var r := AdoptLines(work.findings, req, p.(lines := before));
            var ys := xs + PlacesIn(work.findings, work.path, before, req.prefix);
            var more := if |r.stored| == |p.stored| then rewrites
                        else rewrites + [Rewrite(work.path, before, r.lines)];
            && Accounts(r, ys, entries, req.force, unreadable)
            && FilesShow(Rewritten(sources, more), ys, entries, req.force)
  {
    hide FilesShow, ShowsFrom, AdoptLines, DistinctLines;
    var before := sources[work.path];
    var begun := p.(lines := before);
    var ys := PlacesIn(work.findings, work.path, before, req.prefix);
    assert Accounts(begun, xs, entries, req.force, unreadable);
    hide Accounts;
    AccountsForFile(work.findings, work.path, req, begun, xs, entries, unreadable);
    AdoptLinesJustified(work.findings, req, begun);
    var r := AdoptLines(work.findings, req, begun);
    var files := Rewritten(sources, rewrites);
    RewrittenElsewhere(sources, rewrites, work.path);
    FilesShowMore(files, work.path, r.lines, xs, ys, entries, req.force);
    if |r.stored| == |p.stored| {
      assert files[work.path := r.lines] == files;
    } else {
      assert (rewrites + [Rewrite(work.path, before, r.lines)])[..|rewrites|] == rewrites;
    }
  }

  lemma {:induction false} NothingAccounts(entries: Entries, force: bool)
    ensures Accounts(Progress(entries, [], [], [], 0, 0), [], entries, force, 0)
  {
  }

  lemma {:induction false} EmptyShows(files: map<string, seq<string>>, entries: Entries, force: bool)
    ensures FilesShow(files, [], entries, force)
  {
  }

  lemma {:induction false} MoreUnreadable(p: Progress, xs: seq<Place>, entries: Entries, force: bool, unreadable: nat)
    requires Accounts(p, xs, entries, force, unreadable)
    ensures Accounts(p.(errors := p.errors + 1), xs, entries, force, unreadable + 1)
  {
  }

  // ---- What a user sees ---------------------------------------------------------------------------------

  /** Without `force` no existing entry changes, and no stored pair names one. */
  lemma {:induction false} ExistingAreKept(work: seq<FileWork>, sources: map<string, seq<string>>, req: Request,
                                           entries: Entries)
    requires DistinctWork(work) && !req.force
    ensures var p := PlanAdoption(work, sources, req, Progress(entries, [], [], [], 0, 0)).0;
            && (forall key :: key in entries ==> key in p.entries && p.entries[key] == entries[key])
            && (forall i :: 0 <= i < |p.stored| ==> p.stored[i].0 !in entries)
  {
    PlanAccounts(work, sources, req, entries);
    var xs := Places(work, sources, req.prefix);
    PairsAreNew(xs, |xs|, entries);
  }

  lemma {:induction false} PairsAreNew(xs: seq<Place>, n: nat, entries: Entries)
    requires n <= |xs|
    ensures forall i :: 0 <= i < |Pairs(xs, n, entries, false)| ==> Pairs(xs, n, entries, false)[i].0 !in entries
  {
    if n > 0 {
      PairsAreNew(xs, n - 1, entries);
    }
  }

  /** The line of a finding changes if and only if it exists, assigns a value that is not empty, and its key is free
      or `force` is set. */
  lemma {:induction false} LineChangesIff(work: seq<FileWork>, sources: map<string, seq<string>>, req: Request,
                                          entries: Entries, n: nat)
    requires DistinctWork(work) && n < |Places(work, sources, req.prefix)|
    ensures var files := Rewritten(sources, PlanAdoption(work, sources, req, Progress(entries, [], [], [], 0, 0)).1);
            var xs := Places(work, sources, req.prefix);
            var x := xs[n];
            && (IsAdopted(xs, n, entries, req.force) ==> x.text.Some?)
            && (x.text.Some? ==>
                  && x.path in files && 0 < x.line <= |files[x.path]|
                  && (files[x.path][x.line - 1] != x.text.value <==> IsAdopted(xs, n, entries, req.force))
                  && (IsAdopted(xs, n, entries, req.force) ==>
                        files[x.path][x.line - 1] == Pointer(ParseDotenvLine(x.text.value).value.0, x.key)))
  {
    hide PlanAdoption, Rewritten, Places, Accounts;
    PlanAccounts(work, sources, req, entries);
    var x := Places(work, sources, req.prefix)[n];
    if HasValue(x) {
      PointerIsNoAssignment(ParseDotenvLine(x.text.value).value.0, x.key);
    }
  }

  /** The comment that replaces a line is no assignment, so it differs from every line that was one. */
  lemma {:induction false} PointerIsNoAssignment(name: string, key: string)
    ensures ParseDotenvLine(Pointer(name, key)) == None
  {
    var s := Pointer(name, key);
    assert s[0] == '#';
    TrimKeepsHash(s);
  }

  /** It tells which name was assigned and which key has the value now, as long as names have no angle bracket. */
  lemma {:induction false} PointerTells(name: string, key: string, other: string, otherKey: string)
    requires '>' !in name && '>' !in other
    ensures Pointer(name, key) == Pointer(other, otherKey) ==> name == other && key == otherKey
  {
    var s, t, mark := Pointer(name, key), Pointer(other, otherKey), "> hearth-vault: ";
    if s == t {
      BracketComesAfter(name, key, other);
      BracketComesAfter(other, otherKey, name);
      assert name == s[2..2 + |name|] == t[2..2 + |other|] == other;
      var from := |name| + 4 + |mark|;
      assert key == s[from..|s| - |" (value removed)"|] && otherKey == t[from..|t| - |" (value removed)"|];
    }
  }

  lemma {:induction false} BracketComesAfter(name: string, key: string, other: string)
    requires '>' !in name
    ensures Pointer(name, key)[|name| + 4] == '>'
    ensures |other| < |name| ==> Pointer(name, key)[|other| + 4] != '>'
  {
    var s := Pointer(name, key);
    assert forall i :: 0 <= i < |name| ==> s[2 + i] == name[i];
  }

  lemma {:induction false} TrimKeepsHash(s: string)
    requires s != "" && s[0] == '#'
    ensures Trim(s) != "" && Trim(s)[0] == '#'
  {
    assert TrimStart(s) == s;
    if IsWhitespace(s[|s| - 1]) {
      TrimKeepsHash(s[..|s| - 1]);
    }
  }
}
