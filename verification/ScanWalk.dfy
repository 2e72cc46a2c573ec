/** Which files a directory scan reads (src/scan.rs): the walk over an explicit stack, against the recursive
    definition. */
module ScanWalk {
  import opened Common

  /** What a directory entry turns out to be.  A directory that is not `readable` cannot be listed.  `size` is
      None when the length cannot be asked for, and `head` is what reading the first 8 KiB gives, None when the
      file cannot be opened. */
  datatype Node =
    | Dir(readable: bool, entries: seq<Entry>)
    | File(size: Option<nat>, head: Option<seq<byte>>)
    | Special
    | Unreadable

  datatype Entry = Entry(name: string, node: Node)

  type Path = seq<string>

  const SKIP_DIRS := {".git", "target", "node_modules", "vendor", "dist", "build", ".venv", "__pycache__"}

  const SKIP_FILE_NAMES := {
    ".gitleaksignore", "Cargo.lock", "package-lock.json", "yarn.lock", "pnpm-lock.yaml", "composer.lock",
    "Gemfile.lock", "poetry.lock", "Pipfile.lock", "Podfile.lock", "mix.lock", "flake.lock"
  }

  const SCAN_DOT_DIRS := {".github", ".gitlab", ".circleci", ".config"}

  const MAX_SCAN_FILE_SIZE := 1024 * 1024

  predicate ShouldSkipDir(name: string) {
    name in SKIP_DIRS || ("." <= name && name !in SCAN_DOT_DIRS)
  }

  predicate EndsWith(s: string, suffix: string) {
    |suffix| <= |s| && s[|s| - |suffix|..] == suffix
  }

  predicate ShouldSkipFile(name: string) {
    name in SKIP_FILE_NAMES || EndsWith(name, ".lock")
  }

  predicate LooksBinary(head: Option<seq<byte>>) {
    head.None? || 0 in head.value
  }

  predicate Eligible(e: Entry) {
    && e.node.File?
    && !ShouldSkipFile(e.name)
    && !(e.node.size.Some? && e.node.size.value > MAX_SCAN_FILE_SIZE)
    && !LooksBinary(e.node.head)
  }

  predicate Enters(e: Entry) {
    e.node.Dir? && !ShouldSkipDir(e.name)
  }

  // ---------------------------------------------------------------------------------------------
  // What should be scanned

  /** A file that a scan reads: not larger than 1 MiB, without a NUL byte at its start, and neither a lock file nor
      the list of allowed findings. */
  ghost predicate IsScanned(e: Entry) {
    && e.node.File? && (e.node.size.Some? ==> e.node.size.value <= 1048576)
    && e.node.head.Some? && (forall i :: 0 <= i < |e.node.head.value| ==> e.node.head.value[i] != 0)
    && e.name != ".gitleaksignore" && e.name != "package-lock.json" && e.name != "pnpm-lock.yaml"
    && !exists stem :: e.name == stem + ".lock"
  }

  /** A directory that a scan descends into: no build output, no packages of others, and of the dot-directories only
      those where continuous integration is defined. */
  predicate IsSearched(e: Entry) {
    && e.node.Dir?
    && e.name !in {"target", "node_modules", "vendor", "dist", "build", "__pycache__"}
    && (e.name != "" && e.name[0] == '.' ==> e.name in {".github", ".gitlab", ".circleci", ".config"})
  }

  lemma {:induction false} LockFiles(name: string)
    ensures EndsWith(name, ".lock") <==> exists stem :: name == stem + ".lock"
    ensures name in SKIP_FILE_NAMES ==>
              EndsWith(name, ".lock") || name in {".gitleaksignore", "package-lock.json", "pnpm-lock.yaml"}
  {
    if EndsWith(name, ".lock") {
      assert name == name[..|name| - 5] + ".lock";
    }
    hide EndsWith;
    if stem :| name == stem + ".lock" {
      EndsInLock(stem, name);
    }
    if name in SKIP_FILE_NAMES && name !in {".gitleaksignore", "package-lock.json", "pnpm-lock.yaml"} {
      SkippedLocks(name);
    }
  }

  lemma {:induction false} SkippedLocks(name: string)
    requires name in {"Cargo.lock", "yarn.lock", "composer.lock", "Gemfile.lock", "poetry.lock", "Pipfile.lock",
                      "Podfile.lock", "mix.lock", "flake.lock"}
    ensures EndsWith(name, ".lock")
  {
    hide EndsWith;
    EndsInLock(name[..|name| - 5], name);
  }

  lemma {:induction false} EndsInLock(stem: string, name: string)
    requires name == stem + ".lock"
    ensures EndsWith(name, ".lock")
  {
    assert name[|name| - 5..] == ".lock";
  }

  lemma {:induction false} EligibleIff(e: Entry)
    ensures Eligible(e) <==> IsScanned(e)
  {
    hide EndsWith;
    LockFiles(e.name);
  }

  lemma {:induction false} EntersIff(e: Entry)
    ensures Enters(e) <==> IsSearched(e)
  {
    assert "." <= e.name <==> e.name != "" && e.name[0] == '.';
    assert ".git"[0] == '.' && ".venv"[0] == '.';
  }

  /** Following `path` down from `dir` passes only directories that are listed and not skipped, and ends at a file
      to scan. */
  ghost predicate ToScan(dir: Node, path: Path)
    decreases |path|
  {
    && dir.Dir?
    && dir.readable
    && path != []
    && exists i :: 0 <= i < |dir.entries| && StepsTo(dir.entries[i], path)
  }

  ghost predicate StepsTo(e: Entry, path: Path)
    requires path != []
    decreases |path|, 0
  {
    && e.name == path[0]
    && if |path| == 1 then IsScanned(e) else IsSearched(e) && ToScan(e.node, path[1..])
  }

  /** The names in a directory are different, all the way down. */
  predicate DistinctNames(n: Node)
    decreases n, 0
  {
    n.Dir? && n.readable ==> DistinctEntries(n.entries)
  }

  predicate DistinctEntries(es: seq<Entry>)
    decreases es, 1
  {
    && (forall i, j :: 0 <= i < j < |es| ==> es[i].name != es[j].name)
    && (forall i :: 0 <= i < |es| ==> DistinctNames(es[i].node))
  }

  // ---------------------------------------------------------------------------------------------
  // The recursive definition

  function FilesOf(prefix: Path, n: Node): seq<Path>
    decreases n, 0
  {
    if n.Dir? && n.readable then FilesIn(prefix, n.entries) else []
  }

  function FilesIn(prefix: Path, es: seq<Entry>): seq<Path>
    decreases es, 1
  {
    if es == [] then [] else FilesAt(prefix, es[0]) + FilesIn(prefix, es[1..])
  }

  function FilesAt(prefix: Path, e: Entry): seq<Path>
    decreases e, 0
  {
    if Enters(e) then FilesOf(prefix + [e.name], e.node)
    else if Eligible(e) then [prefix + [e.name]]
    else []
  }

  function Dirs(n: Node): nat
    decreases n, 0
  {
    if n.Dir? && n.readable then 1 + DirsIn(n.entries) else 1
  }

  function DirsIn(es: seq<Entry>): nat
    decreases es, 1
  {
    if es == [] then 0 else Dirs(es[0].node) + DirsIn(es[1..])
  }

  // The recursive definition lists exactly what should be scanned

  lemma {:induction false} StartsWithPrefix(prefix: Path, n: Node, p: Path)
    requires p in FilesOf(prefix, n)
    ensures prefix < p
    decreases n, 0
  {
    StartsWithPrefixIn(prefix, n.entries, p);
  }

  /** A path found in a directory goes on with the name of one of its entries. */
  lemma {:induction false} StartsWithPrefixIn(prefix: Path, es: seq<Entry>, p: Path)
    requires p in FilesIn(prefix, es)
    ensures prefix < p && exists i :: 0 <= i < |es| && es[i].name == p[|prefix|] && p in FilesAt(prefix, es[i])
    decreases es, 1
  {
    if p in FilesAt(prefix, es[0]) {
      if Enters(es[0]) {
        StartsWithPrefix(prefix + [es[0].name], es[0].node, p);
        assert (prefix + [es[0].name])[|prefix|] == es[0].name;
      }
    } else {
      StartsWithPrefixIn(prefix, es[1..], p);
      var i :| 0 <= i < |es| - 1 && es[1..][i].name == p[|prefix|] && p in FilesAt(prefix, es[1..][i]);
      assert es[i + 1] == es[1..][i];
    }
  }

  lemma {:induction false} EntryListed(prefix: Path, es: seq<Entry>, i: nat, p: Path)
    requires i < |es| && p in FilesAt(prefix, es[i])
    ensures p in FilesIn(prefix, es)
  {
    if i > 0 {
      assert es[i] == es[1..][i - 1];
      EntryListed(prefix, es[1..], i - 1, p);
    }
  }

  lemma {:induction false} ListedIff(prefix: Path, n: Node, path: Path)
    ensures prefix + path in FilesOf(prefix, n) <==> ToScan(n, path)
    decreases |path|
  {
    if n.Dir? && n.readable {
      if prefix + path in FilesOf(prefix, n) {
        StartsWithPrefixIn(prefix, n.entries, prefix + path);
        var i :| 0 <= i < |n.entries| && n.entries[i].name == (prefix + path)[|prefix|]
                 && prefix + path in FilesAt(prefix, n.entries[i]);
        ListedAtIff(prefix, n.entries[i], path);
      }
      if ToScan(n, path) {
        var i :| 0 <= i < |n.entries| && StepsTo(n.entries[i], path);
        ListedAtIff(prefix, n.entries[i], path);
        EntryListed(prefix, n.entries, i, prefix + path);
      }
    }
  }

  lemma {:induction false} ListedAtIff(prefix: Path, e: Entry, path: Path)
    requires path != []
    ensures prefix + path in FilesAt(prefix, e) <==> StepsTo(e, path)
    decreases |path|, 0
  {
    hide Eligible, IsScanned, Enters, IsSearched;
    EligibleIff(e);
    EntersIff(e);
    KindsDiffer(e);
    var longer := prefix + [e.name];
    if e.name == path[0] {
      assert longer + path[1..] == prefix + path;
      if Enters(e) {
        ListedIff(longer, e.node, path[1..]);
        assert |path| == 1 ==> path[1..] == [];
      } else {
        assert longer == prefix + path <==> |path| == 1;
      }
    } else {
      assert (prefix + path)[|prefix|] != longer[|prefix|];
      if Enters(e) && prefix + path in FilesOf(longer, e.node) {
        StartsWithPrefix(longer, e.node, prefix + path);
      }
    }
  }

  lemma {:induction false} KindsDiffer(e: Entry)
    ensures Enters(e) ==> e.node.Dir?
    ensures Eligible(e) ==> e.node.File?
  {
  }

  // Each file once

  predicate NoDuplicates(paths: multiset<Path>) {
    forall p :: p in paths ==> paths[p] == 1
  }

  lemma {:induction false} FilesOnce(prefix: Path, n: Node)
    requires DistinctNames(n)
    ensures NoDuplicates(multiset(FilesOf(prefix, n)))
    decreases n, 0
  {
    if n.Dir? && n.readable {
      FilesInOnce(prefix, n.entries);
    }
  }

  lemma {:induction false} FilesInOnce(prefix: Path, es: seq<Entry>)
    requires DistinctEntries(es)
    ensures NoDuplicates(multiset(FilesIn(prefix, es)))
    decreases es, 1
  {
    if es != [] {
      var first, rest := FilesAt(prefix, es[0]), FilesIn(prefix, es[1..]);
      FilesInOnce(prefix, es[1..]);
      assert DistinctNames(es[0].node);
      if Enters(es[0]) {
        FilesOnce(prefix + [es[0].name], es[0].node);
      }
      forall p | p in multiset(first)
        ensures p !in multiset(rest)
      {
        assert p in first;
        NameFollows(prefix, es[0], p);
        if p in rest {
          StartsWithPrefixIn(prefix, es[1..], p);
        }
      }
      assert multiset(FilesIn(prefix, es)) == multiset(first) + multiset(rest);
    }
  }

  lemma {:induction false} NameFollows(prefix: Path, e: Entry, p: Path)
    requires p in FilesAt(prefix, e)
    ensures prefix < p && p[|prefix|] == e.name
  {
    if Enters(e) {
      StartsWithPrefix(prefix + [e.name], e.node, p);
      assert (prefix + [e.name])[|prefix|] == e.name;
    }
  }

  // ---------------------------------------------------------------------------------------------
  // The walk

  /** A directory that waits to be listed, and its path. */
  datatype Task = Task(path: Path, dir: Node)

  function Pending(stack: seq<Task>): multiset<Path> {
    if stack == [] then multiset{}
    else
      var top := stack[|stack| - 1];
      Pending(stack[..|stack| - 1]) + multiset(FilesOf(top.path, top.dir))
  }

  function Height(stack: seq<Task>): nat {
    if stack == [] then 0 else Height(stack[..|stack| - 1]) + Dirs(stack[|stack| - 1].dir)
  }

  lemma {:induction false} Pushed(stack: seq<Task>, t: Task)
    ensures Pending(stack + [t]) == Pending(stack) + multiset(FilesOf(t.path, t.dir))
    ensures Height(stack + [t]) == Height(stack) + Dirs(t.dir)
  {
    assert (stack + [t])[..|stack|] == stack;
  }

  lemma {:induction false} OneEntry(prefix: Path, es: seq<Entry>, k: nat)
    requires k < |es|
    ensures multiset(FilesIn(prefix, es[k..]))
         == multiset(FilesAt(prefix, es[k])) + multiset(FilesIn(prefix, es[k + 1..]))
    ensures DirsIn(es[k..]) == Dirs(es[k].node) + DirsIn(es[k + 1..])
  {
    assert es[k..][0] == es[k] && es[k..][1..] == es[k + 1..];
  }

  lemma {:induction false} CollectedExactly(out: seq<Path>, root: Node)
    requires multiset(out) == multiset(FilesOf([], root))
    ensures forall p :: p in out <==> ToScan(root, p)
    ensures DistinctNames(root) ==> NoDuplicates(multiset(out))
  {
    hide FilesOf, ToScan, DistinctNames;
    forall p
      ensures p in out <==> ToScan(root, p)
    {
      ListedIff([], root, p);
      assert [] + p == p;
      assert p in out <==> p in multiset(out);
      assert p in FilesOf([], root) <==> p in multiset(FilesOf([], root));
    }
    if DistinctNames(root) {
      FilesOnce([], root);
    }
  }

  /** Collects exactly the files that should be scanned under `root`, each of them once. */
  method CollectFiles(root: Node) returns (out: seq<Path>)
    ensures multiset(out) == multiset(FilesOf([], root))
    ensures forall p :: p in out <==> ToScan(root, p)
    ensures DistinctNames(root) ==> NoDuplicates(multiset(out))
  {
    out := [];
    var stack := [Task([], root)];
    Pushed([], stack[0]);
    assert [] + stack == stack;
    while stack != []
      invariant multiset(out) + Pending(stack) == multiset(FilesOf([], root))
      decreases Height(stack)
    {
      var task := stack[|stack| - 1];
      stack := stack[..|stack| - 1];
      if !(task.dir.Dir? && task.dir.readable) {
        continue;
      }
      out, stack := ListDirectory(task.path, task.dir.entries, out, stack);
    }
    CollectedExactly(out, root);
  }

  /** The body of the loop for a directory that can be listed. */
  method ListDirectory(path: Path, entries: seq<Entry>, before: seq<Path>, below: seq<Task>)
    returns (out: seq<Path>, stack: seq<Task>)
    ensures multiset(out) + Pending(stack) == multiset(before) + Pending(below) + multiset(FilesIn(path, entries))
    ensures Height(stack) <= Height(below) + DirsIn(entries)
  {
    out, stack := before, below;
    assert entries[0..] == entries;
    for k := 0 to |entries|
      invariant multiset(out) + Pending(stack) + multiset(FilesIn(path, entries[k..]))
             == multiset(before) + Pending(below) + multiset(FilesIn(path, entries))
      invariant Height(stack) + DirsIn(entries[k..]) <= Height(below) + DirsIn(entries)
    {
      hide FilesOf, FilesIn, Pending, Height, Dirs, DirsIn, ShouldSkipDir, ShouldSkipFile, LooksBinary;
      var e := entries[k];
      OneEntry(path, entries, k);
      if e.node.Dir? {
        if !ShouldSkipDir(e.name) {
          Pushed(stack, Task(path + [e.name], e.node));
          stack := stack + [Task(path + [e.name], e.node)];
        }
        continue;
      }
      if !e.node.File? {
        continue;
      }
      if ShouldSkipFile(e.name) {
        continue;
      }
      if e.node.size.Some? && e.node.size.value > MAX_SCAN_FILE_SIZE {
        continue;
      }
      if LooksBinary(e.node.head) {
        continue;
      }
      out := out + [path + [e.name]];
    }
  }
}
