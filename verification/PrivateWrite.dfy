/** Crash-atomic replacement of a file (src/hsm/platform.rs, Unix path).

    The volume keeps two copies of the directory: the one processes see, and the one that is on the
    medium, together with the changes that have not been flushed yet.  A crash keeps any subset of
    those changes, in order, and may leave anything at all in a file whose bytes were never synced. */
module PrivateWrite {
  import opened Common

  type Content = seq<byte>

  /** A file name is text when it is valid UTF-8. */
  datatype FileName = Text(text: string) | Raw(bytes: seq<byte>)

  datatype Inode = Inode(content: Content, synced: bool, ownerOnly: bool)

  /** A change of the directory.  A move records the file it moved. */
  datatype Change =
    | Link(name: FileName, ino: nat)
    | Unlink(name: FileName)
    | Move(from: FileName, to: FileName, ino: nat)

  type Directory = map<FileName, nat>

  datatype Volume = Volume(inodes: seq<Inode>, entries: Directory, durable: Directory, pending: seq<Change>)

  /** Which of the calls to the operating system succeed.  `accepts` is how many bytes a failing
      write takes; None is a write that takes them all. */
  datatype Faults = Faults(removes: bool, creates: bool, accepts: Option<nat>, syncs: bool, renames: bool,
                           cleans: bool, dirOpens: bool, dirSyncs: bool)

  // ---------------------------------------------------------------------------------------------
  // Volumes and crashes

  function Apply(d: Directory, c: Change): Directory {
    match c
    case Link(name, ino) => d[name := ino]
    case Unlink(name) => d - {name}
    case Move(from, to, ino) => (d - {from})[to := ino]
  }

  /** The changes that are kept, in order. */
  function ApplyKept(d: Directory, changes: seq<Change>, keep: seq<bool>): Directory
    requires |keep| == |changes|
  {
    if changes == [] then d
    else
      var before := ApplyKept(d, changes[..|changes| - 1], keep[..|keep| - 1]);
      if keep[|keep| - 1] then Apply(before, changes[|changes| - 1]) else before
  }

  function ApplyAll(d: Directory, changes: seq<Change>): Directory {
    if changes == [] then d else Apply(ApplyAll(d, changes[..|changes| - 1]), changes[|changes| - 1])
  }

  ghost predicate Refers(c: Change, bound: nat) {
    c.Unlink? || c.ino < bound
  }

  ghost predicate Valid(v: Volume) {
    && v.entries == ApplyAll(v.durable, v.pending)
    && (forall name :: name in v.entries ==> v.entries[name] < |v.inodes|)
    && (forall name :: name in v.durable ==> v.durable[name] < |v.inodes|)
    && (forall k :: 0 <= k < |v.pending| ==> Refers(v.pending[k], |v.inodes|))
  }

  function Entry(d: Directory, name: FileName): Option<nat> {
    if name in d then Some(d[name]) else None
  }

  /** What a reader of `name` gets. */
  function Read(v: Volume, name: FileName): Option<Content> {
    if name in v.entries && v.entries[name] < |v.inodes| then Some(v.inodes[v.entries[name]].content) else None
  }

  /** `after` is what a machine that lost power in state `v` may find when it comes back. */
  ghost predicate CrashTo(v: Volume, after: Volume) {
    && (exists keep: seq<bool> | |keep| == |v.pending| :: after.entries == ApplyKept(v.durable, v.pending, keep))
    && |after.inodes| == |v.inodes|
    && (forall i :: 0 <= i < |v.inodes| ==> after.inodes[i].synced && SurvivesAs(v.inodes[i], after.inodes[i]))
    && after.durable == after.entries
    && after.pending == []
  }

  ghost predicate SurvivesAs(before: Inode, after: Inode) {
    after.ownerOnly == before.ownerOnly && (before.synced ==> after.content == before.content)
  }

  /** Some crash in state `v` leaves `c` under `name`. */
  ghost predicate CrashMayGive(v: Volume, name: FileName, c: Option<Content>) {
    exists after :: CrashTo(v, after) && Read(after, name) == c
  }

  // What a crash can leave under a name

  /** What a change does to the entry of `name`, if it touches it. */
  function EffectOn(c: Change, name: FileName): Option<Option<nat>> {
    match c
    case Link(n, ino) => if n == name then Some(Some(ino)) else None
    case Unlink(n) => if n == name then Some(None) else None
    case Move(from, to, ino) => if to == name then Some(Some(ino)) else if from == name then Some(None) else None
  }

  ghost predicate MayPointTo(v: Volume, name: FileName, e: Option<nat>) {
    || e == Entry(v.durable, name)
    || exists k :: 0 <= k < |v.pending| && EffectOn(v.pending[k], name) == Some(e)
  }

  ghost predicate MayLeave(v: Volume, e: Option<nat>, c: Option<Content>) {
    match e
    case None => c == None
    case Some(i) => c.Some? && i < |v.inodes| && (v.inodes[i].synced ==> c.value == v.inodes[i].content)
  }

  /** Reading `name` after a crash may give `c`, as far as the state of the volume decides it. */
  ghost predicate MayRead(v: Volume, name: FileName, c: Option<Content>) {
    exists e :: MayPointTo(v, name, e) && MayLeave(v, e, c)
  }

  lemma {:induction false} KeptEntry(d: Directory, changes: seq<Change>, keep: seq<bool>, name: FileName)
    requires |keep| == |changes|
    ensures
      var e := Entry(ApplyKept(d, changes, keep), name);
      e == Entry(d, name) || exists k :: 0 <= k < |changes| && EffectOn(changes[k], name) == Some(e)
  {
    if changes != [] {
      var n := |changes| - 1;
      KeptEntry(d, changes[..n], keep[..n], name);
      var e := Entry(ApplyKept(d, changes[..n], keep[..n]), name);
      if keep[n] && EffectOn(changes[n], name) != None {
        assert EffectOn(changes[n], name) == Some(Entry(ApplyKept(d, changes, keep), name));
      } else {
        assert Entry(ApplyKept(d, changes, keep), name) == e;
        if e != Entry(d, name) {
          var k :| 0 <= k < n && EffectOn(changes[..n][k], name) == Some(e);
          assert changes[k] == changes[..n][k];
        }
      }
    }
  }

  /** Keeping one change alone. */
  function Only(n: nat, k: nat): (keep: seq<bool>)
    ensures |keep| == n
  {
    seq(n, i => i == k)
  }

  lemma {:induction false} KeepNothing(d: Directory, changes: seq<Change>, keep: seq<bool>)
    requires |keep| == |changes|
    requires forall i :: 0 <= i < |keep| ==> !keep[i]
    ensures ApplyKept(d, changes, keep) == d
  {
    if changes != [] {
      KeepNothing(d, changes[..|changes| - 1], keep[..|keep| - 1]);
    }
  }

  lemma {:induction false} KeepOne(d: Directory, changes: seq<Change>, k: nat)
    requires k < |changes|
    ensures ApplyKept(d, changes, Only(|changes|, k)) == Apply(d, changes[k])
  {
    var n := |changes| - 1;
    var keep := Only(|changes|, k);
    if k == n {
      KeepNothing(d, changes[..n], keep[..n]);
    } else {
      KeepOne(d, changes[..n], k);
      assert keep[..n] == Only(n, k);
    }
  }

  lemma {:induction false} KeepAll(d: Directory, changes: seq<Change>, keep: seq<bool>)
    requires |keep| == |changes|
    requires forall i :: 0 <= i < |keep| ==> keep[i]
    ensures ApplyKept(d, changes, keep) == ApplyAll(d, changes)
  {
    if changes != [] {
      KeepAll(d, changes[..|changes| - 1], keep[..|keep| - 1]);
    }
  }

  lemma {:induction false} EntryInRange(v: Volume, name: FileName, e: Option<nat>)
    requires Valid(v) && MayPointTo(v, name, e)
    ensures e.Some? ==> e.value < |v.inodes|
  {
    if e.Some? && e != Entry(v.durable, name) {
      var k :| 0 <= k < |v.pending| && EffectOn(v.pending[k], name) == Some(e);
      assert Refers(v.pending[k], |v.inodes|);
    }
  }

  /** The crash that keeps the given changes and leaves `junk` in every file that was not synced. */
  function Crashed(v: Volume, keep: seq<bool>, junk: Content): Volume
    requires |keep| == |v.pending|
  {
    var d := ApplyKept(v.durable, v.pending, keep);
    Volume(seq(|v.inodes|, i requires 0 <= i < |v.inodes| =>
                 if v.inodes[i].synced then v.inodes[i] else Inode(junk, true, v.inodes[i].ownerOnly)), d, d, [])
  }

  lemma {:induction false} CrashReads(v: Volume, name: FileName, after: Volume)
    requires Valid(v) && CrashTo(v, after)
    ensures MayRead(v, name, Read(after, name))
  {
    var keep: seq<bool> :| |keep| == |v.pending| && after.entries == ApplyKept(v.durable, v.pending, keep);
    KeptEntry(v.durable, v.pending, keep, name);
    var e := Entry(after.entries, name);
    assert MayPointTo(v, name, e);
    EntryInRange(v, name, e);
    assert MayLeave(v, e, Read(after, name));
  }

  lemma {:induction false} Realise(v: Volume, name: FileName, e: Option<nat>, keep: seq<bool>, c: Option<Content>)
    requires |keep| == |v.pending|
    requires Entry(ApplyKept(v.durable, v.pending, keep), name) == e && MayLeave(v, e, c)
    ensures exists after :: CrashTo(v, after) && Read(after, name) == c
  {
    var after := Crashed(v, keep, if c.Some? then c.value else []);
    assert CrashTo(v, after);
    assert Entry(after.entries, name) == e;
    assert Read(after, name) == c;
  }

  lemma {:induction false} KeepFor(v: Volume, name: FileName, e: Option<nat>) returns (keep: seq<bool>)
    requires MayPointTo(v, name, e)
    ensures |keep| == |v.pending| && Entry(ApplyKept(v.durable, v.pending, keep), name) == e
  {
    if e == Entry(v.durable, name) {
      keep := seq(|v.pending|, i => false);
      KeepNothing(v.durable, v.pending, keep);
    } else {
      var k :| 0 <= k < |v.pending| && EffectOn(v.pending[k], name) == Some(e);
      keep := Only(|v.pending|, k);
      KeepOne(v.durable, v.pending, k);
    }
  }

  /** `MayRead` is exactly what crashes can produce. */
  lemma {:induction false} CrashOutcomes(v: Volume, name: FileName, c: Option<Content>)
    requires Valid(v)
    ensures MayRead(v, name, c) <==> CrashMayGive(v, name, c)
  {
    if CrashMayGive(v, name, c) {
      var after :| CrashTo(v, after) && Read(after, name) == c;
      CrashReads(v, name, after);
    }
    if MayRead(v, name, c) {
      var e :| MayPointTo(v, name, e) && MayLeave(v, e, c);
      var keep := KeepFor(v, name, e);
      Realise(v, name, e, keep, c);
    }
  }

  lemma {:induction false} ReadIsPossible(v: Volume, name: FileName)
    requires Valid(v)
    ensures MayRead(v, name, Read(v, name))
  {
    var keep := seq(|v.pending|, i => true);
    KeepAll(v.durable, v.pending, keep);
    KeptEntry(v.durable, v.pending, keep, name);
    var e := Entry(v.entries, name);
    assert MayPointTo(v, name, e) && MayLeave(v, e, Read(v, name));
  }

  lemma {:induction false} CrashIsValid(v: Volume, after: Volume)
    requires Valid(v) && CrashTo(v, after)
    ensures Valid(after)
  {
    var keep: seq<bool> :| |keep| == |v.pending| && after.entries == ApplyKept(v.durable, v.pending, keep);
    forall name | name in after.entries
      ensures after.entries[name] < |after.inodes|
    {
      KeptEntry(v.durable, v.pending, keep, name);
      EntryInRange(v, name, Entry(after.entries, name));
    }
  }

  /** A second crash finds what the first one left. */
  lemma {:induction false} CrashSettles(v: Volume, after: Volume, name: FileName, c: Option<Content>)
    requires Valid(v) && CrashTo(v, after)
    ensures MayRead(after, name, c) <==> c == Read(after, name)
    ensures MayRead(after, name, c) ==> MayRead(v, name, c)
  {
    CrashIsValid(v, after);
    ReadIsPossible(after, name);
    CrashOutcomes(v, name, Read(after, name));
    if MayRead(after, name, c) {
      var e :| MayPointTo(after, name, e) && MayLeave(after, e, c);
      assert e == Entry(after.entries, name);
    }
  }

  // ---------------------------------------------------------------------------------------------
  // The calls to the operating system

  function Change1(v: Volume, c: Change): Volume {
    v.(entries := Apply(v.entries, c), pending := v.pending + [c])
  }

  function Removed(v: Volume, name: FileName): (r: Volume)
    ensures r.inodes == v.inodes
  {
    if name in v.entries then Change1(v, Unlink(name)) else v
  }

  /** Opening with `create_new` and mode 0600. */
  function Created(v: Volume, name: FileName): (r: Volume)
    ensures |r.inodes| == |v.inodes| + 1 && Entry(r.entries, name) == Some(|v.inodes|)
  {
    Change1(v.(inodes := v.inodes + [Inode([], false, true)]), Link(name, |v.inodes|))
  }

  function Written(v: Volume, ino: nat, data: Content): (r: Volume)
    requires ino < |v.inodes|
    ensures |r.inodes| == |v.inodes| && r.entries == v.entries
  {
    v.(inodes := v.inodes[ino := v.inodes[ino].(content := data, synced := false)])
  }

  function Synced(v: Volume, ino: nat): (r: Volume)
    requires ino < |v.inodes|
    ensures |r.inodes| == |v.inodes| && r.entries == v.entries
  {
    v.(inodes := v.inodes[ino := v.inodes[ino].(synced := true)])
  }

  function Renamed(v: Volume, from: FileName, to: FileName): Volume
    requires from in v.entries
  {
    Change1(v, Move(from, to, v.entries[from]))
  }

  function DirectorySynced(v: Volume): Volume {
    v.(durable := v.entries, pending := [])
  }

  // ---------------------------------------------------------------------------------------------
  // The temporary name

  function Decimal(n: nat): string {
    if n < 10 then [DigitChar(n)] else Decimal(n / 10) + [DigitChar(n % 10)]
  }

  function DigitChar(d: nat): char
    requires d < 10
  {
    "0123456789"[d]
  }

  function TempName(dest: FileName, pid: nat): FileName {
    Text("." + (if dest.Text? then dest.text else "vault") + ".tmp." + Decimal(pid))
  }

  lemma {:induction false} TempIsNotDest(dest: FileName, pid: nat)
    ensures TempName(dest, pid) != dest
  {
    if dest.Text? {
      assert |TempName(dest, pid).text| >= |dest.text| + 6;
    }
  }

  lemma {:induction false} DecimalIsInjective(m: nat, n: nat)
    requires Decimal(m) == Decimal(n)
    ensures m == n
  {
    var a, b := Decimal(m), Decimal(n);
    DigitsDiffer(m % 10, n % 10);
    if m >= 10 && n >= 10 {
      assert Decimal(m / 10) == a[..|a| - 1] == b[..|b| - 1] == Decimal(n / 10);
      DecimalIsInjective(m / 10, n / 10);
    } else {
      DecimalIsNotEmpty(m / 10);
      DecimalIsNotEmpty(n / 10);
    }
  }

  lemma {:induction false} DecimalIsNotEmpty(n: nat)
    ensures Decimal(n) != []
  {
  }

  lemma {:induction false} DigitsDiffer(c: nat, d: nat)
    requires c < 10 && d < 10
    ensures DigitChar(c) == DigitChar(d) ==> c == d
  {
  }

  /** Two processes that replace the same file never share a temporary file. */
  lemma {:induction false} TempNamesOfProcesses(dest: FileName, p: nat, q: nat)
    ensures TempName(dest, p) == TempName(dest, q) <==> p == q
  {
    var stem := "." + (if dest.Text? then dest.text else "vault") + ".tmp.";
    assert TempName(dest, p).text[|stem|..] == Decimal(p);
    assert TempName(dest, q).text[|stem|..] == Decimal(q);
    if TempName(dest, p) == TempName(dest, q) {
      DecimalIsInjective(p, q);
    }
  }

  // ---------------------------------------------------------------------------------------------
  // One call of write_private

  /** The states a call goes through, starting with the one it finds, and whether it returns Ok. */
  datatype Course = Course(states: seq<Volume>, ok: bool)

  function Then(states: seq<Volume>, next: Volume): (r: seq<Volume>)
    ensures |r| == |states| + 1 && r[|states|] == next
  {
    states + [next]
  }

  /** The failing exits after the file was created: the temporary file is removed, if that works. */
  function GiveUp(states: seq<Volume>, v: Volume, tmp: FileName, cleans: bool): (r: Course)
    ensures |r.states| >= |states|
  {
    Course(if cleans then Then(states, Removed(v, tmp)) else states, false)
  }

  function Last(c: Course): Volume
    requires c.states != []
  {
    c.states[|c.states| - 1]
  }

  /** Up to the point where the temporary file is complete and synced. */
  function TempCourse(v: Volume, tmp: FileName, bytes: Content, f: Faults): (r: Course)
    ensures r.states != [] && (r.ok ==> Entry(Last(r).entries, tmp) == Some(|v.inodes|))
  {
    var v1 := if f.removes then Removed(v, tmp) else v;
    var s1 := Then([v], v1);
    if tmp in v1.entries || !f.creates then Course(s1, false)
    else
      var v2 := Created(v1, tmp);
      var v3 := Written(v2, |v.inodes|, bytes[..Accepted(bytes, f)]);
      var s3 := Then(Then(s1, v2), v3);
      if f.accepts.Some? || !f.syncs then GiveUp(s3, v3, tmp, f.cleans)
      else Course(Then(s3, Synced(v3, |v.inodes|)), true)
  }

  /** The directory is opened by the directory part of the path, which is empty for a path that is a file name
      alone; the empty path never opens. */
  predicate DirectoryOpens(parent: string, f: Faults) {
    parent != "" && f.dirOpens
  }

  function WriteCourse(v: Volume, parent: string, dest: FileName, pid: nat, bytes: Content, f: Faults): (r: Course)
    ensures r.states != []
  {
    var tmp := TempName(dest, pid);
    var t := TempCourse(v, tmp, bytes, f);
    if !t.ok then t
    else if !f.renames then GiveUp(t.states, Last(t), tmp, f.cleans)
    else
      var v5 := Renamed(Last(t), tmp, dest);
      var s5 := Then(t.states, v5);
      if !DirectoryOpens(parent, f) then Course(s5, true)
      else if !f.dirSyncs then Course(s5, false)
      else Course(Then(s5, DirectorySynced(v5)), true)
  }

  /** How many bytes the write takes. */
  function Accepted(bytes: Content, f: Faults): (n: nat)
    ensures n <= |bytes|
  {
    if f.accepts.Some? then Least(f.accepts.value, |bytes|) else |bytes|
  }

  function Least(a: nat, b: nat): nat {
    if a < b then a else b
  }

  /** The volume `write_private` works on. */
  class FileSystem {
    var volume: Volume
    /** Every state the volume has been in since the current call began. */
    ghost var trace: seq<Volume>

    constructor (v: Volume)
      ensures volume == v && trace == [v]
    {
      volume, trace := v, [v];
    }

    method Become(v: Volume)
      modifies this
      ensures volume == v && trace == Then(old(trace), v)
    {
      volume, trace := v, Then(trace, v);
    }

    method RemoveFile(name: FileName, works: bool)
      modifies this
      ensures volume == if works then Removed(old(volume), name) else old(volume)
      ensures trace == Then(old(trace), volume)
    {
      Become(if works then Removed(volume, name) else volume);
    }

    method FillTemp(tmp: FileName, bytes: Content, f: Faults) returns (ok: bool)
      requires trace == [volume]
      modifies this
      ensures TempCourse(old(volume), tmp, bytes, f) == Course(trace, ok)
      ensures trace != [] && volume == trace[|trace| - 1]
    {
      hide Removed, Created, Written, Synced, Then, Accepted;
      RemoveFile(tmp, f.removes);
      if tmp in volume.entries || !f.creates {
        return false;
      }
      var ino := |volume.inodes|;
      Become(Created(volume, tmp));
      Become(Written(volume, ino, bytes[..Accepted(bytes, f)]));
      if f.accepts.Some? || !f.syncs {
        if f.cleans {
          RemoveFile(tmp, true);
        }
        return false;
      }
      Become(Synced(volume, ino));
      return true;
    }

    method WritePrivate(parent: string, dest: FileName, pid: nat, bytes: Content, f: Faults) returns (ok: bool)
      modifies this
      ensures WriteCourse(old(volume), parent, dest, pid, bytes, f) == Course(trace, ok)
      ensures trace != [] && volume == trace[|trace| - 1]
    {
      hide Removed, Renamed, DirectorySynced, TempName, Then, TempCourse;
      trace := [volume];
      var tmp := TempName(dest, pid);
      var filled := FillTemp(tmp, bytes, f);
      if !filled {
        return false;
      }
      if !f.renames {
        if f.cleans {
          RemoveFile(tmp, true);
        }
        return false;
      }
      Become(Renamed(volume, tmp, dest));
      if DirectoryOpens(parent, f) {
        if !f.dirSyncs {
          return false;
        }
        Become(DirectorySynced(volume));
      }
      return true;
    }
  }
}
