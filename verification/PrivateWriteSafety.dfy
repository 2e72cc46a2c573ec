/** What `write_private` guarantees about its destination, at every instant and after every crash. */
module PrivateWriteSafety {
  import opened Common
  import opened PrivateWrite

  // ---------------------------------------------------------------------------------------------
  // Before the rename the destination looks as it did

  /** Every file created since `v0` is readable by its owner only. */
  ghost predicate NewFilesPrivate(v0: Volume, inodes: seq<Inode>) {
    forall i :: |v0.inodes| <= i < |inodes| ==> inodes[i].ownerOnly
  }

  /** Nothing that `v` did since `v0` concerns `dest`. */
  ghost predicate SameView(v0: Volume, v: Volume, dest: FileName) {
    && Valid(v)
    && NewFilesPrivate(v0, v.inodes)
    && |v0.inodes| <= |v.inodes|
    && v.inodes[..|v0.inodes|] == v0.inodes
    && Entry(v.entries, dest) == Entry(v0.entries, dest)
    && forall e :: MayPointTo(v, dest, e) <==> MayPointTo(v0, dest, e)
  }

  lemma {:induction false} ChangeIsValid(v: Volume, c: Change)
    requires Valid(v) && Refers(c, |v.inodes|)
    ensures Valid(Change1(v, c))
  {
    assert (v.pending + [c])[..|v.pending|] == v.pending;
  }

  /** One more change adds what it does to `dest` to what a crash may leave there. */
  lemma {:induction false} ChangeAddsEffect(v: Volume, c: Change, dest: FileName, e: Option<nat>)
    ensures MayPointTo(Change1(v, c), dest, e) <==> MayPointTo(v, dest, e) || EffectOn(c, dest) == Some(e)
  {
    var w := Change1(v, c);
    assert w.pending[|v.pending|] == c;
    assert forall k :: 0 <= k < |v.pending| ==> w.pending[k] == v.pending[k];
  }

  lemma {:induction false} ChangeElsewhere(v0: Volume, v: Volume, c: Change, dest: FileName)
    requires SameView(v0, v, dest) && Refers(c, |v.inodes|) && EffectOn(c, dest) == None
    ensures SameView(v0, Change1(v, c), dest)
  {
    ChangeIsValid(v, c);
    forall e
      ensures MayPointTo(Change1(v, c), dest, e) <==> MayPointTo(v0, dest, e)
    {
      ChangeAddsEffect(v, c, dest, e);
    }
  }

  /** Files created since `v0` may be filled and synced. */
  lemma {:induction false} InodesElsewhere(v0: Volume, v: Volume, inodes: seq<Inode>, dest: FileName)
    requires SameView(v0, v, dest) && |v.inodes| <= |inodes| && inodes[..|v0.inodes|] == v0.inodes
    requires NewFilesPrivate(v0, inodes)
    ensures SameView(v0, v.(inodes := inodes), dest)
  {
    var w := v.(inodes := inodes);
    forall e
      ensures MayPointTo(w, dest, e) <==> MayPointTo(v0, dest, e)
    {
      assert MayPointTo(w, dest, e) <==> MayPointTo(v, dest, e);
    }
    assert Valid(w) by {
      forall k | 0 <= k < |w.pending|
        ensures Refers(w.pending[k], |w.inodes|)
      {
        assert Refers(v.pending[k], |v.inodes|);
      }
    }
  }

  lemma {:induction false} SameOutcomes(v0: Volume, v: Volume, dest: FileName, c: Option<Content>)
    requires Valid(v0) && SameView(v0, v, dest)
    ensures MayRead(v, dest, c) <==> MayRead(v0, dest, c)
    ensures Read(v, dest) == Read(v0, dest)
  {
    assert forall i :: 0 <= i < |v0.inodes| ==> v.inodes[i] == v0.inodes[i];
    if MayRead(v, dest, c) {
      var e :| MayPointTo(v, dest, e) && MayLeave(v, e, c);
      EntryInRange(v0, dest, e);
      assert MayLeave(v0, e, c);
    }
    if MayRead(v0, dest, c) {
      var e :| MayPointTo(v0, dest, e) && MayLeave(v0, e, c);
      assert MayPointTo(v, dest, e) && MayLeave(v, e, c);
    }
    assert dest in v.entries ==> Entry(v0.entries, dest) == Some(v.entries[dest]);
  }

  lemma {:induction false} RemovedElsewhere(v0: Volume, v: Volume, tmp: FileName, dest: FileName)
    requires SameView(v0, v, dest) && tmp != dest
    ensures SameView(v0, Removed(v, tmp), dest)
  {
    if tmp in v.entries {
      ChangeElsewhere(v0, v, Unlink(tmp), dest);
    }
  }

  lemma {:induction false} CreatedElsewhere(v0: Volume, v: Volume, tmp: FileName, dest: FileName)
    requires SameView(v0, v, dest) && tmp != dest
    ensures SameView(v0, Created(v, tmp), dest)
  {
    var inodes := v.inodes + [Inode([], false, true)];
    assert inodes[..|v0.inodes|] == v.inodes[..|v0.inodes|];
    InodesElsewhere(v0, v, inodes, dest);
    ChangeElsewhere(v0, v.(inodes := inodes), Link(tmp, |v.inodes|), dest);
  }

  lemma {:induction false} FilledElsewhere(v0: Volume, v: Volume, ino: nat, data: Content, dest: FileName)
    requires SameView(v0, v, dest) && |v0.inodes| <= ino < |v.inodes|
    ensures SameView(v0, Written(v, ino, data), dest) && SameView(v0, Synced(v, ino), dest)
  {
    assert Written(v, ino, data).inodes[..|v0.inodes|] == v.inodes[..|v0.inodes|];
    assert Synced(v, ino).inodes[..|v0.inodes|] == v.inodes[..|v0.inodes|];
    InodesElsewhere(v0, v, Written(v, ino, data).inodes, dest);
    InodesElsewhere(v0, v, Synced(v, ino).inodes, dest);
  }

  ghost predicate AllSameView(v0: Volume, states: seq<Volume>, dest: FileName) {
    forall k :: 0 <= k < |states| ==> SameView(v0, states[k], dest)
  }

  lemma {:induction false} Extend(v0: Volume, states: seq<Volume>, next: Volume, dest: FileName)
    requires AllSameView(v0, states, dest) && SameView(v0, next, dest)
    ensures AllSameView(v0, Then(states, next), dest)
  {
    hide SameView;
  }

  lemma {:induction false} SameViewOfItself(v: Volume, dest: FileName)
    requires Valid(v)
    ensures AllSameView(v, [v], dest) && SameView(v, v, dest)
  {
  }

  lemma {:induction false} GiveUpElsewhere(v0: Volume, states: seq<Volume>, v: Volume, tmp: FileName, cleans: bool,
                                           dest: FileName)
    requires AllSameView(v0, states, dest) && SameView(v0, v, dest) && tmp != dest
    ensures AllSameView(v0, GiveUp(states, v, tmp, cleans).states, dest)
  {
    hide SameView, AllSameView, Removed;
    RemovedElsewhere(v0, v, tmp, dest);
    Extend(v0, states, Removed(v, tmp), dest);
  }

  lemma {:induction false} TempCourseElsewhere(v: Volume, tmp: FileName, bytes: Content, f: Faults, dest: FileName)
    requires Valid(v) && tmp != dest
    ensures AllSameView(v, TempCourse(v, tmp, bytes, f).states, dest)
  {
    hide SameView, AllSameView, Valid, Removed, Created, Written, Synced, Then, GiveUp, Accepted;
    SameViewOfItself(v, dest);
    var v1 := if f.removes then Removed(v, tmp) else v;
    RemovedElsewhere(v, v, tmp, dest);
    var s1 := Then([v], v1);
    Extend(v, [v], v1, dest);
    if tmp !in v1.entries && f.creates {
      var v2 := Created(v1, tmp);
      CreatedElsewhere(v, v1, tmp, dest);
      Extend(v, s1, v2, dest);
      var s2 := Then(s1, v2);
      var v3 := Written(v2, |v.inodes|, bytes[..Accepted(bytes, f)]);
      FilledElsewhere(v, v2, |v.inodes|, bytes[..Accepted(bytes, f)], dest);
      Extend(v, s2, v3, dest);
      var s3 := Then(s2, v3);
      GiveUpElsewhere(v, s3, v3, tmp, f.cleans, dest);
      FilledElsewhere(v, v3, |v.inodes|, [], dest);
      Extend(v, s3, Synced(v3, |v.inodes|), dest);
    }
  }

  lemma {:induction false} TempCourseFills(v: Volume, tmp: FileName, bytes: Content, f: Faults)
    ensures
      var t := TempCourse(v, tmp, bytes, f);
      t.ok ==> Last(t).inodes == v.inodes + [Inode(bytes, true, true)]
  {
    var v1 := if f.removes then Removed(v, tmp) else v;
    if tmp !in v1.entries && f.creates && f.accepts.None? && f.syncs {
      hide Removed;
      assert bytes[..Accepted(bytes, f)] == bytes;
      var v4 := Synced(Written(Created(v1, tmp), |v.inodes|, bytes), |v.inodes|);
      assert v4.inodes == v.inodes + [Inode(bytes, true, true)];
    }
  }

  // ---------------------------------------------------------------------------------------------
  // The rename and the directory sync

  /** `v` follows `v0`, with the complete new bytes under `dest`. */
  ghost predicate Replaced(v0: Volume, v: Volume, dest: FileName, bytes: Content) {
    && Valid(v)
    && v.inodes == v0.inodes + [Inode(bytes, true, true)]
    && Entry(v.entries, dest) == Some(|v0.inodes|)
  }

  lemma {:induction false} RenameReplaces(v0: Volume, v: Volume, tmp: FileName, dest: FileName, bytes: Content)
    requires Valid(v0) && SameView(v0, v, dest) && tmp != dest
    requires v.inodes == v0.inodes + [Inode(bytes, true, true)] && Entry(v.entries, tmp) == Some(|v0.inodes|)
    ensures Replaced(v0, Renamed(v, tmp, dest), dest, bytes)
    ensures tmp !in Renamed(v, tmp, dest).entries
  {
    ChangeIsValid(v, Move(tmp, dest, |v0.inodes|));
  }

  lemma {:induction false} RenameOutcomes(v0: Volume, v: Volume, tmp: FileName, dest: FileName, bytes: Content,
                                          c: Option<Content>)
    requires Valid(v0) && SameView(v0, v, dest) && tmp != dest
    requires v.inodes == v0.inodes + [Inode(bytes, true, true)] && Entry(v.entries, tmp) == Some(|v0.inodes|)
    ensures MayRead(Renamed(v, tmp, dest), dest, c) <==> MayRead(v0, dest, c) || c == Some(bytes)
  {
    var move := Move(tmp, dest, |v0.inodes|);
    var w := Change1(v, move);
    var added := Some(|v0.inodes|);
    SameOutcomes(v0, v, dest, c);
    ChangeAddsEffect(v, move, dest, added);
    if MayRead(w, dest, c) {
      var e :| MayPointTo(w, dest, e) && MayLeave(w, e, c);
      ChangeAddsEffect(v, move, dest, e);
      assert e == added || (MayPointTo(v, dest, e) && MayLeave(v, e, c));
    }
    if MayRead(v, dest, c) {
      var e :| MayPointTo(v, dest, e) && MayLeave(v, e, c);
      ChangeAddsEffect(v, move, dest, e);
      assert MayPointTo(w, dest, e) && MayLeave(w, e, c);
    }
    if c == Some(bytes) {
      assert MayPointTo(w, dest, added) && MayLeave(w, added, c);
    }
  }

  lemma {:induction false} DirectorySyncSettles(v0: Volume, v: Volume, dest: FileName, bytes: Content,
                                                c: Option<Content>)
    requires Replaced(v0, v, dest, bytes)
    ensures Replaced(v0, DirectorySynced(v), dest, bytes)
    ensures MayRead(DirectorySynced(v), dest, c) <==> c == Some(bytes)
  {
    var w := DirectorySynced(v);
    var added := Some(|v0.inodes|);
    assert MayPointTo(w, dest, added);
    if MayRead(w, dest, c) {
      var e :| MayPointTo(w, dest, e) && MayLeave(w, e, c);
      assert e == added;
    }
    if c == Some(bytes) {
      assert MayLeave(w, added, c);
    }
  }

  // ---------------------------------------------------------------------------------------------
  // Every instant of a call

  /** Reading `dest` in `v`, or after a crash of `v`, gives what `v0` could have given or the complete
      new bytes. */
  ghost predicate OldOrNew(v0: Volume, v: Volume, dest: FileName, bytes: Content) {
    && Valid(v)
    && NewFilesPrivate(v0, v.inodes)
    && (Read(v, dest) == Read(v0, dest) || Read(v, dest) == Some(bytes))
    && forall c :: MayRead(v, dest, c) ==> MayRead(v0, dest, c) || c == Some(bytes)
  }

  ghost predicate AllOldOrNew(v0: Volume, states: seq<Volume>, dest: FileName, bytes: Content) {
    forall k :: 0 <= k < |states| ==> OldOrNew(v0, states[k], dest, bytes)
  }

  lemma {:induction false} SameViewIsOld(v0: Volume, states: seq<Volume>, dest: FileName, bytes: Content)
    requires Valid(v0) && AllSameView(v0, states, dest)
    ensures AllOldOrNew(v0, states, dest, bytes)
  {
    forall k | 0 <= k < |states|
      ensures OldOrNew(v0, states[k], dest, bytes)
    {
      assert SameView(v0, states[k], dest);
      SameOutcomes(v0, states[k], dest, None);
      forall c
        ensures MayRead(states[k], dest, c) ==> MayRead(v0, dest, c)
      {
        SameOutcomes(v0, states[k], dest, c);
      }
    }
  }

  lemma {:induction false} AppendNew(v0: Volume, states: seq<Volume>, next: Volume, dest: FileName, bytes: Content)
    requires AllOldOrNew(v0, states, dest, bytes) && Replaced(v0, next, dest, bytes)
    requires forall c :: MayRead(next, dest, c) ==> MayRead(v0, dest, c) || c == Some(bytes)
    ensures AllOldOrNew(v0, Then(states, next), dest, bytes)
  {
    assert OldOrNew(v0, next, dest, bytes);
    hide OldOrNew;
  }

  /** The volume once the temporary file is complete. */
  function Filled(v: Volume, dest: FileName, pid: nat, bytes: Content, f: Faults): Volume {
    Last(TempCourse(v, TempName(dest, pid), bytes, f))
  }

  lemma {:induction false} FilledFacts(v: Volume, dest: FileName, pid: nat, bytes: Content, f: Faults)
    requires Valid(v) && TempCourse(v, TempName(dest, pid), bytes, f).ok
    ensures
      var w, tmp := Filled(v, dest, pid, bytes, f), TempName(dest, pid);
      && tmp != dest
      && SameView(v, w, dest)
      && w.inodes == v.inodes + [Inode(bytes, true, true)]
      && Entry(w.entries, tmp) == Some(|v.inodes|)
  {
    hide TempCourse;
    TempIsNotDest(dest, pid);
    TempCourseElsewhere(v, TempName(dest, pid), bytes, f, dest);
    TempCourseFills(v, TempName(dest, pid), bytes, f);
  }

  /** What the states after the rename can leave behind. */
  lemma {:induction false} AfterRename(v: Volume, dest: FileName, pid: nat, bytes: Content, f: Faults,
                                       c: Option<Content>)
    requires Valid(v) && TempCourse(v, TempName(dest, pid), bytes, f).ok
    ensures
      var w := Renamed(Filled(v, dest, pid, bytes, f), TempName(dest, pid), dest);
      && Replaced(v, w, dest, bytes)
      && Replaced(v, DirectorySynced(w), dest, bytes)
      && (MayRead(w, dest, c) <==> MayRead(v, dest, c) || c == Some(bytes))
      && (MayRead(DirectorySynced(w), dest, c) <==> c == Some(bytes))
  {
    hide TempCourse, SameView, Renamed, DirectorySynced;
    var tmp := TempName(dest, pid);
    var w := Filled(v, dest, pid, bytes, f);
    FilledFacts(v, dest, pid, bytes, f);
    RenameReplaces(v, w, tmp, dest, bytes);
    RenameOutcomes(v, w, tmp, dest, bytes, c);
    DirectorySyncSettles(v, Renamed(w, tmp, dest), dest, bytes, c);
  }

  /** In every state a call goes through, the destination is old or new. */
  lemma {:induction false} OldOrNewThroughout(v: Volume, parent: string, dest: FileName, pid: nat, bytes: Content,
                                              f: Faults)
    requires Valid(v)
    ensures AllOldOrNew(v, WriteCourse(v, parent, dest, pid, bytes, f).states, dest, bytes)
  {
    hide TempCourse, SameView, AllSameView, AllOldOrNew, OldOrNew, Then, Valid, TempName, GiveUp, Renamed,
         DirectorySynced;
    var tmp := TempName(dest, pid);
    var t := TempCourse(v, tmp, bytes, f);
    TempIsNotDest(dest, pid);
    TempCourseElsewhere(v, tmp, bytes, f, dest);
    if !t.ok {
      SameViewIsOld(v, t.states, dest, bytes);
    } else if !f.renames {
      FilledFacts(v, dest, pid, bytes, f);
      GiveUpElsewhere(v, t.states, Last(t), tmp, f.cleans, dest);
      SameViewIsOld(v, GiveUp(t.states, Last(t), tmp, f.cleans).states, dest, bytes);
    } else {
      SameViewIsOld(v, t.states, dest, bytes);
      RenamedStates(v, dest, pid, bytes, f);
    }
  }

  lemma {:induction false} RenamedStates(v: Volume, dest: FileName, pid: nat, bytes: Content, f: Faults)
    requires Valid(v) && TempCourse(v, TempName(dest, pid), bytes, f).ok
    requires AllOldOrNew(v, TempCourse(v, TempName(dest, pid), bytes, f).states, dest, bytes)
    ensures
      var t := TempCourse(v, TempName(dest, pid), bytes, f);
      var w := Renamed(Filled(v, dest, pid, bytes, f), TempName(dest, pid), dest);
      && AllOldOrNew(v, Then(t.states, w), dest, bytes)
      && AllOldOrNew(v, Then(Then(t.states, w), DirectorySynced(w)), dest, bytes)
  {
    hide TempCourse, AllOldOrNew, Then, Valid, TempName, Renamed, DirectorySynced;
    var t := TempCourse(v, TempName(dest, pid), bytes, f);
    var w := Renamed(Filled(v, dest, pid, bytes, f), TempName(dest, pid), dest);
    AfterRename(v, dest, pid, bytes, f, None);
    forall c
      ensures MayRead(w, dest, c) ==> MayRead(v, dest, c) || c == Some(bytes)
      ensures MayRead(DirectorySynced(w), dest, c) ==> c == Some(bytes)
    {
      AfterRename(v, dest, pid, bytes, f, c);
    }
    AppendNew(v, t.states, w, dest, bytes);
    AppendNew(v, Then(t.states, w), DirectorySynced(w), dest, bytes);
  }

  // ---------------------------------------------------------------------------------------------
  // The main results

  /** Losing power at any instant of a call leaves, under the destination, what losing power before the
      call could have left or exactly the new bytes: never a part of them. */
  lemma {:induction false} CrashLeavesOldOrNew(v: Volume, parent: string, dest: FileName, pid: nat, bytes: Content,
                                               f: Faults,
                                               s: Volume, after: Volume)
    requires Valid(v) && s in WriteCourse(v, parent, dest, pid, bytes, f).states && CrashTo(s, after)
    ensures Read(after, dest) == Some(bytes) || CrashMayGive(v, dest, Read(after, dest))
  {
    hide WriteCourse, CrashTo, MayRead;
    OldOrNewThroughout(v, parent, dest, pid, bytes, f);
    assert OldOrNew(v, s, dest, bytes);
    CrashReads(s, dest, after);
    CrashOutcomes(v, dest, Read(after, dest));
  }

  /** The same for a destination whose current bytes are safe: exactly the old or exactly the new. */
  lemma {:induction false} NeverTorn(v: Volume, parent: string, dest: FileName, pid: nat, bytes: Content, f: Faults,
                                     s: Volume,
                                     after: Volume)
    requires Valid(v) && forall before :: CrashTo(v, before) ==> Read(before, dest) == Read(v, dest)
    requires s in WriteCourse(v, parent, dest, pid, bytes, f).states && CrashTo(s, after)
    ensures Read(after, dest) == Read(v, dest) || Read(after, dest) == Some(bytes)
    ensures Read(s, dest) == Read(v, dest) || Read(s, dest) == Some(bytes)
  {
    hide WriteCourse, CrashTo, MayRead;
    CrashLeavesOldOrNew(v, parent, dest, pid, bytes, f, s, after);
    OldOrNewThroughout(v, parent, dest, pid, bytes, f);
    assert OldOrNew(v, s, dest, bytes);
  }

  /** No file the call creates is ever readable by another user, in any state and after any crash. */
  lemma {:induction false} NeverReadableByOthers(v: Volume, parent: string, dest: FileName, pid: nat, bytes: Content,
                                                 f: Faults,
                                                 s: Volume, after: Volume,
                                                 ino: nat)
    requires Valid(v) && s in WriteCourse(v, parent, dest, pid, bytes, f).states && CrashTo(s, after)
    requires |v.inodes| <= ino < |after.inodes|
    ensures s.inodes[ino].ownerOnly && after.inodes[ino].ownerOnly
  {
    hide WriteCourse;
    OldOrNewThroughout(v, parent, dest, pid, bytes, f);
    assert OldOrNew(v, s, dest, bytes);
    assert SurvivesAs(s.inodes[ino], after.inodes[ino]);
  }

  /** When the call gets as far as the rename. */
  predicate Renames(v: Volume, dest: FileName, pid: nat, f: Faults) {
    && (f.removes || TempName(dest, pid) !in v.entries)
    && f.creates
    && f.accepts.None?
    && f.syncs
    && f.renames
  }

  lemma {:induction false} TempCourseSucceeds(v: Volume, tmp: FileName, bytes: Content, f: Faults)
    ensures TempCourse(v, tmp, bytes, f).ok <==>
            (f.removes || tmp !in v.entries) && f.creates && f.accepts.None? && f.syncs
  {
    hide Created, Written, Synced, Then;
    assert tmp !in Removed(v, tmp).entries;
  }

  /** What a call returns and what readers see afterwards.  A leftover temporary file of a crashed
      call never stands in the way as long as it can be removed. */
  lemma {:induction false} CallResult(v: Volume, parent: string, dest: FileName, pid: nat, bytes: Content, f: Faults)
    requires Valid(v)
    ensures
      var r := WriteCourse(v, parent, dest, pid, bytes, f);
      && (r.ok <==> Renames(v, dest, pid, f) && (parent != "" && f.dirOpens ==> f.dirSyncs))
      && (Read(Last(r), dest) == if Renames(v, dest, pid, f) then Some(bytes) else Read(v, dest))
  {
    hide TempCourse, SameView, AllSameView, Then, TempName, Replaced, Renamed, DirectorySynced, Removed;
    var tmp := TempName(dest, pid);
    var t := TempCourse(v, tmp, bytes, f);
    TempCourseSucceeds(v, tmp, bytes, f);
    TempIsNotDest(dest, pid);
    TempCourseElsewhere(v, tmp, bytes, f, dest);
    if Renames(v, dest, pid, f) {
      AfterRename(v, dest, pid, bytes, f, None);
      ReplacedReads(v, Renamed(Last(t), tmp, dest), dest, bytes);
      ReplacedReads(v, DirectorySynced(Renamed(Last(t), tmp, dest)), dest, bytes);
    } else {
      if t.ok {
        LastSameView(v, t, dest);
        GiveUpElsewhere(v, t.states, Last(t), tmp, f.cleans, dest);
      }
      LastSameView(v, WriteCourse(v, parent, dest, pid, bytes, f), dest);
    }
  }

  /** A call changes no other name of the directory, and leaves no temporary file behind when it succeeds. */
  lemma {:induction false} LeavesOthers(v: Volume, parent: string, dest: FileName, pid: nat, bytes: Content,
                                        f: Faults, name: FileName)
    requires Valid(v) && name != dest && name != TempName(dest, pid)
    ensures
      var r := WriteCourse(v, parent, dest, pid, bytes, f);
      && Read(Last(r), name) == Read(v, name)
      && (r.ok ==> TempName(dest, pid) !in Last(r).entries)
  {
    hide TempCourse, SameView, AllSameView, TempName;
    var tmp := TempName(dest, pid);
    var t := TempCourse(v, tmp, bytes, f);
    TempIsNotDest(dest, pid);
    TempCourseElsewhere(v, tmp, bytes, f, name);
    LastSameView(v, t, name);
    if t.ok && !f.renames {
      GiveUpElsewhere(v, t.states, Last(t), tmp, f.cleans, name);
      LastSameView(v, WriteCourse(v, parent, dest, pid, bytes, f), name);
    }
  }

  /** What is under the temporary name when filling it has ended: what was there if it could not be removed, the
      bytes the disk took if writing or syncing failed and cleaning up failed as well, all of them on success. */
  lemma {:induction false} TempCourseLeaves(v: Volume, tmp: FileName, bytes: Content, f: Faults)
    requires Valid(v)
    ensures
      var t := TempCourse(v, tmp, bytes, f);
      Read(Last(t), tmp) ==
      if !f.removes && tmp in v.entries then Read(v, tmp)
      else if !f.creates then None
      else if f.accepts.Some? && f.accepts.value < |bytes| then
        if f.cleans then None else Some(bytes[..f.accepts.value])
      else if f.accepts.Some? || !f.syncs then if f.cleans then None else Some(bytes)
      else Some(bytes)
  {
    var v1 := if f.removes then Removed(v, tmp) else v;
    var v2 := Created(v1, tmp);
    assert bytes[..|bytes|] == bytes;
  }

  /** What a call leaves of its temporary file. After Ok there is none. A call that fails at or before creating it
      leaves one if and only if one was there that could not be removed, which is then as it was; a call that fails
      later leaves one if and only if it could not be removed again. */
  lemma {:induction false} TempIsLeftIff(v: Volume, parent: string, dest: FileName, pid: nat, bytes: Content, f: Faults)
    requires Valid(v)
    ensures
      var r, tmp := WriteCourse(v, parent, dest, pid, bytes, f), TempName(dest, pid);
      var stuck := tmp in v.entries && !f.removes;
      && (tmp in Last(r).entries <==>
            if stuck || !f.creates then stuck
            else !f.cleans && (f.accepts.Some? || !f.syncs || !f.renames))
      && (r.ok ==> tmp !in Last(r).entries)
      && (stuck ==> Read(Last(r), tmp) == Read(v, tmp))
      && (!r.ok && f.removes && f.cleans ==> tmp !in Last(r).entries)
  {
    hide TempCourse, TempName, Then;
    var tmp := TempName(dest, pid);
    var t := TempCourse(v, tmp, bytes, f);
    TempIsNotDest(dest, pid);
    TempCourseLeaves(v, tmp, bytes, f);
    TempCourseSucceeds(v, tmp, bytes, f);
    TempReads(v, tmp, bytes, f);
  }

  /** Under the temporary name there is an entry if and only if it reads. */
  lemma {:induction false} TempReads(v: Volume, tmp: FileName, bytes: Content, f: Faults)
    requires Valid(v)
    ensures var w := Last(TempCourse(v, tmp, bytes, f)); tmp in w.entries <==> Read(w, tmp).Some?
  {
  }

  /** Why the temporary file is synced before it is renamed: without that, a crash can leave anything at all under the
      destination. */
  lemma {:induction false} UnsyncedMayTear(v: Volume, tmp: FileName, dest: FileName, bytes: Content, c: Content)
    requires Valid(v) && tmp !in v.entries && tmp != dest
    ensures CrashMayGive(Renamed(Written(Created(v, tmp), |v.inodes|, bytes), tmp, dest), dest, Some(c))
  {
    var w := Written(Created(v, tmp), |v.inodes|, bytes);
    var r := Renamed(w, tmp, dest);
    ChangeIsValid(v.(inodes := w.inodes), Link(tmp, |v.inodes|));
    ChangeIsValid(w, Move(tmp, dest, |v.inodes|));
    assert EffectOn(r.pending[|r.pending| - 1], dest) == Some(Some(|v.inodes|));
    assert MayPointTo(r, dest, Some(|v.inodes|)) && MayLeave(r, Some(|v.inodes|), Some(c));
    CrashOutcomes(r, dest, Some(c));
  }

  lemma {:induction false} ReplacedReads(v0: Volume, v: Volume, dest: FileName, bytes: Content)
    requires Replaced(v0, v, dest, bytes)
    ensures Read(v, dest) == Some(bytes)
  {
  }

  lemma {:induction false} LastSameView(v: Volume, c: Course, dest: FileName)
    requires Valid(v) && c.states != [] && AllSameView(v, c.states, dest)
    ensures SameView(v, Last(c), dest) && Read(Last(c), dest) == Read(v, dest)
  {
    SameOutcomes(v, Last(c), dest, None);
  }

  /** Exactly what power loss can do after a call returned Ok. */
  lemma {:induction false} OutcomesAfterOk(v: Volume, parent: string, dest: FileName, pid: nat, bytes: Content,
                                           f: Faults,
                                           c: Option<Content>)
    requires Valid(v) && WriteCourse(v, parent, dest, pid, bytes, f).ok
    ensures
      var w := Last(WriteCourse(v, parent, dest, pid, bytes, f));
      && Valid(w)
      && (MayRead(w, dest, c) <==> c == Some(bytes) || (!DirectoryOpens(parent, f) && MayRead(v, dest, c)))
  {
    hide TempCourse, SameView, Then, TempName, Renamed, DirectorySynced, MayRead;
    AfterRename(v, dest, pid, bytes, f, c);
  }

  /** Whatever power loss does, `bytes` is under `name` afterwards. */
  ghost predicate Durable(v: Volume, name: FileName, bytes: Content) {
    forall after :: CrashTo(v, after) ==> Read(after, name) == Some(bytes)
  }

  lemma {:induction false} DurableMeans(v: Volume, name: FileName, bytes: Content)
    ensures Durable(v, name, bytes) <==> forall c :: CrashMayGive(v, name, c) ==> c == Some(bytes)
  {
    hide CrashTo;
    forall after | CrashTo(v, after)
      ensures CrashMayGive(v, name, Read(after, name))
    {
    }
  }

  /** Ok means that the new bytes survive every later crash if and only if the directory could be opened for
      syncing, or no crash could have brought back anything else in the first place. */
  lemma {:induction false} OkIsDurableIff(v: Volume, parent: string, dest: FileName, pid: nat, bytes: Content,
                                          f: Faults)
    requires Valid(v) && WriteCourse(v, parent, dest, pid, bytes, f).ok
    ensures Durable(Last(WriteCourse(v, parent, dest, pid, bytes, f)), dest, bytes) <==>
            (parent != "" && f.dirOpens) || Durable(v, dest, bytes)
  {
    hide WriteCourse, MayRead, Valid, CrashMayGive, Durable;
    var w := Last(WriteCourse(v, parent, dest, pid, bytes, f));
    forall c
      ensures CrashMayGive(w, dest, c) <==> c == Some(bytes) || (!DirectoryOpens(parent, f) && CrashMayGive(v, dest, c))
    {
      OutcomesAfterOk(v, parent, dest, pid, bytes, f, c);
      CrashOutcomes(v, dest, c);
      CrashOutcomes(w, dest, c);
    }
    DurableMeans(v, dest, bytes);
    DurableMeans(w, dest, bytes);
  }

  /** Nothing goes wrong. */
  const NO_FAULTS := Faults(true, true, None, true, true, true, true, true)

  /** Without any fault a call returns Ok, and what it wrote is safe if and only if the path has a directory part,
      or no crash could have given anything else in the first place. */
  lemma {:induction false} FaultlessIsDurableIff(v: Volume, parent: string, dest: FileName, pid: nat, bytes: Content)
    requires Valid(v)
    ensures
      var r := WriteCourse(v, parent, dest, pid, bytes, NO_FAULTS);
      r.ok && (Durable(Last(r), dest, bytes) <==> parent != "" || Durable(v, dest, bytes))
  {
    hide WriteCourse, Durable;
    CallResult(v, parent, dest, pid, bytes, NO_FAULTS);
    OkIsDurableIff(v, parent, dest, pid, bytes, NO_FAULTS);
  }

  /** For a file name alone the directory is never synced: Ok is returned, and whatever a crash could have given
      before the call, the old bytes in particular, a crash can still give after it. */
  lemma {:induction false} BareNameMayRollBack(v: Volume, dest: FileName, pid: nat, bytes: Content,
                                               before: Option<Content>)
    requires Valid(v) && (before == Read(v, dest) || CrashMayGive(v, dest, before))
    ensures
      var r := WriteCourse(v, "", dest, pid, bytes, NO_FAULTS);
      r.ok && Read(Last(r), dest) == Some(bytes) && CrashMayGive(Last(r), dest, before)
  {
    hide WriteCourse, CrashMayGive, MayRead;
    CallResult(v, "", dest, pid, bytes, NO_FAULTS);
    ReadIsPossible(v, dest);
    OutcomesAfterOk(v, "", dest, pid, bytes, NO_FAULTS, before);
    CrashOutcomes(v, dest, before);
    CrashOutcomes(Last(WriteCourse(v, "", dest, pid, bytes, NO_FAULTS)), dest, before);
  }

  // ---------------------------------------------------------------------------------------------
  // Any number of calls, by any processes, with any faults and crashes

  /** A call that runs to its end, or one in whose `at`-th state the machine loses power. */
  datatype Attempt = Attempt(pid: nat, bytes: Content, faults: Faults, crash: Option<Crash>)
  datatype Crash = Crash(at: nat, after: Volume)

  ghost predicate Attempted(v: Volume, parent: string, dest: FileName, a: Attempt, w: Volume) {
    var r := WriteCourse(v, parent, dest, a.pid, a.bytes, a.faults);
    match a.crash
    case None => w == Last(r)
    case Some(c) => c.at < |r.states| && CrashTo(r.states[c.at], c.after) && w == c.after
  }

  /** `vs[i + 1]` is what attempt `i` makes of `vs[i]`. */
  ghost predicate History(vs: seq<Volume>, parent: string, dest: FileName, attempts: seq<Attempt>) {
    && |vs| == |attempts| + 1
    && Valid(vs[0])
    && forall i :: 0 <= i < |attempts| ==> Attempted(vs[i], parent, dest, attempts[i], vs[i + 1])
  }

  lemma {:induction false} AttemptKeeps(v: Volume, parent: string, dest: FileName, a: Attempt, w: Volume,
                                        c: Option<Content>)
    requires Valid(v) && Attempted(v, parent, dest, a, w)
    ensures Valid(w)
    ensures MayRead(w, dest, c) ==> MayRead(v, dest, c) || c == Some(a.bytes)
  {
    hide WriteCourse, MayRead, CrashTo;
    var r := WriteCourse(v, parent, dest, a.pid, a.bytes, a.faults);
    OldOrNewThroughout(v, parent, dest, a.pid, a.bytes, a.faults);
    if a.crash.Some? {
      var s := r.states[a.crash.value.at];
      assert OldOrNew(v, s, dest, a.bytes);
      CrashIsValid(s, w);
      CrashSettles(s, w, dest, c);
    } else {
      assert OldOrNew(v, w, dest, a.bytes);
    }
  }

  ghost predicate WrittenBy(attempts: seq<Attempt>, from: nat, c: Option<Content>) {
    exists i :: from <= i < |attempts| && c == Some(attempts[i].bytes)
  }

  lemma {:induction false} HistoryKeeps(vs: seq<Volume>, parent: string, dest: FileName, attempts: seq<Attempt>,
                                        from: nat,
                                        c: Option<Content>)
    requires History(vs, parent, dest, attempts) && from < |vs| && Valid(vs[from])
    ensures Valid(vs[|attempts|])
    ensures MayRead(vs[|attempts|], dest, c) ==> MayRead(vs[from], dest, c) || WrittenBy(attempts, from, c)
    decreases |attempts|
  {
    hide Attempted, MayRead, Valid;
    if from < |attempts| {
      var n := |attempts| - 1;
      assert History(vs[..n + 1], parent, dest, attempts[..n]) by {
        assert forall i :: 0 <= i < n ==> Attempted(vs[..n + 1][i], parent, dest, attempts[..n][i], vs[..n + 1][i + 1]);
      }
      HistoryKeeps(vs[..n + 1], parent, dest, attempts[..n], from, c);
      assert Attempted(vs[n], parent, dest, attempts[n], vs[n + 1]);
      AttemptKeeps(vs[n], parent, dest, attempts[n], vs[n + 1], c);
      if WrittenBy(attempts[..n], from, c) {
        var i :| from <= i < n && c == Some(attempts[..n][i].bytes);
        assert c == Some(attempts[i].bytes);
      }
    }
  }

  /** However many calls fail or lose power on the way, the destination only ever holds what was there at
      first or the complete bytes of one of the calls. */
  lemma {:induction false} OnlyCompleteFiles(vs: seq<Volume>, parent: string, dest: FileName, attempts: seq<Attempt>,
                                             found: Option<Content>)
    requires History(vs, parent, dest, attempts)
    requires found == Read(vs[|attempts|], dest) || CrashMayGive(vs[|attempts|], dest, found)
    ensures CrashMayGive(vs[0], dest, found) || WrittenBy(attempts, 0, found)
  {
    hide Attempted, MayRead, CrashMayGive, WrittenBy;
    HistoryKeeps(vs, parent, dest, attempts, 0, found);
    CrashOutcomes(vs[0], dest, found);
    CrashOutcomes(vs[|attempts|], dest, found);
    ReadIsPossible(vs[|attempts|], dest);
  }

  /** Once a call has returned Ok with the directory synced, nothing older ever comes back. */
  lemma {:induction false} NeverRollsBack(vs: seq<Volume>, parent: string, dest: FileName, attempts: seq<Attempt>,
                                          k: nat,
                                          found: Option<Content>)
    requires History(vs, parent, dest, attempts) && k < |attempts|
    requires attempts[k].crash.None? && DirectoryOpens(parent, attempts[k].faults)
    requires WriteCourse(vs[k], parent, dest, attempts[k].pid, attempts[k].bytes, attempts[k].faults).ok
    requires found == Read(vs[|attempts|], dest) || CrashMayGive(vs[|attempts|], dest, found)
    ensures WrittenBy(attempts, k, found)
  {
    hide MayRead, CrashMayGive, WriteCourse;
    assert History(vs[..k + 1], parent, dest, attempts[..k]) by {
      hide Attempted;
      assert forall i :: 0 <= i < k ==> Attempted(vs[..k + 1][i], parent, dest, attempts[..k][i], vs[..k + 1][i + 1]);
    }
    HistoryKeeps(vs[..k + 1], parent, dest, attempts[..k], 0, found);
    assert Attempted(vs[k], parent, dest, attempts[k], vs[k + 1]);
    OutcomesAfterOk(vs[k], parent, dest, attempts[k].pid, attempts[k].bytes, attempts[k].faults, found);
    HistoryKeeps(vs, parent, dest, attempts, k + 1, found);
    CrashOutcomes(vs[|attempts|], dest, found);
    ReadIsPossible(vs[|attempts|], dest);
    if WrittenBy(attempts, k + 1, found) {
      var i :| k + 1 <= i < |attempts| && found == Some(attempts[i].bytes);
    } else {
      assert found == Some(attempts[k].bytes);
    }
  }
}
