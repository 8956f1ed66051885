/** Replacing the installed binary during an upgrade (internal/svcmgr/install.go). */
module Install {
  import opened Wrappers
  import opened Disk
  import opened Text

  const BASE_NAME := "hypervm-mcp"
  const STALE_PREFIX := ".old-"
  const SEPARATOR := '\\'

  function BinaryName(suffix: string): string { BASE_NAME + suffix + ".exe" }

  function BinaryPath(dir: string, suffix: string): string { dir + BinaryName(suffix) }

  // The i-th name renameAside tries for the binary of one directory.
  function Candidate(dir: string, suffix: string, i: nat): string {
    dir + STALE_PREFIX + Decimal(i) + "-" + BinaryName(suffix)
  }

  // What the glob `dir\.old-*` matches: `*` stands for anything but a separator.
  predicate Swept(dir: string, path: string) {
    && |dir| + |STALE_PREFIX| <= |path|
    && path[..|dir|] == dir
    && path[|dir|..|dir| + |STALE_PREFIX|] == STALE_PREFIX
    && SEPARATOR !in path[|dir| + |STALE_PREFIX|..]
  }

  // Every name renameAside can pick is one the next upgrade's sweep will match,
  // and none is the binary or the file it is staged in.
  lemma CandidateIsSwept(dir: string, suffix: string, i: nat)
    requires SEPARATOR !in suffix
    ensures Swept(dir, Candidate(dir, suffix, i))
    ensures !Swept(dir, BinaryPath(dir, suffix)) && !Swept(dir, BinaryPath(dir, suffix) + ".new")
  {
    var rest := Decimal(i) + "-" + BinaryName(suffix);
    var path := Candidate(dir, suffix, i);
    assert path == dir + (STALE_PREFIX + rest);
    assert path[|dir|..] == STALE_PREFIX + rest;
    assert path[|dir| + |STALE_PREFIX|..] == rest;
    assert path[|dir|..|dir| + |STALE_PREFIX|] == STALE_PREFIX;
    assert BinaryPath(dir, suffix)[|dir|] == 'h' && (BinaryPath(dir, suffix) + ".new")[|dir|] == 'h';
    assert STALE_PREFIX[0] == '.';
  }

  // The sweep takes the names in the directory that begin with the mark, and no others.
  lemma SweptMeans(dir: string, path: string)
    ensures Swept(dir, path) <==> exists rest :: SEPARATOR !in rest && path == dir + ".old-" + rest
  {
    var n := |dir| + |STALE_PREFIX|;
    if Swept(dir, path) {
      assert path == dir + ".old-" + path[n..];
    }
    forall rest | path == dir + ".old-" + rest
      ensures path[..|dir|] == dir && path[|dir|..n] == STALE_PREFIX && path[n..] == rest
    {
    }
  }

  // No two of the names are the same.
  lemma CandidatesDiffer(dir: string, suffix: string, i: nat, j: nat)
    requires Candidate(dir, suffix, i) == Candidate(dir, suffix, j)
    ensures i == j
  {
    var n := |dir| + |STALE_PREFIX|;
    var tail := "-" + BinaryName(suffix);
    assert Candidate(dir, suffix, i)[n..] == Decimal(i) + tail && Candidate(dir, suffix, j)[n..] == Decimal(j) + tail;
    assert Decimal(i) == (Decimal(i) + tail)[..|Decimal(i)|] && Decimal(j) == (Decimal(j) + tail)[..|Decimal(j)|];
    DecimalInjective(i, j);
  }

  // How each step of one staging goes. `swept` says which leftovers can be deleted.
  datatype Faults = Faults(same: bool, read: bool, swept: string -> bool, open: bool, write: bool,
                           replace: bool, aside: bool, again: bool, rollback: bool, cleanup: bool)

  // What every moment of an upgrade keeps: the target holds what it held or the
  // new image, written whole though not synced; and while it is missing the old one
  // is under a name the sweep will find.
  ghost predicate NeverLost<T>(files: Files<T>, start: Files<T>, dir: string, dst: string, image: T) {
    || At(files, dst) == At(start, dst)
    || At(files, dst) == Some(Cached(image))
    || (dst !in files && exists stray :: SetAside(files, start, dir, dst, stray))
  }

  ghost predicate SetAside<T>(files: Files<T>, start: Files<T>, dir: string, dst: string, stray: string) {
    Swept(dir, stray) && stray in files && At(files, stray) == At(start, dst)
  }

  // Files outside the upgrade's business: neither the binary, nor the staged
  // copy, nor anything the sweep owns.
  ghost predicate OthersKept<T>(files: Files<T>, start: Files<T>, dir: string, dst: string) {
    forall p :: p != dst && p != dst + ".new" && !Swept(dir, p) ==> At(files, p) == At(start, p)
  }

  ghost predicate Sound<T>(h: seq<Files<T>>, from: nat, start: Files<T>, dir: string, dst: string, image: T) {
    forall i :: from <= i < |h| ==>
      NeverLost(h[i], start, dir, dst, image) && OthersKept(h[i], start, dir, dst)
  }

  // What the sweep leaves.
  function Remaining<T>(files: Files<T>, dir: string, removable: string -> bool): Files<T> {
    map p | p in files && !(Swept(dir, p) && removable(p)) :: files[p]
  }

  // sweepStaleBinaries: deletes what it can of the leftovers, and nothing else.
  method SweepStaleBinaries<T>(d: Disk<T>, dir: string, removable: string -> bool)
    requires d.Valid()
    modifies d
    ensures d.Valid() && old(d.history) <= d.history
    ensures d.files == Remaining(old(d.files), dir, removable)
    ensures forall i, p :: |old(d.history)| <= i < |d.history| && !Swept(dir, p) ==>
              At(d.history[i], p) == At(old(d.files), p)
  {
    ghost var start := d.files;
    var matches := set p | p in d.files && Swept(dir, p);
    while matches != {}
      invariant d.Valid() && old(d.history) <= d.history
      invariant forall p :: p in matches ==> Swept(dir, p)
      invariant forall p :: p in d.files <==> p in start && (p in matches || !(Swept(dir, p) && removable(p)))
      invariant forall p :: p in d.files ==> d.files[p] == start[p]
      invariant forall i, p :: |old(d.history)| <= i < |d.history| && !Swept(dir, p) ==>
                  At(d.history[i], p) == At(start, p)
      decreases |matches|
    {
      var m :| m in matches;
      matches := matches - {m};
      d.Remove(m, removable(m));
    }
  }

  predicate IsFree<T>(files: Files<T>, dir: string, suffix: string, i: int) {
    0 <= i < 100 && Candidate(dir, suffix, i) !in files
  }

  // The first free name from the i-th on.
  function FirstFree<T>(files: Files<T>, dir: string, suffix: string, i: nat): (r: Option<string>)
    ensures r.Some? <==> exists j :: i <= j && IsFree(files, dir, suffix, j)
    decreases 100 - i
  {
    if i >= 100 then None
    else if Candidate(dir, suffix, i) !in files then
      assert IsFree(files, dir, suffix, i); Some(Candidate(dir, suffix, i))
    else FirstFree(files, dir, suffix, i + 1)
  }

  lemma {:induction false} FirstFreeMeans<T>(files: Files<T>, dir: string, suffix: string, i: nat) returns (j: nat)
    requires FirstFree(files, dir, suffix, i).Some?
    ensures i <= j && IsFree(files, dir, suffix, j)
    ensures FirstFree(files, dir, suffix, i) == Some(Candidate(dir, suffix, j))
    ensures forall k :: i <= k < j ==> !IsFree(files, dir, suffix, k)
    decreases 100 - i
  {
    hide Candidate;
    if i < 100 && Candidate(dir, suffix, i) in files {
      j := FirstFreeMeans(files, dir, suffix, i + 1);
    } else {
      j := i;
    }
  }

  // renameAside: moves the binary to the first free leftover name.
  method RenameAside<T>(d: Disk<T>, dir: string, suffix: string, works: bool) returns (stray: Option<string>)
    requires d.Valid() && SEPARATOR !in suffix
    modifies d
    ensures d.Valid()
    ensures stray.Some? <==>
              works && BinaryPath(dir, suffix) in old(d.files) && exists i :: IsFree(old(d.files), dir, suffix, i)
    ensures stray.None? ==> d.files == old(d.files)
    ensures stray.Some? ==> stray == FirstFree(old(d.files), dir, suffix, 0)
    ensures stray.Some? ==>
              var dst := BinaryPath(dir, suffix);
              && Swept(dir, stray.value) && stray.value !in old(d.files) && stray.value != dst
              && d.files == (old(d.files) - {dst})[stray.value := old(d.files)[dst]]
    ensures d.history == old(d.history) || d.history == old(d.history) + [d.files]
  {
    hide Candidate, BinaryPath, Swept;
    var path := BinaryPath(dir, suffix);
    for i := 0 to 100
      invariant d.Valid() && d.files == old(d.files) && d.history == old(d.history)
      invariant forall j :: 0 <= j < i ==> Candidate(dir, suffix, j) in d.files
      invariant FirstFree(d.files, dir, suffix, 0) == FirstFree(d.files, dir, suffix, i)
    {
      var candidate := Candidate(dir, suffix, i);
      if candidate !in d.files {
        CandidateIsSwept(dir, suffix, i);
        assert IsFree(d.files, dir, suffix, i);
        var ok := d.Rename(path, candidate, works);
        return if ok then Some(candidate) else None;
      }
    }
    stray := None;
  }

  // A name to set the binary aside under is left once the sweep has run.
  ghost predicate HasFreeName<T>(files: Files<T>, dir: string, suffix: string, removable: string -> bool) {
    exists i :: FreeOnceSwept(files, dir, suffix, i, removable)
  }

  predicate FreeOnceSwept<T>(files: Files<T>, dir: string, suffix: string, i: int, removable: string -> bool) {
    0 <= i < 100 && (Candidate(dir, suffix, i) in files ==> removable(Candidate(dir, suffix, i)))
  }

  // How one staging that copies ends. Success means the new image is in place.
  // Failure means the old one is, except when putting it back failed too: then the
  // target is gone and the old image is at the set-aside name.
  ghost predicate Outcome<T>(ok: bool, files: Files<T>, start: Files<T>, dir: string, dst: string, image: T,
                             rollback: bool)
  {
    if ok then At(files, dst) == Some(Cached(image))
    else
      || At(files, dst) == At(start, dst)
      || (!rollback && dst in start && dst !in files && exists stray :: SetAside(files, start, dir, dst, stray))
  }

  // When staging succeeds.
  ghost predicate CanStage<T>(files: Files<T>, dir: string, suffix: string, f: Faults) {
    || f.same
    || (f.read && f.open && f.write
        && (f.replace || (f.aside && f.again && BinaryPath(dir, suffix) in files
                          && HasFreeName(files, dir, suffix, f.swept))))
  }

  // When it goes wrong for good: the binary was set aside, the new one could not
  // take its place, and it could not be put back.
  ghost predicate LeavesMissing<T>(files: Files<T>, dir: string, suffix: string, f: Faults) {
    && !f.same && f.read && f.open && f.write && !f.replace
    && f.aside && !f.again && !f.rollback
    && BinaryPath(dir, suffix) in files && HasFreeName(files, dir, suffix, f.swept)
  }

  // What the target holds after one staging.
  ghost function TargetAfter<T>(files: Files<T>, dir: string, suffix: string, image: T, f: Faults): Option<Data<T>> {
    if CanStage(files, dir, suffix, f) && !f.same then Some(Cached(image))
    else if LeavesMissing(files, dir, suffix, f) then None
    else At(files, BinaryPath(dir, suffix))
  }

  // The files step by step: swept and written; put in place the second way; the whole
  // attempt. The copy is removed in the end whatever happened, if that works.
  function Written<T>(files: Files<T>, dir: string, suffix: string, image: T, f: Faults): Files<T> {
    var left := Remaining(files, dir, f.swept);
    if !f.open then left else left[BinaryPath(dir, suffix) + ".new" := if f.write then Cached(image) else Torn]
  }

  function Swapped<T>(files: Files<T>, dst: string, stray: string, image: T, f: Faults): Files<T>
    requires stray in files
  {
    if f.again then (files - {dst + ".new"})[dst := Cached(image)]
    else if f.rollback then (files - {stray})[dst := files[stray]]
    else files
  }

  function Replaced<T>(files: Files<T>, dir: string, suffix: string, image: T, f: Faults): Files<T> {
    var dst, stray := BinaryPath(dir, suffix), FirstFree(files, dir, suffix, 0);
    if !f.aside || dst !in files || stray.None? then files
    else Swapped((files - {dst})[stray.value := files[dst]], dst, stray.value, image, f)
  }

  function Placed<T>(files: Files<T>, dir: string, suffix: string, image: T, f: Faults): Files<T> {
    var dst := BinaryPath(dir, suffix);
    var placed := if f.replace then (files - {dst + ".new"})[dst := Cached(image)]
                  else Replaced(files, dir, suffix, image, f);
    if f.cleanup then placed - {dst + ".new"} else placed
  }

  function FilesAfter<T>(files: Files<T>, dir: string, suffix: string, image: T, f: Faults): Files<T> {
    if f.same || !f.read then files
    else if !f.open || !f.write then Written(files, dir, suffix, image, f)
    else Placed(Written(files, dir, suffix, image, f), dir, suffix, image, f)
  }

  // stageBinary, over an existing install or none, for every pattern of failures.
  method StageBinary<T>(d: Disk<T>, dir: string, suffix: string, image: T, f: Faults) returns (ok: bool)
    requires d.Valid() && SEPARATOR !in suffix
    modifies d
    ensures d.Valid() && old(d.history) <= d.history
    ensures Sound(d.history, |old(d.history)|, old(d.files), dir, BinaryPath(dir, suffix), image)
    ensures if f.same then ok && d.files == old(d.files)
            else Outcome(ok, d.files, old(d.files), dir, BinaryPath(dir, suffix), image, f.rollback)
    ensures ok == CanStage(old(d.files), dir, suffix, f)
    ensures At(d.files, BinaryPath(dir, suffix)) == TargetAfter(old(d.files), dir, suffix, image, f)
    ensures d.files == FilesAfter(old(d.files), dir, suffix, image, f)
  {
    if f.same {
      return true;
    }
    if !f.read {
      return false;
    }
    ghost var start := d.files;
    var tmp := BinaryPath(dir, suffix) + ".new";
    var written := SweepAndWrite(d, dir, suffix, image, f);
    if !written {
      return false;
    }
    hide Placed, Written, NeverLost, OthersKept, Outcome, Staged;
    ok := PutInPlace(d, start, dir, suffix, image, f);
  }

  // With the copy written: rename it over the target, or do it the second way; then
  // the deferred removal.
  method PutInPlace<T>(d: Disk<T>, ghost start: Files<T>, dir: string, suffix: string, image: T, f: Faults)
    returns (ok: bool)
    requires d.Valid() && SEPARATOR !in suffix
    requires Staged(d.files, start, dir, suffix, image, f.swept)
    modifies d
    ensures d.Valid() && old(d.history) <= d.history
    ensures Sound(d.history, |old(d.history)|, start, dir, BinaryPath(dir, suffix), image)
    ensures Outcome(ok, d.files, start, dir, BinaryPath(dir, suffix), image, f.rollback)
    ensures var moves := f.aside && BinaryPath(dir, suffix) in start && HasFreeName(start, dir, suffix, f.swept);
            && ok == (f.replace || (moves && f.again))
            && (!ok ==> At(d.files, BinaryPath(dir, suffix)) ==
                        if moves && !f.rollback then None else At(start, BinaryPath(dir, suffix)))
    ensures d.files == Placed(old(d.files), dir, suffix, image, f)
  {
    hide Replaced;
    var tmp := BinaryPath(dir, suffix) + ".new";
    CandidateIsSwept(dir, suffix, 0);
    ok := d.Rename(tmp, BinaryPath(dir, suffix), f.replace);
    assert NeverLost(d.files, start, dir, BinaryPath(dir, suffix), image);
    assert OthersKept(d.files, start, dir, BinaryPath(dir, suffix));
    if !ok {
      ok := ReplaceByAside(d, start, dir, suffix, image, f);
    }
    RemovingTheCopy(ok, d.files, start, dir, suffix, image, f.rollback);
    d.Remove(tmp, f.cleanup);
  }

  lemma RemovingTheCopy<T>(ok: bool, files: Files<T>, start: Files<T>, dir: string, suffix: string, image: T,
                           rollback: bool)
    requires SEPARATOR !in suffix
    requires Outcome(ok, files, start, dir, BinaryPath(dir, suffix), image, rollback)
    ensures var after := files - {BinaryPath(dir, suffix) + ".new"};
            && Outcome(ok, after, start, dir, BinaryPath(dir, suffix), image, rollback)
            && NeverLost(after, start, dir, BinaryPath(dir, suffix), image)
            && NeverLost(files, start, dir, BinaryPath(dir, suffix), image)
  {
    var dst := BinaryPath(dir, suffix);
    CandidateIsSwept(dir, suffix, 0);
    var after := files - {dst + ".new"};
    if !ok && At(files, dst) != At(start, dst) {
      var stray :| SetAside(files, start, dir, dst, stray);
      assert SetAside(after, start, dir, dst, stray);
    }
  }

  // The disk once the sweep has run and the new image lies beside the target.
  ghost predicate Staged<T>(files: Files<T>, start: Files<T>, dir: string, suffix: string, image: T,
                            removable: string -> bool)
  {
    var tmp := BinaryPath(dir, suffix) + ".new";
    && At(files, tmp) == Some(Cached(image))
    && forall p :: p != tmp ==>
         At(files, p) == if Swept(dir, p) && removable(p) then None else At(start, p)
  }

  // os.WriteFile of the copy; a write that fails leaves it behind.
  method WriteNew<T>(d: Disk<T>, tmp: string, image: T, f: Faults)
    requires d.Valid()
    modifies d
    ensures d.Valid() && old(d.history) <= d.history
    ensures d.files == if !f.open then old(d.files) else old(d.files)[tmp := if f.write then Cached(image) else Torn]
    ensures forall i, p :: |old(d.history)| <= i < |d.history| && p != tmp ==>
              At(d.history[i], p) == At(old(d.files), p)
  {
    if f.open {
      d.Put(tmp, Empty);
      d.Put(tmp, Torn);
      if f.write {
        d.Put(tmp, Cached(image));
      }
    }
  }

  // The sweep, and then the copy.
  method SweepAndWrite<T>(d: Disk<T>, dir: string, suffix: string, image: T, f: Faults) returns (ok: bool)
    requires d.Valid() && SEPARATOR !in suffix
    modifies d
    ensures d.Valid() && old(d.history) <= d.history
    ensures ok == (f.open && f.write)
    ensures At(d.files, BinaryPath(dir, suffix)) == At(old(d.files), BinaryPath(dir, suffix))
    ensures Sound(d.history, |old(d.history)|, old(d.files), dir, BinaryPath(dir, suffix), image)
    ensures ok ==> Staged(d.files, old(d.files), dir, suffix, image, f.swept)
    ensures d.files == Written(old(d.files), dir, suffix, image, f)
  {
    CandidateIsSwept(dir, suffix, 0);
    SweepStaleBinaries(d, dir, f.swept);
    var tmp := BinaryPath(dir, suffix) + ".new";
    WriteNew(d, tmp, image, f);
    ok := f.open && f.write;
  }

  // The second way in: set the mapped image aside, rename over, or put it back.
  method ReplaceByAside<T>(d: Disk<T>, ghost start: Files<T>, dir: string, suffix: string, image: T, f: Faults)
    returns (ok: bool)
    requires d.Valid() && SEPARATOR !in suffix
    requires Staged(d.files, start, dir, suffix, image, f.swept)
    modifies d
    ensures d.Valid() && old(d.history) <= d.history
    ensures Sound(d.history, |old(d.history)|, start, dir, BinaryPath(dir, suffix), image)
    ensures Outcome(ok, d.files, start, dir, BinaryPath(dir, suffix), image, f.rollback)
    ensures OthersKept(d.files, start, dir, BinaryPath(dir, suffix))
    ensures var moves := f.aside && BinaryPath(dir, suffix) in start && HasFreeName(start, dir, suffix, f.swept);
            && ok == (moves && f.again)
            && (!ok ==> At(d.files, BinaryPath(dir, suffix)) ==
                        if moves && !f.rollback then None else At(start, BinaryPath(dir, suffix)))
    ensures d.files == Replaced(old(d.files), dir, suffix, image, f)
  {
    var dst := BinaryPath(dir, suffix);
    CandidateIsSwept(dir, suffix, 0);
    FreeNames(d.files, start, dir, suffix, image, f.swept);
    var stray := RenameAside(d, dir, suffix, f.aside);
    if stray.None? {
      return false;
    }
    assert SetAside(d.files, start, dir, dst, stray.value);
    assert NeverLost(d.files, start, dir, dst, image) && OthersKept(d.files, start, dir, dst);
    ok := SwapIn(d, start, dir, dst, image, stray.value, f);
  }

  // With the binary set aside: rename over its place, or put it back.
  method SwapIn<T>(d: Disk<T>, ghost start: Files<T>, dir: string, dst: string, image: T, stray: string, f: Faults)
    returns (ok: bool)
    requires d.Valid() && dst in start && dst !in d.files && dst + ".new" !in {stray, dst} && stray != dst
    requires SetAside(d.files, start, dir, dst, stray) && OthersKept(d.files, start, dir, dst)
    requires At(d.files, dst + ".new") == Some(Cached(image)) && !Swept(dir, dst)
    modifies d
    ensures d.Valid() && old(d.history) <= d.history
    ensures Sound(d.history, |old(d.history)|, start, dir, dst, image)
    ensures ok == f.again && Outcome(ok, d.files, start, dir, dst, image, f.rollback)
    ensures OthersKept(d.files, start, dir, dst)
    ensures !ok ==> At(d.files, dst) == if f.rollback then At(start, dst) else None
    ensures d.files == Swapped(old(d.files), dst, stray, image, f)
  {
    ok := d.Rename(dst + ".new", dst, f.again);
    assert !ok ==> SetAside(d.files, start, dir, dst, stray);
    assert NeverLost(d.files, start, dir, dst, image) && OthersKept(d.files, start, dir, dst);
    if !ok {
      var back := d.Rename(stray, dst, f.rollback);
      assert !back ==> SetAside(d.files, start, dir, dst, stray);
      assert NeverLost(d.files, start, dir, dst, image) && OthersKept(d.files, start, dir, dst);
    }
  }

  lemma FreeNames<T>(files: Files<T>, start: Files<T>, dir: string, suffix: string, image: T,
                     removable: string -> bool)
    requires SEPARATOR !in suffix && Staged(files, start, dir, suffix, image, removable)
    ensures (BinaryPath(dir, suffix) in files) == (BinaryPath(dir, suffix) in start)
    ensures HasFreeName(start, dir, suffix, removable) <==> exists i :: IsFree(files, dir, suffix, i)
  {
    CandidateIsSwept(dir, suffix, 0);
    assert At(files, BinaryPath(dir, suffix)) == At(start, BinaryPath(dir, suffix));
    forall i | 0 <= i < 100
      ensures IsFree(files, dir, suffix, i) <==> FreeOnceSwept(start, dir, suffix, i, removable)
    {
      CandidateIsSwept(dir, suffix, i);
      assert At(files, Candidate(dir, suffix, i)) ==
             if removable(Candidate(dir, suffix, i)) then None else At(start, Candidate(dir, suffix, i));
    }
  }

  // ---- the upgrade branch of Install -------------------------------------------------

  // How the service control manager's steps go. A query that fails is an error by
  // itself. A stop that fails may still have stopped the service. A start that is
  // refused leaves it stopped; one that is late is reported as a failure but comes up.
  datatype Start = Comes | Late | Refused
  datatype Controls = Controls(stopQuery: bool, stop: bool, stoppedAnyway: bool, configure: bool,
                               startQuery: bool, start: Start)

  // The image a start would run.
  function Startable<T>(target: Option<Data<T>>): Option<T> {
    if target.Some? then ReadBack(target.value) else None
  }

  // What a stopped service runs after it has been asked to start.
  function Started<T>(target: Option<Data<T>>, c: Controls): Option<T> {
    if c.startQuery && !c.start.Refused? then Startable(target) else None
  }

  predicate Stops<T>(running: Option<T>, c: Controls) {
    c.stopQuery && (running.None? || c.stop)
  }

  class Service<T> {
    var running: Option<T>

    method StopAndWait(c: Controls) returns (ok: bool)
      modifies this
      ensures ok == Stops(old(running), c)
      ensures running == if c.stopQuery && (c.stop || c.stoppedAnyway) then None else old(running)
    {
      if !c.stopQuery {
        return false;
      }
      if running.None? {
        return true;
      }
      running := if c.stop || c.stoppedAnyway then None else running;
      ok := c.stop;
    }

    method StartAndWait(d: Disk<T>, dst: string, c: Controls) returns (ok: bool)
      modifies this
      ensures running == if old(running).Some? then old(running) else Started(At(d.files, dst), c)
      ensures ok == (c.startQuery && (old(running).Some? || (c.start.Comes? && running.Some?)))
    {
      if !c.startQuery {
        return false;
      }
      if running.Some? {
        return true;
      }
      running := if c.start.Refused? then None else Startable(At(d.files, dst));
      ok := c.start.Comes? && running.Some?;
    }

    // The upgrade branch: what is on disk and what runs afterwards, for every
    // pattern of failures. It succeeds exactly when every step does. Once the
    // service has stopped it is started again on what the target then holds, unless
    // staging worked and the reconfiguration did not.
    method Upgrade(d: Disk<T>, dir: string, suffix: string, image: T, f: Faults, c: Controls) returns (ok: bool)
      requires d.Valid() && SEPARATOR !in suffix
      modifies this, d
      ensures d.Valid() && old(d.history) <= d.history
      ensures Sound(d.history, |old(d.history)|, old(d.files), dir, BinaryPath(dir, suffix), image)
      ensures At(d.files, BinaryPath(dir, suffix)) ==
              if Stops(old(running), c) then TargetAfter(old(d.files), dir, suffix, image, f)
              else At(old(d.files), BinaryPath(dir, suffix))
      ensures !Stops(old(running), c) ==> d.files == old(d.files)
      ensures var stages := CanStage(old(d.files), dir, suffix, f);
              && ok == (Stops(old(running), c) && stages && c.configure
                        && c.startQuery && c.start.Comes? && running.Some?)
              && running == RunsAfter(old(running), old(d.files), dir, suffix, image, f, c)
    {
      hide FilesAfter, CanStage, LeavesMissing, NeverLost, OthersKept, Outcome, BinaryPath;
      var dst := BinaryPath(dir, suffix);
      var stopped := StopAndWait(c);
      if !stopped {
        return false;
      }
      var staged := StageBinary(d, dir, suffix, image, f);
      if !staged {
        var back := StartAndWait(d, dst, c);
        return false;
      }
      if !c.configure {
        return false;
      }
      ok := StartAndWait(d, dst, c);
    }
  }

  // The image that runs when an upgrade is over.
  ghost function RunsAfter<T>(running: Option<T>, files: Files<T>, dir: string, suffix: string, image: T, f: Faults,
                              c: Controls): Option<T>
  {
    if !Stops(running, c) then (if c.stopQuery && c.stoppedAnyway then None else running)
    else if CanStage(files, dir, suffix, f) && !c.configure then None
    else Started(TargetAfter(files, dir, suffix, image, f), c)
  }

  // Over an install that runs, an upgrade leaves the service stopped exactly when
  // the stop failed after stopping it, or it was stopped and one of these failed:
  // the new image's reconfiguration, the start itself, or both putting the new
  // binary in place and putting the old one back. If it runs, it runs the new image
  // where that was put in place, and otherwise the one there was.
  lemma WhenLeftStopped<T>(was: T, files: Files<T>, dir: string, suffix: string, image: T, f: Faults, c: Controls)
    requires Startable(At(files, BinaryPath(dir, suffix))) == Some(was)
    ensures RunsAfter(Some(was), files, dir, suffix, image, f, c) == None <==>
            c.stopQuery &&
            if !c.stop then c.stoppedAnyway
            else
              || (CanStage(files, dir, suffix, f) && !c.configure)
              || !c.startQuery || c.start.Refused?
              || LeavesMissing(files, dir, suffix, f)
    ensures var runs := RunsAfter(Some(was), files, dir, suffix, image, f, c);
            runs != None ==>
              runs == Some(if c.stopQuery && c.stop && CanStage(files, dir, suffix, f) && !f.same then image else was)
  {
  }

  // The copy is never synced: once the new image is in place, a power loss may find
  // the target torn, and may not before.
  lemma PowerLossTearsTheNewImage<T>(files: Files<T>, start: Files<T>, dir: string, suffix: string, image: T, f: Faults)
    requires At(files, BinaryPath(dir, suffix)) == TargetAfter(start, dir, suffix, image, f)
    requires Synced(start, BinaryPath(dir, suffix)) && At(start, BinaryPath(dir, suffix)) != Some(Torn)
    ensures (exists found :: MayLeave(files, found) && At(found, BinaryPath(dir, suffix)) == Some(Torn)) <==>
            CanStage(start, dir, suffix, f) && !f.same
  {
    OnlyUnsyncedTears(files, BinaryPath(dir, suffix));
  }
}
