/** Any number of attempts to stage a binary (internal/svcmgr/install.go): when an
    image that would run is still on the disk. */
module InstallRuns {
  import opened Wrappers
  import opened Disk
  import opened Install

  type Faults = Install.Faults

  datatype Attempt<T> = Attempt(image: T, f: Faults)

  // ---- where an image can be ------------------------------------------------------------

  predicate Readable<T>(files: Files<T>, path: string) {
    path in files && ReadBack(files[path]).Some?
  }

  predicate Ours(dir: string, dst: string, path: string) {
    path == dst || path == dst + ".new" || Swept(dir, path)
  }

  // Some image that would run is on the disk: in place, as the copy beside it, or set
  // aside.
  ghost predicate HasImage<T>(files: Files<T>, dir: string, dst: string) {
    exists p :: Ours(dir, dst, p) && Readable(files, p)
  }

  // A set-aside image that this attempt's sweep cannot delete.
  ghost predicate LeftoverStays<T>(files: Files<T>, dir: string, removable: string -> bool) {
    exists p :: Swept(dir, p) && !removable(p) && Readable(files, p)
  }

  // ---- one attempt -------------------------------------------------------------------------

  // It puts an image on the disk itself: in place, or as a copy it cannot clean up.
  ghost predicate Brings<T>(files: Files<T>, dir: string, suffix: string, f: Faults) {
    !f.same && f.read && (CanStage(files, dir, suffix, f) || (f.open && f.write && !f.cleanup))
  }

  // It brings none, the target holds none, the sweep takes every one set aside, and no
  // earlier copy is left alone.
  ghost predicate Loses<T>(files: Files<T>, dir: string, suffix: string, f: Faults) {
    var dst := BinaryPath(dir, suffix);
    && !f.same && f.read && !Brings(files, dir, suffix, f)
    && !Readable(files, dst) && !LeftoverStays(files, dir, f.swept) && (f.open || !Readable(files, dst + ".new"))
  }

  lemma RemainingImages<T>(files: Files<T>, dir: string, suffix: string, removable: string -> bool)
    requires SEPARATOR !in suffix
    ensures var dst, left := BinaryPath(dir, suffix), Remaining(files, dir, removable);
            && (Readable(left, dst) <==> Readable(files, dst))
            && (Readable(left, dst + ".new") <==> Readable(files, dst + ".new"))
            && (forall p :: Swept(dir, p) ==> (Readable(left, p) <==> Readable(files, p) && !removable(p)))
  {
    CandidateIsSwept(dir, suffix, 0);
  }

  // The copy aside, what the sweep and the write leave is what was there.
  lemma WrittenImages<T>(files: Files<T>, dir: string, suffix: string, image: T, f: Faults)
    requires SEPARATOR !in suffix
    ensures var dst, w := BinaryPath(dir, suffix), Written(files, dir, suffix, image, f);
            && (Readable(w, dst) <==> Readable(files, dst))
            && (Readable(w, dst + ".new") <==> if f.open then f.write else Readable(files, dst + ".new"))
            && (forall p :: Swept(dir, p) ==> (Readable(w, p) <==> Readable(files, p) && !f.swept(p)))
  {
    RemainingImages(files, dir, suffix, f.swept);
    CandidateIsSwept(dir, suffix, 0);
    hide Remaining;
  }

  lemma ImagesMean<T>(w: Files<T>, files: Files<T>, dir: string, dst: string, removable: string -> bool)
    requires forall p :: Swept(dir, p) ==> (Readable(w, p) <==> Readable(files, p) && !removable(p))
    ensures HasImage(w, dir, dst) <==>
            Readable(w, dst) || Readable(w, dst + ".new") || LeftoverStays(files, dir, removable)
  {
    if Readable(w, dst) {
      assert Ours(dir, dst, dst);
    }
    if Readable(w, dst + ".new") {
      assert Ours(dir, dst, dst + ".new");
    }
    if LeftoverStays(files, dir, removable) {
      var p :| Swept(dir, p) && !removable(p) && Readable(files, p);
      assert Ours(dir, dst, p) && Readable(w, p);
    }
  }

  // Setting the binary aside and giving up moves the images about, and no more.
  lemma ReplacedImages<T>(w: Files<T>, dir: string, suffix: string, image: T, f: Faults)
    requires SEPARATOR !in suffix
    ensures var dst := BinaryPath(dir, suffix);
            var moves := f.aside && dst in w && FirstFree(w, dir, suffix, 0).Some?;
            var after := Replaced(w, dir, suffix, image, f);
            && (moves && f.again ==> Readable(after, dst) && after[dst] == Cached(image))
            && (!(moves && f.again) ==>
                  && (Readable(after, dst + ".new") <==> Readable(w, dst + ".new"))
                  && (HasImage(after - {dst + ".new"}, dir, dst) <==> HasImage(w - {dst + ".new"}, dir, dst)))
  {
    var dst, tmp := BinaryPath(dir, suffix), BinaryPath(dir, suffix) + ".new";
    var after := Replaced(w, dir, suffix, image, f);
    var free := FirstFree(w, dir, suffix, 0);
    if f.aside && dst in w && free.Some? {
      FirstFreeIsFree(w, dir, suffix, 0);
      var stray := free.value;
      if !f.again && f.rollback {
        assert after == w;
      } else if !f.again {
        assert after == (w - {dst})[stray := w[dst]];
        SetAsideImages(w, after, dir, dst, stray);
      }
    }
  }

  lemma {:induction false} FirstFreeIsFree<T>(files: Files<T>, dir: string, suffix: string, i: nat)
    requires SEPARATOR !in suffix && FirstFree(files, dir, suffix, i).Some?
    ensures var stray := FirstFree(files, dir, suffix, i).value;
            stray !in files && Swept(dir, stray)
            && stray != BinaryPath(dir, suffix) && stray != BinaryPath(dir, suffix) + ".new"
    decreases 100 - i
  {
    CandidateIsSwept(dir, suffix, i);
    if Candidate(dir, suffix, i) in files {
      FirstFreeIsFree(files, dir, suffix, i + 1);
    }
  }

  lemma SetAsideImages<T>(w: Files<T>, after: Files<T>, dir: string, dst: string, stray: string)
    requires dst in w && stray !in w && Swept(dir, stray) && stray != dst + ".new" && stray != dst
    requires after == (w - {dst})[stray := w[dst]]
    ensures HasImage(after - {dst + ".new"}, dir, dst) <==> HasImage(w - {dst + ".new"}, dir, dst)
  {
    var tmp := dst + ".new";
    if HasImage(w - {tmp}, dir, dst) {
      var p :| Ours(dir, dst, p) && Readable(w - {tmp}, p);
      var q := if p == dst then stray else p;
      assert Ours(dir, dst, q) && Readable(after - {tmp}, q);
    }
    if HasImage(after - {tmp}, dir, dst) {
      var p :| Ours(dir, dst, p) && Readable(after - {tmp}, p);
      var q := if p == stray then dst else p;
      assert Ours(dir, dst, q) && Readable(w - {tmp}, q);
    }
  }

  lemma WithTheCopy<T>(files: Files<T>, dir: string, dst: string)
    ensures HasImage(files, dir, dst) <==> HasImage(files - {dst + ".new"}, dir, dst) || Readable(files, dst + ".new")
  {
    var tmp := dst + ".new";
    if HasImage(files, dir, dst) {
      var p :| Ours(dir, dst, p) && Readable(files, p);
      assert p != tmp ==> Readable(files - {tmp}, p);
    }
    if HasImage(files - {tmp}, dir, dst) {
      var p :| Ours(dir, dst, p) && Readable(files - {tmp}, p);
      assert Readable(files, p);
    }
    if Readable(files, tmp) {
      assert Ours(dir, dst, tmp);
    }
  }

  // Staging with the copy written, by whether it gets into place.
  lemma PlacedImages<T>(files: Files<T>, dir: string, suffix: string, image: T, f: Faults)
    requires SEPARATOR !in suffix && !f.same && f.read && f.open && f.write
    ensures var dst := BinaryPath(dir, suffix);
            HasImage(FilesAfter(files, dir, suffix, image, f), dir, dst) <==>
            Brings(files, dir, suffix, f) || Readable(files, dst) || LeftoverStays(files, dir, f.swept)
  {
    var dst, w := BinaryPath(dir, suffix), Written(files, dir, suffix, image, f);
    var tmp, after := dst + ".new", FilesAfter(files, dir, suffix, image, f);
    WrittenImages(files, dir, suffix, image, f);
    CanStageMeans(files, dir, suffix, image, f);
    CandidateIsSwept(dir, suffix, 0);
    if CanStage(files, dir, suffix, f) {
      assert Ours(dir, dst, dst);
      ReplacedImages(w, dir, suffix, image, f);
      assert Readable(after, dst);
    } else {
      ReplacedImages(w, dir, suffix, image, f);
      var placed := Replaced(w, dir, suffix, image, f);
      hide Replaced, Written;
      WithTheCopy(after, dir, dst);
      assert after - {tmp} == placed - {tmp};
      assert forall p :: Swept(dir, p) ==> (Readable(w - {tmp}, p) <==> Readable(w, p));
      ImagesMean(w - {tmp}, files, dir, dst, f.swept);
    }
  }

  lemma CanStageMeans<T>(files: Files<T>, dir: string, suffix: string, image: T, f: Faults)
    requires SEPARATOR !in suffix && !f.same && f.read && f.open && f.write
    ensures var w := Written(files, dir, suffix, image, f);
            CanStage(files, dir, suffix, f) <==>
            f.replace || (f.aside && f.again && BinaryPath(dir, suffix) in w && FirstFree(w, dir, suffix, 0).Some?)
  {
    var w := Written(files, dir, suffix, image, f);
    CandidateIsSwept(dir, suffix, 0);
    assert Staged(w, files, dir, suffix, image, f.swept);
    FreeNames(w, files, dir, suffix, image, f.swept);
  }

  // An attempt leaves an image on the disk exactly when it brings one, or leaves one
  // of those it found.
  lemma ImageAfter<T>(files: Files<T>, dir: string, suffix: string, image: T, f: Faults)
    requires SEPARATOR !in suffix
    ensures HasImage(FilesAfter(files, dir, suffix, image, f), dir, BinaryPath(dir, suffix)) <==>
            if f.same || !f.read then HasImage(files, dir, BinaryPath(dir, suffix))
            else !Loses(files, dir, suffix, f)
  {
    if !f.same && f.read {
      if f.open && f.write {
        PlacedImages(files, dir, suffix, image, f);
      } else {
        WrittenImages(files, dir, suffix, image, f);
        ImagesMean(Written(files, dir, suffix, image, f), files, dir, BinaryPath(dir, suffix), f.swept);
      }
    }
  }

  // An attempt that acts and neither brings an image nor loses them found one.
  lemma FoundOne<T>(files: Files<T>, dir: string, suffix: string, f: Faults)
    requires SEPARATOR !in suffix && !f.same && f.read
    requires !Brings(files, dir, suffix, f) && !Loses(files, dir, suffix, f)
    ensures HasImage(files, dir, BinaryPath(dir, suffix))
  {
    var dst := BinaryPath(dir, suffix);
    if LeftoverStays(files, dir, f.swept) {
      var p :| Swept(dir, p) && !f.swept(p) && Readable(files, p);
      assert Ours(dir, dst, p);
    } else {
      assert Ours(dir, dst, dst) && Ours(dir, dst, dst + ".new");
    }
  }

  // ---- any number of attempts ------------------------------------------------------------------

  function FilesAfterAll<T>(files: Files<T>, dir: string, suffix: string, attempts: seq<Attempt<T>>): Files<T> {
    if attempts == [] then files else
    var n := |attempts| - 1;
    FilesAfter(FilesAfterAll(files, dir, suffix, attempts[..n]), dir, suffix, attempts[n].image, attempts[n].f)
  }

  // The attempts in order, each over what the last one left.
  method StageAgainAndAgain<T>(d: Disk<T>, dir: string, suffix: string, attempts: seq<Attempt<T>>)
    requires d.Valid() && SEPARATOR !in suffix
    modifies d
    ensures d.Valid() && d.files == FilesAfterAll(old(d.files), dir, suffix, attempts)
  {
    for k := 0 to |attempts|
      invariant d.Valid() && d.files == FilesAfterAll(old(d.files), dir, suffix, attempts[..k])
    {
      assert attempts[..k + 1][..k] == attempts[..k];
      var ok := StageBinary(d, dir, suffix, attempts[k].image, attempts[k].f);
    }
    assert attempts[..|attempts|] == attempts;
  }

  ghost predicate BringsAt<T>(files: Files<T>, dir: string, suffix: string, attempts: seq<Attempt<T>>, k: nat)
    requires k < |attempts|
  {
    Brings(FilesAfterAll(files, dir, suffix, attempts[..k]), dir, suffix, attempts[k].f)
  }

  ghost predicate LosesAt<T>(files: Files<T>, dir: string, suffix: string, attempts: seq<Attempt<T>>, k: nat)
    requires k < |attempts|
  {
    Loses(FilesAfterAll(files, dir, suffix, attempts[..k]), dir, suffix, attempts[k].f)
  }

  // Attempt k loses the last image and none after it brings one.
  ghost predicate LostFrom<T>(files: Files<T>, dir: string, suffix: string, attempts: seq<Attempt<T>>, k: nat)
    requires k < |attempts|
  {
    LosesAt(files, dir, suffix, attempts, k)
    && forall j :: k < j < |attempts| ==> !BringsAt(files, dir, suffix, attempts, j)
  }

  lemma FrontSees<T>(files: Files<T>, dir: string, suffix: string, attempts: seq<Attempt<T>>, k: nat)
    requires k < |attempts| - 1
    ensures var front := attempts[..|attempts| - 1];
            && (LosesAt(files, dir, suffix, front, k) <==> LosesAt(files, dir, suffix, attempts, k))
            && (BringsAt(files, dir, suffix, front, k) <==> BringsAt(files, dir, suffix, attempts, k))
  {
    assert attempts[..|attempts| - 1][..k] == attempts[..k];
  }

  lemma LostOneMore<T>(files: Files<T>, dir: string, suffix: string, attempts: seq<Attempt<T>>)
    requires attempts != []
    ensures var n := |attempts| - 1;
            (exists k :: 0 <= k < |attempts| && LostFrom(files, dir, suffix, attempts, k)) <==>
            || LosesAt(files, dir, suffix, attempts, n)
            || (!BringsAt(files, dir, suffix, attempts, n)
                && exists k :: 0 <= k < n && LostFrom(files, dir, suffix, attempts[..n], k))
  {
    hide LosesAt, BringsAt;
    var n := |attempts| - 1;
    var front := attempts[..n];
    forall k | 0 <= k < n
      ensures LostFrom(files, dir, suffix, attempts, k) <==>
              LostFrom(files, dir, suffix, front, k) && !BringsAt(files, dir, suffix, attempts, n)
    {
      forall j | k <= j < n
        ensures LosesAt(files, dir, suffix, front, j) <==> LosesAt(files, dir, suffix, attempts, j)
        ensures BringsAt(files, dir, suffix, front, j) <==> BringsAt(files, dir, suffix, attempts, j)
      {
        FrontSees(files, dir, suffix, attempts, j);
      }
    }
    if LosesAt(files, dir, suffix, attempts, n) {
      assert LostFrom(files, dir, suffix, attempts, n);
    }
  }

  // Over any number of attempts, from a disk with an image that would run, there is
  // one on it in the end unless some attempt lost the last of them and none after it
  // brought another.
  lemma {:induction false} WhenAnImageIsLeft<T>(files: Files<T>, dir: string, suffix: string, attempts: seq<Attempt<T>>)
    requires SEPARATOR !in suffix && HasImage(files, dir, BinaryPath(dir, suffix))
    ensures HasImage(FilesAfterAll(files, dir, suffix, attempts), dir, BinaryPath(dir, suffix)) <==>
            !exists k :: 0 <= k < |attempts| && LostFrom(files, dir, suffix, attempts, k)
    decreases |attempts|
  {
    if attempts != [] {
      var n := |attempts| - 1;
      var before, last := FilesAfterAll(files, dir, suffix, attempts[..n]), attempts[n];
      WhenAnImageIsLeft(files, dir, suffix, attempts[..n]);
      LostOneMore(files, dir, suffix, attempts);
      ImageAfter(before, dir, suffix, last.image, last.f);
      if !last.f.same && last.f.read && !Brings(before, dir, suffix, last.f) && !Loses(before, dir, suffix, last.f) {
        FoundOne(before, dir, suffix, last.f);
      }
      hide LostFrom, HasImage, FilesAfter, Brings, Loses;
    }
  }

  // As long as no attempt leaves the target missing, the target would run throughout.
  lemma {:induction false} TargetStaysReadable<T>(files: Files<T>, dir: string, suffix: string,
                                                  attempts: seq<Attempt<T>>)
    requires SEPARATOR !in suffix && Readable(files, BinaryPath(dir, suffix))
    requires forall k :: 0 <= k < |attempts| ==>
               !LeavesMissing(FilesAfterAll(files, dir, suffix, attempts[..k]), dir, suffix, attempts[k].f)
    ensures Readable(FilesAfterAll(files, dir, suffix, attempts), BinaryPath(dir, suffix))
    decreases |attempts|
  {
    hide FilesAfter, LeavesMissing, CanStage, BinaryPath;
    if attempts != [] {
      var n := |attempts| - 1;
      var before, last := FilesAfterAll(files, dir, suffix, attempts[..n]), attempts[n];
      forall k | 0 <= k < n
        ensures !LeavesMissing(FilesAfterAll(files, dir, suffix, attempts[..n][..k]), dir, suffix, attempts[k].f)
      {
        assert attempts[..n][..k] == attempts[..k];
      }
      TargetStaysReadable(files, dir, suffix, attempts[..n]);
      TargetIs(before, dir, suffix, last.image, last.f);
    }
  }

  lemma TargetIs<T>(files: Files<T>, dir: string, suffix: string, image: T, f: Faults)
    requires SEPARATOR !in suffix
    ensures At(FilesAfter(files, dir, suffix, image, f), BinaryPath(dir, suffix)) ==
            TargetAfter(files, dir, suffix, image, f)
  {
    var dst, w := BinaryPath(dir, suffix), Written(files, dir, suffix, image, f);
    CandidateIsSwept(dir, suffix, 0);
    assert At(w, dst) == At(files, dst);
    if !f.same && f.read && f.open && f.write {
      CanStageMeans(files, dir, suffix, image, f);
      assert Staged(w, files, dir, suffix, image, f.swept);
      FreeNames(w, files, dir, suffix, image, f.swept);
      if FirstFree(w, dir, suffix, 0).Some? {
        FirstFreeIsFree(w, dir, suffix, 0);
      }
      hide Written, FirstFree;
    }
  }

  // It takes two. The first attempt leaves the target missing with the old image set
  // aside; the second one's sweep deletes that before it has written anything, and
  // then it fails to.
  lemma SecondAttemptLosesAll<T>(dir: string, suffix: string, was: T, image: T, first: Faults, second: Faults)
    requires SEPARATOR !in suffix
    requires !first.same && first.read && first.open && first.write && first.cleanup
    requires !first.replace && first.aside && !first.again && !first.rollback
    requires !second.same && second.read && !second.open && forall p :: second.swept(p)
    ensures var files := map[BinaryPath(dir, suffix) := Whole(was)];
            var attempts := [Attempt(image, first), Attempt(image, second)];
            && HasImage(files, dir, BinaryPath(dir, suffix))
            && !HasImage(FilesAfterAll(files, dir, suffix, attempts), dir, BinaryPath(dir, suffix))
  {
    var dst := BinaryPath(dir, suffix);
    var files: Files<T> := map[dst := Whole(was)];
    var attempts := [Attempt(image, first), Attempt(image, second)];
    assert Ours(dir, dst, dst) && Readable(files, dst);
    CandidateIsSwept(dir, suffix, 0);
    assert FreeOnceSwept(files, dir, suffix, 0, first.swept);
    var mid := FilesAfter(files, dir, suffix, image, first);
    TargetIs(files, dir, suffix, image, first);
    assert dst + ".new" !in mid;
    assert attempts[..1] == [Attempt(image, first)] && attempts[..1][..0] == [];
    assert FilesAfterAll(files, dir, suffix, attempts[..1]) == mid;
    hide FilesAfter, FirstFree;
    ImageAfter(mid, dir, suffix, image, second);
  }
}
