/** The file system as the service sees it, and the atomic replacement every
    saved file goes through (internal/config/config.go). */
module Disk {
  import opened Wrappers

  // What a file holds. A value is abstract: encoding it and decoding it again is
  // taken to be exact. `Empty` is a created but unwritten file, `Torn` one whose
  // write has not finished. A `Cached` value has been written whole but not synced:
  // it reads back, but a power loss may tear it.
  datatype Data<+T> = Empty | Torn | Cached(value: T) | Whole(value: T)

  type Files<T> = map<string, Data<T>>

  function At<T>(files: Files<T>, path: string): Option<Data<T>> {
    if path in files then Some(files[path]) else None
  }

  // The value a file reads back as.
  function ReadBack<T>(d: Data<T>): Option<T> {
    if d.Whole? || d.Cached? then Some(d.value) else None
  }

  // What may be found afterwards if the process or the machine stops in a state: the
  // same files, except that a cached value may have come to the disk whole, torn or
  // not at all.
  ghost predicate MayLeave<T>(files: Files<T>, found: Files<T>) {
    && found.Keys == files.Keys
    && forall p :: p in files ==> found[p] == files[p] || (files[p].Cached? && found[p] in Settling(files[p].value))
  }

  function Settling<T>(value: T): seq<Data<T>> { [Empty, Torn, Whole(value)] }

  // A file a power loss cannot hurt.
  ghost predicate Synced<T>(files: Files<T>, path: string) {
    path in files ==> !files[path].Cached?
  }

  // A state may leave a file torn exactly when it has it cached, or torn already.
  lemma OnlyUnsyncedTears<T>(files: Files<T>, path: string)
    ensures (exists found :: MayLeave(files, found) && At(found, path) == Some(Torn)) <==>
            At(files, path) == Some(Torn) || !Synced(files, path)
    ensures Synced(files, path) ==> forall found :: MayLeave(files, found) ==> At(found, path) == At(files, path)
  {
    if !Synced(files, path) {
      assert MayLeave(files, files[path := Torn]);
    } else {
      assert MayLeave(files, files);
    }
  }

  // Which steps of one atomic write succeed. `remove` is the deferred cleanup.
  datatype Faults = Faults(create: bool, write: bool, sync: bool, close: bool,
                           chmod: bool, rename: bool, remove: bool)
  {
    predicate Clean() { create && write && sync && close && chmod && rename }
  }

  // The name CreateTemp gives: the base name, ".tmp" and a random part.
  function TempName(path: string, random: string): string { path + ".tmp" + random }

  // A state an interrupted write may leave: `path` is as it was at the start or
  // holds `after`, and nothing else differs except the temporary file.
  ghost predicate BeforeOrAfter<T>(files: Files<T>, start: Files<T>, path: string, tmp: string,
                                   after: Data<T>)
  {
    && (At(files, path) == At(start, path) || At(files, path) == Some(after))
    && (forall p :: p != path && p != tmp ==> At(files, p) == At(start, p))
  }

  // A disk. `history` records every state it has been in; what a crash or a power
  // loss leaves is what one of those states may leave.
  class Disk<T> {
    var files: Files<T>
    ghost var history: seq<Files<T>>

    ghost predicate Valid()
      reads this
    {
      |history| > 0 && history[|history| - 1] == files
    }

    constructor (files: Files<T>)
      ensures Valid() && this.files == files && history == [files]
    {
      this.files := files;
      history := [files];
    }

    // os.Rename: replaces the target, or fails and changes nothing.
    method Rename(from: string, to: string, works: bool) returns (ok: bool)
      requires Valid()
      modifies this
      ensures Valid()
      ensures ok == (works && from in old(files))
      ensures files == if ok then (old(files) - {from})[to := old(files)[from]] else old(files)
      ensures history == old(history) + [files]
    {
      ok := works && from in files;
      if ok {
        files := (files - {from})[to := files[from]];
      }
      history := history + [files];
    }

    method Put(path: string, data: Data<T>)
      requires Valid()
      modifies this
      ensures Valid()
      ensures files == old(files)[path := data]
      ensures history == old(history) + [files]
    {
      files := files[path := data];
      history := history + [files];
    }

    // fsync: what is cached comes to the disk. A sync that fails promises nothing.
    method Sync(path: string, works: bool)
      requires Valid() && path in files && files[path].Cached?
      modifies this
      ensures Valid()
      ensures files == if works then old(files)[path := Whole(old(files)[path].value)] else old(files)
      ensures history == old(history) + [files]
    {
      if works {
        files := files[path := Whole(files[path].value)];
      }
      history := history + [files];
    }

    method Remove(path: string, works: bool)
      requires Valid()
      modifies this
      ensures Valid()
      ensures files == if works then old(files) - {path} else old(files)
      ensures history == old(history) + [files]
    {
      if works {
        files := files - {path};
      }
      history := history + [files];
    }

    // One of writeFileAtomic's steps on the temporary file, and what every such
    // step keeps.
    ghost predicate OnlyTheCopy(start: Files<T>, tmp: string)
      reads this
    {
      Valid() && forall p :: p != tmp ==> At(files, p) == At(start, p)
    }

    // Writing the temporary file: created, part written, written, synced.
    method WriteCopy(tmp: string, value: T, f: Faults) returns (ok: bool)
      requires Valid() && tmp !in files
      modifies this
      ensures OnlyTheCopy(old(files), tmp)
      ensures old(history) <= history
      ensures forall i, p :: |old(history)| <= i < |history| && p != tmp ==> At(history[i], p) == At(old(files), p)
      ensures ok == (f.write && f.sync && f.close && f.chmod)
      ensures At(files, tmp) == Some(if !f.write then Torn else if f.sync then Whole(value) else Cached(value))
    {
      Put(tmp, Empty);
      Put(tmp, Torn);
      if !f.write {
        return false;
      }
      Put(tmp, Cached(value));
      Sync(tmp, f.sync);
      ok := f.sync && f.close && f.chmod;
    }

    // config.writeFileAtomic. The random part is one CreateTemp found free.
    method WriteFileAtomic(path: string, random: string, value: T, f: Faults) returns (ok: bool)
      requires Valid()
      requires TempName(path, random) !in files
      modifies this
      ensures Valid()
      ensures ok == f.Clean()
      ensures At(files, path) == if ok then Some(Whole(value)) else At(old(files), path)
      ensures old(history) <= history
      ensures forall i :: |old(history)| <= i < |history| ==>
        BeforeOrAfter(history[i], old(files), path, TempName(path, random), Whole(value))
      ensures f.create && f.remove ==> TempName(path, random) !in files
    {
      var tmp := TempName(path, random);
      assert |tmp| > |path|;
      if !f.create {
        return false;
      }
      ghost var start := files;
      ok := WriteCopy(tmp, value, f);
      if ok {
        ok := Rename(tmp, path, f.rename);
        assert BeforeOrAfter(files, start, path, tmp, Whole(value));
      }
      Remove(tmp, f.remove);
      assert BeforeOrAfter(files, start, path, tmp, Whole(value));
    }
  }

  // ---- a map kept in one file, rewritten whole on every change ----------------

  type Table<V> = map<string, V>

  // Reading the file back: missing is an empty table, unreadable is an error.
  // Only the credential store also takes a zero-length file for an empty table.
  function Load<V>(files: Files<Table<V>>, path: string, emptyIsBlank: bool): Result<Table<V>, ()> {
    match At(files, path)
    case None => Ok(map[])
    case Some(Whole(t)) => Ok(t)
    case Some(Cached(t)) => Ok(t)
    case Some(Empty) => if emptyIsBlank then Ok(map[]) else Err(())
    case Some(Torn) => Err(())
  }

  // A file that is not there is an empty table, and one that cannot be decoded is an
  // error, never taken for an empty one; what was written whole reads back.
  lemma LoadMeans<V>(files: Files<Table<V>>, path: string, blank: bool, t: Table<V>)
    ensures path !in files ==> Load(files, path, blank) == Ok(map[])
    ensures Load(files[path := Whole(t)], path, blank) == Ok(t) == Load(files[path := Cached(t)], path, blank)
    ensures Load(files[path := Torn], path, blank).Err?
    ensures Load(files[path := Empty], path, blank) == if blank then Ok(map[]) else Err(())
  {
  }

  // What a rename does to a table: the entry, if any, moves.
  function Moved<V>(t: Table<V>, oldName: string, newName: string): Table<V> {
    if oldName in t then t[newName := t[oldName]] - {oldName} else t
  }

  // A crash or a power loss between any two steps of an update leaves a file that
  // loads as the table before it or the table after it.
  ghost predicate CrashSafe<V(!new)>(h: seq<Files<Table<V>>>, from: nat, path: string, blank: bool,
                               before: Result<Table<V>, ()>, after: Table<V>)
  {
    forall i, found :: from <= i < |h| && MayLeave(h[i], found) ==>
      Load(found, path, blank) == before || Load(found, path, blank) == Ok(after)
  }

  // The store's own save: effective exactly when every step of the write worked.
  method Save<V(!new)>(d: Disk<Table<V>>, path: string, blank: bool, random: string, t: Table<V>, f: Faults)
    returns (ok: bool)
    requires d.Valid() && TempName(path, random) !in d.files && Synced(d.files, path)
    modifies d
    ensures d.Valid() && Synced(d.files, path) && ok == f.Clean()
    ensures Load(d.files, path, blank) == if ok then Ok(t) else Load(old(d.files), path, blank)
    ensures old(d.history) <= d.history
    ensures CrashSafe(d.history, |old(d.history)|, path, blank, Load(old(d.files), path, blank), t)
  {
    ok := d.WriteFileAtomic(path, random, t, f);
  }
}
