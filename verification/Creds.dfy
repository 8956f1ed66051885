/** The credential store (internal/creds/store.go) and how a call's credential is
    resolved against it (internal/guest/dialer.go). */
module Creds {
  import opened Wrappers
  import opened Disk

  datatype Entry = Entry(username: string, password: string, sshPort: int,
                         sshPrivateKey: string, sshPassphrase: string)

  const NO_ENTRY := Entry("", "", 0, "", "")

  type Entries = Table<Entry>

  function EntryOf<K>(entries: map<K, Entry>, vm: K): Entry {
    if vm in entries then entries[vm] else NO_ENTRY
  }

  // What Set files for a VM: each field of the call, or the stored one where the
  // call leaves it blank. A key brings its own passphrase.
  function Merged(existing: Entry, e: Entry): Entry {
    Entry(if e.username == "" then existing.username else e.username,
          if e.password == "" then existing.password else e.password,
          if e.sshPort == 0 then existing.sshPort else e.sshPort,
          if e.sshPrivateKey == "" then existing.sshPrivateKey else e.sshPrivateKey,
          if e.sshPrivateKey == "" then existing.sshPassphrase else e.sshPassphrase)
  }

  datatype Io = Io(read: bool, write: Faults, random: string)

  class Store {
    const disk: Disk<Entries>
    const path: string

    constructor (disk: Disk<Entries>, path: string)
      ensures this.disk == disk && this.path == path
    {
      this.disk := disk;
      this.path := path;
    }

    // The store's own file has been synced, as each of its writes is.
    ghost predicate Valid()
      reads disk
    {
      disk.Valid() && Synced(disk.files, path)
    }

    ghost predicate Ready(io: Io)
      reads disk
    {
      Valid() && TempName(path, io.random) !in disk.files
    }

    function Stored(): Result<Entries, ()>
      reads disk
    {
      Load(disk.files, path, true)
    }

    method Get(vm: string, readable: bool) returns (r: Result<Option<Entry>, ()>)
      ensures r == if !readable || Stored().Err? then Err(())
                   else Ok(if vm in Stored().value then Some(Stored().value[vm]) else None)
    {
      if !readable || Stored().Err? {
        return Err(());
      }
      var f := Stored().value;
      r := Ok(if vm in f then Some(f[vm]) else None);
    }

    method Set(vm: string, entry: Entry, io: Io) returns (ok: bool)
      requires Ready(io)
      modifies disk
      ensures Valid() && old(disk.history) <= disk.history
      ensures ok == (io.read && old(Stored()).Ok? && io.write.Clean())
      ensures old(Stored()).Err? ==> unchanged(disk)
      ensures old(Stored()).Ok? ==>
                var before := old(Stored()).value;
                var after := before[vm := Merged(EntryOf(before, vm), entry)];
                && Stored() == Ok(if ok then after else before)
                && CrashSafe(disk.history, |old(disk.history)|, path, true, Ok(before), after)
                && Stored() == Ok(Apply(before, Op.Set(vm, entry, ok)))
    {
      if !io.read || Stored().Err? {
        return false;
      }
      var entries := Stored().value;
      var existing := EntryOf(entries, vm);
      var e := entry;
      if e.username == "" {
        e := e.(username := existing.username);
      }
      if e.password == "" {
        e := e.(password := existing.password);
      }
      if e.sshPort == 0 {
        e := e.(sshPort := existing.sshPort);
      }
      if e.sshPrivateKey == "" {
        e := e.(sshPrivateKey := existing.sshPrivateKey);
        e := e.(sshPassphrase := existing.sshPassphrase);
      }
      ok := Save(disk, path, true, io.random, entries[vm := e], io.write);
    }

    method Delete(vm: string, io: Io) returns (ok: bool)
      requires Ready(io)
      modifies disk
      ensures Valid() && old(disk.history) <= disk.history
      ensures ok == (io.read && old(Stored()).Ok? && io.write.Clean())
      ensures Stored() == if ok then Ok(old(Stored()).value - {vm}) else old(Stored())
      ensures old(Stored()).Ok? ==> Stored() == Ok(Apply(old(Stored()).value, Op.Delete(vm, ok)))
      ensures old(Stored()).Ok? ==>
                CrashSafe(disk.history, |old(disk.history)|, path, true, old(Stored()), old(Stored()).value - {vm})
    {
      if !io.read || Stored().Err? {
        return false;
      }
      ok := Save(disk, path, true, io.random, Stored().value - {vm}, io.write);
    }

    method Rename(oldName: string, newName: string, io: Io) returns (r: Result<bool, ()>)
      requires Ready(io)
      modifies disk
      ensures Valid() && old(disk.history) <= disk.history
      ensures !io.read || old(Stored()).Err? ==> r.Err? && unchanged(disk)
      ensures io.read && old(Stored()).Ok? ==>
                var before := old(Stored()).value;
                && r == (if oldName !in before then Ok(false) else if io.write.Clean() then Ok(true) else Err(()))
                && Stored() == Ok(if r.Ok? then Moved(before, oldName, newName) else before)
                && Stored() == Ok(Apply(before, Op.Rename(oldName, newName, r.Ok?)))
                && CrashSafe(disk.history, |old(disk.history)|, path, true, Ok(before), Moved(before, oldName, newName))
    {
      if !io.read || Stored().Err? {
        return Err(());
      }
      var entries := Stored().value;
      if oldName !in entries {
        return Ok(false);
      }
      var e := entries[oldName];
      entries := entries[newName := e];
      entries := entries - {oldName};
      var ok := Save(disk, path, true, io.random, entries, io.write);
      r := if ok then Ok(true) else Err(());
    }
  }

  ghost predicate SplitsNothing<V>(before: Table<V>, loaded: Table<V>, oldName: string, newName: string)
    requires oldName in before
  {
    && (oldName in loaded) != (newName in loaded)
    && loaded[if oldName in loaded then oldName else newName] == before[oldName]
    && (forall vm :: vm != oldName && vm != newName ==> (vm in loaded <==> vm in before))
    && (forall vm :: vm != oldName && vm in before ==> vm in loaded && loaded[vm] == before[vm])
  }

  // At whatever point Rename is cut short, the table found afterwards has the entry
  // under exactly one of the two names, and every other VM's entry as it was.
  lemma RenameNeverSplits(h: seq<Files<Entries>>, from: nat, path: string, before: Entries, oldName: string,
                          newName: string, i: nat, found: Files<Entries>)
    requires oldName in before && newName !in before
    requires CrashSafe(h, from, path, true, Ok(before), Moved(before, oldName, newName))
    requires from <= i < |h| && MayLeave(h[i], found)
    ensures Load(found, path, true).Ok? && SplitsNothing(before, Load(found, path, true).value, oldName, newName)
  {
    assert SplitsNothing(before, Moved(before, oldName, newName), oldName, newName);
  }

  // ---- merging -------------------------------------------------------------------

  // What a call gives is what is filed, whatever was there; what it leaves blank stays.
  // A passphrase goes with its key.
  lemma GivenReplacesStored(existing: Entry, e: Entry)
    ensures var m := Merged(existing, e);
            && (e.username != "" ==> m.username == e.username)
            && (e.username == "" ==> m.username == existing.username)
            && (e.password != "" ==> m.password == e.password)
            && (e.password == "" ==> m.password == existing.password)
            && (e.sshPort != 0 ==> m.sshPort == e.sshPort)
            && (e.sshPort == 0 ==> m.sshPort == existing.sshPort)
            && (e.sshPrivateKey != "" ==> (m.sshPrivateKey, m.sshPassphrase) == (e.sshPrivateKey, e.sshPassphrase))
            && (e.sshPrivateKey == "" ==>
                  (m.sshPrivateKey, m.sshPassphrase) == (existing.sshPrivateKey, existing.sshPassphrase))
  {
  }

  // Set never blanks a stored secret, with one exception: a new key given
  // without a passphrase clears the passphrase of the key it replaces.
  // Fields the call leaves blank stay as stored, and fields nothing is stored for
  // are the call's.
  lemma SetKeepsSecrets(existing: Entry, e: Entry)
    ensures Merged(existing, NO_ENTRY) == existing
    ensures Merged(NO_ENTRY, e) == if e.sshPrivateKey == "" then e.(sshPassphrase := "") else e
    ensures var m := Merged(existing, e);
            && (existing.password != "" ==> m.password != "")
            && (existing.sshPrivateKey != "" ==> m.sshPrivateKey != "")
            && (existing.sshPassphrase != "" ==>
                  (m.sshPassphrase == "" <==> e.sshPrivateKey != "" && e.sshPassphrase == ""))
  {
  }

  function MergedAll(existing: Entry, es: seq<Entry>): Entry
    decreases es
  {
    if es == [] then existing else MergedAll(Merged(existing, es[0]), es[1..])
  }

  // Any number of calls to Set is one call with the merge of what they gave.
  lemma {:induction false} SetsCompose(existing: Entry, first: Entry, es: seq<Entry>)
    ensures MergedAll(existing, [first] + es) == Merged(existing, MergedAll(first, es))
    decreases es
  {
    assert ([first] + es)[1..] == es;
    if es == [] {
    } else {
      SetsCompose(Merged(existing, first), es[0], es[1..]);
      SetsCompose(first, es[0], es[1..]);
      assert [es[0]] + es[1..] == es;
    }
  }

  // ---- whole runs ------------------------------------------------------------------

  datatype Op =
    | Set(vm: string, entry: Entry, saved: bool)
    | Delete(vm: string, saved: bool)
    | Rename(oldName: string, newName: string, saved: bool)

  function Apply(entries: Entries, op: Op): Entries {
    if !op.saved then entries else
    match op
    case Set(vm, e, _) => entries[vm := Merged(EntryOf(entries, vm), e)]
    case Delete(vm, _) => entries - {vm}
    case Rename(oldName, newName, _) => Moved(entries, oldName, newName)
  }

  // A run from an empty store.
  function Run(ops: seq<Op>): Entries {
    if ops == [] then map[] else Apply(Run(ops[..|ops| - 1]), ops[|ops| - 1])
  }

  // Where a run's renames carry what is filed under `vm`.
  function NameAfter(vm: string, ops: seq<Op>): string {
    if ops == [] then vm else
    var name := NameAfter(vm, ops[..|ops| - 1]);
    var op := ops[|ops| - 1];
    if op.Rename? && op.saved && op.oldName == name then op.newName else name
  }

  // Call i of the run filed exactly this key and passphrase, together, for the VM
  // that now has this name.
  ghost predicate SuppliedBy(ops: seq<Op>, i: int, vm: string, e: Entry) {
    && 0 <= i < |ops|
    && ops[i].Set? && ops[i].saved
    && ops[i].entry.sshPrivateKey == e.sshPrivateKey != ""
    && ops[i].entry.sshPassphrase == e.sshPassphrase
    && NameAfter(ops[i].vm, ops[i + 1..]) == vm
  }

  lemma NameAfterOneMore(vm: string, ops: seq<Op>, op: Op)
    ensures NameAfter(vm, ops + [op]) ==
            var name := NameAfter(vm, ops);
            if op.Rename? && op.saved && op.oldName == name then op.newName else name
  {
    assert (ops + [op])[..|ops + [op]| - 1] == ops;
  }

  // The name under which, one call earlier, what is now filed under `vm` was.
  function SourceOf(before: Entries, op: Op, vm: string): string {
    if op.Rename? && op.saved && vm == op.newName && op.oldName in before then op.oldName else vm
  }

  // What one more call leaves filed under a name: a key and passphrase it gave
  // itself, or the ones that were under `source`.
  lemma KeyAfterOneMore(before: Entries, op: Op, vm: string)
    requires vm in Apply(before, op)
    ensures var e := Apply(before, op)[vm];
            var source := SourceOf(before, op, vm);
            if op.Set? && op.saved && op.vm == vm && op.entry.sshPrivateKey != ""
            then (e.sshPrivateKey, e.sshPassphrase) == (op.entry.sshPrivateKey, op.entry.sshPassphrase)
            else if source in before
            then (e.sshPrivateKey, e.sshPassphrase) == (before[source].sshPrivateKey, before[source].sshPassphrase)
            else (e.sshPrivateKey, e.sshPassphrase) == ("", "")
  {
  }

  // A name carried on by one more call still stands for the entry it was given.
  lemma StillSupplied(before: seq<Op>, op: Op, i: int, source: string, vm: string, e: Entry, e': Entry)
    requires SuppliedBy(before, i, source, e)
    requires (e'.sshPrivateKey, e'.sshPassphrase) == (e.sshPrivateKey, e.sshPassphrase)
    requires vm == if op.Rename? && op.saved && op.oldName == source then op.newName else source
    ensures SuppliedBy(before + [op], i, vm, e')
  {
    var ops := before + [op];
    assert ops[i] == before[i] && ops[i + 1..] == before[i + 1..] + [op];
    NameAfterOneMore(before[i].vm, before[i + 1..], op);
    hide NameAfter;
  }

  // A stored passphrase belongs to the stored key: one call of Set gave both, for
  // this VM. Without a key there is no passphrase.
  lemma {:induction false} KeyAndPassphraseTogether(ops: seq<Op>, vm: string)
    requires vm in Run(ops)
    ensures var e := Run(ops)[vm];
            if e.sshPrivateKey == "" then e.sshPassphrase == "" else exists i :: SuppliedBy(ops, i, vm, e)
    decreases ops
  {
    var n := |ops| - 1;
    var before, op, e := ops[..n], ops[n], Run(ops)[vm];
    assert ops == before + [op] && ops[n + 1..] == [];
    var source := SourceOf(Run(before), op, vm);
    KeyAfterOneMore(Run(before), op, vm);
    SourceMoves(Run(before), op, vm);
    if op.Set? && op.saved && op.vm == vm && op.entry.sshPrivateKey != "" {
      assert SuppliedBy(ops, n, vm, e);
    } else if source in Run(before) {
      KeyAndPassphraseTogether(before, source);
      hide Apply, Run, NameAfter, SuppliedBy;
      if e.sshPrivateKey != "" {
        var i :| SuppliedBy(before, i, source, Run(before)[source]);
        StillSupplied(before, op, i, source, vm, Run(before)[source], e);
      }
    }
  }

  // What is under a name after a rename was under the name that the rename moved.
  lemma SourceMoves(before: Entries, op: Op, vm: string)
    requires vm in Apply(before, op)
    ensures var source := if op.Rename? && op.saved && vm == op.newName && op.oldName in before
                          then op.oldName else vm;
            source in before && !(op.Set? && op.saved && op.vm == vm && op.entry.sshPrivateKey != "") ==>
              vm == if op.Rename? && op.saved && op.oldName == source then op.newName else source
  {
  }

  // ---- the password on file ----------------------------------------------------------

  // The name under which, after the first k calls, what is now filed under `vm` was.
  function FiledAs(ops: seq<Op>, vm: string, k: nat): string
    requires k <= |ops|
    decreases |ops|
  {
    if k == |ops| then vm else
    var n := |ops| - 1;
    FiledAs(ops[..n], SourceOf(Run(ops[..n]), ops[n], vm), k)
  }

  // Call j gave a password for the VM whose entry is now under `vm`.
  predicate GivesPassword(ops: seq<Op>, vm: string, j: int)
    requires 0 <= j < |ops|
  {
    ops[j].Set? && ops[j].saved && ops[j].vm == FiledAs(ops, vm, j + 1) && ops[j].entry.password != ""
  }

  // ... and no later call gave another.
  ghost predicate LastGiven(ops: seq<Op>, vm: string, i: int) {
    0 <= i < |ops| && GivesPassword(ops, vm, i) && forall j :: i < j < |ops| ==> !GivesPassword(ops, vm, j)
  }

  // The VM had an entry after the first k calls; and ever since.
  predicate Present(ops: seq<Op>, vm: string, k: int)
    requires 0 <= k <= |ops|
  {
    FiledAs(ops, vm, k) in Run(ops[..k])
  }

  ghost predicate PresentSince(ops: seq<Op>, vm: string, k: nat) {
    forall i :: k <= i <= |ops| ==> Present(ops, vm, i)
  }

  // Seen one call earlier, what happened before is the same.
  lemma OneCallEarlier(ops: seq<Op>, vm: string, j: nat)
    requires j < |ops|
    ensures var n := |ops| - 1;
            var front, source := ops[..n], SourceOf(Run(ops[..n]), ops[n], vm);
            && (j < n ==> GivesPassword(ops, vm, j) == GivesPassword(front, source, j))
            && Present(ops, vm, j) == Present(front, source, j)
  {
    assert ops[..|ops| - 1][..j] == ops[..j];
    hide Run;
  }

  // One more call, by what it does to the password under a name.
  lemma PasswordAfterOneMore(before: Entries, op: Op, vm: string)
    requires vm in Apply(before, op)
    ensures var p, source := Apply(before, op)[vm].password, SourceOf(before, op, vm);
            if op.Set? && op.saved && op.vm == vm && op.entry.password != "" then p == op.entry.password
            else if source in before then p == before[source].password else p == ""
  {
    if op.Set? {
      GivenReplacesStored(EntryOf(before, op.vm), op.entry);
    }
    hide Merged;
  }

  // Over every run: a password on file is the one given last for this VM, under
  // whatever names it had; and there is none only if none was given since the VM last
  // had no entry.
  lemma {:induction false} PasswordIsTheLastGiven(ops: seq<Op>, vm: string)
    requires vm in Run(ops)
    ensures var p := Run(ops)[vm].password;
            && (p != "" ==> exists i :: LastGiven(ops, vm, i) && ops[i].entry.password == p)
            && (p == "" ==> forall i :: 0 <= i < |ops| && GivesPassword(ops, vm, i) ==> !PresentSince(ops, vm, i + 1))
    decreases |ops|
  {
    var n := |ops| - 1;
    var front, op := ops[..n], ops[n];
    var source := SourceOf(Run(front), op, vm);
    PasswordAfterOneMore(Run(front), op, vm);
    hide Apply;
    if GivesPassword(ops, vm, n) {
      assert LastGiven(ops, vm, n);
    } else if source in Run(front) {
      PasswordIsTheLastGiven(front, source);
      LastInFront(ops, vm);
      hide LastGiven, GivesPassword, PresentSince, FiledAs, Run, SourceOf;
    } else {
      forall i | 0 <= i < |ops| && GivesPassword(ops, vm, i)
        ensures !PresentSince(ops, vm, i + 1)
      {
        assert i + 1 <= n && FiledAs(ops, vm, n) == source && !Present(ops, vm, n);
      }
    }
  }

  lemma LastInFront(ops: seq<Op>, vm: string)
    requires ops != [] && !GivesPassword(ops, vm, |ops| - 1)
    ensures var n := |ops| - 1;
            var front, source := ops[..n], SourceOf(Run(ops[..n]), ops[n], vm);
            && (forall i :: LastGiven(front, source, i) ==> LastGiven(ops, vm, i) && ops[i] == front[i])
            && (forall i :: 0 <= i < n && GivesPassword(ops, vm, i) && PresentSince(ops, vm, i + 1) ==>
                  GivesPassword(front, source, i) && PresentSince(front, source, i + 1))
  {
    var n := |ops| - 1;
    var front, source := ops[..n], SourceOf(Run(ops[..n]), ops[n], vm);
    hide GivesPassword, Present, SourceOf, Run;
    forall j | 0 <= j <= n
      ensures j < n ==> GivesPassword(ops, vm, j) == GivesPassword(front, source, j)
      ensures Present(ops, vm, j) == Present(front, source, j)
    {
      OneCallEarlier(ops, vm, j);
    }
  }

  // ---- resolving a call's credential -------------------------------------------------

  const DEFAULT_SSH_PORT := 22

  datatype Credential = Credential(username: string, password: string, privateKey: string,
                                   passphrase: string, port: int)
  datatype CredentialError = StoreUnreadable | CredentialNotFound

  // The secrets of a credential, which are only good together.
  function Secrets(c: Credential): (string, string, string) { (c.password, c.privateKey, c.passphrase) }

  function StoredSecrets(e: Entry): (string, string, string) { (e.password, e.sshPrivateKey, e.sshPassphrase) }

  // What a call's credential comes to, given what is stored; none without a user name.
  function Resolved(stored: Option<Entry>, call: Credential): Option<Credential> {
    var e := if stored.Some? then stored.value else NO_ENTRY;
    var fromStore := call.password == "" && call.privateKey == "" && stored.Some?;
    var port := if call.port != 0 then call.port else e.sshPort;
    var user := if call.username != "" then call.username else e.username;
    if user == "" then None
    else Some(Credential(user,
                         if fromStore then e.password else call.password,
                         if fromStore then e.sshPrivateKey else call.privateKey,
                         if fromStore then e.sshPassphrase else call.passphrase,
                         if port != 0 then port else DEFAULT_SSH_PORT))
  }

  // Dialer.Credential: never mixes the call's secrets with the stored ones.
  method ResolveCredential(stored: Result<Option<Entry>, ()>, override: Credential)
    returns (r: Result<Credential, CredentialError>)
    ensures stored.Err? ==> r == Err(StoreUnreadable)
    ensures stored.Ok? ==>
              (r == Err(CredentialNotFound) <==>
               override.username == "" && (stored.value.None? || stored.value.value.username == ""))
    ensures stored.Ok? && r.Err? ==> r == Err(CredentialNotFound)
    ensures r.Ok? ==>
              && r.value.username != "" && (r.value.username == override.username || override.username == "")
              && Secrets(r.value) == (if stored.value.Some? && override.password == "" && override.privateKey == ""
                                      then StoredSecrets(stored.value.value) else Secrets(override))
              && r.value.port == (if override.port != 0 then override.port
                                  else if stored.value.Some? && stored.value.value.sshPort != 0
                                  then stored.value.value.sshPort else DEFAULT_SSH_PORT)
    ensures r.Ok? && override.username == "" ==> r.value.username == stored.value.value.username
    ensures stored.Ok? ==> r == match Resolved(stored.value, override)
                                case Some(c) => Ok(c)
                                case None => Err(CredentialNotFound)
  {
    if stored.Err? {
      return Err(StoreUnreadable);
    }
    var out := override;
    if stored.value.Some? {
      var e := stored.value.value;
      if out.username == "" {
        out := out.(username := e.username);
      }
      if out.password == "" && out.privateKey == "" {
        out := out.(password := e.password);
        out := out.(privateKey := e.sshPrivateKey);
        out := out.(passphrase := e.sshPassphrase);
      }
      if out.port == 0 {
        out := out.(port := e.sshPort);
      }
    }
    if out.port == 0 {
      out := out.(port := DEFAULT_SSH_PORT);
    }
    if out.username == "" {
      return Err(CredentialNotFound);
    }
    r := Ok(out);
  }

  // End to end, after any run of the store: the key and passphrase a connection
  // uses came together, either in this call or in one call of Set for this VM.
  method CredentialAfterRun(ghost ops: seq<Op>, entries: Entries, vm: string, override: Credential)
    returns (r: Result<Credential, CredentialError>)
    requires entries == Run(ops)
    ensures r.Ok? && r.value.privateKey != "" ==>
              || (override.privateKey, override.passphrase) == (r.value.privateKey, r.value.passphrase)
              || exists i :: 0 <= i < |ops| && ops[i].Set? && NameAfter(ops[i].vm, ops[i + 1..]) == vm
                   && (ops[i].entry.sshPrivateKey, ops[i].entry.sshPassphrase)
                      == (r.value.privateKey, r.value.passphrase)
  {
    r := ResolveCredential(Ok(if vm in entries then Some(entries[vm]) else None), override);
    if vm in entries && entries[vm].sshPrivateKey != "" {
      KeyAndPassphraseTogether(ops, vm);
    }
  }
}
