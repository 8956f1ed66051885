/** Trust-on-first-use host key pinning (internal/sshx/hostkeys.go). */
module HostKeys {
  import opened Wrappers
  import opened Disk

  // One pinned key. The fingerprint and the base64 wire form are computed by the
  // SSH library; only the wire form takes part in comparisons.
  datatype HostKey = HostKey(keyType: string, fingerprint: string, publicKey: string, firstSeen: string)
  datatype Verdict = Verdict(fingerprint: string, firstSeen: bool, replaced: bool)
  datatype Refusal = Unreadable | NotSaved | KeyChanged(pinned: string, presented: string)

  type Pins = Table<HostKey>

  datatype Decision = Pin | Match | Replace | Refuse

  function Decide<K>(pins: map<K, HostKey>, vm: K, key: HostKey, trustNew: bool): Decision {
    if vm !in pins then Pin
    else if pins[vm].publicKey == key.publicKey then Match
    else if trustNew then Replace
    else Refuse
  }

  // The pins once a check has been carried out and saved.
  function Checked<K>(pins: map<K, HostKey>, vm: K, key: HostKey, trustNew: bool): map<K, HostKey> {
    if Decide(pins, vm, key, trustNew) in {Pin, Replace} then pins[vm := key] else pins
  }

  // Outside conditions of one call: whether the file can be read, how its
  // replacement goes, and the free name found for the temporary file.
  datatype Io = Io(read: bool, write: Faults, random: string)

  class HostKeys {
    const disk: Disk<Pins>
    const path: string

    constructor (disk: Disk<Pins>, path: string)
      ensures this.disk == disk && this.path == path
    {
      this.disk := disk;
      this.path := path;
    }

    // The store's own file has been synced, as each of its writes is.
    ghost predicate Valid()
      reads disk
    {
      disk.Valid() && Synced(disk.files, path)
    }

    ghost predicate Ready(io: Io)
      reads disk
    {
      Valid() && TempName(path, io.random) !in disk.files
    }

    function Stored(): Result<Pins, ()>
      reads disk
    {
      Load(disk.files, path, false)
    }

    method Check(vm: string, presented: HostKey, trustNew: bool, io: Io) returns (r: Result<Verdict, Refusal>)
      requires Ready(io)
      modifies disk
      ensures Valid() && old(disk.history) <= disk.history
      ensures !io.read || old(Stored()).Err? ==>
                r == Err(Unreadable) && unchanged(disk)
      ensures io.read && old(Stored()).Ok? ==>
                var pins := old(Stored()).value;
                var decision := Decide(pins, vm, presented, trustNew);
                && (decision in {Match, Refuse} ==> unchanged(disk))
                && CrashSafe(disk.history, |old(disk.history)|, path, false, Ok(pins),
                             Checked(pins, vm, presented, trustNew))
                && Stored() == Ok(if r.Ok? then Checked(pins, vm, presented, trustNew) else pins)
                && Stored() == Ok(Apply(pins, Op.Check(vm, presented, trustNew, r.Ok?)))
                && r == match decision
                        case Refuse => Err(KeyChanged(pins[vm].fingerprint, presented.fingerprint))
                        case Match => Ok(Verdict(presented.fingerprint, false, false))
                        case Pin =>
                          if io.write.Clean() then Ok(Verdict(presented.fingerprint, true, false)) else Err(NotSaved)
                        case Replace =>
                          if io.write.Clean() then Ok(Verdict(presented.fingerprint, false, true)) else Err(NotSaved)
    {
      if !io.read || Stored().Err? {
        return Err(Unreadable);
      }
      var hosts := Stored().value;
      if vm !in hosts {
        hosts := hosts[vm := presented];
        var ok := Save(disk, path, false, io.random, hosts, io.write);
        return if ok then Ok(Verdict(presented.fingerprint, true, false)) else Err(NotSaved);
      } else if hosts[vm].publicKey == presented.publicKey {
        return Ok(Verdict(presented.fingerprint, false, false));
      } else if trustNew {
        hosts := hosts[vm := presented];
        var ok := Save(disk, path, false, io.random, hosts, io.write);
        return if ok then Ok(Verdict(presented.fingerprint, false, true)) else Err(NotSaved);
      } else {
        return Err(KeyChanged(hosts[vm].fingerprint, presented.fingerprint));
      }
    }

    method Forget(vm: string, io: Io) returns (ok: bool)
      requires Ready(io)
      modifies disk
      ensures Valid() && old(disk.history) <= disk.history
      ensures ok == (io.read && old(Stored()).Ok? && io.write.Clean())
      ensures Stored() == if ok then Ok(old(Stored()).value - {vm}) else old(Stored())
      ensures old(Stored()).Ok? ==> Stored() == Ok(Apply(old(Stored()).value, Op.Forget(vm, ok)))
      ensures old(Stored()).Ok? ==>
                CrashSafe(disk.history, |old(disk.history)|, path, false, old(Stored()), old(Stored()).value - {vm})
    {
      if !io.read || Stored().Err? {
        return false;
      }
      var hosts := Stored().value;
      ok := Save(disk, path, false, io.random, hosts - {vm}, io.write);
    }

    method Get(vm: string, readable: bool) returns (r: Option<HostKey>)
      ensures r == if readable && Stored().Ok? && vm in Stored().value then Some(Stored().value[vm]) else None
    {
      if !readable || Stored().Err? {
        return None;
      }
      var hosts := Stored().value;
      r := if vm in hosts then Some(hosts[vm]) else None;
    }

    // Reports whether there was a pin to move; a pin that could not be saved
    // under its new name is an error and stays under the old one.
    method Rename(oldName: string, newName: string, io: Io) returns (r: Result<bool, ()>)
      requires Ready(io)
      modifies disk
      ensures Valid() && old(disk.history) <= disk.history
      ensures !io.read || old(Stored()).Err? ==> r.Err? && unchanged(disk)
      ensures io.read && old(Stored()).Ok? ==>
                var pins := old(Stored()).value;
                && r == (if oldName !in pins then Ok(false) else if io.write.Clean() then Ok(true) else Err(()))
                && Stored() == Ok(if r.Ok? then Moved(pins, oldName, newName) else pins)
                && Stored() == Ok(Apply(pins, Op.Rename(oldName, newName, r.Ok?)))
                && CrashSafe(disk.history, |old(disk.history)|, path, false, Ok(pins), Moved(pins, oldName, newName))
    {
      if !io.read || Stored().Err? {
        return Err(());
      }
      var hosts := Stored().value;
      if oldName !in hosts {
        return Ok(false);
      }
      var key := hosts[oldName];
      hosts := hosts[newName := key];
      hosts := hosts - {oldName};
      var ok := Save(disk, path, false, io.random, hosts, io.write);
      r := if ok then Ok(true) else Err(());
    }
  }

  // ---- whole runs --------------------------------------------------------------

  // One call on the store; `saved` says whether its write, if it makes one, works.
  datatype Op =
    | Check(vm: string, key: HostKey, trustNew: bool, saved: bool)
    | Forget(vm: string, saved: bool)
    | Rename(oldName: string, newName: string, saved: bool)

  predicate Accepted(pins: Pins, op: Op)
    requires op.Check?
  {
    var decision := Decide(pins, op.vm, op.key, op.trustNew);
    decision == Match || (decision != Refuse && op.saved)
  }

  function Apply(pins: Pins, op: Op): Pins {
    if !op.saved then pins else
    match op
    case Check(vm, key, trustNew, _) => Checked(pins, vm, key, trustNew)
    case Forget(vm, _) => pins - {vm}
    case Rename(oldName, newName, _) => Moved(pins, oldName, newName)
  }

  function Run(pins: Pins, ops: seq<Op>): Pins
    decreases ops
  {
    if ops == [] then pins else Run(Apply(pins, ops[0]), ops[1..])
  }

  // The name a VM has after one call, and after a run, following its own renames.
  function NextName(vm: string, op: Op): string {
    if op.Rename? && op.oldName == vm then op.newName else vm
  }

  function NameAfter(vm: string, ops: seq<Op>): string
    decreases ops
  {
    if ops == [] then vm else NameAfter(NextName(vm, ops[0]), ops[1..])
  }

  // Renames Hyper-V allows while this VM exists: to a different name, and never
  // onto the name this VM has. The VM's own renames must reach the store.
  predicate Legal(vm: string, ops: seq<Op>)
    decreases ops
  {
    ops != [] ==>
      && (ops[0].Rename? ==>
            && ops[0].oldName != ops[0].newName
            && ops[0].newName != vm
            && (ops[0].oldName == vm ==> ops[0].saved))
      && Legal(NextName(vm, ops[0]), ops[1..])
  }

  // Somewhere in the run the VM's pin is forgotten, or replaced by trust_new_key.
  predicate Resets(pins: Pins, vm: string, ops: seq<Op>)
    decreases ops
  {
    ops != [] &&
    (|| (ops[0].Forget? && ops[0].vm == vm && ops[0].saved)
     || (ops[0].Check? && ops[0].vm == vm && ops[0].saved
         && Decide(pins, vm, ops[0].key, ops[0].trustNew) == Replace)
     || Resets(Apply(pins, ops[0]), NextName(vm, ops[0]), ops[1..]))
  }

  lemma {:induction false} PinFollowsTheVM(pins: Pins, vm: string, ops: seq<Op>)
    requires vm in pins && Legal(vm, ops) && !Resets(pins, vm, ops)
    ensures NameAfter(vm, ops) in Run(pins, ops)
    ensures Run(pins, ops)[NameAfter(vm, ops)].publicKey == pins[vm].publicKey
    decreases ops
  {
    if ops != [] {
      var next, name := Apply(pins, ops[0]), NextName(vm, ops[0]);
      assert name in next && next[name].publicKey == pins[vm].publicKey;
      PinFollowsTheVM(next, name, ops[1..]);
    }
  }

  // Two accepted checks of one VM present the same key, unless in between its
  // pin was forgotten or a new key was accepted with trust_new_key.
  lemma TrustOnFirstUse(pins: Pins, first: Op, between: seq<Op>, second: Op)
    requires first.Check? && Accepted(pins, first)
    requires Legal(first.vm, between)
    requires second.Check? && second.vm == NameAfter(first.vm, between)
    requires Accepted(Run(Apply(pins, first), between), second)
    requires first.key.publicKey != second.key.publicKey
    ensures
      || Resets(Apply(pins, first), first.vm, between)
      || Decide(Run(Apply(pins, first), between), second.vm, second.key, second.trustNew) == Replace
  {
    var pinned := Apply(pins, first);
    if !Resets(pinned, first.vm, between) {
      PinFollowsTheVM(pinned, first.vm, between);
    }
  }

  // Between resets a VM's first key is accepted every time, and no other is: neither
  // refused although known, nor taken although new.
  lemma OnlyTheKnownKey(pins: Pins, first: Op, between: seq<Op>, second: Op)
    requires first.Check? && Accepted(pins, first)
    requires Legal(first.vm, between) && !Resets(Apply(pins, first), first.vm, between)
    requires second.Check? && second.vm == NameAfter(first.vm, between) && !second.trustNew
    ensures Accepted(Run(Apply(pins, first), between), second) <==> second.key.publicKey == first.key.publicKey
  {
    PinFollowsTheVM(Apply(pins, first), first.vm, between);
  }

  // What one check comes to. A key never seen is pinned if the write works; a different
  // one is taken only on request and if the write works; afterwards the key presented is
  // the pin, and nobody else's pin has changed. After a forget every key is a new one.
  lemma OneCheck(pins: Pins, vm: string, key: HostKey, trustNew: bool, saved: bool)
    ensures var check := Check(vm, key, trustNew, saved);
            var after := Apply(pins, check);
            && (vm !in pins ==> (Accepted(pins, check) <==> saved))
            && (vm in pins && pins[vm].publicKey == key.publicKey ==> Accepted(pins, check) && after == pins)
            && (vm in pins && pins[vm].publicKey != key.publicKey ==> (Accepted(pins, check) <==> trustNew && saved))
            && (Accepted(pins, check) ==> vm in after && after[vm].publicKey == key.publicKey)
            && (!Accepted(pins, check) ==> after == pins)
            && (forall other :: other != vm && other in pins ==> other in after && after[other] == pins[other])
    ensures var forgotten := Apply(pins, Forget(vm, true));
            vm !in forgotten && Accepted(forgotten, Check(vm, key, trustNew, true))
  {
  }

  // Without the store's part of a rename the guarantee is gone: the next check
  // under the new name takes any key for a first sighting.
  lemma UnsavedRenameForgets(pins: Pins, vm: string, newName: string, key: HostKey, saved: bool)
    requires vm in pins && newName != vm && newName !in pins && key.publicKey != pins[vm].publicKey
    ensures Accepted(Apply(pins, Rename(vm, newName, saved)), Check(newName, key, false, true)) <==> !saved
  {
  }
}
