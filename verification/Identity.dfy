/** Everything the server files under a VM's name, against the same service filed
    under the VM's identifier (internal/mcpsrv/provisiontools.go, rename_vm). */
module Identity {
  import opened Wrappers
  import Disk
  import HostKeys
  import Creds

  const NO_LOGIN := Creds.Credential("", "", "", "", 0)

  // Hyper-V's identifier for a VM, which a rename does not change.
  type Id = nat

  // A live SSH connection, with the VM that had the name when it was dialled, and the
  // credential it logged in with.
  datatype Conn = Conn(vm: Option<Id>, login: Creds.Credential, serial: nat)

  // How a store's part of a rename goes: it works, its write fails, or the store
  // cannot even be read.
  datatype Outcome = Works | WriteFails | Unreadable

  datatype Forward<Vm> = Forward(vm: Vm, guestPort: int)

  // The service's state over some way of naming VMs: `vms` is Hyper-V's own, the
  // rest is what this server keeps.
  datatype Filed<!Vm> = Filed(vms: map<Id, string>, creds: map<Vm, Creds.Entry>, pins: map<Vm, HostKeys.HostKey>,
                             pool: map<Vm, Conn>, tunnels: map<nat, Forward<Vm>>)

  type ByName = Filed<string>
  type ById = Filed<Id>

  // Where a connection goes: to an address in the call, or to the one Hyper-V
  // reports for the VM of that name, if it reports one.
  datatype Address = Given | Reported | Unknown

  // Requests, as callers make them: by name, whether or not a VM has it.
  // `creds` and `keys` say how rename_vm's two stores do. A connection attempt has the
  // credential given in the call, and meets a pooled connection that is `alive` or
  // not, login methods that can be made of a credential or not, a guest that answers
  // (`reached`) with a host key and accepts a credential or not. `tunnel` is the ID an
  // opening is given.
  datatype Op =
    | Create(id: Id, name: string)
    | Rename(oldName: string, newName: string, creds: Outcome, keys: Outcome)
    | SetCred(name: string, entry: Creds.Entry)
    | DeleteCred(name: string)
    | GetCred(name: string)
    | Forget(name: string)
    | Connect(name: string, call: Creds.Credential, address: Address, alive: bool, usable: Creds.Credential -> bool,
              reached: bool, key: HostKeys.HostKey, trustNew: bool, accepts: Creds.Credential -> bool, serial: nat)
    | OpenTunnel(name: string, tunnel: nat, guestPort: int)
    | CloseTunnel(tunnel: nat)
    | TunnelTarget(tunnel: nat)
    | ListTunnels(name: string)

  datatype Answer =
    | Done
    | Refused
    | Renamed(credsMoved: bool, keyMoved: bool, tunnelsMoved: set<nat>)
    | Credential(entry: Option<Creds.Entry>)
    | Connected(conn: Conn)
    | Target(vm: Option<Id>)
    | Tunnels(tunnels: set<nat>)

  // ---- Hyper-V ------------------------------------------------------------------------

  ghost predicate HasName(vms: map<Id, string>, name: string) {
    exists id :: id in vms && vms[id] == name
  }

  ghost predicate DistinctNames(vms: map<Id, string>) {
    forall a, b :: a in vms && b in vms && vms[a] == vms[b] ==> a == b
  }

  ghost function Named(vms: map<Id, string>, name: string): Id
    requires HasName(vms, name)
    ensures Named(vms, name) in vms && vms[Named(vms, name)] == name
  {
    var id :| id in vms && vms[id] == name; id
  }

  // RenameVM's guards: both names given and different, the VM there, and no other
  // VM with the new name.
  ghost predicate CanRename(vms: map<Id, string>, oldName: string, newName: string) {
    oldName != "" && newName != "" && oldName != newName && HasName(vms, oldName) && !HasName(vms, newName)
  }

  ghost predicate CanCreate(vms: map<Id, string>, id: Id, name: string) {
    id !in vms && name != "" && !HasName(vms, name)
  }

  // ---- one request, over either naming ---------------------------------------------------

  function Lookup<K, V>(m: map<K, V>, k: K): Option<V> {
    if k in m then Some(m[k]) else None
  }

  function Filing<V(==)>(tunnels: map<nat, Forward<V>>, vm: V): set<nat> {
    set t | t in tunnels && tunnels[t].vm == vm
  }

  // Requests about one VM, known to the state as `vm`, and to Hyper-V as `id` if
  // there is one. Only what needs the VM itself asks for that.
  function AboutVM<V(==)>(f: Filed<V>, vm: V, id: Option<Id>, op: Op): (Filed<V>, Answer)
    requires !op.Create? && !op.Rename? && !op.CloseTunnel? && !op.TunnelTarget?
  {
    match op
    case SetCred(name, entry) =>
      if name == "" then (f, Refused) else
      (f.(creds := f.creds[vm := Creds.Merged(Creds.EntryOf(f.creds, vm), entry)], pool := f.pool - {vm}), Done)
    case DeleteCred(name) =>
      if name == "" then (f, Refused) else (f.(creds := f.creds - {vm}, pool := f.pool - {vm}), Done)
    case GetCred(_) => (f, Credential(Lookup(f.creds, vm)))
    case Forget(_) => (f.(pins := f.pins - {vm}, pool := f.pool - {vm}), Done)
    case Connect(_, call, address, _, _, _, _, _, _, _) =>
      var login := Creds.Resolved(Lookup(f.creds, vm), call);
      if login.Some? && (address.Given? || (address.Reported? && id.Some?))
      then Dialled(f, vm, id, login.value, op) else (f, Refused)
    case OpenTunnel(name, t, guestPort) =>
      if name == "" || t in f.tunnels then (f, Refused)
      else (f.(tunnels := f.tunnels[t := Forward(vm, guestPort)]), Done)
    case ListTunnels(name) => (f, Tunnels(if name == "" then f.tunnels.Keys else Filing(f.tunnels, vm)))
  }

  // Once there is a credential and an address: a pooled connection that answers, or a
  // fresh one. The host key is checked, and a first one pinned, before the login is
  // tried.
  function Dialled<V(==)>(f: Filed<V>, vm: V, id: Option<Id>, login: Creds.Credential, op: Op): (Filed<V>, Answer)
    requires op.Connect?
  {
    if op.alive && vm in f.pool then (f, Connected(f.pool[vm])) else
    var dropped := f.(pool := f.pool - {vm});
    if !op.usable(login) || !op.reached || HostKeys.Decide(f.pins, vm, op.key, op.trustNew) == HostKeys.Refuse
    then (dropped, Refused) else
    var checked := dropped.(pins := HostKeys.Checked(f.pins, vm, op.key, op.trustNew));
    var made := Conn(id, login, op.serial);
    if !op.accepts(login) then (checked, Refused)
    else (checked.(pool := checked.pool[vm := made]), Connected(made))
  }

  function Repointed(f: Forward<string>, oldName: string, newName: string): Forward<string> {
    if f.vm == oldName then f.(vm := newName) else f
  }

  // The server as it is: filed by name, so rename_vm has to move everything. It
  // takes requests about names that no VM has.
  ghost function ServeByName(f: ByName, op: Op): (ByName, Answer) {
    match op
    case Create(id, name) =>
      if CanCreate(f.vms, id, name) then (f.(vms := f.vms[id := name]), Done) else (f, Refused)
    case Rename(oldName, newName, credsDo, keysDo) =>
      if !CanRename(f.vms, oldName, newName) then (f, Refused) else
      (Filed(f.vms[Named(f.vms, oldName) := newName],
             if credsDo.Works? then Disk.Moved(f.creds, oldName, newName) else f.creds,
             if keysDo.Works? then Disk.Moved(f.pins, oldName, newName) else f.pins,
             f.pool - {oldName},
             RepointAll(f.tunnels, oldName, newName)),
       Renamed(credsDo.Works? && oldName in f.creds, keysDo.Works? && oldName in f.pins, Filing(f.tunnels, oldName)))
    case CloseTunnel(t) => (f.(tunnels := f.tunnels - {t}), if t in f.tunnels then Done else Refused)
    case TunnelTarget(t) =>
      (f, if t !in f.tunnels then Refused
          else Target(if HasName(f.vms, f.tunnels[t].vm) then Some(Named(f.vms, f.tunnels[t].vm)) else None))
    case _ => AboutVM(f, op.name, if HasName(f.vms, op.name) then Some(Named(f.vms, op.name)) else None, op)
  }

  function RepointAll(tunnels: map<nat, Forward<string>>, oldName: string, newName: string): map<nat, Forward<string>> {
    map t | t in tunnels :: Repointed(tunnels[t], oldName, newName)
  }

  // A store's Rename is an error: it could not be read, or there was an entry and the
  // write failed.
  predicate Warns(outcome: Outcome, present: bool) {
    outcome.Unreadable? || (outcome.WriteFails? && present)
  }

  // The rename_vm handler, in the order it works: Hyper-V, which alone can
  // refuse; then what is filed under the old name, each failure only a warning.
  class Server {
    var vms: map<Id, string>
    var creds: map<string, Creds.Entry>
    var pins: map<string, HostKeys.HostKey>
    var pool: map<string, Conn>
    var tunnels: map<nat, Forward<string>>

    ghost function View(): ByName
      reads this
    {
      Filed(vms, creds, pins, pool, tunnels)
    }

    method RenameVM(oldName: string, newName: string, credsDo: Outcome, keysDo: Outcome)
      returns (answer: Answer, warnings: nat)
      requires DistinctNames(vms)
      modifies this
      ensures (View(), answer) == ServeByName(old(View()), Rename(oldName, newName, credsDo, keysDo))
      ensures answer.Refused? ==> warnings == 0
      ensures answer.Renamed? ==>
                warnings == (if Warns(credsDo, oldName in old(creds)) then 1 else 0)
                            + (if Warns(keysDo, oldName in old(pins)) then 1 else 0)
      ensures answer.Renamed? && warnings == 0 ==> MovesAll(old(View()), Rename(oldName, newName, credsDo, keysDo))
    {
      warnings := 0;
      if oldName == "" || newName == "" || oldName == newName {
        return Refused, 0;
      }
      if oldName !in vms.Values || newName in vms.Values {
        return Refused, 0;
      }
      var id :| id in vms && vms[id] == oldName;
      vms := vms[id := newName];

      var credsMoved := false;
      if Warns(credsDo, oldName in creds) {
        warnings := warnings + 1;
      } else if oldName in creds {
        creds := creds[newName := creds[oldName]] - {oldName};
        credsMoved := true;
      }
      var keyMoved := false;
      if Warns(keysDo, oldName in pins) {
        warnings := warnings + 1;
      } else if oldName in pins {
        pins := pins[newName := pins[oldName]] - {oldName};
        keyMoved := true;
      }
      pool := pool - {oldName};
      answer := Renamed(credsMoved, keyMoved, Filing(tunnels, oldName));
      tunnels := RepointAll(tunnels, oldName, newName);
    }
  }

  // The specification: filed by identifier, so a rename changes only the name
  // (and hangs up the VM's connection).
  ghost function ServeById(f: ById, op: Op): (ById, Answer) {
    match op
    case Create(id, name) =>
      if CanCreate(f.vms, id, name) then (f.(vms := f.vms[id := name]), Done) else (f, Refused)
    case Rename(oldName, newName, _, _) =>
      if !CanRename(f.vms, oldName, newName) then (f, Refused) else
      var id := Named(f.vms, oldName);
      (f.(vms := f.vms[id := newName], pool := f.pool - {id}),
       Renamed(id in f.creds, id in f.pins, Filing(f.tunnels, id)))
    case CloseTunnel(t) => (f.(tunnels := f.tunnels - {t}), if t in f.tunnels then Done else Refused)
    case TunnelTarget(t) => (f, if t !in f.tunnels then Refused else Target(Some(f.tunnels[t].vm)))
    case _ =>
      if !HasName(f.vms, op.name) then (f, Refused) else
      AboutVM(f, Named(f.vms, op.name), Some(Named(f.vms, op.name)), op)
  }

  // ---- the two in step ------------------------------------------------------------------------

  // A table by name files, for each VM, what the table by identifier does. What it
  // files under names no VM has is nobody's.
  ghost predicate SameTable<V(!new)>(vms: map<Id, string>, byName: map<string, V>, byId: map<Id, V>) {
    && (forall id :: id in byId ==> id in vms)
    && (forall id :: id in vms ==> Lookup(byName, vms[id]) == Lookup(byId, id))
  }

  ghost predicate SameTunnels(vms: map<Id, string>, byName: map<nat, Forward<string>>, byId: map<nat, Forward<Id>>) {
    && (forall t :: t in byId ==>
          byId[t].vm in vms && t in byName && byName[t] == Forward(vms[byId[t].vm], byId[t].guestPort))
    && (forall t :: t in byName && HasName(vms, byName[t].vm) ==> t in byId)
  }

  ghost predicate Refines(n: ByName, i: ById) {
    && n.vms == i.vms && DistinctNames(i.vms) && !HasName(i.vms, "")
    && SameTable(i.vms, n.creds, i.creds) && SameTable(i.vms, n.pins, i.pins) && SameTable(i.vms, n.pool, i.pool)
    && SameTunnels(i.vms, n.tunnels, i.tunnels)
    && (forall id :: id in i.pool ==> i.pool[id].vm == Some(id))
  }

  // The request is about a VM there is, or a tunnel of one. Such requests go to the
  // specification; the others are nothing to it.
  ghost predicate Addressed(n: ByName, op: Op) {
    match op
    case Create(_, _) => true
    case Rename(_, _, _, _) => true
    case CloseTunnel(t) => OfAVM(n, t)
    case TunnelTarget(t) => OfAVM(n, t)
    case OpenTunnel(name, t, _) => HasName(n.vms, name) && OfAVM(n, t)
    case _ => HasName(n.vms, op.name)
  }

  ghost predicate OfAVM(n: ByName, t: nat) {
    t in n.tunnels ==> HasName(n.vms, n.tunnels[t].vm)
  }

  ghost function Specified(n: ByName, i: ById, op: Op): ById {
    if Addressed(n, op) then ServeById(i, op).0 else i
  }

  // Nothing is filed under the name.
  predicate Unused(n: ByName, name: string) {
    name !in n.creds && name !in n.pins && name !in n.pool && Filing(n.tunnels, name) == {}
  }

  // The VM's own entry is moved to its new name; if it has none, none is there.
  predicate Carries<V>(table: map<string, V>, oldName: string, newName: string, saved: bool) {
    if oldName in table then saved else newName !in table
  }

  // When names go on standing for VMs: a name a VM takes must not have anything
  // filed under it that this would make the VM's.
  ghost predicate Fits(n: ByName, op: Op) {
    match op
    case Create(id, name) => CanCreate(n.vms, id, name) ==> Unused(n, name)
    case Rename(oldName, newName, credsDo, keysDo) =>
      CanRename(n.vms, oldName, newName) ==>
        && Carries(n.creds, oldName, newName, credsDo.Works?) && Carries(n.pins, oldName, newName, keysDo.Works?)
        && newName !in n.pool && Filing(n.tunnels, newName) == {}
    case _ => true
  }

  // rename_vm moves what it has to: each store works, or had nothing to move.
  ghost predicate MovesAll(n: ByName, op: Op) {
    op.Rename? && CanRename(n.vms, op.oldName, op.newName) ==>
      (op.creds.Works? || op.oldName !in n.creds) && (op.keys.Works? || op.oldName !in n.pins)
  }

  // ---- one table at a time ---------------------------------------------------------------------

  lemma NameIs(vms: map<Id, string>, id: Id)
    requires DistinctNames(vms) && id in vms
    ensures HasName(vms, vms[id]) && Named(vms, vms[id]) == id
  {
  }

  lemma FileOne<V(!new)>(vms: map<Id, string>, byName: map<string, V>, byId: map<Id, V>, id: Id, v: V)
    requires DistinctNames(vms) && SameTable(vms, byName, byId) && id in vms
    ensures SameTable(vms, byName[vms[id] := v], byId[id := v])
    ensures SameTable(vms, byName - {vms[id]}, byId - {id})
  {
  }

  // Which names are taken once `id` has a new one.
  lemma RenamedNames(vms: map<Id, string>, id: Id, newName: string)
    requires DistinctNames(vms) && id in vms && !HasName(vms, newName)
    ensures DistinctNames(vms[id := newName])
    ensures forall name :: HasName(vms[id := newName], name) <==>
                           name == newName || (name != vms[id] && HasName(vms, name))
  {
    var vms' := vms[id := newName];
    forall name
      ensures HasName(vms', name) <==> name == newName || (name != vms[id] && HasName(vms, name))
    {
      if name == newName {
        assert vms'[id] == name;
      } else if name != vms[id] && HasName(vms, name) {
        assert vms'[Named(vms, name)] == name;
      }
    }
  }

  lemma CreatedNames(vms: map<Id, string>, id: Id, name: string)
    requires DistinctNames(vms) && id !in vms && !HasName(vms, name)
    ensures DistinctNames(vms[id := name])
    ensures forall other :: HasName(vms[id := name], other) <==> other == name || HasName(vms, other)
  {
    var vms' := vms[id := name];
    assert vms'[id] == name;
    forall other | HasName(vms, other)
      ensures HasName(vms', other)
    {
      assert vms'[Named(vms, other)] == other;
    }
  }

  // A table stays in step through a creation or a rename exactly when the new
  // name then files what the VM has.
  lemma TableAfterCreate<V(!new)>(vms: map<Id, string>, byName: map<string, V>, byId: map<Id, V>, id: Id, name: string)
    requires SameTable(vms, byName, byId) && id !in vms
    ensures SameTable(vms[id := name], byName, byId) <==> name !in byName
  {
    var vms' := vms[id := name];
    assert vms'[id] == name && id !in byId;
    if name !in byName {
      forall a | a in vms'
        ensures Lookup(byName, vms'[a]) == Lookup(byId, a)
      {
      }
    }
  }

  lemma TableAfterRename<V(!new)>(vms: map<Id, string>, byName: map<string, V>, after: map<string, V>, byId: map<Id, V>,
                                  byIdAfter: map<Id, V>, id: Id, newName: string)
    requires DistinctNames(vms) && SameTable(vms, byName, byId) && id in vms && !HasName(vms, newName)
    requires forall name :: name != vms[id] && name != newName ==> Lookup(after, name) == Lookup(byName, name)
    requires forall a :: a != id ==> Lookup(byIdAfter, a) == Lookup(byId, a)
    ensures SameTable(vms[id := newName], after, byIdAfter) <==> Lookup(after, newName) == Lookup(byIdAfter, id)
  {
    var vms' := vms[id := newName];
    assert vms'[id] == newName;
    forall a | a in byIdAfter
      ensures a in vms'
    {
      assert a != id ==> Lookup(byIdAfter, a) == Lookup(byId, a);
    }
    if Lookup(after, newName) == Lookup(byIdAfter, id) {
      forall a | a in vms'
        ensures Lookup(after, vms'[a]) == Lookup(byIdAfter, a)
      {
        if a != id {
          assert vms'[a] == vms[a] && HasName(vms, vms[a]);
        }
      }
    }
  }

  lemma StoreAfterRename<V(!new)>(vms: map<Id, string>, byName: map<string, V>, byId: map<Id, V>, id: Id,
                                  newName: string, saved: bool)
    requires DistinctNames(vms) && SameTable(vms, byName, byId) && id in vms && !HasName(vms, newName)
    ensures var after := if saved then Disk.Moved(byName, vms[id], newName) else byName;
            (SameTable(vms[id := newName], after, byId) && (saved && vms[id] in byName <==> id in byId)
             <==> Carries(byName, vms[id], newName, saved))
  {
    var after := if saved then Disk.Moved(byName, vms[id], newName) else byName;
    assert HasName(vms, vms[id]);
    TableAfterRename(vms, byName, after, byId, byId, id, newName);
    assert Lookup(byName, vms[id]) == Lookup(byId, id);
  }

  lemma PoolAfterRename<V(!new)>(vms: map<Id, string>, byName: map<string, V>, byId: map<Id, V>, id: Id,
                                 newName: string)
    requires DistinctNames(vms) && SameTable(vms, byName, byId) && id in vms && !HasName(vms, newName)
    ensures SameTable(vms[id := newName], byName - {vms[id]}, byId - {id}) <==> newName !in byName
  {
    assert HasName(vms, vms[id]);
    TableAfterRename(vms, byName, byName - {vms[id]}, byId, byId - {id}, id, newName);
  }

  lemma TunnelsAfterCreate(vms: map<Id, string>, byName: map<nat, Forward<string>>, byId: map<nat, Forward<Id>>,
                           id: Id, name: string)
    requires DistinctNames(vms) && SameTunnels(vms, byName, byId) && id !in vms && !HasName(vms, name)
    ensures SameTunnels(vms[id := name], byName, byId) <==> Filing(byName, name) == {}
  {
    CreatedNames(vms, id, name);
    forall t | t in Filing(byName, name)
      ensures t !in byId
    {
      if t in byId {
        assert HasName(vms, vms[byId[t].vm]);
      }
    }
    if Filing(byName, name) == {} {
      assert forall t :: t in byName ==> byName[t].vm == name ==> t in Filing(byName, name);
    } else {
      var t :| t in Filing(byName, name);
      assert HasName(vms[id := name], byName[t].vm);
    }
  }

  lemma TunnelsAfterRename(vms: map<Id, string>, byName: map<nat, Forward<string>>, byId: map<nat, Forward<Id>>,
                           id: Id, newName: string)
    requires DistinctNames(vms) && SameTunnels(vms, byName, byId) && id in vms && !HasName(vms, newName)
    ensures SameTunnels(vms[id := newName], RepointAll(byName, vms[id], newName), byId)
            <==> Filing(byName, newName) == {}
  {
    var oldName, after := vms[id], RepointAll(byName, vms[id], newName);
    RenamedNames(vms, id, newName);
    NameIs(vms, id);
    forall t | t in byId
      ensures byName[t].vm != newName
    {
      NameIs(vms, byId[t].vm);
    }
    if Filing(byName, newName) == {} {
      forall t | t in after && HasName(vms[id := newName], after[t].vm)
        ensures t in byId
      {
        assert byName[t].vm != newName by {
          assert t !in Filing(byName, newName);
        }
        assert HasName(vms, byName[t].vm);
      }
      forall t | t in byId
        ensures after[t] == Forward(vms[id := newName][byId[t].vm], byId[t].guestPort)
      {
        assert byName[t].vm == oldName <==> byId[t].vm == id;
      }
    } else {
      var t :| t in Filing(byName, newName);
      assert after[t].vm == newName;
    }
  }

  lemma SameFiling(vms: map<Id, string>, byName: map<nat, Forward<string>>, byId: map<nat, Forward<Id>>, id: Id)
    requires DistinctNames(vms) && SameTunnels(vms, byName, byId) && id in vms
    ensures Filing(byName, vms[id]) == Filing(byId, id)
  {
    NameIs(vms, id);
    forall t | t in byName && byName[t].vm == vms[id]
      ensures t in byId && byId[t].vm == id
    {
      assert HasName(vms, byName[t].vm);
    }
  }

  // ---- creating and renaming ---------------------------------------------------------------------

  lemma CreateStaysInStep(n: ByName, i: ById, op: Op)
    requires Refines(n, i) && op.Create?
    ensures Refines(ServeByName(n, op).0, ServeById(i, op).0) <==> Fits(n, op)
    ensures ServeByName(n, op).1 == ServeById(i, op).1
  {
    if CanCreate(i.vms, op.id, op.name) {
      CreatedNames(i.vms, op.id, op.name);
      TableAfterCreate(i.vms, n.creds, i.creds, op.id, op.name);
      TableAfterCreate(i.vms, n.pins, i.pins, op.id, op.name);
      TableAfterCreate(i.vms, n.pool, i.pool, op.id, op.name);
      TunnelsAfterCreate(i.vms, n.tunnels, i.tunnels, op.id, op.name);
    }
  }

  // rename_vm keeps the two in step, and reports what the specification does,
  // exactly when each store write works or had nothing to move, and nothing is
  // left to inherit under the new name.
  lemma RenameStaysInStep(n: ByName, i: ById, op: Op)
    requires Refines(n, i) && op.Rename?
    ensures Refines(ServeByName(n, op).0, ServeById(i, op).0) && ServeByName(n, op).1 == ServeById(i, op).1
            <==> Fits(n, op)
  {
    hide SameTable, SameTunnels, Disk.Moved, Carries, RepointAll;
    if CanRename(n.vms, op.oldName, op.newName) {
      var id := Named(i.vms, op.oldName);
      RenamedNames(i.vms, id, op.newName);
      StoreAfterRename(i.vms, n.creds, i.creds, id, op.newName, op.creds.Works?);
      StoreAfterRename(i.vms, n.pins, i.pins, id, op.newName, op.keys.Works?);
      PoolAfterRename(i.vms, n.pool, i.pool, id, op.newName);
      TunnelsAfterRename(i.vms, n.tunnels, i.tunnels, id, op.newName);
      SameFiling(i.vms, n.tunnels, i.tunnels, id);
    }
  }

  // ---- requests about one VM ---------------------------------------------------------------------

  // Filing or dropping one VM's credentials, pin or connection on both sides.
  lemma CredsInStep(n: ByName, i: ById, id: Id, v: Creds.Entry)
    requires Refines(n, i) && id in i.vms
    ensures Refines(n.(creds := n.creds[i.vms[id] := v]), i.(creds := i.creds[id := v]))
    ensures Refines(n.(creds := n.creds - {i.vms[id]}), i.(creds := i.creds - {id}))
    ensures Lookup(n.creds, i.vms[id]) == Lookup(i.creds, id)
  {
    FileOne(i.vms, n.creds, i.creds, id, v);
  }

  lemma PinsInStep(n: ByName, i: ById, id: Id, v: HostKeys.HostKey)
    requires Refines(n, i) && id in i.vms
    ensures Refines(n.(pins := n.pins[i.vms[id] := v]), i.(pins := i.pins[id := v]))
    ensures Refines(n.(pins := n.pins - {i.vms[id]}), i.(pins := i.pins - {id}))
    ensures Lookup(n.pins, i.vms[id]) == Lookup(i.pins, id)
  {
    FileOne(i.vms, n.pins, i.pins, id, v);
  }

  lemma PoolInStep(n: ByName, i: ById, id: Id, v: Conn)
    requires Refines(n, i) && id in i.vms && v.vm == Some(id)
    ensures Refines(n.(pool := n.pool[i.vms[id] := v]), i.(pool := i.pool[id := v]))
    ensures Refines(n.(pool := n.pool - {i.vms[id]}), i.(pool := i.pool - {id}))
    ensures Lookup(n.pool, i.vms[id]) == Lookup(i.pool, id)
  {
    FileOne(i.vms, n.pool, i.pool, id, v);
  }

  lemma CheckedInStep(n: ByName, i: ById, id: Id, key: HostKeys.HostKey, trustNew: bool)
    requires Refines(n, i) && id in i.vms
    ensures HostKeys.Decide(n.pins, i.vms[id], key, trustNew) == HostKeys.Decide(i.pins, id, key, trustNew)
    ensures Refines(n.(pins := HostKeys.Checked(n.pins, i.vms[id], key, trustNew)),
                    i.(pins := HostKeys.Checked(i.pins, id, key, trustNew)))
  {
    hide SameTable, SameTunnels, Refines;
    PinsInStep(n, i, id, key);
  }

  lemma DialledRefines(n: ByName, i: ById, id: Id, login: Creds.Credential, op: Op)
    requires Refines(n, i) && op.Connect? && id in i.vms && i.vms[id] == op.name
    ensures Refines(Dialled(n, op.name, Some(id), login, op).0, Dialled(i, id, Some(id), login, op).0)
    ensures Dialled(n, op.name, Some(id), login, op).1 == Dialled(i, id, Some(id), login, op).1
  {
    hide SameTable, SameTunnels, Refines, HostKeys.Decide, HostKeys.Checked;
    var made, n', i' := Conn(Some(id), login, op.serial), n.(pool := n.pool - {op.name}), i.(pool := i.pool - {id});
    PoolInStep(n, i, id, made);
    CheckedInStep(n', i', id, op.key, op.trustNew);
    PoolInStep(n'.(pins := HostKeys.Checked(n.pins, op.name, op.key, op.trustNew)),
               i'.(pins := HostKeys.Checked(i.pins, id, op.key, op.trustNew)), id, made);
  }

  lemma ConnectRefines(n: ByName, i: ById, id: Id, op: Op)
    requires Refines(n, i) && op.Connect? && id in i.vms && i.vms[id] == op.name
    ensures Refines(AboutVM(n, op.name, Some(id), op).0, AboutVM(i, id, Some(id), op).0)
    ensures AboutVM(n, op.name, Some(id), op).1 == AboutVM(i, id, Some(id), op).1
  {
    hide SameTable, SameTunnels, Refines, Dialled, Creds.Resolved;
    CredsInStep(n, i, id, Creds.NO_ENTRY);
    var login := Creds.Resolved(Lookup(i.creds, id), op.call);
    if login.Some? {
      DialledRefines(n, i, id, login.value, op);
    }
  }

  lemma CredentialRefines(n: ByName, i: ById, id: Id, op: Op)
    requires Refines(n, i) && (op.SetCred? || op.DeleteCred? || op.GetCred?) && id in i.vms && i.vms[id] == op.name
    ensures Refines(AboutVM(n, op.name, Some(id), op).0, AboutVM(i, id, Some(id), op).0)
    ensures AboutVM(n, op.name, Some(id), op).1 == AboutVM(i, id, Some(id), op).1
  {
    hide SameTable, SameTunnels, Refines;
    var entry := if op.SetCred? then Creds.Merged(Creds.EntryOf(i.creds, id), op.entry) else Creds.NO_ENTRY;
    CredsInStep(n, i, id, entry);
    var conn := Conn(Some(id), NO_LOGIN, 0);
    PoolInStep(n.(creds := n.creds[op.name := entry]), i.(creds := i.creds[id := entry]), id, conn);
    PoolInStep(n.(creds := n.creds - {op.name}), i.(creds := i.creds - {id}), id, conn);
  }

  lemma ForgetRefines(n: ByName, i: ById, id: Id, op: Op)
    requires Refines(n, i) && op.Forget? && id in i.vms && i.vms[id] == op.name
    ensures Refines(AboutVM(n, op.name, Some(id), op).0, AboutVM(i, id, Some(id), op).0)
  {
    hide SameTable, SameTunnels, Refines;
    PinsInStep(n, i, id, HostKeys.HostKey("", "", "", ""));
    PoolInStep(n.(pins := n.pins - {op.name}), i.(pins := i.pins - {id}), id, Conn(Some(id), NO_LOGIN, 0));
  }

  lemma TunnelOpened(n: ByName, i: ById, id: Id, t: nat, guestPort: int)
    requires Refines(n, i) && id in i.vms && OfAVM(n, t)
    ensures t in n.tunnels <==> t in i.tunnels
    ensures t !in n.tunnels ==>
              SameTunnels(n.vms, n.tunnels[t := Forward(n.vms[id], guestPort)], i.tunnels[t := Forward(id, guestPort)])
  {
    hide SameTable;
  }

  lemma TunnelRefines(n: ByName, i: ById, id: Id, op: Op)
    requires Refines(n, i) && (op.OpenTunnel? || op.ListTunnels?) && id in i.vms && i.vms[id] == op.name
    requires Addressed(n, op)
    ensures Refines(AboutVM(n, op.name, Some(id), op).0, AboutVM(i, id, Some(id), op).0)
    ensures AboutVM(n, op.name, Some(id), op).1 == AboutVM(i, id, Some(id), op).1
  {
    NameIs(i.vms, id);
    SameFiling(i.vms, n.tunnels, i.tunnels, id);
    hide SameTable, SameTunnels, OfAVM;
    if op.OpenTunnel? {
      TunnelOpened(n, i, id, op.tunnel, op.guestPort);
    }
  }

  predicate ByVM(op: Op) {
    !op.Create? && !op.Rename? && !op.CloseTunnel? && !op.TunnelTarget?
  }

  lemma AboutVMRefines(n: ByName, i: ById, id: Id, op: Op)
    requires Refines(n, i) && ByVM(op) && Addressed(n, op) && id in i.vms && i.vms[id] == op.name
    ensures Refines(AboutVM(n, op.name, Some(id), op).0, AboutVM(i, id, Some(id), op).0)
    ensures AboutVM(n, op.name, Some(id), op).1 == AboutVM(i, id, Some(id), op).1
  {
    hide SameTable, SameTunnels, Refines, Addressed;
    match op
    case Connect(_, _, _, _, _, _, _, _, _, _) => ConnectRefines(n, i, id, op);
    case Forget(_) => ForgetRefines(n, i, id, op);
    case OpenTunnel(_, _, _) => TunnelRefines(n, i, id, op);
    case ListTunnels(_) => TunnelRefines(n, i, id, op);
    case _ => CredentialRefines(n, i, id, op);
  }

  // The two tables differ at most in what they file under the name.
  ghost predicate OnlyUnder<V(!new)>(name: string, before: map<string, V>, after: map<string, V>) {
    forall other :: other != name ==> Lookup(after, other) == Lookup(before, other)
  }

  ghost predicate OnlyAbout(name: string, n: ByName, n': ByName) {
    && n'.vms == n.vms
    && OnlyUnder(name, n.creds, n'.creds) && OnlyUnder(name, n.pins, n'.pins) && OnlyUnder(name, n.pool, n'.pool)
    && (forall t :: t in n.tunnels ==> t in n'.tunnels && n'.tunnels[t] == n.tunnels[t])
    && (forall t :: t in n'.tunnels && t !in n.tunnels ==> n'.tunnels[t].vm == name)
  }

  lemma OneKey<V(!new)>(name: string, table: map<string, V>, v: V)
    ensures OnlyUnder(name, table, table) && OnlyUnder(name, table, table[name := v])
    ensures OnlyUnder(name, table, table - {name}) && OnlyUnder(name, table, (table - {name})[name := v])
  {
  }

  lemma DialledOneName(n: ByName, id: Option<Id>, login: Creds.Credential, op: Op)
    requires op.Connect?
    ensures OnlyAbout(op.name, n, Dialled(n, op.name, id, login, op).0)
  {
    hide OnlyUnder, HostKeys.Decide;
    OneKey(op.name, n.pool, Conn(id, login, op.serial));
    OneKey(op.name, n.pins, op.key);
    OneKey(op.name, n.creds, Creds.NO_ENTRY);
  }

  // A request by name touches what is filed under that name and nothing else.
  lemma AboutOneName(n: ByName, id: Option<Id>, op: Op)
    requires ByVM(op)
    ensures OnlyAbout(op.name, n, AboutVM(n, op.name, id, op).0)
  {
    hide OnlyUnder, Dialled;
    var entry := if op.SetCred? then Creds.Merged(Creds.EntryOf(n.creds, op.name), op.entry) else Creds.NO_ENTRY;
    OneKey(op.name, n.creds, entry);
    OneKey(op.name, n.pins, HostKeys.HostKey("", "", "", ""));
    OneKey(op.name, n.pool, Conn(id, NO_LOGIN, 0));
    if op.Connect? {
      var login := Creds.Resolved(Lookup(n.creds, op.name), op.call);
      if login.Some? {
        DialledOneName(n, id, login.value, op);
      }
    }
  }

  // A request about a name no VM has leaves every VM as it was.
  lemma NobodysRefines(n: ByName, i: ById, op: Op)
    requires Refines(n, i) && ByVM(op) && !HasName(i.vms, op.name)
    ensures Refines(AboutVM(n, op.name, None, op).0, i)
  {
    hide AboutVM;
    var n' := AboutVM(n, op.name, None, op).0;
    AboutOneName(n, None, op);
    NobodysTable(i.vms, n.creds, n'.creds, i.creds, op.name);
    NobodysTable(i.vms, n.pins, n'.pins, i.pins, op.name);
    NobodysTable(i.vms, n.pool, n'.pool, i.pool, op.name);
    hide SameTable, OnlyUnder;
  }

  lemma NobodysTable<V(!new)>(vms: map<Id, string>, byName: map<string, V>, after: map<string, V>, byId: map<Id, V>,
                              name: string)
    requires SameTable(vms, byName, byId) && !HasName(vms, name) && OnlyUnder(name, byName, after)
    ensures SameTable(vms, after, byId)
  {
    forall id | id in vms
      ensures Lookup(after, vms[id]) == Lookup(byId, id)
    {
      assert vms[id] != name;
    }
  }

  // ---- one request, and every run -------------------------------------------------------------------

  // Each request keeps the two in step, and is answered alike if it is about a VM
  // there is, exactly when it fits.
  lemma StepRefines(n: ByName, i: ById, op: Op)
    requires Refines(n, i)
    ensures && Refines(ServeByName(n, op).0, Specified(n, i, op))
            && (Addressed(n, op) ==> ServeByName(n, op).1 == ServeById(i, op).1)
            <==> Fits(n, op)
  {
    match op
    case Create(_, _) => CreateStaysInStep(n, i, op);
    case Rename(_, _, _, _) => RenameStaysInStep(n, i, op);
    case CloseTunnel(t) => CloseRefines(n, i, t);
    case TunnelTarget(t) =>
      if t in i.tunnels {
        NameIs(i.vms, i.tunnels[t].vm);
      }
    case _ =>
      hide SameTable, SameTunnels, AboutVM;
      if HasName(n.vms, op.name) {
        if Addressed(n, op) {
          AboutVMRefines(n, i, Named(n.vms, op.name), op);
        } else {
          TakenByNobodys(n, op);
        }
      } else {
        NobodysRefines(n, i, op);
      }
  }

  lemma TunnelClosed(n: ByName, i: ById, t: nat)
    requires Refines(n, i)
    ensures OfAVM(n, t) ==> (t in n.tunnels <==> t in i.tunnels)
    ensures SameTunnels(n.vms, n.tunnels - {t}, i.tunnels - {t})
    ensures !OfAVM(n, t) ==> SameTunnels(n.vms, n.tunnels - {t}, i.tunnels)
  {
    hide SameTable;
    if t in i.tunnels {
      NameIs(i.vms, i.tunnels[t].vm);
    }
  }

  lemma CloseRefines(n: ByName, i: ById, t: nat)
    requires Refines(n, i)
    ensures Refines(ServeByName(n, CloseTunnel(t)).0, Specified(n, i, CloseTunnel(t)))
    ensures Addressed(n, CloseTunnel(t)) ==> ServeByName(n, CloseTunnel(t)).1 == ServeById(i, CloseTunnel(t)).1
  {
    hide SameTable, SameTunnels, OfAVM;
    TunnelClosed(n, i, t);
  }

  // An opening under an ID that is taken changes nothing.
  lemma TakenByNobodys(n: ByName, op: Op)
    requires ByVM(op) && HasName(n.vms, op.name) && !Addressed(n, op)
    ensures ServeByName(n, op).0 == n
  {
  }

  // Over a run: the specification sees the requests about VMs there are.
  ghost predicate AnswersAgree(n: ByName, i: ById, ops: seq<Op>)
    decreases ops
  {
    ops == [] ||
    (&& (Addressed(n, ops[0]) ==> ServeByName(n, ops[0]).1 == ServeById(i, ops[0]).1)
     && AnswersAgree(ServeByName(n, ops[0]).0, Specified(n, i, ops[0]), ops[1..]))
  }

  ghost predicate AllFit(n: ByName, ops: seq<Op>)
    decreases ops
  {
    ops == [] || (Fits(n, ops[0]) && AllFit(ServeByName(n, ops[0]).0, ops[1..]))
  }

  const EMPTY_BY_NAME: ByName := Filed(map[], map[], map[], map[], map[])
  const EMPTY_BY_ID: ById := Filed(map[], map[], map[], map[], map[])

  // Over every run in which no VM is given a name with something filed under it,
  // and rename_vm moves what it has to: every request about a VM there is gets the
  // answer filing by identifier would give. Other requests may come at any time.
  lemma {:induction false} RunRefines(n: ByName, i: ById, ops: seq<Op>)
    requires Refines(n, i) && AllFit(n, ops)
    ensures AnswersAgree(n, i, ops)
    decreases ops
  {
    if ops != [] {
      StepRefines(n, i, ops[0]);
      RunRefines(ServeByName(n, ops[0]).0, Specified(n, i, ops[0]), ops[1..]);
    }
  }

  lemma NamesStandForVMs(ops: seq<Op>)
    requires AllFit(EMPTY_BY_NAME, ops)
    ensures AnswersAgree(EMPTY_BY_NAME, EMPTY_BY_ID, ops)
  {
    RunRefines(EMPTY_BY_NAME, EMPTY_BY_ID, ops);
  }

  // ---- callers that keep to VMs there are -----------------------------------------------------------

  ghost predicate AllNamed<V>(vms: map<Id, string>, table: map<string, V>) {
    forall name :: name in table ==> HasName(vms, name)
  }

  ghost predicate NothingNobodys(n: ByName) {
    && AllNamed(n.vms, n.creds) && AllNamed(n.vms, n.pins) && AllNamed(n.vms, n.pool)
    && (forall t :: t in n.tunnels ==> HasName(n.vms, n.tunnels[t].vm))
  }

  // Every request is about a VM there is at the time, and rename_vm's writes work.
  ghost predicate Careful(n: ByName, ops: seq<Op>)
    decreases ops
  {
    ops == [] ||
    (Addressed(n, ops[0]) && MovesAll(n, ops[0]) && Careful(ServeByName(n, ops[0]).0, ops[1..]))
  }

  lemma CarefulCreate(n: ByName, id: Id, name: string)
    requires NothingNobodys(n) && DistinctNames(n.vms) && CanCreate(n.vms, id, name)
    ensures Unused(n, name) && NothingNobodys(n.(vms := n.vms[id := name]))
  {
    CreatedNames(n.vms, id, name);
    forall t | t in n.tunnels
      ensures n.tunnels[t].vm != name
    {
    }
  }

  lemma CarefulMove<V(!new)>(vms: map<Id, string>, table: map<string, V>, id: Id, newName: string, saved: bool)
    requires DistinctNames(vms) && id in vms && !HasName(vms, newName) && AllNamed(vms, table)
    requires saved || vms[id] !in table
    ensures Carries(table, vms[id], newName, saved)
    ensures AllNamed(vms[id := newName], if saved then Disk.Moved(table, vms[id], newName) else table)
    ensures newName !in table && AllNamed(vms[id := newName], table - {vms[id]})
  {
    RenamedNames(vms, id, newName);
  }

  lemma CarefulRename(n: ByName, op: Op)
    requires NothingNobodys(n) && DistinctNames(n.vms) && op.Rename? && MovesAll(n, op)
    requires CanRename(n.vms, op.oldName, op.newName)
    ensures Fits(n, op) && NothingNobodys(ServeByName(n, op).0)
  {
    var id := Named(n.vms, op.oldName);
    CarefulMove(n.vms, n.creds, id, op.newName, op.creds.Works?);
    CarefulMove(n.vms, n.pins, id, op.newName, op.keys.Works?);
    CarefulMove(n.vms, n.pool, id, op.newName, true);
    RenamedNames(n.vms, id, op.newName);
    hide AllNamed, Disk.Moved;
    forall t | t in n.tunnels
      ensures n.tunnels[t].vm != op.newName
      ensures HasName(n.vms[id := op.newName], Repointed(n.tunnels[t], op.oldName, op.newName).vm)
    {
    }
  }

  lemma CarefulAbout(n: ByName, n': ByName, name: string)
    requires NothingNobodys(n) && HasName(n.vms, name) && OnlyAbout(name, n, n')
    ensures NothingNobodys(n')
  {
    NamedUnder(n.vms, name, n.creds, n'.creds);
    NamedUnder(n.vms, name, n.pins, n'.pins);
    NamedUnder(n.vms, name, n.pool, n'.pool);
    hide AllNamed, OnlyUnder;
  }

  lemma NamedUnder<V(!new)>(vms: map<Id, string>, name: string, before: map<string, V>, after: map<string, V>)
    requires HasName(vms, name) && AllNamed(vms, before) && OnlyUnder(name, before, after)
    ensures AllNamed(vms, after)
  {
    forall other | other in after
      ensures HasName(vms, other)
    {
      assert other != name ==> Lookup(after, other) == Lookup(before, other);
    }
  }

  lemma CarefulStep(n: ByName, op: Op)
    requires NothingNobodys(n) && DistinctNames(n.vms) && Addressed(n, op) && MovesAll(n, op)
    ensures Fits(n, op) && NothingNobodys(ServeByName(n, op).0)
  {
    match op
    case Create(id, name) =>
      if CanCreate(n.vms, id, name) {
        CarefulCreate(n, id, name);
      }
    case Rename(oldName, newName, _, _) =>
      if CanRename(n.vms, oldName, newName) {
        CarefulRename(n, op);
      }
    case CloseTunnel(_) =>
    case TunnelTarget(_) =>
    case _ =>
      hide AboutVM, NothingNobodys, OnlyAbout;
      AboutOneName(n, Some(Named(n.vms, op.name)), op);
      CarefulAbout(n, ServeByName(n, op).0, op.name);
  }

  // Then nothing is ever filed under a name no VM has, and every answer is right.
  lemma {:induction false} CarefulRunsFit(n: ByName, i: ById, ops: seq<Op>)
    requires Refines(n, i) && NothingNobodys(n) && Careful(n, ops)
    ensures AllFit(n, ops) && AnswersAgree(n, i, ops)
    decreases ops
  {
    if ops != [] {
      CarefulStep(n, ops[0]);
      StepRefines(n, i, ops[0]);
      CarefulRunsFit(ServeByName(n, ops[0]).0, Specified(n, i, ops[0]), ops[1..]);
    }
  }

  // Otherwise it can fail, though every request is accepted: what was stored for a
  // name no VM had becomes the credential of the VM renamed to it.
  lemma StrangersEntryIsInherited(n: ByName, i: ById, a: string, b: string, e: Creds.Entry)
    requires Refines(n, i) && CanRename(n.vms, a, b) && a !in n.creds && b !in n.creds
    ensures var stored := ServeByName(n, SetCred(b, e));
            var renamed := ServeByName(stored.0, Rename(a, b, Works, Works));
            var spec := ServeById(i, Rename(a, b, Works, Works)).0;
            && stored.1 == Done && renamed.1.Renamed?
            && ServeByName(renamed.0, GetCred(b)).1 == Credential(Some(Creds.Merged(Creds.NO_ENTRY, e)))
            && ServeById(spec, GetCred(b)).1 == Credential(None)
            && !Fits(stored.0, Rename(a, b, Works, Works))
  {
    var id := Named(n.vms, a);
    RenamedNames(n.vms, id, b);
    NameIs(n.vms[id := b], id);
    assert Lookup(n.creds, a) == Lookup(i.creds, id);
  }

  // A connection handed out under a VM's name was dialled for that VM, whatever was
  // renamed; and a fresh one logged in with the credential filed for it, or given.
  lemma ConnectsToTheRightVM(n: ByName, i: ById, op: Op)
    requires Refines(n, i) && op.Connect? && HasName(n.vms, op.name) && ServeByName(n, op).1.Connected?
    ensures ServeByName(n, op).1.conn.vm == Some(Named(n.vms, op.name))
    ensures (op.name in n.pool && op.alive)
            || Some(ServeByName(n, op).1.conn.login) == Creds.Resolved(Lookup(i.creds, Named(n.vms, op.name)), op.call)
  {
    StepRefines(n, i, op);
  }
}
