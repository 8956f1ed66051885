/** What a VM keeps over whole runs of requests by name, whatever it is renamed to: its host
    key, its credentials, its connection and its tunnels. */
module IdentityRuns {
  import opened Wrappers
  import opened Identity
  import Disk
  import HostKeys
  import Creds

  // ---- runs ------------------------------------------------------------------------------

  ghost function After(n: ByName, ops: seq<Op>): ByName
    decreases ops
  {
    if ops == [] then n else After(ServeByName(n, ops[0]).0, ops[1..])
  }

  // What `p` says of a state, a VM and a request holds for each request of the run, or
  // for one of them.
  ghost predicate Throughout(n: ByName, id: Id, ops: seq<Op>, p: (ByName, Id, Op) -> bool)
    decreases ops
  {
    ops == [] || (p(n, id, ops[0]) && Throughout(ServeByName(n, ops[0]).0, id, ops[1..], p))
  }

  ghost predicate Sometime(n: ByName, id: Id, ops: seq<Op>, p: (ByName, Id, Op) -> bool)
    decreases ops
  {
    ops != [] && (p(n, id, ops[0]) || Sometime(ServeByName(n, ops[0]).0, id, ops[1..], p))
  }

  ghost predicate IsVM(n: ByName, id: Id) {
    id in n.vms && DistinctNames(n.vms)
  }

  // The request is about the VM, by the name it has.
  ghost predicate About(n: ByName, id: Id, op: Op) {
    ByVM(op) && id in n.vms && op.name == n.vms[id]
  }

  // The request gives the VM a new name.
  ghost predicate Renames(n: ByName, id: Id, op: Op) {
    op.Rename? && CanRename(n.vms, op.oldName, op.newName) && id in n.vms && op.oldName == n.vms[id]
  }

  // ---- one request ---------------------------------------------------------------------------

  lemma VMStays(n: ByName, id: Id, op: Op)
    requires IsVM(n, id)
    ensures IsVM(ServeByName(n, op).0, id)
    ensures ServeByName(n, op).0.vms[id] == if Renames(n, id, op) then op.newName else n.vms[id]
  {
    match op
    case Create(other, name) =>
      if CanCreate(n.vms, other, name) {
        CreatedNames(n.vms, other, name);
      }
    case Rename(oldName, newName, _, _) =>
      if CanRename(n.vms, oldName, newName) {
        RenamedNames(n.vms, Named(n.vms, oldName), newName);
        NameIs(n.vms, id);
      }
    case CloseTunnel(_) =>
    case TunnelTarget(_) =>
    case _ =>
      hide AboutVM;
      AboutOneName(n, if HasName(n.vms, op.name) then Some(Named(n.vms, op.name)) else None, op);
  }

  lemma StoreBesideRename<V(!new)>(vms: map<Id, string>, table: map<string, V>, id: Id, oldName: string,
                                   newName: string)
    requires id in vms && vms[id] != oldName && vms[id] != newName
    ensures Lookup(Disk.Moved(table, oldName, newName), vms[id]) == Lookup(table, vms[id])
    ensures Lookup(table - {oldName}, vms[id]) == Lookup(table, vms[id])
  {
  }

  // A VM is created under a name given that no VM has, and renamed from a name one has to
  // another that none has; otherwise the names stay.
  lemma WhenNamesChange(n: ByName, op: Op)
    requires DistinctNames(n.vms) && (op.Create? || op.Rename?)
    ensures var (n', answer) := ServeByName(n, op);
            && (op.Create? ==>
                  && (answer == Done <==> op.id !in n.vms && op.name != "" && op.name !in n.vms.Values)
                  && n'.vms == if answer == Done then n.vms[op.id := op.name] else n.vms)
            && (op.Rename? ==>
                  && (answer.Renamed? <==> op.oldName in n.vms.Values && op.newName !in n.vms.Values
                                           && op.oldName != "" && op.newName != "")
                  && n'.vms.Keys == n.vms.Keys
                  && forall id :: id in n.vms ==>
                       n'.vms[id] == if answer.Renamed? && n.vms[id] == op.oldName then op.newName else n.vms[id])
            && (answer.Done? || answer.Renamed? || (answer == Refused && n' == n))
  {
    assert forall name :: HasName(n.vms, name) <==> name in n.vms.Values;
    if op.Rename? && CanRename(n.vms, op.oldName, op.newName) {
      NameIs(n.vms, Named(n.vms, op.oldName));
    }
  }

  // What is filed under the VM's name is the same in both states.
  ghost predicate SameOwn(n: ByName, n': ByName, id: Id)
    requires id in n.vms
  {
    && id in n'.vms && n'.vms[id] == n.vms[id]
    && Lookup(n'.creds, n.vms[id]) == Lookup(n.creds, n.vms[id])
    && Lookup(n'.pins, n.vms[id]) == Lookup(n.pins, n.vms[id])
    && Lookup(n'.pool, n.vms[id]) == Lookup(n.pool, n.vms[id])
  }

  lemma OthersRename(n: ByName, id: Id, op: Op)
    requires IsVM(n, id) && op.Rename? && !Renames(n, id, op)
    ensures SameOwn(n, ServeByName(n, op).0, id)
  {
    if CanRename(n.vms, op.oldName, op.newName) {
      NameIs(n.vms, id);
      StoreBesideRename(n.vms, n.creds, id, op.oldName, op.newName);
      StoreBesideRename(n.vms, n.pins, id, op.oldName, op.newName);
      StoreBesideRename(n.vms, n.pool, id, op.oldName, op.newName);
      hide Disk.Moved, Lookup, RepointAll, Filing;
    }
  }

  lemma OthersByName(n: ByName, id: Id, op: Op)
    requires IsVM(n, id) && ByVM(op) && op.name != n.vms[id]
    ensures SameOwn(n, ServeByName(n, op).0, id)
  {
    hide AboutVM, Lookup;
    AboutOneName(n, if HasName(n.vms, op.name) then Some(Named(n.vms, op.name)) else None, op);
  }

  // A request about another VM, or a name no VM has, changes nothing of this VM's.
  lemma OthersRequest(n: ByName, id: Id, op: Op)
    requires IsVM(n, id) && !About(n, id, op) && !Renames(n, id, op)
    ensures IsVM(ServeByName(n, op).0, id) && SameOwn(n, ServeByName(n, op).0, id)
  {
    VMStays(n, id, op);
    if ByVM(op) {
      hide SameOwn, ServeByName;
      OthersByName(n, id, op);
    } else if op.Rename? {
      hide Renames, SameOwn, ServeByName;
      OthersRename(n, id, op);
    }
  }

  // A key the VM may answer with: its pinned one, any if it has none, or any if the call
  // trusts a new one.
  ghost predicate MayPresent(pins: HostKeys.Pins, vm: string, op: Op)
    requires op.Connect?
  {
    vm in pins ==> pins[vm].publicKey == op.key.publicKey || op.trustNew
  }

  // A fresh connection: made exactly when login methods can be made of the credential, the
  // guest is reached, it may present its key, and it accepts the login; then it is
  // pooled. The key is pinned even where the login is not accepted after it.
  lemma WhatDialingDoes(n: ByName, id: Option<Id>, login: Creds.Credential, op: Op)
    requires op.Connect? && !(op.alive && op.name in n.pool)
    ensures var (n', answer) := Dialled(n, op.name, id, login, op);
            var keyTaken := op.usable(login) && op.reached && MayPresent(n.pins, op.name, op);
            && n'.vms == n.vms && n'.creds == n.creds && n'.tunnels == n.tunnels
            && (answer.Connected? <==> keyTaken && op.accepts(login))
            && (answer.Connected? ==>
                  answer.conn == Conn(id, login, op.serial) && Lookup(n'.pool, op.name) == Some(answer.conn))
            && (!answer.Connected? ==> answer == Refused && op.name !in n'.pool)
            && (keyTaken ==> op.name in n'.pins && n'.pins[op.name].publicKey == op.key.publicKey)
            && (!keyTaken ==> n'.pins == n.pins)
  {
  }

  // A request to connect needs a credential and an address. Then the pooled connection
  // answers while it is alive, and otherwise one is dialled.
  lemma WhatConnectDoes(n: ByName, op: Op)
    requires op.Connect?
    ensures var login := Creds.Resolved(Lookup(n.creds, op.name), op.call);
            var vm := if HasName(n.vms, op.name) then Some(Named(n.vms, op.name)) else None;
            ServeByName(n, op) ==
            if login.None? || op.address.Unknown? || (op.address.Reported? && vm.None?) then (n, Refused)
            else if op.alive && op.name in n.pool then (n, Connected(n.pool[op.name]))
            else Dialled(n, op.name, vm, login.value, op)
  {
    hide Creds.Resolved;
  }

  // The connection handed out was dialled for this request.
  ghost predicate Dials(n: ByName, op: Op) {
    op.Connect? && !(op.alive && op.name in n.pool) && ServeByName(n, op).1.Connected?
  }

  // A connection dialled for a VM that has a pin was presented that pin's key, or told to
  // trust another; afterwards the key presented is the VM's pin.
  lemma DialledAreChecked(n: ByName, op: Op)
    requires Dials(n, op)
    ensures op.name in n.pins && !op.trustNew ==> op.key.publicKey == n.pins[op.name].publicKey
    ensures var pins := ServeByName(n, op).0.pins;
            op.name in pins && pins[op.name].publicKey == op.key.publicKey
  {
    hide ServeByName, Dialled, Creds.Resolved;
    WhatConnectDoes(n, op);
    var login := Creds.Resolved(Lookup(n.creds, op.name), op.call);
    if login.Some? {
      WhatDialingDoes(n, if HasName(n.vms, op.name) then Some(Named(n.vms, op.name)) else None, login.value, op);
    }
  }

  // Unless told to trust a new key, a connection attempt leaves the VM's pin as it was.
  lemma ConnectedKey(n: ByName, op: Op)
    requires op.Connect? && !op.trustNew && op.name in n.pins
    ensures var pins := ServeByName(n, op).0.pins;
            op.name in pins && pins[op.name].publicKey == n.pins[op.name].publicKey
  {
    hide ServeByName, Dialled, Creds.Resolved;
    WhatConnectDoes(n, op);
    var login := Creds.Resolved(Lookup(n.creds, op.name), op.call);
    if login.Some? && !(op.alive && op.name in n.pool) {
      WhatDialingDoes(n, if HasName(n.vms, op.name) then Some(Named(n.vms, op.name)) else None, login.value, op);
    }
  }

  // What an unrefused change of a VM's credential or key does besides: its connection is
  // no longer pooled, so the next one is dialled anew.
  lemma ChangesHangUp(n: ByName, op: Op)
    requires op.SetCred? || op.DeleteCred? || op.Forget?
    ensures var (n', answer) := ServeByName(n, op);
            && (answer.Refused? <==> op.name == "" && !op.Forget?)
            && (answer.Refused? ==> n' == n)
            && (answer != Refused ==> answer == Done && op.name !in n'.pool)
  {
  }

  // ---- the host key --------------------------------------------------------------------------

  // The VM's own renames take its key along, or it has none and none is there.
  ghost predicate KeyMoves(n: ByName, id: Id, op: Op) {
    Renames(n, id, op) ==> Carries(n.pins, op.oldName, op.newName, op.keys.Works?)
  }

  // The VM's key is forgotten, or another is to be trusted.
  ghost predicate ResetsKey(n: ByName, id: Id, op: Op) {
    About(n, id, op) && (op.Forget? || (op.Connect? && op.trustNew))
  }

  ghost predicate Pinned(n: ByName, id: Id, publicKey: string) {
    id in n.vms && n.vms[id] in n.pins && n.pins[n.vms[id]].publicKey == publicKey
  }

  lemma KeyStep(n: ByName, id: Id, op: Op, publicKey: string)
    requires IsVM(n, id) && Pinned(n, id, publicKey) && KeyMoves(n, id, op) && !ResetsKey(n, id, op)
    ensures IsVM(ServeByName(n, op).0, id) && Pinned(ServeByName(n, op).0, id, publicKey)
  {
    VMStays(n, id, op);
    if !About(n, id, op) && !Renames(n, id, op) {
      OthersRequest(n, id, op);
    } else if op.Connect? {
      ConnectedKey(n, op);
    }
  }

  lemma {:induction false} KeyFollowsTheVM(n: ByName, id: Id, ops: seq<Op>, publicKey: string)
    requires IsVM(n, id) && Pinned(n, id, publicKey)
    requires Throughout(n, id, ops, KeyMoves) && !Sometime(n, id, ops, ResetsKey)
    ensures IsVM(After(n, ops), id) && Pinned(After(n, ops), id, publicKey)
    decreases ops
  {
    hide IsVM, Pinned, KeyMoves, ResetsKey;
    if ops != [] {
      KeyStep(n, id, ops[0], publicKey);
      KeyFollowsTheVM(ServeByName(n, ops[0]).0, id, ops[1..], publicKey);
    }
  }

  // Two connections dialled for one VM under different keys, whatever it was renamed to and
  // whatever else was asked between them: its key was forgotten in between, or a call
  // was told to trust a new one.
  lemma TwoKeysMeanAReset(n: ByName, id: Id, first: Op, between: seq<Op>, second: Op)
    requires IsVM(n, id) && About(n, id, first) && Dials(n, first)
    requires var m := ServeByName(n, first).0;
             && Throughout(m, id, between, KeyMoves)
             && About(After(m, between), id, second) && Dials(After(m, between), second)
             && first.key.publicKey != second.key.publicKey
    ensures second.trustNew || Sometime(ServeByName(n, first).0, id, between, ResetsKey)
  {
    hide AboutVM, KeyMoves, ResetsKey;
    var m := ServeByName(n, first).0;
    VMStays(n, id, first);
    DialledAreChecked(n, first);
    if !Sometime(m, id, between, ResetsKey) {
      KeyFollowsTheVM(m, id, between, first.key.publicKey);
      DialledAreChecked(After(m, between), second);
    }
  }

  // The request does not touch the VM's pin, except to take it along.
  ghost predicate LeavesKey(n: ByName, id: Id, op: Op) {
    KeyMoves(n, id, op) && !(About(n, id, op) && (op.Forget? || op.Connect?))
  }

  lemma OwnStoreMoves<V(!new)>(table: map<string, V>, oldName: string, newName: string, saved: bool)
    requires oldName != newName && Carries(table, oldName, newName, saved)
    ensures Lookup(if saved then Disk.Moved(table, oldName, newName) else table, newName) == Lookup(table, oldName)
  {
  }

  lemma LeavesKeyStep(n: ByName, id: Id, op: Op)
    requires IsVM(n, id) && LeavesKey(n, id, op)
    ensures var n' := ServeByName(n, op).0;
            IsVM(n', id) && Lookup(n'.pins, n'.vms[id]) == Lookup(n.pins, n.vms[id])
  {
    VMStays(n, id, op);
    if !About(n, id, op) && !Renames(n, id, op) {
      OthersRequest(n, id, op);
    } else if op.Rename? {
      OwnStoreMoves(n.pins, op.oldName, op.newName, op.keys.Works?);
    }
  }

  lemma {:induction false} KeyIsLeft(n: ByName, id: Id, ops: seq<Op>)
    requires IsVM(n, id) && Throughout(n, id, ops, LeavesKey)
    ensures IsVM(After(n, ops), id)
    ensures Lookup(After(n, ops).pins, After(n, ops).vms[id]) == Lookup(n.pins, n.vms[id])
    decreases ops
  {
    hide DistinctNames, LeavesKey, Lookup;
    if ops != [] {
      LeavesKeyStep(n, id, ops[0]);
      KeyIsLeft(ServeByName(n, ops[0]).0, id, ops[1..]);
    }
  }

  // A forgotten key is gone: at the next connection attempt, under whatever name the VM has
  // by then, any key would do.
  lemma ForgottenKeyIsGone(n: ByName, id: Id, forget: Op, between: seq<Op>, connect: Op)
    requires IsVM(n, id) && About(n, id, forget) && forget.Forget?
    requires var m := ServeByName(n, forget).0;
             Throughout(m, id, between, LeavesKey) && About(After(m, between), id, connect) && connect.Connect?
    ensures MayPresent(After(ServeByName(n, forget).0, between).pins, connect.name, connect)
  {
    VMStays(n, id, forget);
    hide LeavesKey;
    KeyIsLeft(ServeByName(n, forget).0, id, between);
  }

  // ---- the credential --------------------------------------------------------------------------

  // The request does not change the VM's stored credential, except to take it along.
  ghost predicate LeavesEntry(n: ByName, id: Id, op: Op) {
    && !(About(n, id, op) && (op.SetCred? || op.DeleteCred?))
    && (Renames(n, id, op) ==> Carries(n.creds, op.oldName, op.newName, op.creds.Works?))
  }

  lemma CredsUnchanged(n: ByName, op: Op)
    requires ByVM(op) && !op.SetCred? && !op.DeleteCred?
    ensures ServeByName(n, op).0.creds == n.creds
  {
  }

  lemma LeavesEntryStep(n: ByName, id: Id, op: Op)
    requires IsVM(n, id) && LeavesEntry(n, id, op)
    ensures var n' := ServeByName(n, op).0;
            IsVM(n', id) && Lookup(n'.creds, n'.vms[id]) == Lookup(n.creds, n.vms[id])
  {
    VMStays(n, id, op);
    if About(n, id, op) {
      CredsUnchanged(n, op);
    } else if Renames(n, id, op) {
      OwnStoreMoves(n.creds, op.oldName, op.newName, op.creds.Works?);
    } else {
      OthersRequest(n, id, op);
    }
  }

  lemma {:induction false} EntryIsLeft(n: ByName, id: Id, ops: seq<Op>)
    requires IsVM(n, id) && Throughout(n, id, ops, LeavesEntry)
    ensures IsVM(After(n, ops), id)
    ensures Lookup(After(n, ops).creds, After(n, ops).vms[id]) == Lookup(n.creds, n.vms[id])
    decreases ops
  {
    hide DistinctNames, LeavesEntry, Lookup;
    if ops != [] {
      LeavesEntryStep(n, id, ops[0]);
      EntryIsLeft(ServeByName(n, ops[0]).0, id, ops[1..]);
    }
  }

  // What is read back for a VM, under whatever name, is what the last change of its
  // credential made of it: nothing after a deletion, and otherwise what was there with
  // the fields given put in.
  lemma LastChangeIsReadBack(n: ByName, id: Id, change: Op, between: seq<Op>, get: Op)
    requires IsVM(n, id) && About(n, id, change) && ServeByName(n, change).1 == Done
    requires change.SetCred? || change.DeleteCred?
    requires var m := ServeByName(n, change).0;
             Throughout(m, id, between, LeavesEntry) && About(After(m, between), id, get) && get.GetCred?
    ensures var m := After(ServeByName(n, change).0, between);
            ServeByName(m, get) ==
            (m, Credential(if change.DeleteCred? then None
                           else Some(Creds.Merged(Creds.EntryOf(n.creds, n.vms[id]), change.entry))))
  {
    VMStays(n, id, change);
    hide LeavesEntry, Creds.Merged, Creds.EntryOf;
    EntryIsLeft(ServeByName(n, change).0, id, between);
  }

  // ---- the connection --------------------------------------------------------------------------

  // The VM's pooled connection, if it has one, logged in with the credential stored for the
  // VM now, or one given in a call.
  ghost predicate LoginIsCurrent(n: ByName, id: Id) {
    id in n.vms && n.vms[id] in n.pool ==> MadeFrom(n.pool[n.vms[id]].login, Lookup(n.creds, n.vms[id]))
  }

  ghost predicate MadeFrom(login: Creds.Credential, stored: Option<Creds.Entry>) {
    exists call: Creds.Credential :: Creds.Resolved(stored, call) == Some(login)
  }

  // The VM does not take over a name with a connection pooled under it.
  ghost predicate NoStrangersConnection(n: ByName, id: Id, op: Op) {
    Renames(n, id, op) ==> op.newName !in n.pool
  }

  lemma LoginStep(n: ByName, id: Id, op: Op)
    requires IsVM(n, id) && LoginIsCurrent(n, id) && NoStrangersConnection(n, id, op)
    ensures IsVM(ServeByName(n, op).0, id) && LoginIsCurrent(ServeByName(n, op).0, id)
  {
    VMStays(n, id, op);
    if !About(n, id, op) && !Renames(n, id, op) {
      hide MadeFrom;
      OthersRequest(n, id, op);
    } else if op.Connect? {
      ConnectedLogin(n, op);
    }
  }

  lemma ConnectedLogin(n: ByName, op: Op)
    requires op.Connect?
    requires op.name in n.pool ==> MadeFrom(n.pool[op.name].login, Lookup(n.creds, op.name))
    ensures var (n', answer) := ServeByName(n, op);
            && n'.vms == n.vms && n'.creds == n.creds
            && (op.name in n'.pool ==> MadeFrom(n'.pool[op.name].login, Lookup(n.creds, op.name)))
            && (answer.Connected? ==> MadeFrom(answer.conn.login, Lookup(n.creds, op.name)))
  {
    hide ServeByName, Dialled, Creds.Resolved;
    WhatConnectDoes(n, op);
    var login := Creds.Resolved(Lookup(n.creds, op.name), op.call);
    if login.Some? && !(op.alive && op.name in n.pool) {
      WhatDialingDoes(n, if HasName(n.vms, op.name) then Some(Named(n.vms, op.name)) else None, login.value, op);
    }
  }

  // Over every run: whatever connection a VM's name answers with, its login was made from
  // the credential stored for that VM at the time, never from one since replaced or
  // deleted.
  lemma {:induction false} LoginsAreCurrent(n: ByName, id: Id, ops: seq<Op>, connect: Op)
    requires IsVM(n, id) && LoginIsCurrent(n, id) && Throughout(n, id, ops, NoStrangersConnection)
    requires About(After(n, ops), id, connect) && connect.Connect?
    requires ServeByName(After(n, ops), connect).1.Connected?
    ensures MadeFrom(ServeByName(After(n, ops), connect).1.conn.login, Lookup(After(n, ops).creds, connect.name))
    decreases ops
  {
    hide IsVM, MadeFrom, NoStrangersConnection, ServeByName, Lookup;
    if ops == [] {
      ConnectedLogin(n, connect);
    } else {
      LoginStep(n, id, ops[0]);
      LoginsAreCurrent(ServeByName(n, ops[0]).0, id, ops[1..], connect);
    }
  }

  // Nothing makes the VM give up its connection: its name, credential and key stay, and the
  // connection is alive whenever it is asked for.
  ghost predicate LeavesConnection(n: ByName, id: Id, op: Op) {
    && !Renames(n, id, op)
    && (About(n, id, op) ==> !op.SetCred? && !op.DeleteCred? && !op.Forget? && (op.Connect? ==> op.alive))
  }

  lemma LeavesConnectionStep(n: ByName, id: Id, op: Op)
    requires IsVM(n, id) && LeavesConnection(n, id, op) && n.vms[id] in n.pool
    ensures var n' := ServeByName(n, op).0;
            && IsVM(n', id) && n'.vms[id] == n.vms[id] && n.vms[id] in n'.pool
            && n'.pool[n.vms[id]] == n.pool[n.vms[id]]
  {
    VMStays(n, id, op);
    if !About(n, id, op) {
      OthersRequest(n, id, op);
      assert Lookup(ServeByName(n, op).0.pool, n.vms[id]) == Lookup(n.pool, n.vms[id]);
    }
  }

  // Then every call that has a credential and an address is handed the same connection.
  lemma {:induction false} ConnectionIsShared(n: ByName, id: Id, ops: seq<Op>, connect: Op)
    requires IsVM(n, id) && n.vms[id] in n.pool && Throughout(n, id, ops, LeavesConnection)
    requires About(After(n, ops), id, connect) && connect.Connect? && connect.alive
    ensures var m := After(n, ops);
            ServeByName(m, connect) ==
            (m, if Creds.Resolved(Lookup(m.creds, connect.name), connect.call).Some? && !connect.address.Unknown?
                then Connected(n.pool[n.vms[id]]) else Refused)
    decreases ops
  {
    hide DistinctNames, LeavesConnection, ServeByName, Creds.Resolved, HasName;
    if ops == [] {
      NameIs(n.vms, id);
      WhatConnectDoes(n, connect);
    } else {
      LeavesConnectionStep(n, id, ops[0]);
      ConnectionIsShared(ServeByName(n, ops[0]).0, id, ops[1..], connect);
    }
  }

  // ---- the tunnels -----------------------------------------------------------------------------

  ghost predicate Forwards(n: ByName, id: Id, t: nat, guestPort: int) {
    id in n.vms && t in n.tunnels && n.tunnels[t] == Forward(n.vms[id], guestPort)
  }

  ghost predicate Closes(op: Op, t: nat) {
    op.CloseTunnel? && op.tunnel == t
  }

  // The tunnel is listed under the name, and so are only tunnels to that name.
  ghost predicate ListsFor(n: ByName, name: string, t: nat) {
    var answer := ServeByName(n, ListTunnels(name)).1;
    && answer.Tunnels? && t in answer.tunnels
    && (forall other :: other in answer.tunnels ==> other in n.tunnels && (name != "" ==> n.tunnels[other].vm == name))
  }

  lemma TunnelStep(n: ByName, id: Id, op: Op, t: nat, guestPort: int)
    requires IsVM(n, id) && Forwards(n, id, t, guestPort) && !Closes(op, t)
    ensures IsVM(ServeByName(n, op).0, id) && Forwards(ServeByName(n, op).0, id, t, guestPort)
  {
    VMStays(n, id, op);
    if ByVM(op) {
      hide AboutVM;
      AboutOneName(n, if HasName(n.vms, op.name) then Some(Named(n.vms, op.name)) else None, op);
    }
  }

  // A tunnel leads to the VM it was opened for, on the port asked for, until it is closed,
  // whatever the VM is renamed to; and it is listed under the name the VM has.
  lemma {:induction false} TunnelLeadsToItsVM(n: ByName, id: Id, ops: seq<Op>, t: nat, guestPort: int)
    requires IsVM(n, id) && Forwards(n, id, t, guestPort)
    requires Throughout(n, id, ops, (m, vm, op) => !Closes(op, t))
    ensures var m := After(n, ops);
            && IsVM(m, id) && Forwards(m, id, t, guestPort)
            && ServeByName(m, TunnelTarget(t)) == (m, Target(Some(id)))
            && ListsFor(m, m.vms[id], t)
            && ServeByName(m, CloseTunnel(t)) == (m.(tunnels := m.tunnels - {t}), Done)
    decreases ops
  {
    if ops == [] {
      NameIs(n.vms, id);
    } else {
      hide IsVM, Forwards, Closes;
      TunnelStep(n, id, ops[0], t, guestPort);
      TunnelLeadsToItsVM(ServeByName(n, ops[0]).0, id, ops[1..], t, guestPort);
    }
  }

  lemma OpenedForTheVM(n: ByName, id: Id, op: Op)
    requires IsVM(n, id) && About(n, id, op) && op.OpenTunnel?
    ensures ServeByName(n, op).1 == Done <==> op.name != "" && op.tunnel !in n.tunnels
    ensures ServeByName(n, op).1 == Done ==> Forwards(ServeByName(n, op).0, id, op.tunnel, op.guestPort)
    ensures ServeByName(n, op).1 != Done ==> ServeByName(n, op) == (n, Refused)
  {
  }
}
