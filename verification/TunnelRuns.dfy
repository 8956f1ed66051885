/** Whole runs of the tunnel manager: opening, closing, renaming, and the service
    stopping or crashing and starting again (internal/tunnel/manager.go). */
module TunnelRuns {
  import opened Wrappers
  import opened Tunnels

  // ---- what holds in every reachable state ----------------------------------------------

  ghost predicate Named(id: string, limit: int) {
    exists n: nat :: n < limit && id == TunnelName(n)
  }

  function Hosts(listeners: seq<Listener>): seq<string> {
    seq(|listeners|, i requires 0 <= i < |listeners| => listeners[i].host)
  }

  // The hosts a scope stands for: the loopback address alone, every interface, the
  // tailnet's addresses (some, whichever they were), or the address it is.
  predicate HostsOf(scope: string, hosts: seq<string>) {
    if scope == "loopback" then hosts == ["127.0.0.1"]
    else if scope == "all" then hosts == [""]
    else if scope == "tailnet" then hosts != []
    else hosts == [scope]
  }

  // A registered tunnel listens on one real port on every host of its scope; and its
  // rule, if it has one, opens exactly that port, on every local address for the scope
  // "all" alone, and otherwise on the very hosts it listens on. A tunnel that should
  // have a rule and has none carries the warning.
  ghost predicate TunnelOk(t: Tunnel, id: string, nextID: nat, bound: set<Listener>, rules: map<string, Rule>) {
    && t.spec.id == id && Named(id, nextID)
    && t.spec.mode in {"direct", "ssh"} && t.spec.bindScope != "" && 1 <= t.spec.hostPort <= 65535
    && 1 <= t.spec.guestPort <= 65535
    && t.listeners != []
    && (forall l :: l in t.listeners ==> l in bound && l.port == t.spec.hostPort)
    && HostsOf(t.spec.bindScope, Hosts(t.listeners))
    && (t.warned <==> t.spec.bindScope != "loopback" && t.fwRule == "")
    && (t.fwRule != "" ==>
          && t.fwRule == RuleName(id) && t.spec.bindScope != "loopback" && t.fwRule in rules
          && rules[t.fwRule].port == t.spec.hostPort
          && rules[t.fwRule].addresses == if t.spec.bindScope == "all" then [] else Hosts(t.listeners))
  }

  // The open sockets are exactly the registered tunnels', each with one owner.
  ghost predicate SocketsOwned(items: map<string, Tunnel>, bound: set<Listener>, handles: nat) {
    && bound == ListenersOf(items, items.Keys)
    && (forall l :: l in bound ==> l.handle < handles)
    && (forall a, b, l :: a in items && b in items && l in items[a].listeners && l in items[b].listeners ==> a == b)
  }

  ghost predicate AllOk(w: World) {
    forall id :: id in w.items ==> TunnelOk(w.items[id], id, w.nextID, w.bound, w.rules)
  }

  ghost predicate Inv(w: World) {
    w.nextID >= 1 && SocketsOwned(w.items, w.bound, w.handles) && AllOk(w)
  }

  // `removes` says which rules netfw's Remove manages to delete. A restart is a
  // stop or a crash, and then Restore in a new process.
  datatype Op =
    | Open(spec: Spec, env: Env)
    | Close(id: string, removes: string -> bool, saved: bool)
    | Rename(oldName: string, newName: string, saved: bool)
    | Restart(crash: bool, removes: string -> bool, envs: nat -> Env)

  // What survives the process: the firewall and the file.
  function Fresh(w: World): World { World(map[], 1, {}, 0, w.rules, w.file) }

  function Stopped(w: World, op: Op): World
    requires op.Restart?
  {
    Fresh(if op.crash then w else DoCloseAll(w, op.removes))
  }

  ghost function Apply(w: World, op: Op): World
    requires Inv(w)
  {
    match op
    case Open(spec, env) => DoOpen(w, spec, env).0
    case Close(id, removes, saved) => DoClose(w, id, removes, saved)
    case Rename(oldName, newName, saved) => DoRename(w, oldName, newName, saved)
    case Restart(_, _, envs) => DoRestore(Stopped(w, op), envs)
  }

  lemma FreshNameIsNew(w: World)
    requires Inv(w)
    ensures TunnelName(w.nextID) !in w.items
    ensures forall id :: id in w.items ==> RuleName(id) != RuleName(TunnelName(w.nextID))
  {
    forall id | id in w.items
      ensures id != TunnelName(w.nextID) && RuleName(id) != RuleName(TunnelName(w.nextID))
    {
      assert TunnelOk(w.items[id], id, w.nextID, w.bound, w.rules);
      var n: nat :| n < w.nextID && id == TunnelName(n);
      if id == TunnelName(w.nextID) {
        TunnelNamesDiffer(n, w.nextID);
      }
      if RuleName(id) == RuleName(TunnelName(w.nextID)) {
        RuleNamesDiffer(id, TunnelName(w.nextID));
      }
    }
  }

  lemma NamedLater(id: string, limit: int, later: int)
    requires Named(id, limit) && limit <= later
    ensures Named(id, later)
  {
    var n: nat :| n < limit && id == TunnelName(n);
    assert n < later;
  }

  lemma RegisterSockets(items: map<string, Tunnel>, bound: set<Listener>, handles: nat, id: string, t: Tunnel,
                        hosts: seq<string>, port: int)
    requires SocketsOwned(items, bound, handles) && id !in items && t.listeners == Listeners(hosts, port, handles)
    ensures SocketsOwned(items[id := t], bound + SetOf(t.listeners), handles + |hosts|)
  {
    var items' := items[id := t];
    forall l
      ensures l in ListenersOf(items', items'.Keys) <==> l in bound || l in t.listeners
    {
      if l in bound {
        var a :| a in items && l in items[a].listeners;
        assert items'[a] == items[a];
      }
      if l in t.listeners {
        assert l in items'[id].listeners;
      }
    }
    forall a, l | a in items && l in items[a].listeners
      ensures l !in t.listeners
    {
      assert l in bound;
    }
  }

  lemma NewTunnelOk(w: World, spec: Spec, hosts: seq<string>, port: int, env: Env)
    requires Inv(w) && hosts != [] && 1 <= port <= 65535 && 1 <= spec.guestPort <= 65535
    requires spec.mode in {"direct", "ssh"} && spec.bindScope != ""
    requires HostsOf(spec.bindScope, hosts)
    ensures var w' := DoRegister(w, spec, hosts, port, env);
            var id := TunnelName(w.nextID);
            TunnelOk(w'.items[id], id, w'.nextID, w'.bound, w'.rules)
  {
    var t := DoRegister(w, spec, hosts, port, env).items[TunnelName(w.nextID)];
    assert t.listeners == Listeners(hosts, port, w.handles);
    assert Hosts(t.listeners) == hosts;
    assert Named(TunnelName(w.nextID), w.nextID + 1);
  }

  lemma OtherTunnelOk(w: World, spec: Spec, hosts: seq<string>, port: int, env: Env, id: string)
    requires Inv(w) && id in w.items
    ensures var w' := DoRegister(w, spec, hosts, port, env);
            && id in w'.items && w'.items[id] == w.items[id]
            && TunnelOk(w'.items[id], id, w'.nextID, w'.bound, w'.rules)
  {
    FreshNameIsNew(w);
    NamedLater(id, w.nextID, w.nextID + 1);
    assert TunnelOk(w.items[id], id, w.nextID, w.bound, w.rules);
  }

  lemma RegisterKeeps(w: World, spec: Spec, hosts: seq<string>, port: int, env: Env)
    requires Inv(w) && hosts != [] && 1 <= port <= 65535 && 1 <= spec.guestPort <= 65535
    requires spec.mode in {"direct", "ssh"} && spec.bindScope != ""
    requires HostsOf(spec.bindScope, hosts)
    ensures Inv(DoRegister(w, spec, hosts, port, env))
  {
    var w' := DoRegister(w, spec, hosts, port, env);
    var id := TunnelName(w.nextID);
    FreshNameIsNew(w);
    RegisterSockets(w.items, w.bound, w.handles, id, w'.items[id], hosts, port);
    NewTunnelOk(w, spec, hosts, port, env);
    forall a | a in w'.items
      ensures TunnelOk(w'.items[a], a, w'.nextID, w'.bound, w'.rules)
    {
      if a != id {
        OtherTunnelOk(w, spec, hosts, port, env, a);
      }
    }
  }

  lemma OpenKeeps(w: World, spec: Spec, env: Env)
    requires Inv(w)
    ensures Inv(DoOpen(w, spec, env).0)
  {
    var (w', r) := DoOpen(w, spec, env);
    if r.Ok? {
      var sp := Defaulted(spec).value;
      var hosts := ResolveBind(sp.bindScope, env).value;
      assert env.bind(0).Some?;
      RegisterKeeps(w, sp, hosts, SharedPort(sp.hostPort, env.bind), env);
    }
  }

  lemma CloseKeeps(w: World, id: string, removes: string -> bool, saved: bool)
    requires Inv(w)
    ensures Inv(DoClose(w, id, removes, saved))
  {
    if id !in w.items {
      return;
    }
    var w' := DoClose(w, id, removes, saved);
    assert w'.bound == w.bound - SetOf(w.items[id].listeners);
    forall a | a in w'.items
      ensures TunnelOk(w'.items[a], a, w'.nextID, w'.bound, w'.rules)
    {
      assert TunnelOk(w.items[a], a, w.nextID, w.bound, w.rules);
      assert TunnelOk(w.items[id], id, w.nextID, w.bound, w.rules);
      if RuleName(a) == RuleName(id) {
        RuleNamesDiffer(a, id);
      }
    }
    forall l
      ensures l in w'.bound <==> l in ListenersOf(w'.items, w'.items.Keys)
    {
      if l in w'.bound {
        var a :| a in w.items && l in w.items[a].listeners;
        assert a in w'.items;
      }
    }
  }

  // A rename changes the tunnels' VM names, the file, and nothing else.
  lemma RenameChangesNames(w: World, oldName: string, newName: string, saved: bool)
    requires Keyed(w.items)
    ensures var w' := DoRename(w, oldName, newName, saved);
            && w'.items.Keys == w.items.Keys
            && (forall id :: id in w.items ==> w'.items[id] == Repointed(w.items[id], oldName, newName))
            && (forall id :: id in w.items ==>
                  && w'.items[id].spec.vmName == (if w.items[id].spec.vmName == oldName then newName
                                                  else w.items[id].spec.vmName)
                  && w'.items[id] == w.items[id].(spec := w.items[id].spec.(vmName := w'.items[id].spec.vmName)))
            && (w'.nextID, w'.bound, w'.handles, w'.rules) == (w.nextID, w.bound, w.handles, w.rules)
  {
  }

  lemma SameSockets(items: map<string, Tunnel>, items': map<string, Tunnel>, bound: set<Listener>, handles: nat)
    requires SocketsOwned(items, bound, handles) && items'.Keys == items.Keys
    requires forall id :: id in items ==> items'[id].listeners == items[id].listeners
    ensures SocketsOwned(items', bound, handles)
  {
    assert ListenersOf(items', items'.Keys) == ListenersOf(items, items.Keys);
  }

  lemma RepointedOk(t: Tunnel, id: string, nextID: nat, bound: set<Listener>, rules: map<string, Rule>,
                    oldName: string, newName: string)
    requires TunnelOk(t, id, nextID, bound, rules)
    ensures TunnelOk(Repointed(t, oldName, newName), id, nextID, bound, rules)
    ensures Repointed(t, oldName, newName).listeners == t.listeners
  {
  }

  lemma RenameKeeps(w: World, oldName: string, newName: string, saved: bool)
    requires Inv(w)
    ensures Inv(DoRename(w, oldName, newName, saved))
  {
    RenameChangesNames(w, oldName, newName, saved);
    var w' := DoRename(w, oldName, newName, saved);
    hide DoRename, SocketsOwned, TunnelOk, Repointed;
    forall id | id in w'.items
      ensures TunnelOk(w'.items[id], id, w'.nextID, w'.bound, w'.rules)
      ensures w'.items[id].listeners == w.items[id].listeners
    {
      RepointedOk(w.items[id], id, w.nextID, w.bound, w.rules, oldName, newName);
    }
    SameSockets(w.items, w'.items, w.bound, w.handles);
  }

  lemma {:induction false} ReopenKeeps(w: World, specs: seq<Spec>, envs: nat -> Env)
    requires Inv(w)
    ensures Inv(DoReopen(w, specs, envs))
    decreases specs
  {
    if specs != [] {
      if specs[0].autoRestore {
        OpenKeeps(w, specs[0], envs(|specs|));
        ReopenKeeps(DoOpen(w, specs[0], envs(|specs|)).0, specs[1..], envs);
      } else {
        ReopenKeeps(w, specs[1..], envs);
      }
    }
  }

  // Every operation keeps the invariant, whatever fails along the way.
  lemma InvStep(w: World, op: Op)
    requires Inv(w)
    ensures Inv(Apply(w, op))
  {
    match op
    case Open(spec, env) => OpenKeeps(w, spec, env);
    case Close(id, removes, saved) => CloseKeeps(w, id, removes, saved);
    case Rename(oldName, newName, saved) => RenameKeeps(w, oldName, newName, saved);
    case Restart(_, _, envs) =>
      var (specs, next) := LoadSpecs(w.file);
      var f := Stopped(w, op);
      ReopenKeeps(f.(nextID := if next > 1 then next else 1), specs, envs);
  }

  ghost function Run(w: World, ops: seq<Op>): World
    requires Inv(w)
    decreases ops
  {
    if ops == [] then w else
    InvStep(w, ops[0]);
    Run(Apply(w, ops[0]), ops[1..])
  }

  // In every reachable state, under every pattern of failures: the open sockets
  // are exactly the registered tunnels', IDs are distinct numbers below the next
  // one, and each tunnel's rule is in force as it was made.
  lemma {:induction false} InvHolds(w: World, ops: seq<Op>)
    requires Inv(w)
    ensures Inv(Run(w, ops))
    decreases ops
  {
    if ops != [] {
      InvStep(w, ops[0]);
      InvHolds(Apply(w, ops[0]), ops[1..]);
    }
  }

  // ---- what an opening makes -----------------------------------------------------------------

  // The addresses one opening is to listen on.
  predicate HostsAsked(scope: string, env: Env, hosts: seq<string>) {
    if scope in {"", "loopback"} then hosts == ["127.0.0.1"]
    else if scope == "all" then hosts == [""]
    else if scope == "tailnet" then env.tailnet == Some(hosts) && hosts != []
    else env.isAddress(scope) && hosts == [scope]
  }

  // An opening succeeds exactly when the request is in range, its addresses can be had,
  // the guest answers over SSH if that is the mode, and every address can be bound.
  lemma WhenOpeningSucceeds(w: World, spec: Spec, env: Env)
    requires Keyed(w.items)
    ensures DoOpen(w, spec, env).1.Ok? <==>
            && spec.vmName != "" && 1 <= spec.guestPort <= 65535 && 0 <= spec.hostPort <= 65535
            && spec.mode in {"", "direct", "ssh"} && (spec.mode == "ssh" ==> env.sshUp)
            && exists hosts :: HostsAsked(spec.bindScope, env, hosts)
                               && forall i :: 0 <= i < |hosts| ==> env.bind(i).Some?
    ensures DoOpen(w, spec, env).1.Err? ==> DoOpen(w, spec, env).0 == w
  {
    var scope := if spec.bindScope == "" then "loopback" else spec.bindScope;
    var resolved := ResolveBind(scope, env);
    assert forall hosts :: HostsAsked(spec.bindScope, env, hosts) <==> resolved == Ok(hosts);
  }

  predicate Requested(t: Tunnel, id: string, spec: Spec, env: Env) {
    && t.spec == spec.(id := id, created := env.now, hostPort := t.spec.hostPort,
                       mode := if spec.mode == "" then "direct" else spec.mode,
                       bindScope := if spec.bindScope == "" then "loopback" else spec.bindScope)
    && (if spec.hostPort != 0 then t.spec.hostPort == spec.hostPort else env.bind(0) == Some(t.spec.hostPort))
    && HostsAsked(spec.bindScope, env, Hosts(t.listeners))
    && (forall i :: 0 <= i < |t.listeners| ==> t.listeners[i].port == t.spec.hostPort)
  }

  // What one opening leaves: its tunnel, and its rule, which opens the tunnel's port on
  // the tunnel's own addresses, or on every one if that is the scope.
  ghost predicate Made(w: World, w': World, id: string, scope: string, allowed: bool) {
    && id !in w.items && w'.items.Keys == w.items.Keys + {id}
    && (forall other :: other in w.items ==> w'.items[other] == w.items[other])
    && (forall rule :: rule in w.rules && rule != RuleName(id) ==> rule in w'.rules && w'.rules[rule] == w.rules[rule])
    && (scope == "loopback" ==> w'.items[id].fwRule == "" && w'.rules == w.rules)
    && (scope != "loopback" && allowed ==>
          && w'.items[id].fwRule == RuleName(id) && RuleName(id) in w'.rules
          && w'.rules[RuleName(id)].port == w'.items[id].spec.hostPort
          && w'.rules[RuleName(id)].addresses == if scope == "all" then [] else Hosts(w'.items[id].listeners))
  }

  lemma RegisteredTunnel(w: World, spec: Spec, hosts: seq<string>, port: int, env: Env)
    requires Keyed(w.items)
    ensures var w', id := DoRegister(w, spec, hosts, port, env), TunnelName(w.nextID);
            && id in w'.items && w'.items == w.items[id := w'.items[id]]
            && w'.items[id].spec == spec.(id := id, hostPort := port, created := env.now)
            && w'.items[id].listeners == Listeners(hosts, port, w.handles)
            && w'.items[id].fwRule ==
               (if spec.bindScope != "loopback" && env.firewall.Allowed? then RuleName(id) else "")
  {
    hide Snapshot, TunnelName, RuleName, Listeners, DoAllow;
  }

  lemma RegisteredRules(w: World, spec: Spec, hosts: seq<string>, port: int, env: Env)
    requires Keyed(w.items)
    ensures var w', name := DoRegister(w, spec, hosts, port, env), RuleName(TunnelName(w.nextID));
            && (spec.bindScope == "loopback" ==> w'.rules == w.rules)
            && (forall rule :: rule in w.rules && rule != name ==> rule in w'.rules && w'.rules[rule] == w.rules[rule])
            && (spec.bindScope != "loopback" && env.firewall.Allowed? ==>
                  && name in w'.rules && w'.rules[name].port == port
                  && w'.rules[name].addresses == if spec.bindScope == "all" then [] else hosts)
  {
    hide Snapshot, TunnelName, RuleName, Listeners;
  }

  lemma RegisterMakes(w: World, spec: Spec, hosts: seq<string>, port: int, env: Env)
    requires Inv(w) && Keyed(w.items)
    ensures var w', id := DoRegister(w, spec, hosts, port, env), TunnelName(w.nextID);
            && Made(w, w', id, spec.bindScope, env.firewall.Allowed?)
            && w'.items[id].spec == spec.(id := id, hostPort := port, created := env.now)
            && Hosts(w'.items[id].listeners) == hosts
            && (forall i :: 0 <= i < |w'.items[id].listeners| ==> w'.items[id].listeners[i].port == port)
  {
    hide DoRegister, Inv, RuleName, TunnelName, Keyed;
    FreshNameIsNew(w);
    RegisteredTunnel(w, spec, hosts, port, env);
    RegisteredRules(w, spec, hosts, port, env);
    assert Hosts(Listeners(hosts, port, w.handles)) == hosts;
  }

  // And then the tunnel is the one asked for: mode and scope as given or the defaults,
  // the port asked for or the one the system chose, listening on the scope's addresses
  // with a rule for just those; and the other tunnels and rules are as they were.
  lemma WhatAnOpeningMakes(w: World, spec: Spec, env: Env)
    requires Inv(w) && Keyed(w.items) && DoOpen(w, spec, env).1.Ok?
    ensures var (w', r) := DoOpen(w, spec, env);
            var scope := if spec.bindScope == "" then "loopback" else spec.bindScope;
            && r.value == TunnelName(w.nextID)
            && Made(w, w', r.value, scope, env.firewall.Allowed?)
            && Requested(w'.items[r.value], r.value, spec, env)
  {
    var sp := Defaulted(spec).value;
    var hosts := ResolveBind(sp.bindScope, env).value;
    assert env.bind(0).Some?;
    RegisterMakes(w, sp, hosts, SharedPort(sp.hostPort, env.bind), env);
    hide DoRegister, Inv, Made;
  }

  // Restore opens auto-restore tunnels alone.
  lemma OthersAreNotReopened(w: World, specs: seq<Spec>, envs: nat -> Env)
    requires Keyed(w.items) && specs != [] && !specs[0].autoRestore
    ensures DoReopen(w, specs, envs) == DoReopen(w, specs[1..], envs)
  {
  }

  // ---- IDs across restarts -----------------------------------------------------------------

  ghost predicate Saved(op: Op) {
    match op
    case Open(_, env) => env.saved
    case Close(_, _, saved) => saved
    case Rename(_, _, saved) => saved
    case Restart(_, _, envs) => forall k :: envs(k).saved
  }

  ghost predicate NextSaved(w: World) { LoadSpecs(w.file).1 == w.nextID }

  // Nothing in `w'` carries an ID issued before `w`, except what `w` still has.
  ghost predicate OnlyNewIds(w: World, w': World) {
    w.nextID <= w'.nextID && forall id :: id in w'.items && Named(id, w.nextID) ==> id in w.items
  }

  lemma OpenIssuesNew(w: World, spec: Spec, env: Env)
    requires Inv(w) && NextSaved(w) && env.saved
    ensures NextSaved(DoOpen(w, spec, env).0) && OnlyNewIds(w, DoOpen(w, spec, env).0)
  {
    var (w', r) := DoOpen(w, spec, env);
    if r.Ok? && Named(TunnelName(w.nextID), w.nextID) {
      var n: nat :| n < w.nextID && TunnelName(w.nextID) == TunnelName(n);
      TunnelNamesDiffer(n, w.nextID);
    }
  }

  lemma {:induction false} ReopenIssuesNew(w: World, specs: seq<Spec>, envs: nat -> Env)
    requires Inv(w) && NextSaved(w) && forall k :: envs(k).saved
    ensures NextSaved(DoReopen(w, specs, envs)) && OnlyNewIds(w, DoReopen(w, specs, envs))
    decreases specs
  {
    if specs != [] {
      if specs[0].autoRestore {
        OpenKeeps(w, specs[0], envs(|specs|));
        OpenIssuesNew(w, specs[0], envs(|specs|));
        var m := DoOpen(w, specs[0], envs(|specs|)).0;
        ReopenIssuesNew(m, specs[1..], envs);
        var w' := DoReopen(w, specs, envs);
        forall id | id in w'.items && Named(id, w.nextID)
          ensures id in w.items
        {
          NamedLater(id, w.nextID, m.nextID);
        }
      } else {
        ReopenIssuesNew(w, specs[1..], envs);
      }
    }
  }

  lemma IssuesNew(w: World, op: Op)
    requires Inv(w) && NextSaved(w) && Saved(op)
    ensures NextSaved(Apply(w, op)) && OnlyNewIds(w, Apply(w, op))
  {
    match op
    case Open(spec, env) => OpenIssuesNew(w, spec, env);
    case Close(_, _, _) =>
    case Rename(_, _, _) =>
    case Restart(_, _, envs) =>
      var f := Stopped(w, op);
      ReopenIssuesNew(f.(nextID := w.nextID), LoadSpecs(w.file).0, envs);
  }

  // ---- which IDs come back ------------------------------------------------------------------

  // The number the next process will start from, if it is above 1.
  function NextOnFile(w: World): int { LoadSpecs(w.file).1 }

  predicate FileBehind(w: World) { NextOnFile(w) <= w.nextID }

  // The number has been issued, and the file says so; its tunnel is gone.
  predicate Spent(w: World, n: nat) {
    n < NextOnFile(w) && FileBehind(w) && TunnelName(n) !in w.items
  }

  // What one opening does to the numbers, however it goes.
  lemma OpenNumbers(w: World, spec: Spec, env: Env)
    requires Inv(w) && FileBehind(w)
    ensures var (w', r) := DoOpen(w, spec, env);
            && FileBehind(w') && NextOnFile(w) <= NextOnFile(w') && w.nextID <= w'.nextID
            && NextOnFile(w') == (if r.Ok? && env.saved then w'.nextID else NextOnFile(w))
            && (forall id :: id in w'.items ==> id in w.items || (r.Ok? && id == TunnelName(w.nextID)))
            && (r.Ok? ==> w'.nextID == w.nextID + 1 && TunnelName(w.nextID) in w'.items)
  {
  }

  lemma OpenSpends(w: World, spec: Spec, env: Env, n: nat)
    requires Inv(w) && Spent(w, n)
    ensures Spent(DoOpen(w, spec, env).0, n)
  {
    OpenNumbers(w, spec, env);
    hide DoOpen;
    if TunnelName(n) == TunnelName(w.nextID) {
      TunnelNamesDiffer(n, w.nextID);
    }
  }

  lemma {:induction false} ReopenSpends(w: World, specs: seq<Spec>, envs: nat -> Env, n: nat)
    requires Inv(w) && Spent(w, n)
    ensures Spent(DoReopen(w, specs, envs), n)
    decreases specs
  {
    if specs != [] {
      var w' := w;
      if specs[0].autoRestore {
        OpenKeeps(w, specs[0], envs(|specs|));
        OpenSpends(w, specs[0], envs(|specs|), n);
        w' := DoOpen(w, specs[0], envs(|specs|)).0;
      }
      ReopenSpends(w', specs[1..], envs, n);
    }
  }

  // The process that starts after `op`, just before it reopens anything.
  function Begun(w: World, op: Op): World
    requires op.Restart?
  {
    Stopped(w, op).(nextID := if NextOnFile(w) > 1 then NextOnFile(w) else 1)
  }

  lemma RestartSpends(w: World, op: Op, n: nat)
    requires Inv(w) && op.Restart? && n < NextOnFile(w)
    ensures Spent(Apply(w, op), n)
  {
    assert Apply(w, op) == DoReopen(Begun(w, op), LoadSpecs(w.file).0, op.envs);
    ReopenSpends(Begun(w, op), LoadSpecs(w.file).0, op.envs, n);
  }

  lemma SpentStep(w: World, op: Op, n: nat)
    requires Inv(w) && Spent(w, n)
    ensures Spent(Apply(w, op), n)
  {
    match op
    case Open(spec, env) => OpenSpends(w, spec, env, n);
    case Close(_, _, _) =>
    case Rename(oldName, newName, saved) => RenameChangesNames(w, oldName, newName, saved);
    case Restart(_, _, _) => RestartSpends(w, op, n);
  }

  // Once the file says that an ID has been issued, it never comes back when it is
  // gone, over any run, whatever fails: not in this process, not after a stop, not
  // after a crash.
  lemma {:induction false} NoIdComesBack(w: World, ops: seq<Op>, n: nat)
    requires Inv(w) && Spent(w, n)
    ensures TunnelName(n) !in Run(w, ops).items
    decreases ops
  {
    if ops != [] {
      InvStep(w, ops[0]);
      SpentStep(w, ops[0], n);
      NoIdComesBack(Apply(w, ops[0]), ops[1..], n);
    }
  }

  // Some later process, after a restart now, has a tunnel of this number.
  ghost predicate ComesBack(w: World, n: nat)
    requires Inv(w)
  {
    exists restart, ops :: ComesBackBy(w, n, restart, ops)
  }

  ghost predicate ComesBackBy(w: World, n: nat, restart: Op, ops: seq<Op>)
    requires Inv(w)
  {
    restart.Restart? && TunnelName(n) in Run(w, [restart] + ops).items
  }

  // ---- the run that brings one back ------------------------------------------------------------

  function NoPort(k: nat): Option<Port> { None }
  function SomePort(k: nat): Option<Port> { Some(1024) }
  function NoAddress(s: string): bool { false }

  const REFUSING := Env(None, NoAddress, false, NoPort, FailedUntouched, "", false)
  const WORKING := Env(None, NoAddress, true, SomePort, Allowed, "", true)
  const REQUEST := Spec("", "vm", "direct", "loopback", 0, 1, "", false, "", "")

  function AllRefused(k: nat): Env { REFUSING }

  lemma RefusesAll(w: World, spec: Spec)
    requires Keyed(w.items)
    ensures DoOpen(w, spec, REFUSING).0 == w
  {
    forall hosts: seq<string> | hosts != []
      ensures !AllBind(hosts, NoPort)
    {
      assert NoPort(0) == None && |hosts| > 0;
    }
    hide NoPort;
  }

  lemma {:induction false} NothingReopens(w: World, specs: seq<Spec>)
    requires Keyed(w.items)
    ensures DoReopen(w, specs, AllRefused) == w
    decreases specs
  {
    if specs != [] {
      RefusesAll(w, specs[0]);
      NothingReopens(w, specs[1..]);
    }
  }

  function Openings(count: nat): seq<Op> {
    if count == 0 then [] else [Open(REQUEST, WORKING)] + Openings(count - 1)
  }

  lemma OneOpeningIssues(w: World)
    requires Inv(w)
    ensures Keyed(w.items)
    ensures var w' := DoOpen(w, REQUEST, WORKING).0;
            w'.nextID == w.nextID + 1 && TunnelName(w.nextID) in w'.items
  {
    assert AllBind(["127.0.0.1"], SomePort);
  }

  lemma RunFirst(w: World, ops: seq<Op>)
    requires Inv(w) && ops != []
    ensures Inv(Apply(w, ops[0])) && Run(w, ops) == Run(Apply(w, ops[0]), ops[1..])
    ensures Run(w, []) == w
  {
    InvStep(w, ops[0]);
  }

  lemma OpeningsStep(w: World, count: nat)
    requires Inv(w) && count > 0
    ensures var w' := Apply(w, Open(REQUEST, WORKING));
            && Inv(w') && w'.nextID == w.nextID + 1 && TunnelName(w.nextID) in w'.items
            && Run(w, Openings(count)) == Run(w', Openings(count - 1))
            && (count == 1 ==> Run(w', Openings(0)) == w')
  {
    OneOpeningIssues(w);
    RunFirst(w, Openings(count));
    assert Openings(count)[0] == Open(REQUEST, WORKING) && Openings(count)[1..] == Openings(count - 1);
    var w' := Apply(w, Open(REQUEST, WORKING));
    RunFirst(w', Openings(1));
    hide DoOpen, Inv, TunnelName;
  }

  lemma {:induction false} OpeningsIssue(w: World, count: nat)
    requires Inv(w) && count > 0
    ensures TunnelName(w.nextID + count - 1) in Run(w, Openings(count)).items
    decreases count
  {
    hide *;
    OpeningsStep(w, count);
    if count > 1 {
      OpeningsIssue(Apply(w, Open(REQUEST, WORKING)), count - 1);
    }
  }

  lemma BringsBack(w: World, n: nat)
    requires Inv(w) && NextOnFile(w) <= n && n >= 1
    ensures ComesBack(w, n)
  {
    var restart := Restart(true, NoAddress, AllRefused);
    NothingReopens(Begun(w, restart), LoadSpecs(w.file).0);
    var w' := Apply(w, restart);
    assert w' == Begun(w, restart);
    InvStep(w, restart);
    var count := n - w'.nextID + 1;
    OpeningsIssue(w', count);
    var ops := [restart] + Openings(count);
    assert ops[0] == restart && ops[1..] == Openings(count);
    assert ComesBackBy(w, n, restart, Openings(count));
  }

  // An issued ID can come back after a restart now exactly when the file does not
  // say yet that it was issued.
  lemma WhichIdsComeBack(w: World, n: nat)
    requires Inv(w) && FileBehind(w) && 1 <= n < w.nextID
    ensures ComesBack(w, n) <==> NextOnFile(w) <= n
  {
    if NextOnFile(w) <= n {
      BringsBack(w, n);
    } else if ComesBack(w, n) {
      var restart, ops :| ComesBackBy(w, n, restart, ops);
      RestartSpends(w, restart, n);
      InvStep(w, restart);
      assert ([restart] + ops)[1..] == ops;
      NoIdComesBack(Apply(w, restart), ops, n);
    }
  }

  // The operation writes the file, and the write works.
  ghost predicate Writes(w: World, op: Op)
    requires Inv(w)
  {
    match op
    case Open(spec, env) => env.saved && (assert Keyed(w.items); DoOpen(w, spec, env).1.Ok?)
    case Close(id, _, saved) => saved && id in w.items
    case Rename(oldName, _, saved) => saved && exists id :: id in w.items && w.items[id].spec.vmName == oldName
    case Restart(_, _, _) => false
  }

  ghost predicate SomethingWrites(w: World, ops: seq<Op>)
    requires Inv(w)
    decreases ops
  {
    ops != [] && (InvStep(w, ops[0]); Writes(w, ops[0]) || SomethingWrites(Apply(w, ops[0]), ops[1..]))
  }

  lemma WritesNumber(w: World, op: Op)
    requires Inv(w) && FileBehind(w) && !op.Restart?
    ensures var w' := Apply(w, op);
            && FileBehind(w') && w.nextID <= w'.nextID
            && NextOnFile(w') == if Writes(w, op) then w'.nextID else NextOnFile(w)
  {
    match op
    case Open(spec, env) => OpenNumbers(w, spec, env);
    case Close(_, _, _) =>
    case Rename(_, _, _) =>
  }

  lemma {:induction false} NumberWritten(w: World, ops: seq<Op>, n: nat)
    requires Inv(w) && FileBehind(w) && n < w.nextID && forall i :: 0 <= i < |ops| ==> !ops[i].Restart?
    ensures var end := Run(w, ops);
            && Inv(end) && FileBehind(end) && n < end.nextID
            && (n < NextOnFile(end) <==> n < NextOnFile(w) || SomethingWrites(w, ops))
    decreases ops
  {
    if ops != [] {
      InvStep(w, ops[0]);
      WritesNumber(w, ops[0]);
      NumberWritten(Apply(w, ops[0]), ops[1..], n);
    }
  }

  // So after an opening and whatever else one process does, the ID that the opening
  // issued can come back exactly when neither the opening nor anything since has
  // managed to write the file.
  lemma UnsavedIdComesBack(w: World, spec: Spec, env: Env, ops: seq<Op>)
    requires Inv(w) && FileBehind(w) && Keyed(w.items) && DoOpen(w, spec, env).1.Ok?
    requires forall i :: 0 <= i < |ops| ==> !ops[i].Restart?
    ensures var afterOpen := DoOpen(w, spec, env).0;
            && Inv(afterOpen) && Inv(Run(afterOpen, ops))
            && (ComesBack(Run(afterOpen, ops), w.nextID) <==> !env.saved && !SomethingWrites(afterOpen, ops))
  {
    OpenKeeps(w, spec, env);
    OpenNumbers(w, spec, env);
    var afterOpen := DoOpen(w, spec, env).0;
    hide DoOpen;
    NumberWritten(afterOpen, ops, w.nextID);
    WhichIdsComeBack(Run(afterOpen, ops), w.nextID);
  }

  // ---- a crash inside an operation -----------------------------------------------------------

  // What survives a crash after Open has dealt with the firewall, or Close with the
  // tunnel, and before the file is written: the same as after the whole operation
  // with a save that fails. So runs of whole operations cover it.
  lemma CrashInsideAnOperation(w: World, spec: Spec, env: Env, id: string, removes: string -> bool)
    requires Inv(w) && Keyed(w.items)
    ensures var (afterOpen, r) := DoOpen(w, spec, env.(saved := false));
            r.Ok? ==> Fresh(afterOpen) == Fresh(w.(rules := AfterAllow(w, Defaulted(spec).value, env)))
    ensures id in w.items ==> Fresh(DoClose(w, id, removes, false)) == Fresh(DoShutdown(w, w.items[id], removes))
  {
  }

  // The rules once Open has asked for its own.
  function AfterAllow(w: World, sp: Spec, env: Env): map<string, Rule>
  {
    var hosts := ResolveBind(sp.bindScope, env);
    if sp.bindScope == "loopback" || hosts.Err? || env.bind(0).None? then w.rules else
    DoAllow(w.rules, RuleName(TunnelName(w.nextID)),
            Rule(SharedPort(sp.hostPort, env.bind), FirewallAddresses(sp.bindScope, hosts.value)), env.firewall)
  }

  // ---- the first process --------------------------------------------------------------------

  // A process with no file yet, over whatever firewall rules there are.
  function FirstWorld(rules: map<string, Rule>): World { World(map[], 1, {}, 0, rules, None) }

  lemma RunsBegin(rules: map<string, Rule>)
    ensures var w := FirstWorld(rules);
            && Inv(w) && NextSaved(w) && FileBehind(w) && Keyed(w.items)
            && ((forall n: nat :: n >= 1 ==> RuleName(TunnelName(n)) !in rules) ==> NamesFree(w))
            && Foreign(w) == rules
  {
    var w := FirstWorld(rules);
    assert RulesOf(w.items, w.items.Keys) == {};
    assert rules - {} == rules;
  }

  // ---- firewall rules -------------------------------------------------------------------------

  // Every firewall call works and the process is not killed.
  ghost predicate Orderly(op: Op) {
    match op
    case Open(_, env) => env.firewall.Allowed?
    case Close(_, removes, _) => forall r :: removes(r)
    case Rename(_, _, _) => true
    case Restart(crash, removes, envs) => !crash && (forall r :: removes(r)) && forall k :: envs(k).firewall.Allowed?
  }

  // The rules that are not the registered tunnels'.
  function Foreign(w: World): map<string, Rule> { w.rules - RulesOf(w.items, w.items.Keys) }

  ghost predicate NamesFree(w: World) {
    forall n: nat :: n >= w.nextID ==> RuleName(TunnelName(n)) !in w.rules
  }

  function OwnRule(t: Tunnel): set<string> { if t.fwRule != "" then {t.fwRule} else {} }

  lemma RulesOneMore(items: map<string, Tunnel>, id: string, t: Tunnel)
    requires id !in items
    ensures RulesOf(items[id := t], items[id := t].Keys) == RulesOf(items, items.Keys) + OwnRule(t)
  {
    var items' := items[id := t];
    forall r | r in RulesOf(items, items.Keys) + OwnRule(t)
      ensures r in RulesOf(items', items'.Keys)
    {
      if r in RulesOf(items, items.Keys) {
        var a :| a in items && items[a].fwRule != "" && items[a].fwRule == r;
        assert items'[a] == items[a];
      } else {
        assert items'[id].fwRule == r;
      }
    }
  }

  lemma NamesStayFree(w: World, rules: map<string, Rule>)
    requires NamesFree(w) && rules.Keys <= w.rules.Keys + {RuleName(TunnelName(w.nextID))}
    ensures forall n: nat :: n >= w.nextID + 1 ==> RuleName(TunnelName(n)) !in rules
  {
    forall n: nat | n >= w.nextID + 1
      ensures RuleName(TunnelName(n)) !in rules
    {
      if RuleName(TunnelName(n)) == RuleName(TunnelName(w.nextID)) {
        RuleNamesDiffer(TunnelName(n), TunnelName(w.nextID));
        TunnelNamesDiffer(n, w.nextID);
      }
    }
  }

  // Registering touches no rule but the new tunnel's.
  lemma RegisterChanges(w: World, spec: Spec, hosts: seq<string>, port: int, env: Env)
    requires Keyed(w.items)
    ensures var w', id := DoRegister(w, spec, hosts, port, env), TunnelName(w.nextID);
            && w'.nextID == w.nextID + 1 && id in w'.items && w'.items == w.items[id := w'.items[id]]
            && w'.rules.Keys <= w.rules.Keys + {RuleName(id)} && OwnRule(w'.items[id]) <= {RuleName(id)}
            && (forall r :: r in w.rules && r != RuleName(id) ==> r in w'.rules && w'.rules[r] == w.rules[r])
  {
  }

  lemma RegisterForeign(w: World, spec: Spec, hosts: seq<string>, port: int, env: Env)
    requires Inv(w) && NamesFree(w) && env.firewall.Allowed?
    ensures Foreign(DoRegister(w, spec, hosts, port, env)) == Foreign(w)
    ensures NamesFree(DoRegister(w, spec, hosts, port, env))
  {
    var w' := DoRegister(w, spec, hosts, port, env);
    var id := TunnelName(w.nextID);
    var t := w'.items[id];
    FreshNameIsNew(w);
    RulesOneMore(w.items, id, t);
    NamesStayFree(w, w'.rules);
    assert RuleName(id) !in w.rules;
    assert w'.rules - OwnRule(t) == w.rules;
  }

  lemma OpenForeign(w: World, spec: Spec, env: Env)
    requires Inv(w) && NamesFree(w) && env.firewall.Allowed?
    ensures Foreign(DoOpen(w, spec, env).0) == Foreign(w) && NamesFree(DoOpen(w, spec, env).0)
  {
    if DoOpen(w, spec, env).1.Ok? {
      var sp := Defaulted(spec).value;
      RegisterForeign(w, sp, ResolveBind(sp.bindScope, env).value, SharedPort(sp.hostPort, env.bind), env);
    }
  }

  lemma {:induction false} ReopenForeign(w: World, specs: seq<Spec>, envs: nat -> Env)
    requires Inv(w) && NamesFree(w) && forall k :: envs(k).firewall.Allowed?
    ensures Foreign(DoReopen(w, specs, envs)) == Foreign(w) && NamesFree(DoReopen(w, specs, envs))
    decreases specs
  {
    if specs != [] {
      if specs[0].autoRestore {
        OpenKeeps(w, specs[0], envs(|specs|));
        OpenForeign(w, specs[0], envs(|specs|));
        ReopenForeign(DoOpen(w, specs[0], envs(|specs|)).0, specs[1..], envs);
      } else {
        ReopenForeign(w, specs[1..], envs);
      }
    }
  }

  lemma CloseChanges(w: World, id: string, removes: string -> bool, saved: bool)
    requires Keyed(w.items) && id in w.items
    ensures var w', own := DoClose(w, id, removes, saved), OwnRule(w.items[id]);
            && w'.items == w.items - {id} && w'.nextID == w.nextID
            && (w'.rules == w.rules || w'.rules == w.rules - own)
            && ((forall r :: removes(r)) ==> w'.rules == w.rules - own)
  {
    assert w.rules - {} == w.rules;
  }

  lemma RulesOneLess(items: map<string, Tunnel>, id: string)
    requires id in items
    ensures RulesOf(items, items.Keys) == RulesOf(items - {id}, (items - {id}).Keys) + OwnRule(items[id])
  {
    RulesOneMore(items - {id}, id, items[id]);
    assert (items - {id})[id := items[id]] == items;
  }

  lemma TakenAwayTwice(rules: map<string, Rule>, a: set<string>, b: set<string>)
    ensures rules - a - b == rules - (b + a)
  {
  }

  lemma CloseForeign(w: World, id: string, removes: string -> bool, saved: bool)
    requires Inv(w) && NamesFree(w) && forall r :: removes(r)
    ensures Foreign(DoClose(w, id, removes, saved)) == Foreign(w) && NamesFree(DoClose(w, id, removes, saved))
  {
    if id in w.items {
      CloseChanges(w, id, removes, saved);
      RulesOneLess(w.items, id);
      hide DoClose, RulesOf, OwnRule;
      TakenAwayTwice(w.rules, OwnRule(w.items[id]), RulesOf(w.items - {id}, (w.items - {id}).Keys));
    }
  }

  // ---- whatever fails ---------------------------------------------------------------------------

  // A rule in force that is not a registered tunnel's, and will not be taken for a new
  // one's: it has no name that may yet be issued.
  ghost predicate Apart(w: World, r: string) {
    && r in Foreign(w) && FileBehind(w)
    && forall n: nat :: n >= NextOnFile(w) ==> RuleName(TunnelName(n)) != r
  }

  ghost predicate Untouched(w: World, w': World, r: string) {
    r in w.rules && Apart(w', r) && w'.rules[r] == w.rules[r]
  }

  lemma RegisterLeaves(w: World, spec: Spec, hosts: seq<string>, port: int, env: Env, r: string)
    requires Inv(w) && Apart(w, r)
    ensures Untouched(w, DoRegister(w, spec, hosts, port, env), r)
  {
    var w' := DoRegister(w, spec, hosts, port, env);
    var id := TunnelName(w.nextID);
    FreshNameIsNew(w);
    RegisterChanges(w, spec, hosts, port, env);
    RulesOneMore(w.items, id, w'.items[id]);
    assert NextOnFile(w') == if env.saved then w'.nextID else NextOnFile(w);
    hide DoRegister, RulesOf, RuleName, TunnelName;
    assert RuleName(id) != r;
  }

  lemma OpenLeaves(w: World, spec: Spec, env: Env, r: string)
    requires Inv(w) && Apart(w, r)
    ensures Untouched(w, DoOpen(w, spec, env).0, r)
  {
    if DoOpen(w, spec, env).1.Ok? {
      var sp := Defaulted(spec).value;
      RegisterLeaves(w, sp, ResolveBind(sp.bindScope, env).value, SharedPort(sp.hostPort, env.bind), env, r);
    }
  }

  lemma {:induction false} ReopenLeaves(w: World, specs: seq<Spec>, envs: nat -> Env, r: string)
    requires Inv(w) && Apart(w, r)
    ensures Untouched(w, DoReopen(w, specs, envs), r)
    decreases specs
  {
    if specs != [] {
      var w' := w;
      if specs[0].autoRestore {
        OpenKeeps(w, specs[0], envs(|specs|));
        OpenLeaves(w, specs[0], envs(|specs|), r);
        w' := DoOpen(w, specs[0], envs(|specs|)).0;
      }
      hide DoOpen;
      ReopenLeaves(w', specs[1..], envs, r);
    }
  }

  lemma CloseLeaves(w: World, id: string, removes: string -> bool, saved: bool, r: string)
    requires Inv(w) && Apart(w, r)
    ensures Untouched(w, DoClose(w, id, removes, saved), r)
  {
    WritesNumber(w, Close(id, removes, saved));
    if id in w.items {
      CloseChanges(w, id, removes, saved);
      RulesOneLess(w.items, id);
      hide DoClose, RulesOf;
    }
  }

  lemma SameRules(items: map<string, Tunnel>, items': map<string, Tunnel>)
    requires items'.Keys == items.Keys && forall id :: id in items ==> items'[id].fwRule == items[id].fwRule
    ensures RulesOf(items', items'.Keys) == RulesOf(items, items.Keys)
  {
  }

  lemma RenameKeepsForeign(w: World, oldName: string, newName: string, saved: bool)
    requires Inv(w)
    ensures Foreign(DoRename(w, oldName, newName, saved)) == Foreign(w)
    ensures NamesFree(w) ==> NamesFree(DoRename(w, oldName, newName, saved))
  {
    RenameChangesNames(w, oldName, newName, saved);
    hide DoRename, RulesOf;
    SameRules(w.items, DoRename(w, oldName, newName, saved).items);
  }

  lemma RenameLeaves(w: World, oldName: string, newName: string, saved: bool, r: string)
    requires Inv(w) && Apart(w, r)
    ensures Untouched(w, DoRename(w, oldName, newName, saved), r)
  {
    WritesNumber(w, Rename(oldName, newName, saved));
    RenameChangesNames(w, oldName, newName, saved);
    RenameKeepsForeign(w, oldName, newName, saved);
    hide DoRename, RulesOf;
  }

  lemma RestartLeaves(w: World, op: Op, r: string)
    requires Inv(w) && Apart(w, r) && op.Restart?
    ensures Untouched(w, Apply(w, op), r)
  {
    var f := Begun(w, op);
    assert RulesOf(f.items, f.items.Keys) == {};
    assert Untouched(w, f, r);
    assert Apply(w, op) == DoReopen(f, LoadSpecs(w.file).0, op.envs);
    hide Begun, Apply, DoReopen, RulesOf;
    ReopenLeaves(f, LoadSpecs(w.file).0, op.envs, r);
  }

  // Whatever fails or crashes: an operation leaves such a rule in force, unchanged and
  // nobody's.
  lemma ForeignStep(w: World, op: Op, r: string)
    requires Inv(w) && Apart(w, r)
    ensures Untouched(w, Apply(w, op), r)
  {
    match op
    case Open(spec, env) => OpenLeaves(w, spec, env, r);
    case Close(id, removes, saved) => CloseLeaves(w, id, removes, saved, r);
    case Rename(oldName, newName, saved) => RenameLeaves(w, oldName, newName, saved, r);
    case Restart(_, _, _) => RestartLeaves(w, op, r);
  }

  lemma {:induction false} ForeignRulesStay(w: World, ops: seq<Op>, r: string)
    requires Inv(w) && Apart(w, r)
    ensures Untouched(w, Run(w, ops), r)
    decreases ops
  {
    if ops != [] {
      InvStep(w, ops[0]);
      ForeignStep(w, ops[0], r);
      ForeignRulesStay(Apply(w, ops[0]), ops[1..], r);
    }
  }

  // ---- when every firewall call works -----------------------------------------------------------

  lemma StopTakesOwnRules(w: World, op: Op)
    requires Inv(w) && NextSaved(w) && NamesFree(w) && op.Restart? && Orderly(op)
    ensures var f := Stopped(w, op).(nextID := w.nextID);
            && Inv(f) && NamesFree(f) && Foreign(f) == Foreign(w)
            && Apply(w, op) == DoReopen(f, LoadSpecs(w.file).0, op.envs)
  {
    var own := RulesOf(w.items, w.items.Keys);
    assert Removable(own, op.removes) == own;
    var f := Stopped(w, op).(nextID := w.nextID);
    assert RulesOf(f.items, f.items.Keys) == {};
  }

  lemma OrderlyStep(w: World, op: Op)
    requires Inv(w) && NextSaved(w) && Saved(op) && Orderly(op) && NamesFree(w)
    ensures Foreign(Apply(w, op)) == Foreign(w) && NamesFree(Apply(w, op))
  {
    match op
    case Open(spec, env) => OpenForeign(w, spec, env);
    case Close(id, removes, saved) => CloseForeign(w, id, removes, saved);
    case Rename(oldName, newName, saved) => RenameKeepsForeign(w, oldName, newName, saved);
    case Restart(_, removes, envs) =>
      StopTakesOwnRules(w, op);
      hide Stopped, DoReopen, RulesOf;
      ReopenForeign(Stopped(w, op).(nextID := w.nextID), LoadSpecs(w.file).0, envs);
  }

  // Over any orderly run, rules that are not a registered tunnel's are never
  // touched; so once CloseAll has run no socket is open and the firewall is back
  // to what it was at the start.
  lemma {:induction false} NothingLeftBehind(w: World, ops: seq<Op>, removes: string -> bool)
    requires Inv(w) && NextSaved(w) && NamesFree(w)
    requires forall op :: op in ops ==> Saved(op) && Orderly(op)
    requires forall r :: removes(r)
    ensures var end := DoCloseAll(Run(w, ops), removes);
            end.items == map[] && end.bound == {} && end.rules == Foreign(w)
    decreases ops
  {
    if ops == [] {
      var own := RulesOf(w.items, w.items.Keys);
      assert Removable(own, removes) == own;
    } else {
      InvStep(w, ops[0]);
      IssuesNew(w, ops[0]);
      OrderlyStep(w, ops[0]);
      NothingLeftBehind(Apply(w, ops[0]), ops[1..], removes);
    }
  }
}
