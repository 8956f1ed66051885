/** The tunnel manager (internal/tunnel/manager.go) with the operating system
    state it owns: listening sockets, firewall rules and the saved file. */
module Tunnels {
  import opened Wrappers
  import opened Text
  import opened Ordering

  type Port = p: int | 1 <= p <= 65535 witness 1

  // The part of a tunnel that is written down.
  datatype Spec = Spec(id: string, vmName: string, mode: string, bindScope: string, hostPort: int,
                       guestPort: int, guestHost: string, autoRestore: bool, tag: string, created: string)

  datatype Listener = Listener(handle: nat, host: string, port: int)

  // An empty address list opens the port on every local address.
  datatype Rule = Rule(port: int, addresses: seq<string>)

  // A registered tunnel. `fwRule` is empty when it has no firewall rule.
  datatype Tunnel = Tunnel(spec: Spec, listeners: seq<Listener>, fwRule: string, warned: bool)

  datatype TunnelFile = TunnelFile(nextID: int, tunnels: seq<Spec>)

  datatype Error = InvalidArgument | TailscaleError | TailscaleNotRunning | SshFailed | PortInUse | TunnelNotFound

  // netfw's Allow, which removes a rule of the same name and then makes its own:
  // it works, or it fails having done nothing, only the removal, or all of it.
  datatype FwOutcome = Allowed | FailedUntouched | FailedRemoved | FailedMade

  // What one call of Open meets outside: Tailscale's answer, whether the guest
  // answers over SSH, the outcome of each bind in turn (with the port the system
  // would choose), the firewall, the clock, and whether the file can be written.
  datatype Env = Env(tailnet: Option<seq<string>>, isAddress: string -> bool, sshUp: bool, bind: nat -> Option<Port>,
                     firewall: FwOutcome, now: string, saved: bool)

  datatype World = World(items: map<string, Tunnel>, nextID: nat,
                         bound: set<Listener>, handles: nat, rules: map<string, Rule>, file: Option<TunnelFile>)

  // ---- names -----------------------------------------------------------------------

  const RESOURCE_PREFIX := "hypervm-mcp"

  function TunnelName(n: nat): string { "tnl-" + Decimal(n) }

  function RuleName(id: string): string { RESOURCE_PREFIX + "-" + id }

  lemma TunnelNamesDiffer(m: nat, n: nat)
    requires TunnelName(m) == TunnelName(n)
    ensures m == n
  {
    assert TunnelName(m)[4..] == Decimal(m) && TunnelName(n)[4..] == Decimal(n);
    DecimalInjective(m, n);
  }

  lemma RuleNamesDiffer(a: string, b: string)
    requires RuleName(a) == RuleName(b)
    ensures a == b
  {
    var n := |RESOURCE_PREFIX| + 1;
    assert RuleName(a)[n..] == a && RuleName(b)[n..] == b;
  }

  // ---- the saved list, in ID order ----------------------------------------------------

  ghost predicate DistinctIds(s: set<Spec>) {
    forall x, y :: x in s && y in s && x.id == y.id ==> x == y
  }

  predicate ById(x: Spec, y: Spec) { Less(x.id, y.id) }

  lemma IdsOrder(s: set<Spec>)
    requires DistinctIds(s)
    ensures Orders(ById, s)
  {
    forall x, y | x in s && y in s
      ensures x == y || ById(x, y) || ById(y, x)
      ensures ById(x, y) ==> !ById(y, x)
    {
      LessIsTotal(x.id, y.id);
      if ById(x, y) {
        LessIsAsymmetric(x.id, y.id);
      }
    }
    forall x, y, z | x in s && y in s && z in s && ById(x, y) && ById(y, z)
      ensures ById(x, z)
    {
      LessIsStrict(x.id, y.id, z.id);
    }
  }

  ghost function InIdOrder(s: set<Spec>): seq<Spec>
    requires DistinctIds(s)
  {
    IdsOrder(s);
    Sorted(ById, s)
  }

  // ---- what each operation does ---------------------------------------------------------

  ghost predicate Keyed(items: map<string, Tunnel>) {
    forall id :: id in items ==> items[id].spec.id == id
  }

  ghost function AutoSpecs(items: map<string, Tunnel>): set<Spec> {
    set id | id in items && items[id].spec.autoRestore :: items[id].spec
  }

  // The file persist writes.
  ghost function Snapshot(items: map<string, Tunnel>, nextID: nat): TunnelFile
    requires Keyed(items)
  {
    TunnelFile(nextID, InIdOrder(AutoSpecs(items)))
  }

  ghost function Persisted(w: World, saved: bool): World
    requires Keyed(w.items)
  {
    if saved then w.(file := Some(Snapshot(w.items, w.nextID))) else w
  }

  function Defaulted(spec: Spec): Result<Spec, Error> {
    if spec.vmName == "" || !(1 <= spec.guestPort <= 65535) || !(0 <= spec.hostPort <= 65535)
       || spec.mode !in {"", "direct", "ssh"}
    then Err(InvalidArgument)
    else Ok(spec.(mode := if spec.mode == "" then "direct" else spec.mode,
                  bindScope := if spec.bindScope == "" then "loopback" else spec.bindScope))
  }

  function ResolveBind(scope: string, env: Env): (r: Result<seq<string>, Error>)
    ensures r.Ok? ==> r.value != []
  {
    if scope == "loopback" then Ok(["127.0.0.1"])
    else if scope == "all" then Ok([""])
    else if scope == "tailnet" then
      if env.tailnet.None? then Err(TailscaleError)
      else if env.tailnet.value == [] then Err(TailscaleNotRunning)
      else Ok(env.tailnet.value)
    else if env.isAddress(scope) then Ok([scope]) else Err(InvalidArgument)
  }

  ghost predicate AllBind(hosts: seq<string>, bind: nat -> Option<Port>) {
    forall i :: 0 <= i < |hosts| ==> bind(i).Some?
  }

  // With port 0 the first bind's choice is everyone's port.
  function SharedPort(port: int, bind: nat -> Option<Port>): int
    requires bind(0).Some?
  {
    if port == 0 then bind(0).value else port
  }

  function Listeners(hosts: seq<string>, port: int, handle: nat): seq<Listener> {
    seq(|hosts|, i requires 0 <= i < |hosts| => Listener(handle + i, hosts[i], port))
  }

  function SetOf(s: seq<Listener>): set<Listener> { set l | l in s }

  function FirewallAddresses(scope: string, hosts: seq<string>): seq<string> {
    if scope == "all" then [] else hosts
  }

  function DoAllow(rules: map<string, Rule>, name: string, rule: Rule, outcome: FwOutcome): map<string, Rule> {
    match outcome
    case Allowed => rules[name := rule]
    case FailedUntouched => rules
    case FailedRemoved => rules - {name}
    case FailedMade => rules[name := rule]
  }

  // Registering a tunnel whose listeners are open.
  ghost function DoRegister(w: World, spec: Spec, hosts: seq<string>, port: int, env: Env): World
    requires Keyed(w.items)
    ensures Keyed(DoRegister(w, spec, hosts, port, env).items)
  {
    var id := TunnelName(w.nextID);
    var listeners := Listeners(hosts, port, w.handles);
    var open := spec.bindScope != "loopback";
    var rule := Rule(port, FirewallAddresses(spec.bindScope, hosts));
    var t := Tunnel(spec.(id := id, hostPort := port, created := env.now), listeners,
                    if open && env.firewall.Allowed? then RuleName(id) else "", open && !env.firewall.Allowed?);
    Persisted(World(w.items[id := t], w.nextID + 1, w.bound + SetOf(listeners), w.handles + |hosts|,
                    if open then DoAllow(w.rules, RuleName(id), rule, env.firewall) else w.rules, w.file), env.saved)
  }

  ghost function DoOpen(w: World, spec: Spec, env: Env): (World, Result<string, Error>)
    requires Keyed(w.items)
    ensures Keyed(DoOpen(w, spec, env).0.items)
  {
    var checked := Defaulted(spec);
    if checked.Err? then (w, Err(checked.error)) else
    var sp := checked.value;
    var hosts := ResolveBind(sp.bindScope, env);
    if hosts.Err? then (w, Err(hosts.error))
    else if sp.mode == "ssh" && !env.sshUp then (w, Err(SshFailed))
    else if !AllBind(hosts.value, env.bind) then (w, Err(PortInUse))
    else (DoRegister(w, sp, hosts.value, SharedPort(sp.hostPort, env.bind), env), Ok(TunnelName(w.nextID)))
  }

  function DoShutdown(w: World, t: Tunnel, removes: string -> bool): World {
    w.(bound := w.bound - SetOf(t.listeners),
       rules := if t.fwRule != "" && removes(t.fwRule) then w.rules - {t.fwRule} else w.rules)
  }

  ghost function DoClose(w: World, id: string, removes: string -> bool, saved: bool): World
    requires Keyed(w.items)
    ensures Keyed(DoClose(w, id, removes, saved).items)
  {
    if id !in w.items then w
    else Persisted(DoShutdown(w.(items := w.items - {id}), w.items[id], removes), saved)
  }

  function ListenersOf(items: map<string, Tunnel>, ids: set<string>): set<Listener> {
    set id, l | id in ids && id in items && l in items[id].listeners :: l
  }

  function RulesOf(items: map<string, Tunnel>, ids: set<string>): set<string> {
    set id | id in ids && id in items && items[id].fwRule != "" :: items[id].fwRule
  }

  function Removable(names: set<string>, removes: string -> bool): set<string> {
    set r | r in names && removes(r)
  }

  // The tunnels `ids` of `items` shut down, one after another.
  function Closed(w: World, items: map<string, Tunnel>, ids: set<string>, removes: string -> bool): World {
    w.(bound := w.bound - ListenersOf(items, ids), rules := w.rules - Removable(RulesOf(items, ids), removes))
  }

  lemma OneMoreClosed(w: World, items: map<string, Tunnel>, ids: set<string>, id: string, removes: string -> bool)
    requires id in items
    ensures Closed(w, items, ids + {id}, removes) == DoShutdown(Closed(w, items, ids, removes), items[id], removes)
  {
    assert ListenersOf(items, ids + {id}) == ListenersOf(items, ids) + SetOf(items[id].listeners);
    var own := if items[id].fwRule != "" then {items[id].fwRule} else {};
    assert RulesOf(items, ids + {id}) == RulesOf(items, ids) + own;
    assert Removable(RulesOf(items, ids + {id}), removes) ==
           Removable(RulesOf(items, ids), removes) + Removable(own, removes);
  }

  function DoCloseAll(w: World, removes: string -> bool): World {
    Closed(w.(items := map[]), w.items, w.items.Keys, removes)
  }

  function Repointed(t: Tunnel, oldName: string, newName: string): Tunnel {
    if t.spec.vmName == oldName then t.(spec := t.spec.(vmName := newName)) else t
  }

  ghost function DoRename(w: World, oldName: string, newName: string, saved: bool): World
    requires Keyed(w.items)
    ensures Keyed(DoRename(w, oldName, newName, saved).items)
  {
    if exists id :: id in w.items && w.items[id].spec.vmName == oldName
    then Persisted(w.(items := map id | id in w.items :: Repointed(w.items[id], oldName, newName)), saved)
    else w
  }

  // What is read back from the file: nothing saved yet means no tunnels and ID 1.
  function LoadSpecs(file: Option<TunnelFile>): (seq<Spec>, int) {
    if file.None? then ([], 1) else (file.value.tunnels, file.value.nextID)
  }

  ghost function DoReopen(w: World, specs: seq<Spec>, envs: nat -> Env): World
    requires Keyed(w.items)
    ensures Keyed(DoReopen(w, specs, envs).items)
    decreases specs
  {
    if specs == [] then w else
    var w' := if specs[0].autoRestore then DoOpen(w, specs[0], envs(|specs|)).0 else w;
    DoReopen(w', specs[1..], envs)
  }

  // Restore: `envs(k)` is what the opening with k specs still to do meets.
  ghost function DoRestore(w: World, envs: nat -> Env): World
    requires Keyed(w.items)
    ensures Keyed(DoRestore(w, envs).items)
  {
    var (specs, next) := LoadSpecs(w.file);
    DoReopen(w.(nextID := if next > w.nextID then next else w.nextID), specs, envs)
  }

  // ---- the manager --------------------------------------------------------------------------

  class Manager {
    var items: map<string, Tunnel>
    var nextID: nat
    // the operating system's side
    var bound: set<Listener>
    var handles: nat
    var rules: map<string, Rule>
    var file: Option<TunnelFile>

    ghost function View(): World
      reads this
    {
      World(items, nextID, bound, handles, rules, file)
    }

    // A manager in a new process, over what the last one left behind.
    constructor (rules: map<string, Rule>, file: Option<TunnelFile>)
      ensures View() == World(map[], 1, {}, 0, rules, file)
    {
      this.items := map[];
      this.nextID := 1;
      this.bound := {};
      this.handles := 0;
      this.rules := rules;
      this.file := file;
    }

    // Items are filed under their own ID, and an open socket's handle is taken.
    ghost predicate Valid()
      reads this
    {
      Keyed(items) && forall l :: l in bound ==> l.handle < handles
    }

    // listen: binds every host or none.
    method Listen(hosts: seq<string>, requested: int, bind: nat -> Option<Port>)
      returns (r: Result<(seq<Listener>, int), Error>)
      requires Valid() && hosts != []
      modifies this`bound, this`handles
      ensures Valid()
      ensures r.Ok? <==> AllBind(hosts, bind)
      ensures r.Err? ==> r == Err(PortInUse) && bound == old(bound) && handles == old(handles)
      ensures r.Ok? ==>
                && r.value == (Listeners(hosts, SharedPort(requested, bind), old(handles)), SharedPort(requested, bind))
                && bound == old(bound) + SetOf(r.value.0)
                && handles == old(handles) + |hosts|
    {
      var port := requested;
      var listeners: seq<Listener> := [];
      for k := 0 to |hosts|
        invariant handles == old(handles)
        invariant forall i :: 0 <= i < k ==> bind(i).Some?
        invariant port == if k == 0 then requested else SharedPort(requested, bind)
        invariant listeners == Listeners(hosts[..k], port, handles)
        invariant bound == old(bound) + SetOf(listeners)
      {
        var outcome := bind(k);
        if outcome.None? {
          Rollback(listeners);
          assert SetOf(listeners) !! old(bound);
          return Err(PortInUse);
        }
        if port == 0 {
          port := outcome.value;
        }
        var ln := Listener(handles + k, hosts[k], port);
        bound := bound + {ln};
        listeners := listeners + [ln];
      }
      assert hosts[..|hosts|] == hosts;
      handles := handles + |hosts|;
      r := Ok((listeners, port));
    }

    method Rollback(listeners: seq<Listener>)
      modifies this`bound
      ensures bound == old(bound) - SetOf(listeners)
    {
      for k := 0 to |listeners|
        invariant bound == old(bound) - SetOf(listeners[..k])
      {
        bound := bound - {listeners[k]};
        assert listeners[..k + 1] == listeners[..k] + [listeners[k]];
      }
      assert listeners[..|listeners|] == listeners;
    }

    // persist: the auto-restore specs in ID order, and the next ID.
    method Persist(saved: bool)
      requires Valid()
      modifies this`file
      ensures View() == Persisted(old(View()), saved)
    {
      ghost var w := View();
      var specs: seq<Spec> := [];
      var todo := items.Keys;
      ghost var done: set<Spec> := {};
      while todo != {}
        invariant todo <= items.Keys && done <= AutoSpecs(items)
        invariant forall id :: id in items && items[id].spec.autoRestore ==> (items[id].spec in done <==> id !in todo)
        invariant forall x :: x in done ==> x.id in items
        invariant specs == InIdOrder(done) && View() == w
        decreases |todo|
      {
        var id :| id in todo;
        todo := todo - {id};
        var spec := items[id].spec;
        if spec.autoRestore {
          IdsOrder(done + {spec});
          SortedInsert(ById, spec, done);
          specs := Insert(ById, spec, specs);
          done := done + {spec};
        }
      }
      assert done == AutoSpecs(items);
      if saved {
        file := Some(TunnelFile(nextID, specs));
        assert file == Some(Snapshot(w.items, w.nextID));
      }
      assert View() == Persisted(w, saved);
    }

    method Open(request: Spec, env: Env) returns (r: Result<string, Error>)
      requires Valid()
      modifies this
      ensures Valid()
      ensures (View(), r) == DoOpen(old(View()), request, env)
    {
      ghost var w := View();
      var spec := request;
      if spec.vmName == "" {
        return Err(InvalidArgument);
      }
      if spec.guestPort < 1 || spec.guestPort > 65535 {
        return Err(InvalidArgument);
      }
      if spec.hostPort < 0 || spec.hostPort > 65535 {
        return Err(InvalidArgument);
      }
      if spec.mode == "" || spec.mode == "direct" {
        spec := spec.(mode := "direct");
      } else if spec.mode != "ssh" {
        return Err(InvalidArgument);
      }
      if spec.bindScope == "" {
        spec := spec.(bindScope := "loopback");
      }
      assert Defaulted(request) == Ok(spec);
      var hosts := ResolveBind(spec.bindScope, env);
      if hosts.Err? {
        return Err(hosts.error);
      }
      if spec.mode == "ssh" && !env.sshUp {
        return Err(SshFailed);
      }
      var listening := Listen(hosts.value, spec.hostPort, env.bind);
      if listening.Err? {
        return Err(listening.error);
      }
      var (listeners, port) := listening.value;
      r := Ok(TunnelName(nextID));
      Register(w, spec, hosts.value, listeners, port, env);
    }

    // The rest of Open, once the listeners are there.
    method Register(ghost w: World, spec: Spec, hosts: seq<string>, listeners: seq<Listener>, port: int, env: Env)
      requires Valid() && listeners == Listeners(hosts, port, w.handles)
      requires View() == w.(bound := w.bound + SetOf(listeners), handles := w.handles + |hosts|)
      modifies this`items, this`nextID, this`rules, this`file
      ensures Valid()
      ensures View() == DoRegister(w, spec, hosts, port, env)
    {
      hide TunnelName, RuleName, DoAllow, Snapshot, Listeners, SetOf, FirewallAddresses;
      var id := TunnelName(nextID);
      nextID := nextID + 1;
      var t := Tunnel(spec.(id := id, hostPort := port, created := env.now), listeners, "", false);
      if spec.bindScope != "loopback" {
        var rule := RuleName(id);
        rules := DoAllow(rules, rule, Rule(port, FirewallAddresses(spec.bindScope, hosts)), env.firewall);
        if env.firewall.Allowed? {
          t := t.(fwRule := rule);
        } else {
          t := t.(warned := true);
        }
      }
      items := items[id := t];
      Persist(env.saved);
    }

    // Closes a tunnel's sockets and removes its rule.
    method Shutdown(t: Tunnel, removes: string -> bool)
      modifies this`bound, this`rules
      ensures View() == DoShutdown(old(View()), t, removes)
    {
      Rollback(t.listeners);
      if t.fwRule != "" && removes(t.fwRule) {
        rules := rules - {t.fwRule};
      }
    }

    method Close(id: string, removes: string -> bool, saved: bool) returns (r: Result<(), Error>)
      requires Valid()
      modifies this
      ensures Valid()
      ensures View() == DoClose(old(View()), id, removes, saved)
      ensures r == if id in old(items) then Ok(()) else Err(TunnelNotFound)
    {
      if id !in items {
        return Err(TunnelNotFound);
      }
      var t := items[id];
      items := items - {id};
      Shutdown(t, removes);
      Persist(saved);
      r := Ok(());
    }

    method CloseAll(removes: string -> bool)
      requires Valid()
      modifies this
      ensures Valid()
      ensures View() == DoCloseAll(old(View()), removes)
    {
      var all := items;
      items := map[];
      ghost var w := View();
      var todo := all.Keys;
      ghost var done: set<string> := {};
      while todo != {}
        invariant todo <= all.Keys && done == all.Keys - todo
        invariant View() == Closed(w, all, done, removes)
        decreases |todo|
      {
        var id :| id in todo;
        todo := todo - {id};
        OneMoreClosed(w, all, done, id, removes);
        ghost var before := View();
        Shutdown(all[id], removes);
        assert View() == DoShutdown(before, all[id], removes);
        done := done + {id};
      }
      assert done == all.Keys;
    }

    // RenameVM: reports the tunnels it moved.
    method RenameVM(oldName: string, newName: string, saved: bool) returns (moved: set<string>)
      requires Valid()
      modifies this
      ensures Valid()
      ensures View() == DoRename(old(View()), oldName, newName, saved)
      ensures moved == set id | id in old(items) && old(items)[id].spec.vmName == oldName
    {
      ghost var w := View();
      moved := Repoint(oldName, newName);
      if moved != {} {
        var id :| id in moved;
        assert id in w.items && w.items[id].spec.vmName == oldName;
        Persist(saved);
      } else {
        assert forall id :: id in w.items ==> id !in moved;
        assert items == w.items;
      }
    }

    method Repoint(oldName: string, newName: string) returns (moved: set<string>)
      requires Valid()
      modifies this`items
      ensures Valid()
      ensures items == map id | id in old(items) :: Repointed(old(items)[id], oldName, newName)
      ensures moved == set id | id in old(items) && old(items)[id].spec.vmName == oldName
    {
      moved := {};
      var todo := items.Keys;
      while todo != {}
        invariant todo <= items.Keys && items.Keys == old(items).Keys
        invariant forall id :: id in items ==>
                    items[id] == if id in todo then old(items)[id] else Repointed(old(items)[id], oldName, newName)
        invariant forall id :: id in moved <==>
                    id in old(items) && id !in todo && old(items)[id].spec.vmName == oldName
        decreases |todo|
      {
        var id :| id in todo;
        todo := todo - {id};
        if items[id].spec.vmName == oldName {
          items := items[id := items[id].(spec := items[id].spec.(vmName := newName))];
          moved := moved + {id};
        }
      }
    }

    // Restore: reopens what the file lists, skipping what fails.
    method Restore(envs: nat -> Env)
      requires Valid()
      modifies this
      ensures Valid()
      ensures View() == DoRestore(old(View()), envs)
    {
      var (specs, next) := LoadSpecs(file);
      if next > nextID {
        nextID := next;
      }
      ghost var start := View();
      for k := 0 to |specs|
        invariant Valid()
        invariant DoReopen(View(), specs[k..], envs) == DoReopen(start, specs, envs)
      {
        assert specs[k..][1..] == specs[k + 1..];
        if specs[k].autoRestore {
          var r := Open(specs[k], envs(|specs| - k));
        }
      }
    }
  }
}
