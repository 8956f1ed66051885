/** Tunnels across restarts: what the saved file says, and that stopping and
    starting again conserves the tunnels meant to come back. */
module TunnelRestarts {
  import opened Wrappers
  import opened Ordering
  import opened Tunnels
  import opened TunnelRuns

  // A tunnel apart from the ID and creation time each opening gives it.
  function Essence(spec: Spec): Spec { spec.(id := "", created := "") }

  ghost function Bag(specs: seq<Spec>): (b: multiset<Spec>)
    ensures |b| == |specs|
    decreases specs
  {
    if specs == [] then multiset{} else multiset{Essence(specs[0])} + Bag(specs[1..])
  }

  // The auto-restore tunnels that are up.
  ghost function Running(w: World): multiset<Spec>
    requires Keyed(w.items)
  {
    Bag(InIdOrder(AutoSpecs(w.items)))
  }

  // The file says what is up, and which ID comes next.
  ghost predicate Synced(w: World)
    requires Keyed(w.items)
  {
    LoadSpecs(w.file) == (InIdOrder(AutoSpecs(w.items)), w.nextID)
  }

  // The saved list holds each auto-restore spec once, in increasing ID order.
  lemma SavedListMeans(s: set<Spec>)
    requires DistinctIds(s)
    ensures forall x :: x in InIdOrder(s) <==> x in s
    ensures |InIdOrder(s)| == |s|
    ensures forall i, j :: 0 <= i < j < |InIdOrder(s)| ==> ById(InIdOrder(s)[i], InIdOrder(s)[j])
  {
    IdsOrder(s);
    SortedMeans(ById, s);
  }

  lemma {:induction false} BagInsert(x: Spec, specs: seq<Spec>)
    ensures Bag(Insert(ById, x, specs)) == Bag(specs) + multiset{Essence(x)}
    decreases specs
  {
    if specs == [] || ById(x, specs[0]) {
      assert ([x] + specs)[1..] == specs;
    } else {
      BagInsert(x, specs[1..]);
      assert Insert(ById, x, specs)[1..] == Insert(ById, x, specs[1..]);
    }
  }

  lemma BagSortedAdd(x: Spec, s: set<Spec>)
    requires x !in s && DistinctIds(s + {x})
    ensures Bag(InIdOrder(s + {x})) == Bag(InIdOrder(s)) + multiset{Essence(x)}
  {
    IdsOrder(s + {x});
    SortedInsert(ById, x, s);
    BagInsert(x, InIdOrder(s));
  }

  // ---- one opening ------------------------------------------------------------------------

  // A spec as Open leaves it, so that opening it again asks for the same thing.
  predicate Settled(spec: Spec) {
    spec.autoRestore && spec.mode in {"direct", "ssh"} && spec.bindScope != "" && 1 <= spec.hostPort <= 65535
  }

  lemma OpenAdds(w: World, spec: Spec, env: Env)
    requires Inv(w) && Settled(spec) && DoOpen(w, spec, env).1.Ok?
    ensures Keyed(w.items) && Running(DoOpen(w, spec, env).0) == Running(w) + multiset{Essence(spec)}
    ensures env.saved ==> Synced(DoOpen(w, spec, env).0)
  {
    var w' := DoOpen(w, spec, env).0;
    var id := TunnelName(w.nextID);
    FreshNameIsNew(w);
    var added := w'.items[id].spec;
    assert Essence(added) == Essence(spec);
    AutoSpecsAdd(w.items, id, w'.items[id]);
    BagSortedAdd(added, AutoSpecs(w.items));
  }

  lemma AutoSpecsAdd(items: map<string, Tunnel>, id: string, t: Tunnel)
    requires Keyed(items) && id !in items && t.spec.id == id && t.spec.autoRestore
    ensures AutoSpecs(items[id := t]) == AutoSpecs(items) + {t.spec} && t.spec !in AutoSpecs(items)
    ensures DistinctIds(AutoSpecs(items) + {t.spec})
  {
    var items' := items[id := t];
    forall x
      ensures x in AutoSpecs(items') <==> x in AutoSpecs(items) + {t.spec}
    {
      if x in AutoSpecs(items) {
        var a :| a in items && items[a].spec.autoRestore && items[a].spec == x;
        assert items'[a] == items[a];
      }
      assert items'[id].spec == t.spec;
    }
  }

  // ---- one restart --------------------------------------------------------------------------

  // The saved tunnels whose reopening works.
  ghost function Reopened(w: World, specs: seq<Spec>, envs: nat -> Env): (r: seq<Spec>)
    requires Keyed(w.items)
    ensures |r| <= |specs|
    decreases specs
  {
    if specs == [] then [] else
    var (w', result) := DoOpen(w, specs[0], envs(|specs|));
    if result.Ok? then [specs[0]] + Reopened(w', specs[1..], envs) else Reopened(w', specs[1..], envs)
  }

  lemma {:induction false} ReopenedAll(w: World, specs: seq<Spec>, envs: nat -> Env)
    requires Keyed(w.items) && |Reopened(w, specs, envs)| == |specs|
    ensures Reopened(w, specs, envs) == specs
    decreases specs
  {
    if specs != [] {
      ReopenedAll(DoOpen(w, specs[0], envs(|specs|)).0, specs[1..], envs);
    }
  }

  // What one opening of a settled spec does, however it goes.
  lemma OpenStep(w: World, spec: Spec, env: Env, w': World, result: Result<string, Error>)
    requires Inv(w) && Settled(spec) && (w', result) == DoOpen(w, spec, env)
    ensures Inv(w') && Keyed(w.items) && Keyed(w'.items)
    ensures result.Err? ==> w' == w
    ensures result.Ok? ==> Running(w') == Running(w) + multiset{Essence(spec)}
    ensures result.Ok? && env.saved ==> Synced(w')
  {
    OpenKeeps(w, spec, env);
    if result.Ok? {
      OpenAdds(w, spec, env);
    }
  }

  lemma BagCons(x: Spec, specs: seq<Spec>)
    ensures Bag([x] + specs) == multiset{Essence(x)} + Bag(specs)
  {
    assert ([x] + specs)[1..] == specs;
  }

  lemma {:induction false} ReopenAdds(w: World, specs: seq<Spec>, envs: nat -> Env)
    requires Inv(w) && Keyed(w.items) && forall s :: s in specs ==> Settled(s)
    ensures Running(DoReopen(w, specs, envs)) == Running(w) + Bag(Reopened(w, specs, envs))
    ensures (forall k :: envs(k).saved) && (Synced(w) || Reopened(w, specs, envs) != []) ==>
              Synced(DoReopen(w, specs, envs))
    decreases specs
  {
    if specs != [] {
      var (w', result) := DoOpen(w, specs[0], envs(|specs|));
      OpenStep(w, specs[0], envs(|specs|), w', result);
      ReopenAdds(w', specs[1..], envs);
      BagCons(specs[0], Reopened(w', specs[1..], envs));
    }
  }

  lemma SavedAreSettled(w: World)
    requires Inv(w) && Keyed(w.items)
    ensures forall s :: s in InIdOrder(AutoSpecs(w.items)) ==> Settled(s)
  {
    SavedListMeans(AutoSpecs(w.items));
    forall s | s in AutoSpecs(w.items)
      ensures Settled(s)
    {
      var id :| id in w.items && w.items[id].spec.autoRestore && w.items[id].spec == s;
      assert TunnelOk(w.items[id], id, w.nextID, w.bound, w.rules);
    }
  }

  // A restart is Restore run on an empty manager that numbers on from the last one.
  lemma RestartIsReopening(w: World, op: Op)
    requires Inv(w) && Keyed(w.items) && Synced(w) && op.Restart?
    ensures var start := Begun(w, op);
            && Inv(start) && Keyed(start.items) && start.items == map[] && start.file == w.file
            && Running(start) == multiset{}
            && Apply(w, op) == DoReopen(start, InIdOrder(AutoSpecs(w.items)), op.envs)
  {
    assert AutoSpecs(Begun(w, op).items) == {};
  }

  lemma {:induction false} ReopenKeyed(w: World, specs: seq<Spec>, envs: nat -> Env)
    requires Keyed(w.items)
    ensures specs == [] ==> DoReopen(w, specs, envs) == w
    ensures Bag(Reopened(w, specs, envs)) == Bag(specs) <==> Reopened(w, specs, envs) == specs
  {
    if Bag(Reopened(w, specs, envs)) == Bag(specs) {
      assert |Reopened(w, specs, envs)| == |specs|;
      ReopenedAll(w, specs, envs);
    }
  }

  // A stop or a crash and the start after it: exactly the tunnels whose reopening
  // works are up again, the same as before in everything but ID and creation
  // time. So the tunnels are conserved if and only if every reopening works.
  lemma RestartConserves(w: World, op: Op)
    requires Inv(w) && Keyed(w.items) && Synced(w) && op.Restart?
    ensures var specs := InIdOrder(AutoSpecs(w.items));
            var reopened := Reopened(Begun(w, op), specs, op.envs);
            && Keyed(Apply(w, op).items)
            && Running(Apply(w, op)) == Bag(reopened)
            && (Running(Apply(w, op)) == Running(w) <==> reopened == specs)
            && (Saved(op) && reopened == specs ==> Synced(Apply(w, op)))
  {
    RestartIsReopening(w, op);
    SavedAreSettled(w);
    var specs, start := InIdOrder(AutoSpecs(w.items)), Begun(w, op);
    ReopenAdds(start, specs, op.envs);
    ReopenKeyed(start, specs, op.envs);
    if specs == [] {
      assert Synced(start);
    }
  }

  lemma {:induction false} NothingReopened(w: World, specs: seq<Spec>, envs: nat -> Env)
    requires Keyed(w.items) && Reopened(w, specs, envs) == []
    ensures DoReopen(w, specs, envs) == w
    decreases specs
  {
    if specs != [] {
      NothingReopened(w, specs[1..], envs);
    }
  }

  lemma SnapshotIsRead(w: World, saved: bool)
    requires Keyed(w.items) && saved
    ensures Synced(Persisted(w, saved))
  {
  }

  // After every operation whose write works the file says exactly what is up and
  // which ID comes next, with one exception: a restart at which nothing that was
  // saved can be reopened writes nothing, and leaves the old list for the next.
  lemma FileKeepsUp(w: World, op: Op)
    requires Inv(w) && Keyed(w.items) && Synced(w) && Saved(op)
    ensures Keyed(Apply(w, op).items)
    ensures var specs := InIdOrder(AutoSpecs(w.items));
            var lost := op.Restart? && specs != [] && Reopened(Begun(w, op), specs, op.envs) == [];
            && (Synced(Apply(w, op)) <==> !lost)
            && (lost ==> Apply(w, op).file == w.file && Apply(w, op).items == map[])
  {
    hide Synced;
    match op
    case Open(spec, env) => OpenSaves(w, spec, env);
    case Close(id, removes, saved) =>
      if id in w.items {
        SnapshotIsRead(DoShutdown(w.(items := w.items - {id}), w.items[id], removes), saved);
      }
    case Rename(oldName, newName, saved) => RenameSaves(w, oldName, newName, saved);
    case Restart(_, _, envs) => RestartSaves(w, op);
  }

  lemma OpenSaves(w: World, spec: Spec, env: Env)
    requires Inv(w) && Keyed(w.items) && Synced(w) && env.saved
    ensures Keyed(DoOpen(w, spec, env).0.items) && Synced(DoOpen(w, spec, env).0)
  {
  }

  lemma RenameSaves(w: World, oldName: string, newName: string, saved: bool)
    requires Keyed(w.items) && Synced(w) && saved
    ensures Keyed(DoRename(w, oldName, newName, saved).items) && Synced(DoRename(w, oldName, newName, saved))
  {
    var items' := map id | id in w.items :: Repointed(w.items[id], oldName, newName);
    assert Keyed(items');
    SnapshotIsRead(w.(items := items'), saved);
  }

  lemma RestartSaves(w: World, op: Op)
    requires Inv(w) && Keyed(w.items) && Synced(w) && op.Restart? && Saved(op)
    ensures Keyed(Apply(w, op).items)
    ensures var specs := InIdOrder(AutoSpecs(w.items));
            var lost := specs != [] && Reopened(Begun(w, op), specs, op.envs) == [];
            && (Synced(Apply(w, op)) <==> !lost)
            && (lost ==> Apply(w, op).file == w.file && Apply(w, op).items == map[])
  {
    RestartIsReopening(w, op);
    SavedAreSettled(w);
    var specs, start := InIdOrder(AutoSpecs(w.items)), Begun(w, op);
    ReopenAdds(start, specs, op.envs);
    if Reopened(start, specs, op.envs) == [] {
      NothingReopened(start, specs, op.envs);
      assert AutoSpecs(start.items) == {} && InIdOrder({}) == [];
    }
  }

  // Part way through: what the first `k` of a list of openings meet when `rest` more
  // are to follow.
  function Shifted(envs: nat -> Env, rest: nat): nat -> Env { (j: nat) => envs(j + rest) }

  lemma {:induction false} SameOpenings(w: World, specs: seq<Spec>, a: nat -> Env, b: nat -> Env)
    requires Keyed(w.items) && forall j :: 0 < j <= |specs| ==> a(j) == b(j)
    ensures DoReopen(w, specs, a) == DoReopen(w, specs, b)
    decreases specs
  {
    if specs != [] {
      SameOpenings(if specs[0].autoRestore then DoOpen(w, specs[0], a(|specs|)).0 else w, specs[1..], a, b);
    }
  }

  // A run of openings passes through the state its first k leave.
  lemma {:induction false} ReopensInTwo(w: World, specs: seq<Spec>, k: nat, envs: nat -> Env)
    requires Keyed(w.items) && k <= |specs|
    ensures var m := DoReopen(w, specs[..k], Shifted(envs, |specs| - k));
            DoReopen(w, specs, envs) == DoReopen(m, specs[k..], envs)
    decreases k
  {
    if k > 0 {
      var w' := if specs[0].autoRestore then DoOpen(w, specs[0], envs(|specs|)).0 else w;
      ReopensInTwo(w', specs[1..], k - 1, envs);
      assert specs[1..][..k - 1] == specs[..k][1..] && specs[1..][k - 1..] == specs[k..];
      hide DoOpen;
      assert DoReopen(w, specs[..k], Shifted(envs, |specs| - k)) ==
             DoReopen(w', specs[..k][1..], Shifted(envs, |specs| - k));
    } else {
      assert specs[..0] == [] && specs[0..] == specs;
    }
  }

  lemma FileMidway(start: World, some: seq<Spec>, envs: nat -> Env)
    requires Inv(start) && Keyed(start.items) && Running(start) == multiset{}
    requires (forall s :: s in some ==> Settled(s)) && (forall j :: envs(j).saved)
    ensures var m, got := DoReopen(start, some, envs), Reopened(start, some, envs);
            && Keyed(m.items)
            && Bag(LoadSpecs(m.file).0) == if got == [] then Bag(LoadSpecs(start.file).0) else Bag(got)
  {
    ReopenAdds(start, some, envs);
    if Reopened(start, some, envs) == [] {
      NothingReopened(start, some, envs);
    }
  }

  // Reopening the first k gives back the whole list only if they are the list.
  lemma GotAll(start: World, specs: seq<Spec>, k: nat, envs: nat -> Env)
    requires Keyed(start.items) && k <= |specs|
    ensures var got := Reopened(start, specs[..k], envs);
            Bag(got) == Bag(specs) <==> got == specs
  {
    var got := Reopened(start, specs[..k], envs);
    if Bag(got) == Bag(specs) {
      assert |got| == |specs| && specs[..k] == specs;
      ReopenedAll(start, specs, envs);
    }
  }

  // A crash while Restore is at work, after any k tunnels and any pattern of
  // outcomes: `m` is the state then, and `got` the tunnels reopened by then. The
  // restart does pass through m; and what the file lists there, for the next
  // restart, is all that was listed before exactly when nothing has been reopened
  // yet or everything has. In between it lists only what has.
  lemma CrashWhileRestoring(w: World, op: Op, specs: seq<Spec>, k: nat, m: World, got: seq<Spec>)
    requires Inv(w) && Keyed(w.items) && Synced(w) && op.Restart? && Saved(op)
    requires specs == InIdOrder(AutoSpecs(w.items)) && k <= |specs|
    requires Keyed(Begun(w, op).items)
    requires m == DoReopen(Begun(w, op), specs[..k], Shifted(op.envs, |specs| - k))
    requires got == Reopened(Begun(w, op), specs[..k], Shifted(op.envs, |specs| - k))
    ensures Keyed(m.items) && Apply(w, op) == DoReopen(m, specs[k..], op.envs)
    ensures Bag(LoadSpecs(m.file).0) == if got == [] then Bag(specs) else Bag(got)
    ensures Bag(LoadSpecs(m.file).0) == Bag(specs) <==> got == [] || got == specs
  {
    hide DoReopen, Reopened, Bag, Inv, InIdOrder, Apply, Begun, AutoSpecs;
    RestartIsReopening(w, op);
    SavedAreSettled(w);
    var start := Begun(w, op);
    assert forall s :: s in specs[..k] ==> s in specs;
    ReopensInTwo(start, specs, k, op.envs);
    FileMidway(start, specs[..k], Shifted(op.envs, |specs| - k));
    GotAll(start, specs, k, Shifted(op.envs, |specs| - k));
  }

  // A lossy crash: as soon as one tunnel of several has been reopened, and until the
  // last, the file no longer lists them all.
  lemma CrashLosesTheRest(w: World, op: Op, specs: seq<Spec>, k: nat)
    requires Inv(w) && Keyed(w.items) && Synced(w) && op.Restart? && Saved(op)
    requires specs == InIdOrder(AutoSpecs(w.items)) && 0 < k < |specs|
    requires Keyed(Begun(w, op).items) && DoOpen(Begun(w, op), specs[0], op.envs(|specs|)).1.Ok?
    ensures var m := DoReopen(Begun(w, op), specs[..k], Shifted(op.envs, |specs| - k));
            Bag(LoadSpecs(m.file).0) != Bag(specs) && |LoadSpecs(m.file).0| <= k
  {
    var envs := Shifted(op.envs, |specs| - k);
    var m, got := DoReopen(Begun(w, op), specs[..k], envs), Reopened(Begun(w, op), specs[..k], envs);
    assert specs[..k][0] == specs[0] && envs(|specs[..k]|) == op.envs(|specs|);
    assert got != [] && |got| <= k;
    hide DoReopen, Reopened, DoOpen, Begun, InIdOrder;
    CrashWhileRestoring(w, op, specs, k, m, got);
    assert |Bag(LoadSpecs(m.file).0)| == |Bag(got)|;
  }

  // ---- renames and restarts, in any order -----------------------------------------------------

  function RepointSpec(s: Spec, oldName: string, newName: string): Spec {
    if s.vmName == oldName then s.(vmName := newName) else s
  }

  function RepointAll(specs: seq<Spec>, oldName: string, newName: string): seq<Spec> {
    seq(|specs|, i requires 0 <= i < |specs| => RepointSpec(specs[i], oldName, newName))
  }

  // How many tunnels look like `e` once `oldName` has become `newName`.
  function RepointCount(b: multiset<Spec>, oldName: string, newName: string, e: Spec): nat {
    if oldName == newName then b[e]
    else if e.vmName == newName then b[e] + b[e.(vmName := oldName)]
    else if e.vmName == oldName then 0
    else b[e]
  }

  lemma RepointOneMore(b: multiset<Spec>, x: Spec, oldName: string, newName: string, e: Spec)
    ensures RepointCount(b + multiset{x}, oldName, newName, e) ==
            RepointCount(b, oldName, newName, e) + if RepointSpec(x, oldName, newName) == e then 1 else 0
  {
    if e.vmName == newName && x.vmName == oldName && x.(vmName := newName) == e {
      assert x == e.(vmName := oldName);
    }
  }

  lemma {:induction false} RepointBag(specs: seq<Spec>, oldName: string, newName: string, e: Spec)
    ensures Bag(RepointAll(specs, oldName, newName))[e] == RepointCount(Bag(specs), oldName, newName, e)
    decreases specs
  {
    if specs != [] {
      var rest, y := specs[1..], RepointSpec(specs[0], oldName, newName);
      RepointBag(rest, oldName, newName, e);
      assert RepointAll(specs, oldName, newName) == [y] + RepointAll(rest, oldName, newName);
      BagCons(y, RepointAll(rest, oldName, newName));
      RepointOneMore(Bag(rest), Essence(specs[0]), oldName, newName, e);
      assert Bag(specs) == Bag(rest) + multiset{Essence(specs[0])};
    }
  }

  lemma RepointCons(x: Spec, specs: seq<Spec>, oldName: string, newName: string)
    ensures RepointAll([x] + specs, oldName, newName) ==
            [RepointSpec(x, oldName, newName)] + RepointAll(specs, oldName, newName)
  {
  }

  function RepointSet(s: set<Spec>, oldName: string, newName: string): set<Spec> {
    set x | x in s :: RepointSpec(x, oldName, newName)
  }

  lemma RepointLeast(s: set<Spec>, m: Spec, oldName: string, newName: string)
    requires DistinctIds(s) && IsLeast(ById, m, s)
    ensures var s', m' := RepointSet(s, oldName, newName), RepointSpec(m, oldName, newName);
            && DistinctIds(s') && IsLeast(ById, m', s')
            && RepointSet(s - {m}, oldName, newName) == s' - {m'}
  {
  }

  // Renaming VMs does not reorder the list, which goes by tunnel ID.
  lemma {:induction false} RepointSorted(s: set<Spec>, oldName: string, newName: string)
    requires DistinctIds(s) && DistinctIds(RepointSet(s, oldName, newName))
    ensures InIdOrder(RepointSet(s, oldName, newName)) == RepointAll(InIdOrder(s), oldName, newName)
    decreases |s|
  {
    var s' := RepointSet(s, oldName, newName);
    IdsOrder(s);
    IdsOrder(s');
    if s == {} {
      assert s' == {};
    } else {
      LeastExists(ById, s);
      var m :| IsLeast(ById, m, s);
      var m' := RepointSpec(m, oldName, newName);
      RepointLeast(s, m, oldName, newName);
      SortedFrom(ById, m, s);
      SortedFrom(ById, m', s');
      RepointSorted(s - {m}, oldName, newName);
      RepointCons(m, InIdOrder(s - {m}), oldName, newName);
    }
  }

  // What should be up after a run, starting from `specs`: restarts change nothing.
  function Expected(specs: seq<Spec>, ops: seq<Op>): seq<Spec>
    decreases ops
  {
    if ops == [] then specs
    else Expected(if ops[0].Rename? then RepointAll(specs, ops[0].oldName, ops[0].newName) else specs, ops[1..])
  }

  // Renames and restarts only, every write works and every reopening does.
  ghost predicate Smooth(w: World, ops: seq<Op>)
    requires Inv(w)
    decreases ops
  {
    ops == [] ||
    (InvStep(w, ops[0]);
     Saved(ops[0])
     && (ops[0].Rename? || (ops[0].Restart? && Keyed(w.items)
         && Reopened(Begun(w, ops[0]), InIdOrder(AutoSpecs(w.items)), ops[0].envs) == InIdOrder(AutoSpecs(w.items))))
     && Smooth(Apply(w, ops[0]), ops[1..]))
  }

  lemma RenameRepoints(w: World, oldName: string, newName: string, e: Spec)
    requires Inv(w) && Keyed(w.items) && Synced(w)
    ensures Keyed(DoRename(w, oldName, newName, true).items) && Synced(DoRename(w, oldName, newName, true))
    ensures Running(DoRename(w, oldName, newName, true))[e] == RepointCount(Running(w), oldName, newName, e)
  {
    RenamedSpecs(w, oldName, newName);
    RepointSorted(AutoSpecs(w.items), oldName, newName);
    RepointBag(InIdOrder(AutoSpecs(w.items)), oldName, newName, e);
  }

  lemma RenamedSpecs(w: World, oldName: string, newName: string)
    requires Keyed(w.items)
    ensures AutoSpecs(DoRename(w, oldName, newName, true).items) ==
            RepointSet(AutoSpecs(w.items), oldName, newName)
  {
    var items' := DoRename(w, oldName, newName, true).items;
    assert forall id :: id in items' <==> id in w.items;
    forall id | id in w.items
      ensures items'[id].spec == RepointSpec(w.items[id].spec, oldName, newName)
    {
    }
    forall x | x in AutoSpecs(items')
      ensures x in RepointSet(AutoSpecs(w.items), oldName, newName)
    {
      var id :| id in items' && items'[id].spec.autoRestore && items'[id].spec == x;
      assert w.items[id].spec in AutoSpecs(w.items);
    }
    forall x | x in RepointSet(AutoSpecs(w.items), oldName, newName)
      ensures x in AutoSpecs(items')
    {
      var y :| y in AutoSpecs(w.items) && RepointSpec(y, oldName, newName) == x;
      var id :| id in w.items && w.items[id].spec == y;
      assert items'[id].spec == x;
    }
  }

  lemma RenameStep(w: World, oldName: string, newName: string, specs: seq<Spec>)
    requires Inv(w) && Keyed(w.items) && Synced(w) && Running(w) == Bag(specs)
    ensures var w' := DoRename(w, oldName, newName, true);
            && Keyed(w'.items) && Synced(w') && Running(w') == Bag(RepointAll(specs, oldName, newName))
  {
    var w' := DoRename(w, oldName, newName, true);
    hide DoRename, Bag, Synced, RepointAll;
    forall e
      ensures Running(w')[e] == Bag(RepointAll(specs, oldName, newName))[e]
    {
      RenameRepoints(w, oldName, newName, e);
      RepointBag(specs, oldName, newName, e);
    }
  }

  // Over any number of restarts with renames in between, the tunnels that are up
  // are the ones that were, under their VMs' current names.
  lemma {:induction false} TunnelsConserved(w: World, ops: seq<Op>, specs: seq<Spec>)
    requires Inv(w) && Keyed(w.items) && Synced(w) && Smooth(w, ops)
    requires Running(w) == Bag(specs)
    ensures Keyed(Run(w, ops).items) && Synced(Run(w, ops))
    ensures Running(Run(w, ops)) == Bag(Expected(specs, ops))
    decreases ops
  {
    if ops != [] {
      InvStep(w, ops[0]);
      var w' := Apply(w, ops[0]);
      match ops[0]
      case Rename(oldName, newName, _) =>
        RenameStep(w, oldName, newName, specs);
        TunnelsConserved(w', ops[1..], RepointAll(specs, oldName, newName));
      case Restart(_, _, _) =>
        RestartConserves(w, ops[0]);
        TunnelsConserved(w', ops[1..], specs);
    }
  }
}
