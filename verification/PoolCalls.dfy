/** What the pool does for its callers (internal/sshx/pool.go): each call runs its own
    course, dead connections alone are dropped, and live ones are shared and watched. */
module PoolCalls {
  import opened Wrappers
  import opened Pool

  // ---- each call runs its course ---------------------------------------------------------

  // Where a goroutine that began as `call` may be.
  predicate OnCourse(call: PC, pc: PC) {
    match call
    case Lookup(vm) =>
      (match pc
       case Lookup(v) => v == vm
       case Probe(v, _) => v == vm
       case Dial(v) => v == vm
       case Install(v, _) => v == vm
       case Returned(v, _) => v == vm
       case Take(v, after, found) => v == vm && after == ThenDial(vm) && found.Some?
       case Stop(_, after) => after == ThenDial(vm)
       case Hangup(_, after) => after == ThenDial(vm)
       case Done => true
       case _ => false)
    case Take(vm, _, _) =>
      (match pc
       case Take(v, after, found) => v == vm && after == ThenDone && found == None
       case Stop(_, after) => after == ThenDone
       case Hangup(_, after) => after == ThenDone
       case Done => true
       case _ => false)
    case Watch(vm, c) =>
      (match pc
       case Watch(v, d) => v == vm && d == c
       case Take(v, after, found) => v == vm && after == ThenDone && found == Some(c)
       case Stop(_, after) => after == ThenDone
       case Hangup(_, after) => after == ThenDone
       case Done => true
       case _ => false)
    case TakeAll => pc.TakeAll? || pc.Sweep? || pc.SweepHangup? || pc.Done?
    case _ => false
  }

  ghost predicate Courses(s: State) {
    |s.calls| == |s.threads| && forall t :: 0 <= t < |s.threads| ==> OnCourse(s.calls[t], s.threads[t])
  }

  // What a Get does next. It looks at a connection on file; it dials if there is none, or
  // after dropping one found dead; what it returns is on file by then, and live unless it
  // is its own fresh one; and only a dial that failed leaves it without a connection.
  lemma GetGoesOn(s: State, a: Action, vm: string)
    requires a.Go? && Enabled(s, a) && OnCourse(Lookup(vm), s.threads[a.t])
    ensures var pc, s' := s.threads[a.t], Do(s, a);
            a.t < |s'.threads| &&
            var next := s'.threads[a.t];
            && OnCourse(Lookup(vm), next)
            && (pc.Lookup? && vm in s.clients ==> next == Probe(vm, s.clients[vm]))
            && (next.Dial? ==> (pc.Lookup? && vm !in s.clients) || pc.Take? || pc.Hangup?)
            && (pc.Hangup? ==> next == Dial(vm))
            && (next.Done? <==> pc.Dial? && !a.works)
            && (next.Returned? && pc.Install? ==> vm in s'.clients && s'.clients[vm] == next.c)
            && (next.Returned? ==> next.c !in s.dead || (pc.Install? && next.c == pc.c))
  {
  }

  lemma OthersGoOn(s: State, a: Action, call: PC)
    requires a.Go? && Enabled(s, a) && !call.Lookup? && OnCourse(call, s.threads[a.t])
    ensures a.t < |Do(s, a).threads| && OnCourse(call, Do(s, a).threads[a.t])
  {
  }

  // A step moves its own goroutine alone, and may start a keepalive.
  lemma OthersStand(s: State, a: Action)
    requires a.Go? && Enabled(s, a)
    ensures var s' := Do(s, a);
            exists more: seq<PC> :: && s'.calls == s.calls + more && |more| <= 1 && (more != [] ==> more[0].Watch?)
                           && |s'.threads| == |s.threads| + |more|
                           && s'.threads == s.threads[a.t := s'.threads[a.t]] + more
  {
    var more := Do(s, a).calls[|s.calls|..];
    assert more == [] || more == [Watch(s.threads[a.t].vm, s.threads[a.t].c)];
  }

  lemma CoursesStep(s: State, a: Action)
    requires Courses(s) && Enabled(s, a)
    ensures Courses(Do(s, a))
  {
    if a.Go? {
      if s.calls[a.t].Lookup? {
        GetGoesOn(s, a, s.calls[a.t].vm);
      } else {
        OthersGoOn(s, a, s.calls[a.t]);
      }
      OthersStand(s, a);
      hide Do, Enabled;
    }
  }

  lemma {:induction false} CoursesHold(s: State, moves: seq<Action>)
    requires Courses(s) && Runs(s, moves)
    ensures Courses(End(s, moves))
    decreases moves
  {
    if moves != [] {
      CoursesStep(s, moves[0]);
      CoursesHold(Do(s, moves[0]), moves[1..]);
    }
  }

  lemma ReachableCourses(s: State)
    requires Reachable(s)
    ensures Courses(s)
  {
    var moves :| Runs(INIT, moves) && End(INIT, moves) == s;
    CoursesHold(INIT, moves);
  }

  // A Get ends with a connection for the VM it was called for or, a dial having failed,
  // with none. It drops a connection only after it has found one dead, and then it
  // dials for the same VM. A keepalive drops only after it has found its own dead.
  lemma CallsRunTheirCourse(s: State, t: nat)
    requires Reachable(s) && t < |s.threads|
    ensures |s.calls| == |s.threads| && OnCourse(s.calls[t], s.threads[t])
    ensures s.threads[t].Take? && !s.calls[t].Take? ==> s.threads[t].found.Some? && s.threads[t].found.value in s.dead
    ensures s.calls[t].Lookup? && s.threads[t].Returned? ==>
              s.threads[t].c < |s.vmOf| && s.vmOf[s.threads[t].c] == s.calls[t].vm
  {
    ReachableCourses(s);
    ReachableInv(s);
    assert RightPC(s, s.threads[t]);
  }

  // What a Get or a keepalive does about the connection it looks at: a live one is
  // returned, or watched on; a dead one is dropped.
  lemma DeadAloneAreDropped(s: State, t: nat, works: bool, pick: Conn)
    requires t < |s.threads| && (s.threads[t].Probe? || s.threads[t].Watch?) && Enabled(s, Go(t, works, pick))
    ensures var pc, next := s.threads[t], Do(s, Go(t, works, pick)).threads[t];
            && (pc.Probe? && pc.c !in s.dead ==> next == Returned(pc.vm, pc.c))
            && (pc.Watch? && pc.c !in s.dead && !works ==> next == pc)
            && (next.Take? <==> pc.c in s.dead && !(pc.Watch? && works))
            && (next.Take? ==> next.vm == pc.vm && next.found == Some(pc.c))
    ensures Do(s, Go(t, works, pick)).clients == s.clients
  {
  }

  // ---- live connections are watched ----------------------------------------------------------

  ghost predicate Watched(s: State, vm: string, c: Conn) {
    exists t :: 0 <= t < |s.threads| && s.threads[t] == Watch(vm, c)
  }

  ghost predicate AllWatched(s: State) {
    forall vm :: LiveOnFile(s, vm) ==> Watched(s, vm, s.clients[vm])
  }

  lemma WatchesOn(s: State, a: Action, vm: string, t: nat)
    requires Inv(s) && Enabled(s, a) && LiveOnFile(s, vm) && t < |s.threads|
    requires s.threads[t] == Watch(vm, s.clients[vm])
    ensures t < |Do(s, a).threads| && Do(s, a).threads[t] == s.threads[t]
  {
    assert IsAt(s, s.clients[vm], InMap(vm));
  }

  lemma FiledByInstall(s: State, a: Action, vm: string)
    requires Inv(s) && Enabled(s, a) && vm in Do(s, a).clients
    requires vm !in s.clients || Do(s, a).clients[vm] != s.clients[vm]
    ensures Watched(Do(s, a), vm, Do(s, a).clients[vm])
  {
    var s' := Do(s, a);
    assert s'.threads[|s'.threads| - 1] == Watch(vm, s'.clients[vm]);
  }

  lemma DeadStayDead(s: State, a: Action)
    requires Enabled(s, a)
    ensures s.dead <= Do(s, a).dead
  {
  }

  lemma AllWatchedStep(s: State, a: Action)
    requires Inv(s) && AllWatched(s) && Enabled(s, a)
    ensures AllWatched(Do(s, a))
  {
    var s' := Do(s, a);
    forall vm | LiveOnFile(s', vm)
      ensures Watched(s', vm, s'.clients[vm])
    {
      DeadStayDead(s, a);
      if vm in s.clients && s.clients[vm] == s'.clients[vm] {
        var t :| 0 <= t < |s.threads| && s.threads[t] == Watch(vm, s.clients[vm]);
        WatchesOn(s, a, vm, t);
      } else {
        FiledByInstall(s, a, vm);
      }
    }
  }

  lemma {:induction false} AllWatchedHolds(s: State, moves: seq<Action>)
    requires Inv(s) && AllWatched(s) && Runs(s, moves)
    ensures AllWatched(End(s, moves))
    decreases moves
  {
    if moves != [] {
      InvStep(s, moves[0]);
      AllWatchedStep(s, moves[0]);
      AllWatchedHolds(Do(s, moves[0]), moves[1..]);
    }
  }

  // In every interleaving a live connection on file has a keepalive watching it, so
  // that its death is noticed.
  lemma LiveConnectionsAreWatched(s: State, vm: string)
    requires Reachable(s) && LiveOnFile(s, vm)
    ensures exists t :: 0 <= t < |s.threads| && s.threads[t] == Watch(vm, s.clients[vm])
  {
    var moves :| Runs(INIT, moves) && End(INIT, moves) == s;
    AllWatchedHolds(INIT, moves);
    assert Watched(s, vm, s.clients[vm]);
  }

  // ---- live connections are shared --------------------------------------------------------------

  // None of the VM's connections dies, and nobody calls Close, or Drop for this VM.
  predicate Spares(s: State, vm: string, a: Action) {
    match a
    case Die(c) => c < |s.vmOf| ==> s.vmOf[c] != vm
    case Arrive(pc) => pc.Lookup? || (pc.Take? && pc.vm != vm)
    case Go(_, _, _) => true
  }

  ghost predicate Calm(s: State, vm: string, moves: seq<Action>)
    decreases moves
  {
    moves == [] ||
    (Enabled(s, moves[0]) && Spares(s, vm, moves[0]) && Calm(Do(s, moves[0]), vm, moves[1..]))
  }

  // Every goroutine about the VM is about the connection on file for it, if there is one,
  // and that one is live.
  ghost predicate Peaceful(s: State, vm: string) {
    && (vm in s.clients ==> s.clients[vm] !in s.dead)
    && (forall t :: 0 <= t < |s.threads| ==> AtPeace(s, vm, s.threads[t]))
  }

  predicate AtPeace(s: State, vm: string, pc: PC) {
    match pc
    case Probe(v, c) => v == vm ==> OnFile(s, vm, c)
    case Returned(v, c) => v == vm ==> OnFile(s, vm, c)
    case Watch(v, c) => v == vm ==> OnFile(s, vm, c)
    case Install(v, c) => v == vm ==> c !in s.dead
    case Take(v, _, _) => v != vm
    case Stop(c, _) => c < |s.vmOf| && s.vmOf[c] != vm
    case Hangup(c, _) => c < |s.vmOf| && s.vmOf[c] != vm
    case Lookup(_) => true
    case Dial(_) => true
    case Done => true
    case _ => false
  }

  predicate OnFile(s: State, vm: string, c: Conn) {
    vm in s.clients && s.clients[vm] == c
  }

  lemma NumbersAgree(s: State)
    requires Inv(s)
    ensures |s.vmOf| == |s.home| && RightVM(s) && forall c :: c in s.dead ==> c < |s.home|
  {
  }

  lemma CalmMove(s: State, vm: string, a: Action)
    requires Inv(s) && Peaceful(s, vm) && a.Go? && Enabled(s, a)
    requires s.threads[a.t].Dial? || s.threads[a.t].Take? || s.threads[a.t].Hangup?
    ensures Peaceful(Do(s, a), vm)
    ensures vm in s.clients ==> OnFile(Do(s, a), vm, s.clients[vm])
  {
    hide Inv;
    NumbersAgree(s);
    assert AtPeace(s, vm, s.threads[a.t]) && RightPC(s, s.threads[a.t]);
  }

  lemma CalmLook(s: State, vm: string, a: Action)
    requires Inv(s) && Peaceful(s, vm) && a.Go? && Enabled(s, a)
    requires !s.threads[a.t].Install? && !s.threads[a.t].Dial? && !s.threads[a.t].Take? && !s.threads[a.t].Hangup?
    ensures Peaceful(Do(s, a), vm)
    ensures vm in s.clients ==> OnFile(Do(s, a), vm, s.clients[vm])
  {
    hide Inv;
    NumbersAgree(s);
    assert AtPeace(s, vm, s.threads[a.t]) && RightPC(s, s.threads[a.t]);
  }

  lemma CalmStep(s: State, vm: string, a: Action)
    requires Inv(s) && Peaceful(s, vm) && Enabled(s, a) && Spares(s, vm, a)
    ensures Peaceful(Do(s, a), vm)
    ensures vm in s.clients ==> OnFile(Do(s, a), vm, s.clients[vm])
  {
    hide Inv;
    NumbersAgree(s);
    if a.Go? {
      hide Peaceful, Spares, OnFile;
      if s.threads[a.t].Install? {
        CalmInstall(s, vm, a.t);
      } else if s.threads[a.t].Dial? || s.threads[a.t].Take? || s.threads[a.t].Hangup? {
        CalmMove(s, vm, a);
      } else {
        CalmLook(s, vm, a);
      }
    }
  }

  lemma CalmInstall(s: State, vm: string, t: nat)
    requires Inv(s) && Peaceful(s, vm) && t < |s.threads| && s.threads[t].Install?
    ensures var s' := DoInstall(s, t, s.threads[t].vm, s.threads[t].c);
            Peaceful(s', vm) && (vm in s.clients ==> OnFile(s', vm, s.clients[vm]))
  {
    var c := s.threads[t].c;
    assert IsAt(s, c, Held(t)) && RightPC(s, s.threads[t]);
    assert vm in s.clients ==> IsAt(s, s.clients[vm], InMap(vm));
    forall u | 0 <= u < |s.threads| && u != t && s.threads[u].Install?
      ensures s.threads[u].c != c
    {
      assert IsAt(s, s.threads[u].c, Held(u));
    }
  }

  lemma {:induction false} CalmRuns(s: State, vm: string, moves: seq<Action>)
    requires Inv(s) && Peaceful(s, vm) && Calm(s, vm, moves)
    ensures Runs(s, moves) && Inv(End(s, moves)) && Peaceful(End(s, moves), vm)
    ensures vm in s.clients ==> OnFile(End(s, moves), vm, s.clients[vm])
    decreases moves
  {
    if moves != [] {
      InvStep(s, moves[0]);
      CalmStep(s, vm, moves[0]);
      CalmRuns(Do(s, moves[0]), vm, moves[1..]);
    }
  }

  // Over a run in which no connection of the VM dies and nobody calls Close, or Drop for
  // it, whatever happens to other VMs: once a connection is on file for the VM it
  // stays there, alive; a Get that looks at it returns it; and all Gets for the VM that
  // have finished have that one.
  lemma LiveConnectionsAreShared(before: seq<Action>, after: seq<Action>, vm: string)
    requires Calm(INIT, vm, before) && Runs(INIT, before) && vm in End(INIT, before).clients
    requires Calm(End(INIT, before), vm, after) && Runs(End(INIT, before), after)
    ensures var c, s := End(INIT, before).clients[vm], End(End(INIT, before), after);
            && OnFile(s, vm, c) && c !in s.dead && c !in s.closed && c !in s.stopped
            && (forall t :: 0 <= t < |s.threads| && s.threads[t].Returned? && s.threads[t].vm == vm ==>
                  s.threads[t].c == c)
            && (forall t, works, pick :: 0 <= t < |s.threads| && s.threads[t].Probe? && s.threads[t].vm == vm ==>
                  Do(s, Go(t, works, pick)).threads[t] == Returned(vm, c))
  {
    CalmRuns(INIT, vm, before);
    CalmRuns(End(INIT, before), vm, after);
    var s := End(End(INIT, before), after);
    assert IsAt(s, s.clients[vm], InMap(vm));
    assert s.closed <= s.dead;
    forall t | 0 <= t < |s.threads| && (s.threads[t].Returned? || s.threads[t].Probe?) && s.threads[t].vm == vm
      ensures s.threads[t].c == s.clients[vm]
    {
      assert AtPeace(s, vm, s.threads[t]);
    }
  }

  // Close takes every entry: the map is empty, and each is its own to close.
  lemma CloseTakesAll(s: State, t: nat, works: bool, pick: Conn)
    requires Reachable(s) && t < |s.threads| && s.threads[t].TakeAll?
    ensures var s' := Do(s, Go(t, works, pick));
            s'.clients == map[] && forall vm :: vm in s.clients ==> IsAt(s', s.clients[vm], Taken(t))
  {
    forall vm | vm in s.clients
      ensures s.clients[vm] in s.clients.Values
    {
    }
  }
}
