/** The SSH connection pool (internal/sshx/pool.go): Get, Drop, Close and one
    keepalive goroutine per entry, under every interleaving. */
module Pool {
  import opened Wrappers

  // A dialled connection, numbered in the order of dialling. Its pool entry and
  // that entry's stop channel are made once, so they go by the same number.
  type Conn = nat

  type Clients = map<string, Conn>

  // ---- what the regions under the pool's lock do -------------------------------------

  // Drop's region: the entry, if any, leaves the map and is the caller's to close.
  function Without(clients: Clients, vm: string): Clients { clients - {vm} }

  // Get's second region: somebody else's live connection wins over the fresh one;
  // otherwise the fresh one is filed, over a dead entry if there is one.
  predicate Yields(clients: Clients, dead: set<Conn>, vm: string) {
    vm in clients && clients[vm] !in dead
  }

  // ---- the step system -----------------------------------------------------------------

  // What a caller of Drop goes on to: Get dials afresh, the others are finished.
  datatype After = ThenDial(vm: string) | ThenDone

  // Where a goroutine is. Between two of these another may run. `found` is the
  // connection its caller found dead, if that is why it drops; no step looks at it.
  datatype PC =
    | Lookup(vm: string)                // Get, before its first lock region
    | Probe(vm: string, c: Conn)        // Get, holding no lock, about to probe what it found
    | Dial(vm: string)                  // Get, about to dial
    | Install(vm: string, c: Conn)      // Get, with a fresh connection, before its second region
    | Returned(vm: string, c: Conn)     // Get, finished with a connection
    | Take(vm: string, after: After, found: Option<Conn>) // Drop, before its lock region
    | Stop(c: Conn, after: After)       // Drop, entry taken, about to close its stop channel
    | Hangup(c: Conn, after: After)     // Drop, about to close the connection
    | Watch(vm: string, c: Conn)        // keepalive, waiting for the ticker or the stop channel
    | TakeAll                           // Close, before its lock region
    | Sweep(rest: set<Conn>)            // Close, entries still to do
    | SweepHangup(c: Conn, rest: set<Conn>)
    | Done

  // Where a dialled connection is.
  datatype Place = Held(t: nat) | InMap(vm: string) | Taken(t: nat) | Closed | Displaced

  // `home`, `vmOf` and `calls` are bookkeeping: where each connection is, for which VM
  // it was dialled, and what each goroutine began as. No step looks at them.
  datatype State = State(clients: Clients, threads: seq<PC>,
                         dead: set<Conn>, stopped: set<Conn>, closed: set<Conn>, displaced: set<Conn>,
                         doubleClose: bool, home: seq<Place>, vmOf: seq<string>, calls: seq<PC>)

  const INIT := State(map[], [], {}, {}, {}, {}, false, [], [], [])

  // One move: a caller arrives, a connection dies, or a goroutine takes its next
  // step. `works` is the dial's outcome, and for keepalive whether it saw the stop
  // channel closed rather than the ticker; `pick` is Close's next entry.
  datatype Action = Arrive(pc: PC) | Die(c: Conn) | Go(t: nat, works: bool, pick: Conn)

  predicate Enabled(s: State, a: Action) {
    match a
    case Arrive(pc) => pc.Lookup? || pc.TakeAll? || (pc.Take? && pc.after == ThenDone && pc.found == None)
    case Die(c) => c < |s.home|
    case Go(t, works, pick) =>
      && t < |s.threads|
      && !s.threads[t].Done? && !s.threads[t].Returned?
      && (s.threads[t].Watch? && works ==> s.threads[t].c in s.stopped)
      && (s.threads[t].Sweep? && s.threads[t].rest != {} ==> pick in s.threads[t].rest)
  }

  function Resume(after: After): PC {
    match after
    case ThenDial(vm) => Dial(vm)
    case ThenDone => Done
  }

  function CloseStop(s: State, t: nat, c: Conn, next: PC): State
    requires t < |s.threads|
  {
    s.(doubleClose := s.doubleClose || c in s.stopped, stopped := s.stopped + {c}, threads := s.threads[t := next])
  }

  function CloseConn(s: State, t: nat, c: Conn, next: PC): State
    requires t < |s.threads|
  {
    s.(closed := s.closed + {c}, dead := s.dead + {c}, threads := s.threads[t := next],
       home := if c < |s.home| then s.home[c := Closed] else s.home)
  }

  function Goto(s: State, t: nat, next: PC): State
    requires t < |s.threads|
  {
    s.(threads := s.threads[t := next])
  }

  function Moved(home: seq<Place>, c: Conn, p: Place): seq<Place> {
    if c < |home| then home[c := p] else home
  }

  function DoTake(s: State, t: nat, vm: string, after: After): State
    requires t < |s.threads|
  {
    if vm !in s.clients then Goto(s, t, Resume(after)) else
    var c := s.clients[vm];
    Goto(s, t, Stop(c, after)).(clients := Without(s.clients, vm), home := Moved(s.home, c, Taken(t)))
  }

  function DoDial(s: State, t: nat, vm: string, works: bool): State
    requires t < |s.threads|
  {
    if !works then Goto(s, t, Done) else
    Goto(s, t, Install(vm, |s.home|)).(home := s.home + [Held(t)], vmOf := s.vmOf + [vm])
  }

  function DoInstall(s: State, t: nat, vm: string, c: Conn): State
    requires t < |s.threads|
  {
    if Yields(s.clients, s.dead, vm) then CloseConn(s, t, c, Returned(vm, s.clients[vm])) else
    var displaced := if vm in s.clients then {s.clients[vm]} else {};
    var home := if vm in s.clients then Moved(s.home, s.clients[vm], Displaced) else s.home;
    s.(clients := s.clients[vm := c],
       displaced := s.displaced + displaced,
       home := Moved(home, c, InMap(vm)),
       threads := s.threads[t := Returned(vm, c)] + [Watch(vm, c)], calls := s.calls + [Watch(vm, c)])
  }

  function DoTakeAll(s: State, t: nat): State
    requires t < |s.threads|
  {
    Goto(s, t, Sweep(s.clients.Values)).(
      clients := map[],
      home := seq(|s.home|, c requires 0 <= c < |s.home| => if s.home[c].InMap? then Taken(t) else s.home[c]))
  }

  function Do(s: State, a: Action): State
    requires Enabled(s, a)
  {
    match a
    case Arrive(pc) => s.(threads := s.threads + [pc], calls := s.calls + [pc])
    case Die(c) => s.(dead := s.dead + {c})
    case Go(t, works, pick) =>
      match s.threads[t]
      case Lookup(vm) => Goto(s, t, if vm in s.clients then Probe(vm, s.clients[vm]) else Dial(vm))
      case Probe(vm, c) => Goto(s, t, if c in s.dead then Take(vm, ThenDial(vm), Some(c)) else Returned(vm, c))
      case Dial(vm) => DoDial(s, t, vm, works)
      case Install(vm, c) => DoInstall(s, t, vm, c)
      case Take(vm, after, _) => DoTake(s, t, vm, after)
      case Stop(c, after) => CloseStop(s, t, c, Hangup(c, after))
      case Hangup(c, after) => CloseConn(s, t, c, Resume(after))
      // keepalive drops whatever the name has now, not the entry it watched
      case Watch(vm, c) =>
        Goto(s, t, if works then Done else if c in s.dead then Take(vm, ThenDone, Some(c)) else Watch(vm, c))
      case TakeAll => DoTakeAll(s, t)
      case Sweep(rest) =>
        if rest == {} then Goto(s, t, Done) else CloseStop(s, t, pick, SweepHangup(pick, rest - {pick}))
      case SweepHangup(c, rest) => CloseConn(s, t, c, Sweep(rest))
      case Returned(_, _) => s
      case Done => s
  }

  // ---- what holds in every reachable state --------------------------------------------

  // An entry some goroutine has taken out and not yet closed.
  predicate Holds(pc: PC, c: Conn) {
    match pc
    case Stop(d, _) => c == d
    case Hangup(d, _) => c == d
    case Sweep(rest) => c in rest
    case SweepHangup(d, rest) => c == d || c in rest
    case _ => false
  }

  predicate IsAt(s: State, c: Conn, p: Place) {
    match p
    case Held(t) => t < |s.threads| && s.threads[t].Install? && s.threads[t].c == c
    case InMap(vm) => vm in s.clients && s.clients[vm] == c
    case Taken(t) => t < |s.threads| && Holds(s.threads[t], c)
    case Closed => c in s.closed
    case Displaced => c in s.displaced
  }

  // The stop channel of a taken entry is closed once its goroutine has passed it.
  predicate PassedStop(pc: PC, c: Conn) {
    (pc.Hangup? && pc.c == c) || (pc.SweepHangup? && pc.c == c)
  }

  ghost predicate WellPlaced(s: State) {
    && |s.vmOf| == |s.home|
    && (forall c: Conn, p :: IsAt(s, c, p) ==> c < |s.home| && s.home[c] == p)
    && (forall c :: 0 <= c < |s.home| ==> IsAt(s, c, s.home[c]))
  }

  ghost predicate StopsMatch(s: State) {
    && !s.doubleClose
    && (forall c :: c in s.stopped ==> c < |s.home| && (s.home[c] == Closed || s.home[c].Taken?))
    && (forall c :: 0 <= c < |s.home| && s.home[c].Taken? ==>
          s.home[c].t < |s.threads| && (c in s.stopped <==> PassedStop(s.threads[s.home[c].t], c)))
    && (forall t :: 0 <= t < |s.threads| && s.threads[t].SweepHangup? ==> s.threads[t].c !in s.threads[t].rest)
  }

  ghost predicate DeadStayPut(s: State) {
    && s.closed <= s.dead && s.displaced <= s.dead
    && (forall c :: c in s.dead ==> c < |s.home|)
  }

  ghost predicate RightPC(s: State, pc: PC) {
    match pc
    case Probe(vm, c) => c < |s.vmOf| && s.vmOf[c] == vm
    case Install(vm, c) => c < |s.vmOf| && s.vmOf[c] == vm
    case Returned(vm, c) => c < |s.vmOf| && s.vmOf[c] == vm
    case Watch(vm, c) => c < |s.vmOf| && s.vmOf[c] == vm
    case Take(vm, _, Some(c)) => c < |s.vmOf| && s.vmOf[c] == vm && c in s.dead
    case _ => true
  }

  ghost predicate RightVM(s: State) {
    && (forall vm :: vm in s.clients ==> s.clients[vm] < |s.vmOf| && s.vmOf[s.clients[vm]] == vm)
    && (forall t :: 0 <= t < |s.threads| ==> RightPC(s, s.threads[t]))
  }

  ghost predicate Inv(s: State) {
    WellPlaced(s) && StopsMatch(s) && DeadStayPut(s) && RightVM(s)
  }

  // ---- one step keeps it -----------------------------------------------------------------

  // A goroutine that neither had nor gets a connection of its own to look after.
  lemma QuietStep(s: State, t: nat, next: PC)
    requires Inv(s) && t < |s.threads|
    requires !s.threads[t].Install? && forall c :: !Holds(s.threads[t], c)
    requires !next.Install? && (forall c :: !Holds(next, c)) && RightPC(s, next)
    ensures Inv(Goto(s, t, next))
  {
    var s' := Goto(s, t, next);
    assert next.SweepHangup? ==> Holds(next, next.c);
    forall c: Conn, p
      ensures IsAt(s', c, p) <==> IsAt(s, c, p)
    {
    }
  }

  lemma DialStep(s: State, t: nat, vm: string)
    requires Inv(s) && t < |s.threads| && s.threads[t] == Dial(vm)
    ensures Inv(DoDial(s, t, vm, true))
  {
    var s', n := DoDial(s, t, vm, true), |s.home|;
    forall c: Conn, p
      ensures IsAt(s', c, p) <==> IsAt(s, c, p) || (c == n && p == Held(t))
    {
    }
    forall c | 0 <= c < |s'.home|
      ensures IsAt(s', c, s'.home[c])
    {
      assert c < n ==> IsAt(s, c, s.home[c]);
    }
  }

  // After a step that moves connection `d`, and no other, to place `q`.
  lemma OneMoves(s: State, s': State, d: Conn, q: Place)
    requires WellPlaced(s) && s'.vmOf == s.vmOf && d < |s.home| && s'.home == s.home[d := q]
    requires forall c: Conn, p :: c != d ==> (IsAt(s', c, p) <==> IsAt(s, c, p))
    requires forall p :: IsAt(s', d, p) <==> p == q
    ensures WellPlaced(s')
  {
    forall c | 0 <= c < |s'.home|
      ensures IsAt(s', c, s'.home[c])
    {
      assert c != d ==> IsAt(s, c, s.home[c]);
    }
  }

  lemma TakeStep(s: State, t: nat, vm: string, after: After)
    requires Inv(s) && t < |s.threads| && s.threads[t].Take? && vm in s.clients
    ensures Inv(DoTake(s, t, vm, after))
  {
    var s', d := DoTake(s, t, vm, after), s.clients[vm];
    assert IsAt(s, d, InMap(vm));
    forall p
      ensures IsAt(s', d, p) <==> p == Taken(t)
    {
      assert IsAt(s, d, p) ==> p == InMap(vm);
    }
    forall c: Conn, p | c != d
      ensures IsAt(s', c, p) <==> IsAt(s, c, p)
    {
    }
    OneMoves(s, s', d, Taken(t));
  }

  // Closing a stop channel: Drop's, or the next one of Close.
  lemma StopStep(s: State, t: nat, d: Conn, next: PC)
    requires Inv(s) && t < |s.threads| && Holds(s.threads[t], d) && !PassedStop(s.threads[t], d)
    requires (s.threads[t].Stop? && next == Hangup(d, s.threads[t].after))
          || (s.threads[t].Sweep? && next == SweepHangup(d, s.threads[t].rest - {d}))
    ensures Inv(CloseStop(s, t, d, next))
  {
    var s' := CloseStop(s, t, d, next);
    assert IsAt(s, d, Taken(t));
    forall c: Conn, p
      ensures IsAt(s', c, p) <==> IsAt(s, c, p)
    {
      assert Holds(next, c) <==> Holds(s.threads[t], c);
    }
  }

  // Closing a connection this goroutine alone has: taken, or dialled in vain.
  lemma HangupStep(s: State, t: nat, d: Conn, next: PC)
    requires Inv(s) && t < |s.threads| && RightPC(s, next)
    requires match s.threads[t]
             case Hangup(c, after) => c == d && next == Resume(after)
             case SweepHangup(c, rest) => c == d && next == Sweep(rest)
             case Install(vm, c) => c == d && next.Returned?
             case _ => false
    ensures Inv(CloseConn(s, t, d, next))
  {
    var s' := CloseConn(s, t, d, next);
    var q := if s.threads[t].Install? then Held(t) else Taken(t);
    assert IsAt(s, d, q);
    forall c: Conn, p | c != d
      ensures IsAt(s', c, p) <==> IsAt(s, c, p)
    {
    }
    forall p
      ensures IsAt(s', d, p) <==> p == Closed
    {
      assert IsAt(s, d, p) ==> p == q;
    }
    OneMoves(s, s', d, Closed);
  }

  // A dead entry about to be overwritten.
  function Displace(s: State, vm: string): State
    requires vm in s.clients
  {
    s.(clients := s.clients - {vm}, displaced := s.displaced + {s.clients[vm]},
       home := Moved(s.home, s.clients[vm], Displaced))
  }

  lemma DisplaceStep(s: State, vm: string)
    requires Inv(s) && vm in s.clients && s.clients[vm] in s.dead
    ensures Inv(Displace(s, vm))
  {
    var m, e := Displace(s, vm), s.clients[vm];
    assert IsAt(s, e, InMap(vm));
    forall p
      ensures IsAt(m, e, p) <==> p == Displaced
    {
      assert IsAt(s, e, p) ==> p == InMap(vm);
    }
    forall c: Conn, p | c != e
      ensures IsAt(m, c, p) <==> IsAt(s, c, p)
    {
    }
    OneMoves(s, m, e, Displaced);
  }

  // Filing a fresh connection where there is none.
  lemma FileStep(s: State, t: nat, vm: string, d: Conn)
    requires Inv(s) && t < |s.threads| && s.threads[t] == Install(vm, d) && vm !in s.clients
    ensures Inv(DoInstall(s, t, vm, d))
  {
    var s' := DoInstall(s, t, vm, d);
    assert IsAt(s, d, Held(t));
    forall p
      ensures IsAt(s', d, p) <==> p == InMap(vm)
    {
      assert IsAt(s, d, p) ==> p == Held(t);
    }
    forall c: Conn, p | c != d
      ensures IsAt(s', c, p) <==> IsAt(s, c, p)
    {
    }
    OneMoves(s, s', d, InMap(vm));
  }

  lemma InstallStep(s: State, t: nat, vm: string, d: Conn)
    requires Inv(s) && t < |s.threads| && s.threads[t] == Install(vm, d)
    ensures Inv(DoInstall(s, t, vm, d))
  {
    assert RightPC(s, s.threads[t]);
    if vm !in s.clients {
      FileStep(s, t, vm, d);
    } else if s.clients[vm] in s.dead {
      FilingOverTheDead(s, t, vm, d);
      DisplaceStep(s, vm);
      FileStep(Displace(s, vm), t, vm, d);
    } else {
      HangupStep(s, t, d, Returned(vm, s.clients[vm]));
    }
  }

  lemma FilingOverTheDead(s: State, t: nat, vm: string, d: Conn)
    requires t < |s.threads| && vm in s.clients && s.clients[vm] in s.dead
    ensures DoInstall(s, t, vm, d) == DoInstall(Displace(s, vm), t, vm, d)
  {
    assert s.clients[vm := d] == (s.clients - {vm})[vm := d];
  }

  lemma TakeAllStep(s: State, t: nat)
    requires Inv(s) && t < |s.threads| && s.threads[t].TakeAll?
    ensures Inv(DoTakeAll(s, t))
  {
    var s' := DoTakeAll(s, t);
    forall c: Conn, p | IsAt(s', c, p)
      ensures c < |s'.home| && s'.home[c] == p
    {
      if p == Taken(t) {
        var vm :| vm in s.clients && s.clients[vm] == c;
        assert IsAt(s, c, InMap(vm));
      } else {
        assert IsAt(s, c, p);
      }
    }
    forall c | 0 <= c < |s'.home|
      ensures IsAt(s', c, s'.home[c])
    {
      assert IsAt(s, c, s.home[c]);
    }
  }

  // A call begins, or a connection dies.
  lemma OutsideStep(s: State, a: Action)
    requires Inv(s) && Enabled(s, a) && !a.Go?
    ensures Inv(Do(s, a))
  {
    forall c: Conn, p
      ensures IsAt(Do(s, a), c, p) <==> IsAt(s, c, p)
    {
    }
  }

  lemma GoStep(s: State, a: Action)
    requires Inv(s) && Enabled(s, a) && a.Go?
    ensures Inv(Do(s, a))
  {
    var t := a.t;
    match s.threads[t]
    case Lookup(vm) => QuietStep(s, t, Do(s, a).threads[t]);
    case Probe(vm, c) => QuietStep(s, t, Do(s, a).threads[t]);
    case Dial(vm) => if a.works { DialStep(s, t, vm); } else { QuietStep(s, t, Done); }
    case Install(vm, c) => InstallStep(s, t, vm, c);
    case Take(vm, after, _) =>
      if vm in s.clients { TakeStep(s, t, vm, after); } else { QuietStep(s, t, Resume(after)); }
    case Stop(c, after) => StopStep(s, t, c, Hangup(c, after));
    case Hangup(c, after) => HangupStep(s, t, c, Resume(after));
    case Watch(vm, c) => QuietStep(s, t, Do(s, a).threads[t]);
    case TakeAll => TakeAllStep(s, t);
    case Sweep(rest) =>
      if rest == {} { QuietStep(s, t, Done); } else { StopStep(s, t, a.pick, SweepHangup(a.pick, rest - {a.pick})); }
    case SweepHangup(c, rest) => HangupStep(s, t, c, Sweep(rest));
  }

  lemma InvStep(s: State, a: Action)
    requires Inv(s) && Enabled(s, a)
    ensures Inv(Do(s, a))
  {
    if a.Go? { GoStep(s, a); } else { OutsideStep(s, a); }
  }

  // ---- every run ------------------------------------------------------------------------

  predicate Runs(s: State, moves: seq<Action>)
    decreases moves
  {
    moves == [] || (Enabled(s, moves[0]) && Runs(Do(s, moves[0]), moves[1..]))
  }

  function End(s: State, moves: seq<Action>): State
    requires Runs(s, moves)
    decreases moves
  {
    if moves == [] then s else End(Do(s, moves[0]), moves[1..])
  }

  ghost predicate Reachable(s: State) {
    exists moves :: Runs(INIT, moves) && End(INIT, moves) == s
  }

  lemma {:induction false} InvHolds(s: State, moves: seq<Action>)
    requires Inv(s) && Runs(s, moves)
    ensures Inv(End(s, moves))
    decreases moves
  {
    if moves != [] {
      InvStep(s, moves[0]);
      InvHolds(Do(s, moves[0]), moves[1..]);
    }
  }

  lemma ReachableInv(s: State)
    requires Reachable(s)
    ensures Inv(s)
  {
    var moves :| Runs(INIT, moves) && End(INIT, moves) == s;
    InvHolds(INIT, moves);
  }

  // In every interleaving no stop channel is closed twice, and an entry still in
  // the map has an open one.
  lemma StopChannelsClosedOnce(s: State)
    requires Reachable(s)
    ensures !s.doubleClose
    ensures forall vm :: vm in s.clients ==> s.clients[vm] !in s.stopped
  {
    ReachableInv(s);
    forall vm | vm in s.clients
      ensures s.clients[vm] !in s.stopped
    {
      assert IsAt(s, s.clients[vm], InMap(vm));
    }
  }

  // Every dialled connection is in exactly one place, and a live one is never
  // among the closed or the displaced: some Get holds it, it is in the map, or a
  // Drop or Close has it and has yet to close it.
  lemma NoLiveConnectionLost(s: State, c: Conn)
    requires Reachable(s) && c < |s.home|
    ensures exists p ::
              && IsAt(s, c, p)
              && (forall q :: IsAt(s, c, q) ==> q == p)
              && (c !in s.dead ==> p.Held? || p.InMap? || p.Taken?)
  {
    ReachableInv(s);
    assert IsAt(s, c, s.home[c]);
  }

  // Get hands out only connections dialled for the VM it was asked for.
  lemma GetReturnsTheRightVM(s: State, t: nat)
    requires Reachable(s) && t < |s.threads| && s.threads[t].Returned?
    ensures s.threads[t].c < |s.vmOf| && s.vmOf[s.threads[t].c] == s.threads[t].vm
  {
    ReachableInv(s);
    assert RightPC(s, s.threads[t]);
  }

  // No call of Get, Drop or Close is under way; keepalives may be watching.
  predicate Finished(pc: PC) { pc.Done? || pc.Returned? || pc.Watch? }

  // Once every Get, Drop and Close has finished and the map is empty, nothing is
  // left open: each connection ever dialled is dead.
  lemma NothingLeaks(s: State)
    requires Reachable(s) && s.clients == map[]
    requires forall t :: 0 <= t < |s.threads| ==> Finished(s.threads[t])
    ensures forall c :: 0 <= c < |s.home| ==> c in s.dead
  {
    forall c | 0 <= c < |s.home|
      ensures c in s.dead
    {
      ReachableInv(s);
      assert IsAt(s, c, s.home[c]);
    }
  }

  // ---- dropping by name ------------------------------------------------------------------

  // The name has a live connection on file.
  predicate LiveOnFile(s: State, vm: string) {
    vm in s.clients && s.clients[vm] !in s.dead
  }

  // A Get or a keepalive that found connection c dead drops by name. What it takes
  // is live exactly when a live connection is on file by then, and is the one it
  // found dead exactly when that one is still in the map.
  lemma DropTakesWhatIsFiled(s: State, t: nat, c: Conn, works: bool, pick: Conn)
    requires Reachable(s) && t < |s.threads| && s.threads[t].Take? && s.threads[t].found == Some(c)
    ensures var vm, next := s.threads[t].vm, Do(s, Go(t, works, pick)).threads[t];
            && c in s.dead && c < |s.home|
            && (next.Stop? <==> vm in s.clients)
            && (next.Stop? && next.c !in s.dead <==> LiveOnFile(s, vm))
            && (next.Stop? && next.c == c <==> vm in s.clients && s.clients[vm] == c)
            && (next.Stop? && next.c == c <==> s.home[c] == InMap(vm))
  {
    ReachableInv(s);
    assert RightPC(s, s.threads[t]);
    assert IsAt(s, c, s.home[c]);
    var vm := s.threads[t].vm;
    assert vm in s.clients ==> IsAt(s, s.clients[vm], InMap(vm));
  }

  // No Get files a connection for this VM during the run.
  predicate FilesNothing(s: State, moves: seq<Action>, vm: string)
    requires Runs(s, moves)
    decreases moves
  {
    moves == [] ||
    (&& (moves[0].Go? && s.threads[moves[0].t].Install? && s.threads[moves[0].t].vm == vm ==> LiveOnFile(s, vm))
     && FilesNothing(Do(s, moves[0]), moves[1..], vm))
  }

  // So only another Get can put a live connection in harm's way: one that filed it
  // before the drop was decided, or between the decision and the drop.
  lemma {:induction false} NothingLiveAppears(s: State, moves: seq<Action>, vm: string)
    requires Runs(s, moves) && !LiveOnFile(s, vm) && FilesNothing(s, moves, vm)
    ensures !LiveOnFile(End(s, moves), vm)
    decreases moves
  {
    if moves != [] {
      NothingLiveAppears(Do(s, moves[0]), moves[1..], vm);
    }
  }

  lemma {:induction false} EndOneMore(s: State, moves: seq<Action>, a: Action)
    requires Runs(s, moves) && Enabled(End(s, moves), a)
    ensures Runs(s, moves + [a]) && End(s, moves + [a]) == Do(End(s, moves), a)
    decreases moves
  {
    if moves == [] {
      assert (moves + [a])[1..] == [];
    } else {
      EndOneMore(Do(s, moves[0]), moves[1..], a);
      assert (moves + [a])[1..] == moves[1..] + [a];
    }
  }

  lemma Move(s: State, a: Action) returns (s': State)
    requires Reachable(s) && Enabled(s, a)
    ensures s' == Do(s, a) && Reachable(s')
  {
    s' := Do(s, a);
    var moves :| Runs(INIT, moves) && End(INIT, moves) == s;
    EndOneMore(INIT, moves, a);
  }

  // A live connection does get taken. Two Gets dial at once, the first one's
  // connection dies, and the second files its own over it; then the first
  // connection's keepalive takes the second, live one out of the map and is about
  // to close it.
  lemma KeepaliveDropsALiveConnection(vm: string) returns (s: State)
    ensures Reachable(s)
    ensures s.threads == [Returned(vm, 0), Returned(vm, 1), Stop(1, ThenDone), Watch(vm, 1)]
    ensures s.home == [Displaced, Taken(2)] && 1 !in s.dead
  {
    s := BothDial(vm);
    s := Move(s, Go(0, true, 0));
    s := Move(s, Die(0));
    s := Move(s, Go(1, true, 0));
    assert s.threads == [Returned(vm, 0), Returned(vm, 1), Watch(vm, 0), Watch(vm, 1)];
    s := Move(s, Go(2, false, 0));
    s := Move(s, Go(2, true, 0));
  }

  // It need not be on file yet when the keepalive decides: here the second Get
  // files it between the decision and the drop.
  lemma KeepaliveIsOvertaken(vm: string) returns (s: State)
    ensures Reachable(s)
    ensures s.threads == [Returned(vm, 0), Returned(vm, 1), Stop(1, ThenDone), Watch(vm, 1)] && 1 !in s.dead
  {
    s := BothDial(vm);
    s := Move(s, Go(0, true, 0));
    s := Move(s, Die(0));
    s := Move(s, Go(2, false, 0));
    assert s.home[0] == InMap(vm) && s.threads[2] == Take(vm, ThenDone, Some(0));
    s := Move(s, Go(1, true, 0));
    s := Move(s, Go(2, true, 0));
  }

  // And Get's own drop does it too. A third caller finds the first connection dead;
  // before it drops, the second Get files a live one, which the third takes.
  lemma GetDropsALiveConnection(vm: string) returns (s: State)
    ensures Reachable(s)
    ensures s.threads == [Returned(vm, 0), Returned(vm, 1), Watch(vm, 0), Stop(1, ThenDial(vm)), Watch(vm, 1)]
    ensures s.home == [Displaced, Taken(3)] && 1 !in s.dead
  {
    s := BothDial(vm);
    s := Move(s, Go(0, true, 0));
    s := Move(s, Arrive(Lookup(vm)));
    s := Move(s, Go(3, true, 0));
    s := Move(s, Die(0));
    s := Move(s, Go(3, true, 0));
    assert s.threads == [Returned(vm, 0), Install(vm, 1), Watch(vm, 0), Take(vm, ThenDial(vm), Some(0))];
    s := Move(s, Go(1, true, 0));
    s := Move(s, Go(3, true, 0));
  }

  lemma BothDial(vm: string) returns (s: State)
    ensures Reachable(s)
    ensures s == State(map[], [Install(vm, 0), Install(vm, 1)], {}, {}, {}, {}, false, [Held(0), Held(1)], [vm, vm],
                       [Lookup(vm), Lookup(vm)])
  {
    s := INIT;
    assert Runs(INIT, []) && End(INIT, []) == INIT;
    s := Move(s, Arrive(Lookup(vm)));
    s := Move(s, Arrive(Lookup(vm)));
    s := Move(s, Go(0, true, 0));
    s := Move(s, Go(1, true, 0));
    s := Move(s, Go(0, true, 0));
    s := Move(s, Go(1, true, 0));
  }

  // ---- the regions under the pool's lock, as the code runs them ----------------------------

  class Pool {
    var clients: Clients

    // The map is the one the step system has.
    ghost predicate Shows(s: State)
      reads this
    {
      clients == s.clients
    }

    constructor ()
      ensures Shows(INIT)
    {
      clients := map[];
    }

    // Get's first region, in the goroutine t.
    method Lookup(vm: string, ghost s: State, ghost t: nat) returns (existing: Option<Conn>)
      requires Shows(s) && t < |s.threads| && s.threads[t] == PC.Lookup(vm)
      ensures var s' := Do(s, Go(t, true, 0));
              Shows(s') && s'.threads[t] == match existing case Some(c) => Probe(vm, c) case None => Dial(vm)
    {
      existing := if vm in clients then Some(clients[vm]) else None;
    }

    // Get's second region. `alive` is what the probe of the filed connection says.
    // Returns the connection Get hands out, and whether it closes the fresh one.
    method Install(vm: string, dialled: Conn, alive: bool, ghost s: State, ghost t: nat)
      returns (handed: Conn, closeIt: bool)
      requires Shows(s) && t < |s.threads| && s.threads[t] == PC.Install(vm, dialled)
      requires vm in s.clients ==> alive == (s.clients[vm] !in s.dead)
      modifies this
      ensures var s' := Do(s, Go(t, true, 0));
              && Shows(s') && s'.threads[t] == Returned(vm, handed)
              && s'.closed == s.closed + (if closeIt then {dialled} else {})
              && (closeIt <==> vm in s.clients && handed == s.clients[vm] && alive)
    {
      if vm in clients && alive {
        return clients[vm], true;
      }
      clients := clients[vm := dialled];
      return dialled, false;
    }

    // Drop's region.
    method Take(vm: string, ghost s: State, ghost t: nat) returns (entry: Option<Conn>)
      requires Shows(s) && t < |s.threads| && s.threads[t].Take? && s.threads[t].vm == vm
      modifies this
      ensures var s', after := Do(s, Go(t, true, 0)), s.threads[t].after;
              Shows(s') && s'.threads[t] == match entry case Some(c) => Stop(c, after) case None => Resume(after)
    {
      entry := if vm in clients then Some(clients[vm]) else None;
      clients := clients - {vm};
    }

    // Close's region.
    method TakeAll(ghost s: State, ghost t: nat) returns (entries: set<Conn>)
      requires Shows(s) && t < |s.threads| && s.threads[t].TakeAll?
      modifies this
      ensures var s' := Do(s, Go(t, true, 0));
              Shows(s') && s'.threads[t] == Sweep(entries)
    {
      entries := clients.Values;
      clients := map[];
    }
  }
}
