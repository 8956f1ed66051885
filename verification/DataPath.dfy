/** Connections through one tunnel (internal/tunnel/manager.go): the handlers,
    their copiers, the counters and shutdown, under every interleaving. */
module DataPath {
  // Handler h has the client it accepted and, once dialled, a backend.
  datatype Conn = Client(h: nat) | Backend(h: nat)

  // One direction of copying. `written` counts bytes handed to the connection,
  // `counted` those already added to the tunnel's total.
  datatype CopyStep = NotStarted | Reading | Counting(n: nat) | HalfClosing | Sending | Sent
  datatype Copier = Copier(at: CopyStep, written: nat, counted: nat)

  // Where a handler is; the last six are its deferred calls, last deferred first.
  datatype HandlerStep =
    | TrackClient | Dial | TrackBackend | AddActive | AddTotal | Start
    | FirstWait | CloseClientEarly | CloseBackendEarly | SecondWait
    | SubActive | UntrackBackend | CloseBackend | UntrackClient | CloseClient | Finished

  // `queued` is what lies in the done channel, which holds two.
  datatype Handler = Handler(at: HandlerStep, dialled: bool, up: Copier, down: Copier, queued: nat)

  const IDLE := Copier(NotStarted, 0, 0)
  const CHANNEL_SIZE := 2

  datatype State = State(handlers: seq<Handler>, active: int, total: int, bytesUp: int, bytesDown: int,
                         tracked: set<Conn>, closed: set<Conn>)

  const INIT := State([], 0, 0, 0, 0, {}, {})

  // `ok` is the dial's outcome. A copier's write moves `n` bytes, and `more` says
  // whether it goes on reading.
  datatype Action = Accept | Go(i: nat, ok: bool) | Copy(i: nat, upward: bool, n: nat, more: bool) | Shutdown

  predicate Enabled(s: State, a: Action) {
    match a
    case Accept => true
    case Shutdown => true
    case Go(i, _) =>
      && i < |s.handlers|
      && !s.handlers[i].at.Finished?
      && (s.handlers[i].at in {FirstWait, SecondWait} ==> s.handlers[i].queued > 0)
    case Copy(i, upward, _, _) =>
      && i < |s.handlers|
      && var c := if upward then s.handlers[i].up else s.handlers[i].down;
         !c.at.NotStarted? && !c.at.Sent? && (c.at.Sending? ==> s.handlers[i].queued < CHANNEL_SIZE)
  }

  function Put(s: State, i: nat, h: Handler): State
    requires i < |s.handlers|
  {
    s.(handlers := s.handlers[i := h])
  }

  function DoGo(s: State, i: nat, ok: bool): State
    requires i < |s.handlers|
  {
    var h := s.handlers[i];
    match h.at
    case TrackClient => Put(s, i, h.(at := Dial)).(tracked := s.tracked + {Client(i)})
    case Dial => Put(s, i, if ok then h.(at := TrackBackend, dialled := true) else h.(at := UntrackClient))
    case TrackBackend => Put(s, i, h.(at := AddActive)).(tracked := s.tracked + {Backend(i)})
    case AddActive => Put(s, i, h.(at := AddTotal)).(active := s.active + 1)
    case AddTotal => Put(s, i, h.(at := Start)).(total := s.total + 1)
    case Start => Put(s, i, h.(at := FirstWait, up := h.up.(at := Reading), down := h.down.(at := Reading)))
    case FirstWait => Put(s, i, h.(at := CloseClientEarly, queued := if h.queued > 0 then h.queued - 1 else 0))
    case CloseClientEarly => Put(s, i, h.(at := CloseBackendEarly)).(closed := s.closed + {Client(i)})
    case CloseBackendEarly => Put(s, i, h.(at := SecondWait)).(closed := s.closed + {Backend(i)})
    case SecondWait => Put(s, i, h.(at := SubActive, queued := if h.queued > 0 then h.queued - 1 else 0))
    case SubActive => Put(s, i, h.(at := UntrackBackend)).(active := s.active - 1)
    case UntrackBackend => Put(s, i, h.(at := CloseBackend)).(tracked := s.tracked - {Backend(i)})
    case CloseBackend => Put(s, i, h.(at := UntrackClient)).(closed := s.closed + {Backend(i)})
    case UntrackClient => Put(s, i, h.(at := CloseClient)).(tracked := s.tracked - {Client(i)})
    case CloseClient => Put(s, i, h.(at := Finished)).(closed := s.closed + {Client(i)})
    case Finished => s
  }

  // A copier's next step, with the bytes it adds to the tunnel's total.
  function Copied(c: Copier, n: nat, more: bool): (Copier, int) {
    match c.at
    case Reading => if more then (c.(at := Counting(n), written := c.written + n), 0) else (c.(at := HalfClosing), 0)
    case Counting(k) => (c.(at := Reading, counted := c.counted + k), k)
    case HalfClosing => (c.(at := Sending), 0)
    case Sending => (c.(at := Sent), 0)
    case _ => (c, 0)
  }

  function DoCopy(s: State, i: nat, upward: bool, n: nat, more: bool): State
    requires i < |s.handlers|
  {
    var h := s.handlers[i];
    var (c, added) := Copied(if upward then h.up else h.down, n, more);
    var queued := h.queued + if (if upward then h.up else h.down).at.Sending? then 1 else 0;
    if upward then Put(s, i, h.(up := c, queued := queued)).(bytesUp := s.bytesUp + added)
    else Put(s, i, h.(down := c, queued := queued)).(bytesDown := s.bytesDown + added)
  }

  function Do(s: State, a: Action): State
    requires Enabled(s, a)
  {
    match a
    case Accept => s.(handlers := s.handlers + [Handler(TrackClient, false, IDLE, IDLE, 0)])
    case Go(i, ok) => DoGo(s, i, ok)
    case Copy(i, upward, n, more) => DoCopy(s, i, upward, n, more)
    case Shutdown => s.(closed := s.closed + s.tracked, tracked := {})
  }

  // ---- sums over the handlers ------------------------------------------------------------

  ghost function Sum(f: Handler -> int, hs: seq<Handler>): int {
    if hs == [] then 0 else f(hs[0]) + Sum(f, hs[1..])
  }

  lemma {:induction false} SumUpdate(f: Handler -> int, hs: seq<Handler>, i: nat, h: Handler)
    requires i < |hs|
    ensures Sum(f, hs[i := h]) == Sum(f, hs) - f(hs[i]) + f(h)
    decreases hs
  {
    if i > 0 {
      SumUpdate(f, hs[1..], i - 1, h);
      assert hs[i := h][1..] == hs[1..][i - 1 := h];
    }
  }

  lemma {:induction false} SumAppend(f: Handler -> int, hs: seq<Handler>, h: Handler)
    ensures Sum(f, hs + [h]) == Sum(f, hs) + f(h)
    decreases hs
  {
    if hs == [] {
    } else {
      SumAppend(f, hs[1..], h);
      assert (hs + [h])[1..] == hs[1..] + [h];
    }
  }

  lemma {:induction false} SumAgrees(f: Handler -> int, g: Handler -> int, hs: seq<Handler>)
    requires forall h :: h in hs ==> f(h) == g(h)
    ensures Sum(f, hs) == Sum(g, hs)
    decreases hs
  {
    if hs != [] {
      SumAgrees(f, g, hs[1..]);
    }
  }

  lemma {:induction false} SumBounds(f: Handler -> int, hs: seq<Handler>)
    requires forall h :: h in hs ==> 0 <= f(h) <= 1
    ensures 0 <= Sum(f, hs) <= |hs|
    decreases hs
  {
    if hs != [] {
      SumBounds(f, hs[1..]);
    }
  }

  // A handler between its increment of `active` and its decrement.
  function InFlight(h: Handler): int {
    if h.at in {AddTotal, Start, FirstWait, CloseClientEarly, CloseBackendEarly, SecondWait, SubActive} then 1 else 0
  }

  // A handler that has added itself to `total`.
  function InTotal(h: Handler): int {
    if h.dialled && h.at !in {TrackClient, Dial, TrackBackend, AddActive, AddTotal} then 1 else 0
  }

  function Dialled(h: Handler): int { if h.dialled then 1 else 0 }
  function CountedUp(h: Handler): int { h.up.counted }
  function CountedDown(h: Handler): int { h.down.counted }
  function WrittenUp(h: Handler): int { h.up.written }
  function WrittenDown(h: Handler): int { h.down.written }
  function Zero(h: Handler): int { 0 }

  // ---- what holds in every reachable state --------------------------------------------------

  function SentBy(c: Copier): nat { if c.at.Sent? then 1 else 0 }

  // How many completions a handler has taken from its channel.
  function Received(h: Handler): nat {
    match h.at
    case CloseClientEarly => 1
    case CloseBackendEarly => 1
    case SecondWait => 1
    case SubActive => 2
    case UntrackBackend => 2
    case CloseBackend => 2
    case UntrackClient => if h.dialled then 2 else 0
    case CloseClient => if h.dialled then 2 else 0
    case Finished => if h.dialled then 2 else 0
    case _ => 0
  }

  predicate Copies(h: Handler) {
    h.dialled && h.at !in {TrackClient, Dial, TrackBackend, AddActive, AddTotal, Start}
  }

  predicate CopierOk(c: Copier, started: bool) {
    && (c.at.NotStarted? <==> !started)
    && (!started ==> c.written == 0)
    && c.written == c.counted + if c.at.Counting? then c.at.n else 0
  }

  predicate HandlerOk(h: Handler) {
    && CopierOk(h.up, Copies(h)) && CopierOk(h.down, Copies(h))
    && h.queued + Received(h) == SentBy(h.up) + SentBy(h.down)
    && (h.at in {TrackClient, Dial} ==> !h.dialled)
    && (h.at !in {TrackClient, Dial, UntrackClient, CloseClient, Finished} ==> h.dialled)
  }

  predicate ClientTracked(h: Handler) { h.at !in {TrackClient, CloseClient, Finished} }

  predicate BackendTracked(h: Handler) {
    h.dialled && h.at !in {TrackBackend, CloseBackend, UntrackClient, CloseClient, Finished}
  }

  ghost predicate CountersOk(s: State) {
    && s.active == Sum(InFlight, s.handlers) && s.total == Sum(InTotal, s.handlers)
    && s.bytesUp == Sum(CountedUp, s.handlers) && s.bytesDown == Sum(CountedDown, s.handlers)
  }

  ghost predicate ConnsOk(s: State) {
    && (forall c :: c in s.tracked ==>
          c.h < |s.handlers| && if c.Client? then ClientTracked(s.handlers[c.h]) else BackendTracked(s.handlers[c.h]))
    && (forall i :: 0 <= i < |s.handlers| ==>
          var h := s.handlers[i];
          && (ClientTracked(h) ==> Client(i) in s.tracked || Client(i) in s.closed)
          && (BackendTracked(h) ==> Backend(i) in s.tracked || Backend(i) in s.closed)
          && (h.at.Finished? ==> Client(i) in s.closed)
          && (h.at in {CloseBackendEarly, SecondWait, SubActive} ==> Client(i) in s.closed)
          && (h.at in {SecondWait, SubActive} ==> Backend(i) in s.closed)
          && (h.dialled && h.at in {UntrackClient, CloseClient, Finished} ==> Backend(i) in s.closed))
  }

  ghost predicate Inv(s: State) {
    CountersOk(s) && ConnsOk(s) && forall i :: 0 <= i < |s.handlers| ==> HandlerOk(s.handlers[i])
  }

  lemma PutKeepsCounters(s: State, s': State, i: nat, h: Handler)
    requires i < |s.handlers| && s'.handlers == s.handlers[i := h] && CountersOk(s)
    requires s'.active == s.active - InFlight(s.handlers[i]) + InFlight(h)
    requires s'.total == s.total - InTotal(s.handlers[i]) + InTotal(h)
    requires s'.bytesUp == s.bytesUp - CountedUp(s.handlers[i]) + CountedUp(h)
    requires s'.bytesDown == s.bytesDown - CountedDown(s.handlers[i]) + CountedDown(h)
    ensures CountersOk(s')
  {
    SumUpdate(InFlight, s.handlers, i, h);
    SumUpdate(InTotal, s.handlers, i, h);
    SumUpdate(CountedUp, s.handlers, i, h);
    SumUpdate(CountedDown, s.handlers, i, h);
  }

  lemma GoKeepsTheRest(s: State, i: nat, ok: bool)
    requires i < |s.handlers|
    ensures |DoGo(s, i, ok).handlers| == |s.handlers|
    ensures forall j :: 0 <= j < |s.handlers| && j != i ==> DoGo(s, i, ok).handlers[j] == s.handlers[j]
  {
  }

  lemma GoKeepsHandler(s: State, i: nat, ok: bool)
    requires i < |s.handlers| && HandlerOk(s.handlers[i]) && Enabled(s, Go(i, ok))
    ensures HandlerOk(DoGo(s, i, ok).handlers[i])
  {
  }

  lemma GoKeepsCounters(s: State, i: nat, ok: bool)
    requires i < |s.handlers| && HandlerOk(s.handlers[i]) && Enabled(s, Go(i, ok)) && CountersOk(s)
    ensures CountersOk(DoGo(s, i, ok))
  {
    PutKeepsCounters(s, DoGo(s, i, ok), i, DoGo(s, i, ok).handlers[i]);
  }

  lemma GoKeepsConns(s: State, i: nat, ok: bool)
    requires i < |s.handlers| && HandlerOk(s.handlers[i]) && Enabled(s, Go(i, ok)) && ConnsOk(s)
    ensures ConnsOk(DoGo(s, i, ok))
  {
    GoKeepsTheRest(s, i, ok);
  }

  lemma CopyKeeps(s: State, i: nat, upward: bool, n: nat, more: bool)
    requires i < |s.handlers| && Inv(s) && Enabled(s, Copy(i, upward, n, more))
    ensures Inv(DoCopy(s, i, upward, n, more))
  {
    var s' := DoCopy(s, i, upward, n, more);
    assert HandlerOk(s.handlers[i]);
    assert s'.handlers[i].at == s.handlers[i].at && s'.handlers[i].dialled == s.handlers[i].dialled;
    PutKeepsCounters(s, s', i, s'.handlers[i]);
    assert HandlerOk(s'.handlers[i]);
  }

  lemma AcceptKeeps(s: State)
    requires Inv(s)
    ensures Inv(Do(s, Accept))
  {
    var h := Handler(TrackClient, false, IDLE, IDLE, 0);
    SumAppend(InFlight, s.handlers, h);
    SumAppend(InTotal, s.handlers, h);
    SumAppend(CountedUp, s.handlers, h);
    SumAppend(CountedDown, s.handlers, h);
  }

  lemma InvStep(s: State, a: Action)
    requires Inv(s) && Enabled(s, a)
    ensures Inv(Do(s, a))
  {
    match a
    case Accept => AcceptKeeps(s);
    case Go(i, ok) =>
      assert HandlerOk(s.handlers[i]);
      GoKeepsHandler(s, i, ok);
      GoKeepsCounters(s, i, ok);
      GoKeepsConns(s, i, ok);
      GoKeepsTheRest(s, i, ok);
    case Copy(i, upward, n, more) => CopyKeeps(s, i, upward, n, more);
    case Shutdown =>
  }

  // ---- every run ------------------------------------------------------------------------------

  predicate Runs(s: State, moves: seq<Action>)
    decreases moves
  {
    moves == [] || (Enabled(s, moves[0]) && Runs(Do(s, moves[0]), moves[1..]))
  }

  function End(s: State, moves: seq<Action>): State
    requires Runs(s, moves)
    decreases moves
  {
    if moves == [] then s else End(Do(s, moves[0]), moves[1..])
  }

  ghost predicate Reachable(s: State) {
    exists moves :: Runs(INIT, moves) && End(INIT, moves) == s
  }

  lemma {:induction false} InvHolds(s: State, moves: seq<Action>)
    requires Inv(s) && Runs(s, moves)
    ensures Inv(End(s, moves))
    decreases moves
  {
    if moves != [] {
      InvStep(s, moves[0]);
      InvHolds(Do(s, moves[0]), moves[1..]);
    }
  }

  lemma ReachableInv(s: State)
    requires Reachable(s)
    ensures Inv(s)
  {
    var moves :| Runs(INIT, moves) && End(INIT, moves) == s;
    InvHolds(INIT, moves);
  }

  // `active` is the number of handlers in flight, so it is never negative.
  lemma ActiveCountsHandlers(s: State)
    requires Reachable(s)
    ensures s.active == Sum(InFlight, s.handlers) && 0 <= s.active <= |s.handlers|
  {
    ReachableInv(s);
    SumBounds(InFlight, s.handlers);
  }

  // When every handler has finished, nothing is active or tracked, `total` is the
  // number of dials that worked, the byte counts are exactly the bytes written,
  // and both ends of every connection are closed.
  lemma CountersAtRest(s: State)
    requires Reachable(s) && forall i :: 0 <= i < |s.handlers| ==> s.handlers[i].at.Finished?
    ensures s.active == 0 && s.tracked == {}
    ensures s.total == Sum(Dialled, s.handlers)
    ensures s.bytesUp == Sum(WrittenUp, s.handlers) && s.bytesDown == Sum(WrittenDown, s.handlers)
    ensures forall i :: 0 <= i < |s.handlers| ==>
              Client(i) in s.closed && (s.handlers[i].dialled ==> Backend(i) in s.closed)
  {
    ReachableInv(s);
    forall h | h in s.handlers
      ensures InFlight(h) == Zero(h) && InTotal(h) == Dialled(h)
      ensures CountedUp(h) == WrittenUp(h) && CountedDown(h) == WrittenDown(h)
    {
      var i :| 0 <= i < |s.handlers| && s.handlers[i] == h;
      assert HandlerOk(s.handlers[i]);
    }
    SumAgrees(InFlight, Zero, s.handlers);
    SumZero(s.handlers);
    SumAgrees(InTotal, Dialled, s.handlers);
    SumAgrees(CountedUp, WrittenUp, s.handlers);
    SumAgrees(CountedDown, WrittenDown, s.handlers);
  }

  lemma {:induction false} SumZero(hs: seq<Handler>)
    ensures Sum(Zero, hs) == 0
    decreases hs
  {
    if hs != [] {
      SumZero(hs[1..]);
    }
  }

  // At any moment the byte counts lag the bytes written by what copiers have
  // written and not yet added.
  lemma BytesLagByPending(s: State)
    requires Reachable(s)
    ensures s.bytesUp <= Sum(WrittenUp, s.handlers) && s.bytesDown <= Sum(WrittenDown, s.handlers)
  {
    ReachableInv(s);
    SumMonotone(CountedUp, WrittenUp, s.handlers);
    SumMonotone(CountedDown, WrittenDown, s.handlers);
  }

  lemma {:induction false} SumMonotone(f: Handler -> int, g: Handler -> int, hs: seq<Handler>)
    requires forall i :: 0 <= i < |hs| ==> HandlerOk(hs[i])
    requires forall h :: HandlerOk(h) ==> f(h) <= g(h)
    ensures Sum(f, hs) <= Sum(g, hs)
    decreases hs
  {
    if hs != [] {
      SumMonotone(f, g, hs[1..]);
    }
  }

  // A copier about to send its completion always finds room in the channel.
  lemma SendsNeverBlock(s: State, i: nat)
    requires Reachable(s) && i < |s.handlers|
    requires s.handlers[i].up.at.Sending? || s.handlers[i].down.at.Sending?
    ensures s.handlers[i].queued < CHANNEL_SIZE
  {
    ReachableInv(s);
    assert HandlerOk(s.handlers[i]);
  }

  // A handler that waits for its second copier has closed both ends, so that copier's
  // reads and writes fail and it comes to its end.
  lemma OtherCopyIsCut(s: State, i: nat)
    requires Reachable(s) && i < |s.handlers| && s.handlers[i].at.SecondWait?
    ensures Client(i) in s.closed && Backend(i) in s.closed
  {
    ReachableInv(s);
  }

  // A handler copies only while both its ends are tracked or cut, and it is counted
  // as active and in the total.
  lemma TrackedBeforeCopying(s: State, i: nat)
    requires Reachable(s) && i < |s.handlers| && (s.handlers[i].up.at.Reading? || s.handlers[i].down.at.Reading?)
    ensures s.handlers[i].at in {FirstWait, CloseClientEarly, CloseBackendEarly, SecondWait}
    ensures Client(i) in s.tracked || Client(i) in s.closed
    ensures Backend(i) in s.tracked || Backend(i) in s.closed
    ensures InFlight(s.handlers[i]) == 1 && InTotal(s.handlers[i]) == 1
  {
    ReachableInv(s);
    assert HandlerOk(s.handlers[i]);
  }

  lemma CutConns(s: State)
    requires ConnsOk(s)
    ensures var s' := Do(s, Shutdown);
            && s'.tracked == {} && s.tracked <= s'.closed
            && forall i :: 0 <= i < |s'.handlers| ==>
                 && (ClientTracked(s'.handlers[i]) ==> Client(i) in s'.closed)
                 && (BackendTracked(s'.handlers[i]) ==> Backend(i) in s'.closed)
  {
    hide ClientTracked, BackendTracked;
  }

  // The tracked connections belong to running handlers, and once shutdown has had
  // the lock every connection tracked by then is closed: each handler past its
  // track call and short of its untrack has its ends closed.
  lemma ShutdownCutsEveryone(s: State)
    requires Reachable(s)
    ensures forall c :: c in s.tracked ==> c.h < |s.handlers| && !s.handlers[c.h].at.Finished?
    ensures var s' := Do(s, Shutdown);
            && s'.tracked == {} && s.tracked <= s'.closed
            && forall i :: 0 <= i < |s'.handlers| ==>
                 && (ClientTracked(s'.handlers[i]) ==> Client(i) in s'.closed)
                 && (BackendTracked(s'.handlers[i]) ==> Backend(i) in s'.closed)
  {
    ReachableInv(s);
    CutConns(s);
    hide Do;
  }

  // ---- the tracked set itself ---------------------------------------------------------------

  // The lock regions on a tunnel's connections; `closed` records what was closed.
  class Tracked {
    var conns: set<Conn>
    ghost var closed: set<Conn>

    // The shared state the step system sees.
    ghost predicate Shows(s: State)
      reads this
    {
      conns == s.tracked && closed == s.closed
    }

    // track, in handler i, of its client or its backend.
    method Track(c: Conn, ghost s: State, ghost i: nat)
      requires Shows(s) && i < |s.handlers|
      requires (c == Client(i) && s.handlers[i].at.TrackClient?) || (c == Backend(i) && s.handlers[i].at.TrackBackend?)
      modifies this
      ensures Shows(Do(s, Go(i, true)))
    {
      conns := conns + {c};
    }

    method Untrack(c: Conn, ghost s: State, ghost i: nat)
      requires Shows(s) && i < |s.handlers|
      requires (c == Client(i) && s.handlers[i].at.UntrackClient?)
            || (c == Backend(i) && s.handlers[i].at.UntrackBackend?)
      modifies this
      ensures Shows(Do(s, Go(i, true)))
    {
      conns := conns - {c};
    }

    // Shutdown's pass over the set: it closes each connection found there, and
    // starts the tunnel on an empty set.
    method CloseTracked(ghost s: State)
      requires Shows(s)
      modifies this
      ensures Shows(Do(s, Shutdown))
    {
      var rest := conns;
      while rest != {}
        invariant rest <= conns == s.tracked
        invariant closed == s.closed + (conns - rest)
        decreases |rest|
      {
        var c :| c in rest;
        closed := closed + {c};
        rest := rest - {c};
      }
      conns := {};
    }
  }
}
