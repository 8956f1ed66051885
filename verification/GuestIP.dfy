/** Choosing and waiting for a guest's address (internal/hyperv/guest.go). */
module GuestIP {
  import opened Text
  import opened Wrappers

  // A parsed address, as far as the choice goes.
  datatype Ip = Ip(is4: bool, loopback: bool, unspecified: bool, linkLocal: bool)

  // How the addresses read: the parser, and membership of the wanted subnet
  // (always true when none is asked for).
  datatype Reading = Reading(parse: string -> Option<Ip>, inSubnet: string -> bool)

  // One adapter's addresses, and every adapter's, trimmed and without blanks.
  function NonBlank(raws: seq<string>): seq<string> {
    if raws == [] then [] else
    var last := Trim(raws[|raws| - 1]);
    NonBlank(raws[..|raws| - 1]) + if last == "" then [] else [last]
  }

  function Reported(adapters: seq<seq<string>>): seq<string> {
    if adapters == [] then [] else Reported(adapters[..|adapters| - 1]) + NonBlank(adapters[|adapters| - 1])
  }

  predicate Eligible(a: string, rd: Reading) {
    rd.parse(a).Some? && !rd.parse(a).value.loopback && !rd.parse(a).value.unspecified && rd.inSubnet(a)
  }

  // The three kinds of address the choice looks at, in order of preference.
  datatype Kind = RoutableV4 | RoutableV6 | LinkLocalV4

  predicate Is(kind: Kind, a: string, rd: Reading) {
    Eligible(a, rd) &&
    var ip := rd.parse(a).value;
    match kind
    case RoutableV4 => !ip.linkLocal && ip.is4
    case RoutableV6 => !ip.linkLocal && !ip.is4
    case LinkLocalV4 => ip.linkLocal && ip.is4
  }

  // `a` is the first address of a kind in the list, or empty when there is none.
  ghost predicate IsFirst(all: seq<string>, kind: Kind, rd: Reading, a: string) {
    if a == "" then forall i :: 0 <= i < |all| ==> !Is(kind, all[i], rd)
    else exists i :: 0 <= i < |all| && all[i] == a && Is(kind, a, rd)
                     && forall j :: 0 <= j < i ==> !Is(kind, all[j], rd)
  }

  // The choice as it is meant: the first routable IPv4, else the first routable
  // IPv6, else the first link-local IPv4 if those are allowed, else nothing.
  ghost predicate IsChoice(all: seq<string>, rd: Reading, allowLinkLocal: bool, a: string) {
    exists v4, v6, local ::
      && IsFirst(all, RoutableV4, rd, v4) && IsFirst(all, RoutableV6, rd, v6) && IsFirst(all, LinkLocalV4, rd, local)
      && a == if v4 != "" then v4 else if v6 != "" then v6 else if allowLinkLocal then local else ""
  }

  lemma FirstIsUnique(all: seq<string>, kind: Kind, rd: Reading, a: string, b: string)
    requires IsFirst(all, kind, rd, a) && IsFirst(all, kind, rd, b)
    ensures a == b
  {
  }

  // The choice is one address, and allowing link-local addresses never changes an
  // answer there was without them.
  lemma LinkLocalOnlyFillsIn(all: seq<string>, rd: Reading, a: string, allowed: bool, b: string)
    requires IsChoice(all, rd, false, a) && IsChoice(all, rd, allowed, b)
    ensures a != "" || !allowed ==> b == a
  {
    var v4, v6, local :| IsFirst(all, RoutableV4, rd, v4) && IsFirst(all, RoutableV6, rd, v6)
                         && IsFirst(all, LinkLocalV4, rd, local) && a == if v4 != "" then v4 else v6;
    var w4, w6, other :| IsFirst(all, RoutableV4, rd, w4) && IsFirst(all, RoutableV6, rd, w6)
                         && IsFirst(all, LinkLocalV4, rd, other)
                         && b == if w4 != "" then w4 else if w6 != "" then w6 else if allowed then other else "";
    FirstIsUnique(all, RoutableV4, rd, v4, w4);
    FirstIsUnique(all, RoutableV6, rd, v6, w6);
  }

  // Addresses that could be dialled at all; and among them the routable ones.
  predicate Usable(a: string, rd: Reading) {
    match rd.parse(a)
    case None => false
    case Some(ip) => !ip.loopback && !ip.unspecified && rd.inSubnet(a)
  }

  predicate Routable(a: string, rd: Reading, v4: bool) {
    Usable(a, rd) && !rd.parse(a).value.linkLocal && rd.parse(a).value.is4 == v4
  }

  // In terms of the addresses themselves: what is chosen was reported and is usable; it
  // is a routable IPv4 if any is, the first; else a routable IPv6 if any is, the first;
  // else, if they are allowed, a link-local IPv4, the first; and it is nothing only if
  // there is none of these.
  lemma ChoiceMeans(all: seq<string>, rd: Reading, allowLinkLocal: bool, a: string)
    requires "" !in all && IsChoice(all, rd, allowLinkLocal, a)
    ensures a != "" ==>
              && a in all && Usable(a, rd)
              && (Routable(a, rd, true) || Routable(a, rd, false)
                  || (allowLinkLocal && rd.parse(a).value.linkLocal && rd.parse(a).value.is4))
    ensures forall j :: 0 <= j < |all| && Routable(all[j], rd, true) ==>
              a != "" && Routable(a, rd, true) && exists i :: 0 <= i <= j && all[i] == a
    ensures forall j :: 0 <= j < |all| && Routable(all[j], rd, false) ==>
              a != "" && (Routable(a, rd, true) || (Routable(a, rd, false) && exists i :: 0 <= i <= j && all[i] == a))
    ensures allowLinkLocal ==>
              forall j :: 0 <= j < |all| && Usable(all[j], rd) && rd.parse(all[j]).value.is4 ==> a != ""
  {
    var v4, v6, local :| IsFirst(all, RoutableV4, rd, v4) && IsFirst(all, RoutableV6, rd, v6)
                         && IsFirst(all, LinkLocalV4, rd, local)
                         && a == if v4 != "" then v4 else if v6 != "" then v6 else if allowLinkLocal then local else "";
    forall j | 0 <= j < |all|
      ensures Is(RoutableV4, all[j], rd) <==> Routable(all[j], rd, true)
      ensures Is(RoutableV6, all[j], rd) <==> Routable(all[j], rd, false)
      ensures Is(LinkLocalV4, all[j], rd) <==>
              Usable(all[j], rd) && rd.parse(all[j]).value.linkLocal && rd.parse(all[j]).value.is4
    {
    }
    FirstIsBefore(all, RoutableV4, rd, v4);
    FirstIsBefore(all, RoutableV6, rd, v6);
    FirstIsBefore(all, LinkLocalV4, rd, local);
    hide IsFirst, Is;
  }

  lemma FirstIsBefore(all: seq<string>, kind: Kind, rd: Reading, a: string)
    requires "" !in all && IsFirst(all, kind, rd, a)
    ensures a != "" ==> a in all && Is(kind, a, rd)
    ensures forall j :: 0 <= j < |all| && Is(kind, all[j], rd) ==> a != "" && exists i :: 0 <= i <= j && all[i] == a
  {
  }

  // Seeing one more address: it is first only if nothing before it was.
  lemma FirstOneMore(all: seq<string>, kind: Kind, rd: Reading, best: string, a: string)
    requires IsFirst(all, kind, rd, best) && a != ""
    ensures IsFirst(all + [a], kind, rd, if best == "" && Is(kind, a, rd) then a else best)
  {
    var more := all + [a];
    if best != "" {
      var i :| 0 <= i < |all| && all[i] == best && Is(kind, best, rd)
               && forall j :: 0 <= j < i ==> !Is(kind, all[j], rd);
      assert more[i] == best && forall j :: 0 <= j < i ==> !Is(kind, more[j], rd);
    } else if Is(kind, a, rd) {
      assert more[|all|] == a && forall j :: 0 <= j < |all| ==> !Is(kind, more[j], rd);
    }
  }

  // The three firsts of a list; with link-local addresses refused, none is kept.
  ghost predicate AreBest(all: seq<string>, rd: Reading, allowLinkLocal: bool, v4: string, v6: string, local: string) {
    && IsFirst(all, RoutableV4, rd, v4) && IsFirst(all, RoutableV6, rd, v6)
    && if allowLinkLocal then IsFirst(all, LinkLocalV4, rd, local) else local == ""
  }

  // The body of the loop: one reported address.
  method Consider(ghost all: seq<string>, rd: Reading, allowLinkLocal: bool, raw: string,
                  v4: string, v6: string, local: string) returns (bestV4: string, bestV6: string, bestLinkLocal: string)
    requires raw != "" && AreBest(all, rd, allowLinkLocal, v4, v6, local)
    ensures AreBest(all + [raw], rd, allowLinkLocal, bestV4, bestV6, bestLinkLocal)
  {
    FirstOneMore(all, RoutableV4, rd, v4, raw);
    FirstOneMore(all, RoutableV6, rd, v6, raw);
    if allowLinkLocal {
      FirstOneMore(all, LinkLocalV4, rd, local, raw);
    }
    bestV4, bestV6, bestLinkLocal := v4, v6, local;
    var ip := rd.parse(raw);
    if ip.None? || ip.value.loopback || ip.value.unspecified {
      return;
    }
    if !rd.inSubnet(raw) {
      return;
    }
    if ip.value.linkLocal {
      if allowLinkLocal && bestLinkLocal == "" && ip.value.is4 {
        bestLinkLocal := raw;
      }
    } else if ip.value.is4 {
      if bestV4 == "" {
        bestV4 := raw;
      }
    } else if bestV6 == "" {
      bestV6 := raw;
    }
  }

  method PickGuestIP(adapters: seq<seq<string>>, rd: Reading, allowLinkLocal: bool)
    returns (address: string, all: seq<string>)
    ensures all == Reported(adapters)
    ensures IsChoice(all, rd, allowLinkLocal, address)
  {
    all := [];
    var bestV4, bestV6, bestLinkLocal := "", "", "";
    for k := 0 to |adapters|
      invariant all == Reported(adapters[..k])
      invariant AreBest(all, rd, allowLinkLocal, bestV4, bestV6, bestLinkLocal)
    {
      ghost var before := all;
      var a := adapters[k];
      for m := 0 to |a|
        invariant all == before + NonBlank(a[..m])
        invariant AreBest(all, rd, allowLinkLocal, bestV4, bestV6, bestLinkLocal)
      {
        assert a[..m + 1][..m] == a[..m];
        var raw := Trim(a[m]);
        if raw != "" {
          bestV4, bestV6, bestLinkLocal := Consider(all, rd, allowLinkLocal, raw, bestV4, bestV6, bestLinkLocal);
          all := all + [raw];
        }
      }
      assert a[..|a|] == a && adapters[..k + 1][..k] == adapters[..k];
    }
    assert adapters[..|adapters|] == adapters;
    ReportedNonBlank(adapters);
    address := if bestV4 != "" then bestV4 else if bestV6 != "" then bestV6 else bestLinkLocal;
    BestIsChoice(all, rd, allowLinkLocal, bestV4, bestV6, bestLinkLocal);
  }

  // The report is every adapter's addresses one after another, trimmed, the blank ones
  // left out.
  lemma {:induction false} ReportJoins(a: seq<seq<string>>, b: seq<seq<string>>)
    ensures Reported(a + b) == Reported(a) + Reported(b)
  {
    if b == [] {
      assert a + b == a;
    } else {
      assert (a + b)[..|a + b| - 1] == a + b[..|b| - 1];
      ReportJoins(a, b[..|b| - 1]);
    }
  }

  lemma {:induction false} AdapterJoins(a: seq<string>, b: seq<string>)
    ensures NonBlank(a + b) == NonBlank(a) + NonBlank(b)
  {
    if b == [] {
      assert a + b == a;
    } else {
      assert (a + b)[..|a + b| - 1] == a + b[..|b| - 1];
      AdapterJoins(a, b[..|b| - 1]);
    }
  }

  lemma OneReported(raw: string)
    ensures Reported([[raw]]) == if Trim(raw) == "" then [] else [Trim(raw)]
  {
    var adapter: seq<string> := [raw];
    var adapters: seq<seq<string>> := [adapter];
    assert adapters[..0] == [] && adapter[..0] == [];
    assert NonBlank(adapter) == [] + if Trim(raw) == "" then [] else [Trim(raw)];
    assert Reported(adapters) == [] + NonBlank(adapter);
  }

  lemma {:induction false} FirstExists(all: seq<string>, kind: Kind, rd: Reading) returns (a: string)
    requires "" !in all
    ensures IsFirst(all, kind, rd, a)
  {
    a := "";
    if all != [] {
      var n := |all| - 1;
      var best := FirstExists(all[..n], kind, rd);
      FirstOneMore(all[..n], kind, rd, best, all[n]);
      assert all[..n] + [all[n]] == all;
      a := if best == "" && Is(kind, all[n], rd) then all[n] else best;
    }
  }

  lemma {:induction false} ReportedNonBlank(adapters: seq<seq<string>>)
    ensures "" !in Reported(adapters)
  {
    if adapters != [] {
      ReportedNonBlank(adapters[..|adapters| - 1]);
      NoBlanks(adapters[|adapters| - 1]);
    }
  }

  lemma {:induction false} NoBlanks(raws: seq<string>)
    ensures "" !in NonBlank(raws)
  {
    if raws != [] {
      NoBlanks(raws[..|raws| - 1]);
    }
  }

  lemma BestIsChoice(all: seq<string>, rd: Reading, allowLinkLocal: bool, v4: string, v6: string, local: string)
    requires "" !in all && AreBest(all, rd, allowLinkLocal, v4, v6, local)
    ensures IsChoice(all, rd, allowLinkLocal, if v4 != "" then v4 else if v6 != "" then v6 else local)
  {
    var first := FirstExists(all, LinkLocalV4, rd);
  }

  // ---- waiting ---------------------------------------------------------------------------

  // Milliseconds.
  const POLL_INTERVAL := 2000
  const DEFAULT_TIMEOUT := 120_000

  datatype Waited = Found(address: string, all: seq<string>) | PollFailed | Cancelled | TimedOut(all: seq<string>)

  // The world waited in: what the k-th poll reports (or that it fails), the time
  // just after it, counted from the start, and whether the pause after it is cut
  // short. A pause lasts the interval or longer.
  datatype Guest = Guest(poll: nat -> Option<seq<seq<string>>>, clock: nat -> int, cancelled: nat -> bool)
  {
    ghost predicate Ticks() {
      clock(0) >= 0 && forall k: nat, next: nat :: next == k + 1 ==> clock(next) >= clock(k) + POLL_INTERVAL
    }
  }

  function Deadline(timeout: int): int { if timeout <= 0 then DEFAULT_TIMEOUT else timeout }

  // Poll k answered, with nothing usable.
  ghost predicate CameUpEmpty(g: Guest, rd: Reading, allowLinkLocal: bool, k: nat) {
    g.poll(k).Some? && IsChoice(Reported(g.poll(k).value), rd, allowLinkLocal, "")
  }

  method WaitForGuestIP(g: Guest, rd: Reading, allowLinkLocal: bool, timeout: int) returns (r: Waited, polls: nat)
    requires g.Ticks()
    ensures 1 <= polls <= Deadline(timeout) / POLL_INTERVAL + 1
    ensures timeout > 0 ==> polls <= timeout / POLL_INTERVAL + 1
    ensures r.TimedOut? ==> g.clock(polls - 1) + POLL_INTERVAL > if timeout > 0 then timeout else 120_000
    ensures r.Cancelled? ==> g.clock(polls - 1) + POLL_INTERVAL <= if timeout > 0 then timeout else 120_000
    ensures forall k :: 0 <= k < polls - 1 ==> CameUpEmpty(g, rd, allowLinkLocal, k) && !g.cancelled(k)
    ensures r.PollFailed? <==> g.poll(polls - 1).None?
    ensures r.Found? ==>
              && g.poll(polls - 1).Some? && r.address != "" && r.all == Reported(g.poll(polls - 1).value)
              && IsChoice(r.all, rd, allowLinkLocal, r.address)
    ensures r.Cancelled? ==> CameUpEmpty(g, rd, allowLinkLocal, polls - 1) && g.cancelled(polls - 1)
    ensures r.TimedOut? ==>
              && CameUpEmpty(g, rd, allowLinkLocal, polls - 1) && r.all == Reported(g.poll(polls - 1).value)
              && g.clock(polls - 1) + POLL_INTERVAL > Deadline(timeout)
  {
    var deadline := Deadline(timeout);
    polls := 0;
    while true
      invariant polls * POLL_INTERVAL <= deadline
      invariant g.clock(polls) >= polls * POLL_INTERVAL
      invariant forall k :: 0 <= k < polls ==> CameUpEmpty(g, rd, allowLinkLocal, k) && !g.cancelled(k)
      decreases deadline - polls * POLL_INTERVAL
    {
      var k := polls;
      polls := polls + 1;
      var adapters := g.poll(k);
      if adapters.None? {
        return PollFailed, polls;
      }
      var address, all := PickGuestIP(adapters.value, rd, allowLinkLocal);
      if address != "" {
        return Found(address, all), polls;
      }
      assert CameUpEmpty(g, rd, allowLinkLocal, k);
      if g.clock(k) + POLL_INTERVAL > deadline {
        return TimedOut(all), polls;
      }
      if g.cancelled(k) {
        return Cancelled, polls;
      }
      assert g.clock(k + 1) >= g.clock(k) + POLL_INTERVAL;
    }
  }
}
