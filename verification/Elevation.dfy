/**
 * When the elevated copy sees what its parent was given (internal/winsec/elevate.go,
 * cmd/hypervm-mcp/service.go). Reading a printed line back never yields more
 * backslashes and quotes than went in; so an argument that is lost can be made up for
 * nowhere else on the line, however the words fall.
 */
module Elevation {
  import opened CommandLine

  // ---- what backslashes and quotes weigh -----------------------------------------------

  function Weight(s: string): nat {
    if s == "" then 0 else (if s[0] == '\\' then 2 else if s[0] == '"' then 1 else 0) + Weight(s[1..])
  }

  function TotalWeight(args: seq<string>): nat {
    if args == [] then 0 else Weight(args[0]) + TotalWeight(args[1..])
  }

  lemma {:induction false} WeightJoins(a: string, b: string)
    ensures Weight(a + b) == Weight(a) + Weight(b)
  {
    if a == "" {
      assert a + b == b;
    } else {
      assert (a + b)[1..] == a[1..] + b;
      WeightJoins(a[1..], b);
    }
  }

  lemma {:induction false} TotalJoins(a: seq<string>, b: seq<string>)
    ensures TotalWeight(a + b) == TotalWeight(a) + TotalWeight(b)
  {
    if a == [] {
      assert a + b == b;
    } else {
      assert (a + b)[1..] == a[1..] + b;
      TotalJoins(a[1..], b);
    }
  }

  lemma {:induction false} SlashesWeigh(n: nat)
    ensures Weight(Slashes(n)) == 2 * n
  {
    if n > 0 {
      assert Slashes(n)[1..] == Slashes(n - 1);
      SlashesWeigh(n - 1);
    }
  }

  // ---- what a line yields ----------------------------------------------------------------

  // The weight of everything read from here to the end of the line, however it falls
  // into words.
  function Yield(cmd: string, quoted: bool, slashes: nat): nat
    decreases |cmd|
  {
    if cmd == "" then
      2 * slashes
    else
      var c, rest := cmd[0], cmd[1..];
      if IsBlank(c) && !quoted then
        2 * slashes + Yield(rest, false, 0)
      else if c == '"' && slashes % 2 == 1 then
        2 * (slashes / 2) + 1 + Yield(rest, quoted, 0)
      else if c == '"' && quoted && rest != "" && rest[0] == '"' then
        2 * (slashes / 2) + 1 + Yield(rest[1..], false, 0)
      else if c == '"' then
        2 * (slashes / 2) + Yield(rest, !quoted, 0)
      else if c == '\\' then
        Yield(rest, quoted, slashes + 1)
      else
        2 * slashes + Yield(rest, quoted, 0)
  }

  lemma QuoteWeighs(n: nat, c: char)
    ensures Weight(Slashes(n) + "\"") == 2 * n + 1
    ensures c != '\\' && c != '"' ==> Weight(Slashes(n) + [c]) == 2 * n
  {
    SlashesWeigh(n);
    WeightJoins(Slashes(n), "\"");
    WeightJoins(Slashes(n), [c]);
    assert [c][1..] == "" && "\""[1..] == "";
  }

  lemma {:induction false} WordYields(cmd: string, quoted: bool, slashes: nat)
    ensures var w := ReadArg(cmd, quoted, slashes);
            Weight(w.text) + Yield(w.rest, false, 0) == Yield(cmd, quoted, slashes)
    decreases |cmd|
  {
    SlashesWeigh(slashes);
    SlashesWeigh(slashes / 2);
    if cmd != "" {
      var c, rest := cmd[0], cmd[1..];
      if IsBlank(c) && !quoted {
      } else if c == '"' && slashes % 2 == 1 {
        WordYields(rest, quoted, 0);
        QuoteWeighs(slashes / 2, c);
        WeightJoins(Slashes(slashes / 2) + "\"", ReadArg(rest, quoted, 0).text);
      } else if c == '"' && quoted && rest != "" && rest[0] == '"' {
        WordYields(rest[1..], false, 0);
        QuoteWeighs(slashes / 2, c);
        WeightJoins(Slashes(slashes / 2) + "\"", ReadArg(rest[1..], false, 0).text);
      } else if c == '"' {
        WordYields(rest, !quoted, 0);
        WeightJoins(Slashes(slashes / 2), ReadArg(rest, !quoted, 0).text);
      } else if c == '\\' {
        WordYields(rest, quoted, slashes + 1);
      } else {
        WordYields(rest, quoted, 0);
        QuoteWeighs(slashes, c);
        WeightJoins(Slashes(slashes) + [c], ReadArg(rest, quoted, 0).text);
      }
    }
  }

  lemma {:induction false} LineYields(cmd: string)
    ensures TotalWeight(Arguments(cmd)) == Yield(cmd, false, 0)
    decreases |cmd|
  {
    if cmd == "" {
    } else if IsBlank(cmd[0]) {
      LineYields(cmd[1..]);
    } else {
      var w := ReadArg(cmd, false, 0);
      WordYields(cmd, false, 0);
      LineYields(w.rest);
      assert ([w.text] + Arguments(w.rest))[1..] == Arguments(w.rest);
    }
  }

  // ---- printing and reading loses weight or keeps it ------------------------------------------

  lemma TailYields(more: seq<string>, quoted: bool)
    ensures Yield(Tail(more), quoted, 0) == if more == [] then 0 else Yield(Line(more), quoted, 0)
  {
    if more != [] {
      assert Tail(more)[1..] == Line(more);
    }
  }

  // Reading a backslash and a quote, n backslashes being pending.
  lemma BackslashQuoteYields(n: nat, after: string, quoted: bool)
    ensures Yield("\\\"" + after, quoted, n) ==
            if n % 2 == 0 then n + 1 + Yield(after, quoted, 0)
            else if quoted && after != "" && after[0] == '"' then n + 2 + Yield(after[1..], false, 0)
            else n + 1 + Yield(after, !quoted, 0)
  {
    var cmd := "\\\"" + after;
    assert cmd[1..] == "\"" + after && cmd[1..][1..] == after;
  }

  lemma {:induction false} BareYields(a: string, t: string, quoted: bool, n: nat)
    requires !NeedsQuotes(a) && IsTail(t)
    ensures Yield(a + t, quoted, n) == 2 * n + Weight(a) + Yield(t, quoted, 0)
    decreases |a|
  {
    if a == "" {
      assert a + t == t && Weight(a) == 0;
      assert t != "" ==> t[0] == ' ';
    } else {
      assert (a + t)[1..] == a[1..] + t;
      assert !NeedsQuotes(a[1..]);
      assert !IsBlank(a[0]) && a[0] != '"';
      BareYields(a[1..], t, quoted, if a[0] == '\\' then n + 1 else 0);
    }
  }

  // What the tail yields is at most `rest`, in or out of quotes.
  predicate TailBound(t: string, rest: nat) {
    IsTail(t) && Yield(t, true, 0) <= rest && Yield(t, false, 0) <= rest
  }

  lemma EndYields(t: string, rest: nat, quoted: bool, n: nat)
    requires TailBound(t, rest)
    ensures Yield("\"" + t, quoted, n) <= n + rest
  {
    assert ("\"" + t)[1..] == t;
  }

  // A quoted argument yields at most its own weight, from wherever the reader is; and
  // less if it is not safe and the reader is inside its quotes.
  lemma {:induction false} QuotedYields(y: string, t: string, rest: nat, quoted: bool, n: nat)
    requires TailBound(t, rest)
    ensures Yield(Closing(y, t), quoted, n) <= 2 * n + Weight(y) + rest
    ensures quoted && !SafeFrom(n, y) ==> Yield(Closing(y, t), quoted, n) < 2 * n + Weight(y) + rest
    decreases |y|, 1
  {
    var cmd := Closing(y, t);
    ClosingSteps(y, t);
    if y == "" {
      EndYields(t, rest, quoted, n);
    } else if y[0] == '"' {
      QuoteYields(y, t, rest, quoted, n);
    } else {
      assert cmd[1..] == Closing(y[1..], t);
      QuotedYields(y[1..], t, rest, quoted, if y[0] == '\\' then n + 1 else 0);
    }
  }

  lemma {:induction false} QuoteYields(y: string, t: string, rest: nat, quoted: bool, n: nat)
    requires TailBound(t, rest) && y != "" && y[0] == '"'
    ensures Yield(Closing(y, t), quoted, n) <= 2 * n + Weight(y) + rest
    ensures quoted && !SafeFrom(n, y) ==> Yield(Closing(y, t), quoted, n) < 2 * n + Weight(y) + rest
    decreases |y|, 0
  {
    var after := Closing(y[1..], t);
    ClosingSteps(y, t);
    ClosingSteps(y[1..], t);
    BackslashQuoteYields(n, after, quoted);
    assert y[1..] == "" ==> after[1..] == t;
    QuotedYields(y[1..], t, rest, quoted, 0);
    QuotedYields(y[1..], t, rest, !quoted, 0);
    assert Weight(y) == 1 + Weight(y[1..]);
    hide Yield, Weight, Closing;
  }

  lemma OpeningYields(a: string, t: string, quoted: bool)
    requires NeedsQuotes(a)
    ensures Yield(Printed(a) + t, quoted, 0) == Yield(Closing(a, t), !quoted, 0)
  {
    var cmd := "\"" + Closing(a, t);
    assert Printed(a) + t == cmd && cmd[1..] == Closing(a, t);
    ClosingSteps(a, t);
  }

  lemma SafeFromStart(a: string)
    ensures SafeFrom(0, a) <==> InsideSafe(a)
  {
    SafeFromMeans(0, a);
    assert Slashes(0) + a == a;
  }

  lemma PrintedYields(a: string, t: string, rest: nat, quoted: bool)
    requires TailBound(t, rest)
    ensures Yield(Printed(a) + t, quoted, 0) <= Weight(a) + rest
    ensures !quoted && a != "" && !Survives(a) ==> Yield(Printed(a) + t, quoted, 0) < Weight(a) + rest
  {
    if NeedsQuotes(a) {
      OpeningYields(a, t, quoted);
      SafeFromStart(a);
      QuotedYields(a, t, rest, !quoted, 0);
    } else {
      BareYields(a, t, quoted, 0);
    }
    hide Yield, Weight, Closing;
  }

  lemma {:induction false} LinesYieldNoMore(args: seq<string>, quoted: bool)
    ensures Yield(Line(args), quoted, 0) <= TotalWeight(args)
    ensures TailBound(Tail(args), TotalWeight(args))
    decreases |args|, quoted
  {
    if args != [] {
      LinesYieldNoMore(args[1..], quoted);
      PrintedYields(args[0], Tail(args[1..]), TotalWeight(args[1..]), true);
      PrintedYields(args[0], Tail(args[1..]), TotalWeight(args[1..]), false);
      hide Weight, Printed;
      TailYields(args, true);
      TailYields(args, false);
    }
  }

  // An argument that does not survive, other than an empty one, costs weight.
  lemma {:induction false} LostWeight(args: seq<string>)
    ensures (exists i :: 0 <= i < |args| && args[i] != "" && !Survives(args[i])) ==>
              Yield(Line(args), false, 0) < TotalWeight(args)
  {
    if args != [] {
      var a, more, t := args[0], args[1..], Tail(args[1..]);
      LinesYieldNoMore(more, false);
      if a != "" && !Survives(a) {
        PrintedYields(a, t, TotalWeight(more), false);
      } else if exists i :: 0 <= i < |args| && args[i] != "" && !Survives(args[i]) {
        var i :| 0 <= i < |args| && args[i] != "" && !Survives(args[i]);
        assert more[i - 1] == args[i];
        LostWeight(more);
        if a == "" {
          assert Line(args) == t;
        } else {
          OneArgument(a, t);
          WordYields(Line(args), false, 0);
          assert AfterTail(t) == Line(more);
        }
        TailYields(more, false);
      }
    }
  }

  // ---- empty arguments --------------------------------------------------------------------------

  function NonEmpty(args: seq<string>): seq<string> {
    if args == [] then [] else (if args[0] == "" then [] else [args[0]]) + NonEmpty(args[1..])
  }

  lemma {:induction false} OnlyTheEmptyAreLost(args: seq<string>)
    requires forall i :: 0 <= i < |args| ==> args[i] == "" || Survives(args[i])
    ensures Arguments(Line(args)) == NonEmpty(args)
  {
    if args != [] {
      var a, more, t := args[0], args[1..], Tail(args[1..]);
      OnlyTheEmptyAreLost(more);
      if a == "" {
        assert Line(args) == t;
        assert t != "" ==> t[1..] == Line(more);
      } else {
        OneArgument(a, t);
        assert AfterTail(t) == Line(more);
      }
    }
  }

  lemma {:induction false} NonEmptyMeans(args: seq<string>)
    ensures |NonEmpty(args)| <= |args| && (forall i :: 0 <= i < |NonEmpty(args)| ==> NonEmpty(args)[i] != "")
    ensures |NonEmpty(args)| == |args| <==> forall i :: 0 <= i < |args| ==> args[i] != ""
  {
    if args != [] {
      NonEmptyMeans(args[1..]);
      assert args == [args[0]] + args[1..];
    }
  }

  // A list read back that is as long as the one printed and weighs as much is that
  // list, every argument having survived.
  lemma AsLongAndAsHeavy(args: seq<string>)
    requires |Arguments(Line(args))| == |args| && TotalWeight(Arguments(Line(args))) == TotalWeight(args)
    ensures forall i :: 0 <= i < |args| ==> Survives(args[i])
  {
    LineYields(Line(args));
    LostWeight(args);
    OnlyTheEmptyAreLost(args);
    NonEmptyMeans(args);
  }

  // ---- what splitting leaves ----------------------------------------------------------------------

  // Whatever list splits into these arguments and this file has the pair somewhere in
  // it, or is the arguments themselves.
  lemma {:induction false} SplitsInto(list: seq<string>, args: seq<string>, errFile: string)
    requires WithoutErrFile(list) == Split(args, errFile)
    ensures TotalWeight(list) == TotalWeight(args) + Weight(errFile)
    ensures |list| == |args| + 2 || (errFile == "" && list == args)
  {
    assert Weight(FLAG) == 0 by { FlagWeighsNothing(); }
    if |list| < 2 {
    } else if list[0] == FLAG {
      assert list == [FLAG, errFile] + args;
      TotalJoins([FLAG, errFile], args);
      assert [FLAG, errFile][1..] == [errFile] && [errFile][1..] == [];
    } else {
      var s := WithoutErrFile(list[1..]);
      assert args == [list[0]] + s.args && args[1..] == s.args;
      SplitsInto(list[1..], s.args, errFile);
      assert list == [list[0]] + list[1..];
    }
  }

  lemma FlagWeighsNothing()
    ensures Weight(FLAG) == 0 && Weight("service") == 0
  {
  }

  // ---- both directions -----------------------------------------------------------------------------

  // The child runs `service` and finds the parent's arguments and error file.
  predicate SeesTheSame(child: seq<string>, args: seq<string>, errFile: string) {
    child != [] && child[0] == "service" && WithoutErrFile(child[1..]) == Split(args, errFile)
  }

  lemma {:induction false} NothingAdded(args: seq<string>, sent: seq<string>, errFile: string)
    requires sent == ["service"] + args + [FLAG, errFile]
    ensures |sent| == |args| + 3 && TotalWeight(sent) == TotalWeight(args) + Weight(errFile)
  {
    FlagWeighsNothing();
    TotalJoins(["service"] + args, [FLAG, errFile]);
    TotalJoins(["service"], args);
    assert [FLAG, errFile][1..] == [errFile] && [errFile][1..] == [] && ["service"][1..] == [];
  }

  // With an error file of no name the child would have to find exactly the arguments,
  // but it finds the flag with them.
  lemma NoNameIsNotSeen(args: seq<string>)
    requires TotalWeight(Arguments(Line(["service"] + args + [FLAG, ""]))) == TotalWeight(args)
    ensures Arguments(Line(["service"] + args + [FLAG, ""])) != ["service"] + args
  {
    var sent := ["service"] + args + [FLAG, ""];
    NothingAdded(args, sent, "");
    LineYields(Line(sent));
    LostWeight(sent);
    OnlyTheEmptyAreLost(sent);
    NonEmptyMeans(sent);
    NonEmptyMeans(["service"] + args);
    NonEmptyJoins(["service"] + args, [FLAG, ""]);
    assert [FLAG, ""][1..] == [""] && [""][1..] == [];
    assert NonEmpty([FLAG, ""]) == [FLAG];
  }

  lemma {:induction false} NonEmptyJoins(a: seq<string>, b: seq<string>)
    ensures NonEmpty(a + b) == NonEmpty(a) + NonEmpty(b)
  {
    if a == [] {
      assert a + b == b;
    } else {
      assert (a + b)[1..] == a[1..] + b;
      NonEmptyJoins(a[1..], b);
    }
  }

  // The elevated copy has the original arguments and error file exactly when all of
  // them survive being printed and the arguments have no other flag in the way.
  lemma WhenTheCopySeesTheSame(args: seq<string>, errFile: string)
    ensures SeesTheSame(Arguments(Line(["service"] + args + [FLAG, errFile])), args, errFile) <==>
            && (forall i :: 0 <= i < |args| ==> Survives(args[i]))
            && Survives(errFile) && NoOtherFlag(args, errFile)
  {
    var sent := ["service"] + args + [FLAG, errFile];
    var child := Arguments(Line(sent));
    if (forall i :: 0 <= i < |args| ==> Survives(args[i])) && Survives(errFile) && NoOtherFlag(args, errFile) {
      ElevatedCopySeesTheSame(args, errFile);
    }
    if SeesTheSame(child, args, errFile) {
      SeenMeansSent(args, errFile);
    }
  }

  lemma ServiceWeighsNothing(child: seq<string>)
    requires child != [] && child[0] == "service"
    ensures TotalWeight(child) == TotalWeight(child[1..]) && Weight("") == 0
  {
    FlagWeighsNothing();
  }

  lemma SentSurvivesMeans(args: seq<string>, errFile: string)
    requires var sent := ["service"] + args + [FLAG, errFile]; forall i :: 0 <= i < |sent| ==> Survives(sent[i])
    ensures (forall i :: 0 <= i < |args| ==> Survives(args[i])) && Survives(errFile)
  {
    hide Survives;
    var sent := ["service"] + args + [FLAG, errFile];
    assert sent[|sent| - 1] == errFile;
    assert forall i :: 0 <= i < |args| ==> sent[i + 1] == args[i];
  }

  lemma SeenMeansSent(args: seq<string>, errFile: string)
    requires SeesTheSame(Arguments(Line(["service"] + args + [FLAG, errFile])), args, errFile)
    ensures (forall i :: 0 <= i < |args| ==> Survives(args[i])) && Survives(errFile) && NoOtherFlag(args, errFile)
  {
    hide Survives, Arguments, Line, NoOtherFlag, Weight, TotalWeight, WithoutErrFile;
    var sent := ["service"] + args + [FLAG, errFile];
    var child := Arguments(Line(sent));
    NothingAdded(args, sent, errFile);
    SplitsInto(child[1..], args, errFile);
    ServiceWeighsNothing(child);
    if |child| == |args| + 1 {
      assert child == ["service"] + child[1..] == ["service"] + args && errFile == "";
      NoNameIsNotSeen(args);
      assert false;
    } else {
      AsLongAndAsHeavy(sent);
      SentSurvivesMeans(args, errFile);
      ArgumentsComeBack(sent);
      assert sent[1..] == args + [FLAG, errFile];
      SplitUndoesRelaunch(args, errFile);
    }
  }
}
