/**
 * The command line an unelevated process hands to its elevated copy
 * (internal/winsec/elevate.go, cmd/hypervm-mcp/service.go): how it is printed,
 * how the copy reads it back, and which argument lists survive the trip.
 */
module CommandLine {
  // ---- printing ----------------------------------------------------------------

  const FLAG := "--errfile"

  predicate IsBlank(c: char) {
    c == ' ' || c == '\t'
  }

  predicate NeedsQuotes(a: string) {
    exists i :: 0 <= i < |a| && (IsBlank(a[i]) || a[i] == '"')
  }

  // Every double quote with a backslash put before it.
  function Escaped(a: string): string {
    if a == "" then "" else (if a[0] == '"' then "\\\"" else [a[0]]) + Escaped(a[1..])
  }

  function Printed(a: string): string {
    if NeedsQuotes(a) then "\"" + Escaped(a) + "\"" else a
  }

  function Line(args: seq<string>): string
    decreases |args|, 0
  {
    if args == [] then "" else Printed(args[0]) + Tail(args[1..])
  }

  // What follows an argument: nothing, or a space and the rest of the line.
  function Tail(args: seq<string>): string
    decreases |args|, 1
  {
    if args == [] then "" else " " + Line(args)
  }

  method ReplaceQuotes(a: string) returns (r: string)
    ensures r == Escaped(a)
  {
    r := "";
    for i := 0 to |a|
      invariant r + Escaped(a[i..]) == Escaped(a)
    {
      assert a[i..][1..] == a[i + 1..];
      r := r + if a[i] == '"' then "\\\"" else [a[i]];
    }
  }

  lemma {:induction false} TailOneMore(args: seq<string>, a: string)
    requires args != []
    ensures Line(args + [a]) == Line(args) + " " + Printed(a)
  {
    hide Printed;
    var more, p, q := args[1..], Printed(args[0]), Printed(a);
    assert (args + [a])[1..] == more + [a];
    if more == [] {
      assert more + [a] == [a] && [a][1..] == [];
      assert Line([a]) == q + "" == q;
      assert Line(args) == p + "" == p;
    } else {
      TailOneMore(more, a);
      var l := Line(more);
      assert p + (" " + (l + " " + q)) == p + (" " + l) + " " + q;
    }
  }

  method QuoteArgs(args: seq<string>) returns (line: string)
    ensures line == Line(args)
  {
    var parts: seq<string> := [];
    for i := 0 to |args|
      invariant |parts| == i
      invariant forall j :: 0 <= j < i ==> parts[j] == Printed(args[j])
    {
      var a := args[i];
      if NeedsQuotes(a) {
        var inner := ReplaceQuotes(a);
        a := "\"" + inner + "\"";
      }
      parts := parts + [a];
    }
    line := "";
    for i := 0 to |parts|
      invariant line == Line(args[..i])
    {
      assert args[..i + 1] == args[..i] + [args[i]];
      if i > 0 {
        TailOneMore(args[..i], args[i]);
        line := line + " " + parts[i];
      } else {
        line := parts[0];
      }
    }
    assert args[..|parts|] == args;
  }

  // ---- reading -----------------------------------------------------------------

  datatype Word = Word(text: string, rest: string)

  function Slashes(n: nat): (s: string)
    ensures |s| == n && forall i :: 0 <= i < n ==> s[i] == '\\'
  {
    seq(n, i => '\\')
  }

  function Before(s: string, w: Word): Word {
    Word(s + w.text, w.rest)
  }

  /**
   * One argument, by the Windows rules as Go's run time applies them: a blank
   * outside quotes ends it; backslashes count only in front of a double quote,
   * where each pair stands for one and an odd one makes the quote literal; a quote
   * that is not literal opens or closes a quoted part, except that two in a row
   * inside one stand for a literal quote and close it.
   */
  function ReadArg(cmd: string, quoted: bool, slashes: nat): (w: Word)
    ensures |w.rest| <= |cmd| && (cmd != "" ==> |w.rest| < |cmd|)
    decreases |cmd|
  {
    if cmd == "" then
      Word(Slashes(slashes), "")
    else
      var c, rest := cmd[0], cmd[1..];
      if IsBlank(c) && !quoted then
        Word(Slashes(slashes), rest)
      else if c == '"' && slashes % 2 == 1 then
        Before(Slashes(slashes / 2) + "\"", ReadArg(rest, quoted, 0))
      else if c == '"' && quoted && rest != "" && rest[0] == '"' then
        Before(Slashes(slashes / 2) + "\"", ReadArg(rest[1..], false, 0))
      else if c == '"' then
        Before(Slashes(slashes / 2), ReadArg(rest, !quoted, 0))
      else if c == '\\' then
        ReadArg(rest, quoted, slashes + 1)
      else
        Before(Slashes(slashes) + [c], ReadArg(rest, quoted, 0))
  }

  function Arguments(cmd: string): seq<string>
    decreases |cmd|
  {
    if cmd == "" then
      []
    else if IsBlank(cmd[0]) then
      Arguments(cmd[1..])
    else
      var w := ReadArg(cmd, false, 0);
      [w.text] + Arguments(w.rest)
  }

  // A space or a tab ends an argument, and a plain one is read as it stands.
  lemma BlanksSeparate(word: string, blank: char, rest: string)
    requires blank in {' ', '\t'} && word != ""
    requires forall c :: c in word ==> c !in {' ', '\t', '"', '\\'}
    ensures Arguments(word + [blank] + rest) == [word] + Arguments(rest)
  {
    PlainIsRead(word, blank, rest);
    assert word[0] in word;
  }

  lemma {:induction false} PlainIsRead(word: string, blank: char, rest: string)
    requires blank in {' ', '\t'}
    requires forall c :: c in word ==> c !in {' ', '\t', '"', '\\'}
    ensures ReadArg(word + [blank] + rest, false, 0) == Word(word, rest)
  {
    var cmd := word + [blank] + rest;
    if word == "" {
      assert cmd[1..] == rest;
    } else {
      assert word[0] in word && cmd[1..] == word[1..] + [blank] + rest;
      assert forall c :: c in word[1..] ==> c in word;
      PlainIsRead(word[1..], blank, rest);
      assert [word[0]] + word[1..] == word;
    }
  }

  // An argument is put in quotes exactly when it has a space, a tab or a double quote.
  lemma WhatIsQuoted(a: string)
    ensures Printed(a) != a <==> ' ' in a || '\t' in a || '"' in a
    ensures Printed(a) != a ==> Printed(a) == "\"" + Escaped(a) + "\""
  {
    EscapedLength(a);
  }

  lemma EscapedLength(a: string)
    ensures |Escaped(a)| >= |a|
  {
  }

  // ---- which arguments survive ---------------------------------------------------

  // A backslash in front of a double quote is lost, unless the two end the argument
  // and no other backslash comes before them.
  predicate QuoteSafe(a: string, i: nat)
    requires i + 1 < |a|
  {
    a[i] == '\\' && a[i + 1] == '"' ==> i + 2 == |a| && (i == 0 || a[i - 1] != '\\')
  }

  predicate InsideSafe(a: string) {
    && (a == "" || a[|a| - 1] != '\\')
    && forall i :: 0 <= i && i + 1 < |a| ==> QuoteSafe(a, i)
  }

  predicate Survives(a: string) {
    a != "" && (NeedsQuotes(a) ==> InsideSafe(a))
  }

  // The same condition read from left to right, n backslashes being pending.
  predicate SafeFrom(n: nat, y: string)
    decreases |y|
  {
    if y == "" then n == 0
    else if y[0] == '\\' then SafeFrom(n + 1, y[1..])
    else if y[0] == '"' then (n == 0 && SafeFrom(0, y[1..])) || (n == 1 && |y| == 1)
    else SafeFrom(0, y[1..])
  }

  lemma {:induction false} SafeFromMeans(n: nat, y: string)
    ensures SafeFrom(n, y) <==> InsideSafe(Slashes(n) + y)
    decreases |y|
  {
    var a := Slashes(n) + y;
    if y == "" {
      assert a == Slashes(n);
    } else if y[0] == '\\' {
      assert a == Slashes(n + 1) + y[1..];
      SafeFromMeans(n + 1, y[1..]);
    } else {
      assert Slashes(0) + y[1..] == y[1..];
      SafeFromMeans(0, y[1..]);
      assert forall i :: 0 <= i < |y| ==> a[n + i] == y[i];
      SafeAfter(n, y);
    }
  }

  lemma SafeAfter(n: nat, y: string)
    requires y != "" && y[0] != '\\'
    ensures InsideSafe(Slashes(n) + y) <==>
            InsideSafe(y[1..]) && (y[0] == '"' && n > 0 ==> n == 1 && |y| == 1)
  {
    var a, b := Slashes(n) + y, y[1..];
    assert forall i :: 0 <= i < |b| ==> a[n + 1 + i] == b[i];
    assert forall i :: 0 <= i < n ==> a[i] == '\\';
    assert a[n] == y[0];
    if InsideSafe(a) {
      if n > 0 {
        assert QuoteSafe(a, n - 1);
      }
      forall i | 0 <= i && i + 1 < |b|
        ensures QuoteSafe(b, i)
      {
        assert QuoteSafe(a, n + 1 + i);
      }
    }
    if InsideSafe(b) && (y[0] == '"' && n > 0 ==> n == 1 && |y| == 1) {
      forall i | 0 <= i && i + 1 < |a|
        ensures QuoteSafe(a, i)
      {
        if i > n {
          assert QuoteSafe(b, i - n - 1);
        }
      }
    }
  }

  // ---- reading back one argument -----------------------------------------------

  predicate IsTail(t: string) {
    t == "" || t[0] == ' '
  }

  function AfterTail(t: string): string
    requires IsTail(t)
  {
    if t == "" then "" else t[1..]
  }

  // What is left to read of a quoted argument whose remaining text is y.
  function Closing(y: string, t: string): string {
    Escaped(y) + "\"" + t
  }

  lemma ClosingSteps(y: string, t: string)
    ensures Closing("", t) == "\"" + t
    ensures y != "" && y[0] != '"' ==> Closing(y, t) == [y[0]] + Closing(y[1..], t)
    ensures y != "" && y[0] == '"' ==> Closing(y, t) == "\\\"" + Closing(y[1..], t)
    ensures (Closing(y, t)[0] == '"') == (y == "")
  {
  }

  lemma BareComesBack(a: string, n: nat, t: string)
    requires !NeedsQuotes(a) && IsTail(t)
    ensures ReadArg(a + t, false, n) == Word(Slashes(n) + a, AfterTail(t))
    decreases |a|
  {
    if a == "" {
      assert a + t == t;
    } else {
      assert (a + t)[1..] == a[1..] + t;
      assert !NeedsQuotes(a[1..]);
      if a[0] == '\\' {
        BareComesBack(a[1..], n + 1, t);
        assert Slashes(n + 1) + a[1..] == Slashes(n) + a;
      } else {
        BareComesBack(a[1..], 0, t);
        assert Slashes(n) + [a[0]] + (Slashes(0) + a[1..]) == Slashes(n) + a;
      }
    }
  }

  lemma ReadTail(t: string)
    requires IsTail(t)
    ensures ReadArg(t, false, 0) == Word("", AfterTail(t))
    ensures t == "" ==> ReadArg(t, true, 0).text == ""
    ensures t != "" ==> ReadArg(t, true, 0).text != "" && ReadArg(t, true, 0).text[0] == ' '
  {
    assert Slashes(0) == "";
  }

  lemma {:induction false} QuotedComesBack(n: nat, y: string, t: string)
    requires IsTail(t) && SafeFrom(n, y)
    ensures ReadArg(Closing(y, t), true, n) == Word(Slashes(n) + y, AfterTail(t))
    decreases |y|
  {
    ClosingSteps(y, t);
    var cmd := Closing(y, t);
    if y == "" {
      assert cmd[1..] == t;
      assert Slashes(0) + "" == "";
    } else if y[0] == '\\' {
      assert cmd[1..] == Closing(y[1..], t);
      QuotedComesBack(n + 1, y[1..], t);
      assert Slashes(n + 1) + y[1..] == Slashes(n) + y;
    } else if y[0] == '"' {
      assert cmd[1..][1..] == Closing(y[1..], t);
      if n == 0 {
        QuotedComesBack(0, y[1..], t);
        assert Slashes(0) + "\"" + (Slashes(0) + y[1..]) == Slashes(0) + y;
      } else {
        assert y[1..] == "" && cmd[1..] == "\"\"" + t;
        assert cmd[1..][1..][1..] == t;
        ReadTail(t);
        assert Slashes(1) + "\"" + "" == Slashes(1) + y;
      }
    } else {
      assert cmd[1..] == Closing(y[1..], t);
      QuotedComesBack(0, y[1..], t);
      assert Slashes(n) + [y[0]] + (Slashes(0) + y[1..]) == Slashes(n) + y;
    }
  }

  // Text owed to the argument that has not been delivered yet.
  predicate Owed(w: string, n: nat) {
    |w| > n && forall i :: 0 <= i < |w| ==> w[i] == '\\' || w[i] == '"'
  }

  lemma DebtRemains(w: string, k: nat, s: string, text: string, y: string)
    requires k <= |w| && |s| == k && text != w[k..] + y
    ensures s + text != w + y
  {
    assert (s + text)[k..] == text && (w + y)[k..] == w[k..] + y;
  }

  // Once the reader is behind by more than the backslashes it holds, it never
  // catches up.
  lemma {:induction false} NeverCatchesUp(w: string, n: nat, y: string, t: string, quoted: bool)
    requires IsTail(t) && Owed(w, n)
    ensures ReadArg(Closing(y, t), quoted, n).text != w + y
    decreases |y|
  {
    ClosingSteps(y, t);
    var cmd := Closing(y, t);
    if y == "" {
      assert cmd[1..] == t && w + y == w;
      LateClosing(w, n, t, quoted);
    } else if y[0] == '\\' {
      assert cmd[1..] == Closing(y[1..], t);
      NeverCatchesUp(w + "\\", n + 1, y[1..], t, quoted);
      assert w + "\\" + y[1..] == w + y;
    } else if y[0] == '"' {
      LateQuote(w, n, y, t, quoted);
    } else {
      assert cmd[1..] == Closing(y[1..], t);
      assert (w + y)[n] == w[n] != y[0];
    }
  }

  // Reading a backslash and a quote, n backslashes being pending.
  lemma ReadBackslashQuote(n: nat, after: string, quoted: bool)
    ensures ReadArg("\\\"" + after, quoted, n) ==
            var s := Slashes((n + 1) / 2);
            if n % 2 == 0 then Before(s + "\"", ReadArg(after, quoted, 0))
            else if quoted && after != "" && after[0] == '"' then Before(s + "\"", ReadArg(after[1..], false, 0))
            else Before(s, ReadArg(after, !quoted, 0))
  {
    var cmd := "\\\"" + after;
    assert cmd[1..] == "\"" + after && cmd[1..][1..] == after;
  }

  lemma LateClosing(w: string, n: nat, t: string, quoted: bool)
    requires IsTail(t) && Owed(w, n)
    ensures ReadArg("\"" + t, quoted, n).text != w
  {
    assert ("\"" + t)[1..] == t;
    ReadTail(t);
    var r := ReadArg("\"" + t, quoted, n).text;
    if t != "" && quoted == (n % 2 == 1) {
      // The reader is still inside quotes, and takes the space for text.
      var k := n / 2 + n % 2;
      assert r[k] == ' ';
    } else {
      assert |r| == n / 2 + n % 2;
    }
  }

  lemma {:induction false} LateQuote(w: string, n: nat, y: string, t: string, quoted: bool)
    requires IsTail(t) && Owed(w, n) && y != "" && y[0] == '"'
    ensures ReadArg(Closing(y, t), quoted, n).text != w + y
    decreases |y|, 0
  {
    ClosingSteps(y, t);
    ClosingSteps(y[1..], t);
    var cmd, m, owed := Closing(y, t), (n + 1) / 2, w + "\"";
    var after := Closing(y[1..], t);
    assert owed + y[1..] == w + y;
    ReadBackslashQuote(n, after, quoted);
    hide ReadArg;
    if n % 2 == 0 {
      NeverCatchesUp(owed[m + 1..], 0, y[1..], t, quoted);
      DebtRemains(owed, m + 1, Slashes(m) + "\"", ReadArg(after, quoted, 0).text, y[1..]);
    } else if quoted && y[1..] == "" {
      assert after[1..] == t;
      ReadTail(t);
    } else {
      NeverCatchesUp(owed[m..], 0, y[1..], t, !quoted);
      DebtRemains(owed, m, Slashes(m), ReadArg(after, !quoted, 0).text, y[1..]);
    }
  }

  lemma {:induction false} QuotedGetsLost(n: nat, y: string, t: string)
    requires IsTail(t) && !SafeFrom(n, y)
    ensures ReadArg(Closing(y, t), true, n).text != Slashes(n) + y
    decreases |y|
  {
    ClosingSteps(y, t);
    var cmd := Closing(y, t);
    if y == "" {
      assert cmd[1..] == t;
      assert Slashes(n) + y == Slashes(n);
      LostAtTheEnd(n, t);
    } else if y[0] == '\\' {
      assert cmd[1..] == Closing(y[1..], t);
      QuotedGetsLost(n + 1, y[1..], t);
      assert Slashes(n + 1) + y[1..] == Slashes(n) + y;
    } else if y[0] == '"' {
      LostAtAQuote(n, y, t);
    } else {
      assert cmd[1..] == Closing(y[1..], t);
      QuotedGetsLost(0, y[1..], t);
      var s := Slashes(n) + [y[0]];
      assert Slashes(0) + y[1..] == y[1..] && s + y[1..] == Slashes(n) + y;
      assert s[n + 1..] == "";
      DebtRemains(s, n + 1, s, ReadArg(cmd[1..], true, 0).text, y[1..]);
    }
  }

  lemma LostAtTheEnd(n: nat, t: string)
    requires IsTail(t) && n > 0
    ensures ReadArg("\"" + t, true, n).text != Slashes(n)
  {
    assert ("\"" + t)[1..] == t;
    ReadTail(t);
    var r := ReadArg("\"" + t, true, n).text;
    if n % 2 == 1 {
      assert r[n / 2] == '"';
    } else {
      assert |r| == n / 2;
    }
  }

  lemma {:induction false} LostAtAQuote(n: nat, y: string, t: string)
    requires IsTail(t) && y != "" && y[0] == '"' && !SafeFrom(n, y)
    ensures ReadArg(Closing(y, t), true, n).text != Slashes(n) + y
    decreases |y|, 0
  {
    ClosingSteps(y, t);
    ClosingSteps(y[1..], t);
    var cmd, m := Closing(y, t), (n + 1) / 2;
    var after := Closing(y[1..], t);
    var r := ReadArg(cmd, true, n).text;
    ReadBackslashQuote(n, after, true);
    hide ReadArg;
    if n == 0 {
      QuotedGetsLost(0, y[1..], t);
      assert Slashes(0) + y[1..] == y[1..] && "\"" + y[1..] == Slashes(0) + y;
      assert "\""[1..] == "";
      DebtRemains("\"", 1, Slashes(0) + "\"", ReadArg(after, true, 0).text, y[1..]);
    } else if n % 2 == 0 {
      assert r[m] == '"' && (Slashes(n) + y)[m] == '\\';
    } else if y[1..] == "" {
      assert after[1..] == t;
      ReadTail(t);
    } else {
      var owed := Slashes(n) + "\"";
      assert owed + y[1..] == Slashes(n) + y;
      NeverCatchesUp(owed[m..], 0, y[1..], t, false);
      DebtRemains(owed, m, Slashes(m), ReadArg(after, false, 0).text, y[1..]);
    }
  }

  // ---- reading back the line -----------------------------------------------------

  lemma OneQuoted(a: string, t: string)
    requires NeedsQuotes(a) && IsTail(t)
    ensures var w := ReadArg("\"" + Closing(a, t), false, 0);
            && w == ReadArg(Closing(a, t), true, 0)
            && (w.text == a <==> InsideSafe(a)) && (InsideSafe(a) ==> w.rest == AfterTail(t))
  {
    var w := ReadArg(Closing(a, t), true, 0);
    assert ("\"" + Closing(a, t))[1..] == Closing(a, t);
    assert Slashes(0) + a == a && Slashes(0) + w.text == w.text;
    SafeFromMeans(0, a);
    if SafeFrom(0, a) {
      QuotedComesBack(0, a, t);
    } else {
      QuotedGetsLost(0, a, t);
    }
  }

  lemma OneArgument(a: string, t: string)
    requires a != "" && IsTail(t)
    ensures !IsBlank((Printed(a) + t)[0])
    ensures var w := ReadArg(Printed(a) + t, false, 0);
            (w.text == a <==> Survives(a)) && (Survives(a) ==> w.rest == AfterTail(t))
  {
    if NeedsQuotes(a) {
      assert Printed(a) + t == "\"" + Closing(a, t);
      OneQuoted(a, t);
    } else {
      assert Slashes(0) + a == a;
      BareComesBack(a, 0, t);
    }
  }

  lemma {:induction false} SomethingIsRead(n: nat, y: string, t: string)
    requires IsTail(t) && (n > 0 || y != "")
    ensures ReadArg(Closing(y, t), true, n).text != ""
    decreases |y|
  {
    ClosingSteps(y, t);
    var cmd := Closing(y, t);
    if y != "" && y[0] == '\\' {
      assert cmd[1..] == Closing(y[1..], t);
      SomethingIsRead(n + 1, y[1..], t);
    } else if y != "" && y[0] == '"' {
      assert cmd[1..][1..] == Closing(y[1..], t);
    }
  }

  // An empty argument prints as nothing, and no other is read as empty first.
  lemma {:induction false} NoEmptyArgumentFirst(args: seq<string>)
    ensures var r := Arguments(Line(args)); r == [] || r[0] != ""
  {
    if args != [] {
      var a, t := args[0], Tail(args[1..]);
      if a == "" {
        NoEmptyArgumentFirst(args[1..]);
        assert Line(args) == t;
        if t != "" {
          assert t[1..] == Line(args[1..]);
        }
      } else {
        OneArgument(a, t);
        if NeedsQuotes(a) {
          assert Line(args) == "\"" + Closing(a, t);
          OneQuoted(a, t);
          SomethingIsRead(0, a, t);
        } else {
          BareComesBack(a, 0, t);
        }
      }
    }
  }

  // The child reads back what the parent printed exactly when every argument
  // survives on its own.
  lemma {:induction false} ArgumentsComeBack(args: seq<string>)
    ensures Arguments(Line(args)) == args <==> forall i :: 0 <= i < |args| ==> Survives(args[i])
  {
    if args != [] {
      var a, more, t := args[0], args[1..], Tail(args[1..]);
      ArgumentsComeBack(more);
      assert args == [a] + more;
      assert (forall i :: 0 <= i < |args| ==> Survives(args[i])) <==>
             Survives(a) && forall i :: 0 <= i < |more| ==> Survives(more[i]) by {
        assert forall i :: 0 <= i < |more| ==> more[i] == args[i + 1];
      }
      if a == "" {
        assert Line(args) == t;
        NoEmptyArgumentFirst(more);
        if t != "" {
          assert t[1..] == Line(more);
        }
      } else {
        OneArgument(a, t);
        assert AfterTail(t) == Line(more);
      }
    }
  }

  // The condition the printer's author had in mind: no empty argument, no backslash
  // before a quote, and none at the end of an argument that needs quotes.
  predicate Plain(a: string) {
    && a != ""
    && (NeedsQuotes(a) ==> a[|a| - 1] != '\\')
    && forall i :: 0 <= i && i + 1 < |a| ==> a[i] != '\\' || a[i + 1] != '"'
  }

  lemma PlainArgumentsComeBack(args: seq<string>)
    requires forall i :: 0 <= i < |args| ==> Plain(args[i])
    ensures Arguments(Line(args)) == args
  {
    ArgumentsComeBack(args);
    forall i | 0 <= i < |args|
      ensures Survives(args[i])
    {
      assert Plain(args[i]);
    }
  }

  // ---- the flag the parent adds and the child removes -----------------------------

  datatype Split = Split(args: seq<string>, errFile: string)

  function Behind(front: seq<string>, s: Split): Split {
    Split(front + s.args, s.errFile)
  }

  function WithoutErrFile(args: seq<string>): Split {
    if |args| < 2 then Split(args, "")
    else if args[0] == FLAG then Split(args[2..], args[1])
    else Behind([args[0]], WithoutErrFile(args[1..]))
  }

  lemma OnePlaceOn(args: seq<string>, i: nat)
    requires i + 1 < |args| && args[i] != FLAG
    ensures Behind(args[..i], WithoutErrFile(args[i..])) == Behind(args[..i + 1], WithoutErrFile(args[i + 1..]))
  {
    assert args[i..][1..] == args[i + 1..];
    var s := WithoutErrFile(args[i + 1..]);
    assert args[..i] + ([args[i]] + s.args) == args[..i + 1] + s.args;
  }

  lemma FlagFound(args: seq<string>, i: nat)
    requires i + 1 < |args| && args[i] == FLAG
    ensures Behind(args[..i], WithoutErrFile(args[i..])) == Split(args[..i] + args[i + 2..], args[i + 1])
  {
    assert args[i..][2..] == args[i + 2..] && args[i..][1] == args[i + 1];
  }

  lemma NoneFound(args: seq<string>, i: nat)
    requires i <= |args| <= i + 1
    ensures Behind(args[..i], WithoutErrFile(args[i..])) == Split(args, "")
  {
    assert args[..i] + args[i..] == args;
  }

  lemma NothingBehind(args: seq<string>)
    ensures Behind(args[..0], WithoutErrFile(args[0..])) == WithoutErrFile(args)
  {
    assert args[0..] == args;
  }

  method SplitErrFile(args: seq<string>) returns (s: Split)
    ensures s == WithoutErrFile(args)
  {
    hide WithoutErrFile, Behind;
    NothingBehind(args);
    var i := 0;
    while i < |args| - 1
      invariant 0 <= i <= |args|
      invariant WithoutErrFile(args) == Behind(args[..i], WithoutErrFile(args[i..]))
    {
      if args[i] == FLAG {
        FlagFound(args, i);
        return Split(args[..i] + args[i + 2..], args[i + 1]);
      }
      OnePlaceOn(args, i);
      i := i + 1;
    }
    NoneFound(args, i);
    return Split(args, "");
  }

  // From the first flag on, nothing but the pair that relaunch appends, repeated
  // (or, for a file named like the flag, nothing but the flag).
  predicate OnlyPairs(args: seq<string>, errFile: string) {
    args == [] ||
    (args[0] == FLAG && if |args| == 1 then errFile == FLAG else args[1] == errFile && OnlyPairs(args[2..], errFile))
  }

  predicate NoOtherFlag(args: seq<string>, errFile: string) {
    args == [] || if args[0] == FLAG then OnlyPairs(args, errFile) else NoOtherFlag(args[1..], errFile)
  }

  lemma {:induction false} WithoutFlag(args: seq<string>, errFile: string)
    ensures FLAG !in args ==> NoOtherFlag(args, errFile)
    ensures FLAG in args && errFile !in args && errFile != FLAG ==> !NoOtherFlag(args, errFile)
  {
    if args != [] {
      WithoutFlag(args[1..], errFile);
      assert args == [args[0]] + args[1..];
    }
  }

  lemma {:induction false} PairsCommute(args: seq<string>, errFile: string)
    requires args == [] || args[0] == FLAG
    ensures var all := args + [FLAG, errFile];
            all[2..] == args && all[1] == errFile <==> OnlyPairs(args, errFile)
  {
    var all := args + [FLAG, errFile];
    if args == [] {
      assert all[2..] == [];
    } else if |args| == 1 {
      assert all[1] == FLAG && all[2..] == [errFile];
    } else {
      var rest := args[2..];
      var more := rest + [FLAG, errFile];
      assert all[1] == args[1] && all[2..] == more && args == [FLAG, args[1]] + rest;
      if rest == [] || rest[0] == FLAG {
        PairsCommute(rest, errFile);
        if args[1] == errFile {
          assert (more == args) == (more[1] == errFile && more[2..] == rest) by {
            assert more == [more[0], more[1]] + more[2..] && more[0] == FLAG;
            assert args[2..] == rest;
          }
        }
      } else {
        assert more[0] != args[0];
      }
    }
  }

  // Splitting undoes what relaunch appended exactly when the arguments have no flag
  // of their own, or none but repetitions of that very pair at their end.
  lemma {:induction false} SplitUndoesRelaunch(args: seq<string>, errFile: string)
    ensures WithoutErrFile(args + [FLAG, errFile]) == Split(args, errFile) <==> NoOtherFlag(args, errFile)
  {
    var all := args + [FLAG, errFile];
    if args == [] || args[0] == FLAG {
      PairsCommute(args, errFile);
    } else {
      var more := args[1..] + [FLAG, errFile];
      assert all[1..] == more && args == [args[0]] + args[1..];
      SplitUndoesRelaunch(args[1..], errFile);
      var s := WithoutErrFile(more);
      assert ([args[0]] + s.args == args) == (s.args == args[1..]) by {
        assert ([args[0]] + s.args)[1..] == s.args;
      }
    }
  }

  lemma NamesSurvive()
    ensures Survives("service") && Survives(FLAG)
  {
  }

  lemma SentSurvives(args: seq<string>, errFile: string)
    requires Survives(errFile) && forall i :: 0 <= i < |args| ==> Survives(args[i])
    ensures var sent := ["service"] + args + [FLAG, errFile];
            forall i :: 0 <= i < |sent| ==> Survives(sent[i])
  {
    NamesSurvive();
    hide Survives;
    var sent := ["service"] + args + [FLAG, errFile];
    forall i | 0 <= i < |sent|
      ensures Survives(sent[i])
    {
      assert 0 < i <= |args| ==> sent[i] == args[i - 1];
    }
  }

  // From the parent's `service` subcommand to the child's.
  lemma ElevatedCopySeesTheSame(args: seq<string>, errFile: string)
    requires NoOtherFlag(args, errFile) && Survives(errFile)
    requires forall i :: 0 <= i < |args| ==> Survives(args[i])
    ensures var child := Arguments(Line(["service"] + args + [FLAG, errFile]));
            child != [] && child[0] == "service"
            && WithoutErrFile(child[1..]) == Split(args, errFile)
  {
    hide Survives, Line, Arguments, WithoutErrFile;
    var sent := ["service"] + args + [FLAG, errFile];
    assert sent[1..] == args + [FLAG, errFile];
    SentSurvives(args, errFile);
    SplitUndoesRelaunch(args, errFile);
    ArgumentsComeBack(sent);
  }
}
