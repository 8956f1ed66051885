/**
 * Boot order (internal/hyperv/settings.go): the tokens a VM's firmware entries are
 * reported as, how a list of tokens selects devices on a Generation 2 VM, and how
 * it is completed to a full BIOS order on a Generation 1 VM.
 */
module BootOrder {
  import opened Text
  import opened Wrappers

  // ---- reporting ---------------------------------------------------------------

  datatype Kind = Disk | Dvd | Network | File

  // A boot source: its kind if it is one the service knows, and its path, adapter
  // name or firmware path. `id` tells apart sources that look the same.
  datatype Source = Source(kind: Option<Kind>, name: string, id: nat)

  function KindName(k: Kind): string {
    match k
    case Disk => "disk"
    case Dvd => "dvd"
    case Network => "network"
    case File => "file"
  }

  // A firmware entry without a path is reported as "other", like a device of an
  // unknown type.
  predicate Reportable(s: Source) {
    s.kind.Some? && (s.kind.value == File ==> s.name != "")
  }

  function Token(s: Source): string {
    if !Reportable(s) then "other"
    else if s.name == "" then KindName(s.kind.value)
    else KindName(s.kind.value) + ":" + s.name
  }

  function Tokens(order: seq<Source>): seq<string> {
    seq(|order|, i requires 0 <= i < |order| => Token(order[i]))
  }

  // ---- reading a token -----------------------------------------------------------

  // The part before the first colon, and the part after it.
  function Class(token: string): string {
    if token == "" || token[0] == ':' then "" else [token[0]] + Class(token[1..])
  }

  function Qualifier(token: string): string {
    if token == "" then "" else if token[0] == ':' then token[1..] else Qualifier(token[1..])
  }

  lemma {:induction false} FirstColonSplits(word: string, name: string)
    requires ':' !in word
    ensures Class(word) == word && Qualifier(word) == ""
    ensures Class(word + ":" + name) == word && Qualifier(word + ":" + name) == name
  {
    var token := word + ":" + name;
    if word == "" {
      assert token == ":" + name;
      assert token[1..] == name;
    } else {
      assert word == [word[0]] + word[1..];
      FirstColonSplits(word[1..], name);
      assert token[1..] == word[1..] + ":" + name;
    }
  }

  datatype Named = Device(kind: Kind) | Floppy | Unknown

  // The device class a token names, whatever its case and the blanks around it.
  function NamedClass(token: string): Named {
    var word := Lower(Trim(Class(token)));
    if word == "disk" then Device(Disk)
    else if word == "dvd" then Device(Dvd)
    else if word == "network" then Device(Network)
    else if word == "file" then Device(File)
    else if word == "floppy" then Floppy
    else Unknown
  }

  lemma KindNamesStay(k: Kind)
    ensures ':' !in KindName(k) && Lower(Trim(KindName(k))) == KindName(k)
  {
    var n := KindName(k);
    assert TrimLeft(n) == n && TrimRight(n) == n;
    LowerStays(n);
  }

  lemma KindNamesDiffer(k: Kind)
    ensures NamedClass(KindName(k)) == Device(k)
  {
    KindNamesStay(k);
    FirstColonSplits(KindName(k), "");
  }

  // A word in any case, with white space around it, reads as its lower case.
  lemma WordIsRead(pre: string, word: string, post: string, name: string)
    requires Lower(word) == name && name != "" && forall i :: 0 <= i < |name| ==> 'a' <= name[i] <= 'z'
    requires forall i :: 0 <= i < |pre| ==> IsSpace(pre[i])
    requires forall i :: 0 <= i < |post| ==> IsSpace(post[i])
    ensures Lower(Trim(pre + word + post)) == name && ':' !in pre + word + post
  {
    LowerLength(word);
    forall i | 0 <= i < |word|
      ensures !IsSpace(word[i]) && word[i] != ':'
    {
      LowerMeans(word, i);
      SpaceMeans(word[i]);
    }
    TrimMeans(pre, word, post);
    SpaceMeans(':');
  }

  lemma LowerLength(s: string)
    ensures |Lower(s)| == |s|
  {
  }

  lemma {:induction false} ClassApart(word: string, tail: string)
    requires ':' !in word && (tail == "" || tail[0] == ':')
    ensures Class(word + tail) == word && Qualifier(word + tail) == if tail == "" then "" else tail[1..]
  {
    if word == "" {
      assert word + tail == tail;
    } else {
      assert (word + tail)[1..] == word[1..] + tail;
      ClassApart(word[1..], tail);
      assert word == [word[0]] + word[1..];
    }
  }

  // A floppy is a class of its own: the BIOS has it, and no Generation 2 VM does.
  lemma FloppyTokens(m: Machine, pre: string, word: string, post: string, tail: string)
    requires Lower(word) == "floppy"
    requires forall i :: 0 <= i < |pre| ==> IsSpace(pre[i])
    requires forall i :: 0 <= i < |post| ==> IsSpace(post[i])
    requires tail == "" || tail[0] == ':'
    ensures var token := pre + word + post + tail;
            BiosClassOf(token) == Some(FloppyDrive) && Reordered(m, [token]) == Err(NoSuchClass(token))
  {
    var token := pre + word + post + tail;
    WordIsRead(pre, word, post, "floppy");
    ClassApart(pre + word + post, tail);
    assert NamedClass(token) == Floppy;
    hide NamedClass, Lower, Trim, Class;
    assert [token][..0] == [] && [token][1..] == [] && [token][0] == token;
    assert Selected(m, []) == Ok([]);
  }

  lemma OtherWord(words: string, tail: string)
    requires ':' !in words && (tail == "" || tail[0] == ':')
    requires Lower(Trim(words)) !in {"disk", "dvd", "network", "file", "floppy"}
    ensures NamedClass(words + tail) == Unknown
  {
    ClassApart(words, tail);
    hide Lower, Trim, Class;
  }

  lemma NoColon(pre: string, word: string, post: string)
    requires ':' !in word
    requires forall i :: 0 <= i < |pre| ==> IsSpace(pre[i])
    requires forall i :: 0 <= i < |post| ==> IsSpace(post[i])
    ensures ':' !in pre + word + post
  {
    SpaceMeans(':');
    hide IsSpace;
  }

  // A word that is none of the five, in any case, is refused by both kinds of VM.
  lemma OtherWordsAreRefused(m: Machine, pre: string, word: string, post: string, tail: string)
    requires Lower(word) !in {"disk", "dvd", "network", "file", "floppy"} && ':' !in word
    requires word != "" ==> !IsSpace(word[0]) && !IsSpace(word[|word| - 1])
    requires forall i :: 0 <= i < |pre| ==> IsSpace(pre[i])
    requires forall i :: 0 <= i < |post| ==> IsSpace(post[i])
    requires tail == "" || tail[0] == ':'
    ensures var token := pre + word + post + tail;
            BiosClassOf(token).None? && Reordered(m, [token]) == Err(BadEntry(token))
  {
    hide NamedClass, Lower, Trim, Class, IsSpace;
    var token := pre + word + post + tail;
    NoColon(pre, word, post);
    TrimMeans(pre, word, post);
    OtherWord(pre + word + post, tail);
    assert [token][0] == token;
  }

  lemma LowerStays(s: string)
    requires forall i :: 0 <= i < |s| ==> 'a' <= s[i] <= 'z'
    ensures Lower(s) == s
  {
  }

  lemma KindIsNamed(token: string, k: Kind)
    requires Class(token) == KindName(k)
    ensures NamedClass(token) == Device(k)
  {
    KindNamesStay(k);
  }

  lemma OtherIsUnknown()
    ensures NamedClass("other") == Unknown
  {
    FirstColonSplits("other", "");
    LowerStays("other");
    assert TrimLeft("other") == "other" && TrimRight("other") == "other";
  }

  // Printing loses nothing of a source that can be reported, whatever its name holds.
  lemma TokenReadsBack(s: Source)
    ensures Reportable(s) ==> NamedClass(Token(s)) == Device(s.kind.value) && Qualifier(Token(s)) == s.name
    ensures !Reportable(s) ==> NamedClass(Token(s)) == Unknown
    ensures NamedClass(Token(s)) == Unknown <==> s.kind.None? || (s.kind == Some(File) && s.name == "")
  {
    hide NamedClass, KindName;
    if Reportable(s) {
      KindNamesStay(s.kind.value);
      FirstColonSplits(KindName(s.kind.value), s.name);
      KindIsNamed(Token(s), s.kind.value);
    } else {
      OtherIsUnknown();
    }
  }

  // ---- selecting devices (Generation 2) --------------------------------------------

  // The devices attached to the VM, its firmware's boot order, and the comparison
  // of names, which ignores case: names match when they fold to the same text.
  datatype Machine = Machine(attached: seq<Source>, order: seq<Source>, fold: string -> string)

  datatype Refusal = BadEntry(token: string) | NoSuchClass(token: string) | NothingMatches(token: string)

  // What an entry of kind k is looked for among. A firmware entry is not a device,
  // and can only come from the order the VM has.
  function Pool(m: Machine, k: Kind): seq<Source> {
    if k == File then m.order else m.attached
  }

  predicate Fits(m: Machine, s: Source, k: Kind, name: string) {
    s.kind == Some(k) && (name == "" || m.fold(s.name) == m.fold(name))
  }

  function Filter(m: Machine, pool: seq<Source>, k: Kind, name: string): seq<Source> {
    if pool == [] then [] else
    (if Fits(m, pool[0], k, name) then [pool[0]] else []) + Filter(m, pool[1..], k, name)
  }

  function Matching(m: Machine, k: Kind, name: string): seq<Source> {
    Filter(m, Pool(m, k), k, name)
  }

  function FirstUnknown(tokens: seq<string>): (r: Option<string>)
    ensures r.None? <==> forall i :: 0 <= i < |tokens| ==> NamedClass(tokens[i]) != Unknown
    ensures r.Some? ==> exists i :: && 0 <= i < |tokens| && tokens[i] == r.value && NamedClass(tokens[i]) == Unknown
                                    && forall j :: 0 <= j < i ==> NamedClass(tokens[j]) != Unknown
  {
    if tokens == [] then None
    else if NamedClass(tokens[0]) == Unknown then Some(tokens[0])
    else FirstUnknown(tokens[1..])
  }

  // The devices the script collects for tokens that passed the first check.
  function Selected(m: Machine, tokens: seq<string>): Result<seq<Source>, Refusal> {
    if tokens == [] then Ok([]) else
    var front, tok := Selected(m, tokens[..|tokens| - 1]), tokens[|tokens| - 1];
    if front.Err? then front
    else if !NamedClass(tok).Device? then Err(NoSuchClass(tok))
    else
      var found := Matching(m, NamedClass(tok).kind, Qualifier(tok));
      if found == [] then Err(NothingMatches(tok)) else Ok(front.value + found)
  }

  // The firmware order that results, or why the request is refused.
  function Reordered(m: Machine, tokens: seq<string>): Result<seq<Source>, Refusal> {
    if FirstUnknown(tokens).Some? then Err(BadEntry(FirstUnknown(tokens).value))
    else if tokens == [] then Ok(m.order)
    else Selected(m, tokens)
  }

  method CheckTokens(tokens: seq<string>) returns (bad: Option<string>)
    ensures bad == FirstUnknown(tokens)
  {
    for i := 0 to |tokens|
      invariant FirstUnknown(tokens) == FirstUnknown(tokens[i..])
    {
      if NamedClass(tokens[i]) == Unknown {
        return Some(tokens[i]);
      }
      assert tokens[i..][1..] == tokens[i + 1..];
    }
    return None;
  }

  method SetBootOrder(m: Machine, tokens: seq<string>) returns (r: Result<seq<Source>, Refusal>)
    ensures r == Reordered(m, tokens)
    ensures tokens == [] ==> r == Ok(m.order)
  {
    var bad := CheckTokens(tokens);
    if bad.Some? {
      return Err(BadEntry(bad.value));
    }
    if |tokens| == 0 {
      return Ok(m.order);
    }
    var devices: seq<Source> := [];
    for i := 0 to |tokens|
      invariant Selected(m, tokens[..i]) == Ok(devices)
    {
      assert tokens[..i + 1][..i] == tokens[..i];
      var kind := NamedClass(tokens[i]);
      if !kind.Device? {
        StaysRefused(m, tokens, i + 1);
        return Err(NoSuchClass(tokens[i]));
      }
      var found := Matching(m, kind.kind, Qualifier(tokens[i]));
      if found == [] {
        StaysRefused(m, tokens, i + 1);
        return Err(NothingMatches(tokens[i]));
      }
      devices := devices + found;
    }
    assert tokens[..|tokens|] == tokens;
    return Ok(devices);
  }

  lemma {:induction false} StaysRefused(m: Machine, tokens: seq<string>, i: nat)
    requires i <= |tokens| && Selected(m, tokens[..i]).Err?
    ensures Selected(m, tokens) == Selected(m, tokens[..i])
  {
    if i == |tokens| {
      assert tokens[..i] == tokens;
    } else {
      assert tokens[..|tokens| - 1][..i] == tokens[..i];
      StaysRefused(m, tokens[..|tokens| - 1], i);
    }
  }

  // ---- what a token selects ----------------------------------------------------------------

  // The sources a token names: those of its kind, or of these the ones whose name folds
  // to the same text as its name, if it has one.
  predicate NamedBy(m: Machine, s: Source, k: Kind, name: string) {
    s.kind == Some(k) && (name != "" ==> m.fold(s.name) == m.fold(name))
  }

  // The positions of a selection in the list it was made from: increasing, and exactly
  // those of the sources named.
  ghost predicate Positions(m: Machine, pool: seq<Source>, k: Kind, name: string, at: seq<nat>) {
    && (forall j :: 0 <= j < |at| ==> at[j] < |pool|)
    && (forall i, j :: 0 <= i < j < |at| ==> at[i] < at[j])
    && (forall p :: 0 <= p < |pool| ==> (NamedBy(m, pool[p], k, name) <==> p in at))
  }

  // The positions one further on, as they are in a list with one more source in front.
  function Later(at: seq<nat>): (r: seq<nat>)
    ensures |r| == |at| && forall j :: 0 <= j < |at| ==> r[j] == at[j] + 1
  {
    seq(|at|, j requires 0 <= j < |at| => at[j] + 1)
  }

  lemma OneMoreSource(m: Machine, pool: seq<Source>, k: Kind, name: string, rest: seq<nat>)
    requires pool != [] && Positions(m, pool[1..], k, name, rest)
    ensures Positions(m, pool, k, name, (if NamedBy(m, pool[0], k, name) then [0] else []) + Later(rest))
  {
    hide NamedBy, Later;
    var first: seq<nat> := if NamedBy(m, pool[0], k, name) then [0] else [];
    var at := first + Later(rest);
    forall p | 0 <= p < |pool|
      ensures NamedBy(m, pool[p], k, name) <==> p in at
    {
      if p > 0 {
        assert pool[p] == pool[1..][p - 1];
        LaterPosition(rest, p - 1);
        assert p in at <==> p in Later(rest);
      }
    }
  }

  lemma LaterPosition(rest: seq<nat>, p: nat)
    ensures p in rest <==> p + 1 in Later(rest)
  {
    if p in rest {
      var j :| 0 <= j < |rest| && rest[j] == p;
      assert Later(rest)[j] == p + 1;
    }
  }

  lemma NamedFits(m: Machine, s: Source, k: Kind, name: string)
    ensures Fits(m, s, k, name) <==> NamedBy(m, s, k, name)
  {
  }

  // What is found at those positions.
  ghost predicate FoundAt(pool: seq<Source>, at: seq<nat>, found: seq<Source>) {
    |found| == |at| && forall j :: 0 <= j < |at| ==> at[j] < |pool| && found[j] == pool[at[j]]
  }

  lemma OneMoreFound(pool: seq<Source>, taken: bool, rest: seq<nat>, found: seq<Source>)
    requires pool != [] && FoundAt(pool[1..], rest, found)
    ensures FoundAt(pool, (if taken then [0] else []) + Later(rest), (if taken then [pool[0]] else []) + found)
  {
    forall j | 0 <= j < |rest|
      ensures Later(rest)[j] < |pool| && found[j] == pool[Later(rest)[j]]
    {
      assert pool[1..][rest[j]] == pool[rest[j] + 1];
    }
    hide Later;
  }

  lemma {:induction false} SelectionMeans(m: Machine, pool: seq<Source>, k: Kind, name: string) returns (at: seq<nat>)
    ensures Positions(m, pool, k, name, at) && FoundAt(pool, at, Filter(m, pool, k, name))
  {
    hide Fits, NamedBy, Later, Filter;
    at := [];
    FilterOnce(m, pool, k, name);
    if pool != [] {
      hide Positions, FoundAt;
      var rest := SelectionMeans(m, pool[1..], k, name);
      NamedFits(m, pool[0], k, name);
      OneMoreSource(m, pool, k, name, rest);
      at := (if NamedBy(m, pool[0], k, name) then [0] else []) + Later(rest);
      OneMoreFound(pool, NamedBy(m, pool[0], k, name), rest, Filter(m, pool[1..], k, name));
    }
  }

  lemma FilterOnce(m: Machine, pool: seq<Source>, k: Kind, name: string)
    ensures Filter(m, pool, k, name) ==
            if pool == [] then []
            else (if Fits(m, pool[0], k, name) then [pool[0]] else []) + Filter(m, pool[1..], k, name)
  {
  }

  // A list of tokens that is accepted selects what each selects, one after another; and
  // one token is refused exactly when there is nothing it names.
  lemma {:induction false} SelectionsJoin(m: Machine, a: seq<string>, b: seq<string>)
    ensures Selected(m, a + b).Ok? <==> Selected(m, a).Ok? && Selected(m, b).Ok?
    ensures Selected(m, a + b).Ok? ==> Selected(m, a + b).value == Selected(m, a).value + Selected(m, b).value
    decreases |b|
  {
    hide NamedClass, Qualifier, Matching;
    if b == [] {
      assert a + b == a;
    } else {
      var front := b[..|b| - 1];
      assert (a + b)[..|a + b| - 1] == a + front;
      SelectionsJoin(m, a, front);
    }
  }

  // One token: the device class it names, written in any case and between blanks, and
  // what follows the first colon.
  lemma OneToken(m: Machine, pre: string, word: string, post: string, k: Kind, tail: string)
    requires Lower(word) == KindName(k)
    requires forall i :: 0 <= i < |pre| ==> IsSpace(pre[i])
    requires forall i :: 0 <= i < |post| ==> IsSpace(post[i])
    requires tail == "" || tail[0] == ':'
    ensures var name := if tail == "" then "" else tail[1..];
            var pool := if k == File then m.order else m.attached;
            Reordered(m, [pre + word + post + tail]) ==
            if Filter(m, pool, k, name) == [] then Err(NothingMatches(pre + word + post + tail))
            else Ok(Filter(m, pool, k, name))
  {
    var words := pre + word + post;
    var token := words + tail;
    WordIsRead(pre, word, post, KindName(k));
    KindNamesStay(k);
    ClassApart(words, tail);
    KindNamesDiffer(k);
    assert NamedClass(token) == Device(k);
    hide NamedClass, Qualifier, Filter, KindName, Lower, Trim, Class;
    assert [token][..0] == [] && [token][0] == token;
    OneSelected(m, token);
  }

  lemma OneSelected(m: Machine, token: string)
    requires NamedClass(token).Device?
    ensures var found := Matching(m, NamedClass(token).kind, Qualifier(token));
            Reordered(m, [token]) == if found == [] then Err(NothingMatches(token)) else Ok(found)
  {
    hide NamedClass, Qualifier, Matching;
    assert [token][..0] == [] && [token][1..] == [];
    assert Selected(m, []) == Ok([]);
    assert FirstUnknown([token]).None?;
    var found := Matching(m, NamedClass(token).kind, Qualifier(token));
    assert [] + found == found;
  }

  // A token by itself gives the boot order exactly the sources it names, each once and in
  // the order they stand: a bare class word every one of that class, a word with a name
  // those of that name. Only a token that names nothing is refused.
  lemma WhatATokenSelects(m: Machine, pre: string, word: string, post: string, k: Kind, tail: string)
    returns (at: seq<nat>)
    requires Lower(word) == KindName(k)
    requires forall i :: 0 <= i < |pre| ==> IsSpace(pre[i])
    requires forall i :: 0 <= i < |post| ==> IsSpace(post[i])
    requires tail == "" || tail[0] == ':'
    ensures var pool := if k == File then m.order else m.attached;
            && Positions(m, pool, k, if tail == "" then "" else tail[1..], at)
            && Reordered(m, [pre + word + post + tail]) ==
               if at == [] then Err(NothingMatches(pre + word + post + tail))
               else Ok(seq(|at|, j requires 0 <= j < |at| => pool[at[j]]))
  {
    hide Filter, NamedBy, Reordered, IsSpace, Lower;
    var pool := if k == File then m.order else m.attached;
    var name := if tail == "" then "" else tail[1..];
    at := SelectionMeans(m, pool, k, name);
    OneToken(m, pre, word, post, k, tail);
    assert Filter(m, pool, k, name) == seq(|at|, j requires 0 <= j < |at| => pool[at[j]]);
  }

  // ---- sending the reported tokens back ----------------------------------------------

  // The source's token picks out that source and nothing else. A caller can see this
  // from what is reported: no other source of its kind has its name (or, if it has
  // none, there is no other source of its kind).
  predicate OneOfItsKind(m: Machine, s: Source) {
    Reportable(s) && Matching(m, s.kind.value, s.name) == [s]
  }

  predicate EachOneOfItsKind(m: Machine, order: seq<Source>) {
    forall i :: 0 <= i < |order| ==> OneOfItsKind(m, order[i])
  }

  // In terms of what is attached: the source is there once, and nothing else there
  // has its kind and a name that matches.
  lemma {:induction false} OnlyOneFits(m: Machine, pool: seq<Source>, k: Kind, name: string, s: Source)
    ensures Filter(m, pool, k, name) == [s] <==>
            exists i :: 0 <= i < |pool| && pool[i] == s
                        && forall j :: 0 <= j < |pool| ==> (Fits(m, pool[j], k, name) <==> j == i)
    ensures Filter(m, pool, k, name) == [] <==> forall j :: 0 <= j < |pool| ==> !Fits(m, pool[j], k, name)
  {
    if pool != [] {
      var rest := pool[1..];
      OnlyOneFits(m, rest, k, name, s);
      assert forall j :: 0 <= j < |rest| ==> rest[j] == pool[j + 1];
      assert forall j :: 1 <= j < |pool| ==> pool[j] == rest[j - 1];
      if Fits(m, pool[0], k, name) && Filter(m, pool, k, name) == [s] {
        assert Filter(m, rest, k, name) == [] by {
          assert Filter(m, pool, k, name)[1..] == Filter(m, rest, k, name);
        }
        assert pool[0] == Filter(m, pool, k, name)[0] == s;
      }
    }
  }

  // What the last source's own token adds.
  lemma LastToken(m: Machine, order: seq<Source>)
    requires order != []
    ensures var n := |order| - 1;
            var got, last := Selected(m, Tokens(order[..n])), order[n];
            Selected(m, Tokens(order)) ==
            if got.Err? then got
            else if !Reportable(last) then Err(NoSuchClass(Token(last)))
            else if Matching(m, last.kind.value, last.name) == [] then Err(NothingMatches(Token(last)))
            else Ok(got.value + Matching(m, last.kind.value, last.name))
  {
    hide NamedClass, Token, Qualifier, Matching;
    assert Tokens(order)[..|order| - 1] == Tokens(order[..|order| - 1]);
    TokenReadsBack(order[|order| - 1]);
  }

  // Each token selects at least one device or the request fails, so nothing but one
  // device a token can give back the same list.
  lemma {:induction false} SelectedComesBack(m: Machine, order: seq<Source>)
    ensures var r := Selected(m, Tokens(order)); r.Ok? ==> |r.value| >= |order|
    ensures Selected(m, Tokens(order)) == Ok(order) <==> EachOneOfItsKind(m, order)
  {
    hide OneOfItsKind, Token, Matching;
    if order != [] {
      var n := |order| - 1;
      var front, last := order[..n], order[n];
      assert order == front + [last];
      SelectedComesBack(m, front);
      LastToken(m, order);
      OneMoreOfItsKind(m, front, last);
      LastComesBack(m, Selected(m, Tokens(front)), front, last);
    }
  }

  lemma OneMoreOfItsKind(m: Machine, front: seq<Source>, last: Source)
    ensures EachOneOfItsKind(m, front + [last]) <==> EachOneOfItsKind(m, front) && OneOfItsKind(m, last)
  {
    var order := front + [last];
    assert order[|front|] == last;
    if EachOneOfItsKind(m, order) {
      forall i | 0 <= i < |front|
        ensures OneOfItsKind(m, front[i])
      {
        assert order[i] == front[i];
      }
    }
  }

  lemma LastComesBack(m: Machine, got: Result<seq<Source>, Refusal>, front: seq<Source>, last: Source)
    requires got.Ok? ==> |got.value| >= |front|
    ensures OneOfItsKind(m, last) ==> Reportable(last) && Matching(m, last.kind.value, last.name) != []
    ensures got.Ok? && Reportable(last) ==>
            var found := Matching(m, last.kind.value, last.name);
            found != [] ==> (got.value + found == front + [last] <==> got.value == front && OneOfItsKind(m, last))
  {
    if got.Ok? && Reportable(last) {
      var found := Matching(m, last.kind.value, last.name);
      if found != [] && got.value + found == front + [last] {
        assert |got.value| == |front|;
        assert (got.value + found)[..|front|] == got.value && (front + [last])[..|front|] == front;
        assert (got.value + found)[|front|..] == found && (front + [last])[|front|..] == [last];
      }
    }
  }

  lemma NoneUnknown(wanted: seq<Source>)
    ensures FirstUnknown(Tokens(wanted)).None? <==> forall i :: 0 <= i < |wanted| ==> Reportable(wanted[i])
  {
    hide NamedClass, Token;
    forall i | 0 <= i < |wanted|
      ensures NamedClass(Tokens(wanted)[i]) == Unknown <==> !Reportable(wanted[i])
    {
      TokenReadsBack(wanted[i]);
    }
  }

  // A list of sources of the VM comes back from its own tokens exactly when each
  // source's token picks out that source alone.
  lemma TokensComeBack(m: Machine, wanted: seq<Source>)
    requires wanted != []
    ensures Reordered(m, Tokens(wanted)) == Ok(wanted) <==> EachOneOfItsKind(m, wanted)
  {
    hide NamedClass, Token, Selected, Matching;
    SelectedComesBack(m, wanted);
    NoneUnknown(wanted);
  }

  // Hence the reported tokens may be sent back in any order, if they may be sent back
  // in the order they were reported in.
  lemma AnyOrderComesBack(m: Machine, wanted: seq<Source>)
    requires multiset(wanted) == multiset(m.order)
    ensures Reordered(m, Tokens(wanted)) == Ok(wanted) <==> EachOneOfItsKind(m, m.order)
  {
    hide OneOfItsKind, Token;
    assert |multiset(wanted)| == |multiset(m.order)|;
    SameSources(m, wanted, m.order);
    SameSources(m, m.order, wanted);
    if wanted != [] {
      TokensComeBack(m, wanted);
    }
  }

  lemma SameSources(m: Machine, a: seq<Source>, b: seq<Source>)
    requires multiset(a) == multiset(b)
    ensures EachOneOfItsKind(m, a) ==> EachOneOfItsKind(m, b)
  {
    hide OneOfItsKind;
    forall i | 0 <= i < |b|
      ensures exists j :: 0 <= j < |a| && a[j] == b[i]
    {
      assert b[i] in multiset(b);
      assert b[i] in a;
    }
  }

  // Two drives without a disc have the same token: sending the reported order back
  // unchanged lists each of them twice.
  lemma EmptyDrivesAreDoubled(m: Machine, a: nat, b: nat)
    requires m.order == m.attached == [Source(Some(Dvd), "", a), Source(Some(Dvd), "", b)]
    ensures Reordered(m, Tokens(m.order)) == Ok(m.order + m.order)
  {
    var one, two := m.order[0], m.order[1];
    assert m.attached[1..] == [two] && [two][1..] == [];
    assert Filter(m, [two], Dvd, "") == [two];
    assert Matching(m, Dvd, "") == [one, two];
    NoneUnknown(m.order);
    assert m.order[..1] == [one] && [one][..0] == [] && Tokens([]) == [];
    LastToken(m, [one]);
    assert [] + [one, two] == [one, two];
    LastToken(m, m.order);
  }

  // ---- completing an order (Generation 1) ----------------------------------------

  datatype BiosClass = IDE | CD | LegacyNetworkAdapter | FloppyDrive

  const EVERY_CLASS: seq<BiosClass> := [CD, IDE, LegacyNetworkAdapter, FloppyDrive]

  function BiosClassOf(token: string): Option<BiosClass> {
    match NamedClass(token)
    case Device(Disk) => Some(IDE)
    case Device(Dvd) => Some(CD)
    case Device(Network) => Some(LegacyNetworkAdapter)
    case Device(File) => None
    case Floppy => Some(FloppyDrive)
    case Unknown => None
  }

  // The class a reported token asks for on a Generation 1 VM, whatever name follows.
  lemma ReportedClass(s: Source)
    ensures !Reportable(s) || s.kind == Some(File) <==> BiosClassOf(Token(s)).None?
    ensures Reportable(s) && s.kind == Some(Disk) ==> BiosClassOf(Token(s)) == Some(IDE)
    ensures Reportable(s) && s.kind == Some(Dvd) ==> BiosClassOf(Token(s)) == Some(CD)
    ensures Reportable(s) && s.kind == Some(Network) ==> BiosClassOf(Token(s)) == Some(LegacyNetworkAdapter)
  {
    hide NamedClass, Token;
    TokenReadsBack(s);
  }

  predicate AllBios(tokens: seq<string>) {
    forall i :: 0 <= i < |tokens| ==> BiosClassOf(tokens[i]).Some?
  }

  function Requested(tokens: seq<string>): (r: seq<BiosClass>)
    requires AllBios(tokens)
    ensures |r| == |tokens|
  {
    seq(|tokens|, i requires 0 <= i < |tokens| => BiosClassOf(tokens[i]).value)
  }

  // Members of s that are not in seen; and s without its repeats.
  function Without<C(==,!new)>(s: seq<C>, seen: seq<C>): seq<C> {
    if s == [] then [] else
    var last := s[|s| - 1];
    Without(s[..|s| - 1], seen) + if last in seen then [] else [last]
  }

  function FirstTimes<C(==,!new)>(s: seq<C>): seq<C> {
    if s == [] then [] else
    var front, last := FirstTimes(s[..|s| - 1]), s[|s| - 1];
    if last in front then front else front + [last]
  }

  lemma {:induction false} FirstTimesMeans<C(!new)>(s: seq<C>, c: C)
    ensures c in FirstTimes(s) <==> c in s
  {
    if s != [] {
      FirstTimesMeans(s[..|s| - 1], c);
      assert s == s[..|s| - 1] + [s[|s| - 1]];
    }
  }

  function Completed<C(==,!new)>(asked: seq<C>, current: seq<C>): seq<C> {
    FirstTimes(asked) + Without(current, FirstTimes(asked))
  }

  ghost predicate IsFirstBad(tokens: seq<string>, token: string) {
    exists i :: 0 <= i < |tokens| && tokens[i] == token && BiosClassOf(token).None? && AllBios(tokens[..i])
  }

  // The classes asked for, each where it was first named; or the first entry that
  // names none.
  method RequestedClasses(tokens: seq<string>) returns (want: seq<BiosClass>, bad: Option<string>)
    ensures bad.None? <==> AllBios(tokens)
    ensures AllBios(tokens) ==> want == FirstTimes(Requested(tokens))
    ensures bad.Some? ==> IsFirstBad(tokens, bad.value)
  {
    hide BiosClassOf;
    want := [];
    for i := 0 to |tokens|
      invariant AllBios(tokens[..i]) && want == FirstTimes(Requested(tokens[..i]))
    {
      var c := BiosClassOf(tokens[i]);
      if c.None? {
        return want, Some(tokens[i]);
      }
      assert AllBios(tokens[..i + 1]);
      assert Requested(tokens[..i + 1]) == Requested(tokens[..i]) + [c.value];
      assert Requested(tokens[..i + 1])[..i] == Requested(tokens[..i]);
      if c.value !in want {
        want := want + [c.value];
      }
    }
    assert tokens[..|tokens|] == tokens;
    bad := None;
  }

  method CompleteBiosOrder(current: seq<BiosClass>, tokens: seq<string>)
    returns (r: Result<seq<BiosClass>, Refusal>)
    requires NoRepeats(current)
    ensures r.Ok? <==> AllBios(tokens)
    ensures AllBios(tokens) ==> r == Ok(if tokens == [] then current else Completed(Requested(tokens), current))
    ensures r.Err? && FirstUnknown(tokens).Some? ==> r.error == BadEntry(FirstUnknown(tokens).value)
    ensures r.Err? && FirstUnknown(tokens).None? ==>
            && r.error.NoSuchClass? && IsFirstBad(tokens, r.error.token)
            && NamedClass(r.error.token) == Device(File)
  {
    hide NamedClass;
    var bad := CheckTokens(tokens);
    if bad.Some? {
      assert exists i :: 0 <= i < |tokens| && NamedClass(tokens[i]) == Unknown;
      return Err(BadEntry(bad.value));
    }
    if |tokens| == 0 {
      return Ok(current);
    }
    var want, none := RequestedClasses(tokens);
    if none.Some? {
      return Err(NoSuchClass(none.value));
    }
    ghost var asked := want;
    for i := 0 to |current|
      invariant want == asked + Without(current[..i], asked)
    {
      var s := current[i];
      assert current[..i + 1][..i] == current[..i];
      WithoutMeans(current[..i], asked, s);
      if s !in want {
        want := want + [s];
      }
    }
    assert current[..|current|] == current;
    return Ok(want);
  }

  predicate NoRepeats<C(==,!new)>(s: seq<C>) {
    forall i, j :: 0 <= i < j < |s| ==> s[i] != s[j]
  }

  lemma {:induction false} WithoutMeans<C(!new)>(s: seq<C>, seen: seq<C>, c: C)
    ensures c in Without(s, seen) <==> c in s && c !in seen
  {
    if s != [] {
      WithoutMeans(s[..|s| - 1], seen, c);
      assert s == s[..|s| - 1] + [s[|s| - 1]];
    }
  }

  lemma {:induction false} FirstTimesDistinct<C(!new)>(s: seq<C>)
    ensures NoRepeats(FirstTimes(s))
  {
    if s != [] {
      FirstTimesDistinct(s[..|s| - 1]);
    }
  }

  lemma {:induction false} WithoutDistinct<C(!new)>(s: seq<C>, seen: seq<C>)
    requires NoRepeats(s)
    ensures NoRepeats(Without(s, seen))
  {
    if s != [] {
      var front, last := s[..|s| - 1], s[|s| - 1];
      WithoutDistinct(front, seen);
      WithoutMeans(front, seen, last);
      assert last !in front;
    }
  }

  // On a Generation 1 VM: the BIOS always gets all four classes, each once.
  lemma AllFourClasses(current: seq<BiosClass>, tokens: seq<string>)
    requires multiset(current) == multiset(EVERY_CLASS) && AllBios(tokens)
    ensures NoRepeats(current)
    ensures multiset(Completed(Requested(tokens), current)) == multiset(EVERY_CLASS)
  {
    hide BiosClassOf, FirstTimes, Without;
    forall i, j | 0 <= i < j < |current|
      ensures current[i] != current[j]
    {
      if current[i] == current[j] {
        TwiceCounted(current, i, j);
        EachListedOnce(current[i]);
      }
    }
    forall i | 0 <= i < |tokens|
      ensures Requested(tokens)[i] in current
    {
      EachListedOnce(Requested(tokens)[i]);
      assert Requested(tokens)[i] in multiset(current);
    }
    CompletedListsAll(Requested(tokens), current);
  }

  lemma EachListedOnce(c: BiosClass)
    ensures multiset(EVERY_CLASS)[c] == 1
  {
    assert EVERY_CLASS == [CD, IDE, LegacyNetworkAdapter, FloppyDrive];
  }

  lemma TwiceCounted<C>(s: seq<C>, i: nat, j: nat)
    requires i < j < |s| && s[i] == s[j]
    ensures multiset(s)[s[i]] >= 2
  {
    assert s == s[..j] + s[j..];
    assert s[..j][i] in multiset(s[..j]) && s[j..][0] in multiset(s[j..]);
  }

  // The result lists every class once, if the current order does.
  lemma CompletedListsAll<C(!new)>(asked: seq<C>, current: seq<C>)
    requires NoRepeats(current) && forall i :: 0 <= i < |asked| ==> asked[i] in current
    ensures multiset(Completed(asked, current)) == multiset(current)
  {
    var d := FirstTimes(asked);
    var rest := Without(current, d);
    FirstTimesDistinct(asked);
    WithoutDistinct(current, d);
    forall c
      ensures multiset(d + rest)[c] == multiset(current)[c]
    {
      WithoutMeans(current, d, c);
      CountOnce(d, c);
      CountOnce(rest, c);
      CountOnce(current, c);
      FirstTimesMeans(asked, c);
    }
  }

  lemma {:induction false} CountOnce<C(!new)>(s: seq<C>, c: C)
    requires NoRepeats(s)
    ensures multiset(s)[c] == if c in s then 1 else 0
  {
    if s != [] {
      var front, last := s[..|s| - 1], s[|s| - 1];
      assert s == front + [last];
      CountOnce(front, c);
      assert last !in front;
    }
  }

  function Place<C(==,!new)>(s: seq<C>, c: C): (i: nat)
    ensures i <= |s| && (i < |s| <==> c in s) && (i < |s| ==> s[i] == c)
    ensures forall j :: 0 <= j < i ==> s[j] != c
  {
    if s == [] || s[0] == c then 0 else 1 + Place(s[1..], c)
  }

  // What comes before what: requested classes first, in the order they were first
  // asked for; then the others, as they stood.
  predicate Earlier<C(==,!new)>(asked: seq<C>, current: seq<C>, a: C, b: C) {
    if a in asked then b in asked ==> Place(asked, a) < Place(asked, b)
    else b !in asked && Place(current, a) < Place(current, b)
  }

  lemma {:induction false} FirstTimesKeepsOrder<C(!new)>(s: seq<C>, i: nat, j: nat)
    requires i < j < |FirstTimes(s)|
    ensures Place(s, FirstTimes(s)[i]) < Place(s, FirstTimes(s)[j])
  {
    var front, last := s[..|s| - 1], s[|s| - 1];
    assert s == front + [last];
    var d := FirstTimes(front);
    PlaceInFront(front, last, FirstTimes(s)[i]);
    PlaceInFront(front, last, FirstTimes(s)[j]);
    FirstTimesMeans(front, FirstTimes(s)[i]);
    FirstTimesMeans(front, FirstTimes(s)[j]);
    if j < |d| {
      FirstTimesKeepsOrder(front, i, j);
    }
  }

  lemma PlaceInFront<C(!new)>(front: seq<C>, last: C, c: C)
    ensures c in front ==> Place(front + [last], c) == Place(front, c)
    ensures c !in front ==> Place(front + [last], c) >= |front|
  {
    var s := front + [last];
    var p := Place(s, c);
    if c in front {
      var q := Place(front, c);
      assert s[q] == c;
      assert p < |front| ==> s[p] == front[p];
    } else {
      assert forall i :: 0 <= i < |front| ==> s[i] == front[i];
    }
  }

  lemma {:induction false} WithoutKeepsOrder<C(!new)>(s: seq<C>, seen: seq<C>, i: nat, j: nat)
    requires NoRepeats(s) && i < j < |Without(s, seen)|
    ensures Place(s, Without(s, seen)[i]) < Place(s, Without(s, seen)[j])
  {
    var front, last := s[..|s| - 1], s[|s| - 1];
    assert s == front + [last];
    var w := Without(front, seen);
    WithoutMeans(front, seen, Without(s, seen)[i]);
    PlaceInFront(front, last, Without(s, seen)[i]);
    PlaceInFront(front, last, Without(s, seen)[j]);
    if j < |w| {
      WithoutMeans(front, seen, w[j]);
      WithoutKeepsOrder(front, seen, i, j);
    } else {
      assert w[i] in front;
    }
  }

  // The completed order puts classes exactly as asked.
  lemma CompletedKeepsOrder<C(!new)>(asked: seq<C>, current: seq<C>, i: nat, j: nat)
    requires NoRepeats(current) && i < j < |Completed(asked, current)|
    ensures Earlier(asked, current, Completed(asked, current)[i], Completed(asked, current)[j])
  {
    var d := FirstTimes(asked);
    var rest := Without(current, d);
    var r := d + rest;
    FirstTimesMeans(asked, r[i]);
    FirstTimesMeans(asked, r[j]);
    if j < |d| {
      FirstTimesKeepsOrder(asked, i, j);
      assert r[i] in d && r[j] in d;
    } else {
      WithoutMeans(current, d, r[j]);
      assert r[j] in rest;
      if i < |d| {
        assert r[i] in d;
      } else {
        WithoutMeans(current, d, r[i]);
        assert r[i] in rest;
        WithoutKeepsOrder(current, d, i - |d|, j - |d|);
      }
    }
  }

  // ---- one request after another ---------------------------------------------------

  lemma {:induction false} WithoutJoins<C(!new)>(a: seq<C>, b: seq<C>, seen: seq<C>)
    ensures Without(a + b, seen) == Without(a, seen) + Without(b, seen)
  {
    if b == [] {
      assert a + b == a;
    } else {
      assert (a + b)[..|a + b| - 1] == a + b[..|b| - 1];
      WithoutJoins(a, b[..|b| - 1], seen);
    }
  }

  lemma {:induction false} WithoutTwice<C(!new)>(s: seq<C>, first: seq<C>, second: seq<C>, both: seq<C>)
    requires forall c :: c in both <==> c in first || c in second
    ensures Without(Without(s, first), second) == Without(s, both)
  {
    if s != [] {
      var front, last := s[..|s| - 1], s[|s| - 1];
      WithoutTwice(front, first, second, both);
      var tail := if last in first then [] else [last];
      WithoutJoins(Without(front, first), tail, second);
      if tail == [last] {
        assert tail[..0] == [];
        assert Without(tail, second) == if last in second then [] else [last];
      }
    }
  }

  lemma WithoutOne<C(!new)>(c: C, seen: seq<C>)
    ensures Without([c], seen) == if c in seen then [] else [c]
  {
    assert [c][..0] == [];
  }

  lemma FirstTimesOneMore<C(!new)>(front: seq<C>, last: C)
    ensures FirstTimes(front + [last]) ==
            if last in FirstTimes(front) then FirstTimes(front) else FirstTimes(front) + [last]
  {
    assert (front + [last])[..|front|] == front;
  }

  lemma JoinOneMore<C(!new)>(a: seq<C>, front: seq<C>, last: C)
    requires FirstTimes(a + front) == FirstTimes(a) + Without(FirstTimes(front), FirstTimes(a))
    ensures FirstTimes(a + front + [last]) == FirstTimes(a) + Without(FirstTimes(front + [last]), FirstTimes(a))
  {
    hide FirstTimes, Without;
    var seen, once := FirstTimes(a), FirstTimes(front);
    var added := Without(once, seen);
    FirstTimesOneMore(a + front, last);
    FirstTimesOneMore(front, last);
    WithoutMeans(once, seen, last);
    assert last in seen + added <==> last in seen || last in added;
    if last !in once {
      WithoutJoins(once, [last], seen);
      WithoutOne(last, seen);
      assert (seen + added) + [last] == seen + (added + [last]) && added + [] == added;
    }
  }

  lemma LastApart<C(!new)>(a: seq<C>, b: seq<C>)
    requires b != []
    ensures a + b[..|b| - 1] + [b[|b| - 1]] == a + b && b[..|b| - 1] + [b[|b| - 1]] == b
  {
  }

  lemma {:induction false} FirstTimesJoins<C(!new)>(a: seq<C>, b: seq<C>)
    ensures FirstTimes(a + b) == FirstTimes(a) + Without(FirstTimes(b), FirstTimes(a))
  {
    if b == [] {
      assert a + b == a;
    } else {
      hide FirstTimes, Without;
      var front, last := b[..|b| - 1], b[|b| - 1];
      FirstTimesJoins(a, front);
      JoinOneMore(a, front, last);
      LastApart(a, b);
    }
  }

  // Two requests in a row do what one request naming the later classes first does.
  lemma RequestsCompose<C(!new)>(first: seq<C>, second: seq<C>, current: seq<C>)
    ensures Completed(second, Completed(first, current)) == Completed(second + first, current)
  {
    var d1, d2 := FirstTimes(first), FirstTimes(second);
    var both, rest := FirstTimes(second + first), Without(current, d1);
    calc {
      Completed(second, Completed(first, current));
      d2 + Without(d1 + rest, d2);
      { WithoutJoins(d1, rest, d2); }
      d2 + (Without(d1, d2) + Without(rest, d2));
      (d2 + Without(d1, d2)) + Without(rest, d2);
      { FirstTimesJoins(second, first); }
      both + Without(rest, d2);
      { BothAsked(first, second); WithoutTwice(current, d1, d2, both); }
      both + Without(current, both);
    }
  }

  lemma BothAsked<C(!new)>(first: seq<C>, second: seq<C>)
    ensures forall c :: c in FirstTimes(second + first) <==> c in FirstTimes(first) || c in FirstTimes(second)
  {
    forall c
      ensures c in FirstTimes(second + first) <==> c in FirstTimes(first) || c in FirstTimes(second)
    {
      FirstTimesMeans(second + first, c);
      FirstTimesMeans(first, c);
      FirstTimesMeans(second, c);
    }
  }

  // So asking again changes nothing.
  lemma AskingAgainChangesNothing<C(!new)>(asked: seq<C>, current: seq<C>)
    ensures Completed(asked, Completed(asked, current)) == Completed(asked, current)
  {
    var d := FirstTimes(asked);
    RequestsCompose(asked, asked, current);
    FirstTimesJoins(asked, asked);
    NothingLeft(d, d);
    assert FirstTimes(asked + asked) == d + [] == d;
  }

  lemma {:induction false} NothingLeft<C(!new)>(s: seq<C>, seen: seq<C>)
    requires forall i :: 0 <= i < |s| ==> s[i] in seen
    ensures Without(s, seen) == []
  {
    if s != [] {
      NothingLeft(s[..|s| - 1], seen);
    }
  }
}
