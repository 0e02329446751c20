/** Command lines as they are written: the name or the alias of a command and its arguments,
    with blanks between them. */
module CommandLine {
  import opened CText
  import opened Dispatcher

  predicate Blank(c: char) { c == ' ' || '\t' <= c <= '\r' }

  predicate Blanks(t: string) { forall i | 0 <= i < |t| :: Blank(t[i]) }

  /** The converter of the argument reads the text completely, wherever it stands with a blank
      or the end of the string behind it. */
  ghost predicate Gives(a: Arg, t: string, d: Data) {
    && t != "" && t[0] != NUL && !Blank(t[0])
    && forall line, i: nat :: Holds(line, i, t) && (At(line, i + |t|) == NUL || Blank(At(line, i + |t|)))
                              ==> a.parse(line, i) == Parsed(d, i + |t|)
  }

  predicate AllGaps(gaps: seq<string>) { forall k | 0 <= k < |gaps| :: gaps[k] != "" && Blanks(gaps[k]) }

  /** Blanks in front of each argument, and texts that the first of the converters read. */
  ghost predicate AllGiven(args: seq<Arg>, gaps: seq<string>, texts: seq<string>, argv: seq<Data>) {
    && |gaps| == |texts| == |argv| <= |args|
    && forall k | 0 <= k < |argv| :: gaps[k] != "" && Blanks(gaps[k]) && Gives(args[k], texts[k], argv[k])
  }

  lemma GivenParts(args: seq<Arg>, gaps: seq<string>, texts: seq<string>, argv: seq<Data>)
    requires AllGiven(args, gaps, texts, argv)
    ensures |gaps| == |texts| == |argv| <= |args|
    ensures AllGaps(gaps) && (gaps != [] ==> Blanks(gaps[0]))
    ensures argv != [] ==> Gives(args[0], texts[0], argv[0]) && AllGiven(args[1..], gaps[1..], texts[1..], argv[1..])
  {
  }

  /** Arguments with blanks in front of each. */
  function Spoken(gaps: seq<string>, texts: seq<string>): string
    requires |gaps| == |texts|
  {
    if texts == [] then "" else gaps[0] + (texts[0] + Spoken(gaps[1..], texts[1..]))
  }

  lemma {:induction false} BlanksSkipped(line: string, i: nat, j: nat)
    requires i <= j <= |line| && Blanks(line[i..j])
    ensures SkipSpace(line, i) == SkipSpace(line, j)
    decreases j - i
  {
    if i < j {
      assert line[i..j][0] == line[i] && line[i + 1..j] == line[i..j][1..];
      BlanksSkipped(line, i + 1, j);
    }
  }

  lemma GapSkipped(line: string, i: nat, gap: string, t: string)
    requires Holds(line, i, gap + t) && Blanks(gap) && t != "" && !Blank(t[0])
    ensures SkipSpace(line, i) == i + |gap| && At(line, i + |gap|) == t[0] && Holds(line, i + |gap|, t)
  {
    HoldsSplit(line, i, gap, t);
    HoldsAt(line, i + |gap|, t, 0);
    BlanksSkipped(line, i, i + |gap|);
  }

  lemma SpokenFirst(gaps: seq<string>, texts: seq<string>)
    requires |gaps| == |texts| > 0
    ensures Spoken(gaps, texts) == gaps[0] + (texts[0] + Spoken(gaps[1..], texts[1..]))
  {
  }

  lemma SpokenBegins(gaps: seq<string>, texts: seq<string>)
    requires |gaps| == |texts| && AllGaps(gaps)
    ensures Spoken(gaps, texts) == "" || Blank(Spoken(gaps, texts)[0])
  {
    if texts != [] { assert Spoken(gaps, texts)[0] == gaps[0][0]; }
  }

  /** What follows the first argument. */
  lemma FirstSpoken(line: string, i: nat, gaps: seq<string>, texts: seq<string>, end: nat)
    requires |gaps| == |texts| > 0 && Holds(line, i, Spoken(gaps, texts))
    requires AllGaps(gaps)
    requires end == i + |Spoken(gaps, texts)| && (At(line, end) == NUL || Blank(At(line, end)))
    ensures var j, rest := i + |gaps[0]| + |texts[0]|, Spoken(gaps[1..], texts[1..]);
            && Holds(line, i, gaps[0] + texts[0]) && (At(line, j) == NUL || Blank(At(line, j)))
            && Holds(line, j, rest) && end == j + |rest|
  {
    var g, t, rest := gaps[0], texts[0], Spoken(gaps[1..], texts[1..]);
    SpokenBegins(gaps[1..], texts[1..]);
    hide Holds, Blanks, Blank, Spoken;
    assert Spoken(gaps, texts) == g + (t + rest) by { SpokenFirst(gaps, texts); }
    Assoc(g, t, rest);
    HoldsSplit(line, i, g + t, rest);
    if rest != "" { HoldsAt(line, i + |g + t|, rest, 0); }
  }

  lemma FirstGiven(line: string, i: nat, args: seq<Arg>, gap: string, t: string, argv: seq<Data>)
    requires args != [] && argv != [] && Gives(args[0], t, argv[0]) && Blanks(gap)
    requires Holds(line, i, gap + t)
    requires var c := At(line, i + |gap| + |t|);
             c == NUL || Blank(c)
    ensures var r := ArgsFrom(line, args[1..], i + |gap| + |t|);
            r.0 == argv[1..] ==> ArgsFrom(line, args, i) == (argv, r.1)
  {
    hide Holds;
    GapSkipped(line, i, gap, t);
    assert [argv[0]] + argv[1..] == argv;
  }

  lemma AllBlank(line: string, i: nat)
    requires i <= |line| && Blanks(line[i..])
    ensures SkipSpace(line, i) == |line|
  {
    assert line[i..|line|] == line[i..];
    BlanksSkipped(line, i, |line|);
  }

  lemma NothingSpoken(line: string, args: seq<Arg>, i: nat)
    ensures Spoken([], []) == "" && (Holds(line, i, "") ==> i <= |line|)
    ensures i <= |line| && (args != [] ==> Blanks(line[i..])) ==>
              ArgsFrom(line, args, i) == ([], args == [] && At(line, i) == NUL)
  {
    if i <= |line| && args != [] && Blanks(line[i..]) { AllBlank(line, i); }
  }

  /** The arguments stand at `i`, and where they end there is nothing more that could be one. */
  ghost predicate Stand(line: string, args: seq<Arg>, i: nat, gaps: seq<string>, texts: seq<string>,
                        argv: seq<Data>, end: nat) {
    && AllGiven(args, gaps, texts, argv)
    && Holds(line, i, Spoken(gaps, texts)) && end == i + |Spoken(gaps, texts)| <= |line|
    && (At(line, end) == NUL || Blank(At(line, end)))
    && (|argv| < |args| ==> Blanks(line[end..]))
  }

  lemma NoneStand(line: string, args: seq<Arg>, i: nat, end: nat)
    requires Stand(line, args, i, [], [], [], end)
    ensures ArgsFrom(line, args, i) == ([], args == [] && At(line, end) == NUL)
  {
    hide AllGiven;
    NothingSpoken(line, args, i);
  }

  lemma FirstStands(line: string, args: seq<Arg>, i: nat, gaps: seq<string>, texts: seq<string>,
                    argv: seq<Data>, end: nat)
    requires Stand(line, args, i, gaps, texts, argv, end) && argv != []
    ensures |gaps| == |texts| == |argv| <= |args|
    ensures var j := i + |gaps[0]| + |texts[0]|;
            var r := ArgsFrom(line, args[1..], j);
            && Stand(line, args[1..], j, gaps[1..], texts[1..], argv[1..], end)
            && (r.0 == argv[1..] ==> ArgsFrom(line, args, i) == (argv, r.1))
  {
    GivenParts(args, gaps, texts, argv);
    hide AllGiven, Holds, Spoken, Blank, Blanks, Gives, AllGaps, ArgsFrom;
    FirstSpoken(line, i, gaps, texts, end);
    FirstGiven(line, i, args, gaps[0], texts[0], argv);
  }

  /** Arguments written one after the other are read as they were given; all is well if they
      are as many as the command declares, and nothing follows. */
  lemma {:induction false} ArgsWritten(line: string, args: seq<Arg>, i: nat, gaps: seq<string>,
                                       texts: seq<string>, argv: seq<Data>, end: nat)
    requires Stand(line, args, i, gaps, texts, argv, end) && |gaps| == |texts| == |argv|
    ensures ArgsFrom(line, args, i) == (argv, |argv| == |args| && At(line, end) == NUL)
    decreases |argv|
  {
    hide *;
    if argv == [] {
      assert gaps == [] && texts == [];
      NoneStand(line, args, i, end);
    } else {
      FirstStands(line, args, i, gaps, texts, argv, end);
      ArgsWritten(line, args[1..], i + |gaps[0]| + |texts[0]|, gaps[1..], texts[1..], argv[1..], end);
    }
  }

  /** A word that may name a command. */
  predicate Letters(t: string) {
    t != "" && forall i | 0 <= i < |t| :: 'a' <= t[i] <= 'z' || 'A' <= t[i] <= 'Z'
  }

  /** The line holds the word at `i`, with blanks in front of it and no letter behind it. */
  predicate WordAt(line: string, i: nat, word: string) {
    i <= |line| && Blanks(line[..i]) && Letters(word) && Holds(line, i, word) && !IsAlpha(At(line, i + |word|))
  }

  lemma WordRead(line: string, i: nat, word: string)
    requires WordAt(line, i, word)
    ensures SkipSpace(line, 0) == i && AlphaEnd(line, i) == i + |word| <= |line|
    ensures line[i..i + |word|] == word
  {
    assert line[0..i] == line[..i];
    BlanksSkipped(line, 0, i);
    var e := AlphaEnd(line, i);
    forall k | i <= k < i + |word| ensures IsAlpha(line[k]) { HoldsAt(line, i, word, k - i); }
  }

  lemma WordPlaced(gap: string, word: string, rest: string)
    requires Blanks(gap) && Letters(word) && (rest == "" || !IsAlpha(rest[0]))
    ensures WordAt(gap + word + rest, |gap|, word)
    ensures (gap + word + rest)[|gap| + |word|..] == rest
  {
    var line := gap + word + rest;
    assert line[..|gap|] == gap;
    assert line[|gap|..|gap| + |word|] == word;
    assert At(line, |gap| + |word|) == At(rest, 0);
  }

  /** No name or alias of an entry is a name or alias of another. */
  predicate Unambiguous(table: seq<Command>) {
    forall i, j | 0 <= i < |table| && 0 <= j < |table| && i != j ::
      && table[i].name != table[j].name && table[j].alias != Some(table[i].name)
      && (table[i].alias.Some? ==> table[i].alias != table[j].alias)
  }

  lemma OnlyNamed(table: seq<Command>, k: nat, word: string)
    requires Unambiguous(table) && k < |table|
    requires word == table[k].name || table[k].alias == Some(word)
    ensures FirstNamed(table, word, 0) == k
  {
  }

  /** What a line does that begins with the name or the alias of a command. */
  lemma WordDispatched(table: seq<Command>, k: nat, line: string, i: nat, word: string)
    requires Unambiguous(table) && k < |table| && WordAt(line, i, word)
    requires word == table[k].name || table[k].alias == Some(word)
    ensures var (argv, ok) := ArgsFrom(line, table[k].args, i + |word|);
            Dispatch(table, line) == if ok then Some((k, argv)) else None
  {
    WordRead(line, i, word);
    hide WordAt, SkipSpace, AlphaEnd, ArgsFrom, Unambiguous;
    OnlyNamed(table, k, word);
  }

  lemma TailBehind(line: string, i: nat, a: string, tail: string)
    requires i <= |line| && line[i..] == a + tail
    ensures Holds(line, i, a) && i + |a| <= |line| && line[i + |a|..] == tail
    ensures At(line, i + |a|) == At(tail, 0)
  {
    assert line[i..][..|a|] == a && line[i..][|a|..] == tail;
  }

  lemma TailEnds(tail: string)
    requires tail == "" || Blank(tail[0])
    ensures At(tail, 0) == NUL <==> tail == ""
    ensures At(tail, 0) == NUL || Blank(At(tail, 0))
  {
  }

  lemma IsStanding(line: string, args: seq<Arg>, i: nat, gaps: seq<string>, texts: seq<string>,
                   argv: seq<Data>, end: nat)
    requires AllGiven(args, gaps, texts, argv)
    requires Holds(line, i, Spoken(gaps, texts)) && end == i + |Spoken(gaps, texts)| <= |line|
    requires At(line, end) == NUL || Blank(At(line, end))
    requires |argv| < |args| ==> Blanks(line[end..])
    ensures Stand(line, args, i, gaps, texts, argv, end)
  {
  }

  lemma ArgsRead(line: string, args: seq<Arg>, i: nat, gaps: seq<string>, texts: seq<string>,
                 argv: seq<Data>, tail: string)
    requires AllGiven(args, gaps, texts, argv)
    requires tail == "" || Blank(tail[0])
    requires |argv| < |args| ==> Blanks(tail)
    requires i <= |line| && line[i..] == Spoken(gaps, texts) + tail
    ensures ArgsFrom(line, args, i) == (argv, |argv| == |args| && tail == "")
  {
    GivenParts(args, gaps, texts, argv);
    TailEnds(tail);
    hide *;
    TailBehind(line, i, Spoken(gaps, texts), tail);
    var end := i + |Spoken(gaps, texts)|;
    IsStanding(line, args, i, gaps, texts, argv, end);
    ArgsWritten(line, args, i, gaps, texts, argv, end);
  }

  lemma LineRead(table: seq<Command>, k: nat, line: string, i: nat, word: string, gaps: seq<string>,
                 texts: seq<string>, argv: seq<Data>, tail: string)
    requires Unambiguous(table) && k < |table| && WordAt(line, i, word)
    requires word == table[k].name || table[k].alias == Some(word)
    requires AllGiven(table[k].args, gaps, texts, argv)
    requires tail == "" || Blank(tail[0])
    requires |argv| < |table[k].args| ==> Blanks(tail)
    requires i + |word| <= |line| && line[i + |word|..] == Spoken(gaps, texts) + tail
    ensures Dispatch(table, line) == if |argv| == |table[k].args| && tail == "" then Some((k, argv)) else None
  {
    GivenParts(table[k].args, gaps, texts, argv);
    hide *;
    WordDispatched(table, k, line, i, word);
    ArgsRead(line, table[k].args, i + |word|, gaps, texts, argv, tail);
  }

  lemma RestBegins(gaps: seq<string>, texts: seq<string>, tail: string)
    requires |gaps| == |texts| && AllGaps(gaps)
    requires tail == "" || Blank(tail[0])
    ensures var rest := Spoken(gaps, texts) + tail;
            rest == "" || !IsAlpha(rest[0])
  {
    SpokenBegins(gaps, texts);
    if Spoken(gaps, texts) != "" { assert (Spoken(gaps, texts) + tail)[0] == Spoken(gaps, texts)[0]; }
  }

  /** A line made of the name or the alias of a command and its arguments runs the handler of
      this command with these arguments, however they are spaced. With something behind the
      arguments, or with too few of them, no handler runs. */
  lemma LineRuns(table: seq<Command>, k: nat, gap: string, word: string, gaps: seq<string>,
                 texts: seq<string>, argv: seq<Data>, tail: string)
    requires Unambiguous(table) && k < |table| && Letters(word) && Blanks(gap)
    requires word == table[k].name || table[k].alias == Some(word)
    requires AllGiven(table[k].args, gaps, texts, argv)
    requires tail == "" || Blank(tail[0])
    requires |argv| < |table[k].args| ==> Blanks(tail)
    ensures Dispatch(table, gap + word + (Spoken(gaps, texts) + tail))
            == if |argv| == |table[k].args| && tail == "" then Some((k, argv)) else None
  {
    GivenParts(table[k].args, gaps, texts, argv);
    var rest := Spoken(gaps, texts) + tail;
    RestBegins(gaps, texts, tail);
    WordPlaced(gap, word, rest);
    hide *;
    LineRead(table, k, gap + word + rest, |gap|, word, gaps, texts, argv, tail);
  }

  /** The converter sees the text behind its pointer and nothing else. */
  ghost predicate Local(a: Arg) {
    forall front, t: string, i: nat ::
      a.parse(front + t, |front| + i) == Parsed(a.parse(t, i).data, |front| + a.parse(t, i).end)
  }

  lemma {:induction false} SkipShifted(front: string, t: string, i: nat)
    ensures SkipSpace(front + t, |front| + i) == |front| + SkipSpace(t, i)
    decreases |t| - i
  {
    assert At(front + t, |front| + i) == At(t, i);
    if i < |t| && IsSpace(t[i]) { SkipShifted(front, t, i + 1); }
  }

  lemma {:induction false} ArgsShifted(front: string, t: string, args: seq<Arg>, i: nat)
    requires forall k | 0 <= k < |args| :: Local(args[k])
    ensures ArgsFrom(front + t, args, |front| + i) == ArgsFrom(t, args, i)
    decreases |args|
  {
    hide EndsArg;
    assert At(front + t, |front| + i) == At(t, i);
    if args != [] {
      SkipShifted(front, t, i);
      var start := SkipSpace(t, i);
      assert At(front + t, |front| + start) == At(t, start);
      assert Local(args[0]);
      var p := args[0].parse(t, start);
      assert At(front + t, |front| + p.end) == At(t, p.end);
      ArgsShifted(front, t, args[1..], p.end);
    }
  }

  /** Whatever follows it, an alias does what the name does: the same command, with the same
      arguments, or none. */
  lemma AliasIsName(table: seq<Command>, k: nat, gap: string, rest: string)
    requires Unambiguous(table) && k < |table| && table[k].alias.Some? && Blanks(gap)
    requires Letters(table[k].name) && Letters(table[k].alias.value)
    requires rest == "" || !IsAlpha(rest[0])
    requires forall i | 0 <= i < |table[k].args| :: Local(table[k].args[i])
    ensures Dispatch(table, gap + table[k].alias.value + rest) == Dispatch(table, gap + table[k].name + rest)
    ensures var (argv, ok) := ArgsFrom(rest, table[k].args, 0);
            Dispatch(table, gap + table[k].alias.value + rest) == if ok then Some((k, argv)) else None
  {
    hide Local, Blanks, Letters, ArgsFrom, Unambiguous, WordAt, Dispatch;
    var name, alias := table[k].name, table[k].alias.value;
    WordPlaced(gap, name, rest);
    WordPlaced(gap, alias, rest);
    WordDispatched(table, k, gap + name + rest, |gap|, name);
    WordDispatched(table, k, gap + alias + rest, |gap|, alias);
    ArgsShifted(gap + name, rest, table[k].args, 0);
    ArgsShifted(gap + alias, rest, table[k].args, 0);
  }

  predicate NoTwice(ws: seq<string>) { forall i, j | 0 <= i < j < |ws| :: ws[i] != ws[j] }

  lemma NoTwiceConcat(a: seq<string>, b: seq<string>)
    requires NoTwice(a) && NoTwice(b) && forall w | w in a :: w !in b
    ensures NoTwice(a + b)
  {
    forall i, j | 0 <= i < j < |a + b| ensures (a + b)[i] != (a + b)[j] {
      if i < |a| <= j { assert a[i] in a && b[j - |a|] in b; }
    }
  }

  /** What the i-th entry contributes to the offers. */
  function OwnOffers(table: seq<Command>, i: nat, text: string): seq<string>
    requires i < |table|
  {
    AliasOf(table, i, text) + IfOffered(table[i].name, text)
  }

  lemma OwnOffersAre(table: seq<Command>, i: nat, text: string, w: string)
    requires i < |table| && w in OwnOffers(table, i, text)
    ensures table[i].name == w || table[i].alias == Some(w)
  {
  }

  /** No word is offered twice. */
  lemma {:induction false} OffersOnce(table: seq<Command>, text: string, i: nat)
    requires Unambiguous(table) && forall k | 0 <= k < |table| :: table[k].alias != Some(table[k].name)
    ensures NoTwice(AllOffers(table, text, i))
    decreases |table| - i
  {
    if i < |table| {
      var own, rest := OwnOffers(table, i, text), AllOffers(table, text, i + 1);
      OffersOnce(table, text, i + 1);
      forall w | w in own ensures w !in rest {
        OwnOffersAre(table, i, text, w);
        OffersIff(table, text, i + 1, w);
      }
      NoTwiceConcat(own, rest);
    }
  }
}
