/** The command line: finding a command, reading its arguments, running its handler, and
    offering command names for completion. */
module Dispatcher {
  import opened CText
  import opened EnumVal

  /** An argument as the handler gets it: a number, or a block that must be freed. */
  datatype Data = Int(n: int) | Block(ticket: nat, text: string)

  /** What a converter makes of the text at an offset, and where it stopped. */
  datatype Parsed = Parsed(data: Data, end: nat)

  datatype Arg = Arg(name: string, parse: (string, nat) -> Parsed)

  datatype Command = Command(name: string, alias: Option<string>, args: seq<Arg>)

  predicate EndsArg(c: char) { c == NUL || IsSpace(c) }

  function AlphaEnd(mem: string, i: nat): (e: nat)
    ensures i <= e && !IsAlpha(At(mem, e)) && (i <= |mem| ==> e <= |mem|)
    ensures forall k | i <= k < e :: k < |mem| && IsAlpha(mem[k])
    decreases |mem| - i
  {
    if i < |mem| && IsAlpha(mem[i]) then AlphaEnd(mem, i + 1) else i
  }

  predicate Named(c: Command, name: string) { c.name == name || c.alias == Some(name) }

  function FirstNamed(table: seq<Command>, name: string, i: nat): (k: nat)
    ensures i <= |table| ==> i <= k <= |table|
    ensures k < |table| ==> Named(table[k], name)
    ensures forall j | i <= j < k && j < |table| :: !Named(table[j], name)
    decreases |table| - i
  {
    if i < |table| && !Named(table[i], name) then FirstNamed(table, name, i + 1) else i
  }

  /** The first command with the name or alias; the length of the table if there is none. */
  method Find(table: seq<Command>, name: string) returns (k: nat)
    ensures k == FirstNamed(table, name, 0) && k <= |table|
    ensures k < |table| ==> table[k].name == name || table[k].alias == Some(name)
    ensures forall j | 0 <= j < k :: table[j].name != name && table[j].alias != Some(name)
  {
    k := 0;
    while k < |table|
      invariant k <= |table| && FirstNamed(table, name, k) == FirstNamed(table, name, 0)
    {
      if table[k].name == name { return; }
      if table[k].alias.Some? && table[k].alias.value == name { return; }
      k := k + 1;
    }
  }

  // --------------------------------------------------------------------- arguments

  /** The arguments read from `i` on before the first one that is missing or wrong, and
      whether all were read and the line ended there. */
  function ArgsFrom(line: string, args: seq<Arg>, i: nat): (seq<Data>, bool)
    decreases |args|
  {
    if args == [] then ([], At(line, i) == NUL)
    else
      var start := SkipSpace(line, i);
      var p := args[0].parse(line, start);
      if At(line, start) == NUL || p.end == start || !EndsArg(At(line, p.end)) then ([], false)
      else
        var (rest, ok) := ArgsFrom(line, args[1..], p.end);
        ([p.data] + rest, ok)
  }

  /** The blocks `cmd_arg_free` releases: it takes a zero for the end of the list. */
  function Freed(argv: seq<Data>): seq<nat> {
    if argv == [] || argv[0] == Int(0) then []
    else (if argv[0].Block? then [argv[0].ticket] else []) + Freed(argv[1..])
  }

  function Blocks(argv: seq<Data>): seq<nat> {
    if argv == [] then []
    else (if argv[0].Block? then [argv[0].ticket] else []) + Blocks(argv[1..])
  }

  lemma {:induction false} NoBlocksIff(argv: seq<Data>)
    ensures Blocks(argv) == [] <==> forall j | 0 <= j < |argv| :: !argv[j].Block?
  {
    if argv != [] {
      NoBlocksIff(argv[1..]);
      assert forall j | 0 <= j < |argv[1..]| :: argv[1..][j] == argv[j + 1];
      if argv[0].Block? { assert !(Blocks(argv) == []); }
    }
  }

  predicate ZeroBeforeBlock(argv: seq<Data>) {
    exists i, j :: 0 <= i < j < |argv| && argv[i] == Int(0) && argv[j].Block?
  }

  lemma ZeroCons(argv: seq<Data>)
    requires argv != []
    ensures ZeroBeforeBlock(argv)
            <==> ZeroBeforeBlock(argv[1..]) || (argv[0] == Int(0) && Blocks(argv[1..]) != [])
  {
    NoBlocksIff(argv[1..]);
    if ZeroBeforeBlock(argv[1..]) {
      var i, j :| 0 <= i < j < |argv[1..]| && argv[1..][i] == Int(0) && argv[1..][j].Block?;
      assert argv[i + 1] == Int(0) && argv[j + 1].Block?;
    }
    if ZeroBeforeBlock(argv) {
      var i, j :| 0 <= i < j < |argv| && argv[i] == Int(0) && argv[j].Block?;
      assert argv[1..][j - 1].Block?;
      if i > 0 { assert argv[1..][i - 1] == Int(0); }
    }
  }

  /** Every argument is released if and only if no zero stands in front of a block. */
  lemma {:induction false} FreedAllIff(argv: seq<Data>)
    ensures |Freed(argv)| <= |Blocks(argv)|
    ensures Freed(argv) == Blocks(argv)
            <==> forall i, j | 0 <= i < j < |argv| :: argv[i] == Int(0) ==> !argv[j].Block?
  {
    if argv != [] {
      FreedAllIff(argv[1..]);
      var h := if argv[0].Block? then [argv[0].ticket] else [];
      assert Blocks(argv) == h + Blocks(argv[1..]);
      if argv[0] == Int(0) {
        NoBlocksIff(argv[1..]);
      } else {
        assert Freed(argv) == h + Freed(argv[1..]);
        assert Freed(argv)[|h|..] == Freed(argv[1..]) && Blocks(argv)[|h|..] == Blocks(argv[1..]);
      }
      ZeroCons(argv);
    }
  }

  function Behind(argv: seq<Data>, r: (seq<Data>, bool)): (seq<Data>, bool) { (argv + r.0, r.1) }

  lemma BehindNothing(r: (seq<Data>, bool))
    ensures Behind([], r) == r
  {
    assert [] + r.0 == r.0;
  }

  lemma BehindEnd(line: string, args: seq<Arg>, i: nat, argv: seq<Data>)
    ensures args == [] ==> Behind(argv, ArgsFrom(line, args, i)) == (argv, At(line, i) == NUL)
  {
    assert argv + [] == argv;
  }

  /** Reading the k-th argument from `i` on, when `argv` was read before. */
  lemma ArgsStep(line: string, args: seq<Arg>, k: nat, i: nat, argv: seq<Data>)
    requires k < |args|
    ensures var start := SkipSpace(line, i);
            var p := args[k].parse(line, start);
            Behind(argv, ArgsFrom(line, args[k..], i))
            == if At(line, start) == NUL || p.end == start || !EndsArg(At(line, p.end)) then (argv, false)
               else Behind(argv + [p.data], ArgsFrom(line, args[k + 1..], p.end))
  {
    assert args[k..][0] == args[k] && args[k..][1..] == args[k + 1..] && argv + [] == argv;
    var p := args[k].parse(line, SkipSpace(line, i));
    var rest := ArgsFrom(line, args[k + 1..], p.end).0;
    assert argv + ([p.data] + rest) == argv + [p.data] + rest;
  }

  lemma FreedStep(done: seq<nat>, argv: seq<Data>)
    requires argv != [] && argv[0] != Int(0)
    ensures done + Freed(argv)
            == done + (if argv[0].Block? then [argv[0].ticket] else []) + Freed(argv[1..])
  {
    var h := if argv[0].Block? then [argv[0].ticket] else [];
    assert Freed(argv) == h + Freed(argv[1..]);
    Assoc(done, h, Freed(argv[1..]));
  }

  /** The command a line names, and its arguments, if its handler is to run. */
  function Dispatch(table: seq<Command>, line: string): (d: Option<(nat, seq<Data>)>)
    ensures d.Some? ==> d.value.0 < |table|
  {
    var start := SkipSpace(line, 0);
    var end := AlphaEnd(line, start);
    if end == start then None
    else
      var k := FirstNamed(table, line[start..end], 0);
      if k == |table| then None
      else
        var (argv, ok) := ArgsFrom(line, table[k].args, end);
        if ok then Some((k, argv)) else None
  }

  /** What the shell did: the handlers it ran and the blocks it freed. */
  class Shell {
    ghost var ran: seq<(string, seq<Data>)>
    ghost var freed: seq<nat>

    constructor ()
      ensures ran == [] && freed == []
    {
      ran, freed := [], [];
    }

    method Run(cmd: Command, argv: seq<Data>)
      modifies this`ran
      ensures ran == old(ran) + [(cmd.name, argv)]
    {
      ran := ran + [(cmd.name, argv)];
    }

    /** `cmd_arg_free` */
    method FreeArgs(argv: seq<Data>)
      modifies this`freed
      ensures freed == old(freed) + Freed(argv)
    {
      var i := 0;
      assert argv[0..] == argv;
      while i < |argv| && argv[i] != Int(0)
        invariant i <= |argv| && freed + Freed(argv[i..]) == old(freed) + Freed(argv)
        decreases |argv| - i
      {
        FreedStep(freed, argv[i..]);
        assert argv[i..][1..] == argv[i + 1..];
        if argv[i].Block? { freed := freed + [argv[i].ticket]; }
        i := i + 1;
      }
      assert Freed(argv[i..]) == [];
    }

    /** `cmd_arg_parse`: reads the arguments and, if all is well, runs the handler. */
    method ParseArgs(cmd: Command, line: string, from: nat) returns (ok: bool)
      modifies this
      ensures var (argv, all) := ArgsFrom(line, cmd.args, from);
              && ok == all && freed == old(freed) + Freed(argv)
              && ran == old(ran) + if all then [(cmd.name, argv)] else []
    {
      var next, i, missing := from, 0, 0;
      var argv: seq<Data> := [];
      assert cmd.args[0..] == cmd.args;
      BehindNothing(ArgsFrom(line, cmd.args, from));
      while i < |cmd.args|
        invariant i <= |cmd.args| && ran == old(ran) && freed == old(freed)
        invariant missing == 0 ==> ArgsFrom(line, cmd.args, from)
                                   == Behind(argv, ArgsFrom(line, cmd.args[i..], next))
        invariant missing > 0 ==> At(line, next) == NUL && ArgsFrom(line, cmd.args, from) == (argv, false)
      {
        ArgsStep(line, cmd.args, i, next, argv);
        assert At(line, next) == NUL ==> SkipSpace(line, next) == next;
        next := SkipSpace(line, next);
        if At(line, next) == NUL {
          missing := missing + 1;
        } else {
          var p := cmd.args[i].parse(line, next);
          if p.end == next || !EndsArg(At(line, p.end)) {
            FreeArgs(argv);
            return false;
          }
          next := p.end;
          argv := argv + [p.data];
        }
        i := i + 1;
      }
      assert cmd.args[i..] == [];
      BehindEnd(line, cmd.args[i..], next, argv);
      ok := At(line, next) == NUL && missing == 0;
      if ok { Run(cmd, argv); }
      FreeArgs(argv);
    }

    /** `duc_cmd`: false if no handler was run. */
    method Cmd(table: seq<Command>, line: string) returns (ok: bool)
      modifies this
      ensures var d := Dispatch(table, line);
              ok == d.Some? && ran == old(ran) + if ok then [(table[d.value.0].name, d.value.1)] else []
      ensures var d := Dispatch(table, line);
              ok ==> freed == old(freed) + Freed(d.value.1)
    {
      var start := SkipSpace(line, 0);
      var end := AlphaEnd(line, start);
      if end == start { return false; }
      var k := Find(table, line[start..end]);
      if k == |table| { return false; }
      ok := ParseArgs(table[k], line, end);
    }
  }

  // ----------------------------------------------------------------- what lines mean

  /** Where the k-th argument starts: at `i`, or where the one before it ended. */
  function From(i: nat, ends: seq<nat>, k: nat): nat
    requires k <= |ends|
  {
    if k == 0 then i else ends[k - 1]
  }

  predicate ReadsOne(line: string, a: Arg, i: nat, d: Data, end: nat) {
    var start := SkipSpace(line, i);
    && At(line, start) != NUL && a.parse(line, start) == Parsed(d, end)
    && end != start && EndsArg(At(line, end))
  }

  /** The line from `i` on is, argument by argument, blanks and a text that the argument's
      converter reads completely, giving `argv`; and nothing else follows. */
  ghost predicate Reads(line: string, args: seq<Arg>, i: nat, argv: seq<Data>, ends: seq<nat>) {
    && |argv| == |ends| == |args|
    && (forall k | 0 <= k < |args| :: ReadsOne(line, args[k], From(i, ends, k), argv[k], ends[k]))
    && At(line, From(i, ends, |args|)) == NUL
  }

  lemma ReadsCons(line: string, args: seq<Arg>, i: nat, d: Data, e: nat, argv: seq<Data>, ends: seq<nat>)
    requires args != [] && |argv| == |ends| == |args| - 1
    ensures Reads(line, args, i, [d] + argv, [e] + ends)
            <==> ReadsOne(line, args[0], i, d, e) && Reads(line, args[1..], e, argv, ends)
  {
    hide ReadsOne;
    var d', e' := [d] + argv, [e] + ends;
    forall k | 0 <= k <= |ends| ensures From(e, ends, k) == From(i, e', k + 1) {}
    if Reads(line, args, i, d', e') {
      forall k | 0 <= k < |args[1..]|
        ensures ReadsOne(line, args[1..][k], From(e, ends, k), argv[k], ends[k])
      {
        assert ReadsOne(line, args[k + 1], From(i, e', k + 1), d'[k + 1], e'[k + 1]);
      }
      assert ReadsOne(line, args[0], From(i, e', 0), d'[0], e'[0]);
    }
    if ReadsOne(line, args[0], i, d, e) && Reads(line, args[1..], e, argv, ends) {
      forall k | 0 <= k < |args|
        ensures ReadsOne(line, args[k], From(i, e', k), d'[k], e'[k])
      {
        if k > 0 {
          assert ReadsOne(line, args[1..][k - 1], From(e, ends, k - 1), argv[k - 1], ends[k - 1]);
        }
      }
    }
  }

  lemma {:induction false} ArgsSound(line: string, args: seq<Arg>, i: nat) returns (ends: seq<nat>)
    ensures var (argv, ok) := ArgsFrom(line, args, i);
            ok ==> Reads(line, args, i, argv, ends)
    decreases |args|
  {
    ends := [];
    if args != [] && ArgsFrom(line, args, i).1 {
      var p := args[0].parse(line, SkipSpace(line, i));
      var more := ArgsSound(line, args[1..], p.end);
      ends := [p.end] + more;
      ReadsCons(line, args, i, p.data, p.end, ArgsFrom(line, args[1..], p.end).0, more);
    }
  }

  lemma ReadsLengths(line: string, args: seq<Arg>, i: nat, argv: seq<Data>, ends: seq<nat>)
    requires Reads(line, args, i, argv, ends)
    ensures |argv| == |ends| == |args| && (args == [] ==> At(line, i) == NUL)
  {
  }

  lemma OneRead(line: string, a: Arg, i: nat, d: Data, end: nat)
    requires ReadsOne(line, a, i, d, end)
    ensures var start := SkipSpace(line, i);
            var p := a.parse(line, start);
            p == Parsed(d, end) && !(At(line, start) == NUL || p.end == start || !EndsArg(At(line, p.end)))
  {
  }

  lemma {:induction false} ArgsComplete(line: string, args: seq<Arg>, i: nat, argv: seq<Data>, ends: seq<nat>)
    requires Reads(line, args, i, argv, ends)
    ensures ArgsFrom(line, args, i) == (argv, true)
    decreases |args|
  {
    hide Reads, ReadsOne;
    ReadsLengths(line, args, i, argv, ends);
    if args != [] {
      assert argv == [argv[0]] + argv[1..] && ends == [ends[0]] + ends[1..];
      ReadsCons(line, args, i, argv[0], ends[0], argv[1..], ends[1..]);
      ArgsComplete(line, args[1..], ends[0], argv[1..], ends[1..]);
      OneRead(line, args[0], i, argv[0], ends[0]);
    }
  }

  /** A handler runs if and only if the line names its command first in the table, each
      declared argument is read in order, and the whole line is used up. */
  lemma RunsIff(table: seq<Command>, line: string, k: nat, argv: seq<Data>)
    ensures var start := SkipSpace(line, 0);
            var end := AlphaEnd(line, start);
            Dispatch(table, line) == Some((k, argv))
            <==> && start < end && k < |table|
                 && (var word := line[start..end];
                     && (table[k].name == word || table[k].alias == Some(word))
                     && forall j | 0 <= j < k :: table[j].name != word && table[j].alias != Some(word))
                 && exists ends :: Reads(line, table[k].args, end, argv, ends)
  {
    hide Reads, ArgsFrom;
    var start := SkipSpace(line, 0);
    var end := AlphaEnd(line, start);
    if start < end {
      var name := line[start..end];
      if k < |table| && Named(table[k], name) && forall j | 0 <= j < k :: !Named(table[j], name) {
        assert FirstNamed(table, name, 0) == k;
        var ends := ArgsSound(line, table[k].args, end);
        if ends' :| Reads(line, table[k].args, end, argv, ends') {
          ArgsComplete(line, table[k].args, end, argv, ends');
        }
      }
    }
  }

  // ------------------------------------------------- a zero in front of an allocated block

  /** The arguments of a command that renames something: its number, and a name. */
  function RenameArgs(): seq<Arg> {
    [Arg("num", (mem: string, i: nat) => Parsed(Int(Strtoul(mem, i).value), Strtoul(mem, i).end)),
     Arg("name", (mem: string, i: nat) =>
           Parsed(Block(i, if i <= |mem| then mem[i..AlphaEnd(mem, i)] else ""), AlphaEnd(mem, i)))]
  }

  lemma ZeroScanned(line: string)
    requires line == " 0 x"
    ensures Strtoul(line, 1) == Number(0, 2)
  {
    assert PrintNat(0) == "0";
    assert line[1..2] == "0";
    ScanPrinted(line, 1, 0);
  }

  /** Given the number 0 and a name, the handler runs, and the name stays allocated. */
  lemma ZeroKeepsName()
    ensures ArgsFrom(" 0 x", RenameArgs(), 0) == ([Int(0), Block(3, "x")], true)
    ensures var argv := ArgsFrom(" 0 x", RenameArgs(), 0).0;
            Freed(argv) == [] && Blocks(argv) == [3]
  {
    var line, args := " 0 x", RenameArgs();
    assert SkipSpace(line, 0) == 1 && SkipSpace(line, 2) == 3;
    ZeroScanned(line);
    assert AlphaEnd(line, 3) == 4 && line[3..4] == "x";
    hide Strtoul, AlphaEnd;
    assert args[1..] == [args[1]] && args[1..][1..] == [];
    assert ArgsFrom(line, args[1..][1..], 4) == ([], true);
    assert [Block(3, "x")] + [] == [Block(3, "x")];
    assert ArgsFrom(line, args[1..], 2) == ([Block(3, "x")], true);
    assert args[0].parse(line, 1) == Parsed(Int(0), 2) && At(line, 1) != NUL && At(line, 2) == ' ';
    assert EndsArg(' ') && args != [];
    assert ArgsFrom(line, args, 0) == ([Int(0)] + [Block(3, "x")], true);
    var argv := [Int(0)] + [Block(3, "x")];
    assert argv == [Int(0), Block(3, "x")];
    assert argv[1..] == [Block(3, "x")] && argv[1..][1..] == [];
    assert Blocks(argv) == [] + ([3] + []);
  }

  // -------------------------------------------------------------------- completion

  predicate Offers(name: string, text: string) { |text| <= |name| && SameCase(name, text, |text|) }

  function IfOffered(name: string, text: string): seq<string> {
    if Offers(name, text) then [name] else []
  }

  function AliasOf(table: seq<Command>, i: nat, text: string): seq<string> {
    if i < |table| && table[i].alias.Some? then IfOffered(table[i].alias.value, text) else []
  }

  /** What is still to be offered: from entry `i` on, its name first if `name` is set. */
  function Offered(table: seq<Command>, text: string, i: nat, name: bool): seq<string>
    decreases |table| - i, name
  {
    if i >= |table| then []
    else if name then IfOffered(table[i].name, text) + Offered(table, text, i, false)
    else AliasOf(table, i + 1, text) + Offered(table, text, i + 1, true)
  }

  lemma OfferedStep(table: seq<Command>, text: string, i: nat)
    ensures i < |table| ==>
              var rest := Offered(table, text, i, false);
              Offered(table, text, i, true) == if Offers(table[i].name, text) then [table[i].name] + rest else rest
    ensures i < |table| ==>
              var rest := Offered(table, text, i + 1, true);
              Offered(table, text, i, false)
              == if i + 1 < |table| && table[i + 1].alias.Some? && Offers(table[i + 1].alias.value, text)
                 then [table[i + 1].alias.value] + rest else rest
    ensures i >= |table| ==> Offered(table, text, i, true) == Offered(table, text, i, false) == []
  {
    hide Offers;
  }

  function Listed(w: Option<string>): seq<string> { if w.None? then [] else [w.value] }

  /** The static variables of `lst_cmd`. */
  class Generator {
    var next: Option<nat>
    var len: nat
    var nname: nat

    ghost function Left(table: seq<Command>, text: string): seq<string>
      reads this
    {
      if next.None? then [] else Offered(table, text, next.value, nname != 0)
    }

    constructor ()
      ensures next == None
    {
      next, len, nname := None, 0, 0;
    }

    /** One turn of the loop: looks at the name of the entry, or goes on to the next entry and
        looks at its alias. */
    method Turn(table: seq<Command>, text: string) returns (r: Option<string>)
      requires next.Some? && next.value < |table| && len == |text|
      modifies this
      ensures next.Some? && len == |text| && Listed(r) + Left(table, text) == old(Left(table, text))
      ensures if next.value == old(next.value) then nname < old(nname) else next.value == old(next.value) + 1
    {
      hide Offered, SameCase;
      OfferedStep(table, text, next.value);
      if nname != 0 {
        nname := 0;
        var name := table[next.value].name;
        if len <= |name| && SameCase(name, text, len) { return Some(name); }
      } else {
        nname := nname + 1;
        next := Some(next.value + 1);
        if next.value < |table| && table[next.value].alias.Some? {
          var alias := table[next.value].alias.value;
          if len <= |alias| && SameCase(alias, text, len) { return Some(alias); }
        }
      }
      return None;
    }

    /** `lst_cmd`: called with state 0 first and then with others until it returns NULL. */
    method Complete(table: seq<Command>, text: string, state: nat) returns (r: Option<string>)
      requires state != 0 ==> next.None? || len == |text|
      modifies this
      ensures next.None? || len == |text|
      ensures var all := if state == 0 then Offered(table, text, 0, true) else old(Left(table, text));
              && all == Listed(r) + Left(table, text) && (r.None? ==> all == [])
    {
      if state == 0 { next, len, nname := Some(0), |text|, 1; }
      hide Offered;
      ghost var all := Left(table, text);
      r := None;
      while r.None? && next.Some? && next.value < |table|
        invariant next.None? || len == |text|
        invariant Listed(r) + Left(table, text) == all
        decreases r.None?, if next.None? then 0 else |table| - next.value, nname
      {
        r := Turn(table, text);
      }
      if r.None? && next.Some? { OfferedStep(table, text, next.value); }
    }
  }

  /** Every name and alias that begins with the text, entry by entry, alias before name. */
  function AllOffers(table: seq<Command>, text: string, i: nat): seq<string>
    decreases |table| - i
  {
    if i >= |table| then []
    else AliasOf(table, i, text) + IfOffered(table[i].name, text) + AllOffers(table, text, i + 1)
  }

  lemma OfferedWord(name: string, text: string, w: string)
    ensures w in IfOffered(name, text)
            <==> w == name && |text| <= |w| && forall i | 0 <= i < |text| :: SameLetter(w[i], text[i])
  {
    if |text| <= |name| { SameCaseIff(name, text, |text|); }
  }

  /** The offers are the names and aliases that begin with the text, whatever its case. */
  lemma {:induction false} OffersIff(table: seq<Command>, text: string, i: nat, w: string)
    ensures w in AllOffers(table, text, i)
            <==> && (exists k :: i <= k < |table| && (table[k].name == w || table[k].alias == Some(w)))
                 && |text| <= |w| && forall j | 0 <= j < |text| :: SameLetter(w[j], text[j])
    decreases |table| - i
  {
    hide IfOffered, SameLetter;
    if i < |table| {
      OfferedWord(table[i].name, text, w);
      if table[i].alias.Some? { OfferedWord(table[i].alias.value, text, w); }
      OffersIff(table, text, i + 1, w);
    }
  }

  lemma NoAlias(table: seq<Command>, i: nat, text: string)
    requires i >= |table|
    ensures AliasOf(table, i, text) == []
  {
  }

  lemma {:induction false} OfferedIs(table: seq<Command>, text: string, i: nat)
    ensures AliasOf(table, i, text) + Offered(table, text, i, true) == AllOffers(table, text, i)
    decreases |table| - i
  {
    hide AliasOf, IfOffered;
    if i < |table| {
      OfferedIs(table, text, i + 1);
      var a, n := AliasOf(table, i, text), IfOffered(table[i].name, text);
      var rest := AliasOf(table, i + 1, text) + Offered(table, text, i + 1, true);
      assert Offered(table, text, i, true) == n + rest;
      assert a + (n + rest) == a + n + rest;
    } else {
      NoAlias(table, i, text);
    }
  }

  /** Completion offers every matching name and alias once, but for the alias of the first
      entry: so it is complete if and only if that alias is missing or does not match. */
  lemma CompleteIff(table: seq<Command>, text: string)
    ensures Offered(table, text, 0, true) == AllOffers(table, text, 0) <==> AliasOf(table, 0, text) == []
    ensures AllOffers(table, text, 0) == AliasOf(table, 0, text) + Offered(table, text, 0, true)
  {
    OfferedIs(table, text, 0);
    var a, o := AliasOf(table, 0, text), Offered(table, text, 0, true);
    assert |a + o| == |a| + |o|;
    assert a == [] ==> a + o == o;
  }

  lemma ListedStep(words: seq<string>, w: string, next: Option<string>, left: seq<string>)
    ensures words + [w] + (Listed(next) + left) == words + [w] + Listed(next) + left
    ensures words + Listed(Some(w)) == words + [w]
  {
  }

  /** A table whose first command has no alias, as that of the client, is offered completely:
      every matching name and alias, whatever the text. */
  lemma NoAliasComplete(table: seq<Command>, text: string)
    requires table != [] ==> table[0].alias.None?
    ensures Offered(table, text, 0, true) == AllOffers(table, text, 0)
  {
    CompleteIff(table, text);
  }

  /** Asks for completions as the line editor does. */
  method AllCompletions(g: Generator, table: seq<Command>, text: string) returns (words: seq<string>)
    modifies g
    ensures words == Offered(table, text, 0, true)
  {
    hide Offered, Generator.Left;
    words := [];
    ghost var all := Offered(table, text, 0, true);
    var state := 0;
    var w := g.Complete(table, text, 0);
    assert [] + Listed(w) + g.Left(table, text) == all;
    while w.Some?
      invariant g.next.None? || g.len == |text|
      invariant words + Listed(w) + g.Left(table, text) == all
      invariant w.None? ==> g.Left(table, text) == []
      decreases |g.Left(table, text)| + if w.Some? then 1 else 0
    {
      ghost var last := w.value;
      ghost var before := words;
      words := words + [w.value];
      state := state + 1;
      w := g.Complete(table, text, state);
      ListedStep(before, last, w, g.Left(table, text));
    }
  }
}
