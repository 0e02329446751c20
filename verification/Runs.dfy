/** Whole runs of a client and a server: commands, list queries, polls whose handlers issue
    commands, and announcements of the server, in any order. */
module Runs {
  import opened CText
  import opened Wire
  import opened Protocol
  import opened Replies
  import opened Handlers
  import opened Pairing
  import opened PollPairing

  /** What the client and the server do, one after the other. */
  datatype Action =
    | Succ(cmd: string)
    | Int(cmd: string)
    | Text(cmd: string)
    | Get(cmd: string)
    | List(cmd: string)
    | Look               // duc_poll, when select() reported input
    | Announce(b: string)

  datatype Outcome<T> =
    | Flag(ok: bool)
    | Value(i: int)
    | String(t: Option<string>)
    | Record(r: Option<T>)
    | Records(rs: Option<seq<Option<T>>>)
    | Heard(told: seq<Told>)
    | Silent

  predicate IsCommand(a: Action) { a.Succ? || a.Int? || a.Text? || a.Get? || a.List? }

  function Act<T>(s: State, a: Action, conv: string -> Conv<T>, on: Reactions): (State, Outcome<T>)
    requires Sound(s.net)
  {
    match a
    case Succ(cmd) =>
      var (s1, ok) := Ask(s, cmd);
      (s1, Flag(ok && SuccResult(s1)))
    case Int(cmd) =>
      var (s1, ok) := Ask(s, cmd);
      (s1, Value(if ok then IntResult(s1) else -1))
    case Text(cmd) =>
      var (s1, ok) := Ask(s, cmd);
      (s1, String(if ok then StringResult(s1) else None))
    case Get(cmd) =>
      var (s1, ok) := Ask(s, cmd);
      (s1, Record(if ok then ConvResult(s1, conv) else None))
    case List(cmd) =>
      var (s1, rs) := Query(s, cmd, conv);
      (s1, Records(rs))
    case Look =>
      var (s1, told) := PollWith(s, on);
      (s1, Heard(told))
    case Announce(b) => (Announced(s, b), Silent)
  }

  /** The record that a reply with the given code and final text means. */
  ghost predicate GetRight<T(!new)>(conv: string -> Conv<T>, code: string, t: string, r: Option<T>) {
    && |code| == 3 && (code[0] != '2' ==> r == None)
    && forall d :: code[0] == '2' && Accepts(conv, t, d) ==> r == d
  }

  /** The outcome that the server's reaction `e` means for the command `a`. */
  ghost predicate Answers<T(!new)>(a: Action, conv: string -> Conv<T>, e: Exchange, o: Outcome<T>) {
    && |e.code| == 3 && e.ts != []
    && var t := e.ts[|e.ts| - 1];
       match a
       case Succ(_) => o == Flag(e.code[0] == '2' || e.code[0] == '3')
       case Int(_) => o == Value(if e.code[0] == '2' then Strtol(t, 0).value else -1)
       case Text(_) => o == String(if e.code[0] == '2' then Some(t) else None)
       case Get(_) => o.Record? && GetRight(conv, e.code, t, o.r)
       case List(_) => o.Records? && ListResult(conv, e, o.rs)
       case _ => true
  }

  /** How many reactions of the server an action has used up. */
  function Used<T>(a: Action, o: Outcome<T>): nat {
    if IsCommand(a) then 1 else if o.Heard? then |o.told| else 0
  }

  /** The outcome is what the server's reactions mean: that of a command its reaction, those
      of the commands that handlers issued during a poll the reactions to them. */
  ghost predicate Right<T(!new)>(a: Action, conv: string -> Conv<T>, o: Outcome<T>, es: seq<Exchange>) {
    && Used(a, o) <= |es|
    && (IsCommand(a) ==> Answers(a, conv, es[0], o))
    && (a.Look? ==> o.Heard? && ToldRight(o.told, es[..|o.told|]))
  }

  /** The broadcasts the server writes during an action that uses up `es`. */
  function During(a: Action, es: seq<Exchange>): seq<string> {
    (if a.Announce? then [a.b] else []) + Flood(es)
  }

  /** The action can happen: commands fit and the server will react, polls have input and
      room, announcements are broadcast lines. */
  ghost predicate Possible(s: State, a: Action, on: Reactions, es: seq<Exchange>) {
    match a
    case Look =>
      && s.net.Ok() && Receives(s.net) && Sound(Recv(s.net).0)
      && PollFits(s.(net := Recv(s.net).0), on, es)
    case Announce(b) => IsBcast(b) && Unbroken(b) && |b| < BUFLENRCV - 1
    case _ => |a.cmd| < BUFLENLINE - 1 && es != []
  }

  /** One action: the session is idle again; every command got its own answer; no broadcast is
      lost, duplicated or reordered; and nothing but replies and broadcasts was seen. */
  ghost predicate StepOk<T(!new)>(s: State, a: Action, conv: string -> Conv<T>, bs: seq<string>,
                                  es: seq<Exchange>, s': State, o: Outcome<T>, bs': seq<string>) {
    && Right(a, conv, o, es) && Idle(s', bs', es[Used(a, o)..])
    && DispatchedIn(s'.trace) + bs' == DispatchedIn(s.trace) + bs + During(a, es[..Used(a, o)])
    && Quiet(s.trace, s'.trace)
  }

  lemma AdvancedStep<T(!new)>(s: State, a: Action, conv: string -> Conv<T>, bs: seq<string>,
                              es: seq<Exchange>, s': State, o: Outcome<T>, bs': seq<string>)
    requires !a.Announce? && Right(a, conv, o, es) && Advanced(s, bs, es, Used(a, o), s', bs')
    ensures StepOk(s, a, conv, bs, es, s', o, bs')
  {
    hide Idle, DispatchedIn, Flood, Right;
    assert [] + Flood(es[..Used(a, o)]) == Flood(es[..Used(a, o)]);
  }

  lemma CommandText(s: State, a: Action, on: Reactions, es: seq<Exchange>)
    requires IsCommand(a) && Possible(s, a, on, es)
    ensures !a.Look? && !a.Announce? && |a.cmd| < BUFLENLINE - 1 && es != []
  {
  }

  lemma ListRight<T(!new)>(s: State, a: Action, conv: string -> Conv<T>, on: Reactions, es: seq<Exchange>)
    requires Sound(s.net) && a.List? && es != [] && |es[0].code| == 3 && es[0].ts != []
    requires ListResult(conv, es[0], Query(s, a.cmd, conv).1)
    ensures Act(s, a, conv, on).0 == Query(s, a.cmd, conv).0
    ensures Right(a, conv, Act(s, a, conv, on).1, es) && Used(a, Act(s, a, conv, on).1) == 1
  {
    hide Query, ListResult;
  }

  lemma NoConvResult<T>(s: State, conv: string -> Conv<T>)
    requires |s.code| == 3 && s.code[0] != '2'
    ensures ConvResult(s, conv) == None
  {
  }

  lemma GetResult<T(!new)>(s: State, conv: string -> Conv<T>, code: string, t: string)
    requires AtLine(s, code, t)
    ensures GetRight(conv, code, t, ConvResult(s, conv))
  {
    hide ConvResult, Sound, Accepts;
    if code[0] != '2' { NoConvResult(s, conv); }
    forall d | Accepts(conv, t, d) ensures code[0] == '2' ==> ConvResult(s, conv) == d {
      ConvResultIs(s, code, t, conv, d);
    }
  }

  lemma AskRight<T(!new)>(s: State, a: Action, conv: string -> Conv<T>, on: Reactions, es: seq<Exchange>)
    requires Sound(s.net) && IsCommand(a) && !a.List? && es != []
    requires |es[0].code| == 3 && es[0].ts != [] && Ask(s, a.cmd).1
    requires var s1, c, t := Ask(s, a.cmd).0, es[0].code, es[0].ts[|es[0].ts| - 1];
             && (SuccResult(s1) <==> c[0] == '2' || c[0] == '3')
             && StringResult(s1) == (if c[0] == '2' then Some(t) else None)
             && IntResult(s1) == (if c[0] == '2' then Strtol(t, 0).value else -1)
             && GetRight(conv, c, t, ConvResult(s1, conv))
    ensures Act(s, a, conv, on).0 == Ask(s, a.cmd).0
    ensures Right(a, conv, Act(s, a, conv, on).1, es) && Used(a, Act(s, a, conv, on).1) == 1
  {
    hide Ask, SuccResult, StringResult, IntResult, ConvResult, Strtol;
  }

  lemma CommandStep<T(!new)>(s: State, a: Action, conv: string -> Conv<T>, on: Reactions,
                             bs: seq<string>, es: seq<Exchange>)
    requires Idle(s, bs, es) && IsCommand(a) && Possible(s, a, on, es)
    ensures Sound(s.net) && es != []
    ensures StepOk(s, a, conv, bs, es, Act(s, a, conv, on).0, Act(s, a, conv, on).1, es[0].after)
  {
    CommandText(s, a, on, es);
    IdleText(s, bs, es);
    hide *;
    if a.List? {
      QueryAdvances(s, a.cmd, conv, bs, es);
      ListRight(s, a, conv, on, es);
    } else {
      AskAdvances(s, a.cmd, bs, es);
      var n1 := AskIdle(s, a.cmd, bs, es);
      WrapperResults(Ask(s, a.cmd).0, es[0].code, es[0].ts[|es[0].ts| - 1]);
      GetResult(Ask(s, a.cmd).0, conv, es[0].code, es[0].ts[|es[0].ts| - 1]);
      AskRight(s, a, conv, on, es);
    }
    AdvancedStep(s, a, conv, bs, es, Act(s, a, conv, on).0, Act(s, a, conv, on).1, es[0].after);
  }

  lemma {:induction false} LookStep<T(!new)>(s: State, conv: string -> Conv<T>, on: Reactions,
      bs: seq<string>, es: seq<Exchange>) returns (bs': seq<string>)
    requires Idle(s, bs, es) && Possible(s, Look, on, es)
    ensures Sound(s.net)
    ensures StepOk(s, Look, conv, bs, es, Act(s, Look, conv, on).0, Act(s, Look, conv, on).1, bs')
  {
    hide Idle, PollWith, PollFits, Advanced, StepOk, ToldRight;
    IdleParts(s, bs, es);
    var told;
    bs', told := PollWithIdle(s, on, bs, es);
    AdvancedStep(s, Look, conv, bs, es, Act(s, Look, conv, on).0, Heard(told), bs');
  }

  lemma AnnounceStep<T(!new)>(s: State, b: string, conv: string -> Conv<T>, on: Reactions,
                              bs: seq<string>, es: seq<Exchange>)
    requires Idle(s, bs, es) && Possible(s, Announce(b), on, es)
    ensures Sound(s.net)
    ensures StepOk(s, Announce(b), conv, bs, es, Act(s, Announce(b), conv, on).0,
                   Act(s, Announce(b), conv, on).1, bs + [b])
  {
    IdleParts(s, bs, es);
    IdleAnnounced(s, b, bs, es);
    hide Idle, DispatchedIn, BcastsOf;
    assert es[0..] == es && es[..0] == [] && [b] + [] == [b];
    Assoc(DispatchedIn(s.trace), bs, [b]);
  }

  lemma {:induction false} OneStep<T(!new)>(s: State, a: Action, conv: string -> Conv<T>, on: Reactions,
      bs: seq<string>, es: seq<Exchange>) returns (bs': seq<string>)
    requires Idle(s, bs, es) && Possible(s, a, on, es)
    ensures Sound(s.net)
    ensures StepOk(s, a, conv, bs, es, Act(s, a, conv, on).0, Act(s, a, conv, on).1, bs')
  {
    hide Idle, StepOk, Act, PollFits;
    IdleParts(s, bs, es);
    match a
    case Look => bs' := LookStep(s, conv, on, bs, es);
    case Announce(b) =>
      AnnounceStep(s, b, conv, on, bs, es);
      bs' := bs + [b];
    case _ =>
      CommandStep(s, a, conv, on, bs, es);
      bs' := es[0].after;
  }

  // ------------------------------------------------------------------------- runs

  function Rest(es: seq<Exchange>, k: nat): seq<Exchange> { if k <= |es| then es[k..] else [] }

  /** Every action is possible when its turn comes. */
  ghost predicate Feasible<T>(s: State, acts: seq<Action>, es: seq<Exchange>, conv: string -> Conv<T>,
                              on: Reactions)
    decreases |acts|
  {
    acts != [] ==>
      && Sound(s.net) && Possible(s, acts[0], on, es)
      && var (s1, o) := Act(s, acts[0], conv, on);
         Feasible(s1, acts[1..], Rest(es, Used(acts[0], o)), conv, on)
  }

  /** The state and the outcomes after a run. */
  ghost function Exec<T>(s: State, acts: seq<Action>, es: seq<Exchange>, conv: string -> Conv<T>,
                         on: Reactions): (r: (State, seq<Outcome<T>>))
    requires Feasible(s, acts, es, conv, on)
    ensures |r.1| == |acts|
    decreases |acts|
  {
    if acts == [] then (s, [])
    else
      var (s1, o) := Act(s, acts[0], conv, on);
      var (s2, os) := Exec(s1, acts[1..], Rest(es, Used(acts[0], o)), conv, on);
      (s2, [o] + os)
  }

  /** All outcomes are what the server's reactions mean, one reaction after the other. */
  ghost predicate Paired<T(!new)>(acts: seq<Action>, os: seq<Outcome<T>>, es: seq<Exchange>,
                                  conv: string -> Conv<T>)
    decreases |acts|
  {
    && |os| == |acts|
    && (acts != [] ==>
          && Right(acts[0], conv, os[0], es)
          && Paired(acts[1..], os[1..], Rest(es, Used(acts[0], os[0])), conv))
  }

  /** All broadcasts the server writes during a run. */
  function BcastsWritten<T>(acts: seq<Action>, os: seq<Outcome<T>>, es: seq<Exchange>): seq<string>
    requires |os| == |acts|
    decreases |acts|
  {
    if acts == [] then []
    else
      var k := Used(acts[0], os[0]);
      During(acts[0], if k <= |es| then es[..k] else es) + BcastsWritten(acts[1..], os[1..], Rest(es, k))
  }

  lemma NothingDone<T(!new)>(s: State, conv: string -> Conv<T>, on: Reactions, es: seq<Exchange>)
    ensures Feasible(s, [], es, conv, on) && Exec(s, [], es, conv, on) == (s, [])
    ensures Paired([], [], es, conv) && BcastsWritten<T>([], [], es) == [] && Quiet(s.trace, s.trace)
  {
  }

  lemma ExecFirst<T>(s: State, acts: seq<Action>, conv: string -> Conv<T>, on: Reactions, es: seq<Exchange>)
    requires acts != [] && Feasible(s, acts, es, conv, on)
    ensures Sound(s.net) && Possible(s, acts[0], on, es)
    ensures var (s1, o) := Act(s, acts[0], conv, on);
            var rest := Rest(es, Used(acts[0], o));
            && Feasible(s1, acts[1..], rest, conv, on)
            && Exec(s, acts, es, conv, on)
               == (Exec(s1, acts[1..], rest, conv, on).0, [o] + Exec(s1, acts[1..], rest, conv, on).1)
  {
    hide Act, Possible;
  }

  lemma StepParts<T(!new)>(s: State, a: Action, conv: string -> Conv<T>, bs: seq<string>,
                           es: seq<Exchange>, s': State, o: Outcome<T>, bs': seq<string>)
    requires StepOk(s, a, conv, bs, es, s', o, bs')
    ensures Used(a, o) <= |es| && Right(a, conv, o, es) && Idle(s', bs', es[Used(a, o)..])
    ensures DispatchedIn(s'.trace) + bs' == DispatchedIn(s.trace) + bs + During(a, es[..Used(a, o)])
    ensures Quiet(s.trace, s'.trace)
  {
  }

  lemma RestIs(es: seq<Exchange>, k: nat)
    requires k <= |es|
    ensures Rest(es, k) == es[k..]
  {
  }

  lemma PairedFirst<T(!new)>(acts: seq<Action>, os: seq<Outcome<T>>, es: seq<Exchange>,
                             conv: string -> Conv<T>)
    requires acts != [] && |os| == |acts| && Right(acts[0], conv, os[0], es)
    requires Paired(acts[1..], os[1..], Rest(es, Used(acts[0], os[0])), conv)
    ensures Paired(acts, os, es, conv)
  {
  }

  lemma WrittenFirst<T>(acts: seq<Action>, os: seq<Outcome<T>>, es: seq<Exchange>)
    requires acts != [] && |os| == |acts| && Used(acts[0], os[0]) <= |es|
    ensures var k := Used(acts[0], os[0]);
            BcastsWritten(acts, os, es)
            == During(acts[0], es[..k]) + BcastsWritten(acts[1..], os[1..], Rest(es, k))
  {
  }

  lemma QuietTwice(a: seq<Event>, b: seq<Event>, c: seq<Event>)
    requires Quiet(a, b) && Quiet(b, c)
    ensures Quiet(a, c)
  {
  }

  lemma Chain(a: seq<string>, x: seq<string>, b: seq<string>, y: seq<string>)
    requires b == a + x
    ensures b + y == a + (x + y)
  {
  }

  /** In every run each command, also one that a handler issued during a poll, returns what the
      server answered to this very command, also after lists that failed to parse; the
      broadcasts are dispatched exactly once and in order, but for those (`bs'`) still under
      way; and no input is ever met that is neither a broadcast nor part of the reply being
      read. */
  lemma {:induction false} RunPaired<T(!new)>(s: State, acts: seq<Action>, conv: string -> Conv<T>,
      on: Reactions, bs: seq<string>, es: seq<Exchange>) returns (bs': seq<string>)
    requires Idle(s, bs, es) && Feasible(s, acts, es, conv, on)
    ensures var (s', os) := Exec(s, acts, es, conv, on);
            && Paired(acts, os, es, conv)
            && DispatchedIn(s'.trace) + bs' == DispatchedIn(s.trace) + bs + BcastsWritten(acts, os, es)
            && Quiet(s.trace, s'.trace)
            && s'.net.up && !s'.inreply
    decreases |acts|
  {
    hide *;
    if acts == [] {
      bs' := bs;
      IdleParts(s, bs, es);
      NothingDone(s, conv, on, es);
      assert DispatchedIn(s.trace) + bs + [] == DispatchedIn(s.trace) + bs;
    } else {
      var a := acts[0];
      ExecFirst(s, acts, conv, on, es);
      var bs1 := OneStep(s, a, conv, on, bs, es);
      var (s1, o) := Act(s, a, conv, on);
      StepParts(s, a, conv, bs, es, s1, o, bs1);
      var rest := es[Used(a, o)..];
      RestIs(es, Used(a, o));
      bs' := RunPaired(s1, acts[1..], conv, on, bs1, rest);
      var (s', os) := Exec(s1, acts[1..], rest, conv, on);
      assert ([o] + os)[1..] == os && ([o] + os)[0] == o;
      PairedFirst(acts, [o] + os, es, conv);
      WrittenFirst(acts, [o] + os, es);
      Chain(DispatchedIn(s.trace) + bs, During(a, es[..Used(a, o)]), DispatchedIn(s1.trace) + bs1,
            BcastsWritten(acts[1..], os, rest));
      QuietTwice(s.trace, s1.trace, s'.trace);
    }
  }
}
