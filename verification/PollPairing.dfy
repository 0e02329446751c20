/** Commands that the handlers of broadcasts issue during a poll get their own replies. */
module PollPairing {
  import opened CText
  import opened Wire
  import opened Protocol
  import opened Replies
  import opened Handlers
  import opened Pairing

  /** There is a reaction of the server for every command, and the commands fit. */
  predicate CommandsFit(cmds: seq<string>, es: seq<Exchange>) {
    |cmds| <= |es| && forall i | 0 <= i < |cmds| :: |cmds[i]| < BUFLENLINE - 1
  }

  /** The handlers never issue more commands than the server will react to. */
  ghost predicate PollFits(s: State, on: Reactions, es: seq<Exchange>)
    requires Sound(s.net)
    decreases |s.net.env.peers|, |s.net.env.answers|, Measure(s.net)
  {
    PollTurnWith(s, on, []);
    var (n, l) := GetLine(s.net);
    l.Some? && |l.value| >= 4 && l.value[0] == '6' ==>
      var cmds := on(l.value);
      && CommandsFit(cmds, es)
      && PollFits(Reacted(s.(net := n), on, l.value, []).0, on, es[|cmds|..])
  }

  /** The commands were answered one by one by the given reactions. */
  predicate ToldRight(told: seq<Told>, es: seq<Exchange>) {
    && |told| == |es|
    && forall i | 0 <= i < |told| ::
         && told[i].ok && told[i].code == es[i].code
         && es[i].ts != [] && told[i].text == es[i].ts[|es[i].ts| - 1]
  }

  /** The broadcasts that the server writes with its reactions. */
  function Flood(es: seq<Exchange>): seq<string> {
    if es == [] then [] else BcastsOf(es[0].ls) + es[0].after + Flood(es[1..])
  }

  lemma {:induction false} FloodConcat(a: seq<Exchange>, b: seq<Exchange>)
    ensures Flood(a + b) == Flood(a) + Flood(b)
  {
    hide BcastsOf;
    if a == [] {
      assert a + b == b;
    } else {
      assert (a + b)[0] == a[0] && (a + b)[1..] == a[1..] + b;
      FloodConcat(a[1..], b);
      Assoc(BcastsOf(a[0].ls) + a[0].after, Flood(a[1..]), Flood(b));
    }
  }

  /** From one idle state to another: `used` reactions were used up, and of the broadcasts
      that were under way and that came with them, all but `bs'` were dispatched, in order. */
  ghost predicate Advanced(s: State, bs: seq<string>, es: seq<Exchange>, used: nat,
                           s': State, bs': seq<string>) {
    && used <= |es| && Idle(s', bs', es[used..])
    && DispatchedIn(s'.trace) + bs' == DispatchedIn(s.trace) + bs + Flood(es[..used])
    && Quiet(s.trace, s'.trace)
  }

  lemma AdvancedParts(s: State, bs: seq<string>, es: seq<Exchange>, used: nat, s': State,
                      bs': seq<string>)
    requires Advanced(s, bs, es, used, s', bs')
    ensures used <= |es| && Idle(s', bs', es[used..])
  {
  }

  lemma NotAdvanced(s: State, bs: seq<string>, es: seq<Exchange>)
    requires Idle(s, bs, es)
    ensures Advanced(s, bs, es, 0, s, bs)
  {
    assert es[0..] == es && es[..0] == [];
    assert DispatchedIn(s.trace) + bs + [] == DispatchedIn(s.trace) + bs;
  }

  lemma AdvancedTwice(s: State, bs: seq<string>, es: seq<Exchange>, m: nat, s1: State,
                      bs1: seq<string>, n: nat, s2: State, bs2: seq<string>)
    requires Advanced(s, bs, es, m, s1, bs1) && Advanced(s1, bs1, es[m..], n, s2, bs2)
    ensures Advanced(s, bs, es, m + n, s2, bs2)
  {
    hide Idle, DispatchedIn, Flood;
    assert es[m..][n..] == es[m + n..];
    assert es[..m] + es[m..][..n] == es[..m + n];
    FloodConcat(es[..m], es[m..][..n]);
    Assoc(DispatchedIn(s.trace) + bs, Flood(es[..m]), Flood(es[m..][..n]));
  }

  // ---------------------------------------------------------------------- one command

  lemma FloodOne(es: seq<Exchange>)
    requires es != []
    ensures es[..1] == [es[0]] && Flood(es[..1]) == BcastsOf(es[0].ls) + es[0].after
  {
    assert es[..1][1..] == [];
    assert BcastsOf(es[0].ls) + es[0].after + [] == BcastsOf(es[0].ls) + es[0].after;
  }

  lemma OneAdvance(s: State, bs: seq<string>, es: seq<Exchange>, s': State)
    requires es != [] && Idle(s', es[0].after, es[1..]) && Quiet(s.trace, s'.trace)
    requires DispatchedIn(s'.trace) + es[0].after == DispatchedIn(s.trace) + bs + Flood(es[..1])
    ensures Advanced(s, bs, es, 1, s', es[0].after)
  {
  }

  lemma ToldText(cmd: string, r: (State, bool), e: Exchange)
    requires r.1 && e.ts != [] && AtLine(r.0, e.code, e.ts[|e.ts| - 1])
    requires NulFree(e.ts[|e.ts| - 1])
    ensures ToldRight([ToldOf(cmd, r)], [e])
  {
    var t := e.ts[|e.ts| - 1];
    var junk := AtLineMemory(r.0, e.code, t);
    CStrAt(t + [NUL] + junk, t);
  }

  lemma AskAdvances(s: State, cmd: string, bs: seq<string>, es: seq<Exchange>)
    requires Idle(s, bs, es) && es != [] && |cmd| < BUFLENLINE - 1
    ensures Sound(s.net) && Advanced(s, bs, es, 1, Ask(s, cmd).0, es[0].after)
    ensures ToldRight([ToldOf(cmd, Ask(s, cmd))], es[..1])
  {
    hide *;
    IdleText(s, bs, es);
    var e := es[0];
    var n1 := AskIdle(s, cmd, bs, es);
    FinishedStep(s, n1, e.code, bs, e);
    FloodOne(es);
    ToldText(cmd, Ask(s, cmd), e);
    OneAdvance(s, bs, es, Ask(s, cmd).0);
  }

  lemma QueryAdvances<T(!new)>(s: State, cmd: string, conv: string -> Conv<T>, bs: seq<string>,
                               es: seq<Exchange>)
    requires Idle(s, bs, es) && es != [] && |cmd| < BUFLENLINE - 1
    ensures Sound(s.net) && Advanced(s, bs, es, 1, Query(s, cmd, conv).0, es[0].after)
    ensures ListResult(conv, es[0], Query(s, cmd, conv).1)
  {
    hide *;
    IdleText(s, bs, es);
    var n1 := QueryIdle(s, cmd, conv, bs, es);
    FinishedStep(s, n1, es[0].code, bs, es[0]);
    FloodOne(es);
    OneAdvance(s, bs, es, Query(s, cmd, conv).0);
  }

  // ----------------------------------------------------------------- several commands

  lemma NoneIssued(s: State, told: seq<Told>, es: seq<Exchange>)
    requires Sound(s.net)
    ensures Issued(s, [], told) == (s, told) && told + [] == told && ToldRight([], es[..0])
  {
  }

  lemma FirstIssued(s: State, cmds: seq<string>, told: seq<Told>, es: seq<Exchange>)
    requires Sound(s.net) && cmds != [] && CommandsFit(cmds, es)
    ensures es != [] && |cmds[0]| < BUFLENLINE - 1 && CommandsFit(cmds[1..], es[1..])
    ensures Sound(Ask(s, cmds[0]).0.net) && |cmds| <= |es|
    ensures Issued(s, cmds, told)
            == Issued(Ask(s, cmds[0]).0, cmds[1..], told + [ToldOf(cmds[0], Ask(s, cmds[0]))])
  {
    hide Ask, ToldOf;
  }

  lemma ToldTwice(a: seq<Told>, b: seq<Told>, es: seq<Exchange>, m: nat, n: nat)
    requires m + n <= |es| && ToldRight(a, es[..m]) && ToldRight(b, es[m..][..n])
    ensures ToldRight(a + b, es[..m + n])
  {
    forall i | 0 <= i < m + n
      ensures var t, e := (a + b)[i], es[..m + n][i];
              t.ok && t.code == e.code && e.ts != [] && t.text == e.ts[|e.ts| - 1]
    {
      if i < m { assert es[..m][i] == es[i]; } else { assert es[m..][..n][i - m] == es[i]; }
    }
  }

  lemma {:induction false} IssuedIdle(s: State, cmds: seq<string>, bs: seq<string>,
      es: seq<Exchange>, told: seq<Told>) returns (bs': seq<string>, more: seq<Told>)
    requires Idle(s, bs, es) && CommandsFit(cmds, es)
    ensures Sound(s.net) && Issued(s, cmds, told).1 == told + more
    ensures Advanced(s, bs, es, |cmds|, Issued(s, cmds, told).0, bs')
    ensures ToldRight(more, es[..|cmds|])
    decreases |cmds|
  {
    hide *;
    IdleParts(s, bs, es);
    if cmds == [] {
      bs', more := bs, [];
      NotAdvanced(s, bs, es);
      NoneIssued(s, told, es);
    } else {
      FirstIssued(s, cmds, told, es);
      var r := Ask(s, cmds[0]);
      var first := [ToldOf(cmds[0], r)];
      AskAdvances(s, cmds[0], bs, es);
      AdvancedParts(s, bs, es, 1, r.0, es[0].after);
      var rest;
      bs', rest := IssuedIdle(r.0, cmds[1..], es[0].after, es[1..], told + first);
      AdvancedTwice(s, bs, es, 1, r.0, es[0].after, |cmds| - 1, Issued(s, cmds, told).0, bs');
      more := first + rest;
      Assoc(told, first, rest);
      ToldTwice(first, rest, es, 1, |cmds| - 1);
    }
  }

  // ------------------------------------------------------------------------- the poll

  lemma TakeAdvances(s: State, bs: seq<string>, es: seq<Exchange>, s1: State)
    requires Idle(s, bs, es) && bs != [] && Idle(s1, bs[1..], es)
    requires s1.trace == s.trace + [Dispatched(bs[0])]
    ensures Advanced(s, bs, es, 0, s1, bs[1..])
  {
    hide Idle, BcastsOf;
    assert es[0..] == es && es[..0] == [];
    DispatchedConcat(s.trace, [Dispatched(bs[0])]);
    assert [Dispatched(bs[0])][..0] == [] && DispatchedIn([]) == [];
    assert DispatchedIn([Dispatched(bs[0])]) == [bs[0]];
    assert [bs[0]] + bs[1..] == bs;
    Assoc(DispatchedIn(s.trace), [bs[0]], bs[1..]);
    assert DispatchedIn(s.trace) + bs + [] == DispatchedIn(s.trace) + bs;
  }

  lemma NothingTakenYet(s: State, n: Net, bs: seq<string>, es: seq<Exchange>)
    requires Idle(s.(net := n), bs, es)
    ensures Advanced(s, bs, es, 0, s.(net := n), bs)
  {
    NotAdvanced(s.(net := n), bs, es);
  }

  lemma {:induction false} IssuedSame(s: State, cmds: seq<string>, a: seq<Told>, b: seq<Told>)
    requires Sound(s.net)
    ensures Issued(s, cmds, a).0 == Issued(s, cmds, b).0
    decreases |cmds|
  {
    hide Ask;
    if cmds != [] {
      var r := Ask(s, cmds[0]);
      IssuedSame(r.0, cmds[1..], a + [ToldOf(cmds[0], r)], b + [ToldOf(cmds[0], r)]);
    }
  }

  /** What was told before does not change what happens. */
  lemma ReactedSame(s: State, on: Reactions, l: string, told: seq<Told>)
    requires Sound(s.net) && l != ""
    ensures Reacted(s, on, l, told).0 == Reacted(s, on, l, []).0
  {
    if l[0] == '6' { IssuedSame(Log(s, PollEvent(l)), on(l), told, []); }
  }

  /** Handling the buffer of an idle session. */
  lemma {:induction false} PollLinesWithIdle(s: State, on: Reactions, bs: seq<string>,
      es: seq<Exchange>, told: seq<Told>) returns (bs': seq<string>, more: seq<Told>)
    requires Sound(s.net) && Idle(s, bs, es) && PollFits(s, on, es)
    ensures |more| <= |es| && PollLinesWith(s, on, told).1 == told + more
    ensures Advanced(s, bs, es, |more|, PollLinesWith(s, on, told).0, bs')
    ensures ToldRight(more, es[..|more|])
    decreases |s.net.env.peers|, |s.net.env.answers|, Measure(s.net)
  {
    hide Idle, Advanced, Issued, GetLine, Splittable, Measure, Sound, Pending;
    IdlePending(s, bs, es);
    PollTurnWith(s, on, told);
    PollTurnWith(s, on, []);
    var n := GetLine(s.net).0;
    if GetLine(s.net).1.None? {
      NoLineIdle(s, bs, es);
      assert bs[0..] == bs;
      NothingTakenYet(s, n, bs, es);
      bs', more := bs, [];
      assert told + [] == told;
    } else {
      var s1 := TakeBcast(s, bs, es);
      TakeAdvances(s, bs, es, s1);
      var l, cmds := bs[0], on(bs[0]);
      assert Reacted(s.(net := n), on, l, told) == Issued(s1, cmds, told);
      ReactedSame(s.(net := n), on, l, told);
      var bs1, first := IssuedIdle(s1, cmds, bs[1..], es, told);
      var s2 := Issued(s1, cmds, told).0;
      AdvancedParts(s1, bs[1..], es, |cmds|, s2, bs1);
      assert es[0..] == es;
      AdvancedTwice(s, bs, es, 0, s1, bs[1..], |cmds|, s2, bs1);
      var rest;
      bs', rest := PollLinesWithIdle(s2, on, bs1, es[|cmds|..], told + first);
      AdvancedTwice(s, bs, es, |cmds|, s2, bs1, |rest|, PollLinesWith(s, on, told).0, bs');
      more := first + rest;
      Assoc(told, first, rest);
      ToldTwice(first, rest, es, |cmds|, |rest|);
    }
  }

  lemma PollWithUnfold(s: State, on: Reactions)
    requires Sound(s.net) && s.net.up && Recv(s.net).1
    ensures Sound(Recv(s.net).0)
    ensures PollWith(s, on) == PollLinesWith(s.(net := Recv(s.net).0), on, [])
  {
    hide PollLinesWith;
    RecvSound(s.net);
  }

  lemma NothingTakenFrom(s: State, s1: State, bs: seq<string>, es: seq<Exchange>, used: nat,
                         s2: State, bs2: seq<string>)
    requires Advanced(s1, bs, es, used, s2, bs2) && s1.trace == s.trace
    ensures Advanced(s, bs, es, used, s2, bs2)
  {
  }

  /** A poll whose handlers issue commands: each command gets the server's reaction to this
      very command; every broadcast is dispatched once and in order, whether the poll finds it
      or one of the commands does on its way to its reply; and the session is idle again. The
      poll ends, since every command uses up one of the reactions to come. */
  lemma {:induction false} PollWithIdle(s: State, on: Reactions, bs: seq<string>, es: seq<Exchange>)
      returns (bs': seq<string>, told: seq<Told>)
    requires Idle(s, bs, es) && s.net.Ok() && Receives(s.net)
    requires Sound(Recv(s.net).0) && PollFits(s.(net := Recv(s.net).0), on, es)
    ensures Sound(s.net) && PollWith(s, on).1 == told && |told| <= |es|
    ensures Advanced(s, bs, es, |told|, PollWith(s, on).0, bs')
    ensures ToldRight(told, es[..|told|])
  {
    hide *;
    IdleParts(s, bs, es);
    ReceivedIdle(s, bs, es);
    var s1 := s.(net := Recv(s.net).0);
    bs', told := PollLinesWithIdle(s1, on, bs, es, []);
    assert [] + told == told;
    PollWithUnfold(s, on);
    NothingTakenFrom(s, s1, bs, es, |told|, PollWith(s, on).0, bs');
  }
}
