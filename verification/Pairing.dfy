/** Whole runs against a server that answers every command, in order, and broadcasts
    whenever it likes: each call returns what the server answered to that very call. */
module Pairing {
  import opened CText
  import opened Wire
  import opened Framing
  import opened Protocol
  import opened Replies
  import opened Handshake

  // -------------------------------------------------------------------- the server

  /** The server's reaction to one command: a reply, with broadcasts inside and behind it. */
  datatype Exchange = Exchange(ls: seq<string>, code: string, ts: seq<string>, after: seq<string>)

  predicate AllBcasts(bs: seq<string>) {
    forall i | 0 <= i < |bs| :: IsBcast(bs[i]) && Unbroken(bs[i])
  }

  predicate Proper(e: Exchange) { ReplyScript(e.ls, e.code, e.ts) && AllBcasts(e.after) }

  function Bytes(e: Exchange): string { Unlines(e.ls) + Unlines(e.after) }

  function Written(es: seq<Exchange>): seq<string> {
    seq(|es|, i requires 0 <= i < |es| => Bytes(es[i]))
  }

  /** Connected and between replies: what is under way are the broadcasts `bs`, and the
      server will react to the next commands with `es`. */
  ghost predicate Idle(s: State, bs: seq<string>, es: seq<Exchange>) {
    && Sound(s.net) && s.net.up && !s.inreply && s.net.env.quota.None? && s.net.env.sends == []
    && AllBcasts(bs) && Pending(s.net) == Unlines(bs)
    && s.net.env.answers == Written(es)
    && forall i | 0 <= i < |es| :: Proper(es[i])
  }

  // ----------------------------------------------------------- broadcasts in front

  lemma {:induction false} UnlinesConcat(a: seq<string>, b: seq<string>)
    ensures Unlines(a + b) == Unlines(a) + Unlines(b)
  {
    if a == [] {
      assert a + b == b;
    } else {
      assert (a + b)[1..] == a[1..] + b;
      UnlinesConcat(a[1..], b);
    }
  }

  lemma {:induction false} ScriptBehind(bs: seq<string>, ls: seq<string>, code: string, ts: seq<string>)
    requires AllBcasts(bs) && ReplyScript(ls, code, ts)
    ensures ReplyScript(bs + ls, code, ts)
    decreases |bs|
  {
    if bs == [] {
      assert bs + ls == ls;
    } else {
      assert (bs + ls)[1..] == bs[1..] + ls && (bs + ls)[0] == bs[0];
      ScriptBehind(bs[1..], ls, code, ts);
    }
  }

  lemma BcastsClean(bs: seq<string>)
    requires AllBcasts(bs)
    ensures Clean(Unlines(bs))
  {
    if bs != [] { assert Unlines(bs)[0] == bs[0][0]; }
  }

  // -------------------------------------------------------------------- one command

  lemma IdleReady(s: State, bs: seq<string>, es: seq<Exchange>)
    requires Idle(s, bs, es) && es != []
    ensures Ready(s) && s.net.env.quota.None?
    ensures Answer(s.net.env) == Unlines(es[0].ls) + Unlines(es[0].after)
    ensures ReplyScript(es[0].ls, es[0].code, es[0].ts) && AllBcasts(es[0].after)
  {
    assert Proper(es[0]);
    assert Answer(s.net.env) == Bytes(es[0]);
  }

  lemma IsAnswered(s: State, cmd: string, ls: seq<string>, code: string, ts: seq<string>,
                   rest: string)
    requires Sound(s.net) && Ready(s) && s.net.env.quota.None? && |cmd| < BUFLENLINE - 1
    requires Clean(rest) && ReplyScript(ls, code, ts)
    requires Pending(s.net) + Answer(s.net.env) == Unlines(ls) + rest
    ensures AnswersWith(s, cmd, ls, code, ts, rest)
  {
  }

  lemma IdlePending(s: State, bs: seq<string>, es: seq<Exchange>)
    requires Idle(s, bs, es)
    ensures s.net.Ok() && Sound(s.net) && Pending(s.net) == Unlines(bs) && AllBcasts(bs)
  {
  }

  lemma IdleAnswers(s: State, cmd: string, bs: seq<string>, es: seq<Exchange>)
    requires Idle(s, bs, es) && es != [] && |cmd| < BUFLENLINE - 1
    ensures AnswersWith(s, cmd, bs + es[0].ls, es[0].code, es[0].ts, Unlines(es[0].after))
  {
    hide *;
    IdlePending(s, bs, es);
    IdleReady(s, bs, es);
    var e := es[0];
    ScriptBehind(bs, e.ls, e.code, e.ts);
    BcastsClean(e.after);
    UnlinesConcat(bs, e.ls);
    Assoc(Unlines(bs), Unlines(e.ls), Unlines(e.after));
    IsAnswered(s, cmd, bs + e.ls, e.code, e.ts, Unlines(e.after));
  }

  lemma IdleAgain(s: State, cmd: string, n: Net, bs: seq<string>, es: seq<Exchange>)
    requires Idle(s, bs, es) && es != []
    requires Consumed(AfterSend(s, cmd), n, Unlines(es[0].after))
    ensures Idle(Finished(s, n, es[0].code, bs + es[0].ls), es[0].after, es[1..])
  {
    hide ReplyScript, Unlines, Sound, Events;
    assert Proper(es[0]);
    assert Written(es)[1..] == Written(es[1..]);
    assert AfterSend(s, cmd).net.env.answers == Written(es[1..]);
  }

  /** A command consumes the server's next reaction and nothing else. */
  lemma {:induction false} AskIdle(s: State, cmd: string, bs: seq<string>, es: seq<Exchange>) returns (n1: Net)
    requires Idle(s, bs, es) && es != [] && |cmd| < BUFLENLINE - 1
    ensures Sound(s.net) && es[0].ts != []
    ensures Ask(s, cmd) == (Finished(s, n1, es[0].code, bs + es[0].ls), true)
    ensures Idle(Ask(s, cmd).0, es[0].after, es[1..])
    ensures AtLine(Ask(s, cmd).0, es[0].code, es[0].ts[|es[0].ts| - 1])
  {
    hide *;
    IdleAnswers(s, cmd, bs, es);
    var e := es[0];
    n1 := AskScript(s, cmd, bs + e.ls, e.code, e.ts, Unlines(e.after));
    IdleAgain(s, cmd, n1, bs, es);
  }

  /** The result of a list query for the reaction `e`: no list for an error reply or a
      line that does not parse, otherwise exactly the records of its lines. */
  ghost predicate ListResult<T(!new)>(conv: string -> Conv<T>, e: Exchange,
                                      r: Option<seq<Option<T>>>) {
    && |e.code| == 3
    && (e.code[0] == '5' ==> r == None)
    && ((exists bad :: bad in e.ts && Refuses(conv, bad)) ==> r == None)
    && forall rs :: e.code[0] != '5' && AllAccepted(conv, e.ts, rs) ==> r == Some(rs)
  }

  lemma ListResultHolds<T(!new)>(s: State, cmd: string, conv: string -> Conv<T>,
                                 bs: seq<string>, e: Exchange)
    requires AnswersWith(s, cmd, bs + e.ls, e.code, e.ts, Unlines(e.after))
    ensures Sound(s.net) && ListResult(conv, e, Query(s, cmd, conv).1)
  {
    hide Query, AnswersWith, Refuses, AllAccepted, Consumed, Finished, Unlines, AfterSend;
    var n1 := QueryConsumes(s, cmd, conv, bs + e.ls, e.code, e.ts, Unlines(e.after));
    forall rs | e.code[0] != '5' && AllAccepted(conv, e.ts, rs)
      ensures Query(s, cmd, conv).1 == Some(rs)
    {
      var n2 := QueryExact(s, cmd, conv, bs + e.ls, e.code, e.ts, Unlines(e.after), rs);
    }
  }

  lemma {:induction false} QueryIdle<T(!new)>(s: State, cmd: string, conv: string -> Conv<T>, bs: seq<string>,
                           es: seq<Exchange>) returns (n1: Net)
    requires Idle(s, bs, es) && es != [] && |cmd| < BUFLENLINE - 1
    ensures Sound(s.net)
    ensures Query(s, cmd, conv).0 == Finished(s, n1, es[0].code, bs + es[0].ls)
    ensures Idle(Query(s, cmd, conv).0, es[0].after, es[1..])
    ensures ListResult(conv, es[0], Query(s, cmd, conv).1)
  {
    hide *;
    IdleAnswers(s, cmd, bs, es);
    var e := es[0];
    n1 := QueryConsumes(s, cmd, conv, bs + e.ls, e.code, e.ts, Unlines(e.after));
    IdleAgain(s, cmd, n1, bs, es);
    ListResultHolds(s, cmd, conv, bs, e);
  }

  /** A command is heard once, as it was given. */
  lemma AskHeard(s: State, cmd: string, bs: seq<string>, es: seq<Exchange>)
    requires Idle(s, bs, es) && es != [] && |cmd| < BUFLENLINE - 1
    ensures Sound(s.net)
    ensures Ask(s, cmd).0.net.env.heard == s.net.env.heard + [cmd + "\n"]
  {
    hide Idle, AnswersWith, ReplyScript, Unlines, Sound, Ask, AtLine, Events;
    IdleAnswers(s, cmd, bs, es);
    var e := es[0];
    var n1 := AskScript(s, cmd, bs + e.ls, e.code, e.ts, Unlines(e.after));
  }

  lemma QueryHeard<T(!new)>(s: State, cmd: string, conv: string -> Conv<T>, bs: seq<string>,
                            es: seq<Exchange>)
    requires Idle(s, bs, es) && es != [] && |cmd| < BUFLENLINE - 1
    ensures Sound(s.net)
    ensures Query(s, cmd, conv).0.net.env.heard == s.net.env.heard + [cmd + "\n"]
  {
    hide Idle, AnswersWith, ReplyScript, Unlines, Sound, Query, Refuses, Events;
    IdleAnswers(s, cmd, bs, es);
    var e := es[0];
    var n1 := QueryConsumes(s, cmd, conv, bs + e.ls, e.code, e.ts, Unlines(e.after));
  }

  // ------------------------------------------------------------------------ polling

  lemma IdleParts(s: State, bs: seq<string>, es: seq<Exchange>)
    requires Idle(s, bs, es)
    ensures Sound(s.net) && s.net.up && !s.inreply
  {
  }

  lemma EventsLonger(s: State, s1: State, bs: seq<string>, k: nat)
    requires bs != [] && k <= |bs[1..]| && IsBcast(bs[0])
    requires s1.trace == s.trace + [Dispatched(bs[0])]
    ensures s1.trace + Events(bs[1..][..k]) == s.trace + Events(bs[..k + 1])
  {
    assert Events(bs[..k + 1]) == [Dispatched(bs[0])] + Events(bs[1..][..k]);
  }

  lemma NoLineIdle(s: State, bs: seq<string>, es: seq<Exchange>)
    requires Idle(s, bs, es) && Splittable(s.net) && GetLine(s.net).1.None?
    ensures Idle(s.(net := GetLine(s.net).0), bs[0..], es)
    ensures s.trace == s.trace + Events(bs[..0])
  {
    GetLineSound(s.net);
    NoLine(s.net);
    assert bs[0..] == bs;
  }

  lemma BcastLogged(s: State, n: Net, l: string)
    requires IsBcast(l)
    ensures var s1 := Log(s.(net := n), Dispatched(l));
            && s1.trace == s.trace + [Dispatched(l)] && PollEvent(l) == Dispatched(l) && |l| >= 4
  {
  }

  /** The first line of some broadcasts. */
  lemma FirstBcast(bs: seq<string>)
    requires AllBcasts(bs) && Cspn(Unlines(bs)) < |Unlines(bs)|
    ensures bs != [] && IsBcast(bs[0])
    ensures var p, k := Unlines(bs), Cspn(Unlines(bs));
            p[..k] == bs[0] && p[k + 1..] == Unlines(bs[1..]) && Spn(p[k + 1..]) == 0
  {
    var l, rest := bs[0], Unlines(bs[1..]);
    var p := Unlines(bs);
    assert p == l + "\n" + rest;
    assert p[..|l|] == l && p[|l|] == '\n' && p[|l| + 1..] == rest;
    CspnIs(p, |l|);
    BcastsClean(bs[1..]);
  }

  /** An idle session from which the first broadcast was taken. */
  lemma IdleBehind(s: State, bs: seq<string>, es: seq<Exchange>)
    requires Idle(s, bs, es) && bs != [] && Splittable(s.net)
    requires Sound(GetLine(s.net).0) && Pending(GetLine(s.net).0) == Unlines(bs[1..])
    ensures Idle(Log(s.(net := GetLine(s.net).0), Dispatched(bs[0])), bs[1..], es)
  {
    hide Sound, Unlines, Pending, Proper, Written, Cspn, Spn;
  }

  lemma {:induction false} TakeBcast(s: State, bs: seq<string>, es: seq<Exchange>) returns (s1: State)
    requires Idle(s, bs, es) && Splittable(s.net) && GetLine(s.net).1.Some?
    ensures bs != [] && IsBcast(bs[0]) && GetLine(s.net).1 == Some(bs[0])
    ensures s1 == Log(s.(net := GetLine(s.net).0), Dispatched(bs[0]))
    ensures s1.trace == s.trace + [Dispatched(bs[0])]
    ensures PollEvent(bs[0]) == Dispatched(bs[0]) && |bs[0]| >= 4
    ensures Idle(s1, bs[1..], es)
  {
    hide *;
    IdlePending(s, bs, es);
    var j := TakeLine(s.net);
    FirstBcast(bs);
    GetLineSound(s.net);
    s1 := Log(s.(net := GetLine(s.net).0), Dispatched(bs[0]));
    IdleBehind(s, bs, es);
    BcastLogged(s, GetLine(s.net).0, bs[0]);
  }

  /** Handling the buffer of an idle session dispatches a prefix of the broadcasts. */
  lemma {:induction false} PollLinesIdle(s: State, bs: seq<string>, es: seq<Exchange>)
      returns (k: nat)
    requires Idle(s, bs, es)
    ensures Sound(s.net) && k <= |bs| && Idle(PollLines(s), bs[k..], es)
    ensures PollLines(s).trace == s.trace + Events(bs[..k])
    decreases |bs|
  {
    hide *;
    IdleParts(s, bs, es);
    PollTurn(s);
    if GetLine(s.net).1.None? {
      k := 0;
      NoLineIdle(s, bs, es);
    } else {
      var s1 := TakeBcast(s, bs, es);
      k := PollLinesIdle(s1, bs[1..], es);
      assert bs[1..][k..] == bs[k + 1..];
      EventsLonger(s, s1, bs, k);
      k := k + 1;
    }
  }

  lemma PollFails(s: State)
    requires Sound(s.net) && s.net.up && s.net.env.quota.None?
    requires s.net.env.wire == "" || Room(s.net) == 0
    ensures !Poll(s).net.up && Poll(s).trace == s.trace + [Disconnected]
  {
    RecvSound(s.net);
    var (n, got) := Recv(s.net);
    DisconnectSound(n);
    PollTurn(Close(s.(net := n)));
  }

  /** A poll finds something to receive and room to receive it. */
  predicate Receives(n: Net)
    requires n.Ok()
  {
    n.env.wire != "" && Room(n) > 0
  }

  lemma NoQuota(s: State, bs: seq<string>, es: seq<Exchange>)
    requires Idle(s, bs, es)
    ensures s.net.env.quota.None?
  {
  }

  lemma ReceivedIdle(s: State, bs: seq<string>, es: seq<Exchange>)
    requires Idle(s, bs, es) && s.net.Ok() && Receives(s.net)
    ensures Recv(s.net).1 && Idle(s.(net := Recv(s.net).0), bs, es)
  {
    hide ReplyScript, WholeLines, AnswersSound, PeerSound;
    RecvSound(s.net);
    RecvPending(s.net);
  }

  lemma PollUnfold(s: State)
    requires Sound(s.net) && s.net.up && Recv(s.net).1
    ensures Sound(Recv(s.net).0)
    ensures Poll(s) == PollLines(s.(net := Recv(s.net).0))
  {
    RecvSound(s.net);
  }

  /** Polling an idle session that receives something dispatches broadcasts in order and
      meets nothing else: the branch for unprocessed input is not reached. Otherwise the
      connection is closed, and nothing is dispatched, not even what the buffer holds. */
  lemma {:induction false} PollIdle(s: State, bs: seq<string>, es: seq<Exchange>) returns (k: nat)
    requires Idle(s, bs, es)
    ensures Sound(s.net) && s.net.Ok() && k <= |bs|
    ensures Receives(s.net) ==> Idle(Poll(s), bs[k..], es) && Poll(s).trace == s.trace + Events(bs[..k])
    ensures !Receives(s.net) ==> !Poll(s).net.up && Poll(s).trace == s.trace + [Disconnected]
  {
    k := 0;
    IdlePending(s, bs, es);
    IdleParts(s, bs, es);
    NoQuota(s, bs, es);
    if Receives(s.net) {
      hide *;
      ReceivedIdle(s, bs, es);
      var s1 := s.(net := Recv(s.net).0);
      k := PollLinesIdle(s1, bs, es);
      PollUnfold(s);
    } else {
      hide Idle, Poll, Pending, Unlines, AllBcasts, Events;
      PollFails(s);
    }
  }

  /** A poll keeps the connection of an idle session if and only if there is something to
      receive and room to receive it. */
  lemma PollKeepsConnectionIff(s: State, bs: seq<string>, es: seq<Exchange>)
    requires Idle(s, bs, es)
    ensures Sound(s.net) && s.net.Ok()
    ensures Poll(s).net.up <==> s.net.env.wire != "" && Room(s.net) > 0
  {
    hide Idle, Poll;
    var k := PollIdle(s, bs, es);
    if Receives(s.net) { IdleParts(Poll(s), bs[k..], es); }
  }

  // -------------------------------------------------- broadcasts under way and dispatched

  function Announced(s: State, b: string): State {
    s.(net := s.net.(env := s.net.env.(wire := s.net.env.wire + b + "\n")))
  }

  /** The broadcasts among the lines of a script. */
  function BcastsOf(ls: seq<string>): seq<string> {
    if ls == [] then [] else (if IsBcast(ls[0]) then [ls[0]] else []) + BcastsOf(ls[1..])
  }

  /** The broadcasts that were handed to handlers. */
  function DispatchedIn(trace: seq<Event>): seq<string> {
    if trace == [] then []
    else
      var e := trace[|trace| - 1];
      DispatchedIn(trace[..|trace| - 1]) + if e.Dispatched? then [e.line] else []
  }

  lemma {:induction false} DispatchedConcat(a: seq<Event>, b: seq<Event>)
    ensures DispatchedIn(a + b) == DispatchedIn(a) + DispatchedIn(b)
    decreases |b|
  {
    if b == [] {
      assert a + b == a;
    } else {
      assert (a + b)[..|a + b| - 1] == a + b[..|b| - 1];
      DispatchedConcat(a, b[..|b| - 1]);
    }
  }

  lemma {:induction false} DispatchedEvents(ls: seq<string>)
    ensures DispatchedIn(Events(ls)) == BcastsOf(ls)
  {
    if ls == [] {
      assert Events(ls) == [];
    } else {
      EventsSplit(ls, 1);
      DispatchedConcat(Events(ls[..1]), Events(ls[1..]));
      assert Events(ls[..1]) == [EventOf(ls[0])];
      assert DispatchedIn([EventOf(ls[0])]) == if IsBcast(ls[0]) then [ls[0]] else [] by {
        assert [EventOf(ls[0])][..0] == [];
      }
      DispatchedEvents(ls[1..]);
    }
  }

  lemma {:induction false} BcastsConcat(a: seq<string>, b: seq<string>)
    ensures BcastsOf(a + b) == BcastsOf(a) + BcastsOf(b)
  {
    if a == [] {
      assert a + b == b;
    } else {
      assert (a + b)[1..] == a[1..] + b;
      BcastsConcat(a[1..], b);
    }
  }

  lemma {:induction false} BcastsAll(bs: seq<string>)
    requires AllBcasts(bs)
    ensures BcastsOf(bs) == bs
  {
    if bs != [] { BcastsAll(bs[1..]); }
  }

  /** Between two traces only reply lines and broadcasts were taken. */
  predicate Quiet(before: seq<Event>, after: seq<Event>) {
    before <= after && forall i | |before| <= i < |after| :: after[i].Reply? || after[i].Dispatched?
  }

  lemma QuietEvents(before: seq<Event>, ls: seq<string>)
    ensures Quiet(before, before + Events(ls))
  {
  }

  lemma FinishedStep(s: State, n: Net, code: string, bs: seq<string>, e: Exchange)
    requires AllBcasts(bs)
    ensures var s' := Finished(s, n, code, bs + e.ls);
            && DispatchedIn(s'.trace) + e.after
               == DispatchedIn(s.trace) + bs + (BcastsOf(e.ls) + e.after)
            && Quiet(s.trace, s'.trace)
  {
    hide DispatchedIn, BcastsOf, Events, Quiet, AllBcasts;
    DispatchedConcat(s.trace, Events(bs + e.ls));
    DispatchedEvents(bs + e.ls);
    BcastsConcat(bs, e.ls);
    BcastsAll(bs);
    QuietEvents(s.trace, bs + e.ls);
  }

  lemma {:induction false} ScriptText(ls: seq<string>, code: string, ts: seq<string>)
    requires ReplyScript(ls, code, ts) && ts != []
    ensures NulFree(ts[|ts| - 1])
    decreases |ls|
  {
    if IsBcast(ls[0]) {
      ScriptText(ls[1..], code, ts);
    } else if |ts| == 1 {
      assert ls[0] == code + " " + ts[0] && Unbroken(ls[0]);
      assert forall i | 0 <= i < |ts[0]| :: ts[0][i] == ls[0][4 + i];
    } else {
      ScriptText(ls[1..], code, ts[1..]);
    }
  }

  lemma IdleText(s: State, bs: seq<string>, es: seq<Exchange>)
    requires Idle(s, bs, es) && es != []
    ensures Sound(s.net) && AllBcasts(bs) && |es[0].code| == 3
    ensures es[0].ts != [] && NulFree(es[0].ts[|es[0].ts| - 1])
  {
    assert Proper(es[0]);
    ScriptCode(es[0].ls, es[0].code, es[0].ts);
    ScriptText(es[0].ls, es[0].code, es[0].ts);
  }

  lemma UnlinesOne(b: string)
    ensures Unlines([b]) == b + "\n"
  {
    assert [b][1..] == [];
  }

  lemma BcastAppended(bs: seq<string>, b: string)
    requires AllBcasts(bs) && IsBcast(b) && Unbroken(b)
    ensures AllBcasts(bs + [b])
  {
  }

  lemma AnnouncedPending(s: State, b: string)
    requires s.net.Ok() && s.net.up && s.net.env.quota.None?
    ensures Announced(s, b).net.Ok() && Pending(Announced(s, b).net) == Pending(s.net) + (b + "\n")
  {
    var h, w := Unread(s.net), s.net.env.wire;
    assert h + (w + b + "\n") == h + w + (b + "\n");
  }

  lemma LineWhole(b: string)
    requires Unbroken(b) && |b| < BUFLENRCV - 1
    ensures WholeLines(b + "\n")
  {
    var x := b + "\n";
    forall i: nat | i <= |x| ensures RunFits(x, i) {
      if i <= |b| { CspnIs(x[i..], |b| - i); }
    }
  }

  lemma AnnouncedSound(s: State, b: string)
    requires Sound(s.net) && Unbroken(b) && |b| < BUFLENRCV - 1 && s.net.up
    ensures Sound(Announced(s, b).net)
  {
    var h, w, x := Unread(s.net), s.net.env.wire, b + "\n";
    LineWhole(b);
    WholeConcat(h + w, x);
    assert h + (w + b + "\n") == h + w + x;
  }

  lemma IdleAnnounced(s: State, b: string, bs: seq<string>, es: seq<Exchange>)
    requires Idle(s, bs, es) && IsBcast(b) && Unbroken(b) && |b| < BUFLENRCV - 1
    ensures Idle(Announced(s, b), bs + [b], es)
  {
    hide ReplyScript, Unlines, Pending, Sound, Proper, Written, IsBcast, Unbroken;
    IdleParts(s, bs, es);
    AnnouncedSound(s, b);
    AnnouncedPending(s, b);
    UnlinesConcat(bs, [b]);
    UnlinesOne(b);
    BcastAppended(bs, b);
  }

  // ----------------------------------------------------------- the start of a run

  lemma NoUser(s: State, n: Net, code: string, ls: seq<string>)
    requires s.user == None
    ensures Finished(Contacting(s), n, code, ls).user.None?
  {
  }

  lemma IdleFromStart(s: State, n: Net, ls: seq<string>, code: string, ts: seq<string>,
                      bs: seq<string>, es: seq<Exchange>)
    requires Greets(s, ls, code, ts, Unlines(bs)) && AllBcasts(bs) && s.user == None
    requires s.net.env.peers[0].answers == Written(es) && s.net.env.sends == []
    requires forall i | 0 <= i < |es| :: Proper(es[i])
    requires Consumed(Contacting(s), n, Unlines(bs))
    requires var s1 := Finished(Contacting(s), n, code, ls);
             Sound(s1.net) && Greet(s1, true).1 && Open(s) == (Log(Greet(s1, true).0, Connected), true)
    ensures Idle(Open(s).0, bs, es)
  {
    hide ReplyScript, Unlines, Open, Events;
    assert n.env.answers == Contacting(s).net.env.answers == Written(es);
  }

  /** What the session is when the hello was judged. */
  lemma JustGreeted(s: State, n: Net, ls: seq<string>, code: string, t: string, rest: string)
    requires Sound(s.net) && !s.net.up && Connect(s.net).1
    requires Consumed(Contacting(s), n, rest) && SpeaksProtocol(t)
    ensures var s1 := Versioned(Finished(Contacting(s), n, code, ls), t);
            && s1.net.env.heard == [] && s1.trace == s.trace + [Opened] + Events(ls)
            && s1.vmajor == 1 && s1.vminor == Strtol(t, Strtol(t, 5).end).value
            && s1.user == s.user && s1.pass == s.pass
  {
    hide Sound, Events, Strtol, Pending;
  }

  /** The end of a handshake, whether it fails or not, leaves the session as it is otherwise. */
  lemma LeftByHangup(s: State)
    ensures var s1, s2 := Hangup(s), Log(s, Connected);
            && !s1.net.up && s2.net == s.net && s1.net.env.heard == s.net.env.heard
            && s1.trace == s.trace && s2.trace == s.trace + [Connected]
            && s1.code == s2.code == s.code && s1.vmajor == s2.vmajor == s.vmajor
            && s1.vminor == s2.vminor == s.vminor
  {
  }

  lemma GreetAnonymous(s: State, code: string, t: string)
    requires AtLine(s, code, t) && NulFree(t) && code[0] == '2' && SpeaksProtocol(t) && s.user.None?
    ensures Sound(s.net) && Greet(s, true) == (Versioned(s, t), true)
  {
    hide Memory, Sound, Holds, LentLine;
    VersionIs(t);
    hide Strtol, Version;
    SpeaksLocal(s, code, t);
  }

  /** A session without credentials connects to a server that greets properly: the hello is
      read, the version noted, the connect handler runs, and nothing is sent. */
  lemma ConnectedIdle(s: State, ls: seq<string>, code: string, ts: seq<string>,
                      bs: seq<string>, es: seq<Exchange>)
    requires Greets(s, ls, code, ts, Unlines(bs)) && AllBcasts(bs)
    requires s.net.env.peers[0].answers == Written(es) && s.net.env.sends == []
    requires forall i | 0 <= i < |es| :: Proper(es[i])
    requires s.code == "" || s.code == code
    requires |code| == 3 && code[0] == '2' && ts != [] && NulFree(ts[|ts| - 1])
    requires SpeaksProtocol(ts[|ts| - 1]) && s.user == None
    ensures Sound(s.net) && Open(s).1 && Idle(Open(s).0, bs, es)
    ensures var (s1, t) := (Open(s).0, ts[|ts| - 1]);
            && s1.net.env.heard == [] && s1.trace == s.trace + [Opened] + Events(ls) + [Connected]
            && s1.vmajor == 1 && s1.vminor == Strtol(t, Strtol(t, 5).end).value
  {
    hide *;
    BcastsClean(bs);
    ContactingAwaits(s, ls, code, ts, Unlines(bs));
    OpenUnfold(s);
    var s0, t := Contacting(s), ts[|ts| - 1];
    var n1 := RlastScript(s0, ls, code, ts, Unlines(bs));
    var s1 := Finished(s0, n1, code, ls);
    FinishedAtLine(s0, n1, code, ls, t, Unlines(bs));
    NoUser(s, n1, code, ls);
    GreetAnonymous(s1, code, t);
    IdleFromStart(s, n1, ls, code, ts, bs, es);
    JustGreeted(s, n1, ls, code, t, Unlines(bs));
    LeftByHangup(Versioned(s1, t));
  }
}
