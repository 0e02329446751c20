/** What the client makes of a well-formed reply, whatever broadcasts are mixed into it and
    however its bytes arrive. */
module Replies {
  import opened CText
  import opened Wire
  import opened Framing
  import opened Protocol

  function Unlines(ls: seq<string>): string {
    if ls == [] then "" else ls[0] + "\n" + Unlines(ls[1..])
  }

  predicate WellFormed(l: string) { |l| >= 4 && Unbroken(l) }

  /** The lines `ls` are a reply with code `code` and the given texts, with any number of
      broadcasts before each of its lines. */
  predicate ReplyScript(ls: seq<string>, code: string, texts: seq<string>) {
    && ls != [] && WellFormed(ls[0])
    && if IsBcast(ls[0]) then ReplyScript(ls[1..], code, texts)
       else if |texts| == 1 then ls == [code + " " + texts[0]] && |code| == 3
       else |texts| > 1 && ls[0] == code + "-" + texts[0] && |code| == 3
            && ReplyScript(ls[1..], code, texts[1..])
  }

  function EventOf(l: string): Event { if IsBcast(l) then Dispatched(l) else Reply(l) }

  function Events(ls: seq<string>): seq<Event> { seq(|ls|, i requires 0 <= i < |ls| => EventOf(ls[i])) }

  lemma EventsSplit(ls: seq<string>, k: nat)
    requires k <= |ls|
    ensures Events(ls) == Events(ls[..k]) + Events(ls[k..])
  {
  }

  /** The state after reply lines were read: `evs` happened, the last line is lent out. */
  function After(s: State, n: Net, code: string, inreply: bool, evs: seq<Event>): State {
    s.(net := n, code := code, line := Some(4), inreply := inreply, trace := s.trace + evs)
  }

  lemma AfterAfter(s: State, n: Net, n': Net, code: string, i: bool, i': bool,
                   e: seq<Event>, e': seq<Event>)
    ensures After(After(s, n, code, i, e), n', code, i', e') == After(s, n', code, i', e + e')
  {
    assert s.trace + e + e' == s.trace + (e + e');
  }

  lemma AfterLog(s: State, n: Net, n': Net, ev: Event, code: string, i: bool, e: seq<Event>)
    ensures After(Log(s.(net := n), ev), n', code, i, e) == After(s, n', code, i, [ev] + e)
  {
    assert s.trace + [ev] + e == s.trace + ([ev] + e);
  }

  /** Nothing of the reply, and no blank line, is left in front of `rest`. */
  predicate Clean(rest: string) { rest == "" || !IsEol(rest[0]) }

  lemma ScriptClean(ls: seq<string>, code: string, texts: seq<string>, rest: string)
    requires Clean(rest) && (ls == [] || ReplyScript(ls, code, texts))
    ensures Clean(Unlines(ls) + rest)
  {
    if ls != [] {
      assert (Unlines(ls) + rest)[0] == ls[0][0];
    }
  }

  // ----------------------------------------------------------- one line at a time

  lemma {:induction false} FetchNext(n: Net, l: string, rest: string) returns (n1: Net)
    requires Sound(n) && LinesFit(Pending(n))
    requires Pending(n) == l + "\n" + rest && Unbroken(l) && Clean(rest)
    ensures Fetch(n) == (n1, Some(l)) && Sound(n1)
    ensures Moved(n, n1) && n1.up && LentLine(n1, l) && Pending(n1) == rest
    ensures Measure(n1) < Measure(n)
  {
    var p := Pending(n);
    assert p[..|l|] == l && p[|l|] == '\n' && p[|l| + 1..] == rest;
    CspnIs(p, |l|);
    assert Spn(rest) == 0;
    var j := FetchLine(n);
    n1 := Fetch(n).0;
    FetchSound(n);
  }

  lemma {:induction false} RnextBcast(s: State, l: string, rest: string) returns (n1: Net)
    requires Sound(s.net) && s.inreply && IsBcast(l) && Unbroken(l) && Clean(rest)
    requires Pending(s.net) == l + "\n" + rest
    ensures Sound(n1) && Moved(s.net, n1) && n1.up && Pending(n1) == rest
    ensures Measure(n1) < Measure(s.net)
    ensures Rnext(s) == Rnext(Log(s.(net := n1), Dispatched(l)))
  {
    SoundFits(s.net);
    n1 := FetchNext(s.net, l, rest);
  }

  lemma {:induction false} RnextReply(s: State, l: string, rest: string) returns (n1: Net)
    requires Sound(s.net) && s.inreply && WellFormed(l) && !IsBcast(l) && Clean(rest)
    requires Pending(s.net) == l + "\n" + rest && (s.code == "" || s.code == l[..3])
    ensures Sound(n1) && Moved(s.net, n1) && n1.up && Pending(n1) == rest && LentLine(n1, l)
    ensures Measure(n1) < Measure(s.net)
    ensures Rnext(s) == (s.(net := n1, line := Some(4), code := l[..3], inreply := l[3] == '-',
                            trace := s.trace + [Reply(l)]), 0)
  {
    SoundFits(s.net);
    n1 := FetchNext(s.net, l, rest);
  }

  // ------------------------------------------------------------ the whole reply

  /** The state after a reply was read to its end: `ls` were taken, in order, each exactly
      once, and nothing behind them was touched. */
  function Finished(s: State, n: Net, code: string, ls: seq<string>): State {
    After(s, n, code, false, Events(ls))
  }

  predicate CodeFits(s: State, code: string) { |code| == 3 && (s.code == "" || s.code == code) }

  /** The state in which the text `t` of a reply line with the given code is current. */
  ghost predicate AtLine(s: State, code: string, t: string) {
    && Sound(s.net) && s.net.up && s.line == Some(4) && s.code == code && |code| == 3
    && LentLine(s.net, code + (if s.inreply then "-" else " ") + t)
  }

  /** A reply is being read whose remaining lines are `ls`; `rest` follows it. */
  ghost predicate Awaiting(s: State, ls: seq<string>, code: string, ts: seq<string>, rest: string) {
    && Sound(s.net) && s.inreply && CodeFits(s, code) && Clean(rest)
    && ReplyScript(ls, code, ts) && Pending(s.net) == Unlines(ls) + rest
  }

  /** The reply line with text `t` was read and the lines `ls` of its reply remain. */
  ghost predicate Reading(s: State, code: string, t: string, ls: seq<string>, ts: seq<string>,
                          rest: string) {
    && AtLine(s, code, t) && Clean(rest) && Pending(s.net) == Unlines(ls) + rest
    && if s.inreply then ReplyScript(ls, code, ts) else ls == [] && ts == []
  }

  /** The connection after a reply was consumed to its end and not beyond. */
  ghost predicate Consumed(s: State, n: Net, rest: string) {
    Sound(n) && Moved(s.net, n) && n.up && Pending(n) == rest
  }

  lemma ConsumedIs(s: State, n: Net, rest: string)
    requires Consumed(s, n, rest)
    ensures Sound(n) && Moved(s.net, n) && n.up && Pending(n) == rest
  {
  }

  lemma ReadingCases(s: State, code: string, t: string, ls: seq<string>, ts: seq<string>,
                     rest: string)
    requires Reading(s, code, t, ls, ts, rest)
    ensures Sound(s.net) && AtLine(s, code, t) && s.line == Some(4) && s.code == code
    ensures s.inreply ==> Awaiting(s, ls, code, ts, rest)
    ensures !s.inreply ==> ls == [] && ts == [] && Consumed(s, s.net, rest)
    ensures !s.inreply ==> LentLine(s.net, code + " " + t) && Finished(s, s.net, code, ls) == s
    ensures !s.inreply ==> Rnext(s) == (s, -2)
  {
    assert "" + rest == rest;
    assert s.trace + Events([]) == s.trace;
  }

  // ------------------------------------------------------------- the next reply line

  lemma ScriptNonEmpty(s: State, ls: seq<string>, code: string, ts: seq<string>, rest: string)
    requires Awaiting(s, ls, code, ts, rest)
    ensures ls != [] && Sound(s.net)
  {
  }

  lemma {:induction false} BcastLine(s: State, ls: seq<string>, code: string, ts: seq<string>, rest: string)
      returns (s0: State)
    requires Awaiting(s, ls, code, ts, rest) && ls != [] && IsBcast(ls[0])
    ensures s0 == Log(s.(net := s0.net), Dispatched(ls[0])) && Moved(s.net, s0.net)
    ensures Awaiting(s0, ls[1..], code, ts, rest) && Rnext(s0) == Rnext(s)
  {
    var l := ls[0];
    var more := Unlines(ls[1..]) + rest;
    assert Pending(s.net) == l + "\n" + more;
    ScriptClean(ls[1..], code, ts, rest);
    var n := RnextBcast(s, l, more);
    s0 := Log(s.(net := n), Dispatched(l));
  }

  lemma FirstEvent(ls: seq<string>)
    requires ls != [] && !IsBcast(ls[0])
    ensures Events(ls[..1]) == [Reply(ls[0])]
  {
  }

  lemma {:induction false} ReplyLine(s: State, ls: seq<string>, code: string, ts: seq<string>, rest: string)
      returns (s1: State)
    requires Awaiting(s, ls, code, ts, rest) && !IsBcast(ls[0])
    ensures ts != [] && Rnext(s) == (s1, 0)
    ensures Reading(s1, code, ts[0], ls[1..], ts[1..], rest)
    ensures Moved(s.net, s1.net) && s1 == After(s, s1.net, code, s1.inreply, Events(ls[..1]))
  {
    hide Events;
    var l := ls[0];
    var sep := if |ts| == 1 then " " else "-";
    assert l == code + sep + ts[0];
    assert l[..3] == code && l[3] == sep[0];
    var more := Unlines(ls[1..]) + rest;
    assert Pending(s.net) == l + "\n" + more;
    ScriptClean(ls[1..], code, ts[1..], rest);
    var n := RnextReply(s, l, more);
    s1 := After(s, n, code, |ts| > 1, Events(ls[..1]));
    FirstEvent(ls);
  }

  lemma BcastThenLine(s: State, n: Net, s1: State, ls: seq<string>, code: string, k: nat)
    requires ls != [] && k <= |ls[1..]| && IsBcast(ls[0]) && Moved(s.net, n) && Moved(n, s1.net)
    requires s1 == After(Log(s.(net := n), Dispatched(ls[0])), s1.net, code, s1.inreply,
                         Events(ls[1..][..k]))
    ensures s1 == After(s, s1.net, code, s1.inreply, Events(ls[..k + 1]))
    ensures ls[1..][k..] == ls[k + 1..] && Moved(s.net, s1.net)
  {
    AfterLog(s, n, s1.net, Dispatched(ls[0]), code, s1.inreply, Events(ls[1..][..k]));
    assert Events(ls[..k + 1]) == [Dispatched(ls[0])] + Events(ls[1..][..k]);
  }

  /** Reads up to the next reply line, over the broadcasts in front of it: `k` lines in all. */
  lemma {:induction false} NextLine(s: State, ls: seq<string>, code: string, ts: seq<string>,
                                    rest: string) returns (s1: State, k: nat)
    requires Awaiting(s, ls, code, ts, rest)
    ensures 0 < k <= |ls| && ts != [] && Sound(s.net) && Rnext(s) == (s1, 0)
    ensures Reading(s1, code, ts[0], ls[k..], ts[1..], rest)
    ensures Moved(s.net, s1.net) && s1 == After(s, s1.net, code, s1.inreply, Events(ls[..k]))
    decreases |ls|
  {
    hide *;
    ScriptNonEmpty(s, ls, code, ts, rest);
    if IsBcast(ls[0]) {
      var s0 := BcastLine(s, ls, code, ts, rest);
      s1, k := NextLine(s0, ls[1..], code, ts, rest);
      BcastThenLine(s, s0.net, s1, ls, code, k);
      k := k + 1;
    } else {
      s1 := ReplyLine(s, ls, code, ts, rest);
      k := 1;
    }
  }

  /** Joins the lines before and after an intermediate state. */
  lemma Join(s: State, s1: State, n: Net, code: string, ls: seq<string>, k: nat, rest: string)
    requires k <= |ls| && Moved(s.net, s1.net) && Consumed(s1, n, rest)
    requires s1 == After(s, s1.net, code, s1.inreply, Events(ls[..k]))
    ensures Finished(s1, n, code, ls[k..]) == Finished(s, n, code, ls) && Consumed(s, n, rest)
  {
    EventsSplit(ls, k);
    AfterAfter(s, s1.net, n, code, s1.inreply, false, Events(ls[..k]), Events(ls[k..]));
  }

  // ------------------------------------------------------------------ the rest of it

  lemma RlastUnfold(s: State)
    requires Sound(s.net)
    ensures Sound(Rnext(s).0.net)
    ensures Rlast(s) == if Rnext(s).1 == 0 then Rlast(Rnext(s).0)
                        else (Rnext(s).0, if Rnext(s).1 == -1 then -1 else 0)
  {
  }

  lemma {:induction false} RlastScript(s: State, ls: seq<string>, code: string,
                                       ts: seq<string>, rest: string) returns (n1: Net)
    requires Awaiting(s, ls, code, ts, rest)
    ensures Sound(s.net) && Consumed(s, n1, rest) && Rlast(s) == (Finished(s, n1, code, ls), 0)
    ensures ts != [] && LentLine(n1, code + " " + ts[|ts| - 1])
    decreases |ls|
  {
    hide *;
    var s1, k := NextLine(s, ls, code, ts, rest);
    RlastUnfold(s);
    ReadingCases(s1, code, ts[0], ls[k..], ts[1..], rest);
    if s1.inreply {
      n1 := RlastScript(s1, ls[k..], code, ts[1..], rest);
      assert ts[1..][|ts[1..]| - 1] == ts[|ts| - 1];
    } else {
      n1 := s1.net;
      RlastUnfold(s1);
      assert |ts[1..]| == 0;
    }
    Join(s, s1, n1, code, ls, k, rest);
  }

  // ---------------------------------------------------------------- the wrappers

  /** Connected, between replies, with the next send going through. */
  predicate Ready(s: State) {
    s.net.up && !s.inreply && s.net.Ok()
    && (s.net.env.sends == [] || s.net.env.sends[0])
  }

  function AfterSend(s: State, cmd: string): State {
    var sends := if s.net.env.sends == [] then [] else s.net.env.sends[1..];
    s.(net := s.net.(env := Answered(s.net.env.(sends := sends), cmd + "\n")),
       code := "", line := None, inreply := true)
  }

  lemma FinishedAfterSend(s: State, cmd: string, n: Net, code: string, ls: seq<string>)
    ensures Finished(AfterSend(s, cmd), n, code, ls) == Finished(s, n, code, ls)
  {
  }

  /** The server's answer to `cmd`, behind what is pending, is the reply script `ls` and then
      `rest`. */
  ghost predicate AnswersWith(s: State, cmd: string, ls: seq<string>, code: string,
                              ts: seq<string>, rest: string) {
    && Sound(s.net) && Ready(s) && s.net.env.quota.None? && |cmd| < BUFLENLINE - 1
    && Clean(rest) && ReplyScript(ls, code, ts) && Pending(s.net) + Answer(s.net.env) == Unlines(ls) + rest
  }

  lemma VsendWhenReady(s: State, cmd: string)
    requires Sound(s.net) && Ready(s) && |cmd| < BUFLENLINE - 1
    ensures Vsend(s, cmd) == (AfterSend(s, cmd), true)
  {
    SendOnSteps(s, cmd);
  }

  lemma SentPending(s: State, cmd: string)
    requires Sound(s.net) && Ready(s)
    ensures Sound(AfterSend(s, cmd).net)
    ensures s.net.env.quota.None? ==>
              Pending(AfterSend(s, cmd).net) == Pending(s.net) + Answer(s.net.env)
  {
    hide WholeLines, AnswersSound, PeerSound;
    SendSound(s.net, cmd + "\n");
    var n1 := AfterSend(s, cmd).net;
    assert n1 == Send(s.net, cmd + "\n").0;
    var h, w := Unread(s.net), s.net.env.wire;
    assert h + (w + Answer(s.net.env)) == h + w + Answer(s.net.env);
  }

  lemma {:induction false} ScriptCode(ls: seq<string>, code: string, ts: seq<string>)
    requires ReplyScript(ls, code, ts)
    ensures |code| == 3 && code[0] != '6' && ts != []
    decreases |ls|
  {
    if IsBcast(ls[0]) {
      ScriptCode(ls[1..], code, ts);
    } else {
      assert ls[0][0] == code[0];
    }
  }

  lemma VsendReady(s: State, cmd: string, ls: seq<string>, code: string, ts: seq<string>,
                   rest: string)
    requires AnswersWith(s, cmd, ls, code, ts, rest)
    ensures Sound(s.net) && Vsend(s, cmd) == (AfterSend(s, cmd), true)
    ensures Awaiting(AfterSend(s, cmd), ls, code, ts, rest)
    ensures |code| == 3 && code[0] != '6' && ts != []
  {
    hide ReplyScript, Unlines;
    ScriptCode(ls, code, ts);
    SentPending(s, cmd);
    VsendWhenReady(s, cmd);
  }

  lemma AskUnfold(s: State, cmd: string)
    requires Sound(s.net) && Vsend(s, cmd).1
    ensures Ask(s, cmd) == (Rlast(Vsend(s, cmd).0).0, Rlast(Vsend(s, cmd).0).1 == 0)
  {
  }

  lemma FinishedAtLine(s: State, n: Net, code: string, ls: seq<string>, t: string, rest: string)
    requires Consumed(s, n, rest) && LentLine(n, code + " " + t) && |code| == 3
    ensures AtLine(Finished(s, n, code, ls), code, t)
  {
  }

  /** A command gets the reply that the server wrote to it: the pending broadcasts and the
      reply are consumed, and the text pointer denotes the final line of this very reply. */
  lemma {:induction false} AskScript(s: State, cmd: string, ls: seq<string>, code: string, ts: seq<string>,
                  rest: string) returns (n1: Net)
    requires AnswersWith(s, cmd, ls, code, ts, rest)
    ensures Sound(s.net) && ts != []
    ensures Consumed(AfterSend(s, cmd), n1, rest)
    ensures Ask(s, cmd) == (Finished(s, n1, code, ls), true)
    ensures AtLine(Finished(s, n1, code, ls), code, ts[|ts| - 1])
  {
    hide *;
    VsendReady(s, cmd, ls, code, ts, rest);
    var s0 := AfterSend(s, cmd);
    n1 := RlastScript(s0, ls, code, ts, rest);
    FinishedAfterSend(s, cmd, n1, code, ls);
    AskUnfold(s, cmd);
    FinishedAtLine(s0, n1, code, ls, ts[|ts| - 1], rest);
  }

  lemma LentText(n: Net, head: string, t: string)
    requires LentLine(n, head + t) && |head| == 4
    ensures |n.held| >= 4 && n.held[4..] == t + [NUL] + n.held[5 + |t|..]
  {
    var l := head + t;
    assert n.held == l + [NUL] + n.held[|l| + 1..];
    assert l[4..] == t;
  }

  lemma {:induction false} AtLineMemory(s: State, code: string, t: string) returns (junk: string)
    requires AtLine(s, code, t)
    ensures Memory(s) == t + [NUL] + junk && At(Memory(s), |t|) == NUL
  {
    LentText(s.net, code + (if s.inreply then "-" else " "), t);
    junk := s.net.held[5 + |t|..];
  }

  /** The parser reads the text `t` as the record `r`, whatever follows it in memory. */
  ghost predicate Accepts<T(!new)>(conv: string -> Conv<T>, t: string, r: Option<T>) {
    forall junk: string :: conv(t + [NUL] + junk) == Conv(r, |t|)
  }

  /** The results of the wrappers are those of the final text of the reply. */
  lemma WrapperResults(s: State, code: string, t: string)
    requires AtLine(s, code, t) && NulFree(t)
    ensures SuccResult(s) <==> code[0] == '2' || code[0] == '3'
    ensures StringResult(s) == if code[0] == '2' then Some(t) else None
    ensures IntResult(s) == if code[0] == '2' then Strtol(t, 0).value else -1
  {
    var junk := AtLineMemory(s, code, t);
    CStrAt(t + [NUL] + junk, t);
    ScanLocal(t, junk, 0);
  }

  /** The record that a wrapper returns is the one its parser makes of the final text. */
  lemma ConvResultIs<T(!new)>(s: State, code: string, t: string, conv: string -> Conv<T>, d: Option<T>)
    requires AtLine(s, code, t) && Accepts(conv, t, d)
    ensures ConvResult(s, conv) == if code[0] == '2' then d else None
  {
    hide LentLine, Memory, Sound;
    var junk := AtLineMemory(s, code, t);
  }

  // ----------------------------------------------------------- replies with records

  ghost predicate AllAccepted<T(!new)>(conv: string -> Conv<T>, ts: seq<string>, rs: seq<Option<T>>) {
    |rs| == |ts| && forall i | 0 <= i < |ts| :: Accepts(conv, ts[i], rs[i])
  }

  /** The parser stops before the end of the text `t`, whatever follows it in memory. */
  ghost predicate Refuses<T(!new)>(conv: string -> Conv<T>, t: string) {
    forall junk: string {:trigger conv(t + [NUL] + junk)} ::
      At(t + [NUL] + junk, conv(t + [NUL] + junk).end) != NUL
  }

  /** Whatever the parser makes of the lines, the reply is consumed to its end and not
      beyond: also after a parse error in the middle of a list. */
  lemma {:induction false} CollectConsumes<T>(s: State, conv: string -> Conv<T>, acc: seq<Option<T>>,
      code: string, t: string, ls: seq<string>, ts: seq<string>, rest: string) returns (n1: Net)
    requires Reading(s, code, t, ls, ts, rest)
    ensures Sound(s.net) && Consumed(s, n1, rest)
    ensures Collect(s, conv, acc).0 == Finished(s, n1, code, ls)
    decreases |ls|
  {
    hide *;
    ReadingCases(s, code, t, ls, ts, rest);
    CollectUnfold(s, conv, acc);
    if !s.inreply {
      n1 := s.net;
      RlastUnfold(s);
    } else if !Parses(s, conv) {
      n1 := RlastScript(s, ls, code, ts, rest);
    } else {
      var s1, k := NextLine(s, ls, code, ts, rest);
      var all := acc + [conv(Memory(s)).data];
      n1 := CollectConsumes(s1, conv, all, code, ts[0], ls[k..], ts[1..], rest);
      Join(s, s1, n1, code, ls, k, rest);
    }
  }

  lemma AcceptedAt<T(!new)>(s: State, conv: string -> Conv<T>, code: string, t: string,
                            ts: seq<string>, rs: seq<Option<T>>)
    requires AtLine(s, code, t) && AllAccepted(conv, [t] + ts, rs)
    ensures |rs| == 1 + |ts| && conv(Memory(s)).data == rs[0] && Parses(s, conv)
    ensures AllAccepted(conv, ts, rs[1..])
  {
    var junk := AtLineMemory(s, code, t);
    assert Accepts(conv, ([t] + ts)[0], rs[0]);
    forall i | 0 <= i < |ts| ensures Accepts(conv, ts[i], rs[1..][i]) {
      assert Accepts(conv, ([t] + ts)[i + 1], rs[i + 1]);
    }
  }

  /** The result of collecting lines that all parse: exactly their records, in order. */
  lemma {:induction false} CollectExact<T(!new)>(s: State, conv: string -> Conv<T>,
      acc: seq<Option<T>>, code: string, t: string, ls: seq<string>, ts: seq<string>,
      rest: string, rs: seq<Option<T>>)
    requires Reading(s, code, t, ls, ts, rest) && AllAccepted(conv, [t] + ts, rs)
    ensures Sound(s.net) && Collect(s, conv, acc).1 == Some(acc + rs)
    decreases |ls|
  {
    hide *;
    ReadingCases(s, code, t, ls, ts, rest);
    CollectUnfold(s, conv, acc);
    AcceptedAt(s, conv, code, t, ts, rs);
    var all := acc + [rs[0]];
    if !s.inreply {
      assert all == acc + rs;
    } else {
      var s1, k := NextLine(s, ls, code, ts, rest);
      assert [ts[0]] + ts[1..] == ts;
      CollectExact(s1, conv, all, code, ts[0], ls[k..], ts[1..], rest, rs[1..]);
      assert all + rs[1..] == acc + rs;
    }
  }

  lemma RefusedHere<T(!new)>(s: State, conv: string -> Conv<T>, code: string, t: string,
      ls: seq<string>, ts: seq<string>, rest: string)
    requires Reading(s, code, t, ls, ts, rest) && Refuses(conv, t)
    ensures !Parses(s, conv)
  {
    var junk := AtLineMemory(s, code, t);
    assert At(t + [NUL] + junk, conv(t + [NUL] + junk).end) != NUL;
  }

  /** A line that the parser refuses in every context makes the whole list fail. */
  lemma {:induction false} CollectRefuses<T(!new)>(s: State, conv: string -> Conv<T>,
      acc: seq<Option<T>>, code: string, t: string, ls: seq<string>, ts: seq<string>,
      rest: string, bad: string)
    requires Reading(s, code, t, ls, ts, rest) && bad in [t] + ts && Refuses(conv, bad)
    ensures Sound(s.net) && Collect(s, conv, acc).1 == None
    decreases |ls|
  {
    hide *;
    ReadingCases(s, code, t, ls, ts, rest);
    CollectUnfold(s, conv, acc);
    if bad == t {
      RefusedHere(s, conv, code, t, ls, ts, rest);
    } else if Parses(s, conv) {
      assert bad in ts;
      var s1, k := NextLine(s, ls, code, ts, rest);
      assert [ts[0]] + ts[1..] == ts;
      var all := acc + [conv(Memory(s)).data];
      CollectRefuses(s1, conv, all, code, ts[0], ls[k..], ts[1..], rest, bad);
    }
  }

  lemma CodeOf(s: State, code: string)
    requires s.code == code && |code| == 3
    ensures CodeStarts(s, '5') <==> code[0] == '5'
  {
  }

  /** The end-to-end statement for lists, over any parser: the records come out exactly,
      the reply is consumed exactly, the broadcasts in front of its final line are
      dispatched in order, and every later byte stays unread. */
  lemma {:induction false} QueryExact<T(!new)>(s: State, cmd: string, conv: string -> Conv<T>, ls: seq<string>,
      code: string, ts: seq<string>, rest: string, rs: seq<Option<T>>) returns (n1: Net)
    requires AnswersWith(s, cmd, ls, code, ts, rest) && AllAccepted(conv, ts, rs)
    requires |code| == 3 && code[0] != '5'
    ensures Sound(s.net) && Consumed(AfterSend(s, cmd), n1, rest)
    ensures Query(s, cmd, conv) == (Finished(s, n1, code, ls), Some(rs))
  {
    hide *;
    VsendReady(s, cmd, ls, code, ts, rest);
    var s0 := AfterSend(s, cmd);
    var s1, k := NextLine(s0, ls, code, ts, rest);
    ReadingCases(s1, code, ts[0], ls[k..], ts[1..], rest);
    QueryUnfold(s, cmd, conv, s1);
    CodeOf(s1, code);
    n1 := CollectConsumes(s1, conv, [], code, ts[0], ls[k..], ts[1..], rest);
    assert [ts[0]] + ts[1..] == ts;
    CollectExact(s1, conv, [], code, ts[0], ls[k..], ts[1..], rest, rs);
    assert [] + rs == rs;
    Join(s0, s1, n1, code, ls, k, rest);
    FinishedAfterSend(s, cmd, n1, code, ls);
  }

  /** For every parser and every reply, also an error reply, a list query consumes its own
      reply exactly; it has no result if the server reports an error or a line is refused. */
  lemma {:induction false} QueryConsumes<T(!new)>(s: State, cmd: string, conv: string -> Conv<T>, ls: seq<string>,
      code: string, ts: seq<string>, rest: string) returns (n1: Net)
    requires AnswersWith(s, cmd, ls, code, ts, rest)
    ensures Sound(s.net) && |code| == 3 && Consumed(AfterSend(s, cmd), n1, rest)
    ensures Query(s, cmd, conv).0 == Finished(s, n1, code, ls)
    ensures code[0] == '5' || (exists bad :: bad in ts && Refuses(conv, bad)) ==>
              Query(s, cmd, conv).1 == None
  {
    hide *;
    VsendReady(s, cmd, ls, code, ts, rest);
    var s0 := AfterSend(s, cmd);
    var s1, k := NextLine(s0, ls, code, ts, rest);
    ReadingCases(s1, code, ts[0], ls[k..], ts[1..], rest);
    QueryUnfold(s, cmd, conv, s1);
    CodeOf(s1, code);
    if code[0] != '5' {
      n1 := CollectConsumes(s1, conv, [], code, ts[0], ls[k..], ts[1..], rest);
      assert [ts[0]] + ts[1..] == ts;
      if bad :| bad in ts && Refuses(conv, bad) {
        CollectRefuses(s1, conv, [], code, ts[0], ls[k..], ts[1..], rest, bad);
      }
    } else if s1.inreply {
      n1 := RlastScript(s1, ls[k..], code, ts[1..], rest);
    } else {
      n1 := s1.net;
      RlastUnfold(s1);
    }
    Join(s0, s1, n1, code, ls, k, rest);
    FinishedAfterSend(s, cmd, n1, code, ls);
  }
}
