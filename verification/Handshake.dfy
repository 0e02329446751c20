/** When connecting to a server succeeds. */
module Handshake {
  import opened CText
  import opened Wire
  import opened Framing
  import opened Protocol
  import opened Replies

  /** The next connection attempt reaches a server that greets with the script `ls`. */
  ghost predicate Greets(s: State, ls: seq<string>, code: string, ts: seq<string>, rest: string) {
    && Sound(s.net) && !s.net.up && s.net.env.peers != [] && s.net.env.peers[0].Serves?
    && s.net.env.peers[0].quota.None? && s.net.env.peers[0].hello == Unlines(ls) + rest
    && ReplyScript(ls, code, ts) && Clean(rest)
  }

  /** The state in which the hello is awaited. */
  function Contacting(s: State): State {
    s.(net := Connect(s.net).0, inreply := true, trace := s.trace + [Opened])
  }

  lemma ContactingAwaits(s: State, ls: seq<string>, code: string, ts: seq<string>, rest: string)
    requires Greets(s, ls, code, ts, rest)
    ensures Sound(s.net) && Sound(Contacting(s).net) && Connect(s.net).1 && !s.net.up
    ensures |code| == 3 && ts != []
    ensures s.code == "" || s.code == code ==> Awaiting(Contacting(s), ls, code, ts, rest)
  {
    ConnectSound(s.net);
    ScriptCode(ls, code, ts);
    var n := Connect(s.net).0;
    assert Pending(n) == n.env.wire;
  }

  lemma OpenUnfold(s: State)
    requires Sound(s.net) && !s.net.up && Connect(s.net).1
    ensures Sound(Contacting(s).net) && Sound(Rlast(Contacting(s)).0.net)
    ensures var (s1, r) := Rlast(Contacting(s));
            && Open(s).1 == Greet(s1, r == 0).1
            && (Open(s).1 ==> Open(s).0 == Log(Greet(s1, r == 0).0, Connected))
            && (!Open(s).1 ==> Open(s).0 == Hangup(Greet(s1, r == 0).0))
  {
    ConnectSound(s.net);
  }

  /** The text names a server of the right protocol version. */
  predicate SpeaksProtocol(t: string) {
    Holds(t, 0, "dudld") && Strtol(t, 5).value == 1
  }

  lemma HoldsPieces(a: string, b: string, rest: string)
    ensures var t, j := "dudld " + a + " " + b + rest, 6 + |a|;
            && Holds(t, 0, "dudld") && At(t, 5) == ' ' && Holds(t, 6, a)
            && At(t, j) == ' ' && Holds(t, j + 1, b) && At(t, j + 1 + |b|) == At(rest, 0)
  {
  }

  /** The session that has read the hello text `t`. */
  function Versioned(s: State, t: string): State {
    s.(vmajor := Strtol(t, 5).value, vminor := Strtol(t, Strtol(t, 5).end).value)
  }

  /** How such a text is written. */
  lemma HelloText(major: int, minor: int, rest: string)
    requires IsInt(major) && IsInt(minor) && (rest == "" || !IsDigit(rest[0]))
    ensures var t := "dudld " + PrintInt(major) + " " + PrintInt(minor) + rest;
            && (SpeaksProtocol(t) <==> major == 1)
            && forall s: State :: Versioned(s, t) == s.(vmajor := major, vminor := minor)
  {
    var a, b := PrintInt(major), PrintInt(minor);
    var t := "dudld " + a + " " + b + rest;
    HoldsPieces(a, b, rest);
    hide PrintInt, Strtol, Holds;
    ScanBlank(t, 5, major);
    ScanBlank(t, 6 + |a|, minor);
  }

  lemma SpeaksLocal(s: State, code: string, t: string)
    requires AtLine(s, code, t) && NulFree(t)
    ensures Holds(Memory(s), 0, "dudld") <==> Holds(t, 0, "dudld")
    ensures Holds(t, 0, "dudld") ==> Version(Memory(s)) == Version(t)
  {
    var junk := AtLineMemory(s, code, t);
    var m := Memory(s);
    hide AtLine, Memory, Strtol, NulFree;
    if |t| < 5 {
      assert m[|t|] == NUL && "dudld"[|t|] != NUL;
      assert |m| >= 5 ==> m[..5][|t|] == NUL;
    } else {
      assert m[..5] == t[..5];
    }
    if Holds(t, 0, "dudld") {
      ScanLocal(t, junk, 5);
      ScanLocal(t, junk, Strtol(t, 5).end);
    }
  }

  /** The login that follows an acceptable hello, if there are credentials. */
  ghost predicate LogsIn(s: State, t: string)
    requires Sound(s.net)
  {
    s.user.Some? ==>
      AuthOn(Versioned(s, t)).1
  }

  lemma VersionIs(t: string)
    ensures Version(t) == (Strtol(t, 5).value, Strtol(t, Strtol(t, 5).end).value)
  {
  }

  lemma GreetJudges(s: State, code: string, t: string)
    requires AtLine(s, code, t) && NulFree(t)
    ensures Sound(s.net)
    ensures Greet(s, true).1 <==> code[0] == '2' && SpeaksProtocol(t) && LogsIn(s, t)
  {
    hide AuthOn, Memory, Sound, Holds, LentLine;
    VersionIs(t);
    hide Strtol, Version;
    SpeaksLocal(s, code, t);
  }

  lemma RefusedGreet(s: State)
    requires Sound(s.net)
    ensures !Greet(s, false).1 && Greet(s, false).0 == s
  {
  }

  lemma StaleLine(s: State, l: string, rest: string)
    requires Sound(s.net) && s.inreply && WellFormed(l) && !IsBcast(l) && Clean(rest)
    requires s.code != "" && s.code != l[..3] && Pending(s.net) == l + "\n" + rest
    ensures Rnext(s).1 == -1 && Rnext(s).0.code == "" && !Rnext(s).0.net.up
    ensures Rnext(s).0.net.env.peers == s.net.env.peers
  {
    hide LinesFit, Fetch, Pending, WholeLines, AnswersSound, PeerSound;
    SoundFits(s.net);
    var n := FetchNext(s.net, l, rest);
  }

  lemma {:induction false} StaleCodeStops(s: State, ls: seq<string>, code: string,
                                          ts: seq<string>, rest: string)
    requires Sound(s.net) && s.inreply && s.code != "" && s.code != code && Clean(rest)
    requires ReplyScript(ls, code, ts) && Pending(s.net) == Unlines(ls) + rest
    ensures Rnext(s).1 == -1 && Rnext(s).0.code == "" && !Rnext(s).0.net.up
    ensures Rnext(s).0.net.env.peers == s.net.env.peers
    decreases |ls|
  {
    hide Rnext, Pending, WholeLines, AnswersSound, PeerSound;
    var l := ls[0];
    var more := Unlines(ls[1..]) + rest;
    assert Pending(s.net) == l + "\n" + more;
    if IsBcast(l) {
      ScriptClean(ls[1..], code, ts, rest);
      var n := RnextBcast(s, l, more);
      StaleCodeStops(Log(s.(net := n), Dispatched(l)), ls[1..], code, ts, rest);
    } else {
      ScriptClean(ls[1..], code, ts[1..], rest);
      assert l[..3] == code;
      StaleLine(s, l, more);
    }
  }

  /** A left-over code that differs from the code of the hello makes the connection fail.
      The failure clears the code. */
  lemma StaleCodeRefused(s: State, ls: seq<string>, code: string, ts: seq<string>, rest: string)
    requires Greets(s, ls, code, ts, rest) && s.code != "" && s.code != code
    ensures Sound(Contacting(s).net)
    ensures Rlast(Contacting(s)).1 == -1 && Rlast(Contacting(s)).0.code == ""
    ensures !Rlast(Contacting(s)).0.net.up
    ensures Rlast(Contacting(s)).0.net.env.peers == s.net.env.peers[1..]
  {
    ConnectSound(s.net);
    var s0 := Contacting(s);
    assert Pending(s0.net) == s0.net.env.wire;
    StaleCodeStops(s0, ls, code, ts, rest);
    RlastUnfold(s0);
  }

  lemma HungUp(s: State)
    ensures Hangup(s).code == s.code && !Hangup(s).net.up
  {
  }

  /** Without a server there is no connection, and nothing happens. */
  lemma NoServer(s: State)
    requires Sound(s.net) && !s.net.up && (s.net.env.peers == [] || s.net.env.peers[0].Refused?)
    ensures !Open(s).1 && !Open(s).0.net.up && Open(s).0 == s.(net := Open(s).0.net)
  {
  }

  /** Connecting to a greeting server succeeds if and only if the code left over from an
      earlier failure does not contradict the greeting, the greeting is positive and names
      the protocol, and the login works. The first condition is one the library means to be
      vacuous; it is not, since a failed handshake leaves its code behind. */
  lemma {:induction false} OpenSucceedsIff(s: State, ls: seq<string>, code: string, ts: seq<string>, rest: string)
      returns (n1: Net)
    requires Greets(s, ls, code, ts, rest) && ts != [] && NulFree(ts[|ts| - 1])
    ensures Sound(s.net) && |code| == 3
    ensures s.code == "" || s.code == code ==> Consumed(Contacting(s), n1, rest)
    ensures Sound(n1)
    ensures var t := ts[|ts| - 1];
            Open(s).1 <==> && (s.code == "" || s.code == code)
                           && code[0] == '2' && SpeaksProtocol(t)
                           && LogsIn(Finished(Contacting(s), n1, code, ls), t)
    ensures !Open(s).1 ==> !Open(s).0.net.up
  {
    hide *;
    ContactingAwaits(s, ls, code, ts, rest);
    OpenUnfold(s);
    var s0 := Contacting(s);
    n1 := s0.net;
    var t := ts[|ts| - 1];
    HungUp(Greet(Rlast(s0).0, Rlast(s0).1 == 0).0);
    if s.code == "" || s.code == code {
      n1 := RlastScript(s0, ls, code, ts, rest);
      ConsumedIs(s0, n1, rest);
      var s1 := Finished(s0, n1, code, ls);
      FinishedAtLine(s0, n1, code, ls, t, rest);
      GreetJudges(s1, code, t);
    } else {
      StaleCodeRefused(s, ls, code, ts, rest);
      RefusedGreet(Rlast(s0).0);
    }
  }

  /** After such a failure the very next attempt is judged on its own merits. */
  lemma StaleCodeFailsOnce(s: State, ls: seq<string>, code: string, ts: seq<string>, rest: string)
    requires Greets(s, ls, code, ts, rest) && s.code != "" && s.code != code
    ensures Sound(s.net) && !Open(s).1
    ensures Open(s).0.code == "" && !Open(s).0.net.up
    ensures Open(s).0.net.env.peers == s.net.env.peers[1..]
  {
    ContactingAwaits(s, ls, code, ts, rest);
    OpenUnfold(s);
    StaleCodeRefused(s, ls, code, ts, rest);
    RefusedGreet(Rlast(Contacting(s)).0);
  }

  /** The state in which the login starts. */
  function Greeted(s: State, n: Net, code: string, ls: seq<string>, t: string): State {
    Versioned(Finished(Contacting(s), n, code, ls), t)
  }

  lemma GreetedFields(s: State, n: Net, code: string, ls: seq<string>, t: string,
                      n': Net, code': string, ls': seq<string>)
    ensures var s1 := Finished(Contacting(s), n, code, ls);
            && s1.user == s.user && s1.pass == s.pass && !s1.inreply
            && Greeted(s, n, code, ls, t) == Versioned(s1, t)
    ensures Finished(Greeted(s, n, code, ls, t), n', code', ls').code == code'
  {
  }

  lemma LoginAnswered(s: State, n: Net, ls: seq<string>, code: string, ts: seq<string>,
      rest: string, ls': seq<string>, code': string, ts': seq<string>, rest': string)
    requires Greets(s, ls, code, ts, rest) && s.user.Some? && |s.user.value| < BUFLENLINE - 6
    requires ts != [] && Consumed(Contacting(s), n, rest) && s.net.env.sends == []
    requires s.net.env.peers[0].answers != []
    requires rest + s.net.env.peers[0].answers[0] == Unlines(ls') + rest'
    requires ReplyScript(ls', code', ts') && Clean(rest')
    ensures AnswersWith(Greeted(s, n, code, ls, ts[|ts| - 1]), "user " + s.user.value,
                        ls', code', ts', rest')
  {
    hide ReplyScript, Unlines;
    var n0 := Contacting(s).net;
    assert n.env.answers == n0.env.answers == s.net.env.peers[0].answers;
  }

  lemma GreetLogsIn(s: State, code: string, t: string)
    requires AtLine(s, code, t) && NulFree(t) && code[0] == '2' && SpeaksProtocol(t) && s.user.Some?
    ensures Sound(s.net) && Greet(s, true) == AuthOn(Versioned(s, t))
  {
    hide AuthOn, Memory, Sound, Holds, LentLine;
    VersionIs(t);
    hide Strtol, Version;
    SpeaksLocal(s, code, t);
  }

  lemma AuthRefused(s: State, s': State)
    requires s.user.Some? && s.pass.Some? && Sound(s.net) && s.net.up
    requires Ask(s, "user " + s.user.value) == (s', true)
    requires |s'.code| == 3 && s'.code[0] != '2' && s'.code[0] != '3'
    ensures AuthOn(s) == (s', false)
  {
    hide Ask, AskOn, Sound;
    AskWhenUp(s, "user " + s.user.value);
  }

  lemma GreetAsks(s: State, code: string, t: string, s': State)
    requires AtLine(s, code, t) && NulFree(t) && code[0] == '2' && SpeaksProtocol(t)
    requires s.user.Some? && s.pass.Some? && Sound(s.net)
    requires Ask(Versioned(s, t), "user " + s.user.value) == (s', true)
    requires |s'.code| == 3 && s'.code[0] != '2' && s'.code[0] != '3'
    ensures !Greet(s, true).1 && Greet(s, true).0 == s'
  {
    hide Greet, AuthOn, Ask, SpeaksProtocol, LentLine;
    GreetLogsIn(s, code, t);
    AuthRefused(Versioned(s, t), s');
  }

  /** How the left-over code comes about: when the server refuses the user name the
      handshake fails, and the code of the refusal stays behind. */
  lemma RefusedLoginLeavesCode(s: State, ls: seq<string>, code: string, ts: seq<string>,
      rest: string, ls': seq<string>, code': string, ts': seq<string>, rest': string)
    requires Greets(s, ls, code, ts, rest) && (s.code == "" || s.code == code)
    requires ts != [] && NulFree(ts[|ts| - 1]) && |code| == 3 && code[0] == '2'
    requires SpeaksProtocol(ts[|ts| - 1])
    requires s.user.Some? && s.pass.Some? && |s.user.value| < BUFLENLINE - 6
    requires s.net.env.sends == [] && s.net.env.peers[0].answers != []
    requires rest + s.net.env.peers[0].answers[0] == Unlines(ls') + rest'
    requires ReplyScript(ls', code', ts') && Clean(rest')
    requires |code'| == 3 && code'[0] != '2' && code'[0] != '3'
    ensures Sound(s.net) && !Open(s).1 && Open(s).0.code == code' && !Open(s).0.net.up
  {
    hide *;
    ContactingAwaits(s, ls, code, ts, rest);
    OpenUnfold(s);
    var s0, t := Contacting(s), ts[|ts| - 1];
    var n1 := RlastScript(s0, ls, code, ts, rest);
    FinishedAtLine(s0, n1, code, ls, t, rest);
    var s1 := Greeted(s, n1, code, ls, t);
    LoginAnswered(s, n1, ls, code, ts, rest, ls', code', ts', rest');
    var n2 := AskScript(s1, "user " + s.user.value, ls', code', ts', rest');
    HungUp(Finished(s1, n2, code', ls'));
    GreetedFields(s, n1, code, ls, t, n2, code', ls');
    GreetAsks(Finished(s0, n1, code, ls), code, t, Finished(s1, n2, code', ls'));
  }
}
