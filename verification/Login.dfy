/** Connecting with credentials: after the login the session is between replies. */
module Login {
  import opened CText
  import opened Wire
  import opened Protocol
  import opened Replies
  import opened Handshake
  import opened Pairing

  lemma SuccIdle(s: State, cmd: string, bs: seq<string>, es: seq<Exchange>)
    requires Idle(s, bs, es) && es != [] && |cmd| < BUFLENLINE - 1
    ensures Sound(s.net) && |es[0].code| == 3
    ensures SuccOn(s, cmd).1 <==> es[0].code[0] == '2' || es[0].code[0] == '3'
    ensures Idle(SuccOn(s, cmd).0, es[0].after, es[1..])
    ensures var s1 := SuccOn(s, cmd).0;
            && s1.code == es[0].code && s1.net.env.heard == s.net.env.heard + [cmd + "\n"]
            && s1.trace == s.trace + Events(bs + es[0].ls)
            && Kept(s, s1) && s1.vmajor == s.vmajor && s1.vminor == s.vminor
  {
    hide Idle, Ask, AskOn, AtLine, SuccResult, Events;
    IdleParts(s, bs, es);
    IdleText(s, bs, es);
    AskWhenUp(s, cmd);
    AskHeard(s, cmd, bs, es);
    var n1 := AskIdle(s, cmd, bs, es);
    WrapperResults(Ask(s, cmd).0, es[0].code, es[0].ts[|es[0].ts| - 1]);
  }

  /** Both login commands fit the command buffer. */
  predicate ShortLogin(s: State) {
    && s.user.Some? && |"user " + s.user.value| < BUFLENLINE - 1
    && s.pass.Some? && |"pass " + s.pass.value| < BUFLENLINE - 1
  }

  lemma ReactionCodes(s: State, bs: seq<string>, es: seq<Exchange>)
    requires Idle(s, bs, es)
    ensures forall i | 0 <= i < |es| :: |es[i].code| == 3
  {
    forall i | 0 <= i < |es| ensures |es[i].code| == 3 {
      assert Proper(es[i]);
      ScriptCode(es[i].ls, es[i].code, es[i].ts);
    }
  }

  /** What a login with the name `user` and the password `pass` comes to, from the session `s`
      to the session `s1`, when the server reacts with `es`: it hears the name, and if it
      accepts that one, the password; the reactions to what it hears are used up; and the login
      works if and only if it accepts both. */
  ghost predicate LoggedIn(s: State, user: string, pass: string, bs: seq<string>, es: seq<Exchange>,
                           s1: State, ok: bool) {
    && |es| >= 2 && |es[0].code| == |es[1].code| == 3
    && s1.vmajor == s.vmajor && s1.vminor == s.vminor
    && if es[0].code[0] == '2' || es[0].code[0] == '3' then
         && (ok <==> es[1].code[0] == '2' || es[1].code[0] == '3')
         && s1.code == es[1].code
         && s1.net.env.heard == s.net.env.heard + ["user " + user + "\n", "pass " + pass + "\n"]
         && s1.trace == s.trace + Events(bs + es[0].ls) + Events(es[0].after + es[1].ls)
       else
         && !ok && s1.code == es[0].code
         && s1.net.env.heard == s.net.env.heard + ["user " + user + "\n"]
         && s1.trace == s.trace + Events(bs + es[0].ls)
  }

  lemma AuthIdle(s: State, bs: seq<string>, es: seq<Exchange>)
    requires Idle(s, bs, es) && |es| >= 2 && ShortLogin(s)
    ensures Sound(s.net)
    ensures LoggedIn(s, s.user.value, s.pass.value, bs, es, AuthOn(s).0, AuthOn(s).1)
    ensures AuthOn(s).1 ==> Idle(AuthOn(s).0, es[1].after, es[2..])
  {
    hide Idle, SuccOn, Events;
    ReactionCodes(s, bs, es);
    var user, pass := "user " + s.user.value, "pass " + s.pass.value;
    SuccIdle(s, user, bs, es);
    if es[0].code[0] == '2' || es[0].code[0] == '3' {
      SuccIdle(SuccOn(s, user).0, pass, es[0].after, es[1..]);
      assert es[1..][1..] == es[2..] && es[1..][0] == es[1];
      assert [user + "\n"] + [pass + "\n"] == [user + "\n", pass + "\n"];
      Assoc(s.net.env.heard, [user + "\n"], [pass + "\n"]);
    }
  }

  /** The end of the handshake adds nothing to that but the connect handler. */
  lemma HandshakeEnds(s: State, user: string, pass: string, bs: seq<string>, es: seq<Exchange>,
                      s1: State, ok: bool, r: (State, bool))
    requires LoggedIn(s, user, pass, bs, es, s1, ok)
    requires r == if ok then (Log(s1, Connected), true) else (Hangup(s1), false)
    ensures LoggedIn(s, user, pass, bs, es, r.0.(trace := s1.trace), r.1)
    ensures r.1 == ok && r.0.trace == s1.trace + (if ok then [Connected] else [])
    ensures !ok ==> !r.0.net.up
  {
    hide Events;
    LeftByHangup(s1);
  }

  lemma IdleGreeted(s: State, n: Net, ls: seq<string>, code: string, ts: seq<string>,
                    bs: seq<string>, es: seq<Exchange>, t: string)
    requires Greets(s, ls, code, ts, Unlines(bs)) && AllBcasts(bs)
    requires s.net.env.peers[0].answers == Written(es) && s.net.env.sends == []
    requires forall i | 0 <= i < |es| :: Proper(es[i])
    requires Consumed(Contacting(s), n, Unlines(bs))
    ensures Idle(Versioned(Finished(Contacting(s), n, code, ls), t), bs, es)
  {
    hide ReplyScript, Unlines, Events, Proper, Version;
    assert n.env.answers == Contacting(s).net.env.answers == Written(es);
  }

  lemma IdleLogged(s: State, bs: seq<string>, es: seq<Exchange>)
    requires Idle(s, bs, es)
    ensures Idle(Log(s, Connected), bs, es)
  {
    hide Sound, Unlines, Proper, Written;
  }

  lemma FinishedUser(s: State, n: Net, code: string, ls: seq<string>)
    ensures Finished(Contacting(s), n, code, ls).user == s.user
  {
  }

  /** With a user name, opening the connection comes to logging in once the hello was read. */
  lemma {:induction false} OpenLogsIn(s: State, ls: seq<string>, code: string, ts: seq<string>,
      bs: seq<string>, es: seq<Exchange>) returns (greeted: State)
    requires Greets(s, ls, code, ts, Unlines(bs)) && AllBcasts(bs)
    requires s.net.env.peers[0].answers == Written(es) && s.net.env.sends == []
    requires forall i | 0 <= i < |es| :: Proper(es[i])
    requires s.code == "" || s.code == code
    requires |code| == 3 && code[0] == '2' && ts != [] && NulFree(ts[|ts| - 1])
    requires SpeaksProtocol(ts[|ts| - 1]) && s.user.Some?
    ensures Sound(s.net) && Idle(greeted, bs, es) && Sound(greeted.net)
    ensures greeted.user == s.user && greeted.pass == s.pass && greeted.net.env.heard == []
    ensures greeted.trace == s.trace + [Opened] + Events(ls) && greeted.vmajor == 1
    ensures greeted.vminor == Strtol(ts[|ts| - 1], Strtol(ts[|ts| - 1], 5).end).value
    ensures var (s2, ok) := AuthOn(greeted);
            Open(s) == if ok then (Log(s2, Connected), true) else (Hangup(s2), false)
  {
    hide *;
    BcastsClean(bs);
    ContactingAwaits(s, ls, code, ts, Unlines(bs));
    OpenUnfold(s);
    var s0, t := Contacting(s), ts[|ts| - 1];
    var n1 := RlastScript(s0, ls, code, ts, Unlines(bs));
    var s1 := Finished(s0, n1, code, ls);
    FinishedAtLine(s0, n1, code, ls, t, Unlines(bs));
    FinishedUser(s, n1, code, ls);
    GreetLogsIn(s1, code, t);
    IdleGreeted(s, n1, ls, code, ts, bs, es, t);
    JustGreeted(s, n1, ls, code, t, Unlines(bs));
    greeted := Versioned(s1, t);
    IdleParts(greeted, bs, es);
  }

  lemma SameLogin(s: State, s': State)
    requires ShortLogin(s) && s'.user == s.user && s'.pass == s.pass
    ensures ShortLogin(s')
  {
  }

  lemma HasLogin(s: State)
    requires ShortLogin(s)
    ensures s.user.Some? && s.pass.Some?
  {
  }

  /** Connecting with credentials to a server that greets properly succeeds if and only if
      it accepts the name and the password. The server hears the name, and the password only
      if it accepts the name. Then the connect handler runs, the version is that of the
      greeting, and the session is between replies. If the server refuses, the connection is
      down, no handler of a connection runs, and the code of the refusal is left. */
  lemma {:induction false} LoggedInIdle(s: State, ls: seq<string>, code: string, ts: seq<string>,
      bs: seq<string>, es: seq<Exchange>) returns (greeted: State, handled: seq<Event>)
    requires Greets(s, ls, code, ts, Unlines(bs)) && AllBcasts(bs)
    requires s.net.env.peers[0].answers == Written(es) && s.net.env.sends == []
    requires (forall i | 0 <= i < |es| :: Proper(es[i])) && |es| >= 2
    requires s.code == "" || s.code == code
    requires |code| == 3 && code[0] == '2' && ts != [] && NulFree(ts[|ts| - 1])
    requires SpeaksProtocol(ts[|ts| - 1]) && ShortLogin(s)
    ensures Sound(s.net) && greeted.net.env.heard == [] && greeted.vmajor == 1
    ensures greeted.vminor == Strtol(ts[|ts| - 1], Strtol(ts[|ts| - 1], 5).end).value
    ensures greeted.trace == s.trace + [Opened] + Events(ls)
    ensures var (s1, ok) := Open(s);
            && LoggedIn(greeted, s.user.value, s.pass.value, bs, es, s1.(trace := handled), ok)
            && s1.trace == handled + (if ok then [Connected] else [])
            && if ok then Idle(s1, es[1].after, es[2..]) else !s1.net.up
  {
    HasLogin(s);
    hide *;
    greeted := OpenLogsIn(s, ls, code, ts, bs, es);
    SameLogin(s, greeted);
    AuthIdle(greeted, bs, es);
    var s2 := AuthOn(greeted).0;
    handled := s2.trace;
    HandshakeEnds(greeted, s.user.value, s.pass.value, bs, es, s2, AuthOn(greeted).1, Open(s));
    if Open(s).1 { IdleLogged(s2, es[1].after, es[2..]); }
  }

  lemma NoLogin(s: State)
    requires Sound(s.net) && s.pass.None?
    ensures AuthOn(s) == (s, false)
  {
  }

  /** With a user name but no password the connection is given up, and nothing is sent. */
  lemma NoPasswordFails(s: State, ls: seq<string>, code: string, ts: seq<string>,
                        bs: seq<string>, es: seq<Exchange>)
    requires Greets(s, ls, code, ts, Unlines(bs)) && AllBcasts(bs)
    requires s.net.env.peers[0].answers == Written(es) && s.net.env.sends == []
    requires forall i | 0 <= i < |es| :: Proper(es[i])
    requires s.code == "" || s.code == code
    requires |code| == 3 && code[0] == '2' && ts != [] && NulFree(ts[|ts| - 1])
    requires SpeaksProtocol(ts[|ts| - 1]) && s.user.Some? && s.pass.None?
    ensures Sound(s.net)
    ensures var (s1, ok) := Open(s);
            !ok && !s1.net.up && s1.net.env.heard == [] && s1.trace == s.trace + [Opened] + Events(ls)
  {
    hide *;
    var greeted := OpenLogsIn(s, ls, code, ts, bs, es);
    NoLogin(greeted);
    LeftByHangup(greeted);
  }
}
