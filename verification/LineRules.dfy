/** What becomes of every possible line: inside a reply, and between replies. */
module LineRules {
  import opened CText
  import opened Wire
  import opened Framing
  import opened Protocol
  import opened Replies

  // ------------------------------------------------------------------ inside a reply

  /** The session after its connection was given up because of a line or a failed send. */
  predicate GivenUp(s: State) { !s.net.up && !s.inreply && s.code == "" && s.line == None }

  lemma ClosedIs(s: State)
    ensures GivenUp(Close(s)) && Close(s).trace == s.trace + [Disconnected]
    ensures Close(s).net.env.heard == s.net.env.heard
  {
  }

  lemma IsSix(l: string)
    ensures IsBcast(l) <==> |l| >= 4 && l[0] == '6'
  {
  }

  lemma Accepted(s: State, l: string)
    ensures var (s1, r) := Accept(s, l);
            if |l| >= 4 && (s.code == "" || s.code == l[..3]) then
              && r == 0 && s1.net == s.net && s1.line == Some(4) && s1.code == l[..3]
              && (s1.inreply <==> l[3] == '-') && s1.trace == s.trace + [Reply(l)]
            else
              r == -1 && GivenUp(s1) && s1.trace == s.trace + [Rejected(l), Disconnected]
  {
    assert s.trace + [Rejected(l)] + [Disconnected] == s.trace + [Rejected(l), Disconnected];
  }

  lemma RnextFetched(s: State, n: Net, l: string)
    requires Sound(s.net) && s.inreply && LinesFit(Pending(s.net)) && Fetch(s.net) == (n, Some(l)) && Sound(n)
    ensures Rnext(s) == if IsBcast(l) then Rnext(Log(s.(net := n), Dispatched(l))) else Accept(s.(net := n), l)
  {
    hide Fetch, Accept, Log, Close, WholeLines, AnswersSound, PeerSound, LinesFit, Pending;
  }

  /** The next line of a reply. A broadcast is dispatched, and reading goes on. Any other line
      of four or more characters is a reply line if its code is that of the lines before it;
      the reply is over unless a minus follows the code. Everything else, also a line that is
      too short to hold a code, ends the connection. */
  lemma {:induction false} ReplyLineRule(s: State, l: string, rest: string) returns (n: Net)
    requires Sound(s.net) && s.inreply && Unbroken(l) && Clean(rest)
    requires Pending(s.net) == l + "\n" + rest
    ensures Sound(n) && Moved(s.net, n) && n.up && Pending(n) == rest
    ensures var (s1, r) := Rnext(s);
            if |l| >= 4 && l[0] == '6' then
              Rnext(s) == Rnext(Log(s.(net := n), Dispatched(l)))
            else if |l| >= 4 && (s.code == "" || s.code == l[..3]) then
              && r == 0 && s1.net == n && LentLine(n, l) && s1.line == Some(4) && s1.code == l[..3]
              && (s1.inreply <==> l[3] == '-') && s1.trace == s.trace + [Reply(l)]
            else
              r == -1 && GivenUp(s1) && s1.trace == s.trace + [Rejected(l), Disconnected]
  {
    hide *;
    SoundFits(s.net);
    n := FetchNext(s.net, l, rest);
    RnextFetched(s, n, l);
    Accepted(s.(net := n), l);
    IsSix(l);
  }

  // ----------------------------------------------------------------- between replies

  /** What a poll notes about a line: a broadcast for its handler, or a stray line. */
  function Noted(l: string): Event { if l != "" && l[0] == '6' then Dispatched(l) else Stray(l) }

  function AllNoted(ls: seq<string>): seq<Event> {
    if ls == [] then [] else [Noted(ls[0])] + AllNoted(ls[1..])
  }

  predicate LongLine(l: string) { |l| >= 4 && Unbroken(l) }

  lemma BufferedFirst(n: Net, l: string, rest: string)
    requires n.Ok() && Unread(n) == l + "\n" + rest && Unbroken(l) && Clean(rest)
    ensures Splittable(n)
    ensures var (n1, r) := GetLine(n);
            r == Some(l) && Unread(n1) == rest && n1.env == n.env && n1.up == n.up
  {
    var h := Unread(n);
    assert h[..|l|] == l && h[|l|] == '\n' && h[|l| + 1..] == rest;
    CspnIs(h, |l|);
    SpnIs(rest, 0);
    LineTaken(n);
    assert h[|l| := NUL][|l| + 1..] == rest;
  }

  lemma BufferedNone(n: Net)
    requires n.Ok() && Splittable(n) && NoEnd(Unread(n))
    ensures var (n1, r) := GetLine(n);
            r == None && Unread(n1) == Unread(n) && n1.env == n.env && n1.up == n.up
  {
    CspnIs(Unread(n), |Unread(n)|);
  }

  lemma LinesClean(ls: seq<string>, tail: string)
    requires (forall i | 0 <= i < |ls| :: LongLine(ls[i])) && NoEnd(tail)
    ensures Clean(Unlines(ls) + tail)
  {
    if ls != [] { assert (Unlines(ls) + tail)[0] == ls[0][0]; }
  }

  lemma ReadOn(a: seq<Event>, ls: seq<string>)
    requires ls != []
    ensures a + [Noted(ls[0])] + AllNoted(ls[1..]) == a + AllNoted(ls)
  {
  }

  /** Handling the buffer between replies: every complete line in it is handed to its handler
      if it is a broadcast, and skipped otherwise. The unfinished text at the end stays, and
      nothing else changes. */
  lemma {:induction false} PollHandles(s: State, ls: seq<string>, tail: string)
    requires Sound(s.net) && (forall i | 0 <= i < |ls| :: LongLine(ls[i])) && NoEnd(tail)
    requires Unread(s.net) == Unlines(ls) + tail
    ensures var s1 := PollLines(s);
            && s1 == s.(net := s1.net, trace := s.trace + AllNoted(ls))
            && Sound(s1.net) && Unread(s1.net) == tail && s1.net.up == s.net.up && s1.net.env == s.net.env
    decreases |ls|
  {
    hide Sound, PollLines, GetLine, Unread, Splittable, Measure;
    SoundFits(s.net);
    PollTurn(s);
    if ls == [] {
      assert Unlines(ls) + tail == tail;
      BufferedNone(s.net);
      assert s.trace + [] == s.trace;
    } else {
      var rest := Unlines(ls[1..]) + tail;
      assert Unlines(ls) + tail == ls[0] + "\n" + rest;
      assert LongLine(ls[0]);
      LinesClean(ls[1..], tail);
      BufferedFirst(s.net, ls[0], rest);
      ReadOn(s.trace, ls);
      PollHandles(Log(s.(net := GetLine(s.net).0), PollEvent(ls[0])), ls[1..], tail);
    }
  }

  lemma RestClean(ls: seq<string>, bad: string, t: string)
    requires (forall i | 0 <= i < |ls| :: LongLine(ls[i])) && bad != "" && Unbroken(bad)
    requires |t| > 0 && t[0] == bad[0]
    ensures Clean(Unlines(ls) + t)
  {
    if ls != [] {
      assert LongLine(ls[0]);
      assert (Unlines(ls) + t)[0] == ls[0][0];
    }
  }

  /** A line too short for a code ends that: the lines before it are handled, the connection is
      closed, and what follows it is dropped. */
  lemma {:induction false} PollGivesUp(s: State, ls: seq<string>, bad: string, more: string)
    requires Sound(s.net) && (forall i | 0 <= i < |ls| :: LongLine(ls[i]))
    requires Unread(s.net) == Unlines(ls) + (bad + "\n" + more) && Clean(more)
    requires 0 < |bad| < 4 && Unbroken(bad)
    ensures GivenUp(PollLines(s))
    ensures PollLines(s).trace == s.trace + AllNoted(ls) + [Rejected(bad), Disconnected]
    decreases |ls|
  {
    hide Sound, PollLines, GetLine, Unread, Splittable, Measure;
    SoundFits(s.net);
    PollTurn(s);
    var t := bad + "\n" + more;
    if ls == [] {
      assert Unlines(ls) + t == t;
      BufferedFirst(s.net, bad, more);
      ClosedIs(Log(s.(net := GetLine(s.net).0), Rejected(bad)));
      assert s.trace + [Rejected(bad)] + [Disconnected] == s.trace + [] + [Rejected(bad), Disconnected];
    } else {
      var rest := Unlines(ls[1..]) + t;
      assert Unlines(ls) + t == ls[0] + "\n" + rest;
      assert LongLine(ls[0]);
      RestClean(ls[1..], bad, t);
      BufferedFirst(s.net, ls[0], rest);
      ReadOn(s.trace, ls);
      PollGivesUp(Log(s.(net := GetLine(s.net).0), PollEvent(ls[0])), ls[1..], bad, more);
    }
  }

  // ------------------------------------------------------------------------- sending

  /** A command that is too long is refused on a connection, and nothing changes. */
  lemma LongCommandRefused(s: State, cmd: string)
    requires Sound(s.net) && s.net.up && |cmd| > 2047
    ensures Vsend(s, cmd) == (s, false) && Ask(s, cmd) == (s, false)
  {
  }

  /** A send that fails closes the connection; the server has not heard the command. */
  lemma FailedSendCloses(s: State, cmd: string)
    requires Sound(s.net) && s.net.up && !s.inreply && |cmd| <= 2046
    requires s.net.env.sends != [] && !s.net.env.sends[0]
    ensures var (s1, ok) := Ask(s, cmd);
            !ok && GivenUp(s1) && s1.trace == s.trace + [Disconnected] && s1.net.env.heard == s.net.env.heard
  {
    hide WholeLines, AnswersSound, PeerSound, Rlast;
    SendOnSteps(s, cmd);
  }
}
