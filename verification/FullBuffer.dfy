/** A session whose receive buffer is full between two replies: the poll that the next input
    causes has no room to receive it, takes that for the end of the stream, and disconnects. */
module FullBuffer {
  import opened CText
  import opened Wire
  import opened Protocol
  import opened Replies
  import opened Pairing

  /** The reply to a command. */
  const REPLY: string := "200 ok"

  /** A broadcast that fills the buffer behind the reply. */
  function Filler(): string { ['6'] + seq(BUFLENRCV - 10, _ => 'x') }

  function Reaction(): Exchange { Exchange([REPLY], "200", ["ok"], [Filler()]) }

  /** Connected, between replies, with nothing received yet. */
  function Quiet(): State {
    State(Net(true, "", 0, Env("", [], None, false, "", [Bytes(Reaction())], [], [], [])),
          None, None, 0, 0, false, "", None, [])
  }

  lemma ReactionProper()
    ensures Proper(Reaction()) && Bytes(Reaction()) == REPLY + "\n" + (Filler() + "\n")
    ensures WholeLines(Bytes(Reaction())) && IsBcast(Filler()) && Unbroken(Filler())
  {
    var e, b := Reaction(), Filler();
    assert e.ls[0] == "200" + " " + "ok";
    assert WellFormed(REPLY) && !IsBcast(REPLY) && IsBcast(b);
    UnlinesOne(REPLY);
    UnlinesOne(b);
    LineWhole(REPLY);
    LineWhole(b);
    WholeConcat(REPLY + "\n", b + "\n");
  }

  lemma QuietIdle()
    ensures Idle(Quiet(), [], [Reaction()])
  {
    hide Proper, WholeLines, Bytes;
    ReactionProper();
    EmptyWhole();
    var s := Quiet();
    assert Written([Reaction()]) == [Bytes(Reaction())];
    assert Unread(s.net) + s.net.env.wire == "";
    assert Unlines([]) == "";
  }

  /** The network while the reply is received: everything arrives at once. */
  lemma ReceivedAtOnce(n: Net, w: string)
    requires n.Ok() && n.up && n.held == "" && n.llen == 0 && n.env.wire == w
    requires |w| == BUFLENRCV - 1 && n.env.pace == [] && n.env.quota.None?
    ensures Splittable(n) && GetLine(n) == (n, None)
    ensures Recv(n) == (n.(held := w, env := Delivered(n.env, |w|)), true)
  {
    assert w[..|w|] == w && "" + w == w;
  }

  lemma FirstLine(n: Net, l: string, rest: string)
    requires n.Ok() && n.held == l + "\n" + rest && n.llen == 0
    requires Unbroken(l) && rest != "" && !IsEol(rest[0])
    ensures Splittable(n)
    ensures GetLine(n) == (n.(held := n.held[|l| := NUL], llen := |l| + 1), Some(l))
  {
    var h := n.held;
    assert h[..|l|] == l && h[|l|] == '\n' && h[|l| + 1..] == rest;
    CspnIs(h, |l|);
    SpnIs(rest, 0);
  }

  lemma FillerSize()
    ensures |Bytes(Reaction())| == BUFLENRCV - 1
    ensures Filler() + "\n" != "" && !IsEol((Filler() + "\n")[0])
  {
    ReactionProper();
  }

  lemma ReplyTaken(s: State)
    requires Sound(s.net) && s.inreply && s.code == "" && Splittable(s.net)
    requires |s.net.held| == BUFLENRCV - 1
    requires GetLine(s.net) == (s.net.(held := s.net.held[6 := NUL], llen := 7), Some(REPLY))
    ensures Rnext(s).1 == 0 && !Rnext(s).0.inreply && Room(Rnext(s).0.net) == 0
  {
    hide Rnext, GetLine, Sound, Splittable;
    RnextTakes(s);
    assert REPLY[3] == ' ';
  }

  lemma AskedNet(cmd: string)
    requires |cmd| < BUFLENLINE - 1
    ensures Sound(Quiet().net) && Ask(Quiet(), cmd).0.net.Ok() && Room(Ask(Quiet(), cmd).0.net) == 0
  {
    var s, w := Quiet(), Bytes(Reaction());
    QuietIdle();
    ReactionProper();
    IdleParts(s, [], [Reaction()]);
    hide Idle, Bytes, Filler, WholeLines, AnswersSound, PeerSound, Rlast, Rnext;
    hide GetLine, Recv, Splittable, IsBcast, Open;
    VsendWhenReady(s, cmd);
    SentPending(s, cmd);
    AskUnfold(s, cmd);
    var a := AfterSend(s, cmd);
    assert a.net.env.wire == w by { assert "" + w == w; }
    FillerSize();
    ReceivedAtOnce(a.net, w);
    RnextWaits(a);
    var n2 := Recv(a.net).0;
    var s2 := a.(net := n2);
    FirstLine(n2, REPLY, Filler() + "\n");
    ReplyTaken(s2);
    var s3 := Rnext(s2).0;
    RlastUnfold(a);
    RlastUnfold(s3);
  }

  /** The state after one command: its reply was taken, and the broadcast behind it fills the
      buffer up. */
  lemma {:induction false} AskFills(cmd: string) returns (s1: State)
    requires |cmd| < BUFLENLINE - 1
    ensures Sound(Quiet().net) && s1 == Ask(Quiet(), cmd).0
    ensures Idle(s1, [Filler()], []) && Room(s1.net) == 0
  {
    var s, e := Quiet(), Reaction();
    QuietIdle();
    ReactionProper();
    var n1 := AskIdle(s, cmd, [], [e]);
    s1 := Ask(s, cmd).0;
    assert [e][1..] == [];
    AskedNet(cmd);
  }

  /** The next broadcast arrives, there is something to receive, and the poll that is due
      closes the connection, with both broadcasts lost. */
  lemma FullBufferDropped(cmd: string, b: string)
    requires |cmd| < BUFLENLINE - 1 && IsBcast(b) && Unbroken(b) && |b| < BUFLENRCV - 1
    ensures Idle(Quiet(), [], [Reaction()]) && Sound(Quiet().net)
    ensures var s := Announced(Ask(Quiet(), cmd).0, b);
            && Idle(s, [Filler(), b], []) && Sound(s.net) && s.net.env.wire != ""
            && !Poll(s).net.up && Poll(s).trace == s.trace + [Disconnected]
  {
    ReactionProper();
    QuietIdle();
    var s1 := AskFills(cmd);
    hide Idle, Poll, Ask, Filler, Quiet, Reaction, Bytes, Sound, IsBcast, Unbroken, Proper, WholeLines;
    IdleAnnounced(s1, b, [Filler()], []);
    assert [Filler()] + [b] == [Filler(), b];
    IdleParts(Announced(s1, b), [Filler(), b], []);
    var k := PollIdle(Announced(s1, b), [Filler(), b], []);
  }
}
