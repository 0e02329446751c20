/** Polling with handlers that issue commands of their own when a broadcast is dispatched. */
module Handlers {
  import opened CText
  import opened Wire
  import opened Protocol

  // ---------------------------------------------------- what reading leaves as it is

  /** Receiving and reading do not touch what the servers will do. */
  predicate SameSource(a: Net, b: Net) {
    && b.env.peers == a.env.peers && b.env.answers == a.env.answers
    && b.env.sends == a.env.sends && b.env.heard == a.env.heard
  }

  lemma {:induction false} FetchKeeps(n: Net)
    requires n.Ok() && LinesFit(Pending(n))
    ensures SameSource(n, Fetch(n).0)
    decreases Measure(n)
  {
    hide LinesFit, Pending, Cspn, Spn;
    TurnFits(n);
    var (n1, l) := GetLine(n);
    var (n2, ok) := Recv(n1);
    if l.None? && ok { FetchKeeps(n2); }
  }

  lemma {:induction false} RnextKeeps(s: State)
    requires Sound(s.net)
    ensures SameSource(s.net, Rnext(s).0.net) && Measure(Rnext(s).0.net) <= Measure(s.net)
    decreases Measure(s.net)
  {
    hide LinesFit, Fetch, Pending, WholeLines, AnswersSound, PeerSound;
    if s.inreply {
      SoundFits(s.net);
      FetchSound(s.net);
      FetchKeeps(s.net);
      var (n, l) := Fetch(s.net);
      if l.Some? && IsBcast(l.value) { RnextKeeps(Log(s.(net := n), Dispatched(l.value))); }
    }
  }

  lemma {:induction false} RlastKeeps(s: State)
    requires Sound(s.net)
    ensures SameSource(s.net, Rlast(s).0.net) && Measure(Rlast(s).0.net) <= Measure(s.net)
    decreases Measure(s.net)
  {
    hide Rnext;
    RnextKeeps(s);
    var (s1, r) := Rnext(s);
    if r == 0 { RlastKeeps(s1); }
  }

  /** `b` has no more to come than `a`: connections, answers, or bytes and lines. */
  predicate NoRise(a: Net, b: Net)
    requires a.Ok() && b.Ok()
  {
    || |b.env.peers| < |a.env.peers|
    || (|b.env.peers| == |a.env.peers|
        && (|b.env.answers| < |a.env.answers|
            || (|b.env.answers| == |a.env.answers| && Measure(b) <= Measure(a))))
  }

  lemma SendOnDescends(s: State, cmd: string)
    requires Sound(s.net)
    ensures NoRise(s.net, SendOn(s, cmd).0.net) && SendOn(s, cmd).0.net.env.peers == s.net.env.peers
  {
    hide WholeLines, AnswersSound, PeerSound;
    if !s.inreply && |cmd| <= BUFLENLINE - 1 {
      SendSound(s.net, cmd + "\n");
      SendOnSteps(s, cmd);
    }
  }

  lemma AskOnDescends(s: State, cmd: string)
    requires Sound(s.net)
    ensures NoRise(s.net, AskOn(s, cmd).0.net) && AskOn(s, cmd).0.net.env.peers == s.net.env.peers
  {
    hide Rlast, SendOn, WholeLines, AnswersSound, PeerSound;
    SendOnDescends(s, cmd);
    RlastKeeps(SendOn(s, cmd).0);
  }

  lemma GreetPeers(s: State, got: bool)
    requires Sound(s.net)
    ensures Greet(s, got).0.net.env.peers == s.net.env.peers
  {
    hide AskOn, WholeLines, AnswersSound, PeerSound;
    var (major, minor) := Version(Memory(s));
    var s1 := s.(vmajor := major, vminor := minor);
    if s.user.Some? && s.pass.Some? {
      AskOnDescends(s1, "user " + s.user.value);
      AskOnDescends(AskOn(s1, "user " + s.user.value).0, "pass " + s.pass.value);
    }
  }

  /** Connecting uses up one of the connections to come, or changes nothing. */
  lemma OpenDescends(s: State)
    requires Sound(s.net)
    ensures NoRise(s.net, Open(s).0.net)
    ensures Open(s).1 && !s.net.up ==> |Open(s).0.net.env.peers| < |s.net.env.peers|
  {
    hide Rlast, Greet, WholeLines, AnswersSound, PeerSound;
    if !s.net.up {
      ConnectSound(s.net);
      var (n, ok) := Connect(s.net);
      if ok {
        var s0 := s.(net := n, inreply := true, trace := s.trace + [Opened]);
        RlastKeeps(s0);
        var (s1, r) := Rlast(s0);
        GreetPeers(s1, r == 0);
      }
    }
  }

  lemma AskAfterOpen(s: State, cmd: string)
    requires Sound(s.net) && !s.net.up && !s.inreply
    ensures Ask(s, cmd) == if Open(s).1 then AskOn(Open(s).0, cmd) else (Open(s).0, false)
  {
    hide Open, Rlast;
  }

  lemma AskDescends(s: State, cmd: string)
    requires Sound(s.net)
    ensures NoRise(s.net, Ask(s, cmd).0.net)
  {
    if s.net.up {
      AskWhenUp(s, cmd);
      AskOnDescends(s, cmd);
    } else if !s.inreply {
      AskAfterOpen(s, cmd);
      OpenDescends(s);
      hide Open, AskOn, Ask;
      if Open(s).1 { AskOnDescends(Open(s).0, cmd); }
    }
  }

  // --------------------------------------------------------------- issuing commands

  /** What a command issued by a handler brought: its reply code and the final text. */
  datatype Told = Told(cmd: string, ok: bool, code: string, text: string)

  function ToldOf(cmd: string, r: (State, bool)): Told {
    Told(cmd, r.1, r.0.code, CStr(Memory(r.0)))
  }

  /** Issues the commands one after the other. */
  function Issued(s: State, cmds: seq<string>, told: seq<Told>): (r: (State, seq<Told>))
    requires Sound(s.net)
    ensures Sound(r.0.net)
    decreases |cmds|
  {
    if cmds == [] then (s, told)
    else
      var r := Ask(s, cmds[0]);
      Issued(r.0, cmds[1..], told + [ToldOf(cmds[0], r)])
  }

  lemma IssuedStep(s: State, cmds: seq<string>, i: nat, told: seq<Told>)
    requires Sound(s.net) && i < |cmds|
    ensures Sound(Ask(s, cmds[i]).0.net)
    ensures Issued(s, cmds[i..], told)
            == Issued(Ask(s, cmds[i]).0, cmds[i + 1..], told + [ToldOf(cmds[i], Ask(s, cmds[i]))])
  {
    hide Ask, ToldOf;
    assert cmds[i..][1..] == cmds[i + 1..];
  }

  lemma IssuedAll(s: State, cmds: seq<string>, told: seq<Told>)
    requires Sound(s.net)
    ensures Issued(s, cmds[|cmds|..], told) == (s, told)
  {
  }

  lemma {:induction false} IssuedDescends(s: State, cmds: seq<string>, told: seq<Told>)
    requires Sound(s.net)
    ensures NoRise(s.net, Issued(s, cmds, told).0.net)
    decreases |cmds|
  {
    hide Ask;
    if cmds != [] {
      AskDescends(s, cmds[0]);
      var r := Ask(s, cmds[0]);
      IssuedDescends(r.0, cmds[1..], told + [ToldOf(cmds[0], r)]);
    }
  }

  // ------------------------------------------------------------------------- polling

  /** Which commands the handlers issue for a broadcast line. */
  type Reactions = string -> seq<string>

  function Reacted(s: State, on: Reactions, l: string, told: seq<Told>): (r: (State, seq<Told>))
    requires Sound(s.net) && l != ""
    ensures Sound(r.0.net)
  {
    var s1 := Log(s, PollEvent(l));
    if l[0] == '6' then Issued(s1, on(l), told) else (s1, told)
  }

  lemma ReactedDescends(s: State, on: Reactions, l: string, told: seq<Told>)
    requires Sound(s.net) && l != ""
    ensures NoRise(s.net, Reacted(s, on, l, told).0.net)
  {
    hide Issued;
    if l[0] == '6' { IssuedDescends(Log(s, PollEvent(l)), on(l), told); }
  }

  /** Handles the complete lines in the buffer, and those that come in with the replies to
      the commands of the handlers. */
  function PollLinesWith(s: State, on: Reactions, told: seq<Told>): (r: (State, seq<Told>))
    requires Sound(s.net)
    ensures Sound(r.0.net)
    decreases |s.net.env.peers|, |s.net.env.answers|, Measure(s.net)
  {
    PollTurn(s);
    var (n, l) := GetLine(s.net);
    DisconnectSound(n);
    var s1 := s.(net := n);
    if l.None? then (s1, told)
    else if |l.value| < 4 then (Close(Log(s1, Rejected(l.value))), told)
    else
      ReactedDescends(s1, on, l.value, told);
      var (s2, told2) := Reacted(s1, on, l.value, told);
      PollLinesWith(s2, on, told2)
  }

  /** `b` has less to come than `a`. */
  predicate Falls(b: Net, a: Net)
    requires a.Ok() && b.Ok()
  {
    || |b.env.peers| < |a.env.peers|
    || (|b.env.peers| == |a.env.peers|
        && (|b.env.answers| < |a.env.answers|
            || (|b.env.answers| == |a.env.answers| && Measure(b) < Measure(a))))
  }

  /** One turn of the loop. */
  lemma PollTurnWith(s: State, on: Reactions, told: seq<Told>)
    requires Sound(s.net)
    ensures Splittable(s.net) && Sound(GetLine(s.net).0)
    ensures var (n, l) := GetLine(s.net);
            var s1 := s.(net := n);
            && (l.None? ==> PollLinesWith(s, on, told) == (s1, told))
            && (l.Some? && |l.value| < 4 ==>
                  PollLinesWith(s, on, told) == (Close(Log(s1, Rejected(l.value))), told))
            && (l.Some? && |l.value| >= 4 ==>
                  var (s2, told2) := Reacted(s1, on, l.value, told);
                  && Falls(s2.net, s.net)
                  && PollLinesWith(s, on, told) == PollLinesWith(s2, on, told2))
  {
    hide Reacted, Issued;
    PollTurn(s);
    var (n, l) := GetLine(s.net);
    if l.Some? && |l.value| >= 4 { ReactedDescends(s.(net := n), on, l.value, told); }
  }

  /** Receives once and handles the lines. */
  function PollWith(s: State, on: Reactions): (r: (State, seq<Told>))
    requires Sound(s.net)
    ensures Sound(r.0.net)
  {
    var (s1, ok) := Open(s);
    if !ok then (s1, [])
    else
      RecvSound(s1.net);
      var (n, got) := Recv(s1.net);
      DisconnectSound(n);
      var s2 := s1.(net := n);
      PollLinesWith(if got then s2 else Close(s2), on, [])
  }

  /** Handlers that issue no commands. */
  function Silent(): Reactions { _ => [] }

  lemma {:induction false} SilentLines(s: State, told: seq<Told>)
    requires Sound(s.net)
    ensures PollLinesWith(s, Silent(), told) == (PollLines(s), told)
    decreases Measure(s.net)
  {
    PollTurn(s);
    PollTurnWith(s, Silent(), told);
    var (n, l) := GetLine(s.net);
    if l.Some? && |l.value| >= 4 { SilentLines(Log(s.(net := n), PollEvent(l.value)), told); }
  }

  /** A poll whose handlers only look is the poll without handlers. */
  lemma SilentPoll(s: State)
    requires Sound(s.net)
    ensures PollWith(s, Silent()) == (Poll(s), [])
  {
    hide PollLinesWith, PollLines, Open, Recv;
    var (s1, ok) := Open(s);
    if ok {
      RecvSound(s1.net);
      var (n, got) := Recv(s1.net);
      DisconnectSound(n);
      var s2 := s1.(net := n);
      SilentLines(if got then s2 else Close(s2), []);
    }
  }

  /** Every command fits the buffer it is sent from. */
  ghost predicate Polite(on: Reactions) {
    forall l: string, i: nat | i < |on(l)| :: Sendable(on(l)[i])
  }
}
