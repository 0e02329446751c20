/** What every call keeps: the reply state agrees with the connection, and every received
    byte is accounted for by exactly one line event or is still in the buffer. */
module Invariants {
  import opened CText
  import opened Wire
  import opened Framing
  import opened Protocol

  // ------------------------------------------------------- accounting for the bytes

  predicate EndedBy(p: string, l: string, e: string, q: string) {
    && p == l + e + q && Unbroken(l)
    && e != "" && IsTerm(e[0]) && forall i | 1 <= i < |e| :: IsEol(e[i])
  }

  /** Taking the line `l` off `p` leaves `q`: the line is followed by a terminator and any
      number of end-of-line characters. */
  ghost predicate TakesOff(p: string, l: string, q: string) {
    exists e: string :: EndedBy(p, l, e, q)
  }

  /** Taking the lines `ls` off `p`, in order, leaves `q`. */
  ghost predicate Splits(p: string, ls: seq<string>, q: string)
    decreases |ls|
  {
    if ls == [] then p == q
    else
      var init, last := ls[..|ls| - 1], ls[|ls| - 1];
      exists m: string :: TakesOff(m, last, q) && Splits(p, init, m)
  }

  /** The bytes received so far are the lines `ls` and then what is unread. */
  ghost predicate Accounted(n: Net, ls: seq<string>) {
    n.Ok() && Splits(n.env.received, ls, Unread(n))
  }

  lemma TakesOffMore(p: string, l: string, q: string, x: string)
    requires TakesOff(p, l, q)
    ensures TakesOff(p + x, l, q + x)
  {
    var e: string :| EndedBy(p, l, e, q);
    assert EndedBy(p + x, l, e, q + x);
  }

  lemma {:induction false} SplitsMore(p: string, ls: seq<string>, q: string, x: string)
    requires Splits(p, ls, q)
    ensures Splits(p + x, ls, q + x)
    decreases |ls|
  {
    if ls != [] {
      var m: string :| TakesOff(m, ls[|ls| - 1], q) && Splits(p, ls[..|ls| - 1], m);
      SplitsMore(p, ls[..|ls| - 1], m, x);
      TakesOffMore(m, ls[|ls| - 1], q, x);
    }
  }

  lemma SplitsOneMore(p: string, ls: seq<string>, m: string, l: string, q: string)
    requires Splits(p, ls, m) && TakesOff(m, l, q)
    ensures Splits(p, ls + [l], q)
  {
    assert (ls + [l])[..|ls|] == ls && (ls + [l])[|ls|] == l;
  }

  lemma RecvAccounted(n: Net, ls: seq<string>)
    requires Accounted(n, ls) && Recv(n).0.up
    ensures Accounted(Recv(n).0, ls)
  {
    var (n1, ok) := Recv(n);
    if ok {
      var x := n.env.wire[..Arriving(n)];
      SplitsMore(n.env.received, ls, Unread(n), x);
      assert Unread(n1) == Unread(n) + x;
    }
  }

  lemma LineEnded(h: string)
    requires Cspn(h) < |h|
    ensures var k := Cspn(h);
            TakesOff(h, h[..k], h[k + 1 + Spn(h[k + 1..])..])
  {
    var k := Cspn(h);
    var j := k + 1 + Spn(h[k + 1..]);
    var e := h[k..j];
    forall i | 1 <= i < |e| ensures IsEol(e[i]) { assert e[i] == h[k + 1..][i - 1]; }
    hide Cspn, Spn;
    assert h == h[..k] + e + h[j..];
    assert EndedBy(h, h[..k], e, h[j..]);
  }

  lemma GetLineAccounted(n: Net, ls: seq<string>)
    requires Accounted(n, ls) && Splittable(n)
    ensures var (n1, l) := GetLine(n);
            Accounted(n1, if l.Some? then ls + [l.value] else ls)
  {
    var h := Unread(n);
    var (n1, l) := GetLine(n);
    if l.Some? {
      LineEnded(h);
      assert Unread(n1) == h[n1.llen..];
      SplitsOneMore(n.env.received, ls, h, l.value, Unread(n1));
    } else {
      assert Unread(n1) == h;
    }
  }

  lemma {:induction false} FetchAccounted(n: Net, ls: seq<string>)
    requires Accounted(n, ls) && LinesFit(Pending(n)) && Fetch(n).0.up
    ensures var (n1, l) := Fetch(n);
            Accounted(n1, if l.Some? then ls + [l.value] else ls)
    decreases Measure(n)
  {
    FitsSplittable(n);
    GetLineFits(n);
    GetLineAccounted(n, ls);
    var n1 := GetLine(n).0;
    if GetLine(n).1.None? {
      RecvFits(n1);
      var (n2, ok) := Recv(n1);
      if n2.up { RecvAccounted(n1, ls); }
      if ok {
        if !n2.up { assert false; }
        FetchAccounted(n2, ls);
      }
    }
  }

  // ------------------------------------------------------------- the lines of a trace

  predicate IsLineEvent(e: Event) { e.Dispatched? || e.Reply? || e.Stray? || e.Rejected? }

  /** The lines taken since the connection was made, in order. */
  function LinesTaken(trace: seq<Event>): seq<string> {
    if trace == [] || trace[|trace| - 1].Opened? then []
    else
      var e := trace[|trace| - 1];
      LinesTaken(trace[..|trace| - 1]) + if IsLineEvent(e) then [e.line] else []
  }

  lemma LinesTakenSnoc(trace: seq<Event>, e: Event)
    ensures LinesTaken(trace + [e])
            == if e.Opened? then [] else LinesTaken(trace) + if IsLineEvent(e) then [e.line] else []
  {
    assert (trace + [e])[..|trace|] == trace;
  }

  // ---------------------------------------------------------------- the invariant

  /** - without a connection no reply is awaited and the buffer is empty;
      - the code of the current reply is unset or has three characters;
      - on a connection, every received byte belongs to exactly one line that was taken,
        as a reply line, a broadcast, stray input or a rejected line, or is unread. */
  ghost predicate Inv(s: State) {
    && Sound(s.net)
    && (!s.net.up ==> !s.inreply && s.net.held == "" && s.net.llen == 0)
    && (s.code == "" || |s.code| == 3)
    && (s.net.up ==> Accounted(s.net, LinesTaken(s.trace)))
  }

  lemma CloseInv(s: State)
    requires Sound(s.net) && (!s.net.up ==> s.net.held == "")
    ensures Inv(Close(s)) && !Close(s).net.up
  {
    DisconnectSound(s.net);
  }

  lemma LogLineInv(s: State, n: Net, e: Event)
    requires Inv(s) && Sound(n) && n.up && IsLineEvent(e)
    requires Accounted(n, LinesTaken(s.trace) + [e.line])
    ensures Inv(Log(s.(net := n), e))
  {
    LinesTakenSnoc(s.trace, e);
  }

  /** There is a current reply line with a code. */
  predicate HasLine(s: State) { |s.code| == 3 && s.line.Some? }

  lemma AcceptInv(s: State, n: Net, l: string)
    requires Inv(s) && Sound(n) && n.up && Accounted(n, LinesTaken(s.trace) + [l])
    ensures Inv(Accept(s.(net := n), l).0)
    ensures Accept(s.(net := n), l).1 == 0 ==> HasLine(Accept(s.(net := n), l).0)
  {
    hide Sound, Accounted, LinesTaken;
    LinesTakenSnoc(s.trace, Reply(l));
    if Accept(s.(net := n), l).1 != 0 {
      CloseInv(Log(s.(net := n), Rejected(l)));
    }
  }

  lemma {:induction false} RnextInv(s: State)
    requires Inv(s)
    ensures Sound(s.net) && Inv(Rnext(s).0)
    ensures Rnext(s).1 == 0 ==> HasLine(Rnext(s).0)
    decreases Measure(s.net)
  {
    if s.inreply {
      SoundFits(s.net);
      FetchSound(s.net);
      var (n, l) := Fetch(s.net);
      if l.None? {
        CloseInv(s.(net := n));
      } else {
        FetchAccounted(s.net, LinesTaken(s.trace));
        if IsBcast(l.value) {
          LogLineInv(s, n, Dispatched(l.value));
          RnextInv(Log(s.(net := n), Dispatched(l.value)));
        } else {
          AcceptInv(s, n, l.value);
        }
      }
    }
  }

  /** A reply that was read to its end leaves a code and a text. */
  lemma {:induction false} RlastInv(s: State)
    requires Inv(s)
    ensures Sound(s.net) && Inv(Rlast(s).0)
    ensures Rlast(s).1 == 0 && (s.inreply || HasLine(s)) ==> HasLine(Rlast(s).0)
    decreases Measure(s.net)
  {
    RnextInv(s);
    if Rnext(s).1 == 0 { RlastInv(Rnext(s).0); }
  }

  lemma SendOnInv(s: State, cmd: string)
    requires Inv(s) && s.net.up
    ensures Sound(s.net) && Inv(SendOn(s, cmd).0) && (SendOn(s, cmd).1 ==> SendOn(s, cmd).0.inreply)
  {
    hide LinesTaken, Splits;
    if !s.inreply && |cmd| <= BUFLENLINE - 1 {
      SendSound(s.net, cmd + "\n");
      var n := Send(s.net, cmd + "\n").0;
      assert Unread(n) == Unread(s.net);
      if !Send(s.net, cmd + "\n").1 { CloseInv(s.(net := n, code := "", line := None)); }
    }
  }

  lemma AskOnInv(s: State, cmd: string)
    requires Inv(s) && s.net.up
    ensures Sound(s.net) && Inv(AskOn(s, cmd).0)
    ensures AskOn(s, cmd).1 ==> HasLine(AskOn(s, cmd).0) && AskOn(s, cmd).0.net.up
  {
    SendOnInv(s, cmd);
    RlastInv(SendOn(s, cmd).0);
  }

  lemma AuthOnInv(s: State)
    requires Inv(s) && s.net.up
    ensures Sound(s.net) && Inv(AuthOn(s).0)
  {
    if s.user.Some? && s.pass.Some? {
      AskOnInv(s, "user " + s.user.value);
      if SuccOn(s, "user " + s.user.value).1 {
        AskOnInv(SuccOn(s, "user " + s.user.value).0, "pass " + s.pass.value);
      }
    }
  }

  lemma GreetInv(s: State, got: bool)
    requires Inv(s) && (got ==> s.net.up)
    ensures Sound(s.net) && Inv(Greet(s, got).0)
  {
    if got && CodeStarts(s, '2') && Holds(Memory(s), 0, "dudld") {
      var (major, minor) := Version(Memory(s));
      AuthOnInv(s.(vmajor := major, vminor := minor));
    }
  }

  lemma OpenedInv(s: State)
    requires Inv(s) && !s.net.up && Connect(s.net).1
    ensures Inv(s.(net := Connect(s.net).0, inreply := true, trace := s.trace + [Opened]))
  {
    ConnectSound(s.net);
    LinesTakenSnoc(s.trace, Opened);
    assert Unread(Connect(s.net).0) == "";
  }

  /** A failed handshake drops the connection without resetting the reply state. */
  lemma HangupInv(s: State)
    requires Inv(s) && !s.inreply
    ensures Inv(Hangup(s))
  {
    DisconnectSound(s.net);
  }

  lemma LogOtherInv(s: State, e: Event)
    requires Inv(s) && !IsLineEvent(e) && !e.Opened?
    ensures Inv(Log(s, e))
  {
    LinesTakenSnoc(s.trace, e);
    assert LinesTaken(s.trace) + [] == LinesTaken(s.trace);
  }

  lemma InvParts(s: State)
    requires Inv(s)
    ensures Sound(s.net) && (!s.net.up ==> !s.inreply)
  {
  }

  lemma GreetUp(s: State, got: bool)
    requires Sound(s.net) && (got ==> s.net.up)
    ensures Greet(s, got).1 ==> Greet(s, got).0.net.up
  {
  }

  lemma RefusedInv(s: State)
    requires Inv(s) && !Connect(s.net).1
    ensures Inv(s.(net := Connect(s.net).0))
  {
    ConnectSound(s.net);
  }

  lemma OpenInv(s: State)
    requires Inv(s)
    ensures Sound(s.net) && Inv(Open(s).0) && (Open(s).1 ==> Open(s).0.net.up)
  {
    hide Inv, Rlast, Greet;
    InvParts(s);
    if !s.net.up {
      var (n, ok) := Connect(s.net);
      if !ok {
        RefusedInv(s);
      } else {
        OpenedInv(s);
        var s0 := s.(net := n, inreply := true, trace := s.trace + [Opened]);
        RlastInv(s0);
        InvParts(s0);
        var (s1, r) := Rlast(s0);
        assert r == 0 ==> s1.net.up;
        GreetInv(s1, r == 0);
        var (s2, welcome) := Greet(s1, r == 0);
        InvParts(s2);
        HangupInv(s2);
        LogOtherInv(s2, Connected);
        GreetUp(s1, r == 0);
      }
    }
  }

  lemma VsendInv(s: State, cmd: string)
    requires Inv(s)
    ensures Sound(s.net) && Inv(Vsend(s, cmd).0)
    ensures Vsend(s, cmd).1 ==> Vsend(s, cmd).0.inreply
  {
    OpenInv(s);
    if Open(s).1 { SendOnInv(Open(s).0, cmd); }
  }

  lemma GetLineUp(n: Net)
    requires n.Ok() && Splittable(n)
    ensures var (n1, l) := GetLine(n);
            && n1.up == n.up && (l.Some? ==> n.up) && (!n.up ==> n1.held == "" && n1.llen == 0)
  {
  }

  lemma {:induction false} PollLinesInv(s: State)
    requires Inv(s)
    ensures Sound(s.net) && Inv(PollLines(s))
    decreases Measure(s.net)
  {
    hide Accounted, LinesTaken, Pending, LinesFit, WholeLines, AnswersSound, PeerSound, GetLine, Splittable;
    PollTurn(s);
    GetLineUp(s.net);
    var (n, l) := GetLine(s.net);
    if s.net.up { GetLineAccounted(s.net, LinesTaken(s.trace)); }
    if l.Some? {
      if |l.value| < 4 {
        CloseInv(Log(s.(net := n), Rejected(l.value)));
      } else {
        LogLineInv(s, n, PollEvent(l.value));
        PollLinesInv(Log(s.(net := n), PollEvent(l.value)));
      }
    }
  }

  lemma PollInv(s: State)
    requires Inv(s)
    ensures Sound(s.net) && Inv(Poll(s))
  {
    hide Accounted, LinesTaken;
    OpenInv(s);
    var (s1, ok) := Open(s);
    if ok {
      RecvSound(s1.net);
      var (n, got) := Recv(s1.net);
      var s2 := s1.(net := n);
      if got {
        RecvAccounted(s1.net, LinesTaken(s1.trace));
        PollLinesInv(s2);
      } else {
        CloseInv(s2);
        PollLinesInv(Close(s2));
      }
    }
  }

  lemma {:induction false} CollectInv<T>(s: State, conv: string -> Conv<T>, acc: seq<Option<T>>)
    requires Inv(s)
    ensures Sound(s.net) && Inv(Collect(s, conv, acc).0)
    decreases Measure(s.net)
  {
    RnextInv(s);
    RlastInv(s);
    if Rnext(s).1 == 0 { CollectInv(Rnext(s).0, conv, acc + [conv(Memory(s)).data]); }
  }

  lemma QueryInv<T>(s: State, cmd: string, conv: string -> Conv<T>)
    requires Inv(s)
    ensures Sound(s.net) && Inv(Query(s, cmd, conv).0)
  {
    VsendInv(s, cmd);
    RnextInv(Vsend(s, cmd).0);
    var s2 := Rnext(Vsend(s, cmd).0).0;
    RlastInv(s2);
    CollectInv(s2, conv, []);
  }

  // ------------------------------------------------------------------ whole runs

  /** The calls of the client library, and the environment writing unasked. */
  datatype Call =
    | Sending(cmd: string)    // _duc_vsend
    | Next                    // _duc_rnext
    | Last                    // _duc_rlast
    | Asking(cmd: string)     // a command wrapper
    | Listing(cmd: string)    // a list command
    | Opening                 // duc_open
    | Closing                 // duc_close
    | Polling                 // duc_poll
    | Announce(bytes: string) // the server writes lines of its own

  /** Calls may come in any order, also in the middle of a reply. */
  ghost predicate Allowed(c: Call) { c.Announce? ==> WholeLines(c.bytes) }

  function Do<T>(s: State, c: Call, conv: string -> Conv<T>): State
    requires Sound(s.net)
  {
    match c
    case Sending(cmd) => Vsend(s, cmd).0
    case Next => Rnext(s).0
    case Last => Rlast(s).0
    case Asking(cmd) => Ask(s, cmd).0
    case Listing(cmd) => Query(s, cmd, conv).0
    case Opening => Open(s).0
    case Closing => Close(s)
    case Polling => Poll(s)
    case Announce(bytes) =>
      if s.net.up then s.(net := s.net.(env := s.net.env.(wire := s.net.env.wire + bytes))) else s
  }

  lemma AnnounceInv(s: State, bytes: string)
    requires Inv(s) && s.net.up && WholeLines(bytes)
    ensures Inv(s.(net := s.net.(env := s.net.env.(wire := s.net.env.wire + bytes))))
  {
    hide LinesTaken, Splits;
    var n := s.net.(env := s.net.env.(wire := s.net.env.wire + bytes));
    WholeConcat(Unread(s.net) + s.net.env.wire, bytes);
    assert Unread(n) + n.env.wire == Unread(s.net) + s.net.env.wire + bytes;
    assert Unread(n) == Unread(s.net);
  }

  lemma CloseFromInv(s: State)
    requires Inv(s)
    ensures Inv(Close(s))
  {
    CloseInv(s);
  }

  lemma DoInv<T>(s: State, c: Call, conv: string -> Conv<T>)
    requires Inv(s) && Allowed(c)
    ensures Sound(s.net) && Inv(Do(s, c, conv))
  {
    hide Inv;
    InvParts(s);
    match c
    case Sending(cmd) => VsendInv(s, cmd);
    case Next => RnextInv(s);
    case Last => RlastInv(s);
    case Asking(cmd) =>
      VsendInv(s, cmd);
      if Vsend(s, cmd).1 { RlastInv(Vsend(s, cmd).0); }
    case Listing(cmd) => QueryInv(s, cmd, conv);
    case Opening => OpenInv(s);
    case Closing => CloseFromInv(s);
    case Polling => PollInv(s);
    case Announce(bytes) => if s.net.up { AnnounceInv(s, bytes); }
  }

  ghost predicate Run<T>(states: seq<State>, calls: seq<Call>, conv: string -> Conv<T>) {
    && |states| == |calls| + 1
    && forall i | 0 <= i < |calls| ::
         Sound(states[i].net) && states[i + 1] == Do(states[i], calls[i], conv)
  }

  /** The invariant holds after every call of every run, from any state it holds in. */
  lemma {:induction false} RunInv<T>(states: seq<State>, calls: seq<Call>, conv: string -> Conv<T>)
    requires Run(states, calls, conv) && Inv(states[0])
    requires forall i | 0 <= i < |calls| :: Allowed(calls[i])
    ensures forall i | 0 <= i < |states| :: Inv(states[i])
  {
    for k := 0 to |calls|
      invariant forall i | 0 <= i <= k :: Inv(states[i])
    {
      DoInv(states[k], calls[k], conv);
    }
  }

  /** A fresh session satisfies the invariant. */
  lemma InitialInv(s: State)
    requires Sound(s.net) && !s.net.up && !s.inreply && s.code == ""
    requires s.net.held == "" && s.net.llen == 0
    ensures Inv(s)
  {
  }

  /** Read off the invariant: at every point of a run on one connection, the bytes received
      are the lines of the trace, in the order they were taken, and the unread rest. */
  lemma LinesConserved<T>(states: seq<State>, calls: seq<Call>, conv: string -> Conv<T>, i: nat)
    requires Run(states, calls, conv) && Inv(states[0]) && i < |states| && states[i].net.up
    requires forall j | 0 <= j < |calls| :: Allowed(calls[j])
    ensures states[i].net.Ok()
    ensures Splits(states[i].net.env.received, LinesTaken(states[i].trace), Unread(states[i].net))
  {
    RunInv(states, calls, conv);
    assert Inv(states[i]);
  }

  // ------------------------------------------------------- room while a reply is read

  /** Every receive that reading the next reply line issues is roomy. */
  ghost predicate RnextRoomy(s: State)
    requires Sound(s.net)
    decreases Measure(s.net)
  {
    s.inreply ==>
      (SoundFits(s.net);
       FetchSound(s.net);
       var (n, l) := Fetch(s.net);
       && FetchRoomy(s.net)
       && (l.Some? && IsBcast(l.value) ==> RnextRoomy(Log(s.(net := n), Dispatched(l.value)))))
  }

  lemma {:induction false} RnextHasRoom(s: State)
    requires Sound(s.net)
    ensures RnextRoomy(s)
    decreases Measure(s.net)
  {
    hide LinesFit, Pending, Fetch, FetchRoomy;
    if s.inreply {
      SoundFits(s.net);
      FetchSound(s.net);
      FetchHasRoom(s.net);
      var (n, l) := Fetch(s.net);
      if l.Some? && IsBcast(l.value) { RnextHasRoom(Log(s.(net := n), Dispatched(l.value))); }
    }
  }
}
