/** The reply protocol as a state machine: one command at a time, replies made of
    `ddd-text` lines closed by a `ddd text` line, and broadcast lines starting with `6`
    anywhere in between. The functions here say what each client call does to the state. */
module Protocol {
  import opened CText
  import opened Wire

  const BUFLENLINE: nat := 2048
  const DUC_PROTO_MAJOR: int := 1

  /** What happened on the session, oldest first. Every line taken from a connection
      leaves exactly one `Dispatched`, `Reply`, `Stray` or `Rejected` event. */
  datatype Event =
    | Opened                    // a TCP connection was made
    | Connected                 // handshake complete; the connect handler ran
    | Disconnected              // the disconnect handler ran
    | Dispatched(line: string)  // a broadcast handed to its handler
    | Reply(line: string)       // a line accepted as part of a reply
    | Stray(line: string)       // input outside of a reply, reported and skipped
    | Rejected(line: string)    // a line that made the client close the connection

  /** The command buffer holds the text and its newline, or the text is refused. A text of
      2047 bytes passes the check but overruns the buffer, and is left to the caller. */
  predicate Sendable(cmd: string) { |cmd| != BUFLENLINE - 1 }

  /** A user name or password for which the login commands are sendable. */
  type Credential = c: string | Sendable("user " + c)

  datatype State = State(
    net: Net,
    user: Option<Credential>,
    pass: Option<Credential>,
    vmajor: int,
    vminor: int,
    inreply: bool,
    code: string,               // "" or the three-character code of the current reply
    line: Option<nat>,          // where the reply text starts in the buffer
    trace: seq<Event>)

  predicate IsBcast(l: string) { |l| >= 4 && l[0] == '6' }

  /** The credentials stay as they are. */
  predicate Kept(s: State, s': State) { s'.user == s.user && s'.pass == s.pass }

  function Log(s: State, e: Event): State { s.(trace := s.trace + [e]) }

  function Close(s: State): State {
    s.(net := Disconnect(s.net), line := None, inreply := false, code := "",
       trace := s.trace + [Disconnected])
  }

  /** The memory the text pointer of the current reply line refers to. */
  function Memory(s: State): string {
    if s.line.Some? && s.line.value <= |s.net.held| then s.net.held[s.line.value..] else ""
  }

  /** Files a line taken while a reply is being read; 0: a reply line, -1: failure. */
  function Accept(s: State, l: string): (State, int) {
    if |l| < 4 then (Close(Log(s, Rejected(l))), -1)
    else if s.code != "" && s.code != l[..3] then (Close(Log(s, Rejected(l))), -1)
    else
      (s.(line := Some(4), code := l[..3], inreply := l[3] == '-', trace := s.trace + [Reply(l)]), 0)
  }

  /** Reads the next line of the reply, dispatching broadcasts on the way.
      0: a line was read, -1: the connection failed, -2: no reply is expected. */
  function Rnext(s: State): (r: (State, int))
    requires Sound(s.net)
    ensures Kept(s, r.0)
    ensures Sound(r.0.net) && -2 <= r.1 <= 0
    ensures r.1 == 0 ==> Measure(r.0.net) < Measure(s.net) && r.0.net.up
    ensures r.1 == 0 ==> |r.0.code| == 3 && r.0.line.Some?
    ensures r.1 == -2 ==> r.0 == s && !s.inreply
    ensures r.1 == -1 ==> !r.0.inreply
    decreases Measure(s.net)
  {
    if !s.inreply then (s, -2)
    else
      SoundFits(s.net);
      FetchSound(s.net);
      var (n, l) := Fetch(s.net);
      var s1 := s.(net := n);
      DisconnectSound(n);
      if l.None? then (Close(s1), -1)
      else if IsBcast(l.value) then Rnext(Log(s1, Dispatched(l.value)))
      else Accept(s1, l.value)
  }

  /** The first turn of the reading loop when the buffer holds a line. */
  lemma RnextTakes(s: State)
    requires Sound(s.net) && s.inreply && Splittable(s.net) && GetLine(s.net).1.Some?
    ensures Sound(GetLine(s.net).0)
    ensures var (n, l) := GetLine(s.net);
            var s1 := s.(net := n);
            && Measure(n) < Measure(s.net)
            && Rnext(s) == if IsBcast(l.value) then Rnext(Log(s1, Dispatched(l.value)))
                           else Accept(s1, l.value)
  {
    GetLineSound(s.net);
  }

  /** The first turn when it does not. */
  lemma RnextWaits(s: State)
    requires Sound(s.net) && s.inreply && Splittable(s.net) && GetLine(s.net).1.None?
    ensures Sound(Recv(GetLine(s.net).0).0)
    ensures var (n, ok) := Recv(GetLine(s.net).0);
            var s1 := s.(net := n);
            && (ok ==> Measure(n) < Measure(s.net))
            && Rnext(s) == if ok then Rnext(s1) else (Close(s1), -1)
  {
    hide Sound, Fetch, GetLine, Recv, Pending, LinesFit, Splittable, Measure, Close;
    SoundFits(s.net);
    FetchUnfold(s.net);
    GetLineSound(s.net);
    RecvSound(GetLine(s.net).0);
  }

  /** Reads the rest of the reply. */
  function Rlast(s: State): (r: (State, int))
    requires Sound(s.net)
    ensures Kept(s, r.0)
    ensures !r.0.inreply
    ensures Sound(r.0.net) && -1 <= r.1 <= 0
    ensures r.1 == 0 && s.net.up ==> r.0.net.up
    decreases Measure(s.net)
  {
    var (s1, r) := Rnext(s);
    if r == 0 then Rlast(s1) else (s1, if r == -1 then -1 else 0)
  }

  // ------------------------------------------------------------ sending commands

  /** Sending on a session whose connection is up. */
  function SendOn(s: State, cmd: string): (r: (State, bool))
    requires Sound(s.net)
    ensures !r.1 && !s.inreply ==> !r.0.inreply
    ensures Kept(s, r.0)
    ensures Sound(r.0.net)
  {
    if s.inreply then (s, false)
    else if |cmd| > BUFLENLINE - 1 then (s, false)
    else
      SendSound(s.net, cmd + "\n");
      var (n, ok) := Send(s.net, cmd + "\n");
      DisconnectSound(n);
      var s1 := s.(net := n, code := "", line := None);
      if ok then (s1.(inreply := true), true) else (Close(s1), false)
  }

  lemma SendOnSteps(s: State, cmd: string)
    requires Sound(s.net) && !s.inreply && |cmd| <= BUFLENLINE - 1
    ensures var (n, ok) := Send(s.net, cmd + "\n");
            var s1 := s.(net := n, code := "", line := None);
            SendOn(s, cmd) == if ok then (s1.(inreply := true), true) else (Close(s1), false)
  {
  }

  function AskOn(s: State, cmd: string): (r: (State, bool))
    requires Sound(s.net)
    ensures Kept(s, r.0)
    ensures !s.inreply ==> !r.0.inreply
    ensures Sound(r.0.net) && (r.1 ==> r.0.net.up)
  {
    var (s1, ok) := SendOn(s, cmd);
    if !ok then (s1, false)
    else
      var (s2, r) := Rlast(s1);
      (s2, r == 0)
  }

  /** The codes that report success. */
  predicate Positive(code: string) { code != "" && (code[0] == '2' || code[0] == '3') }

  predicate CodeStarts(s: State, c: char) { s.code != "" && s.code[0] == c }

  predicate SuccResult(s: State) { Positive(s.code) }

  function SuccOn(s: State, cmd: string): (r: (State, bool))
    requires Sound(s.net)
    ensures Kept(s, r.0)
    ensures !s.inreply ==> !r.0.inreply
    ensures Sound(r.0.net) && (r.1 ==> r.0.net.up)
  {
    var (s1, ok) := AskOn(s, cmd);
    (s1, ok && SuccResult(s1))
  }

  // ---------------------------------------------------------------- the session

  function AuthOn(s: State): (r: (State, bool))
    requires Sound(s.net)
    ensures Kept(s, r.0)
    ensures !s.inreply ==> !r.0.inreply
    ensures Sound(r.0.net)
  {
    if s.user.None? || s.pass.None? then (s, false)
    else
      var (s1, ok) := SuccOn(s, "user " + s.user.value);
      if !ok then (s1, false) else SuccOn(s1, "pass " + s.pass.value)
  }

  /** The protocol version in a hello text, after the name of the server. */
  function Version(mem: string): (int, int) {
    var major := Strtol(mem, 5);
    if major.end == 5 then (0, 0)
    else
      var minor := Strtol(mem, major.end);
      (major.value, if minor.end == major.end then 0 else minor.value)
  }

  /** Drops the connection without touching the reply state. */
  function Hangup(s: State): State { s.(net := Disconnect(s.net)) }

  /** Judges the hello that was read, and logs in if there are credentials. */
  function Greet(s: State, got: bool): (r: (State, bool))
    requires Sound(s.net)
    ensures !s.inreply ==> !r.0.inreply
    ensures Kept(s, r.0)
    ensures Sound(r.0.net)
  {
    if !got || !CodeStarts(s, '2') || !Holds(Memory(s), 0, "dudld") then (s, false)
    else
      var (major, minor) := Version(Memory(s));
      var s1 := s.(vmajor := major, vminor := minor);
      if major != DUC_PROTO_MAJOR then (s1, false)
      else if s.user.Some? then AuthOn(s1)
      else (s1, true)
  }

  /** Connects if necessary: waits for the hello, checks it, and logs in. */
  function Open(s: State): (r: (State, bool))
    requires Sound(s.net)
    ensures Kept(s, r.0)
    ensures !s.inreply ==> !r.0.inreply
    ensures Sound(r.0.net)
  {
    if s.net.up then (s, true)
    else
      ConnectSound(s.net);
      var (n, ok) := Connect(s.net);
      if !ok then (s.(net := n), false)
      else
        var (s1, r) := Rlast(s.(net := n, inreply := true, trace := s.trace + [Opened]));
        var (s2, welcome) := Greet(s1, r == 0);
        DisconnectSound(s2.net);
        if welcome then (Log(s2, Connected), true) else (Hangup(s2), false)
  }

  /** Sends a command, connecting first if necessary. */
  function Vsend(s: State, cmd: string): (r: (State, bool))
    requires Sound(s.net)
    ensures Sound(r.0.net)
  {
    if s.inreply then (s, false)
    else
      var (s1, ok) := Open(s);
      if ok then SendOn(s1, cmd) else (s1, false)
  }

  /** Sends a command and reads the whole reply. */
  function Ask(s: State, cmd: string): (r: (State, bool))
    requires Sound(s.net)
    ensures Sound(r.0.net)
  {
    var (s1, ok) := Vsend(s, cmd);
    if !ok then (s1, false)
    else
      var (s2, r) := Rlast(s1);
      (s2, r == 0)
  }

  lemma AskWhenUp(s: State, cmd: string)
    requires Sound(s.net) && s.net.up
    ensures Ask(s, cmd) == AskOn(s, cmd)
  {
  }

  // ------------------------------------------------------ what the wrappers return

  function StringResult(s: State): Option<string> {
    if CodeStarts(s, '2') then Some(CStr(Memory(s))) else None
  }

  function IntResult(s: State): int {
    if CodeStarts(s, '2') then Strtol(Memory(s), 0).value else -1
  }

  function ConvResult<T>(s: State, conv: string -> Conv<T>): Option<T> {
    if CodeStarts(s, '2') then conv(Memory(s)).data else None
  }

  // --------------------------------------------------------------------- polling

  function PollEvent(l: string): Event
    requires l != ""
  {
    if l[0] == '6' then Dispatched(l) else Stray(l)
  }

  function PollLines(s: State): (r: State)
    requires Sound(s.net)
    ensures Sound(r.net)
    decreases Measure(s.net)
  {
    SoundFits(s.net);
    GetLineSound(s.net);
    var (n, l) := GetLine(s.net);
    DisconnectSound(n);
    var s1 := s.(net := n);
    if l.None? then s1
    else if |l.value| < 4 then Close(Log(s1, Rejected(l.value)))
    else PollLines(Log(s1, PollEvent(l.value)))
  }

  /** Receives once and handles the lines that are complete. */
  function Poll(s: State): (r: State)
    requires Sound(s.net)
    ensures Sound(r.net)
  {
    var (s1, ok) := Open(s);
    if !ok then s1
    else
      RecvSound(s1.net);
      var (n, got) := Recv(s1.net);
      DisconnectSound(n);
      var s2 := s1.(net := n);
      PollLines(if got then s2 else Close(s2))
  }

  lemma PollTurn(s: State)
    requires Sound(s.net)
    ensures Splittable(s.net) && Sound(GetLine(s.net).0)
    ensures var (n, l) := GetLine(s.net);
            var s1 := s.(net := n);
            && (l.Some? ==> Measure(n) < Measure(s.net))
            && PollLines(s) == if l.None? then s1
                               else if |l.value| < 4 then Close(Log(s1, Rejected(l.value)))
                               else PollLines(Log(s1, PollEvent(l.value)))
  {
    SoundFits(s.net);
    GetLineSound(s.net);
  }

  // -------------------------------------------------------- responses with records

  /** Parses the current reply line and all further ones; None when a line does not parse
      to its end, after reading the rest of the reply. A lost connection ends the list. */
  function Collect<T>(s: State, conv: string -> Conv<T>, acc: seq<Option<T>>)
    : (r: (State, Option<seq<Option<T>>>))
    requires Sound(s.net)
    ensures Sound(r.0.net)
    decreases Measure(s.net)
  {
    var mem := Memory(s);
    var c := conv(mem);
    if s.line.None? || At(mem, c.end) != NUL then (Rlast(s).0, None)
    else
      var (s1, r) := Rnext(s);
      if r == 0 then Collect(s1, conv, acc + [c.data]) else (s1, Some(acc + [c.data]))
  }

  /** Sends a command and collects the records of its reply. */
  function Query<T>(s: State, cmd: string, conv: string -> Conv<T>)
    : (r: (State, Option<seq<Option<T>>>))
    requires Sound(s.net)
    ensures Sound(r.0.net)
  {
    var (s1, ok) := Vsend(s, cmd);
    if !ok then (s1, None)
    else
      var (s2, r) := Rnext(s1);
      if r != 0 then (s2, None)
      else if CodeStarts(s2, '5') then (Rlast(s2).0, None)
      else Collect(s2, conv, [])
  }

  /** Whether the parser consumes the current line to its end. */
  function Parses<T>(s: State, conv: string -> Conv<T>): bool {
    s.line.Some? && At(Memory(s), conv(Memory(s)).end) == NUL
  }

  lemma ParsesIs<T>(s: State, conv: string -> Conv<T>)
    ensures Parses(s, conv) <==> s.line.Some? && At(Memory(s), conv(Memory(s)).end) == NUL
  {
  }

  lemma CollectUnfold<T>(s: State, conv: string -> Conv<T>, acc: seq<Option<T>>)
    requires Sound(s.net)
    ensures !Parses(s, conv) ==> Collect(s, conv, acc) == (Rlast(s).0, None)
    ensures Sound(Rnext(s).0.net)
    ensures Parses(s, conv) ==>
              var all := acc + [conv(Memory(s)).data];
              Collect(s, conv, acc) == if Rnext(s).1 == 0 then Collect(Rnext(s).0, conv, all)
                                       else (Rnext(s).0, Some(all))
  {
  }

  lemma QueryNotSent<T>(s: State, cmd: string, conv: string -> Conv<T>)
    requires Sound(s.net) && !Vsend(s, cmd).1
    ensures Query(s, cmd, conv) == (Vsend(s, cmd).0, None)
  {
  }

  lemma QueryFails<T>(s: State, cmd: string, conv: string -> Conv<T>)
    requires Sound(s.net) && Vsend(s, cmd).1 && Rnext(Vsend(s, cmd).0).1 != 0
    ensures Query(s, cmd, conv) == (Rnext(Vsend(s, cmd).0).0, None)
  {
  }

  lemma QueryUnfold<T>(s: State, cmd: string, conv: string -> Conv<T>, s1: State)
    requires Sound(s.net) && Vsend(s, cmd).1 && Rnext(Vsend(s, cmd).0) == (s1, 0)
    ensures Sound(s1.net)
    ensures Query(s, cmd, conv) == if CodeStarts(s1, '5') then (Rlast(s1).0, None)
                                   else Collect(s1, conv, [])
  {
  }
}
