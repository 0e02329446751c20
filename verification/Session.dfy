/** The session object: its methods are the client library's calls, each computing exactly
    the step the `Protocol` functions describe. */
module Session {
  import opened CText
  import opened Wire
  import opened Protocol
  import opened Handlers
  import Sock

  /** Puts a command into the buffer it is sent from: `vsnprintf` for the text, then the
      newline and the terminator. A text of 2047 bytes would pass the check and be cut by one
      byte, and the terminator would be written behind the buffer. */
  method Compose(cmd: string) returns (ok: bool, text: string)
    requires Sendable(cmd)
    ensures ok == (|cmd| <= BUFLENLINE - 1) && (ok ==> text == cmd + "\n")
  {
    var buf := new char[BUFLENLINE];
    var i := 0;
    while i < |cmd| && i < BUFLENLINE - 2
      invariant 0 <= i <= |cmd| && i <= BUFLENLINE - 2 && buf[..i] == cmd[..i]
    {
      buf[i] := cmd[i];
      i := i + 1;
    }
    buf[i] := NUL;
    var len := |cmd|;
    if len > BUFLENLINE - 1 { return false, ""; }
    buf[len] := '\n';
    len := len + 1;
    buf[len] := NUL;
    return true, buf[..len];
  }

  /** Of the commands that pass the check, exactly those of other lengths than 2047 leave room
      for the newline and the terminator. */
  lemma ComposeFitsIff(cmd: string)
    requires |cmd| <= BUFLENLINE - 1
    ensures |cmd| + 1 < BUFLENLINE <==> Sendable(cmd)
  {
  }

  class Session {
    const con: Sock.Sock
    var user: Option<Credential>
    var pass: Option<Credential>
    var vmajor: int
    var vminor: int
    var inreply: bool
    var code: string
    var line: Option<nat>
    ghost var trace: seq<Event>

    ghost predicate Valid()
      reads this, con, con.buf
    {
      con.Valid()
    }

    ghost function State(): State
      requires Valid()
      reads this, con, con.buf
    {
      Protocol.State(con.State(), user, pass, vmajor, vminor, inreply, code, line, trace)
    }

    constructor (con: Sock.Sock)
      requires con.Valid()
      ensures Valid() && this.con == con
      ensures State() == Protocol.State(con.State(), None, None, 0, 0, false, "", None, [])
    {
      this.con := con;
      user, pass, vmajor, vminor := None, None, 0, 0;
      inreply, code, line, trace := false, "", None, [];
    }

    method Close()
      requires Valid() && Sound(State().net)
      modifies this, con
      ensures Valid() && State() == Protocol.Close(old(State()))
    {
      DisconnectSound(State().net);
      line, inreply, code := None, false, "";
      con.Disconnect();
      trace := trace + [Disconnected];
    }

    method Note(e: Event)
      requires Valid() && Sound(State().net)
      modifies this`trace
      ensures State() == Log(old(State()), e)
    {
      trace := trace + [e];
    }

    /** Gives the connection up because of a line. */
    method Reject(l: string)
      requires Valid() && Sound(State().net)
      modifies this, con
      ensures Valid() && State() == Protocol.Close(Log(old(State()), Rejected(l)))
    {
      Note(Rejected(l));
      Close();
    }

    /** Runs the handler of a broadcast, which may issue any commands it likes. While a
        reply is being read each of them is refused and changes nothing. */
    method Bcast(l: string)
      requires Valid() && Sound(State().net) && inreply
      modifies this, con, con.buf
      ensures Valid() && State() == Log(old(State()), Dispatched(l))
      decreases 1, 0
    {
      trace := trace + [Dispatched(l)];
      var cmds: seq<string> := *;
      for i := 0 to |cmds|
        invariant Valid() && Sound(State().net) && State() == Log(old(State()), Dispatched(l))
      {
        if Sendable(cmds[i]) {
          var ok := Vsend(cmds[i]);
          assert !ok;
        }
      }
    }

    method Rnext() returns (r: int)
      requires Valid() && Sound(State().net)
      modifies this, con, con.buf
      ensures Valid() && (State(), r) == Protocol.Rnext(old(State()))
      decreases 1, 1
    {
      hide Sound, Wire.Recv, Wire.GetLine, Splittable, Protocol.Accept, Protocol.Close;
      if !inreply { return -2; }
      while true
        invariant Valid() && Sound(State().net) && inreply
        invariant Protocol.Rnext(State()) == Protocol.Rnext(old(State()))
        decreases Measure(con.State())
      {
        ghost var s := State();
        SoundFits(s.net);
        if Wire.GetLine(s.net).1.Some? { RnextTakes(s); } else { RnextWaits(s); }
        var l := con.GetLine();
        if l.None? {
          var ok := con.Recv();
          if !ok {
            Close();
            return -1;
          }
        } else if |l.value| < 4 || l.value[0] != '6' {
          r := Accept(l.value);
          return;
        } else {
          Bcast(l.value);
        }
      }
    }

    /** Files a line of the reply, or closes the connection. */
    method Accept(l: string) returns (r: int)
      requires Valid() && Sound(State().net)
      modifies this, con, con.buf
      ensures Valid() && (State(), r) == Protocol.Accept(old(State()), l)
      decreases 0
    {
      if |l| < 4 {
        Reject(l);
        return -1;
      }
      if code != "" {
        if code != l[..3] {
          Reject(l);
          return -1;
        }
      } else {
        code := l[..3];
      }
      line := Some(4);
      inreply := l[3] == '-';
      trace := trace + [Reply(l)];
      return 0;
    }

    method Rlast() returns (r: int)
      requires Valid() && Sound(State().net)
      modifies this, con, con.buf
      ensures Valid() && (State(), r) == Protocol.Rlast(old(State()))
      decreases 1, 2
    {
      r := Rnext();
      while r == 0
        invariant Valid() && Sound(State().net) && -2 <= r <= 0
        invariant Protocol.Rlast(old(State()))
                  == if r == 0 then Protocol.Rlast(State()) else (State(), if r == -1 then -1 else 0)
        decreases r, Measure(con.State())
      {
        r := Rnext();
      }
      r := if r == -1 then -1 else 0;
    }

    method Vsend(cmd: string) returns (ok: bool)
      requires Valid() && Sound(State().net) && Sendable(cmd)
      modifies this, con, con.buf
      ensures Valid() && (State(), ok) == Protocol.Vsend(old(State()), cmd)
      decreases if inreply then 0 else if con.fd != -1 then 2 else 3, 1
    {
      if inreply { return false; }
      ok := Open();
      ghost var s := State();
      if !ok { return false; }
      var text;
      ok, text := Compose(cmd);
      if !ok { return false; }
      SendSound(s.net, text);
      SendOnSteps(s, cmd);
      code, line := "", None;
      ok := con.Send(text);
      if ok {
        inreply := true;
      } else {
        Close();
      }
    }

    method Open() returns (ok: bool)
      requires Valid() && Sound(State().net) && (inreply ==> con.fd != -1)
      modifies this, con, con.buf
      ensures Valid() && (State(), ok) == Protocol.Open(old(State()))
      decreases if con.fd != -1 then 2 else 3, 0
    {
      hide Sound, Protocol.Rlast, Protocol.Greet, Wire.Connect, Wire.Disconnect;
      if con.fd != -1 { return true; }
      ConnectSound(State().net);
      ok := con.Connect();
      if !ok { return false; }
      trace := trace + [Opened];
      inreply := true;
      var r := Rlast();
      ok := Greet(r == 0);
      if ok {
        trace := trace + [Connected];
      } else {
        DisconnectSound(State().net);
        con.Disconnect();
      }
    }

    method Greet(got: bool) returns (ok: bool)
      requires Valid() && Sound(State().net) && (got ==> con.fd != -1)
      modifies this, con, con.buf
      ensures Valid() && (State(), ok) == Protocol.Greet(old(State()), got)
      decreases 2, 5
    {
      hide Strtol, Sound, Holds, AuthOn, Memory, Kept;
      if !got { return false; }
      if code == "" || code[0] != '2' { return false; }
      var mem := ReplyMemory();
      if !Holds(mem, 0, "dudld") { return false; }
      var major := Strtol(mem, 5);
      if major.end == 5 {
        vmajor, vminor := 0, 0;
      } else {
        vmajor := major.value;
        var minor := Strtol(mem, major.end);
        vminor := if minor.end == major.end then 0 else minor.value;
      }
      if vmajor != DUC_PROTO_MAJOR { return false; }
      if user.None? { return true; }
      ok := CmdAuth();
    }

    method CmdAuth() returns (ok: bool)
      requires Valid() && Sound(State().net) && con.fd != -1
      modifies this, con, con.buf
      ensures Valid() && (State(), ok) == AuthOn(old(State()))
      decreases 2, 4
    {
      if user.None? || pass.None? { return false; }
      AskWhenUp(State(), "user " + user.value);
      ok := CmdSucc("user " + user.value);
      if !ok { return false; }
      AskWhenUp(State(), "pass " + pass.value);
      ok := CmdSucc("pass " + pass.value);
    }

    method Cmd(cmd: string) returns (ok: bool)
      requires Valid() && Sound(State().net) && Sendable(cmd)
      modifies this, con, con.buf
      ensures Valid() && (State(), ok) == Ask(old(State()), cmd)
      decreases if con.fd != -1 then 2 else 3, 2
    {
      ok := Vsend(cmd);
      if !ok { return false; }
      var r := Rlast();
      ok := r == 0;
    }

    /** The memory behind the pointer to the reply text. */
    method ReplyMemory() returns (mem: string)
      requires Valid()
      ensures mem == Memory(State())
    {
      if line.Some? && line.value <= con.ilen {
        mem := con.buf[line.value..con.ilen];
        assert mem == con.buf[..con.ilen][line.value..];
      } else {
        mem := "";
      }
    }

    /** Whether the current reply has a code of the given class. */
    method CodeClass(c: char) returns (b: bool)
      requires Valid()
      ensures b == CodeStarts(State(), c)
    {
      b := code != "" && code[0] == c;
    }

    method HasText() returns (b: bool)
      requires Valid()
      ensures b == State().line.Some?
    {
      b := line.Some?;
    }

    method CmdSucc(cmd: string) returns (ok: bool)
      requires Valid() && Sound(State().net) && Sendable(cmd)
      modifies this, con, con.buf
      ensures Valid() && State() == Ask(old(State()), cmd).0
      ensures ok == (Ask(old(State()), cmd).1 && SuccResult(State()))
      decreases if con.fd != -1 then 2 else 3, 3
    {
      ok := Cmd(cmd);
      if !ok { return false; }
      ok := code != "" && (code[0] == '2' || code[0] == '3');
    }

    method CmdInt(cmd: string) returns (i: int)
      requires Valid() && Sound(State().net) && Sendable(cmd)
      modifies this, con, con.buf
      ensures Valid() && State() == Ask(old(State()), cmd).0
      ensures i == if Ask(old(State()), cmd).1 then IntResult(State()) else -1
    {
      var ok := Cmd(cmd);
      if !ok || code == "" || code[0] != '2' { return -1; }
      var mem := ReplyMemory();
      i := Strtol(mem, 0).value;
    }

    method CmdString(cmd: string) returns (t: Option<string>)
      requires Valid() && Sound(State().net) && Sendable(cmd)
      modifies this, con, con.buf
      ensures Valid() && State() == Ask(old(State()), cmd).0
      ensures t == if Ask(old(State()), cmd).1 then StringResult(State()) else None
    {
      var ok := Cmd(cmd);
      if !ok || code == "" || code[0] != '2' { return None; }
      var mem := ReplyMemory();
      t := Some(CStr(mem));
    }

    method CmdConv<T>(cmd: string, conv: string -> Conv<T>) returns (d: Option<T>)
      requires Valid() && Sound(State().net) && Sendable(cmd)
      modifies this, con, con.buf
      ensures Valid() && State() == Ask(old(State()), cmd).0
      ensures d == if Ask(old(State()), cmd).1 then ConvResult(State(), conv) else None
    {
      var ok := Cmd(cmd);
      if !ok || code == "" || code[0] != '2' { return None; }
      var mem := ReplyMemory();
      d := conv(mem).data;
    }

    /** The commands of a handler, one after the other. */
    method IssueAll(cmds: seq<string>, ghost told: seq<Told>) returns (ghost told': seq<Told>)
      requires Valid() && Sound(State().net) && (forall i | 0 <= i < |cmds| :: Sendable(cmds[i]))
      requires inreply ==> con.fd != -1
      modifies this, con, con.buf
      ensures Valid() && Sound(State().net) && (inreply ==> con.fd != -1)
      ensures (State(), told') == Issued(old(State()), cmds, told)
    {
      hide Sound, ToldOf, Issued;
      told' := told;
      assert cmds[0..] == cmds;
      for i := 0 to |cmds|
        invariant Valid() && Sound(State().net) && (inreply ==> con.fd != -1)
        invariant Issued(State(), cmds[i..], told') == Issued(old(State()), cmds, told)
      {
        IssuedStep(State(), cmds, i, told');
        var ok := Cmd(cmds[i]);
        told' := told' + [ToldOf(cmds[i], (State(), ok))];
      }
      IssuedAll(State(), cmds, told');
    }

    /** Dispatches a broadcast whose handler issues commands; reports other input. */
    method React(on: Reactions, l: string, ghost told: seq<Told>) returns (ghost told': seq<Told>)
      requires Valid() && Sound(State().net) && Polite(on) && |l| >= 4 && (inreply ==> con.fd != -1)
      modifies this, con, con.buf
      ensures Valid() && Sound(State().net) && (inreply ==> con.fd != -1)
      ensures (State(), told') == Reacted(old(State()), on, l, told)
    {
      told' := told;
      Note(PollEvent(l));
      if l[0] != '6' { return; }
      told' := IssueAll(on(l), told);
    }

    /** Handles the complete lines in the buffer. */
    method PollBuffered(on: Reactions, ghost told: seq<Told>)
      requires Valid() && Sound(State().net) && Polite(on) && (inreply ==> con.fd != -1)
      modifies this, con, con.buf
      ensures Valid() && State() == PollLinesWith(old(State()), on, told).0
    {
      hide PollLinesWith, Reacted, Sound, Wire.GetLine, Splittable, Protocol.Close, Log;
      ghost var all := told;
      while true
        invariant Valid() && Sound(State().net) && (inreply ==> con.fd != -1)
        invariant PollLinesWith(State(), on, all) == PollLinesWith(old(State()), on, told)
        decreases |con.env.peers|, |con.env.answers|, Measure(con.State())
      {
        PollTurnWith(State(), on, all);
        var l := con.GetLine();
        if l.None? { return; }
        if |l.value| < 4 {
          Reject(l.value);
          return;
        }
        all := React(on, l.value, all);
      }
    }

    /** Receives once and handles the complete lines; the handler of a broadcast issues the
        commands `on(line)`. */
    method Poll(on: Reactions)
      requires Valid() && Sound(State().net) && (inreply ==> con.fd != -1) && Polite(on)
      modifies this, con, con.buf
      ensures Valid() && State() == PollWith(old(State()), on).0
    {
      hide PollLinesWith, Protocol.Open;
      var ok := Open();
      if !ok { return; }
      RecvSound(State().net);
      var got := con.Recv();
      if !got { Close(); }
      PollBuffered(on, []);
    }
  }
}
