/** The socket object: a file descriptor and a fixed buffer that is shifted, appended to
    and split in place. */
module Sock {
  import opened CText
  import opened Wire

  lemma KeptFront(a: string, b: string, m: nat, n: nat)
    requires n <= m <= |a| == |b| && a[..m] == b[..m]
    ensures a[..n] == b[..n]
  {
    assert a[..n] == a[..m][..n] && b[..n] == b[..m][..n];
  }

  class Sock {
    var fd: int
    const buf: array<char>
    var ilen: nat
    var llen: nat

    var env: Env

    ghost predicate Valid()
      reads this, buf
    {
      && fd >= -1
      && buf.Length == BUFLENRCV
      && llen <= ilen < BUFLENRCV
      && (ilen > 0 ==> buf[ilen] == NUL)
      && (fd == -1 ==> ilen == 0 && env.wire == "")
    }

    ghost function State(): (n: Net)
      requires Valid()
      reads this, buf
      ensures n.Ok()
    {
      Net(fd != -1, buf[..ilen], llen, env)
    }

    /** The pointer to the front of the buffer denotes the line `l`. */
    ghost predicate Lent(l: string)
      reads this, buf
    {
      |l| < buf.Length && buf[..|l|] == l && buf[|l|] == NUL
    }

    constructor (peers: seq<Peer>, sends: seq<bool>)
      ensures Valid() && fresh(buf)
      ensures !State().up && State().env.peers == peers && State().env.sends == sends
    {
      fd, ilen, llen := -1, 0, 0;
      buf := new char[BUFLENRCV];
      env := Env("", [], None, false, "", [], [], peers, sends);
    }

    method Disconnect()
      requires Valid()
      modifies this
      ensures Valid() && State() == Wire.Disconnect(old(State()))
    {
      if fd < 0 { return; }
      fd, ilen, llen := -1, 0, 0;
      env := env.(wire := "");
    }

    method Connect() returns (ok: bool)
      requires Valid()
      modifies this
      ensures Valid() && (State(), ok) == Wire.Connect(old(State()))
    {
      if fd != -1 { return true; }
      if env.peers == [] { return false; }
      var peer := env.peers[0];
      env := env.(peers := env.peers[1..]);
      match peer
      case Refused => return false;
      case Serves(hello, answers, pace, quota, faulty) =>
        fd, ilen, llen := 0, 0, 0;
        env := Env(hello, pace, quota, faulty, "", answers, [], env.peers, env.sends);
        return true;
    }

    method Send(text: string) returns (ok: bool)
      requires Valid()
      modifies this
      ensures Valid() && (State(), ok) == Wire.Send(old(State()), text)
    {
      if fd == -1 { return false; }
      ok := true;
      if env.sends != [] {
        ok := env.sends[0];
        env := env.(sends := env.sends[1..]);
      }
      if ok { env := Answered(env, text); }
    }

    /** Shifts the bytes after the lent line to the front of the buffer. */
    method FreeLine()
      requires Valid()
      modifies this`ilen, this`llen, buf
      ensures Valid() && llen == 0
      ensures State() == old(State()).(held := old(buf[llen..ilen]), llen := 0)
    {
      if llen == 0 { return; }
      var i := 0;
      while i < ilen - llen
        invariant 0 <= i <= ilen - llen
        invariant buf[..i] == old(buf[llen..llen + i])
        invariant forall j | i <= j < buf.Length :: buf[j] == old(buf[j])
        modifies buf
      {
        buf[i] := buf[i + llen];
        i := i + 1;
      }
      ilen := ilen - llen;
      llen := 0;
      buf[ilen] := NUL;
    }

    /** `strcspn(buf, "\n\r")`; the NUL behind the held bytes bounds the scan. */
    method FindTerm() returns (k: nat)
      requires Valid() && ilen > 0
      ensures k == Cspn(buf[..ilen]) <= ilen
    {
      k := 0;
      while !IsTerm(buf[k])
        invariant k <= ilen && Unbroken(buf[..k])
        decreases ilen - k
      {
        k := k + 1;
      }
      assert buf[..ilen][..k] == buf[..k];
      CspnIs(buf[..ilen], k);
    }

    /** `strspn(buf + from, "\n\r")` */
    method CountEols(from: nat) returns (k: nat)
      requires Valid() && 0 < from <= ilen
      ensures k == Spn(buf[from..ilen]) <= ilen - from
    {
      k := 0;
      while IsEol(buf[from + k])
        invariant from + k <= ilen
        invariant forall j | from <= j < from + k :: IsEol(buf[j])
        decreases ilen - k
      {
        k := k + 1;
      }
      SpnIs(buf[from..ilen], k);
    }

    /** The transport writes `bytes` behind what the buffer holds. */
    method Append(bytes: string)
      requires Valid() && fd != -1 && ilen + |bytes| < BUFLENRCV
      modifies this`ilen, buf
      ensures Valid() && State() == old(State()).(held := old(buf[..ilen]) + bytes)
      ensures ilen == old(ilen) + |bytes| && buf[..old(ilen)] == old(buf[..ilen])
    {
      var i := 0;
      while i < |bytes|
        invariant 0 <= i <= |bytes|
        invariant buf[..ilen] == old(buf[..ilen])
        invariant buf[ilen..ilen + i] == bytes[..i]
        modifies buf
      {
        buf[ilen + i] := bytes[i];
        i := i + 1;
      }
      assert buf[..ilen + |bytes|] == old(buf[..ilen]) + bytes;
      ilen := ilen + |bytes|;
      buf[ilen] := NUL;
    }

    /** Receives into the free part of the buffer; an end of file drops the connection. */
    method Recv() returns (ok: bool)
      requires Valid()
      modifies this, buf
      ensures Valid() && (State(), ok) == Wire.Recv(old(State()))
      ensures buf[..old(ilen)] == old(buf[..ilen]) && (fd == -1 || old(ilen) <= ilen)
      ensures old(fd) == -1 ==> fd == -1 && buf[..] == old(buf[..])
    {
      if fd == -1 { return false; }
      var room := BUFLENRCV - ilen - 1;
      var len := Min(room, |Cut(env.wire, env.quota)|);
      if env.pace != [] { len := Min(len, env.pace[0] + 1); }
      if len == 0 {
        // a failing recv() leaves the descriptor to the caller
        if !(env.faulty && room > 0) { Disconnect(); }
        return false;
      }
      Append(env.wire[..len]);
      env := Delivered(env, len);
      return true;
    }

    /** Receiving, any number of times, leaves the line that was handed out last alone, also
        when the connection is lost on the way. */
    method ReceiveTimes(k: nat, ghost l: string)
      requires Valid() && Lent(l) && |l| < llen
      modifies this, buf
      ensures Valid() && Lent(l)
    {
      ghost var n := ilen;
      ghost var front := buf[..n];
      assert front[..|l|] == l && front[|l|] == NUL;
      for i := 0 to k
        invariant Valid() && buf[..n] == front && (fd == -1 || n <= ilen)
      {
        ghost var was, len := buf[..], ilen;
        var ok := Recv();
        KeptFront(was, buf[..], if was == buf[..] then n else len, n);
      }
      assert buf[..|l|] == front[..|l|] && buf[|l|] == front[|l|];
    }

    /** Splits the next complete line off the buffer; the returned line stays in place
        until the next call. */
    method GetLine() returns (l: Option<string>)
      requires Valid() && Splittable(State())
      modifies this`ilen, this`llen, buf
      ensures Valid() && (State(), l) == Wire.GetLine(old(State()))
      ensures l.Some? ==> Lent(l.value) && |l.value| < llen
    {
      hide Cspn, Spn, Splittable;
      ghost var h := buf[llen..ilen];
      assert State().held[llen..] == h;
      FreeLine();
      if ilen == 0 {
        CspnIs(h, 0);
        return None;
      }
      var k := FindTerm();
      if k == ilen { return None; }
      l := Some(buf[..k]);
      assert buf[..k] == h[..k];
      buf[k] := NUL;
      assert buf[..ilen] == h[k := NUL];
      assert buf[k + 1..ilen] == h[k + 1..];
      var n := CountEols(k + 1);
      llen := k + 1 + n;
    }
  }
}
