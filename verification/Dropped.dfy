/** What a list query returns when the connection breaks in the middle of the reply. */
module Dropped {
  import opened CText
  import opened Wire
  import opened Framing
  import opened Protocol
  import opened Replies

  /** The lines `ls` are the beginning of a reply: broadcasts and continued reply lines. */
  predicate PartialScript(ls: seq<string>, code: string, ts: seq<string>) {
    if ls == [] then ts == []
    else
      && WellFormed(ls[0])
      && if IsBcast(ls[0]) then PartialScript(ls[1..], code, ts)
         else ts != [] && ls[0] == code + "-" + ts[0] && PartialScript(ls[1..], code, ts[1..])
  }

  /** All that will still arrive are the lines `ls` of a reply and an unfinished line. */
  ghost predicate Dangling(s: State, ls: seq<string>, code: string, ts: seq<string>, tail: string) {
    && Sound(s.net) && s.inreply && s.net.up && CodeFits(s, code) && Unbroken(tail)
    && PartialScript(ls, code, ts) && Pending(s.net) == Unlines(ls) + tail
  }

  /** The connection failed after the lines `ls` were taken from it. */
  predicate BrokenOff(s: State, s': State, ls: seq<string>) {
    && !s'.net.up && !s'.inreply && s'.code == "" && s'.line == None
    && s'.trace == s.trace + Events(ls) + [Disconnected]
  }

  lemma PartialClean(ls: seq<string>, code: string, ts: seq<string>, tail: string)
    requires PartialScript(ls, code, ts) && Unbroken(tail)
    ensures Clean(Unlines(ls) + tail)
  {
    if ls != [] { assert (Unlines(ls) + tail)[0] == ls[0][0]; }
  }

  lemma DanglingParts(s: State, ls: seq<string>, code: string, ts: seq<string>, tail: string)
    requires Dangling(s, ls, code, ts, tail)
    ensures Sound(s.net) && (ls == [] ==> ts == [])
    ensures ls != [] && !IsBcast(ls[0]) ==> ts != []
  {
  }

  lemma {:induction false} BcastStep(s: State, ls: seq<string>, code: string, ts: seq<string>, tail: string)
      returns (s0: State)
    requires Dangling(s, ls, code, ts, tail) && ls != [] && IsBcast(ls[0])
    ensures s0 == Log(s.(net := s0.net), Dispatched(ls[0])) && Moved(s.net, s0.net)
    ensures Dangling(s0, ls[1..], code, ts, tail) && Rnext(s0) == Rnext(s)
  {
    var l := ls[0];
    var more := Unlines(ls[1..]) + tail;
    assert Pending(s.net) == l + "\n" + more;
    PartialClean(ls[1..], code, ts, tail);
    var n := RnextBcast(s, l, more);
    s0 := Log(s.(net := n), Dispatched(l));
  }

  lemma ReplyParts(s: State, ls: seq<string>, code: string, ts: seq<string>, tail: string)
    requires Dangling(s, ls, code, ts, tail) && ls != [] && !IsBcast(ls[0])
    ensures ts != [] && ls[0] == code + "-" + ts[0] && PartialScript(ls[1..], code, ts[1..])
    ensures Pending(s.net) == ls[0] + "\n" + (Unlines(ls[1..]) + tail)
    ensures Clean(Unlines(ls[1..]) + tail) && WellFormed(ls[0])
    ensures ls[0][..3] == code && ls[0][3] == '-'
  {
    PartialClean(ls[1..], code, ts[1..], tail);
    assert ls[0] + "\n" + Unlines(ls[1..]) + tail == ls[0] + "\n" + (Unlines(ls[1..]) + tail);
  }

  lemma {:induction false} ReplyStep(s: State, ls: seq<string>, code: string, ts: seq<string>, tail: string)
      returns (s1: State)
    requires Dangling(s, ls, code, ts, tail) && ls != [] && !IsBcast(ls[0])
    ensures ts != [] && Rnext(s) == (s1, 0)
    ensures AtLine(s1, code, ts[0]) && Dangling(s1, ls[1..], code, ts[1..], tail)
    ensures s1 == After(s, s1.net, code, true, Events(ls[..1])) && Moved(s.net, s1.net)
  {
    ReplyParts(s, ls, code, ts, tail);
    hide Events, Sound, IsBcast, Pending, Unlines, PartialScript, Clean, Rnext;
    hide Moved, LentLine, WellFormed, Unbroken, Measure;
    var l := ls[0];
    var more := Unlines(ls[1..]) + tail;
    var n := RnextReply(s, l, more);
    s1 := After(s, n, code, true, Events(ls[..1]));
    FirstEvent(ls);
  }

  lemma StillReading(s: State, s1: State, code: string, ls: seq<string>)
    requires ls != [] && s1 == After(s, s1.net, code, true, Events(ls[..1]))
    ensures s1.inreply
  {
  }

  lemma AfterBcast(s: State, s0: State, s1: State, ls: seq<string>, code: string, k: nat)
    requires ls != [] && IsBcast(ls[0]) && s0 == Log(s.(net := s0.net), Dispatched(ls[0]))
    requires k <= |ls[1..]|
    ensures s1 == After(s0, s1.net, code, s1.inreply, Events(ls[1..][..k]))
            ==> s1 == After(s, s1.net, code, s1.inreply, Events(ls[..k + 1]))
    ensures BrokenOff(s0, s1, ls[1..]) ==> BrokenOff(s, s1, ls)
    ensures ls[1..][k..] == ls[k + 1..]
  {
    AfterLog(s, s0.net, s1.net, Dispatched(ls[0]), code, s1.inreply, Events(ls[1..][..k]));
    assert Events(ls[..k + 1]) == [Dispatched(ls[0])] + Events(ls[1..][..k]);
    EventsSplit(ls, 1);
    assert Events(ls[..1]) == [Dispatched(ls[0])];
    assert s.trace + [Dispatched(ls[0])] + Events(ls[1..]) == s.trace + Events(ls);
  }

  lemma {:induction false} BreakNow(s: State, code: string, tail: string) returns (s1: State)
    requires Dangling(s, [], code, [], tail)
    ensures Sound(s.net) && Rnext(s) == (s1, -1) && BrokenOff(s, s1, [])
  {
    var n := s.net;
    assert Pending(n) == tail;
    CspnIs(tail, |tail|);
    SoundFits(n);
    FetchEnd(n);
    s1 := Rnext(s).0;
    assert s.trace + Events([]) + [Disconnected] == s.trace + [Disconnected];
  }

  lemma {:induction false} NextOrBroken(s: State, ls: seq<string>, code: string, ts: seq<string>,
                                        tail: string) returns (s1: State, k: nat)
    requires Dangling(s, ls, code, ts, tail)
    ensures Sound(s.net) && k <= |ls|
    ensures ts == [] ==> Rnext(s) == (s1, -1) && BrokenOff(s, s1, ls)
    ensures ts != [] ==>
              && Rnext(s) == (s1, 0) && k > 0
              && AtLine(s1, code, ts[0]) && Dangling(s1, ls[k..], code, ts[1..], tail)
              && s1 == After(s, s1.net, code, s1.inreply, Events(ls[..k]))
    decreases |ls|
  {
    hide *;
    DanglingParts(s, ls, code, ts, tail);
    if ls == [] {
      s1 := BreakNow(s, code, tail);
      k := 0;
    } else if IsBcast(ls[0]) {
      var s0 := BcastStep(s, ls, code, ts, tail);
      s1, k := NextOrBroken(s0, ls[1..], code, ts, tail);
      AfterBcast(s, s0, s1, ls, code, k);
      k := k + 1;
    } else {
      s1 := ReplyStep(s, ls, code, ts, tail);
      StillReading(s, s1, code, ls);
      k := 1;
    }
  }

  lemma BrokenLater(s: State, s1: State, s2: State, ls: seq<string>, code: string, k: nat)
    requires k <= |ls| && s1 == After(s, s1.net, code, s1.inreply, Events(ls[..k]))
    requires BrokenOff(s1, s2, ls[k..])
    ensures BrokenOff(s, s2, ls)
  {
    EventsSplit(ls, k);
    assert s.trace + Events(ls[..k]) + Events(ls[k..]) == s.trace + Events(ls);
  }

  /** The records of the lines that arrived come out, and nothing says that more were to
      come: the result is a proper prefix of the list, not a failure. */
  lemma {:induction false} CollectPrefix<T(!new)>(s: State, conv: string -> Conv<T>,
      acc: seq<Option<T>>, code: string, t: string, ls: seq<string>, ts: seq<string>,
      tail: string, rs: seq<Option<T>>)
    requires AtLine(s, code, t) && Dangling(s, ls, code, ts, tail)
    requires AllAccepted(conv, [t] + ts, rs)
    ensures Sound(s.net) && Collect(s, conv, acc).1 == Some(acc + rs)
    ensures BrokenOff(s, Collect(s, conv, acc).0, ls)
    decreases |ls|
  {
    hide *;
    DanglingParts(s, ls, code, ts, tail);
    CollectUnfold(s, conv, acc);
    AcceptedAt(s, conv, code, t, ts, rs);
    var all := acc + [rs[0]];
    var s1, k := NextOrBroken(s, ls, code, ts, tail);
    if ts == [] {
      assert all == acc + rs;
    } else {
      assert [ts[0]] + ts[1..] == ts;
      CollectPrefix(s1, conv, all, code, ts[0], ls[k..], ts[1..], tail, rs[1..]);
      assert all + rs[1..] == acc + rs;
      BrokenLater(s, s1, Collect(s1, conv, all).0, ls, code, k);
    }
  }

  lemma SameTrace(s: State, cmd: string)
    ensures AfterSend(s, cmd).trace == s.trace
  {
  }

  lemma BrokenFromSend(s: State, cmd: string, s': State, ls: seq<string>)
    requires BrokenOff(AfterSend(s, cmd), s', ls)
    ensures BrokenOff(s, s', ls)
  {
  }

  lemma CodeAt(s: State, code: string, t: string)
    requires AtLine(s, code, t)
    ensures CodeStarts(s, '5') <==> code[0] == '5'
  {
  }

  /** A list query whose connection breaks returns the records received so far, or fails if
      there is none. */
  lemma QueryPrefix<T(!new)>(s: State, cmd: string, conv: string -> Conv<T>, ls: seq<string>,
      code: string, ts: seq<string>, tail: string, rs: seq<Option<T>>)
    requires Sound(s.net) && Ready(s) && |cmd| < BUFLENLINE - 1
    requires Dangling(AfterSend(s, cmd), ls, code, ts, tail)
    requires |code| == 3 && code[0] != '5' && AllAccepted(conv, ts, rs)
    ensures Query(s, cmd, conv).1 == if ts == [] then None else Some(rs)
    ensures BrokenOff(s, Query(s, cmd, conv).0, ls)
  {
    hide *;
    VsendWhenReady(s, cmd);
    var s0 := AfterSend(s, cmd);
    assert s0.trace == s.trace by { SameTrace(s, cmd); }
    var s1, k := NextOrBroken(s0, ls, code, ts, tail);
    if ts == [] {
      QueryFails(s, cmd, conv);
      BrokenFromSend(s, cmd, s1, ls);
    } else {
      QueryUnfold(s, cmd, conv, s1);
      CodeAt(s1, code, ts[0]);
      assert [ts[0]] + ts[1..] == ts;
      CollectPrefix(s1, conv, [], code, ts[0], ls[k..], ts[1..], tail, rs);
      assert [] + rs == rs;
      BrokenLater(s0, s1, Collect(s1, conv, []).0, ls, code, k);
      BrokenFromSend(s, cmd, Collect(s1, conv, []).0, ls);
    }
  }
}
