/** What alternating line extraction and receives does to a byte stream, for every way the
    transport can cut the stream into pieces. */
module Framing {
  import opened CText
  import opened Wire

  // ------------------------------------------------- reference: one split per terminator

  /** The pieces of `s` that a terminator ends, one per terminator. */
  function Split(s: string): seq<string>
    decreases |s|
  {
    var k := Cspn(s);
    if k == |s| then [] else [s[..k]] + Split(s[k + 1..])
  }

  function NonEmpty(ls: seq<string>): seq<string> {
    if ls == [] then [] else (if ls[0] == "" then [] else [ls[0]]) + NonEmpty(ls[1..])
  }

  lemma NonEmptyCons(l: string, ls: seq<string>)
    ensures NonEmpty([l] + ls) == (if l == "" then [] else [l]) + NonEmpty(ls)
  {
    assert ([l] + ls)[1..] == ls;
  }

  lemma {:induction false} SplitSkip(s: string, j: nat)
    requires j <= Spn(s)
    ensures NonEmpty(Split(s)) == NonEmpty(Split(s[j..]))
    ensures |Split(s)| == j + |Split(s[j..])|
  {
    if j == 0 {
      assert s[0..] == s;
    } else {
      assert Spn(s[1..]) == Spn(s) - 1;
      SplitSkip(s[1..], j - 1);
      assert s[1..][j - 1..] == s[j..];
      NonEmptyCons("", Split(s[1..]));
    }
  }

  // ----------------------------------------------------------- fetching one line

  /** No end-of-line character that has arrived waits in front of the unread bytes. */
  predicate EolsGone(n: Net)
    requires n.Ok()
  {
    Unread(n) == "" || !IsEol(Unread(n)[0])
  }

  lemma AreGone(n: Net)
    requires n.Ok() && (Unread(n) == "" || !IsEol(Unread(n)[0]))
    ensures EolsGone(n)
  {
  }

  lemma NothingSkipped(h: string, k: nat, j: nat)
    requires k < |h| && j == Spn(h[k + 1..])
    ensures k + 1 + j <= |h|
    ensures var u := h[k := NUL][k + 1 + j..];
            u == "" || !IsEol(u[0])
  {
    assert k + 1 + j < |h| ==> h[k + 1..][j] == h[k + 1 + j];
  }

  lemma SpnPrefix(s: string, t: string)
    ensures Spn(s) <= Spn(s + t)
  {
    assert forall i | 0 <= i < |s| :: (s + t)[i] == s[i];
  }

  lemma LineAtFront(h: string, rest: string, j: nat)
    requires var k := Cspn(h);
             k < |h| && j == Spn(h[k + 1..])
    ensures var p, k := h + rest, Cspn(h);
            && Cspn(p) == k && p[..k] == h[..k]
            && j <= Spn(p[k + 1..]) && k + j < |h|
  {
    var p, k := h + rest, Cspn(h);
    assert p[..|h|] == h;
    CspnPrefix(p, |h|);
    assert p[k + 1..] == h[k + 1..] + rest;
    SpnPrefix(h[k + 1..], rest);
  }

  /** A line found in the buffer: the text up to the first terminator of the stream, plus
      the `j` end-of-line characters behind it that are in the buffer already. */
  lemma {:induction false} TakeLine(n: Net) returns (j: nat)
    requires n.Ok() && Splittable(n) && GetLine(n).1.Some?
    ensures Cspn(Pending(n)) < |Pending(n)|
    ensures var p := Pending(n);
            var k := Cspn(p);
            && GetLine(n).1 == Some(p[..k])
            && k + j < |p| && j <= Spn(p[k + 1..])
            && Pending(GetLine(n).0) == p[k + 1 + j..]
            && (j > 0 ==> k + 2 < BUFLENRCV)
            && k + 1 < BUFLENRCV
    ensures EolsGone(GetLine(n).0)
  {
    LineTaken(n);
    var gone := LineGone(n);
    var h, rest := Unread(n), Cut(n.env.wire, n.env.quota);
    assert Pending(n) == h + rest;
    hide *;
    var k := Cspn(h);
    j := Spn(h[k + 1..]);
    LineAtFront(h, rest, j);
    NothingSkipped(h, k, j);
    AreGone(GetLine(n).0);
  }

  lemma NothingTaken(n: Net)
    requires n.Ok() && Splittable(n) && GetLine(n).1.None?
    ensures var n1 := GetLine(n).0;
            && Pending(n1) == Pending(n) && Unread(n1) == Unread(n) && Room(n1) > 0
            && Cspn(Unread(n)) == |Unread(n)| < BUFLENRCV - 1
  {
  }

  lemma NothingReceived(n: Net)
    requires n.Ok() && Room(n) > 0 && !Recv(n).1
    ensures Pending(n) == Unread(n)
  {
  }

  lemma NoLine(n: Net)
    requires n.Ok() && Splittable(n) && GetLine(n).1.None?
    ensures Pending(GetLine(n).0) == Pending(n)
    ensures Recv(GetLine(n).0).1 ==> Pending(Recv(GetLine(n).0).0) == Pending(n)
    ensures !Recv(GetLine(n).0).1 ==> Cspn(Pending(n)) == |Pending(n)| < BUFLENRCV - 1
  {
    hide *;
    NothingTaken(n);
    var n1 := GetLine(n).0;
    if Recv(n1).1 { RecvPending(n1); } else { NothingReceived(n1); }
  }

  lemma MovedTransitive(a: Net, b: Net, c: Net)
    requires Moved(a, b) && Moved(b, c)
    ensures Moved(a, c)
  {
  }

  /** `l` is the line lent out at the front of the buffer. */
  predicate LentLine(n: Net, l: string) {
    |l| < n.llen && |l| < |n.held| && l == n.held[..|l|] && n.held[|l|] == NUL
  }

  lemma LineLent(n: Net)
    requires n.Ok() && Splittable(n) && GetLine(n).1.Some?
    ensures Moved(n, GetLine(n).0) && LentLine(GetLine(n).0, GetLine(n).1.value)
  {
    var h, k := Unread(n), |GetLine(n).1.value|;
    assert h[k := NUL][..k] == h[..k];
  }

  /** One fetch takes the text up to the first terminator, plus the `j` end-of-line
      characters behind it, namely those that are in the buffer already: what is left in the
      buffer does not begin with one. A line is at most 2045 bytes long when j > 0. */
  lemma {:induction false} FetchLine(n: Net) returns (j: nat)
    requires n.Ok() && LinesFit(Pending(n)) && Cspn(Pending(n)) < |Pending(n)|
    ensures var p := Pending(n);
            var k := Cspn(p);
            && Fetch(n).1 == Some(p[..k])
            && k + j < |p| && j <= Spn(p[k + 1..])
            && Pending(Fetch(n).0) == p[k + 1 + j..]
            && (j > 0 ==> k + 2 < BUFLENRCV)
            && k + 1 < BUFLENRCV
    ensures Moved(n, Fetch(n).0) && EolsGone(Fetch(n).0)
    ensures LentLine(Fetch(n).0, Fetch(n).1.value)
    decreases Measure(n)
  {
    hide *;
    FetchUnfold(n);
    if GetLine(n).1.Some? {
      j := TakeLine(n);
      LineLent(n);
    } else {
      NoLine(n);
      var n2 := Recv(GetLine(n).0).0;
      j := FetchLine(n2);
      MovedTransitive(n, n2, Fetch(n2).0);
    }
  }

  /** Without a terminator to come there is no line, and the receive that ends the wait
      has failed: the connection is down or broken. */
  lemma {:induction false} FetchEnd(n: Net)
    requires n.Ok() && LinesFit(Pending(n)) && Cspn(Pending(n)) == |Pending(n)|
    ensures Fetch(n).1 == None
    ensures Fetch(n).0.env.faulty == n.env.faulty && (Fetch(n).0.up <==> n.up && n.env.faulty)
    ensures Fetch(n).0.env.peers == n.env.peers && Fetch(n).0.env.sends == n.env.sends
    decreases Measure(n)
  {
    hide *;
    FetchUnfold(n);
    if GetLine(n).1.Some? {
      var j := TakeLine(n);
    } else {
      NoLine(n);
      var n2 := Recv(GetLine(n).0).0;
      if Recv(GetLine(n).0).1 { FetchEnd(n2); }
    }
  }

  // --------------------------------------------------------- draining a stream

  /** All lines delivered until receiving fails. */
  function Drain(n: Net): seq<string>
    requires n.Ok() && LinesFit(Pending(n))
    decreases Measure(n)
  {
    var (n1, l) := Fetch(n);
    if l.None? then [] else [l.value] + Drain(n1)
  }

  lemma DropTwice(s: string, i: nat, j: nat)
    requires i + j <= |s|
    ensures s[i..][j..] == s[i + j..]
  {
  }

  lemma DrainUnfold(n: Net)
    requires n.Ok() && LinesFit(Pending(n)) && Fetch(n).1.Some?
    ensures Drain(n) == [Fetch(n).1.value] + Drain(Fetch(n).0)
  {
    hide Fetch, LinesFit, Pending;
  }

  lemma SplitUnfold(s: string)
    requires Cspn(s) < |s|
    ensures Split(s) == [s[..Cspn(s)]] + Split(s[Cspn(s) + 1..])
  {
    hide Cspn;
  }

  lemma {:induction false} DrainStep(n: Net) returns (l: string, rest: string, j: nat, n1: Net)
    requires n.Ok() && LinesFit(Pending(n)) && Cspn(Pending(n)) < |Pending(n)|
    ensures n1.Ok() && LinesFit(Pending(n1)) && Measure(n1) < Measure(n)
    ensures j <= Spn(rest) <= |rest| && Pending(n1) == rest[j..]
    ensures Drain(n) == [l] + Drain(n1) && Split(Pending(n)) == [l] + Split(rest)
    ensures |l| == Cspn(Pending(n)) && rest == Pending(n)[|l| + 1..]
    ensures j > 0 ==> |l| + 2 < BUFLENRCV
  {
    hide Fetch, LinesFit, RunFits, Pending, Drain, Split, Cspn, Moved, EolsGone, LentLine;
    j := FetchLine(n);
    n1 := Fetch(n).0;
    var p, k := Pending(n), Cspn(Pending(n));
    l, rest := p[..k], p[k + 1..];
    DrainUnfold(n);
    SplitUnfold(p);
    DropTwice(p, k + 1, j);
  }

  lemma DrainEnd(n: Net)
    requires n.Ok() && LinesFit(Pending(n)) && Cspn(Pending(n)) == |Pending(n)|
    ensures Drain(n) == [] == Split(Pending(n))
  {
    FetchEnd(n);
  }

  /** However the bytes arrive, the non-empty lines are exactly the non-empty runs of the
      stream that a terminator ends, in order. */
  lemma {:induction false} NonEmptyLinesExact(n: Net)
    requires n.Ok() && LinesFit(Pending(n))
    ensures NonEmpty(Drain(n)) == NonEmpty(Split(Pending(n)))
    ensures |Drain(n)| <= |Split(Pending(n))|
    decreases Measure(n)
  {
    if Cspn(Pending(n)) == |Pending(n)| {
      DrainEnd(n);
    } else {
      var l, rest, j, n1 := DrainStep(n);
      NonEmptyLinesExact(n1);
      SplitSkip(rest, j);
      NonEmptyCons(l, Drain(n1));
      NonEmptyCons(l, Split(rest));
    }
  }

  /** Texts, each followed by the character that ends it. */
  function Ended(ts: seq<string>, es: seq<char>): string
    requires |ts| == |es|
  {
    if ts == [] then "" else ts[0] + ([es[0]] + Ended(ts[1..], es[1..]))
  }

  predicate NoEnd(t: string) { forall i | 0 <= i < |t| :: t[i] != '\n' && t[i] != '\r' && t[i] != '\0' }

  lemma {:induction false} SplitEnded(ts: seq<string>, es: seq<char>, tail: string)
    requires |ts| == |es| && NoEnd(tail)
    requires forall k | 0 <= k < |ts| :: NoEnd(ts[k]) && (es[k] == '\n' || es[k] == '\r' || es[k] == '\0')
    ensures Split(Ended(ts, es) + tail) == ts
  {
    var s := Ended(ts, es) + tail;
    if ts == [] {
      assert s == tail;
      CspnIs(s, |s|);
    } else {
      var t, rest := ts[0], Ended(ts[1..], es[1..]) + tail;
      assert s == t + ([es[0]] + rest);
      assert s[..|t|] == t && s[|t|] == es[0] && s[|t| + 1..] == rest;
      CspnIs(s, |t|);
      SplitEnded(ts[1..], es[1..], tail);
    }
  }

  /** However a stream of texts arrives, each ended by a newline, a carriage return, both or a
      NUL, the non-empty texts are the non-empty lines. An unfinished text at the end is none. */
  lemma LinesDelivered(n: Net, ts: seq<string>, es: seq<char>, tail: string)
    requires n.Ok() && |ts| == |es| && Pending(n) == Ended(ts, es) + tail && LinesFit(Pending(n))
    requires forall k | 0 <= k < |ts| :: NoEnd(ts[k]) && (es[k] == '\n' || es[k] == '\r' || es[k] == '\0')
    requires NoEnd(tail)
    ensures NonEmpty(Drain(n)) == NonEmpty(ts)
  {
    NonEmptyLinesExact(n);
    SplitEnded(ts, es, tail);
  }

  // ------------------------------------------------- when chunking can be observed

  /** A line ends at a newline, a carriage return or a NUL. */
  predicate Ends(c: char) { c == '\n' || c == '\r' || c == '\0' }

  /** The length of the unbroken run at the end of `s`. */
  function TrailingRun(s: string): nat {
    if s == "" || Ends(s[|s| - 1]) then 0 else 1 + TrailingRun(s[..|s| - 1])
  }

  /** An end-of-line character directly after a terminator, the line before them leaving
      room for both in the buffer. */
  predicate PairAt(p: string, i: nat) {
    && i + 1 < |p| && Ends(p[i]) && (p[i + 1] == '\n' || p[i + 1] == '\r')
    && TrailingRun(p[..i]) <= 2045
  }

  ghost predicate HasPair(p: string) { exists i: nat :: PairAt(p, i) }

  lemma {:induction false} TrailingRunAfter(a: string, b: string)
    requires a != "" && IsTerm(a[|a| - 1])
    ensures TrailingRun(a + b) == TrailingRun(b)
    decreases |b|
  {
    if b == "" {
      assert a + b == a;
    } else {
      assert (a + b)[..|a + b| - 1] == a + b[..|b| - 1];
      TrailingRunAfter(a, b[..|b| - 1]);
    }
  }

  lemma {:induction false} TrailingRunUnbroken(s: string)
    requires Unbroken(s)
    ensures TrailingRun(s) == |s|
  {
    if s != "" { TrailingRunUnbroken(s[..|s| - 1]); }
  }

  lemma PairSuffix(p: string, k: nat)
    requires k < |p| && IsTerm(p[k]) && HasPair(p[k + 1..])
    ensures HasPair(p)
  {
    var i: nat :| PairAt(p[k + 1..], i);
    assert p[..k + 1 + i] == p[..k + 1] + p[k + 1..][..i];
    TrailingRunAfter(p[..k + 1], p[k + 1..][..i]);
    assert PairAt(p, k + 1 + i);
  }

  lemma PairBehindLine(p: string)
    requires var k := Cspn(p);
             k < |p| && Spn(p[k + 1..]) > 0 && k + 2 < BUFLENRCV
    ensures HasPair(p)
  {
    var k := Cspn(p);
    TrailingRunUnbroken(p[..k]);
    assert IsEol(p[k + 1..][0]);
    assert PairAt(p, k);
  }

  /** Without such a pair every chunking delivers one line per terminator. */
  lemma {:induction false} NoPairExact(n: Net)
    requires n.Ok() && LinesFit(Pending(n)) && !HasPair(Pending(n))
    ensures Drain(n) == Split(Pending(n))
    decreases Measure(n)
  {
    if Cspn(Pending(n)) == |Pending(n)| {
      DrainEnd(n);
    } else {
      var l, rest, j, n1 := DrainStep(n);
      if j > 0 { PairBehindLine(Pending(n)); }
      if HasPair(rest) { PairSuffix(Pending(n), |l|); }
      assert rest[0..] == rest;
      NoPairExact(n1);
    }
  }

  /** A connected socket that has received nothing yet and will be sent `p`. */
  function Fresh(p: string, pace: seq<nat>): Net {
    Net(true, "", 0, Env(p, pace, None, false, "", [], [], [], []))
  }

  /** The lines read from the stream `p` when receives return pieces of the sizes `pace`. */
  function LinesRead(p: string, pace: seq<nat>): seq<string>
    requires LinesFit(p)
  {
    assert Pending(Fresh(p, pace)) == p;
    Drain(Fresh(p, pace))
  }

  function SingleBytes(m: nat): seq<nat> { seq(m, _ => 0) }

  /** The socket waits for the rest of a line, receiving single bytes for `m` receives. */
  predicate Trickling(n: Net, m: nat) {
    && n.Ok() && n.up && n.env.quota.None? && Unbroken(Unread(n))
    && |n.env.pace| >= m && forall i | 0 <= i < m :: n.env.pace[i] == 0
  }

  /** What is waiting is passed over until a receive brings more. */
  lemma Wait(n: Net)
    requires n.Ok() && Unbroken(Unread(n)) && LinesFit(Pending(n)) && n.llen <= |n.held|
    ensures Splittable(n) && GetLine(n) == (n.(held := Unread(n), llen := 0), None)
    ensures var (n1, ok) := Recv(GetLine(n).0);
            ok ==> LinesFit(Pending(n1)) && Pending(n1) == Pending(n) && Drain(n1) == Drain(n)
  {
    FitsSplittable(n);
    CspnIs(Unread(n), |n.held| - n.llen);
    NoLine(n);
  }

  lemma ReceiveExactly(n: Net, k: nat)
    requires n.Ok() && n.up && n.env.quota.None? && n.env.pace != []
    requires k == n.env.pace[0] + 1 <= |n.env.wire| && |n.held| + k < BUFLENRCV
    ensures Recv(n) == (n.(held := n.held + n.env.wire[..k], env := Delivered(n.env, k)), true)
  {
  }

  /** Waits for more and receives the next `k` bytes. */
  lemma {:induction false} ReceiveNext(n: Net, k: nat) returns (n1: Net)
    requires Trickling(n, 0) && LinesFit(Pending(n)) && n.env.pace != []
    requires k == n.env.pace[0] + 1 <= |n.env.wire| && |Unread(n)| + k < BUFLENRCV
    ensures n1.Ok() && n1.up && n1.env.quota.None? && n1.llen == 0
    ensures n1.env.wire == n.env.wire[k..] && n1.env.pace == n.env.pace[1..]
    ensures n1.held == Unread(n) + n.env.wire[..k]
    ensures LinesFit(Pending(n1)) && Pending(n1) == Pending(n) && Drain(n1) == Drain(n)
  {
    Wait(n);
    hide Pending, LinesFit, Drain, Cspn, GetLine, Splittable, Unbroken, Recv, Unread;
    var n0 := GetLine(n).0;
    ReceiveExactly(n0, k);
    n1 := Recv(n0).0;
  }

  lemma TricklingNext(n: Net, n1: Net, m: nat)
    requires Trickling(n, m) && m > 0 && n.env.wire != ""
    requires n1.Ok() && n1.up && n1.env.quota.None? && n1.env.pace == n.env.pace[1..]
    requires Unread(n1) == if IsTerm(n.env.wire[0]) then "" else Unread(n) + n.env.wire[..1]
    ensures Trickling(n1, m - 1)
  {
  }

  lemma ShortHeld(n: Net)
    requires n.Ok() && Unbroken(Unread(n)) && LinesFit(Pending(n))
    ensures |Unread(n)| + 1 < BUFLENRCV
  {
    FitsSplittable(n);
    CspnIs(Unread(n), |n.held| - n.llen);
  }

  lemma BufferedLine(n: Net, k: nat)
    requires n.Ok() && n.llen == 0 && k < |n.held| && Unbroken(n.held[..k]) && IsTerm(n.held[k])
    requires |n.held| == k + 1 || (|n.held| == k + 2 && IsEol(n.held[k + 1]))
    ensures Splittable(n)
    ensures GetLine(n) == (n.(held := n.held[k := NUL], llen := |n.held|), Some(n.held[..k]))
  {
    var h := n.held;
    CspnIs(h, k);
    SpnIs(h[k + 1..], |h| - k - 1);
  }

  lemma SplitAfter(h: string, rest: string, k: nat)
    requires k < |h| && Unbroken(h[..k]) && IsTerm(h[k])
    ensures Split(h + rest) == [h[..k]] + Split((h + rest)[k + 1..])
  {
    var p := h + rest;
    assert p[..k] == h[..k];
    CspnIs(p, k);
  }

  lemma TakeNow(n: Net)
    requires n.Ok() && LinesFit(Pending(n)) && Splittable(n) && GetLine(n).1.Some?
    ensures LinesFit(Pending(GetLine(n).0))
    ensures Fetch(n) == GetLine(n)
    ensures Drain(n) == [GetLine(n).1.value] + Drain(GetLine(n).0)
  {
    GetLineFits(n);
  }

  /** Takes a line from a buffer that holds nothing after its terminator, or one more
      end-of-line character. */
  lemma {:induction false} TakeBuffered(n: Net, k: nat) returns (n1: Net)
    requires n.Ok() && n.llen == 0 && LinesFit(Pending(n))
    requires k < |n.held| && Unbroken(n.held[..k]) && IsTerm(n.held[k])
    requires |n.held| == k + 1 || (|n.held| == k + 2 && IsEol(n.held[k + 1]))
    ensures n1 == n.(held := n1.held, llen := n1.llen) && n1.Ok() && Unread(n1) == ""
    ensures LinesFit(Pending(n1))
    ensures Drain(n) == [n.held[..k]] + Drain(n1)
    ensures Split(Pending(n)) == [n.held[..k]] + Split(Pending(n)[k + 1..])
    ensures Pending(n1) == Pending(n)[|n.held|..]
  {
    var h, p := n.held, Pending(n);
    SplitAfter(h, Cut(n.env.wire, n.env.quota), k);
    BufferedLine(n, k);
    hide Cspn, Spn, Split, Drain, LinesFit, GetLine;
    FitsSplittable(n);
    GetLineFits(n);
    n1 := GetLine(n).0;
    assert Pending(n1) == p[|h|..];
    TakeNow(n);
  }

  lemma {:induction false} TrickleTerm(n: Net, n0: Net) returns (n1: Net, ls: seq<string>)
    requires n.Ok() && n0.Ok() && Unbroken(Unread(n)) && n.env.wire != ""
    requires IsTerm(n.env.wire[0]) && n0.held == Unread(n) + n.env.wire[..1]
    requires n0.llen == 0 && LinesFit(Pending(n)) && LinesFit(Pending(n0))
    requires Pending(n0) == Pending(n) && Drain(n0) == Drain(n)
    ensures n1 == n0.(held := n1.held, llen := n1.llen) && n1.Ok() && Unread(n1) == ""
    ensures LinesFit(Pending(n1))
    ensures Drain(n) == ls + Drain(n1) && Split(Pending(n)) == ls + Split(Pending(n1))
  {
    var h := Unread(n);
    assert n0.held[..|h|] == h;
    n1 := TakeBuffered(n0, |h|);
    ls := [h];
  }

  /** The state after receiving one more byte and, if it ends a line, taking that line. */
  lemma {:induction false} Trickle(n: Net, m: nat) returns (n1: Net, ls: seq<string>)
    requires Trickling(n, m) && m > 0 && n.env.wire != "" && LinesFit(Pending(n))
    ensures Trickling(n1, m - 1) && LinesFit(Pending(n1))
    ensures n1.env.wire == n.env.wire[1..] && n1.env.pace == n.env.pace[1..]
    ensures Unread(n1)
            == if IsTerm(n.env.wire[0]) then "" else Unread(n) + n.env.wire[..1]
    ensures Drain(n) == ls + Drain(n1) && Split(Pending(n)) == ls + Split(Pending(n1))
  {
    hide Drain, Split, LinesFit, Cspn, Pending;
    ShortHeld(n);
    var n0 := ReceiveNext(n, 1);
    if IsTerm(n.env.wire[0]) {
      n1, ls := TrickleTerm(n, n0);
    } else {
      n1, ls := n0, [];
    }
    TricklingNext(n, n1, m);
  }

  lemma {:induction false} ByteByByte(n: Net)
    requires n.Ok() && Trickling(n, |n.env.wire|) && LinesFit(Pending(n))
    ensures Drain(n) == Split(Pending(n))
    decreases Measure(n)
  {
    if n.env.wire == "" {
      CspnIs(Pending(n), |Pending(n)|);
      FetchEnd(n);
    } else {
      var n1, ls := Trickle(n, |n.env.wire|);
      ByteByByte(n1);
    }
  }

  lemma TrailingRunNext(h: string, w: string, m: nat)
    requires 0 < m <= |w|
    ensures TrailingRun((if IsTerm(w[0]) then "" else h + w[..1]) + w[1..][..m - 1])
            == TrailingRun(h + w[..m])
  {
    assert h + w[..m] == (h + w[..1]) + w[1..][..m - 1];
    if IsTerm(w[0]) {
      assert "" + w[1..][..m - 1] == w[1..][..m - 1];
      TrailingRunAfter(h + w[..1], w[1..][..m - 1]);
    }
  }

  lemma PairTaken(n: Net)
    requires Trickling(n, 0) && |n.env.pace| > 0 && n.env.pace[0] == 1 && LinesFit(Pending(n))
    requires 1 < |n.env.wire| && IsTerm(n.env.wire[0]) && IsEol(n.env.wire[1])
    requires |Unread(n)| + 2 < BUFLENRCV
    ensures |Drain(n)| < |Split(Pending(n))|
  {
    var h, w := Unread(n), n.env.wire;
    var p := Pending(n);
    var n1 := ReceiveNext(n, 2);
    assert n1.held[..|h|] == h;
    var n2 := TakeBuffered(n1, |h|);
    var rest := p[|h| + 1..];
    assert rest[0] == w[1] && rest[1..] == p[|h| + 2..];
    NonEmptyLinesExact(n2);
    SplitSkip(rest, 1);
  }

  /** Receiving both characters of a pair at once loses the empty line between them. */
  lemma {:induction false} PairAtOnce(n: Net, m: nat)
    requires Trickling(n, m) && |n.env.pace| > m && n.env.pace[m] == 1 && LinesFit(Pending(n))
    requires m + 1 < |n.env.wire| && IsTerm(n.env.wire[m]) && IsEol(n.env.wire[m + 1])
    requires TrailingRun(Unread(n) + n.env.wire[..m]) + 2 < BUFLENRCV
    ensures |Drain(n)| < |Split(Pending(n))|
    decreases m
  {
    var h := Unread(n);
    if m > 0 {
      TrailingRunNext(h, n.env.wire, m);
      var n1, ls := Trickle(n, m);
      PairAtOnce(n1, m - 1);
    } else {
      assert h + n.env.wire[..0] == h;
      TrailingRunUnbroken(h);
      PairTaken(n);
    }
  }

  lemma FreshTrickles(p: string, pace: seq<nat>, m: nat)
    requires m <= |pace| && forall i | 0 <= i < m :: pace[i] == 0
    ensures Trickling(Fresh(p, pace), m) && Pending(Fresh(p, pace)) == p
  {
  }

  lemma PairVisible(p: string, i: nat)
    requires LinesFit(p) && PairAt(p, i)
    ensures LinesRead(p, SingleBytes(|p|)) != LinesRead(p, SingleBytes(i) + [1])
  {
    var slow, quick := Fresh(p, SingleBytes(|p|)), Fresh(p, SingleBytes(i) + [1]);
    FreshTrickles(p, SingleBytes(|p|), |p|);
    FreshTrickles(p, SingleBytes(i) + [1], i);
    hide LinesFit, Cspn, Drain, Split, Trickling, Pending, PairAt;
    ByteByByte(slow);
    assert "" + p[..i] == p[..i];
    PairAtOnce(quick, i);
  }

  /** The delivered lines depend on the chunking exactly when the stream has such a pair. */
  lemma ChunkingInvisibleIff(p: string)
    requires LinesFit(p)
    ensures (forall pace1, pace2 :: LinesRead(p, pace1) == LinesRead(p, pace2)) <==> !HasPair(p)
  {
    if HasPair(p) {
      var i: nat :| PairAt(p, i);
      PairVisible(p, i);
    } else {
      forall pace ensures LinesRead(p, pace) == Split(p) {
        assert Pending(Fresh(p, pace)) == p;
        NoPairExact(Fresh(p, pace));
      }
    }
  }

  // ------------------------------------------------------------ the length limit

  /** No line extraction ever finds the buffer full and without a terminator. */
  predicate NeverTruncates(n: Net)
    requires n.Ok()
    decreases Measure(n)
  {
    && Splittable(n)
    && (GetLine(n).1.Some? ==> NeverTruncates(GetLine(n).0))
    && (GetLine(n).1.None? && Recv(GetLine(n).0).1 ==> NeverTruncates(Recv(GetLine(n).0).0))
  }

  lemma FitsExtend(p: string, k: nat, j: nat)
    requires k == Cspn(p) < BUFLENRCV - 1 && k + j < |p| && j <= Spn(p[k + 1..])
    requires LinesFit(p[k + 1 + j..])
    ensures LinesFit(p)
  {
    forall i: nat | i <= |p| ensures RunFits(p, i) {
      if i <= k {
        assert p[i..][k - i] == p[k];
      } else if i <= k + j {
        assert p[i..][0] == p[k + 1..][i - k - 1];
      } else {
        assert p[i..] == p[k + 1 + j..][i - (k + 1 + j)..];
        assert RunFits(p[k + 1 + j..], i - (k + 1 + j));
      }
    }
  }

  lemma FitsAfterLine(n: Net)
    requires n.Ok() && Splittable(n) && GetLine(n).1.Some?
    ensures LinesFit(Pending(n)) <==> LinesFit(Pending(GetLine(n).0))
  {
    hide *;
    if LinesFit(Pending(n)) { GetLineFits(n); }
    var j := TakeLine(n);
    if LinesFit(Pending(GetLine(n).0)) { FitsExtend(Pending(n), Cspn(Pending(n)), j); }
  }

  lemma ShortFits(p: string)
    requires |p| < BUFLENRCV - 1
    ensures LinesFit(p)
  {
    forall i: nat | i <= |p| ensures RunFits(p, i) {}
  }

  /** The truncation branch is avoided exactly on streams whose lines are at most 2046
      bytes long, whatever the chunking. */
  lemma {:induction false} NeverTruncatesIff(n: Net)
    requires n.Ok()
    ensures NeverTruncates(n) <==> LinesFit(Pending(n))
    decreases Measure(n)
  {
    if LinesFit(Pending(n)) { FitsSplittable(n); }
    if Splittable(n) {
      if GetLine(n).1.Some? {
        FitsAfterLine(n);
        NeverTruncatesIff(GetLine(n).0);
      } else {
        NoLine(n);
        if Recv(GetLine(n).0).1 {
          NeverTruncatesIff(Recv(GetLine(n).0).0);
        } else {
          ShortFits(Pending(n));
        }
      }
    }
  }

  // ------------------------------------------------------------ room to receive

  /** A receive into free room; if it fails on an open connection nothing more will come. */
  predicate Roomy(n: Net)
    requires n.Ok()
  {
    Room(n) > 0 && (n.up && !Recv(n).1 ==> Cut(n.env.wire, n.env.quota) == "")
  }

  /** Every receive that fetching a line issues is roomy. */
  ghost predicate FetchRoomy(n: Net)
    requires n.Ok() && LinesFit(Pending(n))
    decreases Measure(n)
  {
    TurnFits(n);
    var (n1, l) := GetLine(n);
    var (n2, ok) := Recv(n1);
    l.None? ==> Roomy(n1) && (ok ==> FetchRoomy(n2))
  }

  lemma EmptyHasRoom(n: Net)
    requires n.Ok() && Splittable(n) && GetLine(n).1.None?
    ensures Roomy(GetLine(n).0)
  {
  }

  /** So a full buffer is never mistaken for the end of the stream, on every stream whose
      lines fit and for every chunking. */
  lemma {:induction false} FetchHasRoom(n: Net)
    requires n.Ok() && LinesFit(Pending(n))
    ensures FetchRoomy(n)
    decreases Measure(n)
  {
    hide LinesFit, Pending, Fetch;
    TurnFits(n);
    var (n1, l) := GetLine(n);
    var (n2, ok) := Recv(n1);
    if l.None? {
      EmptyHasRoom(n);
      if ok { FetchHasRoom(n2); }
    }
  }
}
