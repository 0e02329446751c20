/** The connection under the protocol: the bytes a peer sends, the 2048-byte receive
    buffer they are collected in, and how lines are split off its front. A `Net` value is
    the state of the socket together with the environment that will feed it. */
module Wire {
  import opened CText

  const BUFLENRCV: nat := 2048

  // ------------------------------------------------------------- characters

  predicate IsEol(c: char) { c == '\n' || c == '\r' }

  /** What ends a line for `strcspn(buf, "\n\r")`, which also stops at a NUL. */
  predicate IsTerm(c: char) { IsEol(c) || c == NUL }

  predicate Unbroken(s: string) { forall i | 0 <= i < |s| :: !IsTerm(s[i]) }

  function RunEnd(s: string, i: nat): (k: nat)
    requires i <= |s|
    ensures i <= k <= |s| && (k < |s| ==> IsTerm(s[k]))
    ensures forall j | i <= j < k :: !IsTerm(s[j])
    decreases |s| - i
  {
    if i < |s| && !IsTerm(s[i]) then RunEnd(s, i + 1) else i
  }

  function EolsEnd(s: string, i: nat): (k: nat)
    requires i <= |s|
    ensures i <= k <= |s| && (k < |s| ==> !IsEol(s[k]))
    ensures forall j | i <= j < k :: IsEol(s[j])
    decreases |s| - i
  {
    if i < |s| && IsEol(s[i]) then EolsEnd(s, i + 1) else i
  }

  /** `strcspn(s, "\n\r")` */
  function Cspn(s: string): nat { RunEnd(s, 0) }

  /** `strspn(s, "\n\r")` */
  function Spn(s: string): nat { EolsEnd(s, 0) }

  // ------------------------------------------------------------ environment

  /** The outcome of one connection attempt. A connected peer first writes `hello`, and
      `answers[k]` after it has received the k-th command (nothing more once the answers
      are used up). What the peer writes unasked is part of these texts. The transport
      delivers at most `pace[0] + 1` bytes to the next receive, and so on (any amount once
      `pace` is used up); it breaks after `quota` bytes, either with an error (`faulty`) or
      with an end of file. */
  datatype Peer =
    | Refused
    | Serves(hello: string, answers: seq<string>, pace: seq<nat>, quota: Option<nat>, faulty: bool)

  /** The environment of the socket. */
  datatype Env = Env(
    wire: string,       // written by the server, not yet received
    pace: seq<nat>,
    quota: Option<nat>,
    faulty: bool,
    received: string,   // all bytes received on this connection
    answers: seq<string>, // written by the server after each further command
    heard: seq<string>, // commands the server received on this connection
    peers: seq<Peer>,   // outcomes of the connection attempts to come
    sends: seq<bool>)   // outcomes of the sends to come; none left: they succeed

  datatype Net = Net(
    up: bool,           // fd != -1
    held: string,       // buf[..ilen]
    llen: nat,          // bytes of `held` lent out as the current line
    env: Env)
  {
    predicate Ok() {
      && llen <= |held| < BUFLENRCV
      && (!up ==> held == "" && env.wire == "")
    }
  }

  function Min(a: nat, b: nat): nat { if a <= b then a else b }

  function Cut(w: string, quota: Option<nat>): (c: string)
    ensures c <= w
  {
    if quota.Some? && quota.value < |w| then w[..quota.value] else w
  }

  /** The bytes behind the lent line. */
  function Unread(n: Net): string
    requires n.llen <= |n.held|
  {
    if n.llen == 0 then n.held else n.held[n.llen..]
  }

  /** The bytes that are still to be split into lines: the unread part of the buffer and
      what the transport will deliver. */
  function Pending(n: Net): string
    requires n.Ok()
  {
    Unread(n) + Cut(n.env.wire, n.env.quota)
  }

  /** The run that starts at offset `i` is short enough for the buffer. */
  predicate RunFits(s: string, i: nat)
    requires i <= |s|
  {
    Cspn(s[i..]) <= 2046
  }

  /** Every run between terminators is short enough for the buffer. */
  ghost predicate LinesFit(s: string) {
    forall i: nat | i <= |s| :: RunFits(s, i)
  }

  // -------------------------------------------------------------- operations

  function Disconnect(n: Net): Net {
    if n.up then Net(false, "", 0, n.env.(wire := "")) else n
  }

  function Connect(n: Net): (Net, bool) {
    if n.up then (n, true)
    else if n.env.peers == [] then (n, false)
    else
      var rest := n.env.peers[1..];
      match n.env.peers[0]
      case Refused => (n.(env := n.env.(peers := rest)), false)
      case Serves(hello, answers, pace, quota, faulty) =>
        (Net(true, "", 0,
             Env(hello, pace, quota, faulty, "", answers, [], rest, n.env.sends)), true)
  }

  function Answer(e: Env): string { if e.answers == [] then "" else e.answers[0] }

  /** The server receives `text` and writes its answer. */
  function Answered(e: Env, text: string): Env {
    e.(heard := e.heard + [text],
       wire := e.wire + Answer(e),
       answers := if e.answers == [] then [] else e.answers[1..])
  }

  function Send(n: Net, text: string): (Net, bool) {
    if !n.up then (n, false)
    else
      var env := n.env.(sends := if n.env.sends == [] then [] else n.env.sends[1..]);
      if n.env.sends != [] && !n.env.sends[0] then (n.(env := env), false)
      else
        (n.(env := Answered(env, text)), true)
  }

  function Room(n: Net): nat
    requires n.Ok()
  {
    BUFLENRCV - 1 - |n.held|
  }

  /** How many bytes the next receive delivers. */
  function Arriving(n: Net): (k: nat)
    requires n.Ok()
    ensures k <= Room(n) && k <= |Cut(n.env.wire, n.env.quota)| <= |n.env.wire|
    ensures Room(n) > 0 && Cut(n.env.wire, n.env.quota) != "" ==> k > 0
  {
    var k := Min(Room(n), |Cut(n.env.wire, n.env.quota)|);
    if n.env.pace == [] then k else Min(k, n.env.pace[0] + 1)
  }

  function Delivered(e: Env, k: nat): Env
    requires k <= |Cut(e.wire, e.quota)|
  {
    e.(received := e.received + e.wire[..k],
       wire := e.wire[k..],
       pace := if e.pace == [] then [] else e.pace[1..],
       quota := if e.quota.None? then None else Some(e.quota.value - k))
  }

  function Recv(n: Net): (r: (Net, bool))
    requires n.Ok()
    ensures r.0.Ok()
  {
    if !n.up then (n, false)
    else
      var k := Arriving(n);
      if k == 0 then
        if n.env.faulty && Room(n) > 0 then (n, false) else (Disconnect(n), false)
      else
        (n.(held := n.held + n.env.wire[..k], env := Delivered(n.env, k)), true)
  }

  /** The buffer holds a terminator or has room for one: with a full buffer and none in
      it, the code would truncate the line and step past the end of its buffer. */
  predicate Splittable(n: Net)
    requires n.Ok()
  {
    var h := Unread(n);
    |h| < BUFLENRCV - 1 || Cspn(h) < |h|
  }

  function GetLine(n: Net): (r: (Net, Option<string>))
    requires n.Ok() && Splittable(n)
    ensures r.0.Ok()
  {
    var h := Unread(n);
    var k := Cspn(h);
    if k == |h| then (n.(held := h, llen := 0), None)
    else (n.(held := h[k := NUL], llen := k + 1 + Spn(h[k + 1..])), Some(h[..k]))
  }

  /** Shrinks with every received byte and every line taken. */
  function Measure(n: Net): nat
    requires n.Ok()
  {
    2 * |n.env.wire| + |n.held| - n.llen
  }

  // ------------------------------------------------------------ basic facts

  lemma CspnIs(s: string, k: nat)
    requires k <= |s| && Unbroken(s[..k]) && (k < |s| ==> IsTerm(s[k]))
    ensures Cspn(s) == k
  {
    assert forall j | 0 <= j < k :: s[j] == s[..k][j];
  }

  lemma CspnPrefix(s: string, k: nat)
    requires k <= |s|
    ensures Cspn(s[..k]) == Min(Cspn(s), k)
  {
    CspnIs(s[..k], Min(Cspn(s), k));
  }

  lemma FitsSplittable(n: Net)
    requires n.Ok() && LinesFit(Pending(n))
    ensures Splittable(n)
  {
    var h := Unread(n);
    assert RunFits(Pending(n), 0) && Pending(n)[0..] == Pending(n);
    assert Pending(n)[..|h|] == h;
    CspnPrefix(Pending(n), |h|);
  }

  lemma FitsSuffix(s: string, k: nat)
    requires LinesFit(s) && k <= |s|
    ensures LinesFit(s[k..])
  {
    forall i: nat | i <= |s[k..]| ensures RunFits(s[k..], i) {
      assert s[k..][i..] == s[k + i..];
      assert RunFits(s, k + i);
    }
  }

  lemma LineTaken(n: Net)
    requires n.Ok() && Splittable(n) && GetLine(n).1.Some?
    ensures var h, k := Unread(n), Cspn(Unread(n));
            && k < |h| < BUFLENRCV && k + 1 + Spn(h[k + 1..]) <= |h|
            && GetLine(n).1 == Some(h[..k]) && GetLine(n).0.env == n.env
            && Unread(GetLine(n).0) == h[k := NUL][k + 1 + Spn(h[k + 1..])..]
  {
  }

  lemma DropFront(a: string, b: string, j: nat)
    requires j <= |a|
    ensures (a + b)[j..] == a[j..] + b
  {
  }

  /** Taking a line removes it, its terminator and the end-of-line characters behind it. */
  lemma {:induction false} LineGone(n: Net) returns (j: nat)
    requires n.Ok() && Splittable(n) && GetLine(n).1.Some?
    ensures var h, k := Unread(n), Cspn(Unread(n));
            k < |h| && j == k + 1 + Spn(h[k + 1..])
    ensures j <= |Pending(n)| && Pending(GetLine(n).0) == Pending(n)[j..]
  {
    LineTaken(n);
    hide GetLine, Unread, Cspn, Spn, Splittable;
    var h, k := Unread(n), Cspn(Unread(n));
    j := k + 1 + Spn(h[k + 1..]);
    var rest := Cut(n.env.wire, n.env.quota);
    assert h[k := NUL][j..] == h[j..];
    DropFront(h, rest, j);
  }

  lemma NoLineGone(n: Net)
    requires n.Ok() && Splittable(n) && GetLine(n).1.None?
    ensures Pending(GetLine(n).0) == Pending(n)
  {
  }

  lemma GetLineFits(n: Net)
    requires n.Ok() && Splittable(n) && LinesFit(Pending(n))
    ensures LinesFit(Pending(GetLine(n).0))
    ensures GetLine(n).1.None? ==> Pending(GetLine(n).0) == Pending(n)
  {
    hide *;
    if GetLine(n).1.Some? {
      var j := LineGone(n);
      FitsSuffix(Pending(n), j);
    } else {
      NoLineGone(n);
    }
  }

  /** Complete lines, each at most 2046 bytes long. */
  ghost predicate WholeLines(w: string) {
    LinesFit(w) && (w == "" || IsTerm(w[|w| - 1]))
  }

  lemma EmptyWhole()
    ensures WholeLines("")
  {
    forall i: nat | i <= 0 ensures RunFits("", i) {}
  }

  lemma RecvPending(n: Net)
    requires n.Ok() && Recv(n).1
    ensures Pending(Recv(n).0) == Pending(n)
  {
    var k, n1 := Arriving(n), Recv(n).0;
    assert n.env.wire[..k] + Cut(n1.env.wire, n1.env.quota) == Cut(n.env.wire, n.env.quota);
    assert Unread(n1) == Unread(n) + n.env.wire[..k];
    assert Pending(n1) == Pending(n);
  }

  lemma RecvFits(n: Net)
    requires n.Ok() && LinesFit(Pending(n))
    ensures LinesFit(Pending(Recv(n).0))
    ensures Recv(n).1 ==> Pending(Recv(n).0) == Pending(n)
  {
    hide Cspn;
    var (n1, ok) := Recv(n);
    if ok {
      RecvPending(n);
    } else if n1.up != n.up {
      assert Pending(n1) == "";
      EmptyWhole();
    }
  }

  /** Splitting off a line or receiving goes on with a smaller rest. */
  lemma TurnFits(n: Net)
    requires n.Ok() && LinesFit(Pending(n))
    ensures Splittable(n)
    ensures var (n1, l) := GetLine(n);
            var (n2, ok) := Recv(n1);
            && LinesFit(Pending(n1)) && LinesFit(Pending(n2))
            && (if l.Some? then Measure(n1) < Measure(n) && n1.up else Measure(n1) <= Measure(n))
            && (if ok then Measure(n2) < Measure(n1) else Measure(n2) <= Measure(n1))
  {
    hide LinesFit, Pending;
    FitsSplittable(n);
    GetLineFits(n);
    RecvFits(GetLine(n).0);
  }

  /** Takes lines off the front and receives more input until there is a line. */
  function Fetch(n: Net): (r: (Net, Option<string>))
    requires n.Ok() && LinesFit(Pending(n))
    ensures r.0.Ok() && LinesFit(Pending(r.0))
    ensures r.1.Some? ==> Measure(r.0) < Measure(n) && r.0.up
    ensures r.1.None? ==> Measure(r.0) <= Measure(n)
    decreases Measure(n)
  {
    TurnFits(n);
    var (n1, l) := GetLine(n);
    if l.Some? then (n1, l)
    else
      var (n2, ok) := Recv(n1);
      if ok then Fetch(n2) else (n2, None)
  }

  lemma SpnIs(s: string, k: nat)
    requires k <= |s| && (forall i | 0 <= i < k :: IsEol(s[i])) && (k < |s| ==> !IsEol(s[k]))
    ensures Spn(s) == k
  {
  }

  lemma FitsPrefix(s: string, k: nat)
    requires LinesFit(s) && k <= |s|
    ensures LinesFit(s[..k])
  {
    forall i: nat | i <= k ensures RunFits(s[..k], i) {
      CspnPrefix(s[i..], k - i);
      assert s[..k][i..] == s[i..][..k - i];
      assert RunFits(s, i);
    }
  }

  // -------------------------------------------- servers that write whole lines

  ghost predicate AnswersSound(answers: seq<string>) {
    forall i | 0 <= i < |answers| :: WholeLines(answers[i])
  }

  ghost predicate PeerSound(p: Peer) {
    p.Serves? ==> WholeLines(p.hello) && AnswersSound(p.answers)
  }

  /** Everything under way, and everything the servers will write, is whole lines. */
  ghost predicate Sound(n: Net) {
    && n.Ok()
    && WholeLines(Unread(n) + n.env.wire)
    && AnswersSound(n.env.answers)
    && forall i | 0 <= i < |n.env.peers| :: PeerSound(n.env.peers[i])
  }

  lemma WholeSuffix(w: string, k: nat)
    requires WholeLines(w) && k <= |w|
    ensures WholeLines(w[k..])
  {
    FitsSuffix(w, k);
  }

  lemma WholeConcat(a: string, b: string)
    requires WholeLines(a) && WholeLines(b)
    ensures WholeLines(a + b)
  {
    forall i: nat | i <= |a + b| ensures RunFits(a + b, i) {
      if i < |a| {
        var k := Cspn(a[i..]);
        assert RunFits(a, i);
        assert a[i..][|a| - 1 - i] == a[|a| - 1];
        assert (a + b)[i..] == a[i..] + b;
        CspnIs((a + b)[i..], k);
      } else {
        assert (a + b)[i..] == b[i - |a|..];
        assert RunFits(b, i - |a|);
      }
    }
  }

  lemma SoundFits(n: Net)
    requires Sound(n)
    ensures n.Ok() && LinesFit(Pending(n)) && Splittable(n)
  {
    var whole := Unread(n) + n.env.wire;
    assert Pending(n) == whole[..|Pending(n)|];
    FitsPrefix(whole, |Pending(n)|);
    FitsSplittable(n);
  }

  lemma GetLineSound(n: Net)
    requires Sound(n) && Splittable(n)
    ensures Sound(GetLine(n).0)
  {
    hide WholeLines, AnswersSound, PeerSound;
    var h, k := Unread(n), Cspn(Unread(n));
    if k < |h| {
      LineTaken(n);
      hide GetLine, Unread, Cspn, Spn, Splittable;
      var j := k + 1 + Spn(h[k + 1..]);
      assert h[k := NUL][j..] == h[j..];
      DropFront(h, n.env.wire, j);
      WholeSuffix(h + n.env.wire, j);
    }
  }

  lemma RecvSound(n: Net)
    requires Sound(n)
    ensures Sound(Recv(n).0)
  {
    var (n1, ok) := Recv(n);
    if ok {
      assert Unread(n1) + n1.env.wire == Unread(n) + n.env.wire;
    } else if n1.up != n.up {
      EmptyWhole();
      assert Unread(n1) + n1.env.wire == "";
    }
  }

  lemma DisconnectSound(n: Net)
    requires Sound(n)
    ensures Sound(Disconnect(n))
  {
    EmptyWhole();
    assert Disconnect(n).up != n.up ==> Disconnect(n).held[0..] + Disconnect(n).env.wire == "";
  }

  lemma ConnectSound(n: Net)
    requires Sound(n)
    ensures Sound(Connect(n).0) && (Connect(n).1 ==> Connect(n).0.up)
  {
    if !n.up && n.env.peers != [] {
      assert PeerSound(n.env.peers[0]);
      var n1 := Connect(n).0;
      assert forall i | 0 <= i < |n1.env.peers| :: n1.env.peers[i] == n.env.peers[i + 1];
      assert n1.up ==> n1.held[0..] + n1.env.wire == n1.env.wire;
    }
  }

  lemma SendSound(n: Net, text: string)
    requires Sound(n)
    ensures Sound(Send(n, text).0)
  {
    var (n1, ok) := Send(n, text);
    if ok {
      var whole, answer := Unread(n) + n.env.wire, Answer(n.env);
      EmptyWhole();
      assert forall i | 0 <= i < |n1.env.answers| :: n1.env.answers[i] == n.env.answers[i + 1];
      WholeConcat(whole, answer);
      assert Unread(n1) + n1.env.wire == whole + answer;
    }
  }

  lemma FetchSound(n: Net)
    requires Sound(n) && LinesFit(Pending(n))
    ensures Sound(Fetch(n).0)
    decreases Measure(n)
  {
    SoundFits(n);
    GetLineSound(n);
    var n1 := GetLine(n).0;
    if GetLine(n).1.None? {
      RecvSound(n1);
      var (n2, ok) := Recv(n1);
      if ok {
        SoundFits(n2);
        FetchSound(n2);
      }
    }
  }

  /** `b` differs from `a` only in how far the stream has been received and read. */
  ghost predicate Moved(a: Net, b: Net) {
    b == a.(held := b.held, llen := b.llen,
            env := a.env.(received := b.env.received, wire := b.env.wire,
                          pace := b.env.pace, quota := b.env.quota))
    && (a.env.quota.None? ==> b.env.quota.None?)
  }

  /** One turn of the fetching loop. */
  lemma FetchUnfold(n: Net)
    requires n.Ok() && LinesFit(Pending(n))
    ensures Splittable(n)
    ensures GetLine(n).1.Some? ==> Fetch(n) == GetLine(n)
    ensures var (n2, ok) := Recv(GetLine(n).0);
            GetLine(n).1.None? ==>
              && LinesFit(Pending(n2)) && Fetch(n) == (if ok then Fetch(n2) else (n2, None))
              && (ok ==> Measure(n2) < Measure(n) && Moved(n, n2))
              && (!ok ==> (n2.up <==> n.up && n.env.faulty)) && (ok ==> n.up && n2.up)
              && n2.env.faulty == n.env.faulty
              && n2.env.peers == n.env.peers && n2.env.sends == n.env.sends
  {
    hide LinesFit, Pending, Cspn, Spn, Measure;
    TurnFits(n);
  }
}
