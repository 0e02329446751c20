/** Tagging every track of a list with every tag of a list, one command per pair. The two
    lists are walked with their own cursors, the inner one once per track. */
module TagIteration {
  import opened CText
  import opened Wire
  import opened Protocol
  import opened Handlers
  import opened Replies
  import opened Pairing
  import opened IdList
  import opened QueueAlbum
  import Session

  /** `tracktagadd` or `tracktagdel`. */
  function PairCmd(verb: string, track: int, tag: int): string {
    NumCmd(verb, track) + (" " + PrintInt(ToInt(tag)))
  }

  predicate Verb(verb: string) { |verb| <= 20 }

  lemma PairCmdShort(verb: string, track: int, tag: int)
    requires Verb(verb)
    ensures |PairCmd(verb, track, tag)| < BUFLENLINE - 1 && Sendable(PairCmd(verb, track, tag))
  {
    hide NumCmd, PrintInt;
    NumCmdShort(verb, track);
    PrintedIntShort(ToInt(tag));
  }

  // --------------------------------------------------------------- issuing commands

  function Succ(s: State, cmd: string): (r: (State, bool))
    requires Sound(s.net)
    ensures Sound(r.0.net)
  {
    var (s1, ok) := Ask(s, cmd);
    (s1, ok && SuccResult(s1))
  }

  /** Issues commands, whether or not they succeed, until the connection is lost. */
  function Issue(s: State, cmds: seq<string>): (r: (State, bool))
    requires Sound(s.net)
    ensures Sound(r.0.net)
    decreases |cmds|
  {
    if cmds == [] then (s, true)
    else
      var (s1, ok) := Succ(s, cmds[0]);
      if !ok && !s1.net.up then (s1, false) else Issue(s1, cmds[1..])
  }

  lemma IssueStep(s: State, cmds: seq<string>)
    requires Sound(s.net) && cmds != []
    ensures var (s1, ok) := Succ(s, cmds[0]);
            Issue(s, cmds) == if !ok && !s1.net.up then (s1, false) else Issue(s1, cmds[1..])
  {
    hide Succ;
  }

  lemma {:induction false} IssueConcat(s: State, a: seq<string>, b: seq<string>)
    requires Sound(s.net)
    ensures var (s1, ok) := Issue(s, a);
            Issue(s, a + b) == if ok then Issue(s1, b) else (s1, false)
    decreases |a|
  {
    hide Succ;
    if a == [] {
      assert a + b == b;
    } else {
      assert (a + b)[0] == a[0] && (a + b)[1..] == a[1..] + b;
      var (s1, ok) := Succ(s, a[0]);
      if ok || s1.net.up { IssueConcat(s1, a[1..], b); }
    }
  }

  /** The commands for one track: the tags up to the first negative id. */
  function Row(verb: string, track: int, tags: seq<int>, j: nat): seq<string>
    decreases |tags| - j
  {
    if IdAt(tags, j) < 0 then []
    else [PairCmd(verb, track, tags[j])] + Row(verb, track, tags, j + 1)
  }

  /** The commands for all tracks. */
  function Product(verb: string, tracks: seq<int>, i: nat, tags: seq<int>): seq<string>
    decreases |tracks| - i
  {
    if IdAt(tracks, i) < 0 then []
    else Row(verb, tracks[i], tags, 0) + Product(verb, tracks, i + 1, tags)
  }

  lemma IssueRow(s: State, verb: string, track: int, tags: seq<int>, j: nat)
    requires Sound(s.net)
    ensures var id := IdAt(tags, j);
            id >= 0 ==>
              var (s1, ok) := Succ(s, PairCmd(verb, track, id));
              Issue(s, Row(verb, track, tags, j))
              == if !ok && !s1.net.up then (s1, false) else Issue(s1, Row(verb, track, tags, j + 1))
    ensures IdAt(tags, j) < 0 ==> Issue(s, Row(verb, track, tags, j)) == (s, true)
  {
    hide Succ, PairCmd;
    if IdAt(tags, j) >= 0 {
      assert Row(verb, track, tags, j)[1..] == Row(verb, track, tags, j + 1);
    }
  }

  /** `idl_iterate` over the tags of one track. */
  method TagTrack(p: Session.Session, verb: string, track: int, tags: IdList) returns (ok: bool)
    requires p.Valid() && Sound(p.State().net) && Verb(verb)
    modifies p, p.con, p.con.buf, tags`cur
    ensures p.Valid()
    ensures (p.State(), ok) == Issue(old(p.State()), Row(verb, track, tags.ids, 0))
  {
    hide Ask, SuccResult, PairCmd, Row, Sound, Issue;
    var id := tags.Begin();
    while id >= 0
      invariant p.Valid() && Sound(p.State().net) && id == IdAt(tags.ids, tags.cur)
      invariant Issue(p.State(), Row(verb, track, tags.ids, tags.cur))
                == Issue(old(p.State()), Row(verb, track, tags.ids, 0))
      decreases |tags.ids| - tags.cur
    {
      PairCmdShort(verb, track, id);
      IssueRow(p.State(), verb, track, tags.ids, tags.cur);
      var done := p.CmdSucc(PairCmd(verb, track, id));
      if !done && p.con.fd < 0 { return false; }
      id := tags.Next();
    }
    IssueRow(p.State(), verb, track, tags.ids, tags.cur);
    return true;
  }

  lemma IssueProduct(s: State, verb: string, tracks: seq<int>, i: nat, tags: seq<int>)
    requires Sound(s.net)
    ensures IdAt(tracks, i) >= 0 ==>
              var (s1, ok) := Issue(s, Row(verb, IdAt(tracks, i), tags, 0));
              Issue(s, Product(verb, tracks, i, tags))
              == if ok then Issue(s1, Product(verb, tracks, i + 1, tags)) else (s1, false)
    ensures IdAt(tracks, i) < 0 ==> Issue(s, Product(verb, tracks, i, tags)) == (s, true)
  {
    hide Succ, Row;
    if IdAt(tracks, i) >= 0 {
      IssueConcat(s, Row(verb, tracks[i], tags, 0), Product(verb, tracks, i + 1, tags));
    }
  }

  /** Issuing stops early only on a lost connection. */
  lemma {:induction false} IssueLost(s: State, cmds: seq<string>)
    requires Sound(s.net)
    ensures var (s1, ok) := Issue(s, cmds);
            !ok ==> !s1.net.up
    decreases |cmds|
  {
    hide Succ;
    if cmds != [] {
      var (s1, ok) := Succ(s, cmds[0]);
      if ok || s1.net.up { IssueLost(s1, cmds[1..]); }
    }
  }

  /** The handlers of the commands `tracktagadd` and `tracktagdel`: two nested walks issue
      the commands of the product, in its order, until the connection is lost. */
  method TagTracks(p: Session.Session, verb: string, tracks: IdList, tags: IdList) returns (ok: bool)
    requires p.Valid() && Sound(p.State().net) && Verb(verb) && tracks != tags
    modifies p, p.con, p.con.buf, tags`cur, tracks`cur
    ensures p.Valid()
    ensures (p.State(), ok) == Issue(old(p.State()), Product(verb, tracks.ids, 0, tags.ids))
  {
    hide Row, Product, Sound, Issue;
    var id := tracks.Begin();
    while id >= 0
      invariant p.Valid() && Sound(p.State().net) && id == IdAt(tracks.ids, tracks.cur)
      invariant Issue(p.State(), Product(verb, tracks.ids, tracks.cur, tags.ids))
                == Issue(old(p.State()), Product(verb, tracks.ids, 0, tags.ids))
      decreases |tracks.ids| - tracks.cur
    {
      ghost var s := p.State();
      IssueProduct(s, verb, tracks.ids, tracks.cur, tags.ids);
      var done := TagTrack(p, verb, id, tags);
      IssueLost(s, Row(verb, id, tags.ids, 0));
      if !done && p.con.fd < 0 { return false; }
      id := tracks.Next();
    }
    IssueProduct(p.State(), verb, tracks.ids, tracks.cur, tags.ids);
    return true;
  }

  // ---------------------------------------------------------- what the product holds

  /** A walk over the ids sees the first `n` of them: it ends at a negative one. */
  predicate Walked(ids: seq<int>, n: nat) {
    && n <= |ids| && (forall i | 0 <= i < n :: ids[i] >= 0)
    && (n < |ids| ==> ids[n] < 0)
  }

  lemma {:induction false} RowAt(verb: string, track: int, tags: seq<int>, n: nat, j: nat)
    requires Walked(tags, n) && j <= n
    ensures |Row(verb, track, tags, j)| == n - j
    ensures forall k | j <= k < n :: Row(verb, track, tags, j)[k - j] == PairCmd(verb, track, tags[k])
    decreases n - j
  {
    hide PairCmd;
    if j < n { RowAt(verb, track, tags, n, j + 1); }
  }

  /** The commands of `m` rows of length `n`. */
  function Size(m: nat, n: nat): nat { m * n }

  lemma SizeStep(m: nat, n: nat)
    ensures Size(m + 1, n) == n + Size(m, n) && Size(0, n) == 0
  {
  }

  lemma {:induction false} ProductSize(verb: string, tracks: seq<int>, m: nat, k: nat, tags: seq<int>, n: nat)
    requires Walked(tracks, m) && Walked(tags, n) && k <= m
    ensures |Product(verb, tracks, k, tags)| == Size(m - k, n)
    decreases m - k
  {
    hide Row, Size;
    if k < m {
      RowAt(verb, tracks[k], tags, n, 0);
      ProductSize(verb, tracks, m, k + 1, tags, n);
      SizeStep(m - k - 1, n);
    } else {
      SizeStep(0, n);
    }
  }

  lemma SizeFits(i: nat, m: nat, j: nat, n: nat)
    requires i < m && j < n
    ensures Size(i, n) + j < Size(m, n)
  {
    assert (i + 1) * n <= m * n;
  }

  lemma PairText(verb: string, track: int, tag: int)
    ensures PairCmd(verb, track, tag) == verb + " " + PrintInt(ToInt(track)) + " " + PrintInt(ToInt(tag))
  {
    hide PrintInt;
  }

  lemma {:induction false} ProductPairs(verb: string, tracks: seq<int>, m: nat, k: nat, tags: seq<int>, n: nat,
                                        i: nat, j: nat)
    requires Walked(tracks, m) && Walked(tags, n) && k + i < m && j < n
    ensures |Product(verb, tracks, k, tags)| == Size(m - k, n)
    ensures Size(i, n) + j < Size(m - k, n)
    ensures Product(verb, tracks, k, tags)[Size(i, n) + j] == PairCmd(verb, tracks[k + i], tags[j])
    decreases i
  {
    hide PairCmd, Row, Size;
    ProductSize(verb, tracks, m, k, tags, n);
    SizeFits(i, m - k, j, n);
    RowAt(verb, tracks[k], tags, n, 0);
    var row, rest := Row(verb, tracks[k], tags, 0), Product(verb, tracks, k + 1, tags);
    if i == 0 {
      SizeStep(0, n);
      assert (row + rest)[j] == row[j];
    } else {
      ProductPairs(verb, tracks, m, k + 1, tags, n, i - 1, j);
      SizeStep(i - 1, n);
      var x := Size(i - 1, n) + j;
      assert (row + rest)[|row| + x] == rest[x];
    }
  }

  /** The commands for `m` tracks and `n` tags: the one for the i-th track and the j-th tag, in
      this order, stands at place `Size(i, n) + j`, i * n + j, and there are no others. A negative id ends the
      list it stands in. */
  lemma ProductAt(verb: string, tracks: seq<int>, m: nat, tags: seq<int>, n: nat, i: nat, j: nat)
    requires Walked(tracks, m) && Walked(tags, n) && i < m && j < n
    ensures |Product(verb, tracks, 0, tags)| == Size(m, n) && Size(i, n) + j < Size(m, n)
    ensures Product(verb, tracks, 0, tags)[Size(i, n) + j]
            == verb + " " + PrintInt(ToInt(tracks[i])) + " " + PrintInt(ToInt(tags[j]))
  {
    hide PairCmd, PrintInt, Product, Size;
    ProductPairs(verb, tracks, m, 0, tags, n, i, j);
    PairText(verb, tracks[i], tags[j]);
  }

  /** Nothing is issued if one of the two lists is empty. */
  lemma ProductNone(verb: string, tracks: seq<int>, m: nat, tags: seq<int>, n: nat)
    requires Walked(tracks, m) && Walked(tags, n) && (m == 0 || n == 0)
    ensures Product(verb, tracks, 0, tags) == []
  {
    hide Product;
    ProductSize(verb, tracks, m, 0, tags, n);
  }

  // ------------------------------------------------------------ what the server hears

  function Lines(cmds: seq<string>): seq<string> {
    seq(|cmds|, i requires 0 <= i < |cmds| => cmds[i] + "\n")
  }

  lemma NoLines(cmds: seq<string>)
    ensures Lines(cmds[..0]) == []
  {
  }

  predicate AllShort(cmds: seq<string>) { forall i | 0 <= i < |cmds| :: |cmds[i]| < BUFLENLINE - 1 }

  /** On a connection a command is heard once, or not at all if the connection is lost. */
  lemma SuccHeard(s: State, cmd: string)
    requires Sound(s.net) && s.net.up && !s.inreply && |cmd| < BUFLENLINE - 1
    ensures var s1 := Succ(s, cmd).0;
            && !s1.inreply && (Succ(s, cmd).1 ==> s1.net.up)
            && (s1.net.env.heard == s.net.env.heard + [cmd + "\n"]
                || (s1.net.env.heard == s.net.env.heard && !s1.net.up && !Succ(s, cmd).1))
  {
    hide Rlast;
    AskWhenUp(s, cmd);
    SendOnSteps(s, cmd);
    SendSound(s.net, cmd + "\n");
    RlastKeeps(SendOn(s, cmd).0);
  }

  lemma LinesCons(cmds: seq<string>, k: nat)
    requires k < |cmds|
    ensures Lines(cmds[..k + 1]) == [cmds[0] + "\n"] + Lines(cmds[1..][..k])
  {
    assert forall i | 0 <= i < k :: cmds[..k + 1][i + 1] == cmds[1..][..k][i];
  }

  lemma SuccAnswered(s: State, cmd: string, bs: seq<string>, es: seq<Exchange>)
    requires Idle(s, bs, es) && es != [] && |cmd| < BUFLENLINE - 1
    ensures Sound(s.net)
    ensures var s1 := Succ(s, cmd).0;
            && Idle(s1, es[0].after, es[1..]) && s1.net.up
            && s1.net.env.heard == s.net.env.heard + [cmd + "\n"]
  {
    hide Idle, Ask, SuccResult;
    IdleParts(s, bs, es);
    var n1 := AskIdle(s, cmd, bs, es);
    AskHeard(s, cmd, bs, es);
    IdleParts(Ask(s, cmd).0, es[0].after, es[1..]);
  }

  lemma HeardMore(h: seq<string>, cmds: seq<string>)
    requires cmds != []
    ensures h + [cmds[0] + "\n"] + Lines(cmds[1..]) == h + Lines(cmds)
  {
  }

  lemma HeardNone(s: State, cmds: seq<string>)
    requires Sound(s.net) && cmds == []
    ensures Issue(s, cmds) == (s, true) && s.net.env.heard == s.net.env.heard + Lines(cmds)
  {
  }

  lemma RestShort(cmds: seq<string>)
    requires AllShort(cmds) && cmds != []
    ensures |cmds[0]| < BUFLENLINE - 1 && AllShort(cmds[1..])
  {
  }

  /** While the server answers, every command is heard, in order, whether or not the server
      accepts it, and the session is between replies again. */
  lemma {:induction false} AllHeard(s: State, cmds: seq<string>, bs: seq<string>, es: seq<Exchange>)
      returns (bs': seq<string>)
    requires Idle(s, bs, es) && |cmds| <= |es| && AllShort(cmds)
    ensures Sound(s.net) && Issue(s, cmds).1
    ensures Issue(s, cmds).0.net.env.heard == s.net.env.heard + Lines(cmds)
    ensures Idle(Issue(s, cmds).0, bs', es[|cmds|..])
    decreases |cmds|
  {
    hide *;
    IdleParts(s, bs, es);
    if cmds == [] {
      bs' := bs;
      HeardNone(s, cmds);
      assert es[0..] == es;
    } else {
      RestShort(cmds);
      SuccAnswered(s, cmds[0], bs, es);
      IssueStep(s, cmds);
      bs' := AllHeard(Succ(s, cmds[0]).0, cmds[1..], es[0].after, es[1..]);
      assert es[1..][|cmds| - 1..] == es[|cmds|..];
      HeardMore(s.net.env.heard, cmds);
    }
  }

  /** Starting on a connection, the server hears a prefix of the commands, in order, each at
      most once; and all of them if the walk is not cut off. */
  lemma {:induction false} HeardPrefix(s: State, cmds: seq<string>) returns (k: nat)
    requires Sound(s.net) && s.net.up && !s.inreply && AllShort(cmds)
    ensures k <= |cmds|
    ensures Issue(s, cmds).0.net.env.heard == s.net.env.heard + Lines(cmds[..k])
    ensures Issue(s, cmds).1 ==> k == |cmds|
    ensures !Issue(s, cmds).1 ==> !Issue(s, cmds).0.net.up
    decreases |cmds|
  {
    hide Succ, Lines;
    k := 0;
    NoLines(cmds);
    if cmds != [] {
      IssueStep(s, cmds);
      hide Issue;
      ghost var h := s.net.env.heard;
      SuccHeard(s, cmds[0]);
      var (s1, ok) := Succ(s, cmds[0]);
      if s1.net.up {
        k := HeardPrefix(s1, cmds[1..]);
        LinesCons(cmds, k);
        assert (h + [cmds[0] + "\n"]) + Lines(cmds[1..][..k]) == h + Lines(cmds[..k + 1]);
        k := k + 1;
      } else if s1.net.env.heard != s.net.env.heard {
        NoLines(cmds[1..]);
        LinesCons(cmds, 0);
        k := 1;
      }
    }
  }
}
