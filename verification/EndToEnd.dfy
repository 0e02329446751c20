/** From the bytes on the wire to the rows on the screen: framing, replies, records, lists
    and the queue copy joined. */
module EndToEnd {
  import opened CText
  import opened Wire
  import opened Protocol
  import opened Replies
  import opened Pairing
  import opened Dropped
  import opened Handlers
  import opened Runs
  import R = Records
  import opened Broadcasts
  import opened QueueMirror
  import opened Iterator
  import opened Parsers
  import Session

  // ------------------------------------------------------------------ listing a queue

  function EncAll(qs: seq<R.Queue>): seq<string> {
    seq(|qs|, i requires 0 <= i < |qs| => R.EncQueue(qs[i]))
  }

  /** The texts of the reply to `queuelist`; an empty queue is one empty text. */
  function QueueTexts(qs: seq<R.Queue>): seq<string> {
    if qs == [] then [""] else EncAll(qs)
  }

  /** What a list holds for such a reply: no record for the empty text. */
  function Items<T>(rs: seq<T>): (items: seq<Option<T>>)
    ensures |items| == if rs == [] then 1 else |rs|
    ensures forall i | 0 <= i < |rs| :: items[i] == Some(rs[i])
  {
    if rs == [] then [None] else [Some(rs[0])] + if |rs| == 1 then [] else Items(rs[1..])
  }

  predicate AllOk(qs: seq<R.Queue>) { forall i | 0 <= i < |qs| :: R.OkQueue(qs[i]) }

  function Entries(qs: seq<R.Queue>): seq<Val> {
    seq(|qs|, i requires 0 <= i < |qs| => QueueVal(qs[i]))
  }

  /** The queue entries among the records. */
  function QueuesOf(vs: seq<Val>): seq<R.Queue> {
    if vs == [] then []
    else (if vs[0].QueueVal? then [vs[0].queue] else []) + QueuesOf(vs[1..])
  }

  lemma {:induction false} QueuesBack(qs: seq<R.Queue>)
    ensures QueuesOf(Entries(qs)) == qs
  {
    if qs != [] {
      assert Entries(qs)[1..] == Entries(qs[1..]);
      QueuesBack(qs[1..]);
    }
  }

  lemma QueueAccepted(q: R.Queue)
    requires R.OkQueue(q)
    ensures Accepts(QueueVals, R.EncQueue(q), Some(QueueVal(q)))
  {
    hide R.ParseQueue, R.EncQueue, R.OkQueue;
    R.QueueAccepted(q);
    var t := R.EncQueue(q);
    forall junk: string ensures QueueVals(t + [NUL] + junk) == Conv(Some(QueueVal(q)), |t|) {
      assert R.QueueConv(t + [NUL] + junk) == Conv(Some(q), |t|);
    }
  }

  lemma EmptyTextAccepted()
    ensures Accepts(QueueVals, "", None)
  {
    hide QueueVals;
    forall junk: string ensures QueueVals("" + [NUL] + junk) == Conv(None, 0) {
      var mem := "" + [NUL] + junk;
      assert At(mem, 0) == NUL;
      NoRecord(Queues, mem);
    }
  }

  lemma QueueTextsAccepted(qs: seq<R.Queue>)
    requires AllOk(qs)
    ensures AllAccepted(QueueVals, QueueTexts(qs), Items(Entries(qs)))
  {
    hide R.OkQueue, R.EncQueue, QueueVals, Accepts;
    if qs == [] {
      assert Entries(qs) == [];
      EmptyTextAccepted();
    } else {
      forall i | 0 <= i < |qs|
        ensures Accepts(QueueVals, QueueTexts(qs)[i], Items(Entries(qs))[i])
      {
        QueueAccepted(qs[i]);
      }
    }
  }

  /** A text that does not begin with a number is no record, and makes a list fail. */
  lemma JunkRefused(t: string)
    requires NulFree(t) && t != "" && Strtol(t, 0).end == 0
    ensures Refuses(QueueVals, t) && Refuses(TrackVals, t)
  {
    hide Strtol;
    forall junk: string ensures QueueVals(t + [NUL] + junk) == TrackVals(t + [NUL] + junk) == Conv(None, 0) {
      ScanLocal(t, junk, 0);
    }
  }

  /** The server's reaction to `queuelist` when its queue is `qs`. */
  predicate Lists(e: Exchange, qs: seq<R.Queue>) {
    e.ts == QueueTexts(qs) && |e.code| == 3 && e.code[0] != '5' && AllOk(qs)
  }

  /** For every queue, every reply code of success, every interleaving of broadcasts and
      every chunking of the bytes, listing the queue gives exactly its entries. */
  lemma QueueListExact(s: State, bs: seq<string>, es: seq<Exchange>, qs: seq<R.Queue>)
    requires Idle(s, bs, es) && es != [] && Lists(es[0], qs)
    ensures Sound(s.net)
    ensures Query(s, "queuelist", QueueVals).1 == Some(Items(Entries(qs)))
    ensures Idle(Query(s, "queuelist", QueueVals).0, es[0].after, es[1..])
    ensures Query(s, "queuelist", QueueVals).0.net.env.heard == s.net.env.heard + ["queuelist\n"]
  {
    hide Idle, Query;
    assert "queuelist" + "\n" == "queuelist\n";
    QueryHeard(s, "queuelist", QueueVals, bs, es);
    var n1 := QueryIdle(s, "queuelist", QueueVals, bs, es);
    QueueTextsAccepted(qs);
  }

  /** Walking the list of such a reply shows exactly its records. */
  lemma {:induction false} ItemsLead<T>(rs: seq<T>)
    ensures Leading(Items(rs)) == rs
  {
    if |rs| > 1 {
      assert Items(rs)[1..] == Items(rs[1..]);
      ItemsLead(rs[1..]);
    } else if |rs| == 1 {
      assert Items(rs)[1..] == [];
    }
  }

  lemma QueueKind()
    ensures ConvOf(Queues) == QueueVals && Sendable("queuelist")
  {
  }

  /** What the client does on connecting: lists the queue and shows it. No block stays in use;
      if memory did not run out, the rows are the entries of the reply. */
  method ShowQueue(p: Session.Session, store: ListStore, h: Heap)
    requires p.Valid() && Sound(p.State().net) && h.Valid()
    modifies p, p.con, p.con.buf, store, h
    ensures p.Valid() && h.Valid() && h.live == old(h.live)
    ensures h.budget > 0 ==>
              var (s1, rs) := Query(old(p.State()), "queuelist", QueueVals);
              && p.State() == s1
              && store.rows == if rs.None? then old(store.rows) else QueuesOf(Leading(rs.value))
  {
    QueueKind();
    hide *;
    var it := NewIter(p, Queues, h, "queuelist");
    if it != null {
      BuiltMine(it, h);
      var seen := Walk(it, h);
      store.Populate(QueuesOf(seen));
    }
  }

  /** The rows that `ShowQueue` leaves are the server's queue. */
  lemma ShownQueueExact(s: State, bs: seq<string>, es: seq<Exchange>, qs: seq<R.Queue>)
    requires Idle(s, bs, es) && es != [] && Lists(es[0], qs)
    ensures Sound(s.net)
    ensures var rs := Query(s, "queuelist", QueueVals).1;
            rs.Some? && QueuesOf(Leading(rs.value)) == qs
  {
    QueueListExact(s, bs, es, qs);
    ItemsLead(Entries(qs));
    QueuesBack(qs);
  }

  /** A list that is cut off: the rows that `ShowQueue` leaves are the entries received until
      then, and without any it leaves the rows as they are. */
  lemma CutOffShown(s: State, ls: seq<string>, code: string, qs: seq<R.Queue>, tail: string)
    requires Sound(s.net) && Replies.Ready(s) && AllOk(qs) && |code| == 3 && code[0] != '5'
    requires Dangling(AfterSend(s, "queuelist"), ls, code, if qs == [] then [] else QueueTexts(qs), tail)
    ensures var (s1, rs) := Query(s, "queuelist", QueueVals);
            && BrokenOff(s, s1, ls)
            && if qs == [] then rs == None else rs.Some? && QueuesOf(Leading(rs.value)) == qs
  {
    hide Sound, Replies.Ready, Dangling, Query, QueueVals, BrokenOff, R.OkQueue, R.EncQueue;
    if qs == [] {
      QueryPrefix(s, "queuelist", QueueVals, ls, code, [], tail, []);
    } else {
      QueueTextsAccepted(qs);
      QueryPrefix(s, "queuelist", QueueVals, ls, code, QueueTexts(qs), tail, Items(Entries(qs)));
      ItemsLead(Entries(qs));
      QueuesBack(qs);
    }
  }

  // ------------------------------------------------------- following the broadcasts

  /** A broadcast the server writes: about the queue, or about something else. */
  datatype Report = Queue(e: QueueEvent) | Other(line: string)

  predicate OkReport(r: Report) {
    match r
    case Queue(e) => OkEvent(e)
    case Other(line) => IsBcast(line) && (line[1] != '6' || line[2] < '0' || line[2] > '3')
  }

  function LineOf(r: Report): string {
    match r
    case Queue(e) => EncEvent(e)
    case Other(line) => line
  }

  function LinesOf(rs: seq<Report>): seq<string> {
    seq(|rs|, i requires 0 <= i < |rs| => LineOf(rs[i]))
  }

  /** The changes of the queue among the reports. */
  function EventsOf(rs: seq<Report>): seq<QueueEvent> {
    if rs == [] then [] else (if rs[0].Queue? then [rs[0].e] else []) + EventsOf(rs[1..])
  }

  /** The rows after the handlers ran for the given broadcast lines. */
  function Handled(rows: Rows, ls: seq<string>): Rows
    decreases |ls|
  {
    if ls == [] then rows
    else
      var e := QueueEventOf(ls[0] + [NUL]);
      Handled(if e.Some? then Applied(rows, e.value) else rows, ls[1..])
  }

  lemma {:induction false} HandledConcat(rows: Rows, a: seq<string>, b: seq<string>)
    ensures Handled(rows, a + b) == Handled(Handled(rows, a), b)
    decreases |a|
  {
    if a == [] {
      assert a + b == b;
    } else {
      assert (a + b)[0] == a[0] && (a + b)[1..] == a[1..] + b;
      var e := QueueEventOf(a[0] + [NUL]);
      HandledConcat(if e.Some? then Applied(rows, e.value) else rows, a[1..], b);
    }
  }

  lemma OtherHandled(line: string)
    requires IsBcast(line) && (line[1] != '6' || line[2] < '0' || line[2] > '3')
    ensures QueueEventOf(line + [NUL]) == None
  {
    var mem := line + [NUL];
    assert mem[1] == line[1] && mem[2] == line[2];
    if line[1] == '6' { EventKinds(mem); }
  }

  lemma {:induction false} HandledEvents(rows: Rows, rs: seq<Report>)
    requires forall i | 0 <= i < |rs| :: OkReport(rs[i])
    ensures Handled(rows, LinesOf(rs)) == AppliedAll(rows, EventsOf(rs))
    decreases |rs|
  {
    hide EncEvent, OkEvent, QueueEventOf, Applied;
    if rs != [] {
      assert LinesOf(rs)[1..] == LinesOf(rs[1..]) && OkReport(rs[0]);
      assert forall i | 0 <= i < |rs[1..]| :: rs[1..][i] == rs[i + 1];
      if rs[0].Queue? {
        EventRoundTrip(rs[0].e, "");
        assert EncEvent(rs[0].e) + [NUL] + "" == EncEvent(rs[0].e) + [NUL];
        assert EventsOf(rs)[0] == rs[0].e && EventsOf(rs)[1..] == EventsOf(rs[1..]);
        HandledEvents(Applied(rows, rs[0].e), rs[1..]);
      } else {
        OtherHandled(rs[0].line);
        assert EventsOf(rs) == EventsOf(rs[1..]);
        HandledEvents(rows, rs[1..]);
      }
    }
  }

  lemma HandledNone(rows: Rows)
    ensures Handled(rows, []) == rows
  {
  }

  lemma Cancel(d: seq<string>, x: seq<string>, y: seq<string>, a: seq<string>, b: seq<string>)
    requires d + x + y == d + a + b
    ensures x + y == a + b
  {
    assert (d + x + y)[|d|..] == x + y && (d + a + b)[|d|..] == a + b;
  }

  lemma {:induction false} NewlyDispatched(a: seq<Event>, b: seq<Event>) returns (ls: seq<string>)
    requires Quiet(a, b)
    ensures DispatchedIn(b) == DispatchedIn(a) + ls
  {
    assert b == a + b[|a|..];
    DispatchedConcat(a, b[|a|..]);
    ls := DispatchedIn(b[|a|..]);
  }

  /** The whole way: the client lists the queue and the reply holds the rows `qs`; then it
      sends commands, runs list queries and polls, in any order, and its handlers issue
      commands; the server writes broadcasts, of which `rs` are all, right behind the list and
      later, in and between replies. At any point of this, handling what was dispatched since
      the reply and then what is under way takes the shown rows to the server's queue. */
  lemma {:induction false} RowsFollowServer(s: State, bs: seq<string>, xs: seq<Exchange>, qs: Rows,
      rs: seq<Report>, acts: seq<Action>, on: Reactions)
      returns (dispatched: seq<string>, underway: seq<string>)
    requires Idle(s, bs, xs) && xs != [] && Lists(xs[0], qs) && Sound(s.net)
    requires forall i | 0 <= i < |rs| :: OkReport(rs[i])
    requires Feasible(Query(s, "queuelist", QueueVals).0, acts, xs[1..], QueueVals, on)
    requires var os := Exec(Query(s, "queuelist", QueueVals).0, acts, xs[1..], QueueVals, on).1;
             xs[0].after + BcastsWritten(acts, os, xs[1..]) == LinesOf(rs)
    ensures var s1 := Query(s, "queuelist", QueueVals).0;
            var s2 := Exec(s1, acts, xs[1..], QueueVals, on).0;
            && DispatchedIn(s2.trace) == DispatchedIn(s1.trace) + dispatched
            && dispatched + underway == LinesOf(rs)
            && Handled(Handled(qs, dispatched), underway) == AppliedAll(qs, EventsOf(rs))
            && (underway == [] ==> Handled(qs, dispatched) == AppliedAll(qs, EventsOf(rs)))
  {
    hide *;
    var s1 := Query(s, "queuelist", QueueVals).0;
    QueueListExact(s, bs, xs, qs);
    underway := RunPaired(s1, acts, QueueVals, on, xs[0].after, xs[1..]);
    var (s2, os) := Exec(s1, acts, xs[1..], QueueVals, on);
    dispatched := NewlyDispatched(s1.trace, s2.trace);
    Cancel(DispatchedIn(s1.trace), dispatched, underway, xs[0].after, BcastsWritten(acts, os, xs[1..]));
    HandledEvents(qs, rs);
    HandledConcat(qs, dispatched, underway);
    HandledNone(Handled(qs, dispatched));
  }
}
