/** A client's copy of the server's play queue, kept in step by one snapshot and the
    broadcasts that follow it: a small distributed system. */
module QueueMirror {
  import opened CText
  import R = Records
  import opened Broadcasts

  type Rows = seq<R.Queue>

  // --------------------------------------------------------- the client's list store

  function IndexOf(rows: Rows, id: int): (k: nat)
    ensures k <= |rows| && (k < |rows| ==> rows[k].id == id)
    ensures forall i | 0 <= i < k :: rows[i].id != id
  {
    if rows == [] || rows[0].id == id then 0 else 1 + IndexOf(rows[1..], id)
  }

  /** The rows without the first one that has the given queue id. */
  function Without(rows: Rows, id: int): Rows {
    var k := IndexOf(rows, id);
    if k == |rows| then rows else rows[..k] + rows[k + 1..]
  }

  /** What the event handlers do to the rows. */
  function Applied(rows: Rows, e: QueueEvent): Rows {
    match e
    case Fetched(q) => Without(rows, q.id)
    case Added(q) => rows + [q]
    case Deleted(q) => Without(rows, q.id)
    case Cleared => []
  }

  function AppliedAll(rows: Rows, es: seq<QueueEvent>): Rows
    decreases |es|
  {
    if es == [] then rows else AppliedAll(Applied(rows, es[0]), es[1..])
  }

  /** The list store behind the queue window. */
  class ListStore {
    var rows: Rows

    constructor ()
      ensures rows == []
    {
      rows := [];
    }

    method Append(q: R.Queue)
      modifies this
      ensures rows == old(rows) + [q]
    {
      rows := rows + [q];
    }

    method Clear()
      modifies this
      ensures rows == []
    {
      rows := [];
    }

    /** `queue_list_store_del`: removes the first row with the id, if there is one. */
    method Delete(id: int)
      modifies this
      ensures rows == Without(old(rows), id)
    {
      if rows == [] { return; }
      var iter, more := 0, true;
      while more
        invariant iter < |rows| && rows == old(rows)
        invariant more ==> forall i | 0 <= i < iter :: rows[i].id != id
        invariant !more ==> forall i | 0 <= i < |rows| :: rows[i].id != id
        decreases more, |rows| - iter
      {
        if rows[iter].id == id {
          rows := rows[..iter] + rows[iter + 1..];
          return;
        }
        more := iter + 1 < |rows|;
        if more { iter := iter + 1; }
      }
    }

    /** `queue_list_populate`: replaces the rows by the listed entries. */
    method Populate(qs: seq<R.Queue>)
      modifies this
      ensures rows == qs
    {
      Clear();
      for i := 0 to |qs|
        invariant rows == qs[..i]
      {
        Append(qs[i]);
      }
    }

    /** The handlers `ev_queuefetch`, `ev_queueadd`, `ev_queuedel` and `ev_queueclear`. */
    method Handle(e: QueueEvent)
      modifies this
      ensures rows == Applied(old(rows), e)
    {
      match e
      case Fetched(q) => Delete(q.id);
      case Added(q) => Append(q);
      case Deleted(q) => Delete(q.id);
      case Cleared => Clear();
    }
  }

  // -------------------------------------------------------------------- the system

  /** What the server has put on the connection. `Snapshot` is the last line of the reply
      to `queuelist`: when it arrives the client has all rows and replaces its own. */
  datatype Message = Event(e: QueueEvent) | Snapshot(rows: Rows)

  /** The client has not asked yet, awaits the snapshot, or keeps its copy. */
  datatype Phase = Away | Waiting | Ready

  datatype System = System(
    queue: Rows,            // the server's queue, next entry first
    next: int,              // the next queue id the server will give out
    requested: bool,        // the server has a pending queuelist request
    taken: Option<Rows>,    // the rows of a reply that is being written
    channel: seq<Message>,  // under way to the client, oldest first
    phase: Phase,
    mirror: Rows)           // the rows of the client's list store

  datatype Step =
    | Enqueue(q: R.Queue)   // somebody adds a track: broadcast 661
    | Fetch                 // the player takes the first entry: broadcast 660
    | Remove(id: int)       // somebody deletes an entry: broadcast 662
    | Wipe                  // somebody clears the queue: broadcast 663
    | Begin                 // the server starts to write the queuelist reply
    | Finish                // the server writes the last line of it
    | Request               // the client connects and asks for the queue
    | Deliver               // the client receives the next message
    | Drop(k: nat)          // the connection breaks: the client clears its copy, but shows
                            // the k rows of an unfinished list that it had received

  function SnapshotIn(c: seq<Message>): Rows {
    if c == [] then [] else if c[0].Snapshot? then c[0].rows else SnapshotIn(c[1..])
  }

  /** The rows of the list that the server has begun to write and the client waits for. */
  function Coming(s: System): Rows {
    if s.phase != Waiting then []
    else if s.taken.Some? then s.taken.value
    else SnapshotIn(s.channel)
  }

  predicate Enabled(s: System, step: Step) {
    match step
    case Enqueue(q) => q.id == s.next
    case Fetch => s.queue != []
    case Remove(id) => IndexOf(s.queue, id) < |s.queue|
    case Wipe => true
    case Begin => s.requested
    case Finish => s.taken.Some?
    case Request => s.phase == Away
    case Deliver => s.channel != []
    case Drop(k) => s.phase != Away && k <= |Coming(s)|
  }

  /** A change of the queue, and the broadcast about it if the client is connected. */
  function Change(s: System, queue: Rows, e: QueueEvent): System {
    s.(queue := queue, channel := if s.phase == Away then [] else s.channel + [Event(e)])
  }

  function Next(s: System, step: Step): System
    requires Enabled(s, step)
  {
    match step
    case Enqueue(q) => Change(s, s.queue + [q], Added(q)).(next := s.next + 1)
    case Fetch => Change(s, s.queue[1..], Fetched(s.queue[0]))
    case Remove(id) =>
      var k := IndexOf(s.queue, id);
      Change(s, s.queue[..k] + s.queue[k + 1..], Deleted(s.queue[k]))
    case Wipe => Change(s, [], Cleared)
    case Begin => s.(requested := false, taken := Some(s.queue))
    case Finish => s.(taken := None, channel := s.channel + [Snapshot(s.taken.value)])
    case Request => s.(requested := true, phase := Waiting)
    case Drop(k) => System(s.queue, s.next, false, None, [], Away, Coming(s)[..k])
    case Deliver =>
      match s.channel[0]
      case Event(e) => s.(channel := s.channel[1..], mirror := Applied(s.mirror, e))
      case Snapshot(rows) => s.(channel := s.channel[1..], phase := Ready, mirror := rows)
  }

  // ----------------------------------------------------------------- the invariant

  predicate Snapshotted(c: seq<Message>) { exists i :: 0 <= i < |c| && c[i].Snapshot? }

  /** What the client's rows will be once the messages under way are handled. */
  function Settled(rows: Rows, c: seq<Message>): Rows
    decreases |c|
  {
    if c == [] then rows
    else
      match c[0]
      case Event(e) => Settled(Applied(rows, e), c[1..])
      case Snapshot(snap) => Settled(snap, c[1..])
  }

  /** Ids are given out once, so no two entries of the queue share one. A client that waits
      has its request, the reply being written, or one last reply line on its way. Nothing is
      under way to a client that is not connected. */
  ghost predicate Basic(s: System) {
    && (forall i | 0 <= i < |s.queue| :: s.queue[i].id < s.next)
    && (forall i, j | 0 <= i < j < |s.queue| :: s.queue[i].id < s.queue[j].id)
    && !(s.requested && s.taken.Some?) && (s.phase == Away ==> s.channel == [])
    && (s.requested || s.taken.Some? ==> s.phase == Waiting)
    && (Snapshotted(s.channel) <==> s.phase == Waiting && !s.requested && s.taken.None?)
    && (forall i, j | 0 <= i < j < |s.channel| :: !(s.channel[i].Snapshot? && s.channel[j].Snapshot?))
  }

  /** If the client keeps a copy or the last line of a snapshot is coming, handling what is
      under way ends in the server's queue. */
  ghost predicate Agrees(s: System) {
    s.phase == Ready || Snapshotted(s.channel) ==> Settled(s.mirror, s.channel) == s.queue
  }

  ghost predicate Inv(s: System) { Basic(s) && Agrees(s) }

  /** When the reply is complete the queue is what its rows say: sending the reply without a
      broadcast in between is enough for that. */
  predicate Undisturbed(s: System, step: Step) { step == Finish && s.taken.Some? ==> s.taken.value == s.queue }

  function Initial(queue: Rows, next: int): System {
    System(queue, next, false, None, [], Away, [])
  }

  lemma InitialInv(queue: Rows, next: int)
    requires forall i | 0 <= i < |queue| :: queue[i].id < next
    requires forall i, j | 0 <= i < j < |queue| :: queue[i].id < queue[j].id
    ensures Inv(Initial(queue, next))
  {
  }

  lemma {:induction false} SettledSnoc(rows: Rows, c: seq<Message>, m: Message)
    ensures Settled(rows, c + [m])
            == if m.Snapshot? then m.rows else Applied(Settled(rows, c), m.e)
    decreases |c|
  {
    if c == [] {
      assert (c + [m])[1..] == [];
    } else {
      assert (c + [m])[0] == c[0] && (c + [m])[1..] == c[1..] + [m];
      var rows' := match c[0]
                   case Event(e) => Applied(rows, e)
                   case Snapshot(snap) => snap;
      SettledSnoc(rows', c[1..], m);
    }
  }

  /** Once a snapshot is coming the rows before it do not matter. */
  lemma {:induction false} SettledForgets(a: Rows, b: Rows, c: seq<Message>)
    requires Snapshotted(c)
    ensures Settled(a, c) == Settled(b, c)
    decreases |c|
  {
    if c[0].Event? {
      var i :| 0 <= i < |c| && c[i].Snapshot?;
      assert c[1..][i - 1].Snapshot?;
      SettledForgets(Applied(a, c[0].e), Applied(b, c[0].e), c[1..]);
    }
  }

  lemma SnapshottedSnoc(c: seq<Message>, m: Message)
    ensures Snapshotted(c + [m]) <==> Snapshotted(c) || m.Snapshot?
  {
    if Snapshotted(c) {
      var i :| 0 <= i < |c| && c[i].Snapshot?;
      assert (c + [m])[i].Snapshot?;
    }
    if m.Snapshot? { assert (c + [m])[|c|].Snapshot?; }
  }

  lemma IndexOfAt(rows: Rows, k: nat)
    requires k < |rows| && forall i, j | 0 <= i < j < |rows| :: rows[i].id < rows[j].id
    ensures IndexOf(rows, rows[k].id) == k
  {
  }

  /** The server's change is what the handler of its broadcast does. */
  lemma ChangeInv(s: System, queue: Rows, e: QueueEvent, next: int)
    requires Basic(s) && queue == Applied(s.queue, e) && s.next <= next
    requires forall i | 0 <= i < |queue| :: queue[i].id < next
    requires forall i, j | 0 <= i < j < |queue| :: queue[i].id < queue[j].id
    ensures Basic(Change(s, queue, e).(next := next))
    ensures Agrees(s) ==> Agrees(Change(s, queue, e).(next := next))
  {
    hide Settled, Snapshotted, Applied;
    SettledSnoc(s.mirror, s.channel, Event(e));
    SnapshottedSnoc(s.channel, Event(e));
  }

  lemma DeliverInv(s: System)
    requires Basic(s) && s.channel != []
    ensures Basic(Next(s, Deliver)) && (Agrees(s) ==> Agrees(Next(s, Deliver)))
  {
    var rest := s.channel[1..];
    var m := s.channel[0];
    if m.Snapshot? {
      forall i | 0 <= i < |rest| ensures !rest[i].Snapshot? { assert rest[i] == s.channel[i + 1]; }
      assert Snapshotted(s.channel);
    } else {
      if Snapshotted(s.channel) {
        var i :| 0 <= i < |s.channel| && s.channel[i].Snapshot?;
        assert rest[i - 1].Snapshot?;
      }
      if Snapshotted(rest) {
        var i :| 0 <= i < |rest| && rest[i].Snapshot?;
        assert s.channel[i + 1].Snapshot?;
      }
    }
    forall i, j | 0 <= i < j < |rest| ensures !(rest[i].Snapshot? && rest[j].Snapshot?) {
      assert rest[i] == s.channel[i + 1] && rest[j] == s.channel[j + 1];
    }
  }

  lemma NoSnapshot(c: seq<Message>, i: nat)
    requires !Snapshotted(c) && i < |c|
    ensures !c[i].Snapshot?
  {
  }

  lemma FinishInv(s: System)
    requires Basic(s) && s.taken.Some?
    ensures Basic(Next(s, Finish))
    ensures s.taken.value == s.queue ==> Agrees(Next(s, Finish))
  {
    hide Settled, Snapshotted;
    SettledSnoc(s.mirror, s.channel, Snapshot(s.taken.value));
    SnapshottedSnoc(s.channel, Snapshot(s.taken.value));
    forall i | 0 <= i < |s.channel| ensures !s.channel[i].Snapshot? { NoSnapshot(s.channel, i); }
  }

  lemma RequestInv(s: System)
    requires Basic(s) && s.phase == Away
    ensures Basic(Next(s, Request)) && Agrees(Next(s, Request))
  {
    hide Settled, Snapshotted;
  }

  lemma BeginInv(s: System)
    requires Basic(s) && s.requested
    ensures Basic(Next(s, Begin)) && (Agrees(s) ==> Agrees(Next(s, Begin)))
  {
    hide Settled, Snapshotted;
  }

  lemma RemoveInv(s: System, k: nat, e: QueueEvent)
    requires Basic(s) && k < |s.queue| && (e == Fetched(s.queue[k]) || e == Deleted(s.queue[k]))
    ensures var s' := Change(s, s.queue[..k] + s.queue[k + 1..], e);
            Basic(s') && (Agrees(s) ==> Agrees(s'))
  {
    IndexOfAt(s.queue, k);
    ChangeInv(s, s.queue[..k] + s.queue[k + 1..], e, s.next);
  }

  lemma EnqueueInv(s: System, q: R.Queue)
    requires Basic(s) && q.id == s.next
    ensures var s' := Next(s, Enqueue(q));
            Basic(s') && (Agrees(s) ==> Agrees(s'))
  {
    ChangeInv(s, s.queue + [q], Added(q), s.next + 1);
  }

  lemma WipeInv(s: System)
    requires Basic(s)
    ensures Basic(Next(s, Wipe)) && (Agrees(s) ==> Agrees(Next(s, Wipe)))
  {
    ChangeInv(s, [], Cleared, s.next);
  }

  lemma DropInv(s: System, k: nat)
    requires Basic(s) && Enabled(s, Drop(k))
    ensures Basic(Next(s, Drop(k))) && Agrees(Next(s, Drop(k)))
  {
    hide Coming;
  }

  lemma NextInv(s: System, step: Step)
    requires Basic(s) && Enabled(s, step)
    ensures Basic(Next(s, step))
    ensures Agrees(s) && Undisturbed(s, step) ==> Agrees(Next(s, step))
  {
    hide Basic, Agrees, Coming;
    match step
    case Enqueue(q) => EnqueueInv(s, q);
    case Fetch =>
      assert s.queue[..0] + s.queue[1..] == s.queue[1..];
      RemoveInv(s, 0, Fetched(s.queue[0]));
    case Remove(id) =>
      var k := IndexOf(s.queue, id);
      RemoveInv(s, k, Deleted(s.queue[k]));
    case Wipe => WipeInv(s);
    case Begin => BeginInv(s);
    case Finish => FinishInv(s);
    case Request => RequestInv(s);
    case Deliver => DeliverInv(s);
    case Drop(k) => DropInv(s, k);
  }

  /** The states of a run, one step after the other. */
  ghost predicate Run(states: seq<System>, steps: seq<Step>) {
    && |states| == |steps| + 1
    && forall i | 0 <= i < |steps| ::
         Enabled(states[i], steps[i]) && states[i + 1] == Next(states[i], steps[i])
  }

  lemma {:induction false} RunInv(states: seq<System>, steps: seq<Step>)
    requires Run(states, steps) && Basic(states[0])
    ensures forall i | 0 <= i < |states| :: Basic(states[i])
    ensures Agrees(states[0]) && (forall i | 0 <= i < |steps| :: Undisturbed(states[i], steps[i]))
            ==> forall i | 0 <= i < |states| :: Agrees(states[i])
  {
    hide Basic, Agrees, Undisturbed, Enabled, Next;
    var calm := Agrees(states[0]) && forall i | 0 <= i < |steps| :: Undisturbed(states[i], steps[i]);
    for k := 0 to |steps|
      invariant forall i | 0 <= i <= k :: Basic(states[i])
      invariant calm ==> forall i | 0 <= i <= k :: Agrees(states[i])
    {
      NextInv(states[k], steps[k]);
    }
  }

  /** In every reachable state of a run whose snapshots are undisturbed: the snapshot under
      way, or else the client's copy, with the broadcasts behind it applied, is the server's
      queue. Once everything was delivered the copy is the queue, entry by entry. */
  lemma MirrorAgrees(states: seq<System>, steps: seq<Step>, k: nat)
    requires Run(states, steps) && Inv(states[0]) && k < |states|
    requires forall i | 0 <= i < |steps| :: Undisturbed(states[i], steps[i])
    requires states[k].phase == Ready || Snapshotted(states[k].channel)
    ensures Settled(states[k].mirror, states[k].channel) == states[k].queue
    ensures states[k].channel == [] ==> states[k].mirror == states[k].queue
  {
    RunInv(states, steps);
    assert Agrees(states[k]);
  }

  // ------------------------------------------------------------- a broken connection

  lemma SnapshotFound(c: seq<Message>, i: nat)
    requires i < |c| && c[i].Snapshot?
    requires forall j, k | 0 <= j < k < |c| :: !(c[j].Snapshot? && c[k].Snapshot?)
    ensures SnapshotIn(c) == c[i].rows
    decreases |c|
  {
    if i > 0 {
      assert !c[0].Snapshot?;
      assert forall j | 0 <= j < |c[1..]| :: c[1..][j] == c[j + 1];
      SnapshotFound(c[1..], i - 1);
    }
  }

  lemma NoneFound(c: seq<Message>)
    requires !Snapshotted(c)
    ensures SnapshotIn(c) == []
  {
    if c != [] {
      assert !c[0].Snapshot?;
      assert forall j | 0 <= j < |c[1..]| :: c[1..][j] == c[j + 1];
      NoneFound(c[1..]);
    }
  }

  lemma AwayStep(s: System, step: Step)
    requires Basic(s) && s.phase == Away && Enabled(s, step)
    ensures Next(s, step).mirror == s.mirror
  {
  }

  /** When the connection breaks the copy is gone. Rows that are shown afterwards are the first
      ones of a list whose reply was cut off; without such a list there are none, and until the
      client has connected again no broadcast changes them. */
  lemma {:induction false} BrokenConnectionShows(states: seq<System>, steps: seq<Step>, d: nat, j: nat)
    requires Run(states, steps) && Inv(states[0]) && d < j < |states| && steps[d].Drop?
    requires forall i | d < i <= j :: states[i].phase == Away
    ensures var s, k, rows := states[d], steps[d].k, states[j].mirror;
            && (s.phase == Ready || s.requested ==> rows == [])
            && (s.taken.Some? ==> k <= |s.taken.value| && rows == s.taken.value[..k])
            && (forall i | 0 <= i < |s.channel| && s.channel[i].Snapshot? ::
                  k <= |s.channel[i].rows| && rows == s.channel[i].rows[..k])
    decreases j
  {
    RunInv(states, steps);
    if j == d + 1 {
      var s := states[d];
      assert Enabled(s, steps[d]) && states[d + 1] == Next(s, steps[d]);
      if s.requested { NoneFound(s.channel); }
      forall i | 0 <= i < |s.channel| && s.channel[i].Snapshot?
        ensures SnapshotIn(s.channel) == s.channel[i].rows && Coming(s) == s.channel[i].rows
      {
        SnapshotFound(s.channel, i);
        assert Snapshotted(s.channel);
      }
    } else {
      BrokenConnectionShows(states, steps, d, j - 1);
      assert Enabled(states[j - 1], steps[j - 1]) && states[j] == Next(states[j - 1], steps[j - 1]);
      AwayStep(states[j - 1], steps[j - 1]);
    }
  }

  // -------------------------------------------- broadcasts inside the snapshot reply

  /** The state after the client received everything that was under way. */
  function Flushed(s: System): System
    decreases |s.channel|
  {
    if s.channel == [] then s else Flushed(Next(s, Deliver))
  }

  lemma {:induction false} FlushedIs(s: System)
    ensures Flushed(s).mirror == Settled(s.mirror, s.channel) && Flushed(s).queue == s.queue
    decreases |s.channel|
  {
    if s.channel != [] { FlushedIs(Next(s, Deliver)); }
  }

  /** Broadcasts written between the rows of a reply are handled before the rows replace the
      copy, and are lost. So after the reply the copy is right if and only if the queue is,
      when the reply is finished, what it was when the reply was begun. */
  lemma DisturbedSnapshotIff(s: System)
    requires Enabled(s, Finish)
    ensures var s' := Flushed(Next(s, Finish));
            s'.mirror == s'.queue <==> s.taken.value == s.queue
  {
    var s1 := Next(s, Finish);
    FlushedIs(s1);
    SettledSnoc(s.mirror, s.channel, Snapshot(s.taken.value));
  }

  lemma IsRun(states: seq<System>, steps: seq<Step>)
    requires |states| == |steps| + 1
    requires forall i | 0 <= i < |steps| ::
               Enabled(states[i], steps[i]) && states[i + 1] == Next(states[i], steps[i])
    ensures Run(states, steps)
  {
  }

  lemma {:induction false} LosingSteps(q: R.Queue)
      returns (s1: System, s2: System, s3: System, s4: System, s5: System, s6: System)
    ensures var s0 := Initial([q], q.id + 1);
            && Enabled(s0, Request) && s1 == Next(s0, Request)
            && Enabled(s1, Begin) && s2 == Next(s1, Begin)
            && Enabled(s2, Remove(q.id)) && s3 == Next(s2, Remove(q.id))
            && Enabled(s3, Finish) && s4 == Next(s3, Finish)
            && Enabled(s4, Deliver) && s5 == Next(s4, Deliver)
            && Enabled(s5, Deliver) && s6 == Next(s5, Deliver)
    ensures s6.phase == Ready && s6.channel == [] && s6.queue == [] && s6.mirror == [q]
  {
    hide Coming;
    var n := q.id + 1;
    assert IndexOf([q], q.id) == 0 && [q][..0] + [q][1..] == [];
    s1 := System([q], n, true, None, [], Waiting, []);
    s2 := System([q], n, false, Some([q]), [], Waiting, []);
    s3 := System([], n, false, Some([q]), [Event(Deleted(q))], Waiting, []);
    s4 := System([], n, false, None, [Event(Deleted(q)), Snapshot([q])], Waiting, []);
    assert s4.channel[1..] == [Snapshot([q])];
    s5 := System([], n, false, None, [Snapshot([q])], Waiting, []);
    s6 := System([], n, false, None, [], Ready, [q]);
    assert [] + [Event(Deleted(q))] == [Event(Deleted(q))];
    assert [Event(Deleted(q))] + [Snapshot([q])] == s4.channel;
  }

  /** A run that goes wrong: an entry is removed while the snapshot that lists it is being
      written. The copy keeps the entry. */
  lemma {:induction false} RemovalInsideSnapshotLost(q: R.Queue) returns (states: seq<System>, steps: seq<Step>)
    ensures Run(states, steps) && Inv(states[0]) && |states| > 0
    ensures var last := states[|states| - 1];
            last.phase == Ready && last.channel == [] && last.queue == [] && last.mirror == [q]
  {
    var s0 := Initial([q], q.id + 1);
    InitialInv([q], q.id + 1);
    steps := [Request, Begin, Remove(q.id), Finish, Deliver, Deliver];
    var s1, s2, s3, s4, s5, s6 := LosingSteps(q);
    states := [s0, s1, s2, s3, s4, s5, s6];
    hide *;
    forall i | 0 <= i < 6
      ensures Enabled(states[i], steps[i]) && states[i + 1] == Next(states[i], steps[i])
    {
    }
    IsRun(states, steps);
  }
}
