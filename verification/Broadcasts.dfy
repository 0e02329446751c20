/** From a broadcast line about the queue to the event its handler sees. */
module Broadcasts {
  import opened CText
  import opened Wire
  import opened Protocol
  import R = Records
  import Parsers

  datatype QueueEvent =
    | Fetched(q: R.Queue)
    | Added(q: R.Queue)
    | Deleted(q: R.Queue)
    | Cleared

  /** The queue event that the line at the start of `mem` reports, if it is one. */
  function QueueEventOf(mem: string): Option<QueueEvent> {
    if At(mem, 1) != '6' then None
    else if At(mem, 2) == '3' then Some(Cleared)
    else if At(mem, 2) !in "012" then None
    else
      var q := R.ParseQueue(mem, 4).data;
      if q.None? then None
      else Some(match At(mem, 2)
                case '0' => Fetched(q.value)
                case '1' => Added(q.value)
                case _ => Deleted(q.value))
  }

  lemma EventKinds(mem: string)
    requires At(mem, 1) == '6'
    ensures var c, q, e := At(mem, 2), R.ParseQueue(mem, 4).data, QueueEventOf(mem);
            && (c == '3' ==> e == Some(Cleared))
            && (c != '0' && c != '1' && c != '2' && c != '3' ==> e == None)
            && (c == '0' ==> e == if q.Some? then Some(Fetched(q.value)) else None)
            && (c == '1' ==> e == if q.Some? then Some(Added(q.value)) else None)
            && (c == '2' ==> e == if q.Some? then Some(Deleted(q.value)) else None)
  {
    hide R.ParseQueue;
    assert At(mem, 2) in "012" <==> At(mem, 2) == '0' || At(mem, 2) == '1' || At(mem, 2) == '2' by {
      assert "012"[0] == '0' && "012"[1] == '1' && "012"[2] == '2';
    }
  }

  /** How the server reports an event. */
  function EncEvent(e: QueueEvent): string {
    match e
    case Fetched(q) => "660 " + R.EncQueue(q)
    case Added(q) => "661 " + R.EncQueue(q)
    case Deleted(q) => "662 " + R.EncQueue(q)
    case Cleared => "663 queue cleared"
  }

  predicate OkEvent(e: QueueEvent) { e.Cleared? || R.OkQueue(e.q) }

  lemma TextBehindCode(code: string, t: string, junk: string)
    requires |code| == 4
    ensures Holds(code + t + [NUL] + junk, 4, t) && At(code + t + [NUL] + junk, 4 + |t|) == NUL
  {
  }

  /** A reported event reaches the handler as it was, whatever else is in the buffer. */
  lemma EventRoundTrip(e: QueueEvent, junk: string)
    requires OkEvent(e)
    ensures QueueEventOf(EncEvent(e) + [NUL] + junk) == Some(e)
  {
    hide R.ParseQueue, R.EncQueue, R.OkQueue;
    var mem := EncEvent(e) + [NUL] + junk;
    assert mem[1] == EncEvent(e)[1] && mem[2] == EncEvent(e)[2];
    if !e.Cleared? {
      TextBehindCode(EncEvent(e)[..4], R.EncQueue(e.q), junk);
      R.QueueRoundTrip(mem, 4, e.q);
    }
  }

  lemma EventLine(e: QueueEvent)
    requires OkEvent(e)
    ensures IsBcast(EncEvent(e)) && Unbroken(EncEvent(e))
  {
    hide R.EncQueue, R.OkQueue;
    if !e.Cleared? { R.QueueUnbroken(e.q); }
  }

  /** `_duc_bcast_queue`: the record parsed for the handler is released again. */
  method BcastQueue(h: Parsers.Heap, mem: string) returns (e: Option<QueueEvent>)
    requires h.Valid() && At(mem, 1) == '6'
    modifies h
    ensures h.Valid() && h.live == old(h.live)
    ensures e.Some? ==> e == QueueEventOf(mem)
    ensures old(h.budget) >= 11 ==> e == QueueEventOf(mem)
  {
    hide R.ParseQueue, Parsers.TreeQueue, Parsers.OwnQueue, Parsers.QueueOf;
    var c := At(mem, 2);
    EventKinds(mem);
    hide QueueEventOf;
    if c == '3' { return Some(Cleared); }
    if c != '0' && c != '1' && c != '2' { return None; }
    var q, end := Parsers.ParseQueue(h, mem, 4);
    if q.None? { return None; }
    var v := Parsers.QueueOf(q).value;
    e := Some(if c == '0' then Fetched(v) else if c == '1' then Added(v) else Deleted(v));
    Parsers.FreeQueue(h, q);
  }
}
