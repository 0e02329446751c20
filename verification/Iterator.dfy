/** Lists of records: built from a reply as a linked list, walked by the caller, and released
    record by record. The structs, the list and its nodes are blocks of one heap. */
module Iterator {
  import opened CText
  import opened Wire
  import opened Protocol
  import R = Records
  import opened Parsers
  import Session

  // ------------------------------------------------------------------ kinds of records

  /** Which parser and which free function a list works with. */
  datatype Kind = Tracks | Queues

  datatype Val = TrackVal(track: R.Track) | QueueVal(queue: R.Queue)

  datatype Rec = TrackPtr(t: Ptr<TrackRec>) | QueuePtr(q: Ptr<QueueRec>)

  predicate IsNull(r: Rec) { if r.TrackPtr? then r.t.None? else r.q.None? }

  function ValOf(r: Rec): Option<Val> {
    match r
    case TrackPtr(t) => if TrackOf(t).None? then None else Some(TrackVal(TrackOf(t).value))
    case QueuePtr(q) => if QueueOf(q).None? then None else Some(QueueVal(QueueOf(q).value))
  }

  function OwnRec(r: Rec): set<nat> { if r.TrackPtr? then OwnTrack(r.t) else OwnQueue(r.q) }

  /** NULL, or a complete struct that owns each of its blocks once. */
  predicate Whole(r: Rec) {
    && (if r.TrackPtr? then TreeTrack(r.t) else TreeQueue(r.q))
    && (IsNull(r) <==> ValOf(r) == None)
  }

  function TrackVals(mem: string): Conv<Val> {
    var c := R.ParseTrack(mem, 0);
    Conv(if c.data.None? then None else Some(TrackVal(c.data.value)), c.end)
  }

  function QueueVals(mem: string): Conv<Val> {
    var c := R.ParseQueue(mem, 0);
    Conv(if c.data.None? then None else Some(QueueVal(c.data.value)), c.end)
  }

  function ConvOf(kind: Kind): string -> Conv<Val> { if kind == Tracks then TrackVals else QueueVals }

  /** A failed conversion ends where it began, and there is no record in an empty text. */
  lemma NoRecord(kind: Kind, mem: string)
    ensures ConvOf(kind)(mem).data.None? ==> ConvOf(kind)(mem).end == 0
    ensures At(mem, 0) == NUL ==> ConvOf(kind)(mem) == Conv(None, 0)
  {
    hide Strtol, R.Field, R.ParseUser, R.ParseArtist, R.ParseAlbum;
    if At(mem, 0) == NUL { ScanNothing(mem, 0); }
  }

  lemma NullIs(r: Rec)
    ensures IsNull(r) ==> ValOf(r) == None && OwnRec(r) == {}
  {
  }

  /** The converter of a kind. */
  method ParseRec(kind: Kind, h: Heap, mem: string) returns (r: Rec, end: nat)
    requires h.Valid()
    modifies h
    ensures h.Valid() && Whole(r) && h.budget <= old(h.budget) && old(h.next) <= h.next
    ensures h.live == old(h.live) + OwnRec(r) && forall b | b in OwnRec(r) :: old(h.next) <= b < h.next
    ensures !IsNull(r) ==> ConvOf(kind)(mem) == Conv(ValOf(r), end)
    ensures IsNull(r) ==> end == 0 && (h.budget > 0 ==> ConvOf(kind)(mem) == Conv(None, 0))
    ensures r.TrackPtr? <==> kind == Tracks
  {
    hide R.ParseTrack, R.ParseQueue, TrackOf, QueueOf, OwnTrack, OwnQueue, TreeTrack, TreeQueue;
    NoRecord(kind, mem);
    if kind == Tracks {
      var t;
      t, end := ParseTrack(h, mem, 0);
      r := TrackPtr(t);
    } else {
      var q;
      q, end := ParseQueue(h, mem, 0);
      r := QueuePtr(q);
    }
    NullIs(r);
  }

  /** The free function of a kind; releasing NULL is allowed. */
  method FreeRec(h: Heap, r: Rec)
    requires h.Valid() && OwnRec(r) <= h.live && Whole(r)
    modifies h`live
    ensures h.Valid() && h.live == old(h.live) - OwnRec(r)
  {
    hide OwnTrack, OwnQueue, TreeTrack, TreeQueue;
    if r.TrackPtr? { FreeTrack(h, r.t); } else { FreeQueue(h, r.q); }
  }

  // ------------------------------------------------------------------ blocks of a list

  /** A node of a list: its own block and its record. */
  datatype Item = Item(blk: nat, rec: Rec)

  function OwnItem(x: Item): set<nat> { {x.blk} + OwnRec(x.rec) }

  function OwnAll(items: seq<Item>): set<nat> {
    if items == [] then {} else OwnItem(items[0]) + OwnAll(items[1..])
  }

  /** No block belongs to two of the nodes or records. */
  predicate Apart(items: seq<Item>) {
    items != [] ==>
      && Whole(items[0].rec) && items[0].blk !in OwnRec(items[0].rec)
      && OwnItem(items[0]) !! OwnAll(items[1..]) && Apart(items[1..])
  }

  lemma {:induction false} OwnSnoc(items: seq<Item>, x: Item)
    requires Apart(items) && OwnItem(x) !! OwnAll(items) && Whole(x.rec) && x.blk !in OwnRec(x.rec)
    ensures OwnAll(items + [x]) == OwnAll(items) + OwnItem(x) && Apart(items + [x])
    decreases |items|
  {
    hide OwnRec, Whole;
    if items == [] {
      assert (items + [x])[1..] == [];
    } else {
      assert (items + [x])[0] == items[0] && (items + [x])[1..] == items[1..] + [x];
      OwnSnoc(items[1..], x);
    }
  }

  /** The records of the items, as the caller sees them. */
  function Values(items: seq<Item>): seq<Option<Val>> {
    seq(|items|, i requires 0 <= i < |items| => ValOf(items[i].rec))
  }

  lemma ValuesSnoc(items: seq<Item>, x: Item)
    ensures Values(items + [x]) == Values(items) + [ValOf(x.rec)]
  {
  }

  lemma ItemOwns(blk: nat, r: Rec)
    ensures OwnItem(Item(blk, r)) == {blk} + OwnRec(r)
  {
  }

  /** The blocks in use, the next one being `next`: `base`, and those of the items, which were
      all allocated since `low` was the next block. */
  ghost predicate Holding(live: set<nat>, next: nat, base: set<nat>, low: nat, items: seq<Item>) {
    && low <= next && live == base + OwnAll(items) && Apart(items)
    && (forall b | b in base :: b < low) && (forall b | b in OwnAll(items) :: low <= b < next)
  }

  /** A new node was allocated, and then its record. */
  lemma HoldingMore(live: set<nat>, next: nat, live': set<nat>, next': nat, base: set<nat>,
                    low: nat, items: seq<Item>, x: Item)
    requires Holding(live, next, base, low, items) && Whole(x.rec)
    requires x.blk == next < next' && live' == live + OwnItem(x)
    requires forall b | b in OwnRec(x.rec) :: next < b < next'
    ensures Holding(live', next', base, low, items + [x])
  {
    hide OwnRec, Whole, OwnAll, Apart;
    OwnSnoc(items, x);
  }

  /** What is left in use when the first item is released. */
  lemma Popped(keep: set<nat>, items: seq<Item>)
    requires items != [] && Apart(items) && keep !! OwnAll(items)
    ensures Apart(items[1..]) && keep !! OwnAll(items[1..]) && Whole(items[0].rec)
    ensures OwnRec(items[0].rec) <= keep + OwnAll(items)
    ensures items[0].blk in keep + OwnAll(items) - OwnRec(items[0].rec)
    ensures keep + OwnAll(items) - OwnRec(items[0].rec) - {items[0].blk} == keep + OwnAll(items[1..])
  {
    hide OwnRec, Whole;
  }

  // ---------------------------------------------------------------------- linked lists

  class Node {
    const blk: nat
    var data: Rec
    var next: Node?

    constructor (blk: nat, data: Rec)
      ensures this.blk == blk && this.data == data && next == null
    {
      this.blk, this.data, next := blk, data, null;
    }
  }

  lemma NothingOwned()
    ensures OwnAll([]) == {} && Apart([])
  {
  }

  class Iter {
    const blk: nat
    const kind: Kind
    var list: Node?
    /** The items that have not been passed yet; the first one is the current one. */
    ghost var items: seq<Item>
    ghost var nodes: seq<Node>

    ghost predicate Valid()
      reads this, nodes
    {
      && |items| == |nodes|
      && (forall i | 0 <= i < |nodes| :: items[i] == Item(nodes[i].blk, nodes[i].data))
      && (forall i | 0 <= i < |nodes| :: nodes[i].data.TrackPtr? <==> kind == Tracks)
      && list == NodeAt(0)
      && (forall i | 0 <= i < |nodes| :: nodes[i].next == NodeAt(i + 1))
      && (forall i, j | 0 <= i < j < |nodes| :: nodes[i] != nodes[j])
    }

    ghost function NodeAt(i: nat): Node?
      reads this
    {
      if i < |nodes| then nodes[i] else null
    }

    ghost function Last(): Node?
      reads this
    {
      if nodes == [] then null else nodes[|nodes| - 1]
    }

    /** Every block of the list is in use and belongs to it once. */
    ghost predicate Mine(h: Heap)
      reads this, h
    {
      h.Valid() && Apart(items) && blk !in OwnAll(items) && {blk} + OwnAll(items) <= h.live
    }

    constructor (blk: nat, kind: Kind)
      ensures Valid() && items == [] && nodes == [] && this.blk == blk && this.kind == kind
    {
      this.blk, this.kind := blk, kind;
      list, nodes, items := null, [], [];
    }

    /** Appends behind the node `last`, the end of the list. */
    method Append(last: Node?, blk: nat, data: Rec) returns (node: Node)
      requires Valid() && last == Last() && (data.TrackPtr? <==> kind == Tracks)
      modifies this, nodes
      ensures Valid() && items == old(items) + [Item(blk, data)]
      ensures fresh(node) && nodes == old(nodes) + [node] && node == Last()
    {
      node := new Node(blk, data);
      if list == null {
        list := node;
      } else {
        last.next := node;
      }
      nodes, items := nodes + [node], items + [Item(blk, data)];
    }

    /** The current record, or NULL at the end. */
    method Cur() returns (r: Rec)
      requires Valid()
      ensures if items == [] then IsNull(r) else r == items[0].rec
    {
      r := if list == null then TrackPtr(None) else list.data;
    }

    /** Takes the first node off the list and releases it, but not its record. */
    method Unlink(h: Heap)
      requires Valid() && nodes != [] && h.Valid() && items[0].blk in h.live
      modifies this, h`live
      ensures Valid() && nodes == old(nodes)[1..] && items == old(items)[1..]
      ensures h.Valid() && h.live == old(h.live) - {old(items)[0].blk}
    {
      ghost var ns := nodes;
      assert ns[0].next == NodeAt(1);
      var cur := list;
      list := cur.next;
      h.Free(cur.blk);
      nodes, items := ns[1..], items[1..];
      assert forall i | 0 <= i < |nodes| :: nodes[i] == ns[i + 1];
    }

    /** Moves on; the record that was current belongs to the caller. */
    method Next(h: Heap) returns (r: Rec)
      requires Valid() && h.Valid() && (items != [] ==> items[0].blk in h.live)
      modifies this, h`live
      ensures Valid() && h.Valid()
      ensures items == (if old(items) == [] then [] else old(items)[1..])
      ensures nodes == (if old(nodes) == [] then [] else old(nodes)[1..])
      ensures h.live == if old(items) == [] then old(h.live) else old(h.live) - {old(items)[0].blk}
      ensures if items == [] then IsNull(r) else r == items[0].rec
    {
      if list == null {
        r := Cur();
        return;
      }
      Unlink(h);
      r := Cur();
    }

    /** Releases the list and the records that were not handed out. */
    method Done(h: Heap)
      requires Valid() && Mine(h)
      modifies this, h`live
      ensures h.Valid() && h.live == old(h.live) - {blk} - OwnAll(old(items))
    {
      hide OwnRec, Whole, OwnAll, Apart;
      ghost var all := items;
      ghost var keep := h.live - OwnAll(all);
      while list != null
        invariant Valid() && h.Valid() && Apart(items) && keep !! OwnAll(items)
        invariant h.live == keep + OwnAll(items)
        decreases |nodes|
      {
        Popped(keep, items);
        FreeRec(h, list.data);
        Unlink(h);
      }
      NothingOwned();
      h.Free(blk);
    }
  }

  // ------------------------------------------------------------------ building a list

  /** Parses the current reply line behind a new node of the list. Not `parsed`: there is no
      line, it goes on behind the record, or memory ran out. */
  method AppendCurrent(it: Iter, p: Session.Session, h: Heap, last: Node?,
                       ghost base: set<nat>, ghost low: nat) returns (node: Node?, parsed: bool)
    requires p.Valid() && it.Valid() && last == it.Last() && h.Valid() && Holding(h.live, h.next, base, low, it.items)
    modifies it, it.nodes, h
    ensures p.Valid() && p.State() == old(p.State()) && it.Valid()
    ensures h.Valid() && Holding(h.live, h.next, base, low, it.items)
    ensures old(it.nodes) <= it.nodes && forall i | |old(it.nodes)| <= i < |it.nodes| :: fresh(it.nodes[i])
    ensures parsed ==>
              && Parses(p.State(), ConvOf(it.kind)) && node == it.Last()
              && Values(it.items) == Values(old(it.items)) + [ConvOf(it.kind)(Memory(p.State())).data]
    ensures !parsed && h.budget > 0 ==> !Parses(p.State(), ConvOf(it.kind))
  {
    hide *;
    ParsesIs(p.State(), ConvOf(it.kind));
    node, parsed := last, false;
    ghost var live, next := h.live, h.next;
    var there := p.HasText();
    if !there { return; }
    var mem := p.ReplyMemory();
    var blk := h.Malloc();
    if blk.None? { return; }
    var r, end := ParseRec(it.kind, h, mem);
    NoRecord(it.kind, mem);
    NullIs(r);
    ItemOwns(blk.value, r);
    HoldingMore(live, next, h.live, h.next, base, low, it.items, Item(blk.value, r));
    ValuesSnoc(it.items, Item(blk.value, r));
    node := it.Append(last, blk.value, r);
    parsed := At(mem, end) == NUL;
  }

  /** Reads the next reply line; list and heap are not concerned. */
  method ReadOn(it: Iter, p: Session.Session, h: Heap, ghost base: set<nat>, ghost low: nat)
      returns (r: int)
    requires p.Valid() && Sound(p.State().net) && it.Valid()
    requires h.Valid() && Holding(h.live, h.next, base, low, it.items)
    modifies p, p.con, p.con.buf
    ensures p.Valid() && (p.State(), r) == Protocol.Rnext(old(p.State()))
    ensures it.Valid() && it.nodes == old(it.nodes) && it.items == old(it.items)
    ensures it.Last() == old(it.Last()) && h.Valid() && Holding(h.live, h.next, base, low, it.items)
  {
    r := p.Rnext();
  }

  /** One turn of the collecting loop: appends the record of the current line and reads on.
      Not `ok`: the line is not a record, or memory ran out; not `more`: the reply is over. */
  method TakeRecord(it: Iter, p: Session.Session, h: Heap, last: Node?,
                    ghost rs: seq<Option<Val>>, ghost base: set<nat>, ghost low: nat)
      returns (node: Node?, ok: bool, more: bool, ghost rs': seq<Option<Val>>)
    requires p.Valid() && Sound(p.State().net) && it.Valid() && last == it.Last()
    requires Values(it.items) == rs && h.Valid() && Holding(h.live, h.next, base, low, it.items)
    modifies p, p.con, p.con.buf, it, it.nodes, h
    ensures p.Valid() && Sound(p.State().net) && it.Valid() && h.Valid() && Holding(h.live, h.next, base, low, it.items)
    ensures old(it.nodes) <= it.nodes && forall i | |old(it.nodes)| <= i < |it.nodes| :: fresh(it.nodes[i])
    ensures more ==> ok && node == it.Last()
    ensures ok ==> Values(it.items) == rs'
    ensures more ==> Collect(old(p.State()), ConvOf(it.kind), rs) == Collect(p.State(), ConvOf(it.kind), rs')
                     && Measure(p.State().net) < Measure(old(p.State().net))
    ensures ok && !more ==> Collect(old(p.State()), ConvOf(it.kind), rs) == (p.State(), Some(rs'))
    ensures !ok && h.budget > 0 ==>
              Collect(old(p.State()), ConvOf(it.kind), rs) == (Protocol.Rlast(p.State()).0, None)
  {
    hide *;
    ghost var conv := ConvOf(it.kind);
    CollectUnfold(p.State(), conv, rs);
    rs', more := rs, false;
    node, ok := AppendCurrent(it, p, h, last, base, low);
    if ok {
      rs' := rs + [conv(Memory(p.State())).data];
      var r := ReadOn(it, p, h, base, low);
      more := r == 0;
    }
  }

  /** Parses the current reply line and all further ones into the list, until one does not
      parse to its end or memory runs out. */
  method Fill(it: Iter, p: Session.Session, h: Heap, ghost base: set<nat>, ghost low: nat)
      returns (ok: bool, ghost rs: seq<Option<Val>>)
    requires p.Valid() && Sound(p.State().net) && it.Valid() && it.nodes == [] && it.items == []
    requires h.Valid() && Holding(h.live, h.next, base, low, [])
    modifies p, p.con, p.con.buf, it, h
    ensures p.Valid() && Sound(p.State().net) && it.Valid() && h.Valid() && Holding(h.live, h.next, base, low, it.items)
    ensures ok ==> Collect(old(p.State()), ConvOf(it.kind), []) == (p.State(), Some(rs))
    ensures ok ==> Values(it.items) == rs
    ensures !ok && h.budget > 0 ==>
              Collect(old(p.State()), ConvOf(it.kind), []) == (Protocol.Rlast(p.State()).0, None)
  {
    assert Values([]) == [] && it.Last() == null;
    hide *;
    ghost var conv := ConvOf(it.kind);
    ghost var want := Collect(p.State(), conv, []);
    var last: Node?, more := null, true;
    rs := [];
    ok := true;
    while more
      invariant p.Valid() && Sound(p.State().net) && it.Valid()
      invariant h.Valid() && Holding(h.live, h.next, base, low, it.items)
      invariant forall i | 0 <= i < |it.nodes| :: fresh(it.nodes[i])
      invariant more ==> ok && last == it.Last()
      invariant more ==> Collect(p.State(), conv, rs) == want
      invariant ok ==> Values(it.items) == rs
      invariant !more && ok ==> want == (p.State(), Some(rs))
      invariant !ok && h.budget > 0 ==> want == (Protocol.Rlast(p.State()).0, None)
      decreases more, Measure(p.State().net)
    {
      last, ok, more, rs := TakeRecord(it, p, h, last, rs, base, low);
    }
  }

  /** A list was built: the heap holds its blocks besides those that were in use before. */
  twostate predicate Built(new it: Iter, h: Heap)
    reads it, it.nodes, h
  {
    && it.Valid() && h.Valid() && Apart(it.items) && it.blk !in OwnAll(it.items)
    && {it.blk} + OwnAll(it.items) !! old(h.live)
    && h.live == old(h.live) + {it.blk} + OwnAll(it.items)
  }

  lemma HeapBelow(h: Heap)
    requires h.Valid()
    ensures forall b | b in h.live :: b < h.next
  {
  }

  lemma EmptyHolding(base: set<nat>, next: nat)
    requires forall b | b in base :: b < next
    ensures Holding(base, next, base, next, [])
  {
    assert base + {} == base;
  }

  /** The blocks of the list, apart from the block of the list itself and those of before. */
  lemma HoldingParts(live: set<nat>, next: nat, base: set<nat>, low: nat, items: seq<Item>,
                     before: set<nat>, blk: nat)
    requires Holding(live, next, base, low, items) && base == before + {blk} && blk !in before
    ensures Apart(items) && blk !in OwnAll(items) && {blk} + OwnAll(items) !! before
    ensures live == before + {blk} + OwnAll(items) && live - {blk} - OwnAll(items) == before
  {
    hide OwnAll, Apart;
  }

  lemma IsMine(it: Iter, h: Heap)
    requires h.Valid() && Apart(it.items) && it.blk !in OwnAll(it.items)
    requires {it.blk} + OwnAll(it.items) <= h.live
    ensures it.Mine(h)
  {
  }

  twostate lemma IsBuilt(new it: Iter, h: Heap)
    requires it.Valid() && h.Valid() && Apart(it.items) && it.blk !in OwnAll(it.items)
    requires {it.blk} + OwnAll(it.items) !! old(h.live)
    requires h.live == old(h.live) + {it.blk} + OwnAll(it.items)
    ensures Built(it, h)
  {
  }

  /** Submits a command and collects the records of the reply in a list. Without a list no
      block is left in use; and then either memory ran out or the query has no result. */
  method NewIter(p: Session.Session, kind: Kind, h: Heap, cmd: string) returns (it: Iter?)
    requires p.Valid() && Sound(p.State().net) && Sendable(cmd) && h.Valid()
    modifies p, p.con, p.con.buf, h
    ensures p.Valid() && Sound(p.State().net) && h.Valid()
    ensures it != null ==>
              && fresh(it) && it.kind == kind && Built(it, h)
              && Query(old(p.State()), cmd, ConvOf(kind)) == (p.State(), Some(Values(it.items)))
    ensures it == null ==> h.live == old(h.live)
    ensures it == null && h.budget > 0 ==> Query(old(p.State()), cmd, ConvOf(kind)) == (p.State(), None)
  {
    hide *;
    it := null;
    ghost var s, conv := p.State(), ConvOf(kind);
    ghost var live := h.live;
    var ok := p.Vsend(cmd);
    if !ok {
      QueryNotSent(s, cmd, conv);
      return null;
    }
    var r := p.Rnext();
    if r != 0 {
      QueryFails(s, cmd, conv);
      return null;
    }
    QueryUnfold(s, cmd, conv, p.State());
    var error := p.CodeClass('5');
    if error {
      r := p.Rlast();
      return null;
    }
    HeapBelow(h);
    var blk := h.Malloc();
    if blk.None? {
      r := p.Rlast();
      return null;
    }
    HeapBelow(h);
    it := new Iter(blk.value, kind);
    ghost var base, rs := h.live, [];
    EmptyHolding(base, h.next);
    ghost var after := h.next;
    ok, rs := Fill(it, p, h, base, after);
    HoldingParts(h.live, h.next, base, after, it.items, live, it.blk);
    IsMine(it, h);
    if !ok {
      it.Done(h);
      r := p.Rlast();
      return null;
    }
    IsBuilt(it, h);
  }

  /** Whoever got a list may walk it; releasing its blocks brings back those of before. */
  twostate lemma BuiltMine(new it: Iter, h: Heap)
    requires Built(it, h)
    ensures it.Valid() && it.Mine(h) && h.live - {it.blk} - OwnAll(it.items) == old(h.live)
  {
    hide OwnAll, Apart;
  }

  // ------------------------------------------------------------------- walking a list

  /** The records before the first missing one. */
  function Leading<T>(rs: seq<Option<T>>): seq<T> {
    if rs == [] || rs[0].None? then [] else [rs[0].value] + Leading(rs[1..])
  }

  /** The first `k` records, if the next one is missing or there is none. */
  lemma {:induction false} LeadingIs<T>(rs: seq<Option<T>>, k: nat)
    requires k <= |rs| && (forall i | 0 <= i < k :: rs[i].Some?) && (k < |rs| ==> rs[k].None?)
    ensures |Leading(rs)| == k && forall i | 0 <= i < k :: Leading(rs)[i] == rs[i].value
    decreases k
  {
    if k > 0 {
      LeadingIs(rs[1..], k - 1);
      forall i | 0 < i < k ensures Leading(rs)[i] == rs[i].value {
        assert Leading(rs)[i] == Leading(rs[1..])[i - 1];
      }
    }
  }

  lemma LeadingStep<T>(seen: seq<T>, rs: seq<Option<T>>)
    requires rs != [] && rs[0].Some?
    ensures seen + Leading(rs) == seen + [rs[0].value] + Leading(rs[1..])
  {
  }

  /** The values when the first item is current. */
  lemma CurrentValue(items: seq<Item>, q: Rec)
    requires Apart(items) && if items == [] then IsNull(q) else q == items[0].rec
    ensures IsNull(q) ==> Leading(Values(items)) == []
    ensures !IsNull(q) ==> items != [] && Values(items) != [] && Values(items)[0] == ValOf(q)
                           && ValOf(q).Some? && Values(items)[1..] == Values(items[1..])
  {
    hide ValOf, OwnRec, OwnAll;
    if !IsNull(q) { assert Values(items)[1..] == Values(items[1..]); }
  }

  /** The loop that the users of a list run: look at the current record, release it, move on;
      then close the list. Every block of the list and its records is released. */
  method Walk(it: Iter, h: Heap) returns (seen: seq<Val>)
    requires it.Valid() && it.Mine(h)
    modifies it, h`live
    ensures h.Valid() && h.live == old(h.live) - {it.blk} - OwnAll(old(it.items))
    ensures seen == Leading(Values(old(it.items)))
  {
    hide OwnRec, Whole, OwnAll, Apart, ValOf, Leading, Values, IsNull;
    ghost var all := it.items;
    ghost var keep := h.live - OwnAll(all);
    seen := [];
    var q := it.Cur();
    CurrentValue(it.items, q);
    while !IsNull(q)
      invariant it.Valid() && h.Valid() && Apart(it.items) && keep !! OwnAll(it.items)
      invariant h.live == keep + OwnAll(it.items)
      invariant if it.items == [] then IsNull(q) else q == it.items[0].rec
      invariant seen + Leading(Values(it.items)) == Leading(Values(all))
      decreases |it.nodes|
    {
      CurrentValue(it.items, q);
      Popped(keep, it.items);
      LeadingStep(seen, Values(it.items));
      seen := seen + [ValOf(q).value];
      FreeRec(h, q);
      q := it.Next(h);
    }
    CurrentValue(it.items, q);
    IsMine(it, h);
    it.Done(h);
  }
}
