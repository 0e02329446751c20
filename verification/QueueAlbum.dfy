/** Queueing an album: one list query, then one command per track. */
module QueueAlbum {
  import opened CText
  import opened Wire
  import opened Protocol
  import opened Replies
  import opened Pairing
  import opened Iterator
  import opened Parsers
  import opened EndToEnd
  import R = Records
  import Session

  /** `%d` prints an `int`. */
  function NumCmd(verb: string, id: int): string { verb + " " + PrintInt(ToInt(id)) }

  function AddCmd(id: int): string { NumCmd("queueadd", id) }

  function AlbumCmd(id: int): string { NumCmd("tracksalbum", id) }

  lemma NumCmdShort(verb: string, id: int)
    ensures |NumCmd(verb, id)| <= |verb| + 12
    ensures |verb| <= 20 ==> |NumCmd(verb, id)| < BUFLENLINE - 1 && Sendable(NumCmd(verb, id))
  {
    hide PrintInt;
    PrintedIntShort(ToInt(id));
  }

  lemma AlbumCmdShort(id: int)
    ensures Sendable(AlbumCmd(id)) && |AlbumCmd(id)| < BUFLENLINE - 1
  {
    NumCmdShort("tracksalbum", id);
  }

  // ------------------------------------------------------------------ the operation

  function IdOf(v: Val): int { if v.TrackVal? then v.track.id else v.queue.id }

  function Ids(vs: seq<Val>): seq<int> {
    seq(|vs|, i requires 0 <= i < |vs| => IdOf(vs[i]))
  }

  /** What `queueadd` returns: the new queue id, or a negative number. */
  function Added(s: State, id: int): (State, int)
    requires Sound(s.net)
  {
    var (s1, ok) := Ask(s, AddCmd(id));
    (s1, if ok then IntResult(s1) else -1)
  }

  function AddTracks(s: State, ids: seq<int>): (r: (State, bool))
    requires Sound(s.net)
    ensures Sound(r.0.net)
    decreases |ids|
  {
    if ids == [] then (s, true)
    else
      var (s1, q) := Added(s, ids[0]);
      if q < 0 then (s1, false) else AddTracks(s1, ids[1..])
  }

  lemma AddTracksStep(s: State, ids: seq<int>, i: nat)
    requires Sound(s.net) && i < |ids|
    ensures Sound(Added(s, ids[i]).0.net)
    ensures var (s1, q) := Added(s, ids[i]);
            AddTracks(s, ids[i..]) == if q < 0 then (s1, false) else AddTracks(s1, ids[i + 1..])
  {
    assert ids[i..][1..] == ids[i + 1..];
  }

  /** The ids `duc_cmd_queuealbum` has collected when its list query returned. */
  function Collected(rs: Option<seq<Option<Val>>>): seq<int> {
    if rs.None? then [] else Ids(Leading(rs.value))
  }

  // ------------------------------------------------------------------ what it leaves

  /** The blocks of a track that `free` on its struct does not release. */
  function Inner(r: Rec): set<nat> {
    if r.TrackPtr? && r.t.Some? then OwnTrack(r.t) - {r.t.value.blk} else {}
  }

  /** What is left of the records up to the first missing one. */
  function Leaks(items: seq<Item>): set<nat> {
    if items == [] || IsNull(items[0].rec) then {} else Inner(items[0].rec) + Leaks(items[1..])
  }

  predicate AllTracks(items: seq<Item>) { forall i | 0 <= i < |items| :: items[i].rec.TrackPtr? }

  /** Releasing only the struct of the first record, and its node. */
  lemma PoppedShallow(keep: set<nat>, items: seq<Item>)
    requires items != [] && Apart(items) && keep !! OwnAll(items)
    requires items[0].rec.TrackPtr? && items[0].rec.t.Some?
    ensures var r, b := items[0].rec, items[0].rec.t.value.blk;
            && Apart(items[1..]) && b in keep + OwnAll(items)
            && items[0].blk in keep + OwnAll(items) - {b}
            && keep + Inner(r) !! OwnAll(items[1..]) && Inner(r) !! keep
            && keep + OwnAll(items) - {b} - {items[0].blk} == keep + Inner(r) + OwnAll(items[1..])
  {
    hide Whole;
    assert items[0].rec.t.value.blk in OwnTrack(items[0].rec.t);
  }

  lemma ArtistSize(p: Ptr<ArtistRec>)
    requires TreeArtist(p) && ArtistOf(p).Some?
    ensures |OwnArtist(p)| == 2
  {
    assert OwnArtist(p) == {p.value.blk, p.value.v.artist.value.blk};
  }

  lemma AlbumSize(p: Ptr<AlbumRec>)
    requires TreeAlbum(p) && AlbumOf(p).Some?
    ensures |OwnAlbum(p)| == 4
  {
    ArtistSize(p.value.v.artist);
    hide OwnArtist, TreeArtist, ArtistOf;
    var a, b := {p.value.blk, p.value.v.album.value.blk}, OwnArtist(p.value.v.artist);
    assert |a| == 2 && a !! b;
    assert OwnAlbum(p) == a + b;
  }

  /** Every track leaves seven blocks behind: its title, the artist and its name, and the
      album with its name, its artist and that artist's name. */
  lemma InnerSize(r: Rec)
    requires Whole(r) && r.TrackPtr? && r.t.Some?
    ensures |Inner(r)| == 7
  {
    var t := r.t.value.v;
    assert TrackOf(r.t).Some?;
    ArtistSize(t.artist);
    AlbumSize(t.album);
    hide OwnArtist, OwnAlbum, TreeArtist, TreeAlbum, ArtistOf, AlbumOf;
    var a, b, c := OwnString(t.title), OwnArtist(t.artist), OwnAlbum(t.album);
    assert a == {t.title.value.blk};
    assert Inner(r) == a + b + c;
    assert a !! b && (a + b) !! c;
    assert |a| == 1 && |a + b| == 3 && |a + b + c| == 7;
  }

  lemma {:induction false} LeaksOwned(items: seq<Item>)
    ensures Leaks(items) <= OwnAll(items)
  {
    if items != [] { LeaksOwned(items[1..]); }
  }

  lemma InnerOwned(r: Rec)
    ensures Inner(r) <= OwnRec(r)
  {
  }

  /** So many blocks stay in use after the walk, and none if and only if no track was met. */
  lemma {:induction false} LeakSize(items: seq<Item>)
    requires Apart(items) && AllTracks(items)
    ensures |Leaks(items)| == 7 * |Leading(Values(items))|
    ensures Leaks(items) == {} <==> Leading(Values(items)) == []
    decreases |items|
  {
    hide Whole, OwnRec, Inner, ValOf;
    if items != [] {
      var q, rest := items[0].rec, items[1..];
      CurrentValue(items, q);
      if !IsNull(q) {
        assert q.TrackPtr?;
        InnerSize(q);
        LeakSize(rest);
        LeaksOwned(rest);
        InnerOwned(q);
        assert Inner(q) !! Leaks(rest);
        assert |Leaks(items)| == |Inner(q)| + |Leaks(rest)|;
      }
    }
  }

  lemma NoIds()
    ensures Ids([]) == []
  {
  }

  lemma IdsSnoc(vs: seq<Val>, v: Val)
    ensures Ids(vs + [v]) == Ids(vs) + [IdOf(v)]
  {
  }

  lemma TrackId(q: Rec)
    requires q.TrackPtr? && ValOf(q).Some?
    ensures q.t.Some? && IdOf(ValOf(q).value) == q.t.value.v.id
  {
  }

  lemma LeaksStep(gone: set<nat>, items: seq<Item>)
    requires items != [] && !IsNull(items[0].rec)
    ensures gone + Leaks(items) == gone + Inner(items[0].rec) + Leaks(items[1..])
  {
  }

  lemma LeaksEnd(items: seq<Item>, q: Rec)
    requires IsNull(q) && (items != [] ==> q == items[0].rec)
    ensures Leaks(items) == {}
  {
  }

  lemma StillMine(it: Iter, h: Heap, keep: set<nat>)
    requires h.Valid() && Apart(it.items) && keep !! OwnAll(it.items) && it.blk in keep
    requires h.live == keep + OwnAll(it.items)
    ensures it.Mine(h) && h.live - {it.blk} - OwnAll(it.items) == keep - {it.blk}
  {
    hide Apart, OwnAll;
    IsMine(it, h);
  }

  /** The loop over the tracks: it notes the ids, but releases only the struct of each track. */
  method CollectIds(it: Iter, h: Heap) returns (ids: seq<int>)
    requires it.Valid() && it.Mine(h) && it.kind == Tracks
    modifies it, h`live
    ensures h.Valid() && h.live == old(h.live) - {it.blk} - OwnAll(old(it.items)) + Leaks(old(it.items))
    ensures ids == Ids(Leading(Values(old(it.items))))
  {
    hide OwnRec, Whole, OwnAll, Apart, ValOf, Leading, Values, Inner, Leaks, Ids;
    ghost var all := it.items;
    ghost var base := h.live - OwnAll(all);
    assert it.blk in base;
    ghost var keep, seen: seq<Val> := base, [];
    NoIds();
    ids := [];
    var q := it.Cur();
    CurrentValue(it.items, q);
    while !IsNull(q)
      invariant it.Valid() && h.Valid() && Apart(it.items) && keep !! OwnAll(it.items)
      invariant h.live == keep + OwnAll(it.items) && it.blk in keep
      invariant keep + Leaks(it.items) == base + Leaks(all)
      invariant if it.items == [] then IsNull(q) else q == it.items[0].rec
      invariant seen + Leading(Values(it.items)) == Leading(Values(all)) && ids == Ids(seen)
      decreases |it.nodes|
    {
      CurrentValue(it.items, q);
      PoppedShallow(keep, it.items);
      LeaksStep(keep, it.items);
      LeadingStep(seen, Values(it.items));
      TrackId(q);
      IdsSnoc(seen, ValOf(q).value);
      seen := seen + [ValOf(q).value];
      ids := ids + [q.t.value.v.id];
      keep := keep + Inner(q);
      h.Free(q.t.value.blk);
      q := it.Next(h);
    }
    CurrentValue(it.items, q);
    LeaksEnd(it.items, q);
    LeaksOwned(all);
    assert seen + [] == seen;
    StillMine(it, h, keep);
    it.Done(h);
  }

  // ------------------------------------------------------------------------ the call

  lemma TrackKind()
    ensures ConvOf(Tracks) == TrackVals
  {
  }

  lemma OfKind(it: Iter)
    requires it.Valid() && it.kind == Tracks
    ensures AllTracks(it.items)
  {
  }

  lemma LeakSizeOf(it: Iter, h: Heap)
    requires it.Mine(h) && AllTracks(it.items)
    ensures |Leaks(it.items)| == 7 * |Ids(Leading(Values(it.items)))|
  {
    hide Apart, OwnAll, Leaks, Leading, Values;
    LeakSize(it.items);
  }

  twostate lemma BuiltApart(new it: Iter, h: Heap)
    requires Built(it, h)
    ensures OwnAll(it.items) !! old(h.live)
  {
    hide OwnAll, Apart;
  }

  lemma CollectedIs(rs: Option<seq<Option<Val>>>)
    ensures Collected(rs) == if rs.Some? then Ids(Leading(rs.value)) else []
  {
  }

  method AddAll(p: Session.Session, ids: seq<int>) returns (ok: bool)
    requires p.Valid() && Sound(p.State().net)
    modifies p, p.con, p.con.buf
    ensures p.Valid() && (p.State(), ok) == AddTracks(old(p.State()), ids)
  {
    hide Ask, IntResult, NumCmd, Sound;
    assert ids[0..] == ids;
    for i := 0 to |ids|
      invariant p.Valid() && Sound(p.State().net)
      invariant AddTracks(old(p.State()), ids) == AddTracks(p.State(), ids[i..])
    {
      NumCmdShort("queueadd", ids[i]);
      AddTracksStep(p.State(), ids, i);
      var q := p.CmdInt(AddCmd(ids[i]));
      if q < 0 { return false; }
    }
    return true;
  }

  /** `duc_cmd_queuealbum`: the blocks `left` stay in use, seven for every track of the album. */
  method QueueAlbum(p: Session.Session, id: int, h: Heap) returns (ok: bool, ghost left: set<nat>)
    requires p.Valid() && Sound(p.State().net) && h.Valid()
    modifies p, p.con, p.con.buf, h
    ensures p.Valid() && h.Valid() && h.live == old(h.live) + left && left !! old(h.live)
    ensures h.budget > 0 ==>
              var (s1, rs) := Query(old(p.State()), AlbumCmd(id), TrackVals);
              && Sound(s1.net) && |left| == 7 * |Collected(rs)|
              && (p.State(), ok) == if rs.None? then (s1, false) else AddTracks(s1, Collected(rs))
  {
    TrackKind();
    hide *;
    AlbumCmdShort(id);
    left := {};
    ghost var rs := Query(p.State(), AlbumCmd(id), TrackVals).1;
    CollectedIs(rs);
    var it := NewIter(p, Tracks, h, AlbumCmd(id));
    if it == null { return false, {}; }
    BuiltMine(it, h);
    ghost var items := it.items;
    OfKind(it);
    LeakSizeOf(it, h);
    LeaksOwned(items);
    left := Leaks(items);
    BuiltApart(it, h);
    var ids := CollectIds(it, h);
    ok := AddAll(p, ids);
  }

  // -------------------------------------------------------------------- what it does

  /** The server's reaction to `queueadd` reports a queue id. */
  predicate Takes(e: Exchange) {
    |e.code| == 3 && e.code[0] == '2' && e.ts != [] && Strtol(e.ts[|e.ts| - 1], 0).value >= 0
  }

  /** How many tracks are tried: up to the first one that is refused. */
  function Tries(n: nat, es: seq<Exchange>): (k: nat)
    requires n <= |es|
    ensures k <= n
    ensures forall i | 0 <= i < k - 1 :: Takes(es[i])
    ensures k < n ==> k > 0 && !Takes(es[k - 1])
  {
    if n == 0 then 0 else if Takes(es[0]) then 1 + Tries(n - 1, es[1..]) else 1
  }

  lemma TriesCons(n: nat, es: seq<Exchange>)
    requires 0 < n <= |es|
    ensures Tries(n, es) == if Takes(es[0]) then 1 + Tries(n - 1, es[1..]) else 1
  {
  }

  predicate AllTaken(n: nat, es: seq<Exchange>)
    requires n <= |es|
  {
    forall i | 0 <= i < n :: Takes(es[i])
  }

  /** The lines that ask a server to queue the tracks with the given ids. */
  function AddLines(ids: seq<int>): seq<string> {
    seq(|ids|, i requires 0 <= i < |ids| => "queueadd " + PrintInt(ToInt(ids[i])) + "\n")
  }

  /** A number behind a verb is read back by the server. */
  lemma VerbScanned(verb: string, id: int)
    requires IsInt(id)
    ensures var line := verb + " " + PrintInt(id) + "\n";
            && Holds(line, 0, verb + " ") && Strtol(line, |verb| + 1) == Number(id, |line| - 1)
  {
    var v, t := verb + " ", PrintInt(id);
    var line := v + t + "\n";
    assert line[0..|v|] == v && line[|v|..|v| + |t|] == t && line[|v| + |t|] == '\n';
    hide PrintInt;
    ScanPrinted(line, |v|, id);
  }

  lemma CommandLines(id: int)
    ensures AddCmd(id) + "\n" == "queueadd " + PrintInt(ToInt(id)) + "\n"
    ensures AlbumCmd(id) + "\n" == "tracksalbum " + PrintInt(ToInt(id)) + "\n"
  {
    hide PrintInt;
  }

  lemma AddedIdle(s: State, id: int, bs: seq<string>, es: seq<Exchange>)
    requires Idle(s, bs, es) && es != []
    ensures Sound(s.net)
    ensures Idle(Added(s, id).0, es[0].after, es[1..])
    ensures Added(s, id).0.net.env.heard == s.net.env.heard + ["queueadd " + PrintInt(ToInt(id)) + "\n"]
    ensures Added(s, id).1 >= 0 <==> Takes(es[0])
  {
    hide Idle, AtLine, Ask, NumCmd, IntResult;
    CommandLines(id);
    NumCmdShort("queueadd", id);
    IdleText(s, bs, es);
    var n1 := AskIdle(s, AddCmd(id), bs, es);
    WrapperResults(Ask(s, AddCmd(id)).0, es[0].code, es[0].ts[|es[0].ts| - 1]);
    AskHeard(s, AddCmd(id), bs, es);
  }

  lemma AddLinesCons(ids: seq<int>, k: nat)
    requires k < |ids|
    ensures AddLines(ids[..k + 1]) == ["queueadd " + PrintInt(ToInt(ids[0])) + "\n"] + AddLines(ids[1..][..k])
  {
    hide PrintInt;
    assert forall i | 0 <= i < k :: ids[..k + 1][i + 1] == ids[1..][..k][i];
  }

  lemma NoAddLines(ids: seq<int>)
    ensures AddLines(ids[..0]) == []
  {
  }

  lemma TakenNone(es: seq<Exchange>)
    ensures AllTaken(0, es)
  {
  }

  lemma TakenCons(n: nat, es: seq<Exchange>)
    requires 0 < n <= |es|
    ensures AllTaken(n, es) <==> Takes(es[0]) && AllTaken(n - 1, es[1..])
  {
    if AllTaken(n - 1, es[1..]) {
      forall i | 0 <= i < n && i > 0 ensures Takes(es[i]) { assert es[1..][i - 1] == es[i]; }
    }
  }

  /** The tracks are queued in order, each by one command, up to the first refusal; the
      call succeeds if and only if there is none. */
  lemma {:induction false} AddTracksExact(s: State, ids: seq<int>, bs: seq<string>,
      es: seq<Exchange>) returns (bs': seq<string>)
    requires Idle(s, bs, es) && |ids| <= |es|
    ensures Sound(s.net)
    ensures var k, r := Tries(|ids|, es), AddTracks(s, ids);
            && r.0.net.env.heard == s.net.env.heard + AddLines(ids[..k])
            && (r.1 <==> AllTaken(|ids|, es)) && Idle(r.0, bs', es[k..])
    decreases |ids|
  {
    hide Idle, Added, Takes, NumCmd, PrintInt, AddLines, AllTaken;
    IdleParts(s, bs, es);
    NoAddLines(ids);
    TakenNone(es);
    if ids == [] {
      bs' := bs;
      assert es[0..] == es;
    } else {
      hide AddTracks, Tries;
      TriesCons(|ids|, es);
      AddedIdle(s, ids[0], bs, es);
      AddTracksStep(s, ids, 0);
      assert ids[0..] == ids;
      var s1 := Added(s, ids[0]).0;
      if Takes(es[0]) {
        bs' := AddTracksExact(s1, ids[1..], es[0].after, es[1..]);
        var k := Tries(|ids| - 1, es[1..]);
        assert es[1..][k..] == es[k + 1..];
        AddLinesCons(ids, k);
        TakenCons(|ids|, es);
      } else {
        bs' := es[0].after;
        AddLinesCons(ids, 0);
        NoAddLines(ids[1..]);
        TakenCons(|ids|, es);
      }
    }
  }

  // ------------------------------------------------------------- the whole operation

  function TrackTexts(ts: seq<R.Track>): seq<string> {
    if ts == [] then [""] else seq(|ts|, i requires 0 <= i < |ts| => R.EncTrack(ts[i]))
  }

  function TrackRecords(ts: seq<R.Track>): seq<Val> {
    seq(|ts|, i requires 0 <= i < |ts| => TrackVal(ts[i]))
  }

  function TrackIds(ts: seq<R.Track>): seq<int> {
    seq(|ts|, i requires 0 <= i < |ts| => ts[i].id)
  }

  /** The server's reaction to `tracksalbum` when the album holds `ts`. */
  predicate ListsTracks(e: Exchange, ts: seq<R.Track>) {
    && e.ts == TrackTexts(ts) && |e.code| == 3 && e.code[0] != '5'
    && forall i | 0 <= i < |ts| :: R.OkTrack(ts[i])
  }

  lemma TrackAccepted(t: R.Track)
    requires R.OkTrack(t)
    ensures Accepts(TrackVals, R.EncTrack(t), Some(TrackVal(t)))
  {
    hide R.ParseTrack, R.EncTrack, R.OkTrack;
    R.TrackAccepted(t);
    var x := R.EncTrack(t);
    forall junk: string ensures TrackVals(x + [NUL] + junk) == Conv(Some(TrackVal(t)), |x|) {
      assert R.TrackConv(x + [NUL] + junk) == Conv(Some(t), |x|);
    }
  }

  lemma NoTrackAccepted()
    ensures Accepts(TrackVals, "", None)
  {
    hide TrackVals;
    forall junk: string ensures TrackVals("" + [NUL] + junk) == Conv(None, 0) {
      var mem := "" + [NUL] + junk;
      assert At(mem, 0) == NUL;
      NoRecord(Tracks, mem);
    }
  }

  lemma TrackTextsAccepted(ts: seq<R.Track>)
    requires forall i | 0 <= i < |ts| :: R.OkTrack(ts[i])
    ensures AllAccepted(TrackVals, TrackTexts(ts), Items(TrackRecords(ts)))
  {
    hide R.OkTrack, R.EncTrack, TrackVals, Accepts;
    if ts == [] {
      assert TrackRecords(ts) == [];
      NoTrackAccepted();
    } else {
      forall i | 0 <= i < |ts|
        ensures Accepts(TrackVals, TrackTexts(ts)[i], Items(TrackRecords(ts))[i])
      {
        TrackAccepted(ts[i]);
      }
    }
  }

  /** Listing the tracks of an album gives exactly its tracks, for every reply code of
      success, interleaving of broadcasts and chunking. */
  lemma AlbumTracksExact(s: State, id: int, ts: seq<R.Track>, bs: seq<string>, es: seq<Exchange>)
    requires Idle(s, bs, es) && es != [] && ListsTracks(es[0], ts)
    ensures Sound(s.net)
    ensures var (s1, rs) := Query(s, AlbumCmd(id), TrackVals);
            && rs == Some(Items(TrackRecords(ts))) && Idle(s1, es[0].after, es[1..])
            && s1.net.env.heard == s.net.env.heard + ["tracksalbum " + PrintInt(ToInt(id)) + "\n"]
  {
    hide Idle, Query, NumCmd, PrintInt, R.OkTrack, R.EncTrack;
    CommandLines(id);
    NumCmdShort("tracksalbum", id);
    var n1 := QueryIdle(s, AlbumCmd(id), TrackVals, bs, es);
    TrackTextsAccepted(ts);
    QueryHeard(s, AlbumCmd(id), TrackVals, bs, es);
  }

  /** The lines that queue the tracks. */
  function TrackLines(ts: seq<R.Track>): seq<string> {
    seq(|ts|, i requires 0 <= i < |ts| => "queueadd " + PrintInt(ts[i].id) + "\n")
  }

  lemma AddLinesAre(ts: seq<R.Track>, k: nat)
    requires k <= |ts| && forall i | 0 <= i < |ts| :: R.OkTrack(ts[i])
    ensures AddLines(TrackIds(ts)[..k]) == TrackLines(ts[..k])
  {
    hide PrintInt;
    assert forall i | 0 <= i < k :: TrackIds(ts)[..k][i] == ts[i].id && R.OkTrack(ts[i]);
  }

  lemma CollectedTracks(ts: seq<R.Track>)
    ensures Collected(Some(Items(TrackRecords(ts)))) == TrackIds(ts) && |TrackIds(ts)| == |ts|
  {
    ItemsLead(TrackRecords(ts));
    assert Ids(TrackRecords(ts)) == TrackIds(ts);
  }

  /** Queueing an album that holds the tracks `ts`: the server hears the list query and then
      one `queueadd` per track, in the order of the list, up to the first it refuses. The
      call succeeds if and only if all were taken, and leaves the session between replies. */
  lemma {:induction false} QueueAlbumExact(s: State, id: int, ts: seq<R.Track>, bs: seq<string>, es: seq<Exchange>)
      returns (bs': seq<string>)
    requires Idle(s, bs, es) && |ts| < |es| && ListsTracks(es[0], ts)
    ensures Sound(s.net)
    ensures var (s1, rs) := Query(s, AlbumCmd(id), TrackVals);
            var r := AddTracks(s1, Collected(rs));
            var k := Tries(|ts|, es[1..]);
            && rs.Some? && (r.1 <==> AllTaken(|ts|, es[1..])) && Idle(r.0, bs', es[1..][k..])
            && r.0.net.env.heard
               == s.net.env.heard + ["tracksalbum " + PrintInt(ToInt(id)) + "\n"]
                  + TrackLines(ts[..k])
  {
    AddLinesAre(ts, Tries(|ts|, es[1..]));
    hide *;
    AlbumTracksExact(s, id, ts, bs, es);
    CollectedTracks(ts);
    var s1 := Query(s, AlbumCmd(id), TrackVals).0;
    bs' := AddTracksExact(s1, TrackIds(ts), es[0].after, es[1..]);
  }
}
