/** Track lists: plain ids, the current track, and positions on albums, looked up on the
    server while the text is read. */
module TrackList {
  import opened CText
  import IdList
  import opened Lookup
  import R = Records

  // --------------------------------------------------------------- tracks of an album

  /** A negative bound is open. */
  predicate Within(nr: int, first: int, last: int) {
    (first < 0 || first <= nr) && (last < 0 || nr <= last)
  }

  /** The ids of the tracks in the given positions, in the order of the album. */
  function Selected(ts: seq<R.Track>, first: int, last: int): seq<int> {
    if ts == [] then []
    else (if Within(ts[0].albumnr, first, last) then [ts[0].id] else []) + Selected(ts[1..], first, last)
  }

  lemma {:induction false} SelectedSnoc(ts: seq<R.Track>, t: R.Track, first: int, last: int)
    ensures Selected(ts + [t], first, last)
            == Selected(ts, first, last) + if Within(t.albumnr, first, last) then [t.id] else []
  {
    if ts == [] {
      assert (ts + [t])[1..] == [];
    } else {
      hide Within;
      var h := if Within(ts[0].albumnr, first, last) then [ts[0].id] else [];
      var last' := if Within(t.albumnr, first, last) then [t.id] else [];
      assert (ts + [t])[0] == ts[0] && (ts + [t])[1..] == ts[1..] + [t];
      SelectedSnoc(ts[1..], t, first, last);
      assert h + (Selected(ts[1..], first, last) + last') == h + Selected(ts[1..], first, last) + last';
    }
  }

  /** The outcome of an item: its ids, or None if the whole list fails; and the questions
      asked until then. */
  datatype Outcome = Outcome(ids: Option<seq<int>>, asked: seq<Question>)

  /** The tracks `first` to `last` of an album. Whatever is missing adds no track, and does
      not make the list fail. */
  function OnAlbum(s: Server, album: int, first: int, last: int, asked: seq<Question>): Outcome {
    var cur := s.current(|asked|);
    if album < 0 && cur.None? then Outcome(Some([]), asked + [CurTrack])
    else
      var asked1 := if album < 0 then asked + [CurTrack] else asked;
      var id := if album < 0 then cur.value.album.id else album;
      var ts := s.tracks(|asked1|, id);
      Outcome(Some(if ts.None? then [] else Selected(ts.value, first, last)), asked1 + [TracksAlbum(id)])
  }

  /** One position on an album; the id goes to the server as it is, also when it is -1. */
  function OnePosition(s: Server, album: int, pos: int, asked: seq<Question>): Outcome {
    var id := s.trackId(|asked|, album, pos);
    Outcome(Some(if id >= 0 then [id] else []), asked + [TrackAt(album, pos)])
  }

  function OneTrack(s: Server, id: int, asked: seq<Question>): Outcome {
    if id >= 0 then Outcome(Some([id]), asked)
    else
      var cur := s.current(|asked|);
      Outcome(if cur.Some? then Some([cur.value.id]) else None, asked + [CurTrack])
  }

  /** `idl_addalbum` */
  method AddAlbum(idl: IdList.IdList, link: Link, album: int, first: int, last: int) returns (added: nat)
    modifies idl`ids, link
    ensures added == 0
    ensures var o := OnAlbum(link.server, album, first, last, old(link.asked));
            idl.ids == old(idl.ids) + o.ids.value && link.asked == o.asked
  {
    added := 0;
    var id := album;
    if album < 0 {
      var t := link.CurrentTrack();
      if t.None? { return; }
      id := t.value.album.id;
    }
    var it := link.AlbumTracks(id);
    if it.None? { return; }
    var ts := it.value;
    ghost var before := idl.ids;
    var i := 0;
    while i < |ts|
      invariant 0 <= i <= |ts| && idl.ids == before + Selected(ts[..i], first, last)
      modifies idl`ids
    {
      assert ts[..i + 1] == ts[..i] + [ts[i]];
      SelectedSnoc(ts[..i], ts[i], first, last);
      if (first < 0 || first <= ts[i].albumnr) && (last < 0 || last >= ts[i].albumnr) {
        idl.Add(ts[i].id);
      }
      i := i + 1;
    }
    assert ts[..i] == ts;
  }

  // ------------------------------------------------------------------ reading a list

  /** What an item asks for: album or track id (-1: current), and the positions. */
  datatype Request =
    | Whole(id: int)                              // <id>
    | One(id: int, pos: int)                      // <id>/<pos>
    | Span(id: int, first: int, last: int)       // <id>/<first>-<last>, -1: open

  /** The item at `i` and the offset behind it; None if it is malformed. */
  function RequestAt(mem: string, i: nat): Option<(Request, nat)> {
    var n := Strtoul(mem, i);
    if n.end == i && At(mem, i) != 'c' then None
    else
      var id := if n.end == i then -1 else n.value;
      var j := if n.end == i then i + 1 else n.end;
      if At(mem, j) != '/' then Some((Whole(id), j))
      else
        var a := Strtoul(mem, j + 1);
        if a.end == j + 1 then
          if At(mem, j + 1) == '*' then Some((Span(id, -1, -1), j + 2)) else None
        else if At(mem, a.end) != '-' then Some((One(id, a.value), a.end))
        else
          var b := Strtoul(mem, a.end + 1);
          if b.end != a.end + 1 then Some((Span(id, a.value, b.value), b.end))
          else if At(mem, b.end) == '*' then Some((Span(id, a.value, -1), b.end + 1))
          else None
  }

  function Resolved(s: Server, r: Request, asked: seq<Question>): Outcome {
    match r
    case Whole(id) => OneTrack(s, id, asked)
    case One(id, pos) => OnePosition(s, id, pos, asked)
    case Span(id, first, last) => OnAlbum(s, id, first, last, asked)
  }

  lemma ScanBounds(mem: string, i: nat)
    ensures i >= |mem| ==> Strtoul(mem, i).end == i
    ensures Strtoul(mem, i).end > i ==> i < |mem|
  {
  }

  lemma RequestAdvances(mem: string, i: nat)
    ensures var r := RequestAt(mem, i);
            r.Some? ==> i < r.value.1 && i < |mem|
  {
    ScanBounds(mem, i);
  }

  /** Reads items from `i` on: the ids in the list and the offset behind the last item, or
      None; and the questions asked. */
  function TracksFrom(s: Server, mem: string, i: nat, ids: seq<int>, asked: seq<Question>)
    : (Option<(seq<int>, nat)>, seq<Question>)
    decreases |mem| - i
  {
    match RequestAt(mem, i)
    case None => (None, asked)
    case Some((r, j)) =>
      RequestAdvances(mem, i);
      var o := Resolved(s, r, asked);
      if o.ids.None? then (None, o.asked)
      else if At(mem, j) != ',' then (Some((ids + o.ids.value, j)), o.asked)
      else TracksFrom(s, mem, j + 1, ids + o.ids.value, o.asked)
  }

  /** One turn of the reading loop; not `ok`: the list fails. */
  method ReadItem(idl: IdList.IdList, link: Link, mem: string, start: nat) returns (ok: bool, end: nat)
    modifies idl`ids, link
    ensures RequestAt(mem, start).None? ==> !ok && link.asked == old(link.asked)
    ensures RequestAt(mem, start).Some? ==>
              var (r, j) := RequestAt(mem, start).value;
              var o := Resolved(link.server, r, old(link.asked));
              && link.asked == o.asked && ok == o.ids.Some?
              && (ok ==> end == j && idl.ids == old(idl.ids) + o.ids.value)
  {
    hide Strtoul, Selected;
    ok, end := false, start;
    var tok := start;
    var n := Strtoul(mem, tok);
    var id1, e := n.value, n.end;
    if e == tok {
      if At(mem, e) != 'c' { return; }
      id1, e := -1, e + 1;
    }
    tok := e;
    if At(mem, tok) == '/' {
      tok := tok + 1;
      var pos1 := Strtoul(mem, tok);
      if pos1.end == tok {
        if At(mem, tok) != '*' { return; }
        var k := AddAlbum(idl, link, id1, -1, -1);
        tok := tok + 1;
      } else {
        tok := pos1.end;
        if At(mem, tok) == '-' {
          tok := tok + 1;
          var pos2 := Strtoul(mem, tok);
          var last := pos2.value;
          e := pos2.end;
          if e == tok {
            if At(mem, e) != '*' { return; }
            last, e := -1, e + 1;
          }
          tok := e;
          var k := AddAlbum(idl, link, id1, pos1.value, last);
        } else {
          var tid := link.TrackToId(id1, pos1.value);
          if tid >= 0 { idl.Add(tid); }
        }
      }
    } else {
      if id1 < 0 {
        var t := link.CurrentTrack();
        if t.None? { return; }
        id1 := t.value.id;
      }
      idl.Add(id1);
    }
    ok, end := true, tok;
  }

  lemma TracksUnfold(s: Server, mem: string, i: nat, ids: seq<int>, asked: seq<Question>)
    ensures var r := RequestAt(mem, i);
            && (r.None? ==> TracksFrom(s, mem, i, ids, asked) == (None, asked))
            && (r.Some? ==>
                  var o, j := Resolved(s, r.value.0, asked), r.value.1;
                  && i < j && i < |mem|
                  && TracksFrom(s, mem, i, ids, asked)
                     == if o.ids.None? then (None, o.asked)
                        else if At(mem, j) != ',' then (Some((ids + o.ids.value, j)), o.asked)
                        else TracksFrom(s, mem, j + 1, ids + o.ids.value, o.asked))
  {
    RequestAdvances(mem, i);
  }

  /** `val_tracklist`: on failure there is no list and nothing is consumed. */
  method ValTrackList(link: Link, list: string) returns (idl: IdList.IdList?, end: nat)
    modifies link
    ensures var (r, asked) := TracksFrom(link.server, list, 0, [], old(link.asked));
            && link.asked == asked && (idl == null <==> r.None?)
            && (idl != null ==> fresh(idl) && idl.cur == 0 && (idl.ids, end) == r.value)
            && (idl == null ==> end == 0)
  {
    hide RequestAt, Resolved, TracksFrom;
    var tok := 0;
    ghost var asked := link.asked;
    var l := new IdList.IdList();
    while true
      invariant fresh(l) && l.cur == 0
      invariant TracksFrom(link.server, list, tok, l.ids, link.asked)
                == TracksFrom(link.server, list, 0, [], asked)
      decreases |list| - tok
    {
      TracksUnfold(link.server, list, tok, l.ids, link.asked);
      var ok, e := ReadItem(l, link, list, tok);
      if !ok { return null, 0; }
      tok := e;
      if At(list, tok) != ',' { return l, tok; }
      tok := tok + 1;
    }
  }

  // ---------------------------------------------------------------- what lists mean

  /** The documented items. `album` None is the album of the current track. */
  datatype TrackItem =
    | Id(id: nat)
    | Current
    | Album(album: Option<nat>)                          // <album>/*
    | Position(album: Option<nat>, pos: nat)             // <album>/<pos>
    | FromTo(album: Option<nat>, first: nat, last: nat)  // <album>/<first>-<last>
    | From(album: Option<nat>, first: nat)               // <album>/<first>-*

  function AlbumText(album: Option<nat>): string {
    if album.None? then "c" else PrintNat(album.value)
  }

  function PositionsText(it: TrackItem): string
    requires !it.Id? && !it.Current?
  {
    match it
    case Album(_) => "*"
    case Position(_, pos) => PrintNat(pos)
    case FromTo(_, first, last) => PrintNat(first) + ("-" + PrintNat(last))
    case From(_, first) => PrintNat(first) + "-*"
  }

  function TrackText(it: TrackItem): string {
    match it
    case Id(id) => PrintNat(id)
    case Current => "c"
    case _ => AlbumText(it.album) + ("/" + PositionsText(it))
  }

  function TrackTexts(its: seq<TrackItem>): seq<string> {
    seq(|its|, i requires 0 <= i < |its| => TrackText(its[i]))
  }

  function TracksText(its: seq<TrackItem>): string { Joined(TrackTexts(its)) }

  predicate TrackBounded(it: TrackItem) {
    match it
    case Id(id) => id <= INT_MAX
    case Current => true
    case Album(a) => a.Some? ==> a.value <= INT_MAX
    case Position(a, pos) => (a.Some? ==> a.value <= INT_MAX) && pos <= INT_MAX
    case FromTo(a, first, last) => (a.Some? ==> a.value <= INT_MAX) && first <= INT_MAX && last <= INT_MAX
    case From(a, first) => (a.Some? ==> a.value <= INT_MAX) && first <= INT_MAX
  }

  /** The tracks of an album, or of that of the current track, and the questions asked for
      them; none if the server does not know them. */
  function TracksOf(s: Server, album: Option<nat>, asked: seq<Question>): (seq<R.Track>, seq<Question>) {
    match album
    case Some(id) =>
      var ts := s.tracks(|asked|, id);
      (if ts.None? then [] else ts.value, asked + [TracksAlbum(id)])
    case None =>
      match s.current(|asked|)
      case None => ([], asked + [CurTrack])
      case Some(t) =>
        var ts := s.tracks(|asked| + 1, t.album.id);
        (if ts.None? then [] else ts.value, asked + [CurTrack, TracksAlbum(t.album.id)])
  }

  /** The ids of the tracks whose position on the album is wanted, in the order of the album. */
  function IdsAt(ts: seq<R.Track>, wanted: int -> bool): seq<int> {
    if ts == [] then []
    else (if wanted(ts[0].albumnr) then [ts[0].id] else []) + IdsAt(ts[1..], wanted)
  }

  /** What an item stands for, given the server. A position on the album of the current track
      is looked up on album -1. */
  function Meaning(s: Server, it: TrackItem, asked: seq<Question>): Outcome {
    match it
    case Id(id) => Outcome(Some([id]), asked)
    case Current =>
      var t := s.current(|asked|);
      Outcome(if t.Some? then Some([t.value.id]) else None, asked + [CurTrack])
    case Album(a) =>
      var (ts, asked') := TracksOf(s, a, asked);
      Outcome(Some(seq(|ts|, i requires 0 <= i < |ts| => ts[i].id)), asked')
    case Position(a, pos) =>
      var album := if a.Some? then a.value else -1;
      var id := s.trackId(|asked|, album, pos);
      Outcome(Some(if id < 0 then [] else [id]), asked + [TrackAt(album, pos)])
    case FromTo(a, first, last) =>
      var (ts, asked') := TracksOf(s, a, asked);
      Outcome(Some(IdsAt(ts, p => first <= p <= last)), asked')
    case From(a, first) =>
      var (ts, asked') := TracksOf(s, a, asked);
      Outcome(Some(IdsAt(ts, p => first <= p)), asked')
  }

  /** A position on the album of the current track. */
  predicate OnCurrent(it: TrackItem) { it.Position? && it.album.None? }

  /** What the documentation of the list language says an item stands for: positions are
      looked up on the album, also on that of the current track. */
  function Documented(s: Server, it: TrackItem, asked: seq<Question>): Outcome {
    if !OnCurrent(it) then Meaning(s, it, asked)
    else
      var t := s.current(|asked|);
      if t.None? then Outcome(Some([]), asked + [CurTrack])
      else
        var album := t.value.album.id;
        var id := s.trackId(|asked| + 1, album, it.pos);
        Outcome(Some(if id < 0 then [] else [id]), asked + [CurTrack, TrackAt(album, it.pos)])
  }

  /** What a list stands for, with its items taken as documented or as they are read: their
      ids, one after the other; the whole list fails at the first item that does. */
  function Meanings(doc: bool, s: Server, its: seq<TrackItem>, asked: seq<Question>): Outcome {
    if its == [] then Outcome(Some([]), asked)
    else
      var o := if doc then Documented(s, its[0], asked) else Meaning(s, its[0], asked);
      if o.ids.None? then o
      else
        var rest := Meanings(doc, s, its[1..], o.asked);
        if rest.ids.None? then rest else Outcome(Some(o.ids.value + rest.ids.value), rest.asked)
  }

  /** What may follow an item without being taken for a part of it. */
  predicate EndsTrack(c: char) { !IsDigit(c) && c != '-' && c != '/' }

  function NumberOf(album: Option<nat>): int { if album.None? then -1 else album.value }

  function RequestOf(it: TrackItem): Request {
    match it
    case Id(id) => Whole(id)
    case Current => Whole(-1)
    case Album(a) => Span(NumberOf(a), -1, -1)
    case Position(a, pos) => One(NumberOf(a), pos)
    case FromTo(a, first, last) => Span(NumberOf(a), first, last)
    case From(a, first) => Span(NumberOf(a), first, -1)
  }

  lemma {:induction false} SelectedWanted(ts: seq<R.Track>, first: int, last: int, wanted: int -> bool)
    requires forall p :: wanted(p) <==> (first < 0 || first <= p) && (last < 0 || p <= last)
    ensures Selected(ts, first, last) == IdsAt(ts, wanted)
  {
    if ts != [] { SelectedWanted(ts[1..], first, last, wanted); }
  }

  lemma {:induction false} SelectedAll(ts: seq<R.Track>)
    ensures Selected(ts, -1, -1) == seq(|ts|, i requires 0 <= i < |ts| => ts[i].id)
  {
    if ts != [] {
      SelectedAll(ts[1..]);
      assert [ts[0].id] + seq(|ts| - 1, i requires 0 <= i < |ts| - 1 => ts[1..][i].id)
             == seq(|ts|, i requires 0 <= i < |ts| => ts[i].id);
    }
  }

  lemma OnAlbumTracks(s: Server, album: Option<nat>, first: int, last: int, asked: seq<Question>)
    ensures var (ts, asked') := TracksOf(s, album, asked);
            OnAlbum(s, NumberOf(album), first, last, asked) == Outcome(Some(Selected(ts, first, last)), asked')
  {
    if album.None? {
      var t := s.current(|asked|);
      if t.Some? { assert asked + [CurTrack] + [TracksAlbum(t.value.album.id)]
                          == asked + [CurTrack, TracksAlbum(t.value.album.id)]; }
    }
  }

  lemma AnyNegative(s: Server, album: int, first: int, last: int, asked: seq<Question>)
    ensures album < 0 ==> OnAlbum(s, album, first, last, asked) == OnAlbum(s, -1, first, last, asked)
  {
  }

  /** What `AddAlbum` adds, for any numbers: of the album, or for a negative number of that of
      the current track, the tracks at the positions from `first` to `last`, a negative bound
      being open; and what it asks. */
  lemma OnAlbumExact(s: Server, album: int, first: int, last: int, asked: seq<Question>)
    ensures var (ts, asked') := TracksOf(s, if album < 0 then None else Some(album), asked);
            OnAlbum(s, album, first, last, asked)
            == Outcome(Some(IdsAt(ts, p => (first < 0 || first <= p) && (last < 0 || p <= last))), asked')
  {
    hide OnAlbum, TracksOf, Selected, IdsAt;
    var a: Option<nat> := if album < 0 then None else Some(album);
    AnyNegative(s, album, first, last, asked);
    OnAlbumTracks(s, a, first, last, asked);
    SelectedWanted(TracksOf(s, a, asked).0, first, last,
                   p => (first < 0 || first <= p) && (last < 0 || p <= last));
  }

  lemma RequestMeaning(s: Server, it: TrackItem, asked: seq<Question>)
    ensures Resolved(s, RequestOf(it), asked) == Meaning(s, it, asked)
  {
    hide OnAlbum, TracksOf, Selected, IdsAt;
    match it
    case Album(a) =>
      OnAlbumTracks(s, a, -1, -1, asked);
      SelectedAll(TracksOf(s, a, asked).0);
    case FromTo(a, first, last) =>
      OnAlbumTracks(s, a, first, last, asked);
      SelectedWanted(TracksOf(s, a, asked).0, first, last, p => first <= p <= last);
    case From(a, first) =>
      OnAlbumTracks(s, a, first, -1, asked);
      SelectedWanted(TracksOf(s, a, asked).0, first, -1, p => first <= p);
    case _ =>
  }

  /** The part in front of the slash, or the whole item. */
  lemma HeadScanned(mem: string, i: nat, album: Option<nat>)
    requires (album.Some? ==> album.value <= INT_MAX) && Holds(mem, i, AlbumText(album))
    requires !IsDigit(At(mem, i + |AlbumText(album)|))
    ensures var n := Strtoul(mem, i);
            if album.None? then n.end == i && At(mem, i) == 'c' && |AlbumText(album)| == 1
            else n == Number(album.value, i + |AlbumText(album)|) && n.end != i
  {
    if album.None? {
      HoldsAt(mem, i, "c", 0);
      assert SkipSpace(mem, i) == i;
    } else {
      ScanPrinted(mem, i, album.value);
    }
  }

  lemma NoNumberAt(mem: string, i: nat)
    requires At(mem, i) == '*'
    ensures Strtoul(mem, i).end == i
  {
    assert SkipSpace(mem, i) == i;
  }

  /** The part behind the slash. */
  lemma PositionsScanned(mem: string, i: nat, it: TrackItem)
    requires TrackBounded(it) && !it.Id? && !it.Current? && Holds(mem, i, PositionsText(it))
    requires EndsTrack(At(mem, i + |PositionsText(it)|))
    ensures var a := Strtoul(mem, i);
            match it
            case Album(_) => a.end == i && At(mem, i) == '*' && |PositionsText(it)| == 1
            case Position(_, pos) => a == Number(pos, i + |PositionsText(it)|) && a.end != i && At(mem, a.end) != '-'
            case FromTo(_, first, last) =>
              && a == Number(first, i + |PrintNat(first)|) && a.end != i && At(mem, a.end) == '-'
              && Strtoul(mem, a.end + 1) == Number(last, i + |PositionsText(it)|)
              && i + |PositionsText(it)| != a.end + 1
            case From(_, first) =>
              && a == Number(first, i + |PrintNat(first)|) && a.end != i && At(mem, a.end) == '-'
              && Strtoul(mem, a.end + 1).end == a.end + 1 && At(mem, a.end + 1) == '*'
              && a.end + 2 == i + |PositionsText(it)|
  {
    hide Strtoul, Holds, PrintNat, Strtol;
    match it
    case Album(_) =>
      HoldsAt(mem, i, "*", 0);
      NoNumberAt(mem, i);
    case Position(_, pos) => ScanPrinted(mem, i, pos);
    case FromTo(_, first, last) =>
      var j := i + |PrintNat(first)|;
      HoldsSplit(mem, i, PrintNat(first), "-" + PrintNat(last));
      HoldsSplit(mem, j, "-", PrintNat(last));
      HoldsAt(mem, j, "-", 0);
      ScanPrinted(mem, i, first);
      ScanPrinted(mem, j + 1, last);
    case From(_, first) =>
      var j := i + |PrintNat(first)|;
      HoldsSplit(mem, i, PrintNat(first), "-*");
      HoldsAt(mem, j, "-*", 0);
      HoldsAt(mem, j, "-*", 1);
      ScanPrinted(mem, i, first);
      NoNumberAt(mem, j + 1);
  }

  lemma AlbumParts(mem: string, i: nat, it: TrackItem)
    requires !it.Id? && !it.Current? && Holds(mem, i, TrackText(it))
    ensures var j := i + |AlbumText(it.album)|;
            && Holds(mem, i, AlbumText(it.album)) && At(mem, j) == '/'
            && Holds(mem, j + 1, PositionsText(it)) && i + |TrackText(it)| == j + 1 + |PositionsText(it)|
  {
    hide Holds, AlbumText, PositionsText;
    var j := i + |AlbumText(it.album)|;
    HoldsSplit(mem, i, AlbumText(it.album), "/" + PositionsText(it));
    HoldsSplit(mem, j, "/", PositionsText(it));
    HoldsAt(mem, j, "/", 0);
  }

  lemma PlainScanned(mem: string, i: nat, id: Option<nat>)
    requires (id.Some? ==> id.value <= INT_MAX) && Holds(mem, i, AlbumText(id))
    requires EndsTrack(At(mem, i + |AlbumText(id)|))
    ensures RequestAt(mem, i) == Some((Whole(NumberOf(id)), i + |AlbumText(id)|))
  {
    hide Strtoul, Holds, PrintNat;
    HeadScanned(mem, i, id);
  }

  lemma AlbumScanned(mem: string, i: nat, it: TrackItem)
    requires TrackBounded(it) && !it.Id? && !it.Current?
    requires var j := i + |AlbumText(it.album)|;
             && Holds(mem, i, AlbumText(it.album)) && At(mem, j) == '/'
             && Holds(mem, j + 1, PositionsText(it)) && EndsTrack(At(mem, j + 1 + |PositionsText(it)|))
    ensures RequestAt(mem, i)
            == Some((RequestOf(it), i + |AlbumText(it.album)| + 1 + |PositionsText(it)|))
  {
    hide Strtoul, Holds, PrintNat, PositionsText, AlbumText;
    HeadScanned(mem, i, it.album);
    PositionsScanned(mem, i + |AlbumText(it.album)| + 1, it);
  }

  lemma TrackScanned(mem: string, i: nat, it: TrackItem)
    requires TrackBounded(it) && Holds(mem, i, TrackText(it)) && EndsTrack(At(mem, i + |TrackText(it)|))
    ensures RequestAt(mem, i) == Some((RequestOf(it), i + |TrackText(it)|))
  {
    hide Strtoul, Holds, PrintNat, RequestAt, PositionsText;
    match it
    case Id(id) => PlainScanned(mem, i, Some(id));
    case Current => PlainScanned(mem, i, None);
    case _ =>
      AlbumParts(mem, i, it);
      AlbumScanned(mem, i, it);
  }

  lemma FirstTrack(mem: string, i: nat, its: seq<TrackItem>)
    requires its != [] && Holds(mem, i, TracksText(its))
    requires EndsTrack(At(mem, i + |TracksText(its)|))
    ensures var t := TrackText(its[0]);
            && Holds(mem, i, t) && EndsTrack(At(mem, i + |t|))
            && (|its| == 1 ==> TracksText(its) == t)
            && (|its| > 1 ==> At(mem, i + |t|) == ',' && Holds(mem, i + |t| + 1, TracksText(its[1..]))
                              && i + |t| + 1 + |TracksText(its[1..])| == i + |TracksText(its)|)
  {
    hide Holds, TrackText, Joined;
    JoinedFirst(mem, i, TrackTexts(its));
    assert TrackTexts(its)[1..] == TrackTexts(its[1..]);
  }

  /** What reading the text of a list must give if the list stands for `o`. */
  function Delivered(o: Outcome, ids: seq<int>, end: nat): (Option<(seq<int>, nat)>, seq<Question>) {
    (if o.ids.None? then None else Some((ids + o.ids.value, end)), o.asked)
  }

  /** Every track list is read as what its items stand for, one after the other, and to its
      end; it fails exactly if one of them has no meaning. The server is asked exactly the
      questions the items need, in their order. */
  lemma {:induction false} TracksExact(s: Server, mem: string, i: nat, its: seq<TrackItem>,
                                       ids: seq<int>, asked: seq<Question>)
    requires its != [] && (forall k | 0 <= k < |its| :: TrackBounded(its[k]))
    requires Holds(mem, i, TracksText(its))
    requires var c := At(mem, i + |TracksText(its)|);
             EndsTrack(c) && c != ','
    ensures TracksFrom(s, mem, i, ids, asked)
            == Delivered(Meanings(false, s, its, asked), ids, i + |TracksText(its)|)
    decreases |its|
  {
    hide RequestAt, TrackText, TracksText, Holds, Resolved, Meaning, TracksFrom, RequestOf, TrackBounded;
    FirstTrack(mem, i, its);
    TrackScanned(mem, i, its[0]);
    RequestMeaning(s, its[0], asked);
    TracksUnfold(s, mem, i, ids, asked);
    var o := Meaning(s, its[0], asked);
    if o.ids.Some? {
      var j := i + |TrackText(its[0])|;
      if |its| == 1 {
        assert its[1..] == [] && o.ids.value + [] == o.ids.value;
      } else {
        TracksExact(s, mem, j + 1, its[1..], ids + o.ids.value, o.asked);
        var rest := Meanings(false, s, its[1..], o.asked);
        if rest.ids.Some? {
          assert ids + o.ids.value + rest.ids.value == ids + (o.ids.value + rest.ids.value);
        }
      }
    }
  }

  // ------------------------------------------------------------------- wrong items

  /** Behind a list and a comma reading goes on with the next item. */
  lemma {:induction false} TracksThen(s: Server, mem: string, i: nat, its: seq<TrackItem>,
                                      ids: seq<int>, asked: seq<Question>)
    requires its != [] && (forall k | 0 <= k < |its| :: TrackBounded(its[k]))
    requires Holds(mem, i, TracksText(its)) && At(mem, i + |TracksText(its)|) == ','
    ensures var o := Meanings(false, s, its, asked);
            TracksFrom(s, mem, i, ids, asked)
            == if o.ids.None? then (None, o.asked)
               else TracksFrom(s, mem, i + |TracksText(its)| + 1, ids + o.ids.value, o.asked)
    decreases |its|
  {
    hide RequestAt, TrackText, TracksText, Holds, Resolved, Meaning, TracksFrom, RequestOf, TrackBounded;
    FirstTrack(mem, i, its);
    TrackScanned(mem, i, its[0]);
    RequestMeaning(s, its[0], asked);
    TracksUnfold(s, mem, i, ids, asked);
    var o := Meaning(s, its[0], asked);
    if o.ids.Some? {
      var j := i + |TrackText(its[0])|;
      if |its| == 1 {
        assert its[1..] == [] && o.ids.value + [] == o.ids.value;
      } else {
        TracksThen(s, mem, j + 1, its[1..], ids + o.ids.value, o.asked);
        var rest := Meanings(false, s, its[1..], o.asked);
        if rest.ids.Some? {
          assert ids + o.ids.value + rest.ids.value == ids + (o.ids.value + rest.ids.value);
        }
      }
    }
  }

  /** Neither a number nor a star begins here. */
  predicate NoPosition(c: char) {
    c != ' ' && !('\t' <= c <= '\r') && !('0' <= c <= '9') && c != '-' && c != '+' && c != '*'
  }

  /** What is no item: nothing that begins one, an album without a position, or a range
      without an end. */
  predicate NoTrack(mem: string, i: nat, album: Option<nat>, first: nat) {
    || (NoPosition(At(mem, i)) && At(mem, i) != 'c')
    || (Holds(mem, i, AlbumText(album) + "/") && NoPosition(At(mem, i + |AlbumText(album) + "/"|)))
    || var t := AlbumText(album) + "/" + PrintNat(first) + "-";
       Holds(mem, i, t) && NoPosition(At(mem, i + |t|))
  }

  lemma NothingAt(mem: string, i: nat)
    requires NoPosition(At(mem, i))
    ensures Strtoul(mem, i).end == i
  {
    assert SkipSpace(mem, i) == i;
  }

  lemma NoPositionScanned(mem: string, i: nat, album: Option<nat>)
    requires Holds(mem, i, AlbumText(album) + "/") && NoPosition(At(mem, i + |AlbumText(album) + "/"|))
    requires album.Some? ==> album.value <= INT_MAX
    ensures RequestAt(mem, i) == None
  {
    hide Strtoul, Holds, PrintNat;
    var a := AlbumText(album);
    HoldsSplit(mem, i, a, "/");
    HoldsAt(mem, i + |a|, "/", 0);
    HeadScanned(mem, i, album);
    NothingAt(mem, i + |a| + 1);
  }

  lemma NoEndScanned(mem: string, i: nat, album: Option<nat>, first: nat)
    requires var t := AlbumText(album) + "/" + PrintNat(first) + "-";
             Holds(mem, i, t) && NoPosition(At(mem, i + |t|))
    requires (album.Some? ==> album.value <= INT_MAX) && first <= INT_MAX
    ensures RequestAt(mem, i) == None
  {
    var a, f := AlbumText(album), PrintNat(first);
    hide Strtoul, Holds, PrintNat, AlbumText;
    HoldsSplit(mem, i, a + "/" + f, "-");
    HoldsSplit(mem, i, a + "/", f);
    HoldsSplit(mem, i, a, "/");
    HoldsAt(mem, i + |a|, "/", 0);
    HoldsAt(mem, i + |a + "/" + f|, "-", 0);
    HeadScanned(mem, i, album);
    ScanPrinted(mem, i + |a| + 1, first);
    NothingAt(mem, i + |a| + 1 + |f| + 1);
  }

  lemma NoTrackScanned(mem: string, i: nat, album: Option<nat>, first: nat)
    requires NoTrack(mem, i, album, first) && (album.Some? ==> album.value <= INT_MAX) && first <= INT_MAX
    ensures RequestAt(mem, i) == None
  {
    hide Strtoul, Holds, PrintNat, AlbumText;
    if NoPosition(At(mem, i)) && At(mem, i) != 'c' {
      NothingAt(mem, i);
    } else if Holds(mem, i, AlbumText(album) + "/") && NoPosition(At(mem, i + |AlbumText(album) + "/"|)) {
      NoPositionScanned(mem, i, album);
    } else {
      NoEndScanned(mem, i, album, first);
    }
  }

  /** A wrong item makes the whole list fail, after the questions of the items before it. */
  lemma TracksWrong(s: Server, mem: string, i: nat, its: seq<TrackItem>, album: Option<nat>, first: nat,
                    ids: seq<int>, asked: seq<Question>)
    requires forall k | 0 <= k < |its| :: TrackBounded(its[k])
    requires its != [] ==> Holds(mem, i, TracksText(its)) && At(mem, i + |TracksText(its)|) == ','
    requires NoTrack(mem, if its == [] then i else i + |TracksText(its)| + 1, album, first)
    requires (album.Some? ==> album.value <= INT_MAX) && first <= INT_MAX
    ensures TracksFrom(s, mem, i, ids, asked) == (None, Meanings(false, s, its, asked).asked)
  {
    hide RequestAt, TracksText, Holds, Meaning, TracksFrom, TrackBounded, NoTrack;
    var j := if its == [] then i else i + |TracksText(its)| + 1;
    NoTrackScanned(mem, j, album, first);
    var o := Meanings(false, s, its, asked);
    if its != [] { TracksThen(s, mem, i, its, ids, asked); }
    if o.ids.Some? {
      TracksUnfold(s, mem, j, if its == [] then ids else ids + o.ids.value, o.asked);
    }
  }

  // -------------------------------------------------------- the documented meaning

  /** A server that plays something and knows no albums, tracks or tags. */
  function Bare(): Server {
    var playing := R.Track(0, 0, "", 0, R.Artist(0, ""), R.Album(0, "", 0, R.Artist(0, "")));
    Server(_ => Some(playing), (_, _) => None, (_, _, _) => -1, (_, _) => -1)
  }

  /** A single item means what is documented, whatever the server, if and only if it is not
      a position on the current album: that one is looked up on album -1. */
  lemma DocumentedIff(it: TrackItem)
    ensures (forall s: Server, asked: seq<Question> :: Meaning(s, it, asked) == Documented(s, it, asked))
            <==> !OnCurrent(it)
  {
    if OnCurrent(it) {
      assert Meaning(Bare(), it, []).asked == [TrackAt(-1, it.pos)];
      assert Documented(Bare(), it, []).asked[0] == CurTrack;
    }
  }

  lemma {:induction false} AskedGrows(doc: bool, s: Server, its: seq<TrackItem>, asked: seq<Question>)
    ensures asked <= Meanings(doc, s, its, asked).asked
  {
    if its != [] {
      var o := if doc then Documented(s, its[0], asked) else Meaning(s, its[0], asked);
      assert asked <= o.asked;
      if o.ids.Some? { AskedGrows(doc, s, its[1..], o.asked); }
    }
  }

  predicate AnyOnCurrent(its: seq<TrackItem>) { exists k :: 0 <= k < |its| && OnCurrent(its[k]) }

  lemma {:induction false} SameMeanings(s: Server, its: seq<TrackItem>, asked: seq<Question>)
    requires !AnyOnCurrent(its)
    ensures Meanings(false, s, its, asked) == Meanings(true, s, its, asked)
    decreases |its|
  {
    hide Meaning;
    if its != [] {
      assert !OnCurrent(its[0]);
      assert !AnyOnCurrent(its[1..]) by {
        forall k | 0 <= k < |its[1..]| ensures !OnCurrent(its[1..][k]) { assert its[1..][k] == its[k + 1]; }
      }
      var o := Meaning(s, its[0], asked);
      if o.ids.Some? { SameMeanings(s, its[1..], o.asked); }
    }
  }

  /** On the bare server the questions give the difference away. */
  lemma {:induction false} OtherQuestions(its: seq<TrackItem>, asked: seq<Question>)
    requires AnyOnCurrent(its)
    ensures Meanings(false, Bare(), its, asked).asked != Meanings(true, Bare(), its, asked).asked
    decreases |its|
  {
    var s := Bare();
    var o := Meaning(s, its[0], asked);
    if OnCurrent(its[0]) {
      AskedGrows(false, s, its[1..], o.asked);
      AskedGrows(true, s, its[1..], Documented(s, its[0], asked).asked);
      assert o.asked[|asked|] == TrackAt(-1, its[0].pos);
      assert Documented(s, its[0], asked).asked[|asked|] == CurTrack;
    } else {
      var k :| 0 <= k < |its| && OnCurrent(its[k]);
      assert OnCurrent(its[1..][k - 1]);
      OtherQuestions(its[1..], o.asked);
    }
  }

  /** A track list is read as documented, whatever the server, if and only if it has no
      position on the current album. */
  lemma TracksDocumentedIff(mem: string, i: nat, its: seq<TrackItem>, ids: seq<int>)
    requires its != [] && (forall k | 0 <= k < |its| :: TrackBounded(its[k]))
    requires Holds(mem, i, TracksText(its))
    requires var c := At(mem, i + |TracksText(its)|);
             EndsTrack(c) && c != ','
    ensures (forall s: Server, asked: seq<Question> ::
               TracksFrom(s, mem, i, ids, asked)
               == Delivered(Meanings(true, s, its, asked), ids, i + |TracksText(its)|))
            <==> !AnyOnCurrent(its)
  {
    hide Holds, TracksText, TrackBounded, TracksFrom, Meanings;
    if AnyOnCurrent(its) {
      TracksExact(Bare(), mem, i, its, ids, []);
      OtherQuestions(its, []);
    } else {
      forall s: Server, asked: seq<Question>
        ensures TracksFrom(s, mem, i, ids, asked)
                == Delivered(Meanings(true, s, its, asked), ids, i + |TracksText(its)|)
      {
        TracksExact(s, mem, i, its, ids, asked);
        SameMeanings(s, its, asked);
      }
    }
  }

  // --------------------------------------------------------------------- single tracks

  /** `val_track`: id or -1, the end, the questions. */
  function TrackFrom(s: Server, mem: string, asked: seq<Question>): Scan {
    if At(mem, 0) == 'c' then
      var t := s.current(|asked|);
      Scan(if t.None? then -1 else t.value.id, if t.None? then 0 else 1, asked + [CurTrack])
    else
      var a := Strtoul(mem, 0);
      if a.end == 0 then Scan(-1, 0, asked)
      else if At(mem, a.end) != '/' then Scan(a.value, a.end, asked)
      else
        var b := Strtoul(mem, a.end + 1);
        if b.end == a.end + 1 then Scan(-1, 0, asked)
        else Scan(s.trackId(|asked|, a.value, b.value), b.end, asked + [TrackAt(a.value, b.value)])
  }

  method ValTrack(link: Link, mem: string) returns (id: int, end: nat)
    modifies link
    ensures Scan(id, end, link.asked) == TrackFrom(link.server, mem, old(link.asked))
  {
    if At(mem, 0) == 'c' {
      var t := link.CurrentTrack();
      if t.None? { return -1, 0; }
      return t.value.id, 1;
    }
    var a := Strtoul(mem, 0);
    if a.end == 0 { return -1, 0; }
    if At(mem, a.end) != '/' { return a.value, a.end; }
    var b := Strtoul(mem, a.end + 1);
    if b.end == a.end + 1 { return -1, 0; }
    id := link.TrackToId(a.value, b.value);
    end := b.end;
  }

  /** On the items both understand, a single track is read as a track list of one item;
      only an unknown position is an empty list there and a negative id here. */
  lemma TrackAgrees(s: Server, it: TrackItem, asked: seq<Question>)
    requires TrackBounded(it)
    requires it.Id? || it.Current? || (it.Position? && it.album.Some?)
    ensures var o, t := Meaning(s, it, asked), TrackFrom(s, TrackText(it), asked);
            && t.asked == o.asked
            && t.end == (if o.ids.None? then 0 else |TrackText(it)|)
            && (t.value >= 0 && o.ids.Some? ==> o.ids.value == [t.value])
            && (it.Position? && t.value < 0 ==> o.ids == Some([]))
  {
    hide Strtoul, Holds, PrintNat;
    var mem := TrackText(it);
    HoldsWhole(mem);
    match it
    case Id(id) => HeadScanned(mem, 0, Some(id));
      HoldsAt(mem, 0, mem, 0);
    case Current =>
    case Position(a, pos) =>
      AlbumParts(mem, 0, it);
      HeadScanned(mem, 0, a);
      PositionsScanned(mem, |AlbumText(a)| + 1, it);
      HoldsAt(mem, 0, AlbumText(a), 0);
  }

  /** What is no single track: nothing is consumed and nothing is asked. */
  lemma TrackWrong(s: Server, mem: string, album: nat, asked: seq<Question>)
    requires album <= INT_MAX
    requires || (NoPosition(At(mem, 0)) && At(mem, 0) != 'c')
             || (Holds(mem, 0, PrintNat(album) + "/")
                 && var c := At(mem, |PrintNat(album)| + 1);
                    c == '*' || NoPosition(c))
    ensures TrackFrom(s, mem, asked) == Scan(-1, 0, asked)
  {
    hide Strtoul, Holds, PrintNat;
    var a := PrintNat(album);
    if NoPosition(At(mem, 0)) && At(mem, 0) != 'c' {
      NothingAt(mem, 0);
    } else {
      HoldsSplit(mem, 0, a, "/");
      HoldsAt(mem, |a|, "/", 0);
      HoldsAt(mem, 0, a, 0);
      HeadScanned(mem, 0, Some(album));
      if At(mem, |a| + 1) == '*' { NoNumberAt(mem, |a| + 1); } else { NothingAt(mem, |a| + 1); }
    }
  }
}
