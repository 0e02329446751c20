/** The record parsers as the client runs them: moving cursors over the reply line, structs
    filled field by field from a heap that may run out, and clean-up on every way out. */
module Parsers {
  import opened CText
  import R = Records

  // --------------------------------------------------------------------------- heap

  /** The allocator: which blocks are in use, and how many allocations will succeed. */
  class Heap {
    ghost var live: set<nat>
    var next: nat
    var budget: nat

    ghost predicate Valid()
      reads this
    {
      forall b | b in live :: b < next
    }

    constructor (budget: nat)
      ensures Valid() && live == {} && this.budget == budget
    {
      live, next, this.budget := {}, 0, budget;
    }

    method Malloc() returns (b: Option<nat>)
      requires Valid()
      modifies this
      ensures Valid() && (b.None? <==> old(budget) == 0)
      ensures b.None? ==> live == old(live) && next == old(next) && budget == 0
      ensures b.Some? ==> b.value == old(next) && next == old(next) + 1 && budget == old(budget) - 1
                          && live == old(live) + {b.value}
    {
      if budget == 0 { return None; }
      b := Some(next);
      live := live + {next};
      next, budget := next + 1, budget - 1;
    }

    /** Only a block in use may be released, so no block is released twice. */
    method Free(b: nat)
      requires Valid() && b in live
      modifies this`live
      ensures Valid() && live == old(live) - {b}
    {
      live := live - {b};
    }
  }

  // ------------------------------------------------------------------------ structs

  datatype Cell<T> = Cell(blk: nat, v: T)
  type Ptr<T> = Option<Cell<T>>

  datatype ArtistRec = ArtistRec(id: int, artist: Ptr<string>)
  datatype AlbumRec = AlbumRec(id: int, album: Ptr<string>, year: int, artist: Ptr<ArtistRec>)
  datatype UserRec = UserRec(id: int, name: Ptr<string>, right: int)
  datatype TrackRec = TrackRec(id: int, albumnr: int, title: Ptr<string>, duration: int,
                               artist: Ptr<ArtistRec>, album: Ptr<AlbumRec>)
  datatype QueueRec = QueueRec(id: int, queued: int, user: Ptr<UserRec>, track: Ptr<TrackRec>)
  datatype HistoryRec = HistoryRec(played: int, user: Ptr<UserRec>, track: Ptr<TrackRec>)

  // The blocks a struct owns, and that it owns each of them once.

  function OwnString(p: Ptr<string>): set<nat> { if p.None? then {} else {p.value.blk} }

  function OwnArtist(p: Ptr<ArtistRec>): set<nat> {
    if p.None? then {} else {p.value.blk} + OwnString(p.value.v.artist)
  }

  predicate TreeArtist(p: Ptr<ArtistRec>) {
    p.Some? ==> p.value.blk !in OwnString(p.value.v.artist)
  }

  function OwnAlbum(p: Ptr<AlbumRec>): set<nat> {
    if p.None? then {}
    else {p.value.blk} + OwnString(p.value.v.album) + OwnArtist(p.value.v.artist)
  }

  predicate TreeAlbum(p: Ptr<AlbumRec>) {
    p.Some? ==> {p.value.blk} !! OwnString(p.value.v.album) !! OwnArtist(p.value.v.artist)
                && TreeArtist(p.value.v.artist)
  }

  function OwnUser(p: Ptr<UserRec>): set<nat> {
    if p.None? then {} else {p.value.blk} + OwnString(p.value.v.name)
  }

  predicate TreeUser(p: Ptr<UserRec>) { p.Some? ==> p.value.blk !in OwnString(p.value.v.name) }

  function OwnTrack(p: Ptr<TrackRec>): set<nat> {
    if p.None? then {}
    else {p.value.blk} + OwnString(p.value.v.title) + OwnArtist(p.value.v.artist)
         + OwnAlbum(p.value.v.album)
  }

  predicate TreeTrack(p: Ptr<TrackRec>) {
    p.Some? ==> {p.value.blk} !! OwnString(p.value.v.title) !! OwnArtist(p.value.v.artist)
                !! OwnAlbum(p.value.v.album)
                && TreeArtist(p.value.v.artist) && TreeAlbum(p.value.v.album)
  }

  function OwnQueue(p: Ptr<QueueRec>): set<nat> {
    if p.None? then {} else {p.value.blk} + OwnUser(p.value.v.user) + OwnTrack(p.value.v.track)
  }

  predicate TreeQueue(p: Ptr<QueueRec>) {
    p.Some? ==> {p.value.blk} !! OwnUser(p.value.v.user) !! OwnTrack(p.value.v.track)
                && TreeUser(p.value.v.user) && TreeTrack(p.value.v.track)
  }

  function OwnHistory(p: Ptr<HistoryRec>): set<nat> {
    if p.None? then {} else {p.value.blk} + OwnUser(p.value.v.user) + OwnTrack(p.value.v.track)
  }

  predicate TreeHistory(p: Ptr<HistoryRec>) {
    p.Some? ==> {p.value.blk} !! OwnUser(p.value.v.user) !! OwnTrack(p.value.v.track)
                && TreeUser(p.value.v.user) && TreeTrack(p.value.v.track)
  }

  // The record a complete struct stands for.

  function ArtistOf(p: Ptr<ArtistRec>): Option<R.Artist> {
    if p.Some? && p.value.v.artist.Some?
    then Some(R.Artist(p.value.v.id, p.value.v.artist.value.v)) else None
  }

  function AlbumOf(p: Ptr<AlbumRec>): Option<R.Album> {
    if p.Some? && p.value.v.album.Some? && ArtistOf(p.value.v.artist).Some?
    then Some(R.Album(p.value.v.id, p.value.v.album.value.v, p.value.v.year,
                      ArtistOf(p.value.v.artist).value))
    else None
  }

  function UserOf(p: Ptr<UserRec>): Option<R.User> {
    if p.Some? && p.value.v.name.Some?
    then Some(R.User(p.value.v.id, p.value.v.name.value.v, p.value.v.right)) else None
  }

  function TrackOf(p: Ptr<TrackRec>): Option<R.Track> {
    if p.Some? && p.value.v.title.Some? && ArtistOf(p.value.v.artist).Some?
       && AlbumOf(p.value.v.album).Some?
    then Some(R.Track(p.value.v.id, p.value.v.albumnr, p.value.v.title.value.v,
                      p.value.v.duration, ArtistOf(p.value.v.artist).value,
                      AlbumOf(p.value.v.album).value))
    else None
  }

  function QueueOf(p: Ptr<QueueRec>): Option<R.Queue> {
    if p.Some? && UserOf(p.value.v.user).Some? && TrackOf(p.value.v.track).Some?
    then Some(R.Queue(p.value.v.id, p.value.v.queued, UserOf(p.value.v.user).value,
                      TrackOf(p.value.v.track).value))
    else None
  }

  function HistoryOf(p: Ptr<HistoryRec>): Option<R.History> {
    if p.Some? && UserOf(p.value.v.user).Some? && TrackOf(p.value.v.track).Some?
    then Some(R.History(p.value.v.played, UserOf(p.value.v.user).value,
                        TrackOf(p.value.v.track).value))
    else None
  }

  // ----------------------------------------------------------------------- contract

  /** `own` was allocated during a call, and nothing else is in use now that was not before. */
  twostate predicate Allocated(h: Heap, own: set<nat>)
    reads h
  {
    && h.Valid() && h.live == old(h.live) + own
    && old(h.next) <= h.next && forall b | b in own :: old(h.next) <= b < h.next
  }

  /** What every parser does with its allocations: a result owns exactly what was
      allocated, and a failure leaves nothing behind. A failure without a shortage of memory
      means that the text is not a record: `need` blocks are enough, and if some are left
      none was missing. */
  twostate predicate Outcome<T>(h: Heap, own: set<nat>, r: Option<T>, end: nat, line: nat,
                                spec: Conv<T>, some: bool, need: nat)
    reads h
  {
    && Allocated(h, own) && h.budget <= old(h.budget) <= h.budget + need
    && (some ==> r.Some? && spec == Conv(r, end))
    && (!some ==> own == {} && end == line)
    && (!some && (old(h.budget) >= need || h.budget > 0) ==> spec.data.None?)
  }

  // ------------------------------------------------------------------------ parsers

  /** Moving one character from the raw field to the copy. */
  lemma UnescapeStep(done: string, raw: string, esc: bool, all: string)
    requires raw != "" && done + R.Unescape(raw, esc) == all
    ensures esc ==> done + [if raw[0] == 't' then '\t' else raw[0]] + R.Unescape(raw[1..], false) == all
    ensures !esc && raw[0] == '\\' ==> done + R.Unescape(raw[1..], true) == all
    ensures !esc && raw[0] != '\\' ==> done + [raw[0]] + R.Unescape(raw[1..], false) == all
  {
    var c := if esc && raw[0] == 't' then '\t' else raw[0];
    Assoc(done, [c], R.Unescape(raw[1..], false));
  }

  /** `_duc_fielddup`: the copy never outgrows one byte more than the field. */
  method FieldDup(h: Heap, mem: string, start: nat) returns (dup: Ptr<string>, end: nat)
    requires h.Valid()
    modifies h
    ensures Allocated(h, OwnString(dup)) && h.budget <= old(h.budget) <= h.budget + 1
    ensures dup.Some? ==> (dup.value.v, end) == R.Field(mem, start)
    ensures dup.None? ==> old(h.budget) == 0
  {
    end := start;
    var blk := h.Malloc();
    if blk.None? { return None, end; }
    var buf := new char[1 + |R.RawField(mem, start)|];
    var s, p, escape := start, 0, false;
    ghost var e := R.FieldEnd(mem, start);
    ghost var raw := R.RawField(mem, start);
    while !R.EndsField(At(mem, s))
      invariant start <= s <= e && |raw| == e - start && p <= s - start
      invariant buf[..p] + R.Unescape(raw[s - start..], escape) == R.Unescape(raw, false)
      decreases e - s
      modifies buf
    {
      UnescapeStep(buf[..p], raw[s - start..], escape, R.Unescape(raw, false));
      ghost var before := buf[..p];
      assert mem[s] == raw[s - start] && raw[s - start..][1..] == raw[s + 1 - start..];
      if escape {
        buf[p] := if mem[s] == 't' then '\t' else mem[s];
        p := p + 1;
        assert buf[..p] == before + [buf[p - 1]];
        escape := false;
      } else if mem[s] == '\\' {
        escape := true;
      } else {
        buf[p] := mem[s];
        p := p + 1;
        assert buf[..p] == before + [buf[p - 1]];
      }
      s := s + 1;
    }
    buf[p] := NUL;
    assert s == e && raw[s - start..] == "" && buf[..p] + "" == buf[..p];
    return Some(Cell(blk.value, buf[..p])), s;
  }

  method ParseArtist(h: Heap, mem: string, line: nat) returns (n: Ptr<ArtistRec>, end: nat)
    requires h.Valid()
    modifies h
    ensures TreeArtist(n)
    ensures Outcome(h, OwnArtist(n), ArtistOf(n), end, line, R.ParseArtist(mem, line), n.Some?, 2)
  {
    hide Strtol, R.Field;
    var blk := h.Malloc();
    if blk.None? { return None, line; }
    var rec := ArtistRec(0, None);
    var s := line;
    var num := Strtol(mem, s);
    rec := rec.(id := num.value);
    if num.end == s {
      h.Free(blk.value);
      return None, line;
    }
    s := num.end + 1;
    var dup, e := FieldDup(h, mem, s);
    rec := rec.(artist := dup);
    if dup.None? {
      h.Free(blk.value);
      return None, line;
    }
    return Some(Cell(blk.value, rec)), e;
  }

  method FreeString(h: Heap, p: Ptr<string>)
    requires h.Valid() && OwnString(p) <= h.live
    modifies h`live
    ensures h.Valid() && h.live == old(h.live) - OwnString(p)
  {
    if p.Some? { h.Free(p.value.blk); }
  }

  method FreeArtist(h: Heap, a: Ptr<ArtistRec>)
    requires h.Valid() && OwnArtist(a) <= h.live && TreeArtist(a)
    modifies h`live
    ensures h.Valid() && h.live == old(h.live) - OwnArtist(a)
  {
    if a.None? { return; }
    FreeString(h, a.value.v.artist);
    h.Free(a.value.blk);
  }

  method ParseAlbum(h: Heap, mem: string, line: nat) returns (n: Ptr<AlbumRec>, end: nat)
    requires h.Valid()
    modifies h
    ensures TreeAlbum(n)
    ensures Outcome(h, OwnAlbum(n), AlbumOf(n), end, line, R.ParseAlbum(mem, line), n.Some?, 4)
  {
    hide Strtol, R.Field, R.ParseArtist, ArtistOf, OwnArtist, TreeArtist;
    var blk := h.Malloc();
    if blk.None? { return None, line; }
    var rec := AlbumRec(0, None, 0, None);
    var s := line;
    var num := Strtol(mem, s);
    rec := rec.(id := num.value);
    if num.end == s {
      h.Free(blk.value);
      return None, line;
    }
    s := num.end + 1;
    var dup, e := FieldDup(h, mem, s);
    rec := rec.(album := dup);
    if dup.None? {
      h.Free(blk.value);
      return None, line;
    }
    s := e + 1;
    num := Strtol(mem, s);
    rec := rec.(year := num.value);
    if num.end == s {
      FreeString(h, rec.album);
      h.Free(blk.value);
      return None, line;
    }
    s := num.end + 1;
    var artist;
    artist, e := ParseArtist(h, mem, s);
    rec := rec.(artist := artist);
    if artist.None? {
      FreeString(h, rec.album);
      h.Free(blk.value);
      return None, line;
    }
    return Some(Cell(blk.value, rec)), e;
  }

  method FreeAlbum(h: Heap, a: Ptr<AlbumRec>)
    requires h.Valid() && OwnAlbum(a) <= h.live && TreeAlbum(a)
    modifies h`live
    ensures h.Valid() && h.live == old(h.live) - OwnAlbum(a)
  {
    if a.None? { return; }
    FreeArtist(h, a.value.v.artist);
    FreeString(h, a.value.v.album);
    h.Free(a.value.blk);
  }

  method ParseUser(h: Heap, mem: string, line: nat) returns (n: Ptr<UserRec>, end: nat)
    requires h.Valid()
    modifies h
    ensures TreeUser(n)
    ensures Outcome(h, OwnUser(n), UserOf(n), end, line, R.ParseUser(mem, line), n.Some?, 2)
  {
    hide Strtol, R.Field;
    var blk := h.Malloc();
    if blk.None? { return None, line; }
    var rec := UserRec(0, None, 0);
    var s := line;
    var num := Strtol(mem, s);
    rec := rec.(id := num.value);
    if num.end == s {
      h.Free(blk.value);
      return None, line;
    }
    s := num.end + 1;
    var dup, e := FieldDup(h, mem, s);
    rec := rec.(name := dup);
    if dup.None? {
      h.Free(blk.value);
      return None, line;
    }
    s := e + 1;
    num := Strtol(mem, s);
    rec := rec.(right := num.value);
    if num.end == s {
      FreeString(h, rec.name);
      h.Free(blk.value);
      return None, line;
    }
    return Some(Cell(blk.value, rec)), num.end;
  }

  method FreeUser(h: Heap, u: Ptr<UserRec>)
    requires h.Valid() && OwnUser(u) <= h.live && TreeUser(u)
    modifies h`live
    ensures h.Valid() && h.live == old(h.live) - OwnUser(u)
  {
    if u.None? { return; }
    FreeString(h, u.value.v.name);
    h.Free(u.value.blk);
  }

  method ParseTrack(h: Heap, mem: string, line: nat) returns (n: Ptr<TrackRec>, end: nat)
    requires h.Valid()
    modifies h
    ensures TreeTrack(n)
    ensures Outcome(h, OwnTrack(n), TrackOf(n), end, line, R.ParseTrack(mem, line), n.Some?, 8)
  {
    hide Strtol, R.Field, R.ParseArtist, R.ParseAlbum, ArtistOf, OwnArtist, TreeArtist, AlbumOf, OwnAlbum, TreeAlbum;
    var blk := h.Malloc();
    if blk.None? { return None, line; }
    var rec := TrackRec(0, 0, None, 0, None, None);
    var s := line;
    var num := Strtol(mem, s);
    rec := rec.(id := num.value);
    if num.end == s {
      h.Free(blk.value);
      return None, line;
    }
    s := num.end + 1;
    num := Strtol(mem, s);
    rec := rec.(albumnr := num.value);
    if num.end == s {
      h.Free(blk.value);
      return None, line;
    }
    s := num.end + 1;
    var dup, e := FieldDup(h, mem, s);
    rec := rec.(title := dup);
    if dup.None? {
      h.Free(blk.value);
      return None, line;
    }
    s := e + 1;
    num := Strtol(mem, s);
    rec := rec.(duration := num.value);
    if num.end == s {
      FreeString(h, rec.title);
      h.Free(blk.value);
      return None, line;
    }
    s := num.end + 1;
    var artist;
    artist, e := ParseArtist(h, mem, s);
    rec := rec.(artist := artist);
    if artist.None? {
      FreeString(h, rec.title);
      h.Free(blk.value);
      return None, line;
    }
    s := e + 1;
    var album;
    album, e := ParseAlbum(h, mem, s);
    rec := rec.(album := album);
    if album.None? {
      FreeArtist(h, rec.artist);
      FreeString(h, rec.title);
      h.Free(blk.value);
      return None, line;
    }
    return Some(Cell(blk.value, rec)), e;
  }

  method FreeTrack(h: Heap, t: Ptr<TrackRec>)
    requires h.Valid() && OwnTrack(t) <= h.live && TreeTrack(t)
    modifies h`live
    ensures h.Valid() && h.live == old(h.live) - OwnTrack(t)
  {
    if t.None? { return; }
    FreeAlbum(h, t.value.v.album);
    FreeArtist(h, t.value.v.artist);
    FreeString(h, t.value.v.title);
    h.Free(t.value.blk);
  }

  method ParseQueue(h: Heap, mem: string, line: nat) returns (n: Ptr<QueueRec>, end: nat)
    requires h.Valid()
    modifies h
    ensures TreeQueue(n)
    ensures Outcome(h, OwnQueue(n), QueueOf(n), end, line, R.ParseQueue(mem, line), n.Some?, 11)
  {
    hide Strtol, R.ParseUser, R.ParseTrack, UserOf, OwnUser, TreeUser, TrackOf, OwnTrack, TreeTrack;
    var blk := h.Malloc();
    if blk.None? { return None, line; }
    var rec := QueueRec(0, 0, None, None);
    var s := line;
    var num := Strtol(mem, s);
    rec := rec.(id := num.value);
    if num.end == s {
      h.Free(blk.value);
      return None, line;
    }
    s := num.end + 1;
    num := Strtol(mem, s);
    rec := rec.(queued := num.value);
    if num.end == s {
      h.Free(blk.value);
      return None, line;
    }
    s := num.end + 1;
    var user, e := ParseUser(h, mem, s);
    rec := rec.(user := user);
    if user.None? {
      h.Free(blk.value);
      return None, line;
    }
    s := e + 1;
    var track;
    track, e := ParseTrack(h, mem, s);
    rec := rec.(track := track);
    if track.None? {
      FreeUser(h, rec.user);
      h.Free(blk.value);
      return None, line;
    }
    return Some(Cell(blk.value, rec)), e;
  }

  method FreeQueue(h: Heap, q: Ptr<QueueRec>)
    requires h.Valid() && OwnQueue(q) <= h.live && TreeQueue(q)
    modifies h`live
    ensures h.Valid() && h.live == old(h.live) - OwnQueue(q)
  {
    if q.None? { return; }
    FreeUser(h, q.value.v.user);
    FreeTrack(h, q.value.v.track);
    h.Free(q.value.blk);
  }

  method ParseHistory(h: Heap, mem: string, line: nat) returns (n: Ptr<HistoryRec>, end: nat)
    requires h.Valid()
    modifies h
    ensures TreeHistory(n)
    ensures Outcome(h, OwnHistory(n), HistoryOf(n), end, line, R.ParseHistory(mem, line), n.Some?, 11)
  {
    hide Strtol, R.ParseUser, R.ParseTrack, UserOf, OwnUser, TreeUser, TrackOf, OwnTrack, TreeTrack;
    var blk := h.Malloc();
    if blk.None? { return None, line; }
    var rec := HistoryRec(0, None, None);
    var s := line;
    var num := Strtol(mem, s);
    rec := rec.(played := num.value);
    if num.end == s {
      h.Free(blk.value);
      return None, line;
    }
    s := num.end + 1;
    var user, e := ParseUser(h, mem, s);
    rec := rec.(user := user);
    if user.None? {
      h.Free(blk.value);
      return None, line;
    }
    s := e + 1;
    var track;
    track, e := ParseTrack(h, mem, s);
    rec := rec.(track := track);
    if track.None? {
      FreeUser(h, rec.user);
      h.Free(blk.value);
      return None, line;
    }
    return Some(Cell(blk.value, rec)), e;
  }
}
