/** The records of the protocol: tab-separated fields, names escaped, records nested. The
    server's encoder is written as a function; the parsers are what the client does. */
module Records {
  import opened CText
  import opened Wire
  import opened Replies

  datatype Artist = Artist(id: int, artist: string)
  datatype Album = Album(id: int, album: string, year: int, artist: Artist)
  datatype User = User(id: int, name: string, right: int)
  datatype Track = Track(id: int, albumnr: int, title: string, duration: int, artist: Artist,
                         album: Album)
  datatype Queue = Queue(id: int, queued: int, user: User, track: Track)
  datatype History = History(played: int, user: User, track: Track)

  // ------------------------------------------------------------------------- fields

  predicate EndsField(c: char) { c == NUL || c == '\t' }

  function FieldEnd(mem: string, i: nat): (e: nat)
    ensures i <= e && (i < e ==> e <= |mem|) && EndsField(At(mem, e))
    ensures forall k | i <= k < e :: !EndsField(mem[k])
    decreases |mem| - i
  {
    if i < |mem| && !EndsField(mem[i]) then FieldEnd(mem, i + 1) else i
  }

  /** Drops the escape characters; `esc`: the previous character was one. */
  function Unescape(raw: string, esc: bool): (s: string)
    ensures |s| <= |raw|
  {
    if raw == "" then ""
    else if esc then [if raw[0] == 't' then '\t' else raw[0]] + Unescape(raw[1..], false)
    else if raw[0] == '\\' then Unescape(raw[1..], true)
    else [raw[0]] + Unescape(raw[1..], false)
  }

  function RawField(mem: string, i: nat): string {
    if i <= |mem| then mem[i..FieldEnd(mem, i)] else ""
  }

  /** `_duc_fielddup` */
  function Field(mem: string, i: nat): (string, nat) {
    (Unescape(RawField(mem, i), false), FieldEnd(mem, i))
  }

  function EscapeChar(c: char): string {
    if c == '\t' then "\\t" else if c == '\\' then "\\\\" else [c]
  }

  /** How the server writes a name. */
  function Escape(name: string): string {
    if name == "" then "" else EscapeChar(name[0]) + Escape(name[1..])
  }

  /** Reading undoes escaping, for every string. */
  lemma {:induction false} UnescapeEscape(name: string)
    ensures Unescape(Escape(name), false) == name
  {
    if name != "" {
      var c, rest := name[0], Escape(name[1..]);
      UnescapeEscape(name[1..]);
      if |EscapeChar(c)| == 2 {
        assert (EscapeChar(c) + rest)[1..] == [EscapeChar(c)[1]] + rest;
        assert ([EscapeChar(c)[1]] + rest)[1..] == rest;
      } else {
        assert ([c] + rest)[1..] == rest;
      }
    }
  }

  /** A raw name is made of plain characters and of characters behind a backslash. */
  datatype Unit = Plain(c: char) | Behind(c: char)

  function RawText(us: seq<Unit>): string {
    if us == [] then ""
    else (if us[0].Plain? then [us[0].c] else ['\\', us[0].c]) + RawText(us[1..])
  }

  function Denoted(us: seq<Unit>): string {
    seq(|us|, i requires 0 <= i < |us| => if us[i] == Behind('t') then '\t' else us[i].c)
  }

  lemma UnescapeFirst(c: char, rest: string)
    ensures c != '\\' ==> Unescape([c] + rest, false) == [c] + Unescape(rest, false)
    ensures Unescape(['\\', c] + rest, false) == [if c == 't' then '\t' else c] + Unescape(rest, false)
  {
    assert ([c] + rest)[1..] == rest;
    assert (['\\', c] + rest)[1..] == [c] + rest;
  }

  lemma DenotedFirst(us: seq<Unit>)
    requires us != []
    ensures Denoted(us) == [if us[0] == Behind('t') then '\t' else us[0].c] + Denoted(us[1..])
  {
  }

  /** What any raw name denotes: behind a backslash a t is a tab and every other character is
      itself; a backslash at the end is dropped. */
  lemma {:induction false} UnescapeUnits(us: seq<Unit>, tail: string)
    requires (forall i | 0 <= i < |us| :: us[i].Plain? ==> us[i].c != '\\') && (tail == "" || tail == "\\")
    ensures Unescape(RawText(us) + tail, false) == Denoted(us)
  {
    if us == [] {
      assert RawText(us) + tail == tail;
      if tail != "" { assert tail[1..] == "" && Unescape("", true) == ""; }
    } else {
      var u, raw := us[0], if us[0].Plain? then [us[0].c] else ['\\', us[0].c];
      Assoc(raw, RawText(us[1..]), tail);
      UnescapeUnits(us[1..], tail);
      DenotedFirst(us);
      hide Denoted, Unescape;
      UnescapeFirst(u.c, RawText(us[1..]) + tail);
    }
  }

  /** An escaped name holds no raw tab, and no character that the name does not hold except
      the backslash and the letter t. */
  lemma {:induction false} EscapeChars(name: string)
    ensures forall i | 0 <= i < |Escape(name)| ::
              var c := Escape(name)[i];
              c != '\t' && (c == '\\' || c == 't' || c in name)
  {
    if name != "" {
      EscapeChars(name[1..]);
      var h := EscapeChar(name[0]);
      forall i | 0 <= i < |Escape(name)|
        ensures var c := Escape(name)[i];
                c != '\t' && (c == '\\' || c == 't' || c in name)
      {
        if i >= |h| {
          assert Escape(name)[i] == Escape(name[1..])[i - |h|];
          assert forall c | c in name[1..] :: c in name;
        } else if |h| == 1 {
          assert h[0] == name[0] && name[0] in name;
        }
      }
    }
  }

  /** Different names are written differently. */
  lemma EscapeInjective(a: string, b: string)
    requires Escape(a) == Escape(b)
    ensures a == b
  {
    UnescapeEscape(a);
    UnescapeEscape(b);
  }

  lemma FieldEndIs(mem: string, i: nat, t: string)
    requires Holds(mem, i, t) && EndsField(At(mem, i + |t|))
    requires forall k | 0 <= k < |t| :: !EndsField(t[k])
    ensures FieldEnd(mem, i) == i + |t| && RawField(mem, i) == t
  {
    var e := FieldEnd(mem, i);
    forall k | i <= k < i + |t| ensures !EndsField(mem[k]) { HoldsAt(mem, i, t, k - i); }
  }

  /** An escaped name in a field is read back, and reading stops right behind it. */
  lemma FieldRoundTrip(mem: string, i: nat, name: string)
    requires NulFree(name) && Holds(mem, i, Escape(name))
    requires EndsField(At(mem, i + |Escape(name)|))
    ensures Field(mem, i) == (name, i + |Escape(name)|)
  {
    hide Escape, Unescape, Holds, FieldEnd;
    var t := Escape(name);
    EscapeChars(name);
    UnescapeEscape(name);
    FieldEndIs(mem, i, t);
  }

  // ------------------------------------------------------------------------ parsers

  function ParseArtist(mem: string, i: nat): Conv<Artist> {
    var id := Strtol(mem, i);
    if id.end == i then Conv(None, i)
    else
      var (name, e) := Field(mem, id.end + 1);
      Conv(Some(Artist(id.value, name)), e)
  }

  function ParseAlbum(mem: string, i: nat): Conv<Album> {
    var id := Strtol(mem, i);
    if id.end == i then Conv(None, i)
    else
      var (name, e) := Field(mem, id.end + 1);
      var year := Strtol(mem, e + 1);
      if year.end == e + 1 then Conv(None, i)
      else
        var artist := ParseArtist(mem, year.end + 1);
        if artist.data.None? then Conv(None, i)
        else Conv(Some(Album(id.value, name, year.value, artist.data.value)), artist.end)
  }

  function ParseUser(mem: string, i: nat): Conv<User> {
    var id := Strtol(mem, i);
    if id.end == i then Conv(None, i)
    else
      var (name, e) := Field(mem, id.end + 1);
      var right := Strtol(mem, e + 1);
      if right.end == e + 1 then Conv(None, i)
      else Conv(Some(User(id.value, name, right.value)), right.end)
  }

  function ParseTrack(mem: string, i: nat): Conv<Track> {
    var id := Strtol(mem, i);
    if id.end == i then Conv(None, i)
    else
      var nr := Strtol(mem, id.end + 1);
      if nr.end == id.end + 1 then Conv(None, i)
      else
        var (title, e) := Field(mem, nr.end + 1);
        var duration := Strtol(mem, e + 1);
        if duration.end == e + 1 then Conv(None, i)
        else
          var artist := ParseArtist(mem, duration.end + 1);
          if artist.data.None? then Conv(None, i)
          else
            var album := ParseAlbum(mem, artist.end + 1);
            if album.data.None? then Conv(None, i)
            else
              Conv(Some(Track(id.value, nr.value, title, duration.value, artist.data.value,
                              album.data.value)), album.end)
  }

  function ParseQueue(mem: string, i: nat): Conv<Queue> {
    var id := Strtol(mem, i);
    if id.end == i then Conv(None, i)
    else
      var queued := Strtol(mem, id.end + 1);
      if queued.end == id.end + 1 then Conv(None, i)
      else
        var user := ParseUser(mem, queued.end + 1);
        if user.data.None? then Conv(None, i)
        else
          var track := ParseTrack(mem, user.end + 1);
          if track.data.None? then Conv(None, i)
          else Conv(Some(Queue(id.value, queued.value, user.data.value, track.data.value)), track.end)
  }

  function ParseHistory(mem: string, i: nat): Conv<History> {
    var played := Strtol(mem, i);
    if played.end == i then Conv(None, i)
    else
      var user := ParseUser(mem, played.end + 1);
      if user.data.None? then Conv(None, i)
      else
        var track := ParseTrack(mem, user.end + 1);
        if track.data.None? then Conv(None, i)
        else Conv(Some(History(played.value, user.data.value, track.data.value)), track.end)
  }

  // ------------------------------------------------------------------- the encoder

  function EncArtist(a: Artist): string { PrintInt(a.id) + "\t" + Escape(a.artist) }

  function EncAlbum(a: Album): string {
    PrintInt(a.id) + "\t" + (Escape(a.album) + "\t" + (PrintInt(a.year) + "\t" + EncArtist(a.artist)))
  }

  function EncUser(u: User): string {
    PrintInt(u.id) + "\t" + (Escape(u.name) + "\t" + PrintInt(u.right))
  }

  function EncTrack(t: Track): string {
    PrintInt(t.id) + "\t" + (PrintInt(t.albumnr) + "\t" + (Escape(t.title) + "\t"
      + (PrintInt(t.duration) + "\t" + (EncArtist(t.artist) + "\t" + EncAlbum(t.album)))))
  }

  function EncQueue(q: Queue): string {
    PrintInt(q.id) + "\t" + (PrintInt(q.queued) + "\t" + (EncUser(q.user) + "\t" + EncTrack(q.track)))
  }

  function EncHistory(h: History): string {
    PrintInt(h.played) + "\t" + (EncUser(h.user) + "\t" + EncTrack(h.track))
  }

  // Records the server can send: fields fit an `int`, names fit on a line.

  predicate OkArtist(a: Artist) { IsInt(a.id) && Unbroken(a.artist) }

  predicate OkAlbum(a: Album) {
    IsInt(a.id) && Unbroken(a.album) && IsInt(a.year) && OkArtist(a.artist)
  }

  predicate OkUser(u: User) { IsInt(u.id) && Unbroken(u.name) && IsInt(u.right) }

  predicate OkTrack(t: Track) {
    IsInt(t.id) && IsInt(t.albumnr) && Unbroken(t.title) && IsInt(t.duration)
    && OkArtist(t.artist) && OkAlbum(t.album)
  }

  predicate OkQueue(q: Queue) { IsInt(q.id) && IsInt(q.queued) && OkUser(q.user) && OkTrack(q.track) }

  predicate OkHistory(h: History) { IsInt(h.played) && OkUser(h.user) && OkTrack(h.track) }

  // --------------------------------------------------------------------- round trips

  lemma RecordField(mem: string, i: nat, enc: string, rest: string)
    requires Holds(mem, i, enc + "\t" + rest)
    ensures Holds(mem, i, enc) && At(mem, i + |enc|) == '\t'
    ensures Holds(mem, i + |enc| + 1, rest)
  {
    hide Holds;
    assert enc + "\t" + rest == enc + ("\t" + rest);
    HoldsSplit(mem, i, enc, "\t" + rest);
    HoldsSplit(mem, i + |enc|, "\t", rest);
    HoldsAt(mem, i + |enc|, "\t", 0);
  }

  /** A printed number followed by a tab. */
  lemma NumberField(mem: string, i: nat, n: int, rest: string)
    requires IsInt(n) && Holds(mem, i, PrintInt(n) + "\t" + rest)
    ensures Strtol(mem, i) == Number(n, i + |PrintInt(n)|) && |PrintInt(n)| > 0
    ensures Holds(mem, i + |PrintInt(n)| + 1, rest)
  {
    hide Holds, Strtol, Strtoul;
    RecordField(mem, i, PrintInt(n), rest);
    ScanPrinted(mem, i, n);
  }

  lemma NameField(mem: string, i: nat, name: string, rest: string)
    requires Unbroken(name) && Holds(mem, i, Escape(name) + "\t" + rest)
    ensures Field(mem, i) == (name, i + |Escape(name)|)
    ensures Holds(mem, i + |Escape(name)| + 1, rest)
  {
    hide Holds, Escape, Field;
    RecordField(mem, i, Escape(name), rest);
    FieldRoundTrip(mem, i, name);
  }

  lemma ArtistRoundTrip(mem: string, i: nat, a: Artist)
    requires OkArtist(a) && Holds(mem, i, EncArtist(a)) && EndsField(At(mem, i + |EncArtist(a)|))
    ensures ParseArtist(mem, i) == Conv(Some(a), i + |EncArtist(a)|)
  {
    hide Strtol, Field, Escape, PrintInt, Holds;
    NumberField(mem, i, a.id, Escape(a.artist));
    FieldRoundTrip(mem, i + |PrintInt(a.id)| + 1, a.artist);
  }

  lemma AlbumRoundTrip(mem: string, i: nat, a: Album)
    requires OkAlbum(a) && Holds(mem, i, EncAlbum(a)) && EndsField(At(mem, i + |EncAlbum(a)|))
    ensures ParseAlbum(mem, i) == Conv(Some(a), i + |EncAlbum(a)|)
  {
    hide Strtol, Field, Escape, PrintInt, Holds, ParseArtist, EncArtist, OkArtist;
    var r2 := PrintInt(a.year) + "\t" + EncArtist(a.artist);
    var r1 := Escape(a.album) + "\t" + r2;
    NumberField(mem, i, a.id, r1);
    var j := i + |PrintInt(a.id)| + 1;
    NameField(mem, j, a.album, r2);
    j := j + |Escape(a.album)| + 1;
    NumberField(mem, j, a.year, EncArtist(a.artist));
    j := j + |PrintInt(a.year)| + 1;
    ArtistRoundTrip(mem, j, a.artist);
  }

  lemma UserRoundTrip(mem: string, i: nat, u: User)
    requires OkUser(u) && Holds(mem, i, EncUser(u)) && EndsField(At(mem, i + |EncUser(u)|))
    ensures ParseUser(mem, i) == Conv(Some(u), i + |EncUser(u)|)
  {
    hide Strtol, Field, Escape, PrintInt, Holds;
    var r1 := Escape(u.name) + "\t" + PrintInt(u.right);
    NumberField(mem, i, u.id, r1);
    var j := i + |PrintInt(u.id)| + 1;
    NameField(mem, j, u.name, PrintInt(u.right));
    j := j + |Escape(u.name)| + 1;
    ScanPrinted(mem, j, u.right);
  }

  lemma TrackRoundTrip(mem: string, i: nat, t: Track)
    requires OkTrack(t) && Holds(mem, i, EncTrack(t)) && EndsField(At(mem, i + |EncTrack(t)|))
    ensures ParseTrack(mem, i) == Conv(Some(t), i + |EncTrack(t)|)
  {
    hide Strtol, Field, Escape, PrintInt, Holds, ParseArtist, EncArtist, OkArtist, ParseAlbum,
         EncAlbum, OkAlbum;
    var r4 := EncArtist(t.artist) + "\t" + EncAlbum(t.album);
    var r3 := PrintInt(t.duration) + "\t" + r4;
    var r2 := Escape(t.title) + "\t" + r3;
    var r1 := PrintInt(t.albumnr) + "\t" + r2;
    NumberField(mem, i, t.id, r1);
    var j := i + |PrintInt(t.id)| + 1;
    NumberField(mem, j, t.albumnr, r2);
    j := j + |PrintInt(t.albumnr)| + 1;
    NameField(mem, j, t.title, r3);
    j := j + |Escape(t.title)| + 1;
    NumberField(mem, j, t.duration, r4);
    j := j + |PrintInt(t.duration)| + 1;
    RecordField(mem, j, EncArtist(t.artist), EncAlbum(t.album));
    ArtistRoundTrip(mem, j, t.artist);
    j := j + |EncArtist(t.artist)| + 1;
    AlbumRoundTrip(mem, j, t.album);
  }

  /** The deepest record: parsing the server's encoding gives back the record and stops
      exactly behind it, whatever surrounds it in memory. */
  lemma QueueRoundTrip(mem: string, i: nat, q: Queue)
    requires OkQueue(q) && Holds(mem, i, EncQueue(q)) && EndsField(At(mem, i + |EncQueue(q)|))
    ensures ParseQueue(mem, i) == Conv(Some(q), i + |EncQueue(q)|)
  {
    hide Strtol, PrintInt, Holds, ParseUser, EncUser, OkUser, ParseTrack, EncTrack, OkTrack;
    var r2 := EncUser(q.user) + "\t" + EncTrack(q.track);
    var r1 := PrintInt(q.queued) + "\t" + r2;
    NumberField(mem, i, q.id, r1);
    var j := i + |PrintInt(q.id)| + 1;
    NumberField(mem, j, q.queued, r2);
    j := j + |PrintInt(q.queued)| + 1;
    RecordField(mem, j, EncUser(q.user), EncTrack(q.track));
    UserRoundTrip(mem, j, q.user);
    j := j + |EncUser(q.user)| + 1;
    TrackRoundTrip(mem, j, q.track);
  }

  lemma HistoryRoundTrip(mem: string, i: nat, h: History)
    requires OkHistory(h) && Holds(mem, i, EncHistory(h)) && EndsField(At(mem, i + |EncHistory(h)|))
    ensures ParseHistory(mem, i) == Conv(Some(h), i + |EncHistory(h)|)
  {
    hide Strtol, PrintInt, Holds, ParseUser, EncUser, OkUser, ParseTrack, EncTrack, OkTrack;
    NumberField(mem, i, h.played, EncUser(h.user) + "\t" + EncTrack(h.track));
    var j := i + |PrintInt(h.played)| + 1;
    RecordField(mem, j, EncUser(h.user), EncTrack(h.track));
    UserRoundTrip(mem, j, h.user);
    j := j + |EncUser(h.user)| + 1;
    TrackRoundTrip(mem, j, h.track);
  }

  // ------------------------------------------------------- encodings as reply texts

  function QueueConv(mem: string): Conv<Queue> { ParseQueue(mem, 0) }

  function TrackConv(mem: string): Conv<Track> { ParseTrack(mem, 0) }

  lemma TextInMemory(t: string, junk: string)
    ensures Holds(t + [NUL] + junk, 0, t) && At(t + [NUL] + junk, |t|) == NUL
  {
  }

  lemma QueueAccepted(q: Queue)
    requires OkQueue(q)
    ensures Accepts(QueueConv, EncQueue(q), Some(q))
  {
    var t := EncQueue(q);
    forall junk: string ensures QueueConv(t + [NUL] + junk) == Conv(Some(q), |t|) {
      TextInMemory(t, junk);
      QueueRoundTrip(t + [NUL] + junk, 0, q);
    }
  }

  lemma TrackAccepted(t: Track)
    requires OkTrack(t)
    ensures Accepts(TrackConv, EncTrack(t), Some(t))
  {
    var s := EncTrack(t);
    forall junk: string ensures TrackConv(s + [NUL] + junk) == Conv(Some(t), |s|) {
      TextInMemory(s, junk);
      TrackRoundTrip(s + [NUL] + junk, 0, t);
    }
  }

  /** Equal encodings come from equal records. */
  lemma EncQueueInjective(a: Queue, b: Queue)
    requires OkQueue(a) && OkQueue(b) && EncQueue(a) == EncQueue(b)
    ensures a == b
  {
    hide EncQueue, ParseQueue, OkQueue;
    TextInMemory(EncQueue(a), "");
    QueueRoundTrip(EncQueue(a) + [NUL] + "", 0, a);
    QueueRoundTrip(EncQueue(b) + [NUL] + "", 0, b);
  }

  // -------------------------------------------------------- encodings fit on a line

  lemma UnbrokenConcat(a: string, b: string)
    requires Unbroken(a) && Unbroken(b)
    ensures Unbroken(a + "\t" + b)
  {
  }

  lemma EscapeUnbroken(name: string)
    requires Unbroken(name)
    ensures Unbroken(Escape(name))
  {
    EscapeChars(name);
  }

  lemma PrintUnbroken(n: int)
    ensures Unbroken(PrintInt(n))
  {
  }

  lemma ArtistUnbroken(a: Artist)
    requires OkArtist(a)
    ensures Unbroken(EncArtist(a))
  {
    hide Escape, PrintInt;
    PrintUnbroken(a.id);
    EscapeUnbroken(a.artist);
    UnbrokenConcat(PrintInt(a.id), Escape(a.artist));
  }

  lemma AlbumUnbroken(a: Album)
    requires OkAlbum(a)
    ensures Unbroken(EncAlbum(a))
  {
    hide Escape, PrintInt, EncArtist;
    ArtistUnbroken(a.artist);
    PrintUnbroken(a.id);
    PrintUnbroken(a.year);
    EscapeUnbroken(a.album);
    UnbrokenConcat(PrintInt(a.year), EncArtist(a.artist));
    var r2 := PrintInt(a.year) + "\t" + EncArtist(a.artist);
    UnbrokenConcat(Escape(a.album), r2);
    UnbrokenConcat(PrintInt(a.id), Escape(a.album) + "\t" + r2);
  }

  lemma UserUnbroken(u: User)
    requires OkUser(u)
    ensures Unbroken(EncUser(u))
  {
    hide Escape, PrintInt;
    PrintUnbroken(u.id);
    PrintUnbroken(u.right);
    EscapeUnbroken(u.name);
    UnbrokenConcat(Escape(u.name), PrintInt(u.right));
    UnbrokenConcat(PrintInt(u.id), Escape(u.name) + "\t" + PrintInt(u.right));
  }

  lemma TrackUnbroken(t: Track)
    requires OkTrack(t)
    ensures Unbroken(EncTrack(t))
  {
    hide Escape, PrintInt, EncArtist, EncAlbum;
    ArtistUnbroken(t.artist);
    AlbumUnbroken(t.album);
    PrintUnbroken(t.id);
    PrintUnbroken(t.albumnr);
    PrintUnbroken(t.duration);
    EscapeUnbroken(t.title);
    var r4 := EncArtist(t.artist) + "\t" + EncAlbum(t.album);
    UnbrokenConcat(EncArtist(t.artist), EncAlbum(t.album));
    var r3 := PrintInt(t.duration) + "\t" + r4;
    UnbrokenConcat(PrintInt(t.duration), r4);
    var r2 := Escape(t.title) + "\t" + r3;
    UnbrokenConcat(Escape(t.title), r3);
    UnbrokenConcat(PrintInt(t.albumnr), r2);
    UnbrokenConcat(PrintInt(t.id), PrintInt(t.albumnr) + "\t" + r2);
  }

  lemma QueueUnbroken(q: Queue)
    requires OkQueue(q)
    ensures Unbroken(EncQueue(q))
  {
    hide PrintInt, EncUser, EncTrack;
    UserUnbroken(q.user);
    TrackUnbroken(q.track);
    PrintUnbroken(q.id);
    PrintUnbroken(q.queued);
    var r2 := EncUser(q.user) + "\t" + EncTrack(q.track);
    UnbrokenConcat(EncUser(q.user), EncTrack(q.track));
    UnbrokenConcat(PrintInt(q.queued), r2);
    UnbrokenConcat(PrintInt(q.id), PrintInt(q.queued) + "\t" + r2);
  }
}
