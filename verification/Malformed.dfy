/** Texts that are no records: a number is missing somewhere, after fields that are right. */
module Malformed {
  import opened CText
  import opened Wire
  import opened Records

  /** No number begins here. */
  predicate NoNumber(mem: string, i: nat) { Strtol(mem, i).end == i }

  predicate NumberThen(mem: string, i: nat, n: int) { IsInt(n) && Holds(mem, i, PrintInt(n) + "\t") }

  predicate NameThen(mem: string, i: nat, name: string) { Unbroken(name) && Holds(mem, i, Escape(name) + "\t") }

  /** The offset behind a field and its tab. */
  function Past(i: nat, field: string): nat { i + |field| + 1 }

  lemma NumberRead(mem: string, i: nat, n: int)
    requires NumberThen(mem, i, n)
    ensures Strtol(mem, i) == Number(n, i + |PrintInt(n)|) && |PrintInt(n)| > 0
  {
    hide Holds, PrintInt, Strtol;
    HoldsSplit(mem, i, PrintInt(n), "\t");
    HoldsAt(mem, i + |PrintInt(n)|, "\t", 0);
    ScanPrinted(mem, i, n);
  }

  lemma NameRead(mem: string, i: nat, name: string)
    requires NameThen(mem, i, name)
    ensures Field(mem, i) == (name, i + |Escape(name)|)
  {
    hide Holds, Escape, Field;
    HoldsSplit(mem, i, Escape(name), "\t");
    HoldsAt(mem, i + |Escape(name)|, "\t", 0);
    FieldRoundTrip(mem, i, name);
  }

  /** A user whose id is missing, or whose rights are. */
  predicate BadUser(mem: string, i: nat, u: User) {
    || NoNumber(mem, i)
    || var j := Past(i, PrintInt(u.id));
       NumberThen(mem, i, u.id) && NameThen(mem, j, u.name) && NoNumber(mem, Past(j, Escape(u.name)))
  }

  lemma BadUserRefused(mem: string, i: nat, u: User)
    requires BadUser(mem, i, u)
    ensures ParseUser(mem, i) == Conv(None, i)
  {
    hide Strtol, Field, Escape, PrintInt, Holds, NameThen, NumberThen;
    if !NoNumber(mem, i) {
      NumberRead(mem, i, u.id);
      NameRead(mem, Past(i, PrintInt(u.id)), u.name);
    }
  }

  /** An album whose id is missing, or its year, or its artist. */
  predicate BadAlbum(mem: string, i: nat, a: Album) {
    || NoNumber(mem, i)
    || var j := Past(i, PrintInt(a.id));
       var k := Past(j, Escape(a.album));
       && NumberThen(mem, i, a.id) && NameThen(mem, j, a.album)
       && (NoNumber(mem, k) || (NumberThen(mem, k, a.year) && NoNumber(mem, Past(k, PrintInt(a.year)))))
  }

  lemma BadAlbumRefused(mem: string, i: nat, a: Album)
    requires BadAlbum(mem, i, a)
    ensures ParseAlbum(mem, i) == Conv(None, i)
  {
    hide Strtol, Field, Escape, PrintInt, Holds, NameThen, NumberThen;
    if !NoNumber(mem, i) {
      var j := Past(i, PrintInt(a.id));
      var k := Past(j, Escape(a.album));
      NumberRead(mem, i, a.id);
      NameRead(mem, j, a.album);
      if !NoNumber(mem, k) { NumberRead(mem, k, a.year); }
    }
  }

  /** A written artist with a tab behind it. */
  predicate ArtistThen(mem: string, i: nat, a: Artist) {
    OkArtist(a) && Holds(mem, i, EncArtist(a)) && At(mem, i + |EncArtist(a)|) == '\t'
  }

  predicate UserThen(mem: string, i: nat, u: User) {
    OkUser(u) && Holds(mem, i, EncUser(u)) && At(mem, i + |EncUser(u)|) == '\t'
  }

  /** The same from the title on. */
  predicate BadTitle(mem: string, i: nat, t: Track) {
    var j := Past(i, Escape(t.title));
    var k := Past(j, PrintInt(t.duration));
    && NameThen(mem, i, t.title)
    && (NoNumber(mem, j)
        || (NumberThen(mem, j, t.duration)
            && (NoNumber(mem, k)
                || (ArtistThen(mem, k, t.artist) && BadAlbum(mem, Past(k, EncArtist(t.artist)), t.album)))))
  }

  /** A track one of whose numbers is missing, also inside its artist or its album. */
  predicate BadTrack(mem: string, i: nat, t: Track) {
    || NoNumber(mem, i)
    || var j := Past(i, PrintInt(t.id));
       && NumberThen(mem, i, t.id)
       && (NoNumber(mem, j) || (NumberThen(mem, j, t.albumnr) && BadTitle(mem, Past(j, PrintInt(t.albumnr)), t)))
  }

  lemma BadTrackRefused(mem: string, i: nat, t: Track)
    requires BadTrack(mem, i, t)
    ensures ParseTrack(mem, i) == Conv(None, i)
  {
    hide Strtol, Field, Escape, PrintInt, Holds, NameThen, NumberThen, EncArtist, OkArtist;
    hide ParseAlbum, BadAlbum;
    if !NoNumber(mem, i) {
      var j := Past(i, PrintInt(t.id));
      NumberRead(mem, i, t.id);
      if !NoNumber(mem, j) {
        var k := Past(j, PrintInt(t.albumnr));
        NumberRead(mem, j, t.albumnr);
        NameRead(mem, k, t.title);
        var l := Past(k, Escape(t.title));
        if !NoNumber(mem, l) {
          var m := Past(l, PrintInt(t.duration));
          NumberRead(mem, l, t.duration);
          if !NoNumber(mem, m) {
            ArtistRoundTrip(mem, m, t.artist);
            BadAlbumRefused(mem, Past(m, EncArtist(t.artist)), t.album);
          }
        }
      }
    }
  }

  /** A queue entry one of whose numbers is missing, also inside its user or its track. */
  predicate BadQueue(mem: string, i: nat, q: Queue) {
    || NoNumber(mem, i)
    || var j := Past(i, PrintInt(q.id));
       var k := Past(j, PrintInt(q.queued));
       && NumberThen(mem, i, q.id)
       && (NoNumber(mem, j)
           || (NumberThen(mem, j, q.queued)
               && (BadUser(mem, k, q.user)
                   || (UserThen(mem, k, q.user) && BadTrack(mem, Past(k, EncUser(q.user)), q.track)))))
  }

  /** Nothing is parsed and nothing consumed if a number is missing anywhere in the entry. */
  lemma BadQueueRefused(mem: string, i: nat, q: Queue)
    requires BadQueue(mem, i, q)
    ensures ParseQueue(mem, i) == Conv(None, i)
  {
    hide Strtol, PrintInt, Holds, NumberThen, EncUser, OkUser, BadUser, BadTrack, ParseUser, ParseTrack;
    if !NoNumber(mem, i) {
      var j := Past(i, PrintInt(q.id));
      NumberRead(mem, i, q.id);
      if !NoNumber(mem, j) {
        var k := Past(j, PrintInt(q.queued));
        NumberRead(mem, j, q.queued);
        if BadUser(mem, k, q.user) {
          BadUserRefused(mem, k, q.user);
        } else {
          UserRoundTrip(mem, k, q.user);
          BadTrackRefused(mem, Past(k, EncUser(q.user)), q.track);
        }
      }
    }
  }

  /** A history entry one of whose numbers is missing. */
  predicate BadHistory(mem: string, i: nat, h: History) {
    || NoNumber(mem, i)
    || var j := Past(i, PrintInt(h.played));
       && NumberThen(mem, i, h.played)
       && (BadUser(mem, j, h.user)
           || (UserThen(mem, j, h.user) && BadTrack(mem, Past(j, EncUser(h.user)), h.track)))
  }

  lemma BadHistoryRefused(mem: string, i: nat, h: History)
    requires BadHistory(mem, i, h)
    ensures ParseHistory(mem, i) == Conv(None, i)
  {
    hide Strtol, PrintInt, Holds, NumberThen, EncUser, OkUser, BadUser, BadTrack, ParseUser, ParseTrack;
    if !NoNumber(mem, i) {
      var j := Past(i, PrintInt(h.played));
      NumberRead(mem, i, h.played);
      if BadUser(mem, j, h.user) {
        BadUserRefused(mem, j, h.user);
      } else {
        UserRoundTrip(mem, j, h.user);
        BadTrackRefused(mem, Past(j, EncUser(h.user)), h.track);
      }
    }
  }
}
