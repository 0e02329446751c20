/** The server as the command-line languages see it: what it is asked while a text is read. */
module Lookup {
  import opened CText
  import R = Records

  /** The commands that reading a list can make the client send. */
  datatype Question =
    | CurTrack                        // curtrack
    | TracksAlbum(album: int)         // tracksalbum
    | TrackAt(album: int, pos: int)   // track2id
    | TagId(name: string)             // tag2id

  /** What the server would answer; the first argument counts the questions asked before, so
      the answers may change at any time. */
  datatype Server = Server(
    current: nat -> Option<R.Track>,
    tracks: (nat, int) -> Option<seq<R.Track>>,
    trackId: (nat, int, int) -> int,
    tagId: (nat, string) -> int)

  /** The connection to it, with the questions asked so far. */
  class Link {
    const server: Server
    var asked: seq<Question>

    constructor (server: Server)
      ensures this.server == server && asked == []
    {
      this.server, asked := server, [];
    }

    method CurrentTrack() returns (t: Option<R.Track>)
      modifies this
      ensures asked == old(asked) + [CurTrack] && t == server.current(|old(asked)|)
    {
      t := server.current(|asked|);
      asked := asked + [CurTrack];
    }

    method AlbumTracks(album: int) returns (ts: Option<seq<R.Track>>)
      modifies this
      ensures asked == old(asked) + [TracksAlbum(album)]
      ensures ts == server.tracks(|old(asked)|, album)
    {
      ts := server.tracks(|asked|, album);
      asked := asked + [TracksAlbum(album)];
    }

    method TrackToId(album: int, pos: int) returns (id: int)
      modifies this
      ensures asked == old(asked) + [TrackAt(album, pos)]
      ensures id == server.trackId(|old(asked)|, album, pos)
    {
      id := server.trackId(|asked|, album, pos);
      asked := asked + [TrackAt(album, pos)];
    }

    method TagToId(name: string) returns (id: int)
      modifies this
      ensures asked == old(asked) + [TagId(name)] && id == server.tagId(|old(asked)|, name)
    {
      id := server.tagId(|asked|, name);
      asked := asked + [TagId(name)];
    }
  }

  /** What a converter makes of a text: the value of the item, where it ends (at its start:
      it is wrong), and the questions asked until then. */
  datatype Scan = Scan(value: int, end: nat, asked: seq<Question>)
}
